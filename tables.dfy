/** The rows of the SQLite store the engine reads and writes, and the store
    itself. Only the columns the engine touches are modelled. Timestamps
    (`created_at`, `CURRENT_TIMESTAMP`, `reign_start`, `reign_end`) are opaque
    integers ordered like the stored date-time strings; the caller supplies the
    current time. */
module Tables {
  import opened Basics

  /** The six regional popularity columns (`popularity_na` ... `popularity_europe`). */
  datatype Popularity = Popularity(na: real, sa: real, asia: real, oceania: real, africa: real, europe: real)

  /** A row of `workers`. */
  datatype Worker = Worker(
    id: int,
    name: string,
    promotionId: int,
    skill: int,            // wrestling_skill
    entertainment: int,
    starPower: int,
    intimidation: int,
    psychology: int,
    stamina: int,
    popularity: Popularity,
    totalMatches: int,
    totalWins: int,
    totalLosses: int)

  /** A row of `titles`; `champion == None` is a vacant title. */
  datatype Title = Title(name: string, champion: Option<int>, defenses: int)

  /** A row of `events`; `day` stands for the ISO date string the batch stores. */
  datatype Event = Event(
    promotionId: int,
    name: string,
    day: int,
    venue: string,
    status: string,
    averageRating: Option<real>)

  /** A row of `match_results`. */
  datatype MatchRow = MatchRow(
    id: int,
    eventId: int,
    worker1: int,
    worker2: Option<int>,
    worker3: Option<int>,
    worker4: Option<int>,
    winner: int,
    matchType: string,
    titleId: Option<int>,
    quality: real,
    segmentRating: real,
    crowdReaction: string,
    finishType: string,
    description: string,
    createdAt: int)

  /** A row of `title_history`; `end == None` is an open reign. */
  datatype Reign = Reign(titleId: int, championId: int, start: int, end: Option<int>, defenses: int)

  /** The database handle. `workers` and `matches` keep rowid order, which is
      the order SQLite's unordered scans return. `nextEventId` and
      `nextMatchId` are the AUTOINCREMENT counters. */
  class Database {
    var workers: seq<Worker>
    var titles: map<int, Title>
    var events: map<int, Event>
    var matches: seq<MatchRow>
    var history: seq<Reign>
    var nextEventId: int
    var nextMatchId: int

    /** Every stored event id was handed out by the counter. */
    ghost predicate Valid()
      reads this
    {
      forall id :: id in events ==> id < nextEventId
    }
  }

  /** `SELECT * FROM workers WHERE id = ?` followed by `.get`: the first row
      with that id. */
  function FindWorker(ws: seq<Worker>, id: int): (r: Option<nat>)
    ensures r.Some? ==> r.value < |ws| && ws[r.value].id == id
    ensures r.Some? ==> forall k :: 0 <= k < r.value ==> ws[k].id != id
    ensures r.None? <==> forall k :: 0 <= k < |ws| ==> ws[k].id != id
    decreases |ws|
  {
    if |ws| == 0 then None
    else if ws[0].id == id then Some(0)
    else match FindWorker(ws[1..], id)
      case None => None
      case Some(i) => Some(i + 1)
  }

  /** The id column of `workers`, in row order. */
  function Ids(ws: seq<Worker>): (r: seq<int>)
    ensures |r| == |ws|
    ensures forall k :: 0 <= k < |ws| ==> r[k] == ws[k].id
  {
    seq(|ws|, k requires 0 <= k < |ws| => ws[k].id)
  }

  /** Whether a foreign key into `workers` resolves. */
  predicate HasWorker(ws: seq<Worker>, id: int)
  {
    FindWorker(ws, id).Some?
  }

  /** A lookup by id only looks at the id column. */
  lemma {:induction false} FindWorkerByIds(ws: seq<Worker>, ws': seq<Worker>, id: int)
    requires Ids(ws) == Ids(ws')
    ensures FindWorker(ws, id) == FindWorker(ws', id)
    decreases |ws|
  {
    assert |ws| == |ws'|;
    if |ws| > 0 {
      assert ws[0].id == Ids(ws)[0] == ws'[0].id;
      assert Ids(ws[1..]) == Ids(ws)[1..] == Ids(ws')[1..] == Ids(ws'[1..]);
      FindWorkerByIds(ws[1..], ws'[1..], id);
    }
  }

  /** A key that resolves is a value of the id column. */
  lemma FoundIdListed(ws: seq<Worker>, id: int)
    ensures HasWorker(ws, id) ==> id in Ids(ws)
  {
    if HasWorker(ws, id) {
      assert Ids(ws)[FindWorker(ws, id).value] == id;
    }
  }

  lemma StoredWorkerIsFound(ws: seq<Worker>, w: Worker)
    requires w in ws
    ensures HasWorker(ws, w.id)
  {
    var k :| 0 <= k < |ws| && ws[k] == w;
    assert ws[k].id == w.id;
  }
}
