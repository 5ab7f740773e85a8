/** The store-updating half of `electron/simulation.js`: worker statistics,
    event ratings, the title lineage, and the batch driver. Each JavaScript
    function `f(db, ...)` is a method `F(db: Database, ...)` that changes only
    the tables the function writes; what it writes is given by a function of
    the old tables, and the properties the game relies on are proved about
    those functions. */
module Simulation {
  import opened Basics
  import opened Tables
  import opened MatchEngine

  const ForeignKeyFailed := "FOREIGN KEY constraint failed"
  const ReignStartNull := "NOT NULL constraint failed: title_history.reign_start"
  const NotEnoughWorkers := "Promoção não tem lutadores suficientes"

  // ------------------------------------------------------------------
  // updateWorkerStats

  /** The six popularity values in a fixed order. */
  function Regions(p: Popularity): seq<real>
  {
    [p.na, p.sa, p.asia, p.oceania, p.africa, p.europe]
  }

  predicate PopularityInRange(p: Popularity)
  {
    forall k :: 0 <= k < |Regions(p)| ==> 0.0 <= Regions(p)[k] <= 100.0
  }

  /** `MAX(0, MIN(100, popularity_x + ?))` on all six columns. */
  function ShiftPopularity(p: Popularity, delta: real): (q: Popularity)
    ensures PopularityInRange(q)
  {
    Popularity(
      Clamp(p.na + delta, 0.0, 100.0),
      Clamp(p.sa + delta, 0.0, 100.0),
      Clamp(p.asia + delta, 0.0, 100.0),
      Clamp(p.oceania + delta, 0.0, 100.0),
      Clamp(p.africa + delta, 0.0, 100.0),
      Clamp(p.europe + delta, 0.0, 100.0))
  }

  /** Every region moves by `delta`, kept within [0, 100]. */
  lemma ShiftPopularityRegions(p: Popularity, delta: real)
    ensures PopularityInRange(ShiftPopularity(p, delta))
    ensures forall k :: 0 <= k < 6 ==> Regions(ShiftPopularity(p, delta))[k] == Clamp(Regions(p)[k] + delta, 0.0, 100.0)
  {
    var r := Regions(p);
    var shifted := seq(6, k requires 0 <= k < 6 => Clamp(r[k] + delta, 0.0, 100.0));
    assert Regions(ShiftPopularity(p, delta)) == shifted;
  }

  /** A worker's record is consistent when every match was a win or a loss. */
  predicate RecordConsistent(w: Worker)
  {
    w.totalWins + w.totalLosses == w.totalMatches
  }

  predicate AllConsistent(ws: seq<Worker>)
  {
    forall k :: 0 <= k < |ws| ==> RecordConsistent(ws[k])
  }

  predicate AllPopularityInRange(ws: seq<Worker>)
  {
    forall k :: 0 <= k < |ws| ==> PopularityInRange(ws[k].popularity)
  }

  /** The row `updateWorkerStats` writes: one more match, and one more win or
      one more loss (see `AfterMatchColumns` for the popularity). */
  function AfterMatch(w: Worker, won: bool): (w': Worker)
    ensures w'.totalMatches == w.totalMatches + 1
    ensures won ==> w'.totalWins == w.totalWins + 1 && w'.totalLosses == w.totalLosses
    ensures !won ==> w'.totalLosses == w.totalLosses + 1 && w'.totalWins == w.totalWins
    ensures RecordConsistent(w) ==> RecordConsistent(w')
  {
    w.(totalMatches := w.totalMatches + 1,
       totalWins := if won then w.totalWins + 1 else w.totalWins,
       totalLosses := if won then w.totalLosses else w.totalLosses + 1,
       popularity := ShiftPopularity(w.popularity, if won then 15.0 else -5.0))
  }

  /** The row gains 15 popularity points on a win or loses 5 on a loss in
      every region, kept within [0, 100], and no other column changes. */
  lemma AfterMatchColumns(w: Worker, won: bool)
    ensures var w' := AfterMatch(w, won);
            && (forall k :: 0 <= k < 6 ==>
                  Regions(w'.popularity)[k] == Clamp(Regions(w.popularity)[k] + (if won then 15.0 else -5.0), 0.0, 100.0))
            && w' == w.(popularity := w'.popularity, totalMatches := w'.totalMatches,
                        totalWins := w'.totalWins, totalLosses := w'.totalLosses)
            && PopularityInRange(w'.popularity)
  {
    ShiftPopularityRegions(w.popularity, if won then 15.0 else -5.0);
  }

  /** The `workers` table after `updateWorkerStats(db, id, won)`: the row with
      that id is replaced by `AfterMatch`, and a missing id changes nothing. */
  function WithMatchResult(ws: seq<Worker>, id: int, won: bool): (r: seq<Worker>)
    ensures Ids(r) == Ids(ws)
    ensures FindWorker(ws, id).None? ==> r == ws
    ensures FindWorker(ws, id).Some? ==>
              var i := FindWorker(ws, id).value;
              r[i] == AfterMatch(ws[i], won) && forall k :: 0 <= k < |ws| && k != i ==> r[k] == ws[k]
    ensures AllConsistent(ws) ==> AllConsistent(r)
    ensures AllPopularityInRange(ws) ==> AllPopularityInRange(r)
  {
    match FindWorker(ws, id)
    case None => ws
    case Some(i) =>
      var r := ws[i := AfterMatch(ws[i], won)];
      assert Ids(r) == Ids(ws);
      AfterMatchColumns(ws[i], won);
      r
  }

  /** `updateWorkerStats`. */
  method UpdateWorkerStats(db: Database, workerId: int, isWinner: bool)
    modifies db`workers
    ensures db.workers == WithMatchResult(old(db.workers), workerId, isWinner)
  {
    db.workers := WithMatchResult(db.workers, workerId, isWinner);
  }

  /** Every lookup by id gives the same row index after a stats update. */
  lemma LookupsSurviveStats(ws: seq<Worker>, id: int, won: bool, other: int)
    ensures FindWorker(WithMatchResult(ws, id, won), other) == FindWorker(ws, other)
  {
    FindWorkerByIds(WithMatchResult(ws, id, won), ws, other);
  }

  // ------------------------------------------------------------------
  // updateEventRating

  /** `SELECT segment_rating FROM match_results WHERE event_id = ?`, in row order. */
  function Ratings(ms: seq<MatchRow>, eventId: int): (rs: seq<real>)
    ensures |rs| <= |ms|
    decreases |ms|
  {
    if |ms| == 0 then []
    else (if ms[0].eventId == eventId then [ms[0].segmentRating] else []) + Ratings(ms[1..], eventId)
  }

  /** The query selects exactly the rows of the event: it is empty iff no row
      belongs to the event, and every rating it returns is one of the event's. */
  lemma {:induction false} RatingsSelect(ms: seq<MatchRow>, eventId: int)
    ensures |Ratings(ms, eventId)| == 0 <==> forall j :: 0 <= j < |ms| ==> ms[j].eventId != eventId
    ensures forall i :: 0 <= i < |Ratings(ms, eventId)| ==>
              exists j :: 0 <= j < |ms| && ms[j].eventId == eventId && ms[j].segmentRating == Ratings(ms, eventId)[i]
    decreases |ms|
  {
    if |ms| > 0 {
      RatingsSelect(ms[1..], eventId);
      var rs := Ratings(ms, eventId);
      var head := if ms[0].eventId == eventId then [ms[0].segmentRating] else [];
      assert rs == head + Ratings(ms[1..], eventId);
      forall i | 0 <= i < |rs|
        ensures exists j :: 0 <= j < |ms| && ms[j].eventId == eventId && ms[j].segmentRating == rs[i]
      {
        if i < |head| {
          assert ms[0].eventId == eventId && ms[0].segmentRating == rs[i];
        } else {
          var j :| 0 <= j < |ms[1..]| && ms[1..][j].eventId == eventId && ms[1..][j].segmentRating == rs[i];
          assert ms[j + 1] == ms[1..][j];
        }
      }
      if forall j :: 0 <= j < |ms| ==> ms[j].eventId != eventId {
        assert forall j :: 0 <= j < |ms[1..]| ==> ms[1..][j] == ms[j + 1];
      }
    }
  }

  function Sum(rs: seq<real>): real
    decreases |rs|
  {
    if |rs| == 0 then 0.0 else rs[0] + Sum(rs[1..])
  }

  /** The arithmetic mean the `reduce` computes. */
  function Mean(rs: seq<real>): (m: real)
    requires |rs| > 0
    ensures (forall k :: 0 <= k < |rs| ==> rs[k] == rs[0]) ==> m == rs[0]
  {
    SumConstant(rs);
    Sum(rs) / |rs| as real
  }

  lemma {:induction false} SumConstant(rs: seq<real>)
    requires |rs| > 0
    ensures (forall k :: 0 <= k < |rs| ==> rs[k] == rs[0]) ==> Sum(rs) == |rs| as real * rs[0]
    decreases |rs|
  {
    if (forall k :: 0 <= k < |rs| ==> rs[k] == rs[0]) && |rs| > 1 {
      SumConstant(rs[1..]);
      assert rs[1..][0] == rs[0];
      assert forall k :: 0 <= k < |rs[1..]| ==> rs[1..][k] == rs[k + 1];
    }
  }

  /** The `events` table after `updateEventRating(db, eventId)`: the event's
      `average_rating` becomes the mean of its segment ratings; with no match
      rows, or no such event, nothing is written. */
  function Rated(events: map<int, Event>, ms: seq<MatchRow>, eventId: int): (r: map<int, Event>)
    ensures r.Keys == events.Keys
    ensures forall id :: id in events && id != eventId ==> r[id] == events[id]
    ensures |Ratings(ms, eventId)| == 0 ==> r == events
    ensures eventId in events && |Ratings(ms, eventId)| > 0 ==>
              r[eventId] == events[eventId].(averageRating := Some(Mean(Ratings(ms, eventId))))
  {
    var rs := Ratings(ms, eventId);
    if |rs| == 0 || eventId !in events then events
    else events[eventId := events[eventId].(averageRating := Some(Mean(rs)))]
  }

  /** `updateEventRating`. */
  method UpdateEventRating(db: Database, eventId: int)
    modifies db`events
    ensures db.events == Rated(old(db.events), db.matches, eventId)
  {
    var rs := Ratings(db.matches, eventId);
    if |rs| == 0 {
      return;
    }
    if eventId in db.events {
      db.events := db.events[eventId := db.events[eventId].(averageRating := Some(Mean(rs)))];
    }
  }

  /** A newly inserted row of the event is the last rating the query returns. */
  lemma {:induction false} RatingsAppend(ms: seq<MatchRow>, row: MatchRow, eventId: int)
    ensures Ratings(ms + [row], eventId)
            == Ratings(ms, eventId) + (if row.eventId == eventId then [row.segmentRating] else [])
    decreases |ms|
  {
    if |ms| == 0 {
      assert ms + [row] == [row];
      assert [row][1..] == [];
    } else {
      var head := if ms[0].eventId == eventId then [ms[0].segmentRating] else [];
      var tail := if row.eventId == eventId then [row.segmentRating] else [];
      assert (ms + [row])[0] == ms[0];
      assert (ms + [row])[1..] == ms[1..] + [row];
      RatingsAppend(ms[1..], row, eventId);
      assert Ratings(ms + [row], eventId) == head + (Ratings(ms[1..], eventId) + tail);
      assert Ratings(ms, eventId) == head + Ratings(ms[1..], eventId);
    }
  }

  lemma {:induction false} SumWithin(rs: seq<real>, lo: real, hi: real)
    requires forall k :: 0 <= k < |rs| ==> lo <= rs[k] <= hi
    ensures |rs| as real * lo <= Sum(rs) <= |rs| as real * hi
    decreases |rs|
  {
    if |rs| > 0 {
      SumWithin(rs[1..], lo, hi);
      assert |rs| as real * lo == (|rs| - 1) as real * lo + lo;
      assert |rs| as real * hi == (|rs| - 1) as real * hi + hi;
    }
  }

  /** The mean of ratings in [lo, hi] lies in [lo, hi]; a stored average of
      segment ratings, which are at least 1 and at most 10, is in [1, 10]. */
  lemma MeanWithin(rs: seq<real>, lo: real, hi: real)
    requires |rs| > 0
    requires forall k :: 0 <= k < |rs| ==> lo <= rs[k] <= hi
    ensures lo <= Mean(rs) <= hi
  {
    SumWithin(rs, lo, hi);
    var n := |rs| as real;
    DivideBoth(lo, 1.0, Sum(rs), n);
    DivideBoth(Sum(rs), n, hi, 1.0);
  }

  /** Three matches rated 8, 7 and 9 give the event an average of exactly 8. */
  lemma MeanOfThree()
    ensures Mean([8.0, 7.0, 9.0]) == 8.0
  {
    assert Sum([8.0, 7.0, 9.0]) == 8.0 + Sum([7.0, 9.0]);
    assert Sum([7.0, 9.0]) == 7.0 + Sum([9.0]);
    assert Sum([9.0]) == 9.0 + Sum([]);
  }

  // ------------------------------------------------------------------
  // updateTitleChampion

  predicate WonTitleMatch(m: MatchRow, champion: int, titleId: int)
  {
    m.winner == champion && m.titleId == Some(titleId)
  }

  /** `SELECT MIN(created_at) FROM match_results WHERE winner_id = ? AND
      title_id = ?`; `None` is SQL's NULL when no row qualifies. */
  function FirstTitleWin(ms: seq<MatchRow>, champion: int, titleId: int): (t: Option<int>)
    ensures t.None? <==> forall k :: 0 <= k < |ms| ==> !WonTitleMatch(ms[k], champion, titleId)
    ensures t.Some? ==> exists k :: 0 <= k < |ms| && WonTitleMatch(ms[k], champion, titleId) && ms[k].createdAt == t.value
    ensures t.Some? ==> forall k :: 0 <= k < |ms| && WonTitleMatch(ms[k], champion, titleId) ==> t.value <= ms[k].createdAt
    decreases |ms|
  {
    if |ms| == 0 then None
    else
      var rest := FirstTitleWin(ms[1..], champion, titleId);
      assert forall k :: 1 <= k < |ms| ==> ms[k] == ms[1..][k - 1];
      if !WonTitleMatch(ms[0], champion, titleId) then rest
      else if rest.Some? && rest.value < ms[0].createdAt then rest
      else Some(ms[0].createdAt)
  }

  /** A row appended to the table is a title win of `champion` exactly when it
      is one more reason for a first win to exist. */
  lemma FirstTitleWinAppend(ms: seq<MatchRow>, m: MatchRow, champion: int, titleId: int)
    ensures FirstTitleWin(ms + [m], champion, titleId).Some? <==>
              FirstTitleWin(ms, champion, titleId).Some? || WonTitleMatch(m, champion, titleId)
  {
    var ms' := ms + [m];
    assert ms'[|ms|] == m;
    assert forall k :: 0 <= k < |ms| ==> ms'[k] == ms[k];
  }

  /** The two title tables after `updateTitleChampion`, and the error it
      raised, if any. */
  datatype TitleChange = TitleChange(titles: map<int, Title>, history: seq<Reign>, error: Option<string>)

  /** The reign row inserted for the outgoing holder: from their first title
      win to now, carrying the title's defense counter. */
  function ClosedReign(ms: seq<MatchRow>, titleId: int, t: Title, now: int): (r: Result<Reign>)
    requires t.champion.Some?
    ensures r.Failure? <==> FirstTitleWin(ms, t.champion.value, titleId).None?
    ensures r.Failure? ==> r.error == ReignStartNull
    ensures r.Success? ==>
              && r.value.titleId == titleId && r.value.championId == t.champion.value
              && r.value.start == FirstTitleWin(ms, t.champion.value, titleId).value
              && r.value.end == Some(now) && r.value.defenses == t.defenses
  {
    match FirstTitleWin(ms, t.champion.value, titleId)
    case None => Failure(ReignStartNull)
    case Some(start) => Success(Reign(titleId, t.champion.value, start, Some(now), t.defenses))
  }

  /** `updateTitleChampion(db, titleId, champion, eventId)`. A missing title is
      a silent no-op. A held title first gets a closed history row for the
      holder, which fails when the holder never won a recorded match for this
      title (its start would be NULL) or no longer exists. The title then gets
      the new holder and a defense counter of 1 (failing if the holder is not
      a worker), and a new open row with 0 defenses is appended. No existing
      history row is ever changed. */
  function ChampionChange(titles: map<int, Title>, history: seq<Reign>, ws: seq<Worker>, ms: seq<MatchRow>,
                          titleId: int, champion: int, now: int): (c: TitleChange)
    ensures titleId !in titles ==> c == TitleChange(titles, history, None)
    ensures c.titles.Keys == titles.Keys
    ensures forall id :: id in titles && id != titleId ==> c.titles[id] == titles[id]
    ensures history <= c.history
    ensures c.error.Some? ==> c.titles == titles
    ensures titleId in titles && c.error.None? ==>
              c.titles[titleId] == titles[titleId].(champion := Some(champion), defenses := 1)
    ensures titleId in titles && c.error.None? ==>
              |c.history| > |history| && c.history[|c.history| - 1] == Reign(titleId, champion, now, None, 0)
    ensures titleId in titles && titles[titleId].champion.None? ==>
              c.history == history + (if c.error.None? then [Reign(titleId, champion, now, None, 0)] else [])
    ensures titleId in titles && titles[titleId].champion.Some? && c.error.None? ==>
              var p := titles[titleId].champion.value;
              && |c.history| == |history| + 2
              && FirstTitleWin(ms, p, titleId).Some?
              && c.history[|history|] == Reign(titleId, p, FirstTitleWin(ms, p, titleId).value, Some(now), titles[titleId].defenses)
    ensures titleId in titles ==>
              (c.error.None? <==>
                 && HasWorker(ws, champion)
                 && (titles[titleId].champion.Some? ==>
                       && FirstTitleWin(ms, titles[titleId].champion.value, titleId).Some?
                       && HasWorker(ws, titles[titleId].champion.value)))
    ensures c.error == Some(ReignStartNull) <==>
              && titleId in titles && titles[titleId].champion.Some?
              && FirstTitleWin(ms, titles[titleId].champion.value, titleId).None?
    ensures c.error.Some? ==> c.error == Some(ReignStartNull) || c.error == Some(ForeignKeyFailed)
    ensures titleId in titles && c.error.Some? ==>
              var t := titles[titleId];
              c.history == history +
                if t.champion.Some? && FirstTitleWin(ms, t.champion.value, titleId).Some? && HasWorker(ws, t.champion.value)
                then [Reign(titleId, t.champion.value, FirstTitleWin(ms, t.champion.value, titleId).value, Some(now), t.defenses)]
                else []
  {
    if titleId !in titles then TitleChange(titles, history, None)
    else
      var t := titles[titleId];
      var closed: Result<seq<Reign>> :=
        if t.champion.None? then Success([])
        else match ClosedReign(ms, titleId, t, now)
          case Failure(e) => Failure(e)
          case Success(reign) => if HasWorker(ws, reign.championId) then Success([reign]) else Failure(ForeignKeyFailed);
      match closed
      case Failure(e) => TitleChange(titles, history, Some(e))
      case Success(rows) =>
        var h := history + rows;
        if !HasWorker(ws, champion) then TitleChange(titles, h, Some(ForeignKeyFailed))
        else TitleChange(titles[titleId := t.(champion := Some(champion), defenses := 1)],
                         h + [Reign(titleId, champion, now, None, 0)], None)
  }

  /** `updateTitleChampion`. The event id is accepted and unused, as in the source. */
  method UpdateTitleChampion(db: Database, titleId: int, newChampionId: int, eventId: int, now: int)
    returns (error: Option<string>)
    modifies db`titles, db`history
    ensures TitleChange(db.titles, db.history, error)
            == ChampionChange(old(db.titles), old(db.history), db.workers, db.matches, titleId, newChampionId, now)
  {
    var c := ChampionChange(db.titles, db.history, db.workers, db.matches, titleId, newChampionId, now);
    db.titles, db.history, error := c.titles, c.history, c.error;
  }

  /** The number of open history rows of a title. */
  function OpenReigns(h: seq<Reign>, titleId: int): (n: nat)
    ensures n <= |h|
    decreases |h|
  {
    if |h| == 0 then 0
    else OpenReigns(h[..|h| - 1], titleId) + (if h[|h| - 1].titleId == titleId && h[|h| - 1].end.None? then 1 else 0)
  }

  lemma {:induction false} OpenReignsAppend(h: seq<Reign>, extra: seq<Reign>, titleId: int)
    ensures OpenReigns(h + extra, titleId) == OpenReigns(h, titleId) + OpenReigns(extra, titleId)
    decreases |extra|
  {
    if |extra| == 0 {
      assert h + extra == h;
    } else {
      assert (h + extra)[..|h + extra| - 1] == h + extra[..|extra| - 1];
      OpenReignsAppend(h, extra[..|extra| - 1], titleId);
    }
  }

  /** Every successful title match adds exactly one open reign and closes
      none: open reigns pile up. */
  lemma OpenReignsGrow(titles: map<int, Title>, history: seq<Reign>, ws: seq<Worker>, ms: seq<MatchRow>,
                       titleId: int, champion: int, now: int)
    requires titleId in titles
    requires ChampionChange(titles, history, ws, ms, titleId, champion, now).error.None?
    ensures OpenReigns(ChampionChange(titles, history, ws, ms, titleId, champion, now).history, titleId)
            == OpenReigns(history, titleId) + 1
  {
    var c := ChampionChange(titles, history, ws, ms, titleId, champion, now);
    var extra := c.history[|history|..];
    assert c.history == history + extra;
    OpenReignsAppend(history, extra, titleId);
    if titles[titleId].champion.None? {
      assert extra == [Reign(titleId, champion, now, None, 0)];
    } else {
      assert extra == [c.history[|history|], Reign(titleId, champion, now, None, 0)];
      assert extra[..1] == [c.history[|history|]];
    }
  }

  /** Two title matches on a vacant title, both recorded, leave two open
      reigns for it: the store does not keep at most one open reign. */
  lemma TwoTitleMatchesTwoOpenReigns(titles: map<int, Title>, ws: seq<Worker>, ms: seq<MatchRow>,
                                     titleId: int, a: int, b: int, now: int)
    requires titleId in titles && titles[titleId].champion.None?
    requires HasWorker(ws, a) && HasWorker(ws, b)
    requires exists k :: 0 <= k < |ms| && WonTitleMatch(ms[k], a, titleId)
    ensures var c1 := ChampionChange(titles, [], ws, ms, titleId, a, now);
            var c2 := ChampionChange(c1.titles, c1.history, ws, ms, titleId, b, now);
            c2.error.None? && OpenReigns(c2.history, titleId) == 2
  {
    var c1 := ChampionChange(titles, [], ws, ms, titleId, a, now);
    assert c1.error.None?;
    OpenReignsGrow(titles, [], ws, ms, titleId, a, now);
    var c2 := ChampionChange(c1.titles, c1.history, ws, ms, titleId, b, now);
    assert c1.titles[titleId].champion == Some(a);
    assert FirstTitleWin(ms, a, titleId).Some?;
    assert c2.error.None?;
    OpenReignsGrow(c1.titles, c1.history, ws, ms, titleId, b, now);
  }

  // ------------------------------------------------------------------
  // processAutoSimulation

  datatype Config = Config(promotionId: int, numberOfEvents: nat, matchesPerEvent: nat, eventNamePrefix: string)

  /** Storage failures to inject: the message an event's INSERT, a match's
      INSERT (keyed by event and match number) or an event's rating UPDATE
      raises. */
  datatype Faults = Faults(eventInsert: map<nat, string>, matchInsert: map<(nat, nat), string>, eventRating: map<nat, string>)

  /** The object `processAutoSimulation` returns. */
  datatype Summary = Summary(eventsCreated: nat, matchesSimulated: nat, errors: seq<string>)

  /** The run either is refused up front, finishes, or (in the model only) runs
      out of recorded random draws; then it stops with what it has done. */
  datatype BatchResult = Rejected(message: string) | Finished(summary: Summary) | DrawsExhausted(partial: Summary, atEvent: nat)

  const PoolLimit: nat := 200

  /** `SELECT * FROM workers WHERE promotion_id = ?` without the limit. */
  function OfPromotion(ws: seq<Worker>, promotionId: int): (r: seq<Worker>)
    ensures forall w :: w in r <==> w in ws && w.promotionId == promotionId
    ensures |r| <= |ws|
    decreases |ws|
  {
    if |ws| == 0 then []
    else
      var rest := OfPromotion(ws[1..], promotionId);
      assert forall w :: w in ws <==> w == ws[0] || w in ws[1..];
      if ws[0].promotionId == promotionId then [ws[0]] + rest else rest
  }

  /** The worker pool of a run: the promotion's workers, at most 200. */
  function Roster(ws: seq<Worker>, promotionId: int): (pool: seq<Worker>)
    ensures |pool| <= PoolLimit
    ensures forall w :: w in pool ==> w in ws && w.promotionId == promotionId
    ensures |pool| < PoolLimit ==> forall w :: w in ws && w.promotionId == promotionId ==> w in pool
    ensures pool <= OfPromotion(ws, promotionId)
    ensures |pool| == if |OfPromotion(ws, promotionId)| < PoolLimit then |OfPromotion(ws, promotionId)| else PoolLimit
  {
    var all := OfPromotion(ws, promotionId);
    if |all| <= PoolLimit then all
    else
      assert forall w :: w in all[..PoolLimit] ==> w in all;
      all[..PoolLimit]
  }

  /** The label of a failed match's error text. */
  const MatchLabel: string := "Erro no match "

  /** The label of a failed event's error text. */
  const EventLabel: string := "Erro no evento "

  /** The text logged for a failed match or event (see `LoggedErrorText`). */
  function LoggedError(prefix: string, num: nat, message: string): (s: string)
    ensures |prefix| + 3 + |message| <= |s|
    ensures s[..|prefix|] == prefix && s[|s| - |message|..] == message
  {
    prefix + NatToString(num) + ": " + message
  }

  /** The logged text is the prefix, the number in decimal, ": " and the
      message. */
  lemma LoggedErrorText(prefix: string, num: nat, message: string)
    ensures var s := LoggedError(prefix, num, message);
            && |s| == |prefix| + |NatToString(num)| + 2 + |message|
            && s[..|prefix|] == prefix
            && s[|prefix|..|s| - |message| - 2] == NatToString(num)
            && s[|s| - |message| - 2..|s| - |message|] == ": "
            && s[|s| - |message|..] == message
  {
  }

  /** The same failure of two different matches, or of two different events,
      logs two different texts. */
  lemma LoggedErrorInjective(prefix: string, j: nat, k: nat, message: string)
    requires j != k
    ensures LoggedError(prefix, j, message) != LoggedError(prefix, k, message)
  {
    LoggedErrorText(prefix, j, message);
    LoggedErrorText(prefix, k, message);
    if NatToString(j) == NatToString(k) {
      NatToStringInjective(j, k);
    }
  }

  /** How many of matches 1..m of event `k` fail their INSERT. */
  function FailedMatches(k: nat, m: nat, faults: Faults): (c: nat)
    ensures c <= m
    decreases m
  {
    if m == 0 then 0 else FailedMatches(k, m - 1, faults) + (if (k, m) in faults.matchInsert then 1 else 0)
  }

  /** Matches 1..m of event `k`: how many were simulated and the errors the
      failed ones logged. Every match is counted or logs exactly one error. */
  function MatchesRun(k: nat, m: nat, faults: Faults): (r: (nat, seq<string>))
    ensures r.0 + |r.1| == m
    ensures |r.1| == FailedMatches(k, m, faults)
    decreases m
  {
    if m == 0 then (0, [])
    else
      var prev := MatchesRun(k, m - 1, faults);
      if (k, m) in faults.matchInsert then (prev.0, prev.1 + [LoggedError(MatchLabel, m, faults.matchInsert[(k, m)])])
      else (prev.0 + 1, prev.1)
  }

  /** Whether event `k` is counted: its INSERT and its rating UPDATE succeed. */
  predicate EventCounted(k: nat, faults: Faults)
  {
    k !in faults.eventInsert && k !in faults.eventRating
  }

  /** The summary after event `k` of a run that had reached `s`. An event that
      is not counted logs exactly one event error, after the errors of its
      matches; a counted one logs only the errors of its failed matches. The
      matches of an inserted event are all counted or logged. */
  function EventStep(s: Summary, k: nat, perEvent: nat, faults: Faults): (s': Summary)
    ensures s.errors <= s'.errors
    ensures s'.eventsCreated == s.eventsCreated + (if EventCounted(k, faults) then 1 else 0)
    ensures |s'.errors| == |s.errors| + (if EventCounted(k, faults) then 0 else 1)
                           + (if k in faults.eventInsert then 0 else FailedMatches(k, perEvent, faults))
    ensures s'.matchesSimulated + (if k in faults.eventInsert then 0 else FailedMatches(k, perEvent, faults))
            == s.matchesSimulated + (if k in faults.eventInsert then 0 else perEvent)
    ensures !EventCounted(k, faults) ==>
              s'.errors[|s'.errors| - 1]
              == LoggedError(EventLabel, k, if k in faults.eventInsert then faults.eventInsert[k] else faults.eventRating[k])
    ensures EventCounted(k, faults) ==> s'.errors == s.errors + MatchesRun(k, perEvent, faults).1
  {
    if k in faults.eventInsert then s.(errors := s.errors + [LoggedError(EventLabel, k, faults.eventInsert[k])])
    else
      var played := MatchesRun(k, perEvent, faults);
      if k in faults.eventRating then
        Summary(s.eventsCreated, s.matchesSimulated + played.0, s.errors + played.1 + [LoggedError(EventLabel, k, faults.eventRating[k])])
      else Summary(s.eventsCreated + 1, s.matchesSimulated + played.0, s.errors + played.1)
  }

  /** How many of events 1..n are inserted. */
  function EventsInserted(n: nat, faults: Faults): (c: nat)
    ensures c <= n
    decreases n
  {
    if n == 0 then 0 else EventsInserted(n - 1, faults) + (if n in faults.eventInsert then 0 else 1)
  }

  /** How many matches of the inserted events among 1..n fail their INSERT. */
  function FailedEventMatches(n: nat, perEvent: nat, faults: Faults): nat
    decreases n
  {
    if n == 0 then 0
    else FailedEventMatches(n - 1, perEvent, faults) + (if n in faults.eventInsert then 0 else FailedMatches(n, perEvent, faults))
  }

  /** The summary after events 1..n. At most n events are reported; every
      event that is not counted logs exactly one error, every failed match of
      an inserted event logs one, and nothing else is logged. */
  function BatchRun(n: nat, perEvent: nat, faults: Faults): (s: Summary)
    ensures s.eventsCreated <= n
    ensures |s.errors| == (n - s.eventsCreated) + FailedEventMatches(n, perEvent, faults)
    decreases n
  {
    if n == 0 then Summary(0, 0, []) else EventStep(BatchRun(n - 1, perEvent, faults), n, perEvent, faults)
  }

  /** Every match of an inserted event is either counted or failed. */
  lemma {:induction false} BatchRunMatches(n: nat, perEvent: nat, faults: Faults)
    ensures BatchRun(n, perEvent, faults).matchesSimulated + FailedEventMatches(n, perEvent, faults)
            == EventsInserted(n, faults) * perEvent
    decreases n
  {
    if n > 0 {
      var prev := BatchRun(n - 1, perEvent, faults);
      var s := EventStep(prev, n, perEvent, faults);
      assert BatchRun(n, perEvent, faults) == s;
      var e := EventsInserted(n - 1, faults);
      var failed := FailedEventMatches(n - 1, perEvent, faults);
      BatchRunMatches(n - 1, perEvent, faults);
      assert prev.matchesSimulated + failed == e * perEvent;
      if n in faults.eventInsert {
        assert EventsInserted(n, faults) == e && FailedEventMatches(n, perEvent, faults) == failed;
        assert s.matchesSimulated == prev.matchesSimulated;
      } else {
        var f := FailedMatches(n, perEvent, faults);
        assert EventsInserted(n, faults) == e + 1 && FailedEventMatches(n, perEvent, faults) == failed + f;
        assert s.matchesSimulated + f == prev.matchesSimulated + perEvent;
        MulSucc(e, perEvent);
      }
    }
  }

  /** So at most n times the per-event count of matches is reported. */
  lemma BatchRunBound(n: nat, perEvent: nat, faults: Faults)
    ensures BatchRun(n, perEvent, faults).matchesSimulated <= n * perEvent
  {
    BatchRunMatches(n, perEvent, faults);
    MulMonotone(EventsInserted(n, faults), n, perEvent);
  }

  lemma {:induction false} EventsInsertedMonotone(a: nat, b: nat, faults: Faults)
    requires a <= b
    ensures EventsInserted(a, faults) <= EventsInserted(b, faults)
    decreases b
  {
    if a < b {
      EventsInsertedMonotone(a, b - 1, faults);
    }
  }

  /** The row `processAutoSimulation` inserts for event `k`: named after the
      prefix and the number, dated `k - 1` days after event 1, in the arena
      of that number, scheduled and not yet rated. */
  function NewEvent(config: Config, k: nat, today: int): (e: Event)
    ensures e.promotionId == config.promotionId && e.day == today + k - 1
    ensures e.status == "scheduled" && e.averageRating.None?
  {
    Event(config.promotionId, config.eventNamePrefix + " #" + NatToString(k), today + k - 1,
          "Arena " + NatToString(k), "scheduled", None)
  }

  /** The name is the prefix, " #" and the event number; the venue is "Arena "
      and the number. */
  lemma NewEventText(config: Config, k: nat, today: int)
    ensures var e := NewEvent(config, k, today);
            && |e.name| == |config.eventNamePrefix| + 2 + |NatToString(k)|
            && e.name[..|config.eventNamePrefix|] == config.eventNamePrefix
            && e.name[|config.eventNamePrefix|..|config.eventNamePrefix| + 2] == " #"
            && e.name[|config.eventNamePrefix| + 2..] == NatToString(k)
            && |e.venue| == 6 + |NatToString(k)| && e.venue[..6] == "Arena " && e.venue[6..] == NatToString(k)
  {
  }

  /** The events of one run have distinct names and distinct venues. */
  lemma NewEventsDistinct(config: Config, j: nat, k: nat, today: int)
    requires j != k
    ensures NewEvent(config, j, today).name != NewEvent(config, k, today).name
    ensures NewEvent(config, j, today).venue != NewEvent(config, k, today).venue
  {
    NewEventText(config, j, today);
    NewEventText(config, k, today);
    if NatToString(j) == NatToString(k) {
      NatToStringInjective(j, k);
    }
  }

  /** The events table after event `k`: unless its INSERT fails, its final
      row is stored under `id`. No other event changes. */
  function EventAfter(events: map<int, Event>, id: int, config: Config, k: nat, today: int, faults: Faults,
                      ms: seq<MatchRow>): (r: map<int, Event>)
    ensures events.Keys <= r.Keys
    ensures k !in faults.eventInsert ==> id in r && r[id].promotionId == config.promotionId
  {
    if k in faults.eventInsert then events else events[id := FinalEvent(config, k, today, faults, ms, id)]
  }

  /** Inserting the event and then rating it, or failing to, leaves its final
      row. */
  lemma RatedNewEvent(events: map<int, Event>, id: int, config: Config, k: nat, today: int, faults: Faults,
                      ms: seq<MatchRow>)
    ensures k in faults.eventRating ==>
              events[id := NewEvent(config, k, today)] == events[id := FinalEvent(config, k, today, faults, ms, id)]
    ensures k !in faults.eventRating ==>
              Rated(events[id := NewEvent(config, k, today)], ms, id)
              == events[id := FinalEvent(config, k, today, faults, ms, id)]
  {
  }

  /** The events table after events 1..n of a run whose first new event id
      is `nextId`, rated over the match rows `ms`. */
  function BatchEvents(events: map<int, Event>, nextId: int, config: Config, n: nat, today: int, faults: Faults,
                       ms: seq<MatchRow>): (r: map<int, Event>)
    ensures events.Keys <= r.Keys
    decreases n
  {
    if n == 0 then events
    else EventAfter(BatchEvents(events, nextId, config, n - 1, today, faults, ms),
                    nextId + EventsInserted(n - 1, faults), config, n, today, faults, ms)
  }

  /** The events table of a run stopped inside event k, which it inserted and
      did not get to rate: events 1..k-1 as `BatchEvents` leaves them, and
      event k's `NewEvent` row under the next id. */
  function StoppedEvents(events: map<int, Event>, nextId: int, config: Config, k: nat, today: int, faults: Faults,
                         ms: seq<MatchRow>): (r: map<int, Event>)
    requires k >= 1
    ensures events.Keys <= r.Keys
    ensures nextId + EventsInserted(k - 1, faults) in r && r[nextId + EventsInserted(k - 1, faults)].averageRating.None?
  {
    BatchEvents(events, nextId, config, k - 1, today, faults, ms)[nextId + EventsInserted(k - 1, faults) := NewEvent(config, k, today)]
  }

  /** Event k's step adds the id `id` unless its INSERT fails, and changes no
      other event. */
  lemma EventAfterKeeps(events: map<int, Event>, id: int, config: Config, k: nat, today: int, faults: Faults,
                        ms: seq<MatchRow>)
    ensures forall i :: i in EventAfter(events, id, config, k, today, faults, ms)
                        <==> i in events || (k !in faults.eventInsert && i == id)
    ensures forall i :: i in events && i != id ==> EventAfter(events, id, config, k, today, faults, ms)[i] == events[i]
  {
  }

  /** Event k's row once the batch is done with it. */
  function FinalEvent(config: Config, k: nat, today: int, faults: Faults, ms: seq<MatchRow>, id: int): (e: Event)
    ensures e.averageRating.Some? ==> k !in faults.eventRating && |Ratings(ms, id)| > 0
  {
    var rs := Ratings(ms, id);
    NewEvent(config, k, today).(averageRating := if k in faults.eventRating || |rs| == 0 then None else Some(Mean(rs)))
  }

  /** Event k's final row is its `NewEvent` row, rated with the mean of the
      ratings of its matches in `ms` unless the rating fails; it stays unrated
      exactly when the rating fails or the event has no match. */
  lemma FinalEventShape(config: Config, k: nat, today: int, faults: Faults, ms: seq<MatchRow>, id: int)
    ensures var e := FinalEvent(config, k, today, faults, ms, id);
            && e.(averageRating := None) == NewEvent(config, k, today)
            && (k !in faults.eventRating && |Ratings(ms, id)| > 0 ==> e.averageRating == Some(Mean(Ratings(ms, id))))
            && (e.averageRating.None? <==>
                  k in faults.eventRating || forall j :: 0 <= j < |ms| ==> ms[j].eventId != id)
  {
    RatingsSelect(ms, id);
  }

  /** Unless its INSERT fails, event k's step stores its final row under `id`. */
  lemma EventAfterNew(events: map<int, Event>, id: int, config: Config, k: nat, today: int, faults: Faults,
                      ms: seq<MatchRow>)
    requires k !in faults.eventInsert
    ensures id in EventAfter(events, id, config, k, today, faults, ms)
    ensures EventAfter(events, id, config, k, today, faults, ms)[id] == FinalEvent(config, k, today, faults, ms, id)
  {
  }

  /** Event k's step reads only the ratings of its own event. */
  lemma EventAfterIgnore(events: map<int, Event>, id: int, config: Config, k: nat, today: int, faults: Faults,
                         ms: seq<MatchRow>, ms': seq<MatchRow>)
    requires k !in faults.eventInsert ==> Ratings(ms, id) == Ratings(ms', id)
    ensures EventAfter(events, id, config, k, today, faults, ms) == EventAfter(events, id, config, k, today, faults, ms')
  {
  }

  /** The ids a run leaves in the events table: the old ones and the ids
      `nextId`, `nextId + 1`, ... of the events it inserted. */
  lemma {:induction false} BatchEventsKeys(events: map<int, Event>, nextId: int, config: Config, n: nat, today: int,
                                           faults: Faults, ms: seq<MatchRow>)
    ensures forall id :: id in BatchEvents(events, nextId, config, n, today, faults, ms)
                         <==> id in events || nextId <= id < nextId + EventsInserted(n, faults)
    decreases n
  {
    if n > 0 {
      var prev := BatchEvents(events, nextId, config, n - 1, today, faults, ms);
      var id := nextId + EventsInserted(n - 1, faults);
      BatchEventsKeys(events, nextId, config, n - 1, today, faults, ms);
      EventAfterKeeps(prev, id, config, n, today, faults, ms);
      var c := EventsInserted(n, faults);
      assert c == EventsInserted(n - 1, faults) + (if n in faults.eventInsert then 0 else 1);
      forall i
        ensures i in BatchEvents(events, nextId, config, n, today, faults, ms) <==> i in events || nextId <= i < nextId + c
      {
        assert i in BatchEvents(events, nextId, config, n, today, faults, ms)
               <==> i in EventAfter(prev, id, config, n, today, faults, ms);
      }
    }
  }

  /** A run keeps every old event row unchanged. */
  lemma {:induction false} BatchEventsKeepOld(events: map<int, Event>, nextId: int, config: Config, n: nat, today: int,
                                              faults: Faults, ms: seq<MatchRow>)
    requires forall id :: id in events ==> id < nextId
    ensures forall id :: id in events ==>
              id in BatchEvents(events, nextId, config, n, today, faults, ms)
              && BatchEvents(events, nextId, config, n, today, faults, ms)[id] == events[id]
    decreases n
  {
    BatchEventsKeys(events, nextId, config, n, today, faults, ms);
    if n > 0 {
      BatchEventsKeepOld(events, nextId, config, n - 1, today, faults, ms);
      EventAfterKeeps(BatchEvents(events, nextId, config, n - 1, today, faults, ms),
                      nextId + EventsInserted(n - 1, faults), config, n, today, faults, ms);
    }
  }

  /** Inserted event k has the id `nextId + EventsInserted(k - 1)` and its
      final row there. */
  lemma {:induction false} BatchEventsNew(events: map<int, Event>, nextId: int, config: Config, n: nat, today: int,
                                          faults: Faults, ms: seq<MatchRow>, k: nat)
    requires 1 <= k <= n && k !in faults.eventInsert
    ensures nextId + EventsInserted(k - 1, faults) in BatchEvents(events, nextId, config, n, today, faults, ms)
    ensures BatchEvents(events, nextId, config, n, today, faults, ms)[nextId + EventsInserted(k - 1, faults)]
            == FinalEvent(config, k, today, faults, ms, nextId + EventsInserted(k - 1, faults))
    decreases n
  {
    var prev := BatchEvents(events, nextId, config, n - 1, today, faults, ms);
    var idn := nextId + EventsInserted(n - 1, faults);
    if k == n {
      EventAfterNew(prev, idn, config, n, today, faults, ms);
    } else {
      var idk := nextId + EventsInserted(k - 1, faults);
      BatchEventsNew(events, nextId, config, n - 1, today, faults, ms, k);
      EventsInsertedMonotone(k, n - 1, faults);
      assert EventsInserted(k, faults) == EventsInserted(k - 1, faults) + 1;
      assert idk in prev && idk != idn;
      EventAfterKeeps(prev, idn, config, n, today, faults, ms);
    }
  }

  /** Rows of other events do not change an event's ratings. */
  lemma {:induction false} RatingsIgnore(ms: seq<MatchRow>, extra: seq<MatchRow>, id: int)
    requires forall k :: 0 <= k < |extra| ==> extra[k].eventId != id
    ensures Ratings(ms + extra, id) == Ratings(ms, id)
    decreases |extra|
  {
    if |extra| == 0 {
      assert ms + extra == ms;
    } else {
      var init := extra[..|extra| - 1];
      assert ms + extra == (ms + init) + [extra[|extra| - 1]];
      RatingsIgnore(ms, init, id);
      RatingsAppend(ms + init, extra[|extra| - 1], id);
    }
  }

  /** Rows of later events do not change the rating of earlier ones. */
  lemma {:induction false} BatchEventsIgnore(events: map<int, Event>, nextId: int, config: Config, n: nat, today: int,
                                             faults: Faults, ms: seq<MatchRow>, extra: seq<MatchRow>)
    requires forall k :: 0 <= k < |extra| ==> extra[k].eventId >= nextId + EventsInserted(n, faults)
    ensures BatchEvents(events, nextId, config, n, today, faults, ms + extra)
            == BatchEvents(events, nextId, config, n, today, faults, ms)
    decreases n
  {
    if n > 0 {
      assert EventsInserted(n - 1, faults) <= EventsInserted(n, faults);
      BatchEventsIgnore(events, nextId, config, n - 1, today, faults, ms, extra);
      var prev := BatchEvents(events, nextId, config, n - 1, today, faults, ms);
      var id := nextId + EventsInserted(n - 1, faults);
      if n !in faults.eventInsert {
        RatingsIgnore(ms, extra, id);
      }
      EventAfterIgnore(prev, id, config, n, today, faults, ms, ms + extra);
    }
  }

  function NoFaults(): Faults
  {
    Faults(map[], map[], map[])
  }

  lemma {:induction false} CleanMatches(k: nat, m: nat)
    ensures MatchesRun(k, m, NoFaults()) == (m, [])
    decreases m
  {
    if m > 0 {
      CleanMatches(k, m - 1);
    }
  }

  /** Without storage failures every event and every match is counted and no
      error is logged: 5 events of 8 matches give 5 events, 40 matches, no
      errors. */
  lemma {:induction false} CleanRun(n: nat, perEvent: nat)
    ensures BatchRun(n, perEvent, NoFaults()) == Summary(n, n * perEvent, [])
    decreases n
  {
    if n > 0 {
      CleanRun(n - 1, perEvent);
      CleanMatches(n, perEvent);
      assert (n - 1) * perEvent + perEvent == n * perEvent;
    }
  }

  lemma CleanRunExample()
    ensures BatchRun(5, 8, NoFaults()) == Summary(5, 40, [])
  {
    CleanRun(5, 8);
    assert 5 * 8 == 40;
  }

  /** The match type the batch gives every match. */
  const Singles: string := "singles"

  /** What a row written by the batch looks like: two distinct workers, one of
      whom won, no title, and ratings in range. */
  predicate SimulatedPairing(m: MatchRow)
  {
    && m.worker2.Some? && m.worker2.value != m.worker1
    && (m.winner == m.worker1 || m.winner == m.worker2.value)
    && m.worker3.None? && m.worker4.None? && m.titleId.None?
    && m.matchType == Singles
    && 1.0 <= m.quality <= 10.0 && 1.0 <= m.segmentRating <= 8.5
  }

  /** The ids of the roster `pool`. */
  function PoolIds(pool: seq<Worker>): set<int>
  {
    set k | 0 <= k < |pool| :: pool[k].id
  }

  /** Every id of the roster is that of a worker of the promotion. */
  lemma RosterIdsOfPromotion(ws: seq<Worker>, promotionId: int, id: int)
    requires id in PoolIds(Roster(ws, promotionId))
    ensures exists w :: w in ws && w.promotionId == promotionId && w.id == id
  {
    var pool := Roster(ws, promotionId);
    var k :| 0 <= k < |pool| && pool[k].id == id;
    assert pool[k] in pool;
  }

  /** A row of the batch whose two workers have ids in `ids`. */
  predicate PoolPairing(m: MatchRow, ids: set<int>)
  {
    SimulatedPairing(m) && m.worker1 in ids && m.worker2.value in ids
  }

  /** The foreign keys of a `match_results` row resolve in the store. */
  predicate MatchKeysResolve(events: map<int, Event>, ws: seq<Worker>, titles: map<int, Title>, m: MatchRow)
    ensures MatchKeysResolve(events, ws, titles, m) ==>
              && m.worker1 in Ids(ws) && m.winner in Ids(ws)
              && (m.worker2.Some? ==> m.worker2.value in Ids(ws))
  {
    FoundIdListed(ws, m.worker1);
    FoundIdListed(ws, m.winner);
    FoundIdListed(ws, if m.worker2.Some? then m.worker2.value else m.worker1);
    && m.eventId in events
    && HasWorker(ws, m.worker1)
    && (m.worker2.Some? ==> HasWorker(ws, m.worker2.value))
    && (m.worker3.Some? ==> HasWorker(ws, m.worker3.value))
    && (m.worker4.Some? ==> HasWorker(ws, m.worker4.value))
    && HasWorker(ws, m.winner)
    && (m.titleId.Some? ==> m.titleId.value in titles)
  }

  /** `INSERT INTO match_results`: the row gets the next id and the current
      time, or the statement fails on a foreign key and writes nothing. */
  method InsertMatch(db: Database, m: MatchRow, now: int) returns (r: Result<int>)
    modifies db`matches, db`nextMatchId
    ensures MatchKeysResolve(db.events, db.workers, db.titles, m) ==> r == Success(old(db.nextMatchId))
    ensures !MatchKeysResolve(db.events, db.workers, db.titles, m) ==> r == Failure(ForeignKeyFailed)
    ensures r.Success? ==> db.matches == old(db.matches) + [m.(id := r.value, createdAt := now)]
                           && db.nextMatchId == r.value + 1
    ensures r.Failure? ==> db.matches == old(db.matches) && db.nextMatchId == old(db.nextMatchId)
  {
    if !MatchKeysResolve(db.events, db.workers, db.titles, m) {
      return Failure(ForeignKeyFailed);
    }
    r := Success(db.nextMatchId);
    db.matches := db.matches + [m.(id := db.nextMatchId, createdAt := now)];
    db.nextMatchId := db.nextMatchId + 1;
  }

  /** `INSERT INTO events`: the row gets the next id. */
  method InsertEvent(db: Database, e: Event) returns (id: int)
    requires db.Valid()
    modifies db`events, db`nextEventId
    ensures db.Valid()
    ensures id == old(db.nextEventId) && id !in old(db.events)
    ensures db.events == old(db.events)[id := e] && db.nextEventId == id + 1
  {
    id := db.nextEventId;
    db.events := db.events[id := e];
    db.nextEventId := id + 1;
  }

  /** `after` is `before` with rows of the batch for event `eventId`, pairing
      workers with ids in `ids`, appended. */
  predicate Extends(before: seq<MatchRow>, after: seq<MatchRow>, eventId: int, ids: set<int>)
  {
    before <= after && forall k :: |before| <= k < |after| ==> PoolPairing(after[k], ids) && after[k].eventId == eventId
  }

  /** The batch keeps every worker row in place and keeps records and
      popularity consistent. */
  predicate StatsKept(before: seq<Worker>, after: seq<Worker>)
  {
    && Ids(after) == Ids(before)
    && (AllConsistent(before) ==> AllConsistent(after))
    && (AllPopularityInRange(before) ==> AllPopularityInRange(after))
  }

  /** Every row of `rows` is a row of the batch for event `eventId` that pairs
      workers with ids in `ids`. */
  predicate OfEvent(rows: seq<MatchRow>, eventId: int, ids: set<int>)
    decreases |rows|
  {
    || |rows| == 0
    || (&& OfEvent(rows[..|rows| - 1], eventId, ids)
        && PoolPairing(rows[|rows| - 1], ids) && rows[|rows| - 1].eventId == eventId)
  }

  /** Every row of `rows` is a row of the batch pairing workers with ids in `ids`, for
      any event. */
  predicate AllSimulated(rows: seq<MatchRow>, ids: set<int>)
    decreases |rows|
  {
    |rows| == 0 || (AllSimulated(rows[..|rows| - 1], ids) && PoolPairing(rows[|rows| - 1], ids))
  }

  /** `OfEvent` row by row. */
  lemma {:induction false} OfEventRows(rows: seq<MatchRow>, eventId: int, ids: set<int>)
    ensures OfEvent(rows, eventId, ids) <==>
            forall k :: 0 <= k < |rows| ==> PoolPairing(rows[k], ids) && rows[k].eventId == eventId
    decreases |rows|
  {
    if |rows| > 0 {
      var init := rows[..|rows| - 1];
      OfEventRows(init, eventId, ids);
      assert forall k :: 0 <= k < |init| ==> init[k] == rows[k];
    }
  }

  /** `AllSimulated` row by row. */
  lemma {:induction false} AllSimulatedRows(rows: seq<MatchRow>, ids: set<int>)
    ensures AllSimulated(rows, ids) <==> forall k :: 0 <= k < |rows| ==> PoolPairing(rows[k], ids)
    decreases |rows|
  {
    if |rows| > 0 {
      var init := rows[..|rows| - 1];
      AllSimulatedRows(init, ids);
      assert forall k :: 0 <= k < |init| ==> init[k] == rows[k];
    }
  }

  /** The rows that `Extends` appends. */
  lemma ExtendsRows(before: seq<MatchRow>, after: seq<MatchRow>, eventId: int, ids: set<int>)
    requires Extends(before, after, eventId, ids)
    ensures after == before + after[|before|..] && OfEvent(after[|before|..], eventId, ids)
  {
    var rows := after[|before|..];
    OfEventRows(rows, eventId, ids);
    assert forall k :: 0 <= k < |rows| ==> rows[k] == after[|before| + k];
  }

  /** Rows of one event, appended to rows of that event. */
  lemma {:induction false} OfEventAppend(rows: seq<MatchRow>, more: seq<MatchRow>, eventId: int, ids: set<int>)
    requires OfEvent(rows, eventId, ids) && OfEvent(more, eventId, ids)
    ensures OfEvent(rows + more, eventId, ids)
    decreases |more|
  {
    if |more| == 0 {
      assert rows + more == rows;
    } else {
      var init := more[..|more| - 1];
      OfEventAppend(rows, init, eventId, ids);
      assert (rows + more)[..|rows + more| - 1] == rows + init;
    }
  }

  /** Rows of one event, appended to rows of the batch. */
  lemma {:induction false} AllSimulatedAppend(played: seq<MatchRow>, rows: seq<MatchRow>, eventId: int, ids: set<int>)
    requires AllSimulated(played, ids) && OfEvent(rows, eventId, ids)
    ensures AllSimulated(played + rows, ids)
    decreases |rows|
  {
    if |rows| == 0 {
      assert played + rows == played;
    } else {
      var init := rows[..|rows| - 1];
      AllSimulatedAppend(played, init, eventId, ids);
      assert (played + rows)[..|played + rows| - 1] == played + init;
    }
  }

  /** The match rows `rows` of event `eventId` were appended to `ms0`, and
      the worker rows are those of `ws0` after the statistics updates of
      `rows`. */
  predicate Appended(ms0: seq<MatchRow>, ws0: seq<Worker>, rows: seq<MatchRow>, eventId: int,
                     ms: seq<MatchRow>, ws: seq<Worker>, ids: set<int>)
  {
    ms == ms0 + rows && OfEvent(rows, eventId, ids) && ws == AfterRows(ws0, rows)
  }

  /** Rows of one event played after `rows` of the same event. */
  lemma RowsAppend(ms0: seq<MatchRow>, ws0: seq<Worker>, rows: seq<MatchRow>, ms1: seq<MatchRow>, ws1: seq<Worker>,
                   more: seq<MatchRow>, ms2: seq<MatchRow>, ws2: seq<Worker>, eventId: int, ids: set<int>)
    requires Appended(ms0, ws0, rows, eventId, ms1, ws1, ids) && Appended(ms1, ws1, more, eventId, ms2, ws2, ids)
    ensures Appended(ms0, ws0, rows + more, eventId, ms2, ws2, ids)
  {
    forall k | 0 <= k < |ms0| + |rows| + |more|
      ensures ((ms0 + rows) + more)[k] == (ms0 + (rows + more))[k]
    {
      if k >= |ms0| {
        assert (ms0 + (rows + more))[k] == (rows + more)[k - |ms0|];
      }
    }
    OfEventAppend(rows, more, eventId, ids);
    AfterRowsAppend(ws0, rows, more);
  }

  lemma ExtendsByOne(ms: seq<MatchRow>, m: MatchRow, eventId: int, ids: set<int>)
    requires PoolPairing(m, ids) && m.eventId == eventId
    ensures Extends(ms, ms + [m], eventId, ids)
  {
  }

  lemma StatsKeptTrans(a: seq<Worker>, b: seq<Worker>, c: seq<Worker>)
    requires StatsKept(a, b) && StatsKept(b, c)
    ensures StatsKept(a, c)
  {
  }

  /** `after` is `before` with rows of the batch pairing workers with ids in `ids`
      appended, for any events. */
  predicate Grown(before: seq<MatchRow>, after: seq<MatchRow>, ids: set<int>)
  {
    before <= after && forall k :: |before| <= k < |after| ==> PoolPairing(after[k], ids)
  }

  /** Appending rows of the batch grows the table by exactly those rows. */
  lemma GrownBy(before: seq<MatchRow>, rows: seq<MatchRow>, ids: set<int>)
    requires AllSimulated(rows, ids)
    ensures Grown(before, before + rows, ids) && (before + rows)[|before|..] == rows
  {
    AllSimulatedRows(rows, ids);
    assert forall k :: |before| <= k < |before + rows| ==> (before + rows)[k] == rows[k - |before|];
  }

  /** Every event row of `before` is still there, unchanged. */
  predicate EventsKept(before: map<int, Event>, after: map<int, Event>)
  {
    forall id :: id in before ==> id in after && after[id] == before[id]
  }

  /** How one match of a run ended. */
  datatype MatchStatus = Played | Failed(message: string) | OutOfDraws

  predicate PoolStored(ws: seq<Worker>, pool: seq<Worker>)
  {
    forall w {:trigger w in pool} :: w in pool ==> HasWorker(ws, w.id)
  }

  /** Where the draws of one batch match read from `pos` end, given the ids
      `picks` the draws pick: worker 1, worker 2 (drawn again while it has
      worker 1's id), then the six draws of `simulateMatch`; None when the
      tape runs out first. */
  function MatchEnd(picks: seq<int>, pos: nat): (r: Option<nat>)
    requires pos <= |picks|
    ensures r.Some? ==> pos + 8 <= r.value <= |picks|
    ensures r.Some? ==> picks[pos] != picks[r.value - 7]
  {
    if pos == |picks| then None
    else
      match SecondPick(picks, pos, pos + 1)
      case None => None
      case Some(k) => if k + 7 > |picks| then None else Some(k + 7)
  }

  /** A match whose first draw of worker 2 already picks another worker reads
      exactly eight draws. */
  lemma MatchEndEight(picks: seq<int>, pos: nat)
    requires pos + 8 <= |picks| && picks[pos] != picks[pos + 1]
    ensures MatchEnd(picks, pos) == Some(pos + 8)
  {
  }

  /** Where the draws of `count` batch matches read from `pos` end, or None
      when the tape runs out during one of them. */
  function DrawsAfter(picks: seq<int>, pos: nat, count: nat): (r: Option<nat>)
    requires pos <= |picks|
    ensures r.Some? ==> pos <= r.value <= |picks|
    decreases count
  {
    if count == 0 then Some(pos)
    else
      match DrawsAfter(picks, pos, count - 1)
      case None => None
      case Some(p) => MatchEnd(picks, p)
  }

  /** Every match reads at least eight draws. */
  lemma {:induction false} DrawsAfterLength(picks: seq<int>, pos: nat, count: nat)
    requires pos <= |picks|
    ensures DrawsAfter(picks, pos, count).Some? ==> pos + 8 * count <= DrawsAfter(picks, pos, count).value
    decreases count
  {
    if count > 0 {
      DrawsAfterLength(picks, pos, count - 1);
    }
  }

  /** Reading a + b matches is reading a matches and then b more from where
      they ended. */
  lemma {:induction false} DrawsAfterAdd(picks: seq<int>, pos: nat, a: nat, b: nat)
    requires pos <= |picks|
    ensures DrawsAfter(picks, pos, a + b) ==
              match DrawsAfter(picks, pos, a)
              case None => None
              case Some(p) => DrawsAfter(picks, p, b)
    decreases b
  {
    if b > 0 {
      DrawsAfterAdd(picks, pos, a, b - 1);
    }
  }

  /** Once the tape has run out, it stays run out for more matches. */
  lemma DrawsAfterExhausted(picks: seq<int>, pos: nat, a: nat, b: nat)
    requires pos <= |picks|
    requires a <= b && DrawsAfter(picks, pos, a).None?
    ensures DrawsAfter(picks, pos, b).None?
  {
    DrawsAfterAdd(picks, pos, a, b - a);
  }

  /** One more match reads on from where the ones before it ended. */
  lemma DrawsAfterStep(picks: seq<int>, pos: nat, count: nat, from: nat)
    requires pos <= |picks| && count >= 1
    requires DrawsAfter(picks, pos, count - 1) == Some(from)
    ensures from <= |picks| && DrawsAfter(picks, pos, count) == MatchEnd(picks, from)
  {
  }

  /** The tape holds the draws of `count` batch matches read from its start. */
  predicate TapeFeeds(picks: seq<int>, count: nat)
  {
    DrawsAfter(picks, 0, count).Some?
  }

  /** A tape that holds the draws of some matches holds those of fewer, and
      every match reads at least eight draws. */
  lemma TapeFeedsFewer(picks: seq<int>, a: nat, b: nat)
    requires a <= b && TapeFeeds(picks, b)
    ensures TapeFeeds(picks, a) && 8 * b <= |picks|
  {
    DrawsAfterLength(picks, 0, b);
    if DrawsAfter(picks, 0, a).None? {
      DrawsAfterExhausted(picks, 0, a, b);
    }
  }

  /** How many matches the events inserted among 1..k attempt: each of them
      reads its draws whether its INSERT then succeeds or not. */
  function InsertedMatches(k: nat, perEvent: nat, faults: Faults): nat
    decreases k
  {
    if k == 0 then 0 else InsertedMatches(k - 1, perEvent, faults) + EventMatches(k, perEvent, faults)
  }

  /** How many matches event k attempts: none when its INSERT fails. */
  function EventMatches(k: nat, perEvent: nat, faults: Faults): nat
  {
    if k in faults.eventInsert then 0 else perEvent
  }

  /** The matches attempted are those counted and those whose INSERT failed. */
  lemma {:induction false} InsertedMatchesRun(n: nat, perEvent: nat, faults: Faults)
    ensures BatchRun(n, perEvent, faults).matchesSimulated + FailedEventMatches(n, perEvent, faults)
            == InsertedMatches(n, perEvent, faults)
    decreases n
  {
    if n > 0 {
      var prev := BatchRun(n - 1, perEvent, faults);
      assert BatchRun(n, perEvent, faults) == EventStep(prev, n, perEvent, faults);
      InsertedMatchesRun(n - 1, perEvent, faults);
    }
  }

  lemma {:induction false} InsertedMatchesMonotone(a: nat, b: nat, perEvent: nat, faults: Faults)
    requires a <= b
    ensures InsertedMatches(a, perEvent, faults) <= InsertedMatches(b, perEvent, faults)
    decreases b
  {
    if a < b {
      InsertedMatchesMonotone(a, b - 1, perEvent, faults);
    }
  }

  /** Reading from the start past the first a matches continues at `pos`. */
  lemma DrawsAfterSum(picks: seq<int>, a: nat, b: nat, total: nat, pos: nat)
    requires pos <= |picks|
    requires DrawsAfter(picks, 0, a) == Some(pos) && total == a + b
    ensures DrawsAfter(picks, 0, total) == DrawsAfter(picks, pos, b)
  {
    DrawsAfterAdd(picks, 0, a, b);
  }

  /** The runs of events 1..k - 1 and then event k read the matches of the
      events inserted among 1..k. */
  lemma EventDraws(picks: seq<int>, k: nat, perEvent: nat, faults: Faults, pos: nat)
    requires k >= 1 && pos <= |picks|
    requires DrawsAfter(picks, 0, InsertedMatches(k - 1, perEvent, faults)) == Some(pos)
    ensures DrawsAfter(picks, 0, InsertedMatches(k, perEvent, faults))
            == DrawsAfter(picks, pos, EventMatches(k, perEvent, faults))
  {
    DrawsAfterSum(picks, InsertedMatches(k - 1, perEvent, faults), EventMatches(k, perEvent, faults),
                  InsertedMatches(k, perEvent, faults), pos);
  }

  /** A run the tape cannot feed through event k cannot be fed through any
      later event either. */
  lemma ExhaustedLater(picks: seq<int>, k: nat, n: nat, perEvent: nat, faults: Faults)
    requires k <= n
    requires !TapeFeeds(picks, InsertedMatches(k, perEvent, faults))
    ensures !TapeFeeds(picks, InsertedMatches(n, perEvent, faults))
  {
    InsertedMatchesMonotone(k, n, perEvent, faults);
    DrawsAfterExhausted(picks, 0, InsertedMatches(k, perEvent, faults), InsertedMatches(n, perEvent, faults));
  }

  /** The six draws of `simulateMatch` at positions p..p + 5. */
  function DrawsAt(tape: seq<real>, p: nat): (d: MatchDraws)
    requires TapeInRange(tape) && p + 6 <= |tape|
    ensures ValidDraws(d)
  {
    MatchDraws(tape[p], tape[p + 1], tape[p + 2], tape[p + 3], tape[p + 4], tape[p + 5])
  }

  /** A batch match that finds its draws at `pos` ends where `MatchEnd` says,
      and one that does not is out of draws. */
  lemma MatchEndOfPick(picks: seq<int>, pos: nat, found: bool, p: nat)
    requires pos <= |picks|
    requires pos < |picks| ==> (found <==> SecondPick(picks, pos, pos + 1).Some?)
    requires found ==> pos < |picks| && SecondPick(picks, pos, pos + 1) == Some(p - 1) && p >= 1
    ensures MatchEnd(picks, pos) == if found && p + 6 <= |picks| then Some(p + 6) else None
  {
  }

  /** The row the batch writes for the match whose draws start at `pos`: the
      workers of its first and its last pairing draw, the six draws after them,
      and the event. */
  function DrawnRow(pool: seq<Worker>, tape: seq<real>, pos: nat, next: nat, eventId: int, now: int): (m: MatchRow)
    requires |pool| > 0 && TapeInRange(tape) && pos <= |tape| && MatchEnd(Picks(pool, tape), pos) == Some(next)
  {
    PicksAt(pool, tape, pos);
    PicksAt(pool, tape, next - 7);
    BatchRow(pool[Index(tape[pos], |pool|)], pool[Index(tape[next - 7], |pool|)], eventId, DrawsAt(tape, next - 6), now)
  }

  /** The body of the inner loop of `processAutoSimulation`: pick two distinct
      workers, simulate, insert the row and update both workers. `fault` is
      the storage error the insert raises, if one is injected. */
  method PlayMatch(db: Database, pool: seq<Worker>, eventId: int, tape: seq<real>, pos: nat, now: int,
                   fault: Option<string>)
    returns (status: MatchStatus, next: nat)
    requires |pool| > 0 && TapeInRange(tape) && pos <= |tape|
    requires PoolStored(db.workers, pool) && eventId in db.events
    modifies db`matches, db`nextMatchId, db`workers
    ensures next <= |tape|
    ensures status.OutOfDraws? <==> MatchEnd(Picks(pool, tape), pos).None?
    ensures status.OutOfDraws? ==> next == pos
    ensures !status.OutOfDraws? ==> MatchEnd(Picks(pool, tape), pos) == Some(next)
    ensures PoolStored(db.workers, pool)
    ensures StatsKept(old(db.workers), db.workers)
    ensures status == OutOfDraws || status == (if fault.Some? then Failed(fault.value) else Played)
    ensures !status.Played? ==>
              db.matches == old(db.matches) && db.workers == old(db.workers) && db.nextMatchId == old(db.nextMatchId)
    ensures status.Played? ==>
              && |db.matches| == |old(db.matches)| + 1
              && Extends(old(db.matches), db.matches, eventId, PoolIds(pool))
              && db.workers == AfterPairing(old(db.workers), db.matches[|old(db.matches)|])
    ensures status.Played? ==>
              db.matches == old(db.matches) + [DrawnRow(pool, tape, pos, next, eventId, now).(id := old(db.nextMatchId))]
  {
    var drawn, i, j, row;
    drawn, i, j, row, next := DrawMatch(pool, eventId, tape, pos, now);
    if !drawn {
      return OutOfDraws, pos;
    }
    if fault.Some? {
      return Failed(fault.value), next;
    }
    assert pool[i] in pool && pool[j] in pool;
    assert row.(id := db.nextMatchId, createdAt := now) == row.(id := db.nextMatchId);
    status := RecordBatchMatch(db, pool, row, now);
  }

  /** Pick two distinct workers and simulate their match: the row the batch
      will insert, or `drawn` false when the tape runs out first. */
  method DrawMatch(pool: seq<Worker>, eventId: int, tape: seq<real>, pos: nat, now: int)
    returns (drawn: bool, i: nat, j: nat, row: MatchRow, next: nat)
    requires |pool| > 0 && TapeInRange(tape) && pos <= |tape|
    ensures drawn <==> MatchEnd(Picks(pool, tape), pos).Some?
    ensures drawn ==> MatchEnd(Picks(pool, tape), pos) == Some(next) && row == DrawnRow(pool, tape, pos, next, eventId, now)
    ensures drawn ==> i < |pool| && j < |pool| && row.worker1 == pool[i].id && row.worker2 == Some(pool[j].id)
    ensures drawn ==> PoolPairing(row, PoolIds(pool)) && row.eventId == eventId && row.createdAt == now
    ensures !drawn ==> next == pos
  {
    var found, p;
    found, i, j, p := PickPair(pool, tape, pos);
    MatchEndOfPick(Picks(pool, tape), pos, found, p);
    if !found || p + 6 > |tape| {
      return false, i, j, MatchRow(0, eventId, 0, None, None, None, 0, Singles, None, 0.0, 0.0, "", "", "", now), pos;
    }
    var d := DrawsAt(tape, p);
    next := p + 6;
    assert i == Index(tape[pos], |pool|) && j == Index(tape[next - 7], |pool|) && d == DrawsAt(tape, next - 6);
    assert MatchEnd(Picks(pool, tape), pos) == Some(next);
    row := BatchRow(pool[i], pool[j], eventId, d, now);
    assert pool[i] in pool && pool[j] in pool;
    assert pool[i].id in PoolIds(pool) && pool[j].id in PoolIds(pool);
    drawn := true;
  }

  /** The worker rows after `updateWorkerStats` for worker 1 and then, when
      the row has one, worker 2 of a row. */
  function AfterPairing(ws: seq<Worker>, row: MatchRow): (r: seq<Worker>)
    ensures Ids(r) == Ids(ws)
  {
    var ws1 := WithMatchResult(ws, row.worker1, row.winner == row.worker1);
    if row.worker2.Some? then WithMatchResult(ws1, row.worker2.value, row.winner == row.worker2.value) else ws1
  }

  /** Both `updateWorkerStats` calls of a singles match. */
  method UpdatePairStats(db: Database, row: MatchRow)
    requires row.worker2.Some?
    modifies db`workers
    ensures db.workers == AfterPairing(old(db.workers), row)
  {
    UpdateWorkerStats(db, row.worker1, row.winner == row.worker1);
    UpdateWorkerStats(db, row.worker2.value, row.winner == row.worker2.value);
  }

  /** Updating both workers of a row keeps every row in place and keeps the
      records consistent and the popularity in range. */
  lemma PairingKeepsStats(ws: seq<Worker>, row: MatchRow, pool: seq<Worker>)
    requires forall w :: w in pool ==> HasWorker(ws, w.id)
    ensures StatsKept(ws, AfterPairing(ws, row))
    ensures forall w :: w in pool ==> HasWorker(AfterPairing(ws, row), w.id)
  {
    var after := AfterPairing(ws, row);
    forall w | w in pool
      ensures HasWorker(after, w.id)
    {
      FindWorkerByIds(after, ws, w.id);
    }
  }

  /** `updateWorkerStats` as a scan of the table that updates the first row
      with the id; it is `WithMatchResult` (see `CreditIsWithMatchResult`).
      The replay `AfterRows` is written with this form rather than with
      `AfterPairing`: it carries no contract, so unfolding the replay inside
      the batch loops does not bring in the quantified postconditions of
      `WithMatchResult` and `FindWorker` at every step. */
  function Credit(ws: seq<Worker>, id: int, won: bool): seq<Worker>
    decreases |ws|
  {
    if |ws| == 0 then ws
    else if ws[0].id == id then [AfterMatch(ws[0], won)] + ws[1..]
    else [ws[0]] + Credit(ws[1..], id, won)
  }

  lemma {:induction false} CreditIsWithMatchResult(ws: seq<Worker>, id: int, won: bool)
    ensures Credit(ws, id, won) == WithMatchResult(ws, id, won)
    decreases |ws|
  {
    if |ws| > 0 && ws[0].id != id {
      CreditIsWithMatchResult(ws[1..], id, won);
      CreditSkip(ws, id, won);
    } else if |ws| > 0 {
      assert FindWorker(ws, id) == Some(0);
      assert [AfterMatch(ws[0], won)] + ws[1..] == ws[0 := AfterMatch(ws[0], won)];
    }
  }

  /** Updating past a first row with another id updates the rest. */
  lemma CreditSkip(ws: seq<Worker>, id: int, won: bool)
    requires |ws| > 0 && ws[0].id != id
    ensures WithMatchResult(ws, id, won) == [ws[0]] + WithMatchResult(ws[1..], id, won)
  {
    var tail := ws[1..];
    match FindWorker(tail, id)
    case None =>
      assert FindWorker(ws, id).None?;
      assert [ws[0]] + tail == ws;
    case Some(i) =>
      assert FindWorker(ws, id) == Some(i + 1);
      assert [ws[0]] + tail[i := AfterMatch(tail[i], won)] == ws[i + 1 := AfterMatch(ws[i + 1], won)];
  }

  /** The worker rows after the statistics updates of each batch row in
      turn: `AfterPairing` of each row (see `AfterRowsLast`), spelled with
      `Credit` for the reason given there. */
  function AfterRows(ws: seq<Worker>, rows: seq<MatchRow>): seq<Worker>
    decreases |rows|
  {
    if |rows| == 0 then ws
    else
      var row := rows[|rows| - 1];
      var ws1 := Credit(AfterRows(ws, rows[..|rows| - 1]), row.worker1, row.winner == row.worker1);
      if row.worker2.Some? then Credit(ws1, row.worker2.value, row.winner == row.worker2.value) else ws1
  }

  /** The last row's update is `AfterPairing`. */
  lemma AfterRowsLast(ws: seq<Worker>, rows: seq<MatchRow>)
    requires |rows| > 0
    ensures AfterRows(ws, rows) == AfterPairing(AfterRows(ws, rows[..|rows| - 1]), rows[|rows| - 1])
  {
    var row := rows[|rows| - 1];
    var prev := AfterRows(ws, rows[..|rows| - 1]);
    CreditIsWithMatchResult(prev, row.worker1, row.winner == row.worker1);
    if row.worker2.Some? {
      CreditIsWithMatchResult(Credit(prev, row.worker1, row.winner == row.worker1), row.worker2.value,
                              row.winner == row.worker2.value);
    }
  }

  /** Every row stays in place, and consistent records and in-range popularity
      stay so, however many rows are replayed. */
  lemma {:induction false} AfterRowsKeepsStats(ws: seq<Worker>, rows: seq<MatchRow>)
    ensures StatsKept(ws, AfterRows(ws, rows))
    decreases |rows|
  {
    if |rows| > 0 {
      var prev := AfterRows(ws, rows[..|rows| - 1]);
      AfterRowsKeepsStats(ws, rows[..|rows| - 1]);
      AfterRowsLast(ws, rows);
      PairingKeepsStats(prev, rows[|rows| - 1], []);
      StatsKeptTrans(ws, prev, AfterRows(ws, rows));
    }
  }

  /** Updating for two runs of rows is updating for the first, then the second. */
  lemma {:induction false} AfterRowsAppend(ws: seq<Worker>, xs: seq<MatchRow>, ys: seq<MatchRow>)
    ensures AfterRows(ws, xs + ys) == AfterRows(AfterRows(ws, xs), ys)
    decreases |ys|
  {
    if |ys| == 0 {
      assert xs + ys == xs;
    } else {
      var init := ys[..|ys| - 1];
      assert (xs + ys)[..|xs + ys| - 1] == xs + init;
      assert (xs + ys)[|xs + ys| - 1] == ys[|ys| - 1];
      AfterRowsAppend(ws, xs, init);
    }
  }

  lemma AfterOneRow(ws: seq<Worker>, ms: seq<MatchRow>, ms': seq<MatchRow>)
    requires ms <= ms' && |ms'| == |ms| + 1
    ensures AfterRows(ws, ms'[|ms|..]) == AfterPairing(ws, ms'[|ms|])
  {
    var rows := ms'[|ms|..];
    assert rows == [ms'[|ms|]];
    assert rows[..0] == [];
    AfterRowsLast(ws, rows);
  }

  lemma AfterNoRows(ws: seq<Worker>, ms: seq<MatchRow>)
    ensures AfterRows(ws, ms[|ms|..]) == ws
  {
    assert ms[|ms|..] == [];
  }

  /** The row the batch inserts for a simulated singles match. */
  function BatchRow(w1: Worker, w2: Worker, eventId: int, d: MatchDraws, now: int): (m: MatchRow)
    requires w1.id != w2.id && ValidDraws(d)
    ensures SimulatedPairing(m) && m.eventId == eventId && m.worker1 == w1.id && m.worker2 == Some(w2.id)
    ensures var o := SimulateMatch(w1, w2, Singles, d);
            && m.winner == o.winnerId && m.quality == o.matchQuality && m.segmentRating == o.segmentRating
            && m.crowdReaction == o.crowdReaction && m.finishType == o.finishType && m.description == o.description
    ensures m.matchType == Singles && m.titleId.None? && m.worker3.None? && m.worker4.None? && m.createdAt == now
  {
    var o := SimulateMatch(w1, w2, Singles, d);
    MatchRow(0, eventId, w1.id, Some(w2.id), None, None, o.winnerId, Singles, None,
             o.matchQuality, o.segmentRating, o.crowdReaction, o.finishType, o.description, now)
  }

  /** Insert a simulated match and update both workers' statistics. */
  method RecordBatchMatch(db: Database, pool: seq<Worker>, row: MatchRow, now: int) returns (status: MatchStatus)
    requires PoolStored(db.workers, pool) && row.eventId in db.events && PoolPairing(row, PoolIds(pool))
    requires HasWorker(db.workers, row.worker1) && HasWorker(db.workers, row.worker2.value)
    modifies db`matches, db`nextMatchId, db`workers
    ensures status == Played
    ensures PoolStored(db.workers, pool)
    ensures StatsKept(old(db.workers), db.workers)
    ensures db.matches == old(db.matches) + [row.(id := old(db.nextMatchId), createdAt := now)]
    ensures db.nextMatchId == old(db.nextMatchId) + 1
    ensures Extends(old(db.matches), db.matches, row.eventId, PoolIds(pool))
    ensures db.workers == AfterPairing(old(db.workers), row)
  {
    var r := InsertMatch(db, row, now);
    match r {
      case Failure(e) =>
        return Failed(e);
      case Success(_) =>
    }
    UpdatePairStats(db, row);
    PairingKeepsStats(old(db.workers), row, pool);
    ExtendsByOne(old(db.matches), row.(id := r.value, createdAt := now), row.eventId, PoolIds(pool));
    status := Played;
  }

  /** Match `matchNum` of event `eventNum`, counted into the tallies of the
      matches before it. */
  method PlayNumbered(db: Database, pool: seq<Worker>, eventId: int, eventNum: nat, matchNum: nat,
                      tape: seq<real>, pos: nat, now: int, faults: Faults, played: nat, errors: seq<string>)
    returns (played': nat, errors': seq<string>, exhausted: bool, next: nat, ghost rows: seq<MatchRow>)
    requires matchNum >= 1
    requires played == MatchesRun(eventNum, matchNum - 1, faults).0 && errors == MatchesRun(eventNum, matchNum - 1, faults).1
    requires |pool| > 0 && TapeInRange(tape) && pos <= |tape|
    requires PoolStored(db.workers, pool) && eventId in db.events
    modifies db`matches, db`nextMatchId, db`workers
    ensures next <= |tape|
    ensures exhausted <==> MatchEnd(Picks(pool, tape), pos).None?
    ensures exhausted ==> next == pos
    ensures !exhausted ==> MatchEnd(Picks(pool, tape), pos) == Some(next)
    ensures !exhausted ==> played' == MatchesRun(eventNum, matchNum, faults).0
    ensures !exhausted ==> errors' == MatchesRun(eventNum, matchNum, faults).1
    ensures exhausted ==> played' == played
    ensures PoolStored(db.workers, pool)
    ensures Appended(old(db.matches), old(db.workers), rows, eventId, db.matches, db.workers, PoolIds(pool))
    ensures |rows| == played' - played
  {
    var key := (eventNum, matchNum);
    var fault := if key in faults.matchInsert then Some(faults.matchInsert[key]) else None;
    ghost var runs := MatchesRun(eventNum, matchNum, faults);
    assert runs.0 == if key in faults.matchInsert then played else played + 1;
    assert runs.1 == if key in faults.matchInsert then errors + [LoggedError(MatchLabel, matchNum, faults.matchInsert[key])] else errors;
    var status;
    status, next := PlayMatch(db, pool, eventId, tape, pos, now, fault);
    played', errors', exhausted, rows := played, errors, false, [];
    match status {
      case OutOfDraws =>
        exhausted := true;
        assert db.matches == old(db.matches) + rows;
      case Failed(message) =>
        errors' := errors + [LoggedError(MatchLabel, matchNum, message)];
        assert db.matches == old(db.matches) + rows;
      case Played =>
        played' := played + 1;
        rows := db.matches[|old(db.matches)|..];
        ExtendsRows(old(db.matches), db.matches, eventId, PoolIds(pool));
        AfterOneRow(old(db.workers), old(db.matches), db.matches);
    }
  }

  /** The inner loop of `processAutoSimulation` for event `eventNum`: its
      matches 1..perEvent, how many were simulated and the errors logged.
      `exhausted` reports that the draws ran out. */
  method PlayEvent(db: Database, pool: seq<Worker>, eventId: int, eventNum: nat, perEvent: nat,
                   tape: seq<real>, pos: nat, now: int, faults: Faults)
    returns (played: nat, errors: seq<string>, exhausted: bool, next: nat, ghost rows: seq<MatchRow>)
    requires |pool| > 0 && TapeInRange(tape) && pos <= |tape|
    requires PoolStored(db.workers, pool) && eventId in db.events
    modifies db`matches, db`nextMatchId, db`workers
    ensures next <= |tape| && played <= perEvent
    ensures exhausted <==> DrawsAfter(Picks(pool, tape), pos, perEvent).None?
    ensures !exhausted ==> DrawsAfter(Picks(pool, tape), pos, perEvent) == Some(next)
    ensures !exhausted ==> played == MatchesRun(eventNum, perEvent, faults).0 && errors == MatchesRun(eventNum, perEvent, faults).1
    ensures PoolStored(db.workers, pool)
    ensures Appended(old(db.matches), old(db.workers), rows, eventId, db.matches, db.workers, PoolIds(pool)) && |rows| == played
  {
    played, errors, exhausted, next, rows := 0, [], false, pos, [];
    for matchNum := 1 to perEvent + 1
      invariant next <= |tape| && played <= matchNum - 1 && PoolStored(db.workers, pool)
      invariant MatchesSoFar(eventNum, matchNum - 1, faults, Picks(pool, tape), pos, next, played, errors)
      invariant Appended(old(db.matches), old(db.workers), rows, eventId, db.matches, db.workers, PoolIds(pool)) && |rows| == played
    {
      var played', errors', stop;
      ghost var from, more, ms1, ws1 := next, [], db.matches, db.workers;
      played', errors', stop, next, more := PlayNumbered(db, pool, eventId, eventNum, matchNum, tape, next, now, faults,
                                                         played, errors);
      RowsAppend(old(db.matches), old(db.workers), rows, ms1, ws1, more, db.matches, db.workers, eventId, PoolIds(pool));
      rows := rows + more;
      DrawsAfterStep(Picks(pool, tape), pos, matchNum, from);
      if stop {
        DrawsAfterExhausted(Picks(pool, tape), pos, matchNum, perEvent);
        return played, errors, true, next, rows;
      }
      played, errors := played', errors';
    }
  }

  /** After matches 1..count of event `eventNum` read from `pos`: the draws
      ended at `next`, and the tallies are those of `MatchesRun`. */
  predicate MatchesSoFar(eventNum: nat, count: nat, faults: Faults, picks: seq<int>, pos: nat, next: nat,
                         played: nat, errors: seq<string>)
  {
    && pos <= |picks|
    && DrawsAfter(picks, pos, count) == Some(next)
    && played == MatchesRun(eventNum, count, faults).0 && errors == MatchesRun(eventNum, count, faults).1
  }

  /** The body of the outer loop of `processAutoSimulation` for event
      `eventNum`: insert the event, play its matches, and rate it, starting
      from the summary `s` of the events before it. */
  method RunEvent(db: Database, config: Config, pool: seq<Worker>, eventNum: nat, today: int, now: int,
                  tape: seq<real>, pos: nat, faults: Faults, s: Summary)
    returns (s': Summary, exhausted: bool, next: nat, ghost rows: seq<MatchRow>)
    requires db.Valid() && |pool| > 0 && TapeInRange(tape) && pos <= |tape| && PoolStored(db.workers, pool)
    modifies db`events, db`nextEventId, db`matches, db`nextMatchId, db`workers
    ensures db.Valid() && next <= |tape| && PoolStored(db.workers, pool)
    ensures exhausted <==> DrawsAfter(Picks(pool, tape), pos, EventMatches(eventNum, config.matchesPerEvent, faults)).None?
    ensures !exhausted ==> DrawsAfter(Picks(pool, tape), pos, EventMatches(eventNum, config.matchesPerEvent, faults)) == Some(next)
    ensures !exhausted ==> s' == EventStep(s, eventNum, config.matchesPerEvent, faults)
    ensures exhausted ==> s'.eventsCreated == s.eventsCreated && s.errors <= s'.errors
    ensures s.matchesSimulated <= s'.matchesSimulated <= s.matchesSimulated + config.matchesPerEvent
    ensures db.nextEventId == old(db.nextEventId) + (if eventNum in faults.eventInsert then 0 else 1)
    ensures db.matches == old(db.matches) + rows && OfEvent(rows, old(db.nextEventId), PoolIds(pool))
    ensures |rows| == s'.matchesSimulated - s.matchesSimulated
    ensures db.workers == AfterRows(old(db.workers), rows)
    ensures !exhausted ==>
              db.events == EventAfter(old(db.events), old(db.nextEventId), config, eventNum, today, faults, db.matches)
    ensures exhausted ==>
              && eventNum !in faults.eventInsert
              && db.events == old(db.events)[old(db.nextEventId) := NewEvent(config, eventNum, today)]
  {
    if eventNum in faults.eventInsert {
      assert db.matches == old(db.matches) + [];
      assert DrawsAfter(Picks(pool, tape), pos, 0) == Some(pos);
      return s.(errors := s.errors + [LoggedError(EventLabel, eventNum, faults.eventInsert[eventNum])]), false, pos, [];
    }
    var eventId := InsertEvent(db, NewEvent(config, eventNum, today));
    var played, logged;
    played, logged, exhausted, next, rows := PlayEvent(db, pool, eventId, eventNum, config.matchesPerEvent, tape, pos, now,
                                                      faults);
    s' := Summary(s.eventsCreated, s.matchesSimulated + played, s.errors + logged);
    if exhausted || eventNum in faults.eventRating {
      if !exhausted {
        RatedNewEvent(old(db.events), eventId, config, eventNum, today, faults, db.matches);
        s' := s'.(errors := s'.errors + [LoggedError(EventLabel, eventNum, faults.eventRating[eventNum])]);
      }
      return;
    }
    UpdateEventRating(db, eventId);
    RatedNewEvent(old(db.events), eventId, config, eventNum, today, faults, db.matches);
    s' := s'.(eventsCreated := s'.eventsCreated + 1);
  }

  /** A summary `partial` that stops inside the event after `before`: no
      further event is counted, and no error and no match is taken back. */
  predicate PartialEvent(before: Summary, partial: Summary, perEvent: nat)
  {
    && partial.eventsCreated == before.eventsCreated
    && before.errors <= partial.errors
    && before.matchesSimulated <= partial.matchesSimulated <= before.matchesSimulated + perEvent
  }

  /** `processAutoSimulation`. The random draws are read from `tape` in the
      order the source calls `Math.random()`; `today` is the date of event 1
      and `now` the current time. */
  method ProcessAutoSimulation(db: Database, config: Config, today: int, now: int, tape: seq<real>, faults: Faults)
    returns (result: BatchResult)
    requires db.Valid() && TapeInRange(tape)
    modifies db`events, db`nextEventId, db`matches, db`nextMatchId, db`workers
    ensures db.Valid()
    ensures result.Rejected? <==> |Roster(old(db.workers), config.promotionId)| < 2
    ensures result.Rejected? ==>
              && result.message == NotEnoughWorkers
              && db.events == old(db.events) && db.matches == old(db.matches) && db.workers == old(db.workers)
              && db.nextEventId == old(db.nextEventId) && db.nextMatchId == old(db.nextMatchId)
    ensures Grown(old(db.matches), db.matches, PoolIds(Roster(old(db.workers), config.promotionId)))
    ensures !result.Rejected? ==>
              Outcome(config, today, faults, result, old(db.workers), old(db.matches), old(db.events),
                      old(db.nextEventId), db.matches[|old(db.matches)|..], db.workers, db.matches, db.events,
                      db.nextEventId, PoolIds(Roster(old(db.workers), config.promotionId)),
                      Picks(Roster(old(db.workers), config.promotionId), tape))
    ensures result.DrawsExhausted? ==>
              && result.partial.eventsCreated <= config.numberOfEvents
              && result.partial.matchesSimulated <= config.numberOfEvents * config.matchesPerEvent
    ensures db.workers == AfterRows(old(db.workers), db.matches[|old(db.matches)|..])
    ensures StatsKept(old(db.workers), db.workers)
    ensures EventsKept(old(db.events), db.events)
  {
    var pool := Roster(db.workers, config.promotionId);
    if |pool| < 2 {
      AfterNoRows(db.workers, db.matches);
      return Rejected(NotEnoughWorkers);
    }
    forall w | w in pool
      ensures HasWorker(db.workers, w.id)
    {
      StoredWorkerIsFound(db.workers, w);
    }
    ghost var played;
    result, played := RunEvents(db, config, pool, today, now, tape, faults);
    assert played == db.matches[|old(db.matches)|..];
    GrownBy(old(db.matches), played, PoolIds(pool));
    BatchKeepsEvents(old(db.events), old(db.nextEventId), config, today, faults, db.matches, result, db.events);
    if result.DrawsExhausted? {
      StoppedBounds(config, faults, result);
    }
    AfterRowsKeepsStats(old(db.workers), played);
  }

  /** Whether a run finishes is decided by the tape: it finishes exactly when
      the tape holds the draws of every match of the events inserted, and a
      run that stops does so in the first event whose matches it cannot
      feed. */
  predicate TapeDecides(result: BatchResult, picks: seq<int>, config: Config, faults: Faults)
  {
    && (result.Finished? <==> TapeFeeds(picks, InsertedMatches(config.numberOfEvents, config.matchesPerEvent, faults)))
    && (result.DrawsExhausted? ==>
          && result.atEvent >= 1
          && TapeFeeds(picks, InsertedMatches(result.atEvent - 1, config.matchesPerEvent, faults))
          && !TapeFeeds(picks, InsertedMatches(result.atEvent, config.matchesPerEvent, faults)))
  }

  /** A tape with fewer than eight draws per match the inserted events
      attempt never lets the run finish. */
  lemma ShortTapeStops(result: BatchResult, picks: seq<int>, config: Config, faults: Faults)
    requires TapeDecides(result, picks, config, faults)
    requires |picks| < 8 * InsertedMatches(config.numberOfEvents, config.matchesPerEvent, faults)
    ensures !result.Finished?
  {
    var total := InsertedMatches(config.numberOfEvents, config.matchesPerEvent, faults);
    if result.Finished? {
      TapeFeedsFewer(picks, total, total);
    }
  }

  /** A run that stops in event k, the first whose matches the tape cannot
      feed, is decided by the tape. */
  lemma StopDecides(result: BatchResult, picks: seq<int>, config: Config, faults: Faults)
    requires result.DrawsExhausted? && 1 <= result.atEvent <= config.numberOfEvents
    requires TapeFeeds(picks, InsertedMatches(result.atEvent - 1, config.matchesPerEvent, faults))
    requires !TapeFeeds(picks, InsertedMatches(result.atEvent, config.matchesPerEvent, faults))
    ensures TapeDecides(result, picks, config, faults)
  {
    ExhaustedLater(picks, result.atEvent, config.numberOfEvents, config.matchesPerEvent, faults);
  }

  /** A run, finished or stopped, keeps every old event row unchanged. */
  lemma BatchKeepsEvents(events: map<int, Event>, nextId: int, config: Config, today: int, faults: Faults,
                         ms: seq<MatchRow>, result: BatchResult, after: map<int, Event>)
    requires forall id :: id in events ==> id < nextId
    requires !result.Rejected?
    requires result.Finished? ==> after == BatchEvents(events, nextId, config, config.numberOfEvents, today, faults, ms)
    requires result.DrawsExhausted? ==>
               1 <= result.atEvent && after == StoppedEvents(events, nextId, config, result.atEvent, today, faults, ms)
    ensures EventsKept(events, after)
  {
    if result.DrawsExhausted? {
      var k := result.atEvent;
      BatchEventsKeepOld(events, nextId, config, k - 1, today, faults, ms);
      BatchEventsKeys(events, nextId, config, k - 1, today, faults, ms);
    } else {
      BatchEventsKeepOld(events, nextId, config, config.numberOfEvents, today, faults, ms);
    }
  }

  /** A run stopped inside event k has created at most n events and played at
      most n * perEvent matches. */
  lemma StoppedBounds(config: Config, faults: Faults, result: BatchResult)
    requires result.DrawsExhausted? && 1 <= result.atEvent <= config.numberOfEvents
    requires PartialEvent(BatchRun(result.atEvent - 1, config.matchesPerEvent, faults), result.partial,
                          config.matchesPerEvent)
    ensures result.partial.eventsCreated <= config.numberOfEvents
    ensures result.partial.matchesSimulated <= config.numberOfEvents * config.matchesPerEvent
  {
    var k := result.atEvent;
    var before := BatchRun(k - 1, config.matchesPerEvent, faults);
    BatchRunBound(k - 1, config.matchesPerEvent, faults);
    PartialBound(before.matchesSimulated, result.partial.matchesSimulated - before.matchesSimulated, k,
                 config.matchesPerEvent, config.numberOfEvents);
  }

  /** The loop of `processAutoSimulation` over events 1..n, with the roster
      `pool` already read; `played` are the match rows it appends. */
  method RunEvents(db: Database, config: Config, pool: seq<Worker>, today: int, now: int, tape: seq<real>,
                   faults: Faults)
    returns (result: BatchResult, ghost played: seq<MatchRow>)
    requires db.Valid() && TapeInRange(tape) && |pool| > 0 && PoolStored(db.workers, pool)
    modifies db`events, db`nextEventId, db`matches, db`nextMatchId, db`workers
    ensures db.Valid()
    ensures Outcome(config, today, faults, result, old(db.workers), old(db.matches), old(db.events), old(db.nextEventId),
                    played, db.workers, db.matches, db.events, db.nextEventId, PoolIds(pool), Picks(pool, tape))
  {
    var n := config.numberOfEvents;
    var summary := Summary(0, 0, []);
    var pos: nat := 0;
    played := [];
    assert db.matches == old(db.matches) + played;
    for eventNum := 1 to n + 1
      invariant db.Valid() && pos <= |tape| && PoolStored(db.workers, pool)
      invariant Ran(config, today, faults, eventNum - 1, summary, old(db.workers), old(db.matches), old(db.events),
                    old(db.nextEventId), played, db.workers, db.matches, db.events, db.nextEventId, PoolIds(pool),
                    Picks(pool, tape), pos)
    {
      var s', exhausted, next;
      s', exhausted, next, played := BatchStep(db, config, pool, eventNum, today, now, tape, pos, faults, summary,
                                               old(db.workers), old(db.matches), old(db.events), old(db.nextEventId),
                                               played);
      if exhausted {
        result := DrawsExhausted(s', eventNum);
        StopDecides(result, Picks(pool, tape), config, faults);
        return result, played;
      }
      pos := next;
      summary := s';
    }
    result := Finished(summary);
    assert TapeFeeds(Picks(pool, tape), InsertedMatches(n, config.matchesPerEvent, faults));
    return result, played;
  }

  /** What the loop of `processAutoSimulation` over events 1..n leaves
      behind, for a run that started from the tables `ws0`, `ms0` and `ev0`
      with next event id `id0`, appended the match rows `played`, drew its
      workers from the ids `ids` and read the picks `picks`: either every
      event ran, with the summary `BatchRun` and the events `BatchEvents`, or
      the draws ran out inside event `atEvent`, with the events
      `StoppedEvents`; either way the tape decides which (`TapeDecides`). */
  predicate Outcome(config: Config, today: int, faults: Faults, result: BatchResult,
                    ws0: seq<Worker>, ms0: seq<MatchRow>, ev0: map<int, Event>, id0: int, played: seq<MatchRow>,
                    ws: seq<Worker>, ms: seq<MatchRow>, events: map<int, Event>, nextId: int, ids: set<int>,
                    picks: seq<int>)
  {
    && !result.Rejected?
    && (result.Finished? ==>
          && result.summary == BatchRun(config.numberOfEvents, config.matchesPerEvent, faults)
          && nextId == id0 + EventsInserted(config.numberOfEvents, faults)
          && events == BatchEvents(ev0, id0, config, config.numberOfEvents, today, faults, ms))
    && (result.DrawsExhausted? ==>
          && 1 <= result.atEvent <= config.numberOfEvents && result.atEvent !in faults.eventInsert
          && PartialEvent(BatchRun(result.atEvent - 1, config.matchesPerEvent, faults), result.partial,
                          config.matchesPerEvent)
          && nextId == id0 + EventsInserted(result.atEvent, faults)
          && events == StoppedEvents(ev0, id0, config, result.atEvent, today, faults, ms))
    && ms == ms0 + played && AllSimulated(played, ids)
    && |played| == (if result.Finished? then result.summary.matchesSimulated else result.partial.matchesSimulated)
    && ws == AfterRows(ws0, played)
    && TapeDecides(result, picks, config, faults)
  }

  /** The tables after events 1..k of a run that started from the tables
      `ws0`, `ms0` and `ev0` with next event id `id0`: `summary` is what the
      run reports, `played` the match rows it appended, and `pos` where the
      draws of their matches end in the picks `picks`. */
  predicate Ran(config: Config, today: int, faults: Faults, k: nat, summary: Summary,
                ws0: seq<Worker>, ms0: seq<MatchRow>, ev0: map<int, Event>, id0: int, played: seq<MatchRow>,
                ws: seq<Worker>, ms: seq<MatchRow>, events: map<int, Event>, nextId: int, ids: set<int>,
                picks: seq<int>, pos: nat)
  {
    && summary == BatchRun(k, config.matchesPerEvent, faults)
    && nextId == id0 + EventsInserted(k, faults)
    && events == BatchEvents(ev0, id0, config, k, today, faults, ms)
    && ms == ms0 + played && AllSimulated(played, ids) && |played| == summary.matchesSimulated
    && ws == AfterRows(ws0, played)
    && DrawsAfter(picks, 0, InsertedMatches(k, config.matchesPerEvent, faults)) == Some(pos)
  }

  /** The tables after a run that started as in `Ran` stopped inside event
      k, the first whose matches the picks `picks` cannot feed: `partial`
      is what it reports. */
  predicate Stopped(config: Config, today: int, faults: Faults, k: nat, partial: Summary,
                    ws0: seq<Worker>, ms0: seq<MatchRow>, ev0: map<int, Event>, id0: int, played: seq<MatchRow>,
                    ws: seq<Worker>, ms: seq<MatchRow>, events: map<int, Event>, nextId: int, ids: set<int>,
                    picks: seq<int>)
  {
    && k >= 1
    && ms == ms0 + played && AllSimulated(played, ids) && |played| == partial.matchesSimulated
    && ws == AfterRows(ws0, played)
    && nextId == id0 + EventsInserted(k, faults)
    && k !in faults.eventInsert
    && PartialEvent(BatchRun(k - 1, config.matchesPerEvent, faults), partial, config.matchesPerEvent)
    && events == StoppedEvents(ev0, id0, config, k, today, faults, ms)
    && !TapeFeeds(picks, InsertedMatches(k, config.matchesPerEvent, faults))
  }

  /** One pass of the loop of `processAutoSimulation`: event `eventNum` run
      after events 1..eventNum-1 of a run that started from the tables
      `ws0`, `ms0` and `ev0` with next event id `id0` and has appended the
      match rows `played`. */
  method BatchStep(db: Database, config: Config, pool: seq<Worker>, eventNum: nat, today: int, now: int,
                   tape: seq<real>, pos: nat, faults: Faults, summary: Summary,
                   ghost ws0: seq<Worker>, ghost ms0: seq<MatchRow>, ghost ev0: map<int, Event>, ghost id0: int,
                   ghost played: seq<MatchRow>)
    returns (s': Summary, exhausted: bool, next: nat, ghost played': seq<MatchRow>)
    requires db.Valid() && |pool| > 0 && TapeInRange(tape) && pos <= |tape| && PoolStored(db.workers, pool)
    requires eventNum >= 1
    requires Ran(config, today, faults, eventNum - 1, summary, ws0, ms0, ev0, id0, played,
                 db.workers, db.matches, db.events, db.nextEventId, PoolIds(pool), Picks(pool, tape), pos)
    modifies db`events, db`nextEventId, db`matches, db`nextMatchId, db`workers
    ensures db.Valid() && next <= |tape| && PoolStored(db.workers, pool)
    ensures !exhausted ==>
              Ran(config, today, faults, eventNum, s', ws0, ms0, ev0, id0, played',
                  db.workers, db.matches, db.events, db.nextEventId, PoolIds(pool), Picks(pool, tape), next)
    ensures exhausted ==>
              Stopped(config, today, faults, eventNum, s', ws0, ms0, ev0, id0, played',
                      db.workers, db.matches, db.events, db.nextEventId, PoolIds(pool), Picks(pool, tape))
  {
    ghost var eventsBefore, matchesBefore, id := db.events, db.matches, db.nextEventId;
    ghost var rows;
    EventDraws(Picks(pool, tape), eventNum, config.matchesPerEvent, faults, pos);
    s', exhausted, next, rows := RunEvent(db, config, pool, eventNum, today, now, tape, pos, faults, summary);
    played' := played + rows;
    BatchStepRows(ws0, ms0, played, rows, id, PoolIds(pool));
    BatchStepEvents(config, eventNum, today, faults, exhausted, ev0, id0, id, matchesBefore, rows, db.matches,
                    eventsBefore, db.events, PoolIds(pool));
  }

  /** The match rows and worker rows after one pass of the loop of
      `processAutoSimulation`. */
  lemma BatchStepRows(ws0: seq<Worker>, ms0: seq<MatchRow>, played: seq<MatchRow>, rows: seq<MatchRow>, eventId: int, ids: set<int>)
    requires AllSimulated(played, ids) && OfEvent(rows, eventId, ids)
    ensures (ms0 + played) + rows == ms0 + (played + rows)
    ensures AllSimulated(played + rows, ids)
    ensures AfterRows(AfterRows(ws0, played), rows) == AfterRows(ws0, played + rows)
  {
    forall k | 0 <= k < |ms0| + |played| + |rows|
      ensures ((ms0 + played) + rows)[k] == (ms0 + (played + rows))[k]
    {
      if k >= |ms0| {
        assert (ms0 + (played + rows))[k] == (played + rows)[k - |ms0|];
      }
    }
    AllSimulatedAppend(played, rows, eventId, ids);
    AfterRowsAppend(ws0, played, rows);
  }

  /** The events table after one pass of the loop of `processAutoSimulation`,
      from what `RunEvent` promises about it. */
  lemma BatchStepEvents(config: Config, k: nat, today: int, faults: Faults, exhausted: bool,
                        ev0: map<int, Event>, id0: int, id: int, ms: seq<MatchRow>, rows: seq<MatchRow>,
                        msA: seq<MatchRow>, evB: map<int, Event>, evA: map<int, Event>, ids: set<int>)
    requires k >= 1 && id == id0 + EventsInserted(k - 1, faults) && msA == ms + rows
    requires evB == BatchEvents(ev0, id0, config, k - 1, today, faults, ms)
    requires OfEvent(rows, id, ids)
    requires !exhausted ==> evA == EventAfter(evB, id, config, k, today, faults, msA)
    requires exhausted ==> evA == evB[id := NewEvent(config, k, today)]
    ensures !exhausted ==> evA == BatchEvents(ev0, id0, config, k, today, faults, msA)
    ensures exhausted ==> evA == StoppedEvents(ev0, id0, config, k, today, faults, msA)
  {
    EventsAfterStep(ev0, id0, config, k, today, faults, ms, rows, ids);
  }

  /** The match rows one event appends, all of that event, leave the rating of
      the events before it as it was. */
  lemma EventsAfterStep(events: map<int, Event>, nextId: int, config: Config, k: nat, today: int, faults: Faults,
                        before: seq<MatchRow>, extra: seq<MatchRow>, ids: set<int>)
    requires k >= 1
    requires OfEvent(extra, nextId + EventsInserted(k - 1, faults), ids)
    ensures BatchEvents(events, nextId, config, k - 1, today, faults, before + extra)
            == BatchEvents(events, nextId, config, k - 1, today, faults, before)
  {
    OfEventRows(extra, nextId + EventsInserted(k - 1, faults), ids);
    BatchEventsIgnore(events, nextId, config, k - 1, today, faults, before, extra);
  }

  lemma MulMonotone(a: nat, b: nat, c: nat)
    requires a <= b
    ensures a * c <= b * c
  {
  }

  lemma MulSucc(a: nat, c: nat)
    ensures a * c + c == (a + 1) * c
  {
  }

  /** A run stopped inside event k, after at most (k - 1) times the per-event
      count of matches, has counted no more matches than n events could. */
  lemma PartialBound(done: nat, played: nat, k: nat, perEvent: nat, n: nat)
    requires 1 <= k <= n && played <= perEvent && done <= (k - 1) * perEvent
    ensures done + played <= n * perEvent
  {
    MulSucc(k - 1, perEvent);
    MulMonotone(k, n, perEvent);
  }
}
