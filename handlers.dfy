/** The two IPC handlers of `electron/simulation-handlers.js` that carry logic:
    simulating one booked match on two stored workers, and recording a booked
    match with all the store updates that follow it. */
module SimulationHandlers {
  import opened Basics
  import opened Tables
  import opened MatchEngine
  import opened Simulation

  const WorkerNotFound := "Lutador não encontrado"

  // ------------------------------------------------------------------
  // simulation:simulateMatch

  /** `simulation:simulateMatch`: both workers are read by id; if either is
      missing the handler raises before simulating, otherwise it returns what
      `simulateMatch` returns for the two stored rows. */
  method SimulateMatchRequest(db: Database, worker1Id: int, worker2Id: int, matchType: string, d: MatchDraws)
    returns (r: Result<MatchOutcome>)
    requires ValidDraws(d)
    ensures r.Failure? <==> !HasWorker(db.workers, worker1Id) || !HasWorker(db.workers, worker2Id)
    ensures r.Failure? ==> r.error == WorkerNotFound
    ensures r.Success? ==>
              && r.value == SimulateMatch(db.workers[FindWorker(db.workers, worker1Id).value],
                                          db.workers[FindWorker(db.workers, worker2Id).value], matchType, d)
              && (r.value.winnerId == worker1Id || r.value.winnerId == worker2Id)
  {
    var i := FindWorker(db.workers, worker1Id);
    var j := FindWorker(db.workers, worker2Id);
    if i.None? || j.None? {
      return Failure(WorkerNotFound);
    }
    r := Success(SimulateMatch(db.workers[i.value], db.workers[j.value], matchType, d));
  }

  // ------------------------------------------------------------------
  // simulation:saveMatchResult

  /** The `matchData` object the renderer sends. Optional ids are `None` when
      the field is absent. */
  datatype MatchData = MatchData(
    eventId: int,
    worker1Id: int,
    worker2Id: Option<int>,
    worker3Id: Option<int>,
    worker4Id: Option<int>,
    winnerId: int,
    matchType: string,
    titleId: Option<int>,
    matchQuality: real,
    segmentRating: real,
    crowdReaction: string,
    finishType: string,
    description: string)

  /** JavaScript's `x || null` and `if (x)` on an optional id: an absent id
      and the falsy id 0 both count as no id. */
  function Present(o: Option<int>): (p: Option<int>)
    ensures p.Some? <==> o.Some? && o.value != 0
    ensures p.Some? ==> p == o
  {
    if o.Some? && o.value != 0 then o else None
  }

  /** The row the handler's INSERT binds; the store fills in id and time. */
  function InsertedRow(data: MatchData): (m: MatchRow)
    ensures Participants(data) == [m.worker1] + Listed(m.worker2) + Listed(m.worker3) + Listed(m.worker4)
    ensures m.titleId.Some? <==> data.titleId.Some? && data.titleId.value != 0
  {
    MatchRow(0, data.eventId, data.worker1Id, Present(data.worker2Id), Present(data.worker3Id),
             Present(data.worker4Id), data.winnerId, data.matchType, Present(data.titleId),
             data.matchQuality, data.segmentRating, data.crowdReaction, data.finishType, data.description, 0)
  }

  function Listed(o: Option<int>): seq<int>
  {
    if o.Some? then [o.value] else []
  }

  /** 1 when `b` holds, otherwise 0. */
  function Tally(b: bool): nat
  {
    if b then 1 else 0
  }

  /** The ids whose statistics the handler updates, in the order it updates
      them: worker 1 always, then each of workers 2 to 4 that is present. */
  function Participants(data: MatchData): (ps: seq<int>)
    ensures 1 <= |ps| <= 4 && ps[0] == data.worker1Id
    ensures forall id :: id in ps <==>
              || id == data.worker1Id
              || Present(data.worker2Id) == Some(id)
              || Present(data.worker3Id) == Some(id)
              || Present(data.worker4Id) == Some(id)
  {
    [data.worker1Id] + Listed(Present(data.worker2Id)) + Listed(Present(data.worker3Id)) + Listed(Present(data.worker4Id))
  }

  /** An id occurs in the list once for every field among worker 1 to worker 4
      that names it. */
  lemma ParticipantsCount(data: MatchData, id: int)
    ensures multiset(Participants(data))[id] ==
              Tally(id == data.worker1Id) + Tally(Present(data.worker2Id) == Some(id))
              + Tally(Present(data.worker3Id) == Some(id)) + Tally(Present(data.worker4Id) == Some(id))
  {
  }

  /** The `workers` table after `updateWorkerStats(db, id, id === winner)` for
      each id of `ps` in turn. Every row stays in place, and consistent
      records and in-range popularity stay so. */
  function StatsAfter(ws: seq<Worker>, ps: seq<int>, winner: int): (r: seq<Worker>)
    ensures Ids(r) == Ids(ws)
    ensures AllConsistent(ws) ==> AllConsistent(r)
    ensures AllPopularityInRange(ws) ==> AllPopularityInRange(r)
    decreases |ps|
  {
    if |ps| == 0 then ws
    else StatsAfter(WithMatchResult(ws, ps[0], ps[0] == winner), ps[1..], winner)
  }

  /** `workers.id` is the primary key. */
  predicate UniqueIds(ws: seq<Worker>)
  {
    forall i, j :: 0 <= i < j < |ws| ==> ws[i].id != ws[j].id
  }

  predicate Distinct(ps: seq<int>)
  {
    forall i, j :: 0 <= i < j < |ps| ==> ps[i] != ps[j]
  }

  /** With distinct ids to update, each listed worker's row gets exactly one
      `AfterMatch`, won iff its id is the winner's, and every other row is
      unchanged. */
  lemma {:induction false} StatsAfterEffect(ws: seq<Worker>, ps: seq<int>, winner: int)
    requires UniqueIds(ws) && Distinct(ps)
    ensures |StatsAfter(ws, ps, winner)| == |ws|
    ensures forall k :: 0 <= k < |ws| ==>
              StatsAfter(ws, ps, winner)[k] == if ws[k].id in ps then AfterMatch(ws[k], ws[k].id == winner) else ws[k]
    decreases |ps|
  {
    var r := StatsAfter(ws, ps, winner);
    assert |Ids(r)| == |Ids(ws)|;
    if |ps| > 0 {
      var p := ps[0];
      var ws1 := WithMatchResult(ws, p, p == winner);
      StepEffect(ws, p, winner);
      DistinctTail(ps);
      StatsAfterEffect(ws1, ps[1..], winner);
      assert r == StatsAfter(ws1, ps[1..], winner);
      forall k | 0 <= k < |ws|
        ensures r[k] == if ws[k].id in ps then AfterMatch(ws[k], ws[k].id == winner) else ws[k]
      {
        assert ws[k].id in ps <==> ws[k].id == p || ws[k].id in ps[1..] by {
          assert ps == [p] + ps[1..];
        }
      }
    }
  }

  /** On a primary-key table, each row records one more match for every time
      its id is listed, each a win when its id is the winner's and a loss
      otherwise. */
  lemma {:induction false} StatsAfterCounts(ws: seq<Worker>, ps: seq<int>, winner: int)
    requires UniqueIds(ws)
    ensures |StatsAfter(ws, ps, winner)| == |ws|
    ensures forall k :: 0 <= k < |ws| ==>
              var w, w' := ws[k], StatsAfter(ws, ps, winner)[k];
              && w'.id == w.id
              && w'.totalMatches == w.totalMatches + multiset(ps)[w.id]
              && w'.totalWins == w.totalWins + (if w.id == winner then multiset(ps)[w.id] else 0)
              && w'.totalLosses == w.totalLosses + (if w.id == winner then 0 else multiset(ps)[w.id])
    decreases |ps|
  {
    var r := StatsAfter(ws, ps, winner);
    assert |Ids(r)| == |Ids(ws)|;
    if |ps| > 0 {
      var p := ps[0];
      var ws1 := WithMatchResult(ws, p, p == winner);
      StepEffect(ws, p, winner);
      StatsAfterCounts(ws1, ps[1..], winner);
      assert r == StatsAfter(ws1, ps[1..], winner);
      assert ps == [p] + ps[1..];
      assert forall id :: multiset(ps)[id] == multiset([p])[id] + multiset(ps[1..])[id];
    }
  }

  /** One update on a primary-key table changes exactly the row with that id. */
  lemma StepEffect(ws: seq<Worker>, p: int, winner: int)
    requires UniqueIds(ws)
    ensures var ws1 := WithMatchResult(ws, p, p == winner);
            && |ws1| == |ws| && UniqueIds(ws1)
            && forall k :: 0 <= k < |ws| ==>
                 ws1[k].id == ws[k].id && ws1[k] == if ws[k].id == p then AfterMatch(ws[k], p == winner) else ws[k]
  {
    var ws1 := WithMatchResult(ws, p, p == winner);
    assert |ws1| == |ws| by { assert |Ids(ws1)| == |Ids(ws)|; }
    forall k | 0 <= k < |ws|
      ensures ws1[k].id == ws[k].id
    {
      assert Ids(ws1)[k] == Ids(ws)[k];
    }
  }

  /** The tail of a list of distinct ids is distinct and does not hold its head. */
  lemma DistinctTail(ps: seq<int>)
    requires |ps| > 0 && Distinct(ps)
    ensures Distinct(ps[1..]) && ps[0] !in ps[1..]
  {
    forall j | 0 <= j < |ps[1..]|
      ensures ps[1..][j] != ps[0]
    {
      assert ps[1..][j] == ps[j + 1];
    }
  }

  /** Listing one worker twice, as `worker1Id == worker2Id` does (the handler
      does not reject it), records two matches for that worker. */
  lemma RepeatedParticipantCountedTwice(ws: seq<Worker>, id: int, winner: int)
    requires HasWorker(ws, id)
    ensures var i := FindWorker(ws, id).value;
            StatsAfter(ws, [id, id], winner)[i].totalMatches == ws[i].totalMatches + 2
  {
    var i := FindWorker(ws, id).value;
    var ws1 := WithMatchResult(ws, id, id == winner);
    LookupsSurviveStats(ws, id, id == winner, id);
    var ws2 := WithMatchResult(ws1, id, id == winner);
    assert [id, id][1..] == [id];
    assert StatsAfter(ws, [id, id], winner) == StatsAfter(ws1, [id], winner);
    assert StatsAfter(ws1, [id], winner) == StatsAfter(ws2, [], winner) == ws2;
  }

  /** Inserting a row of the event appends its segment rating to the ones the
      rating query sees. */
  lemma NewRowRated(ms: seq<MatchRow>, row: MatchRow)
    ensures Ratings(ms + [row], row.eventId) == Ratings(ms, row.eventId) + [row.segmentRating]
  {
    RatingsAppend(ms, row, row.eventId);
  }

  /** The event's new average is within the range of its old ratings and the
      new one. */
  lemma SavedRatingInRange(ms: seq<MatchRow>, row: MatchRow, lo: real, hi: real)
    requires forall k :: 0 <= k < |Ratings(ms, row.eventId)| ==> lo <= Ratings(ms, row.eventId)[k] <= hi
    requires lo <= row.segmentRating <= hi
    ensures lo <= Mean(Ratings(ms, row.eventId) + [row.segmentRating]) <= hi
  {
    var rs := Ratings(ms, row.eventId) + [row.segmentRating];
    forall k | 0 <= k < |rs|
      ensures lo <= rs[k] <= hi
    {
      if k < |Ratings(ms, row.eventId)| {
        assert rs[k] == Ratings(ms, row.eventId)[k];
      }
    }
    MeanWithin(rs, lo, hi);
  }

  /** The title tables after the handler's conditional title update, and the
      error it raised: nothing happens without a title id, otherwise the
      winner becomes champion. */
  function TitleAfter(titles: map<int, Title>, history: seq<Reign>, ws: seq<Worker>, ms: seq<MatchRow>,
                      data: MatchData, now: int): (c: TitleChange)
    ensures c.titles.Keys == titles.Keys && history <= c.history
    ensures Present(data.titleId).None? ==> c.titles == titles && c.history == history && c.error.None?
    ensures c.error.Some? ==> Present(data.titleId).Some? && c.titles == titles
    ensures forall id :: id in titles && Present(data.titleId) != Some(id) ==> c.titles[id] == titles[id]
    ensures Present(data.titleId).Some? && data.titleId.value in titles ==>
              var t := titles[data.titleId.value];
              (c.error.None? <==>
                 && HasWorker(ws, data.winnerId)
                 && (t.champion.Some? ==>
                       FirstTitleWin(ms, t.champion.value, data.titleId.value).Some? && HasWorker(ws, t.champion.value)))
  {
    if Present(data.titleId).Some? then ChampionChange(titles, history, ws, ms, data.titleId.value, data.winnerId, now)
    else TitleChange(titles, history, None)
  }

  /** The tables `simulation:saveMatchResult` may write, as values. */
  datatype Store = Store(
    workers: seq<Worker>,
    titles: map<int, Title>,
    events: map<int, Event>,
    matches: seq<MatchRow>,
    history: seq<Reign>,
    nextMatchId: int)

  function StoreOf(db: Database): Store
    reads db
  {
    Store(db.workers, db.titles, db.events, db.matches, db.history, db.nextMatchId)
  }

  /** The store after the INSERT of the handler's row went through: the row
      gets the next id and the current time. */
  function Inserted(s: Store, data: MatchData, now: int): (r: Store)
    ensures |r.matches| == |s.matches| + 1 && r.matches[..|s.matches|] == s.matches
    ensures var row := r.matches[|s.matches|];
            && row.id == s.nextMatchId && row.createdAt == now
            && row.eventId == data.eventId && row.winner == data.winnerId && row.titleId == Present(data.titleId)
    ensures r.nextMatchId == s.nextMatchId + 1
    ensures r.(matches := s.matches, nextMatchId := s.nextMatchId) == s
  {
    s.(matches := s.matches + [InsertedRow(data).(id := s.nextMatchId, createdAt := now)],
       nextMatchId := s.nextMatchId + 1)
  }

  /** The store and the reply after the updates that follow the INSERT of row
      `id`: the listed workers' statistics, the event's rating, and for a title
      match the title handed to the winner, whose error is the reply. */
  function Applied(s: Store, data: MatchData, now: int, id: int): (r: (Store, Result<int>))
    ensures r.0.matches == s.matches && r.0.nextMatchId == s.nextMatchId
    ensures Ids(r.0.workers) == Ids(s.workers) && r.0.events.Keys == s.events.Keys
    ensures r.0.titles.Keys == s.titles.Keys && s.history <= r.0.history
    ensures r.1.Success? ==> r.1.value == id
    ensures r.1.Failure? ==> Present(data.titleId).Some? && r.0.titles == s.titles
  {
    var ws := StatsAfter(s.workers, Participants(data), data.winnerId);
    var c := TitleAfter(s.titles, s.history, ws, s.matches, data, now);
    (s.(workers := ws, events := Rated(s.events, s.matches, data.eventId), titles := c.titles, history := c.history),
     if c.error.None? then Success(id) else Failure(c.error.value))
  }

  /** The store and the reply after `simulation:saveMatchResult`. The INSERT
      fails on an unresolved foreign key and then nothing is written.
      Otherwise, without a transaction, the updates follow it and an error
      raised by the title update is passed on with the earlier writes kept. */
  function Saved(s: Store, data: MatchData, now: int): (r: (Store, Result<int>))
    ensures Ids(r.0.workers) == Ids(s.workers) && r.0.events.Keys == s.events.Keys
    ensures r.0.titles.Keys == s.titles.Keys && s.history <= r.0.history
    ensures s.matches <= r.0.matches && |r.0.matches| <= |s.matches| + 1
    ensures r.1.Success? ==> r.1.value == s.nextMatchId && |r.0.matches| == |s.matches| + 1
  {
    if !MatchKeysResolve(s.events, s.workers, s.titles, InsertedRow(data)) then (s, Failure(ForeignKeyFailed))
    else Applied(Inserted(s, data, now), data, now, s.nextMatchId)
  }

  /** `simulation:saveMatchResult`. */
  method SaveMatchResult(db: Database, data: MatchData, now: int) returns (r: Result<int>)
    modifies db`matches, db`nextMatchId, db`workers, db`events, db`titles, db`history
    ensures StoreOf(db) == Saved(old(StoreOf(db)), data, now).0
    ensures r == Saved(old(StoreOf(db)), data, now).1
  {
    ghost var s := StoreOf(db);
    var inserted := InsertMatch(db, InsertedRow(data), now);
    if inserted.Failure? {
      assert StoreOf(db) == s;
      return Failure(inserted.error);
    }
    assert StoreOf(db) == Inserted(s, data, now);
    r := ApplyBookedMatch(db, data, now, inserted.value);
  }

  /** A row whose references do not all resolve is refused with the foreign key
      error, and nothing is written. */
  lemma SaveRefusesUnresolvedKeys(s: Store, data: MatchData, now: int)
    requires !MatchKeysResolve(s.events, s.workers, s.titles, InsertedRow(data))
    ensures Saved(s, data, now) == (s, Failure(ForeignKeyFailed))
  {
  }

  /** A saved match is appended with the next id and the current time, and a
      successful reply carries that id. */
  lemma {:induction false} SaveAppendsRow(s: Store, data: MatchData, now: int)
    requires MatchKeysResolve(s.events, s.workers, s.titles, InsertedRow(data))
    ensures var (s', r) := Saved(s, data, now);
            && s'.matches == s.matches + [InsertedRow(data).(id := s.nextMatchId, createdAt := now)]
            && s'.nextMatchId == s.nextMatchId + 1
            && (r.Success? ==> r.value == s.nextMatchId)
  {
  }

  /** Every reply is either the new id after the row's foreign keys resolved,
      the foreign key error, or the error of the title update. */
  lemma SaveReply(s: Store, data: MatchData, now: int)
    ensures var (s', r) := Saved(s, data, now);
            && (r.Success? ==> MatchKeysResolve(s.events, s.workers, s.titles, InsertedRow(data))
                               && r.value == s.nextMatchId)
            && (r.Failure? ==> r.error == ForeignKeyFailed || Present(data.titleId).Some?)
  {
  }

  /** With a primary-key `workers` table and distinct ids in the match, worker
      1's record and that of each present worker 2 to 4 gets exactly one
      match, won iff its id is the winner's; every other worker is unchanged. */
  lemma SaveUpdatesParticipants(s: Store, data: MatchData, now: int)
    requires MatchKeysResolve(s.events, s.workers, s.titles, InsertedRow(data))
    requires UniqueIds(s.workers) && Distinct(Participants(data))
    ensures var ws := Saved(s, data, now).0.workers;
            && |ws| == |s.workers|
            && forall k :: 0 <= k < |s.workers| ==>
                 ws[k] == if s.workers[k].id in Participants(data)
                          then AfterMatch(s.workers[k], s.workers[k].id == data.winnerId)
                          else s.workers[k]
  {
    StatsAfterEffect(s.workers, Participants(data), data.winnerId);
  }

  /** With a primary-key `workers` table, each worker's record gets one match
      for every field among worker 1 to worker 4 that names it, so a worker
      named twice is counted twice. */
  lemma SaveCountsListings(s: Store, data: MatchData, now: int)
    requires MatchKeysResolve(s.events, s.workers, s.titles, InsertedRow(data))
    requires UniqueIds(s.workers)
    ensures var ws := Saved(s, data, now).0.workers;
            && |ws| == |s.workers|
            && forall k :: 0 <= k < |s.workers| ==>
                 var id := s.workers[k].id;
                 ws[k].totalMatches == s.workers[k].totalMatches +
                   Tally(id == data.worker1Id) + Tally(Present(data.worker2Id) == Some(id))
                   + Tally(Present(data.worker3Id) == Some(id)) + Tally(Present(data.worker4Id) == Some(id))
  {
    StatsAfterCounts(s.workers, Participants(data), data.winnerId);
    forall k | 0 <= k < |s.workers|
      ensures multiset(Participants(data))[s.workers[k].id] ==
                Tally(s.workers[k].id == data.worker1Id) + Tally(Present(data.worker2Id) == Some(s.workers[k].id))
                + Tally(Present(data.worker3Id) == Some(s.workers[k].id))
                + Tally(Present(data.worker4Id) == Some(s.workers[k].id))
    {
      ParticipantsCount(data, s.workers[k].id);
    }
  }

  /** A match with worker 2 equal to worker 1, as the handler accepts, records
      two matches on that worker's row. */
  lemma SaveCountsRepeatedWorkerTwice(s: Store, data: MatchData, now: int)
    requires MatchKeysResolve(s.events, s.workers, s.titles, InsertedRow(data))
    requires Present(data.worker2Id) == Some(data.worker1Id)
    requires Present(data.worker3Id).None? && Present(data.worker4Id).None?
    ensures HasWorker(s.workers, data.worker1Id)
    ensures var i := FindWorker(s.workers, data.worker1Id).value;
            Saved(s, data, now).0.workers[i].totalMatches == s.workers[i].totalMatches + 2
  {
    assert Participants(data) == [data.worker1Id, data.worker1Id];
    RepeatedParticipantCountedTwice(s.workers, data.worker1Id, data.winnerId);
  }

  /** The event's new average is the mean of its earlier ratings followed by
      the new row's, and no other event changes. */
  lemma SaveRatesEvent(s: Store, data: MatchData, now: int)
    requires MatchKeysResolve(s.events, s.workers, s.titles, InsertedRow(data))
    ensures var es := Saved(s, data, now).0.events;
            && es.Keys == s.events.Keys
            && es[data.eventId] == s.events[data.eventId].(averageRating :=
                 Some(Mean(Ratings(s.matches, data.eventId) + [data.segmentRating])))
            && forall id :: id in s.events && id != data.eventId ==> es[id] == s.events[id]
  {
    NewRowRated(s.matches, InsertedRow(data).(id := s.nextMatchId, createdAt := now));
  }

  /** Without a title id the title tables are untouched and the reply is the
      new id. With one, a successful update makes the winner champion with a
      defense counter of 1 and appends their open reign. */
  lemma SaveChangesTitleOnlyWhenGiven(s: Store, data: MatchData, now: int)
    requires MatchKeysResolve(s.events, s.workers, s.titles, InsertedRow(data))
    ensures var (s', r) := Saved(s, data, now);
            && (Present(data.titleId).None? ==>
                  s'.titles == s.titles && s'.history == s.history && r == Success(s.nextMatchId))
            && (Present(data.titleId).Some? && r.Success? ==>
                  var t := data.titleId.value;
                  && s'.titles[t] == s.titles[t].(champion := Some(data.winnerId), defenses := 1)
                  && |s'.history| > |s.history|
                  && s'.history[|s'.history| - 1] == Reign(t, data.winnerId, now, None, 0))
  {
    var ins := Inserted(s, data, now);
    var ws := StatsAfter(ins.workers, Participants(data), data.winnerId);
    assert Saved(s, data, now) == Applied(ins, data, now, s.nextMatchId);
    assert ins.titles == s.titles && ins.history == s.history;
    if Present(data.titleId).Some? {
      assert TitleAfter(s.titles, s.history, ws, ins.matches, data, now)
             == ChampionChange(s.titles, s.history, ws, ins.matches, data.titleId.value, data.winnerId, now);
    }
  }

  /** A save succeeds exactly when the row's foreign keys resolve and, for a
      title match, the title is vacant, or the winner already holds it, or its
      holder has a recorded win of it and still exists. A defense always
      succeeds: the row just inserted is a win of the title by its holder. */
  lemma SaveSucceeds(s: Store, data: MatchData, now: int)
    ensures Saved(s, data, now).1.Success? <==>
              && MatchKeysResolve(s.events, s.workers, s.titles, InsertedRow(data))
              && (Present(data.titleId).Some? ==>
                    var t := data.titleId.value;
                    var holder := s.titles[t].champion;
                    || holder.None?
                    || holder.value == data.winnerId
                    || (FirstTitleWin(s.matches, holder.value, t).Some? && HasWorker(s.workers, holder.value)))
  {
    if MatchKeysResolve(s.events, s.workers, s.titles, InsertedRow(data)) {
      var ins := Inserted(s, data, now);
      var ws := StatsAfter(ins.workers, Participants(data), data.winnerId);
      assert Saved(s, data, now) == Applied(ins, data, now, s.nextMatchId);
      if Present(data.titleId).Some? {
        var t := data.titleId.value;
        var holder := s.titles[t].champion;
        var row := ins.matches[|s.matches|];
        assert ins.matches == s.matches + [row];
        FindWorkerByIds(ws, s.workers, data.winnerId);
        if holder.Some? {
          FindWorkerByIds(ws, s.workers, holder.value);
          FirstTitleWinAppend(s.matches, row, holder.value, t);
        }
      }
    }
  }

  /** Everything the handler does after the INSERT of row `id` went through. */
  method ApplyBookedMatch(db: Database, data: MatchData, now: int, id: int) returns (r: Result<int>)
    modifies db`workers, db`events, db`titles, db`history
    ensures StoreOf(db) == Applied(old(StoreOf(db)), data, now, id).0
    ensures r == Applied(old(StoreOf(db)), data, now, id).1
  {
    UpdateParticipants(db, data);
    UpdateEventRating(db, data.eventId);
    r := Success(id);
    if Present(data.titleId).Some? {
      var error := UpdateTitleChampion(db, data.titleId.value, data.winnerId, data.eventId, now);
      if error.Some? {
        r := Failure(error.value);
      }
    }
  }

  /** The statistics updates for the handler's ids: worker 1, then each of
      workers 2 to 4 that is present. */
  method UpdateParticipants(db: Database, data: MatchData)
    modifies db`workers
    ensures db.workers == StatsAfter(old(db.workers), Participants(data), data.winnerId)
  {
    var winner := data.winnerId;
    UpdateWorkerStats(db, data.worker1Id, data.worker1Id == winner);
    StatsAfterSnoc(old(db.workers), [], data.worker1Id, winner);
    assert [] + [data.worker1Id] == [data.worker1Id];
    ghost var done := [data.worker1Id];
    if Present(data.worker2Id).Some? {
      UpdateWorkerStats(db, data.worker2Id.value, data.worker2Id.value == winner);
    }
    StatsAfterListed(old(db.workers), done, Present(data.worker2Id), winner);
    done := done + Listed(Present(data.worker2Id));
    if Present(data.worker3Id).Some? {
      UpdateWorkerStats(db, data.worker3Id.value, data.worker3Id.value == winner);
    }
    StatsAfterListed(old(db.workers), done, Present(data.worker3Id), winner);
    done := done + Listed(Present(data.worker3Id));
    if Present(data.worker4Id).Some? {
      UpdateWorkerStats(db, data.worker4Id.value, data.worker4Id.value == winner);
    }
    StatsAfterListed(old(db.workers), done, Present(data.worker4Id), winner);
    done := done + Listed(Present(data.worker4Id));
  }

  lemma StatsAfterListed(ws: seq<Worker>, ps: seq<int>, o: Option<int>, winner: int)
    ensures StatsAfter(ws, ps + Listed(o), winner)
            == if o.Some? then WithMatchResult(StatsAfter(ws, ps, winner), o.value, o.value == winner)
               else StatsAfter(ws, ps, winner)
  {
    if o.Some? {
      StatsAfterSnoc(ws, ps, o.value, winner);
    } else {
      assert ps + Listed(o) == ps;
    }
  }

  /** One more update after a run of updates. */
  lemma {:induction false} StatsAfterSnoc(ws: seq<Worker>, ps: seq<int>, p: int, winner: int)
    ensures StatsAfter(ws, ps + [p], winner) == WithMatchResult(StatsAfter(ws, ps, winner), p, p == winner)
    decreases |ps|
  {
    if |ps| == 0 {
      assert [p][1..] == [];
    } else {
      assert (ps + [p])[1..] == ps[1..] + [p];
      StatsAfterSnoc(WithMatchResult(ws, ps[0], ps[0] == winner), ps[1..], p, winner);
    }
  }
}
