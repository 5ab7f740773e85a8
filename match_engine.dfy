/** The pure half of `electron/simulation.js`: scoring a worker, drawing the
    winner, and deriving match quality, segment rating, crowd reaction and
    finish type. Every `Math.random()` call is a parameter in [0, 1). */
module MatchEngine {
  import opened Basics
  import opened Tables

  predicate IsDraw(r: real)
  {
    0.0 <= r < 1.0
  }

  /** The performance attributes lie in [0, 100], as the schema's defaults and
      the data the game ships with have them. */
  predicate AttributesInRange(w: Worker)
  {
    && 0 <= w.skill <= 100 && 0 <= w.entertainment <= 100 && 0 <= w.starPower <= 100
    && 0 <= w.intimidation <= 100 && 0 <= w.psychology <= 100 && 0 <= w.stamina <= 100
  }

  /** The weighted attribute sum of `calculateWorkerScore` before variance.
      The weights add up to 1, so a worker with attributes in [0, 100] scores
      in [0, 100], and a worker whose attributes all equal `a` scores `a`. */
  function BaseScore(w: Worker): (b: real)
    ensures AttributesInRange(w) ==> 0.0 <= b <= 100.0
    ensures w.skill == w.entertainment == w.starPower == w.intimidation == w.psychology == w.stamina
            ==> b == w.skill as real
  {
    w.skill as real * 0.25
    + w.entertainment as real * 0.15
    + w.starPower as real * 0.20
    + w.intimidation as real * 0.15
    + w.psychology as real * 0.15
    + w.stamina as real * 0.10
  }

  /** `calculateWorkerScore`: the base score with a variance of
      `(r - 0.5) * 0.2 * base` added, floored at 0. */
  function WorkerScore(w: Worker, r: real): (s: real)
    requires IsDraw(r)
    ensures s >= 0.0
    ensures BaseScore(w) >= 0.0 ==> 0.9 * BaseScore(w) <= s <= 1.1 * BaseScore(w)
    ensures BaseScore(w) <= 0.0 ==> s == 0.0
  {
    var base := BaseScore(w);
    var variance := (r - 0.5) * 0.2 * base;
    VarianceBounds(base, r, variance);
    if base + variance < 0.0 then 0.0 else base + variance
  }

  lemma VarianceBounds(base: real, r: real, v: real)
    requires IsDraw(r) && v == (r - 0.5) * 0.2 * base
    ensures base >= 0.0 ==> -0.1 * base <= v <= 0.1 * base
    ensures base <= 0.0 ==> base + v <= 0.0
  {
    var rb := r * base;
    assert v == 0.2 * rb - 0.1 * base;
    DrawScales(r, base);
  }

  /** A draw in [0, 1) scales a value towards 0. */
  lemma DrawScales(r: real, x: real)
    requires IsDraw(r)
    ensures x >= 0.0 ==> 0.0 <= r * x <= x
    ensures x <= 0.0 ==> x <= r * x <= 0.0
  {
    if x >= 0.0 {
      MulLeft(x, 0.0, r);
      MulLeft(x, r, 1.0);
    } else {
      var y := -x;
      MulLeft(y, 0.0, r);
      MulLeft(y, r, 1.0);
      assert r * x == -(r * y);
    }
  }

  /** A higher draw never lowers a worker's score. */
  lemma {:induction false} WorkerScoreMonotone(w: Worker, r1: real, r2: real)
    requires IsDraw(r1) && IsDraw(r2) && r1 <= r2 && BaseScore(w) >= 0.0
    ensures WorkerScore(w, r1) <= WorkerScore(w, r2)
  {
    var base := BaseScore(w);
    var v1, v2 := (r1 - 0.5) * 0.2 * base, (r2 - 0.5) * 0.2 * base;
    MulLeft(base, (r1 - 0.5) * 0.2, (r2 - 0.5) * 0.2);
    assert v1 <= v2;
    assert WorkerScore(w, r1) == if base + v1 < 0.0 then 0.0 else base + v1;
    assert WorkerScore(w, r2) == if base + v2 < 0.0 then 0.0 else base + v2;
  }

  /** The winner line of `simulateMatch`: worker 1 wins when the draw falls below
      its share `s1 / (s1 + s2)`. With both scores 0 that share is NaN, the
      comparison is false, and worker 2 wins. */
  function Worker1Wins(s1: real, s2: real, r: real): (b: bool)
    requires s1 >= 0.0 && s2 >= 0.0 && IsDraw(r)
    ensures b ==> s1 > 0.0
    ensures s1 > 0.0 && s2 == 0.0 ==> b
    ensures s1 + s2 == 0.0 ==> !b
  {
    assert s1 > 0.0 && s2 == 0.0 ==> s1 / (s1 + s2) == 1.0;
    s1 + s2 > 0.0 && r < s1 / (s1 + s2)
  }

  /** Raising worker 1's score never turns one of its wins into a loss, so its
      winning draws form the interval [0, s1 / (s1 + s2)), which grows with s1. */
  lemma WinsMonotoneInScore(s1: real, s1': real, s2: real, r: real)
    requires 0.0 <= s1 <= s1' && s2 >= 0.0 && IsDraw(r)
    requires Worker1Wins(s1, s2, r)
    ensures Worker1Wins(s1', s2, r)
  {
    ShareMonotone(s1, s1', s2);
  }

  lemma ShareMonotone(s1: real, s1': real, s2: real)
    requires 0.0 <= s1 <= s1' && s2 >= 0.0 && s1 + s2 > 0.0
    ensures s1 / (s1 + s2) <= s1' / (s1' + s2)
  {
    var d, d' := s1 + s2, s1' + s2;
    var x := s1' - s1;
    assert d' == d + x;
    assert s1 * d' == s1 * d + s1 * x;
    assert s1' * d == s1 * d + x * d;
    assert s1 * x <= x * d by {
      MulLeft(x, s1, d);
    }
    DivideBoth(s1, d, s1', d');
  }

  lemma DivideBoth(a: real, b: real, c: real, d: real)
    requires b > 0.0 && d > 0.0 && a * d <= c * b
    ensures a / b <= c / d
  {
    assert a / b == (a * d) / (b * d);
    assert c / d == (c * b) / (b * d);
    assert b * d > 0.0;
  }

  lemma MulLeft(x: real, a: real, b: real)
    requires x >= 0.0 && a <= b
    ensures a * x <= x * b
  {
  }

  /** Two equal positive scores make the draw a fair coin. */
  lemma EqualScoresFairCoin(s: real, r: real)
    requires s > 0.0 && IsDraw(r)
    ensures Worker1Wins(s, s, r) <==> r < 0.5
  {
    assert s / (s + s) == 0.5;
  }

  /** `calculateMatchQuality`: 60% average skill plus 40% average psychology,
      scaled to ten, a variance of `(r - 0.5) * 2`, clamped to [1, 10]. */
  function BaseQuality(w1: Worker, w2: Worker): (b: real)
    ensures w1.skill == w2.skill == w1.psychology == w2.psychology ==> b == w1.skill as real / 10.0
  {
    var avgSkill := (w1.skill + w2.skill) as real / 2.0;
    var avgPsychology := (w1.psychology + w2.psychology) as real / 2.0;
    (avgSkill * 0.6 + avgPsychology * 0.4) / 100.0 * 10.0
  }

  function MatchQuality(w1: Worker, w2: Worker, r: real): (q: real)
    requires IsDraw(r)
    ensures 1.0 <= q <= 10.0
    ensures 2.0 <= BaseQuality(w1, w2) <= 9.0 ==> BaseQuality(w1, w2) - 1.0 <= q < BaseQuality(w1, w2) + 1.0
  {
    Clamp(BaseQuality(w1, w2) + (r - 0.5) * 2.0, 1.0, 10.0)
  }

  /** Quality never falls as the draw rises, whoever the workers are. */
  lemma QualityMonotone(w1: Worker, w2: Worker, r1: real, r2: real)
    requires IsDraw(r1) && IsDraw(r2) && r1 <= r2
    ensures MatchQuality(w1, w2, r1) <= MatchQuality(w1, w2, r2)
  {
    ClampMonotone(BaseQuality(w1, w2) + (r1 - 0.5) * 2.0, BaseQuality(w1, w2) + (r2 - 0.5) * 2.0, 1.0, 10.0);
  }

  /** Workers at the top of both attributes give a base quality of 10, and
      workers at 0 give 0. */
  lemma BaseQualityRange(w1: Worker, w2: Worker)
    requires AttributesInRange(w1) && AttributesInRange(w2)
    ensures 0.0 <= BaseQuality(w1, w2) <= 10.0
  {
  }

  /** `calculateSegmentRating`: 80% of the match quality with a variance of
      `r - 0.5`, clamped to [1, 10]. Because quality is at most 10, the rating
      never exceeds 8.5: the upper clamp never applies. */
  function SegmentRating(quality: real, r: real): (s: real)
    requires IsDraw(r)
    ensures 1.0 <= s <= 10.0
    ensures quality <= 10.0 ==> s <= 8.5
    ensures 1.5 <= quality * 0.8 && quality <= 10.0 ==> quality * 0.8 - 0.5 <= s < quality * 0.8 + 0.5
  {
    Clamp(quality * 0.8 + (r - 0.5), 1.0, 10.0)
  }

  /** The five crowd-reaction labels, best first. */
  datatype Reaction = Incredible | Excellent | VeryGood | Good | Acceptable
  {
    /** The text stored in `crowd_reaction`. */
    function Label(): string
    {
      match this
      case Incredible => "Incrível!"
      case Excellent => "Excelente!"
      case VeryGood => "Muito Bom"
      case Good => "Bom"
      case Acceptable => "Aceitável"
    }

    /** 4 for the best label down to 0 for the worst. */
    function Rank(): nat
    {
      match this
      case Incredible => 4
      case Excellent => 3
      case VeryGood => 2
      case Good => 1
      case Acceptable => 0
    }
  }

  /** `getCrowdReaction`: thresholds 8.5, 8, 7 and 6 on the match quality. */
  function CrowdReaction(quality: real): (c: Reaction)
    ensures c == Incredible <==> quality >= 8.5
    ensures c == Excellent <==> 8.0 <= quality < 8.5
    ensures c == VeryGood <==> 7.0 <= quality < 8.0
    ensures c == Good <==> 6.0 <= quality < 7.0
    ensures c == Acceptable <==> quality < 6.0
  {
    if quality >= 8.5 then Incredible
    else if quality >= 8.0 then Excellent
    else if quality >= 7.0 then VeryGood
    else if quality >= 6.0 then Good
    else Acceptable
  }

  /** A better match never draws a worse reaction. */
  lemma CrowdReactionMonotone(q1: real, q2: real)
    requires q1 <= q2
    ensures CrowdReaction(q1).Rank() <= CrowdReaction(q2).Rank()
  {
  }

  /** `Math.floor(r * n)`: the index a draw picks from a list of length `n`. */
  function Index(r: real, n: nat): (i: nat)
    requires IsDraw(r) && n > 0
    ensures i < n
    ensures i as real <= r * n as real < i as real + 1.0
  {
    DrawScalesBelow(r, n as real);
    (r * n as real).Floor
  }

  lemma DrawScalesBelow(r: real, x: real)
    requires IsDraw(r) && x > 0.0
    ensures 0.0 <= r * x < x
  {
    assert x - r * x == (1.0 - r) * x;
    assert (1.0 - r) * x > 0.0;
  }

  /** The index `i` is hit by the draw `i / n`: every entry can be picked. */
  lemma IndexReachable(i: nat, n: nat)
    requires i < n
    ensures IsDraw(i as real / n as real)
    ensures Index(i as real / n as real, n) == i
  {
    assert (i as real / n as real) * n as real == i as real;
  }

  const Finishes: seq<string> := ["Pinfall", "Submission", "Finisher", "Rollup", "Contagem", "Desqualificação"]

  /** `getRandomFinishType`. */
  function FinishType(r: real): (f: string)
    requires IsDraw(r)
    ensures f in Finishes
  {
    Finishes[Index(r, |Finishes|)]
  }

  /** Each of the six finishes is the result of some draw. */
  lemma FinishReachable(k: nat)
    requires k < |Finishes|
    ensures exists r :: IsDraw(r) && FinishType(r) == Finishes[k]
  {
    IndexReachable(k, |Finishes|);
    assert FinishType(k as real / 6.0) == Finishes[k];
  }

  /** The six `Math.random()` values one `simulateMatch` call consumes, in the
      order it consumes them. */
  datatype MatchDraws = MatchDraws(score1: real, score2: real, winner: real, quality: real, segment: real, finish: real)

  predicate ValidDraws(d: MatchDraws)
  {
    IsDraw(d.score1) && IsDraw(d.score2) && IsDraw(d.winner) && IsDraw(d.quality) && IsDraw(d.segment) && IsDraw(d.finish)
  }

  /** The object `simulateMatch` returns. */
  datatype MatchOutcome = MatchOutcome(
    winnerId: int,
    matchQuality: real,
    segmentRating: real,
    crowdReaction: string,
    finishType: string,
    description: string)

  /** The `description` text: the winner's name, then the loser's. */
  function Description(winner: Worker, loser: Worker): (s: string)
    ensures |s| == |winner.name| + |" venceu contra "| + |loser.name|
    ensures s[..|winner.name|] == winner.name
    ensures s[|winner.name|..|s| - |loser.name|] == " venceu contra "
    ensures s[|s| - |loser.name|..] == loser.name
  {
    winner.name + " venceu contra " + loser.name
  }

  /** `simulateMatch`. The match type is accepted and ignored, as in the source. */
  function SimulateMatch(w1: Worker, w2: Worker, matchType: string, d: MatchDraws): (o: MatchOutcome)
    requires ValidDraws(d)
    ensures o.winnerId == w1.id || o.winnerId == w2.id
    ensures o.winnerId == w1.id <==>
              w1.id == w2.id || Worker1Wins(WorkerScore(w1, d.score1), WorkerScore(w2, d.score2), d.winner)
    ensures w1.id != w2.id ==>
              o.description == if o.winnerId == w1.id then Description(w1, w2) else Description(w2, w1)
    ensures 1.0 <= o.matchQuality <= 10.0
    ensures 1.0 <= o.segmentRating <= 8.5
    ensures o.crowdReaction == CrowdReaction(o.matchQuality).Label()
    ensures o.finishType in Finishes
  {
    var score1 := WorkerScore(w1, d.score1);
    var score2 := WorkerScore(w2, d.score2);
    var winner := if Worker1Wins(score1, score2, d.winner) then w1 else w2;
    var loser := if winner.id == w1.id then w2 else w1;
    var quality := MatchQuality(w1, w2, d.quality);
    MatchOutcome(
      winner.id,
      quality,
      SegmentRating(quality, d.segment),
      CrowdReaction(quality).Label(),
      FinishType(d.finish),
      Description(winner, loser))
  }

  predicate TapeInRange(tape: seq<real>)
  {
    forall k :: 0 <= k < |tape| ==> IsDraw(tape[k])
  }

  /** The id each draw of `tape` picks from `pool` (`pool[Math.floor(r * n)].id`),
      in tape order. */
  function Picks(pool: seq<Worker>, tape: seq<real>): (ids: seq<int>)
    requires |pool| > 0 && TapeInRange(tape)
    ensures |ids| == |tape|
    decreases |tape|
  {
    if |tape| == 0 then [] else [pool[Index(tape[0], |pool|)].id] + Picks(pool, tape[1..])
  }

  lemma {:induction false} PicksAt(pool: seq<Worker>, tape: seq<real>, k: nat)
    requires |pool| > 0 && TapeInRange(tape) && k < |tape|
    ensures Picks(pool, tape)[k] == pool[Index(tape[k], |pool|)].id
    decreases k
  {
    if k > 0 {
      assert tape[1..][k - 1] == tape[k];
      PicksAt(pool, tape[1..], k - 1);
    }
  }

  /** Where the redrawing of worker 2 stops: the first position from `k` on
      whose pick is another id than the pick at `first`, or None when the
      picks end first. */
  function SecondPick(picks: seq<int>, first: nat, k: nat): (r: Option<nat>)
    requires first < |picks|
    ensures r.Some? ==> k <= r.value < |picks| && picks[r.value] != picks[first]
    decreases |picks| - k
  {
    if k >= |picks| then None
    else if picks[k] != picks[first] then Some(k)
    else SecondPick(picks, first, k + 1)
  }

  /** Every pick the redrawing skips is worker 1's id again: up to the
      position found, or to the end of the picks when none is. */
  lemma {:induction false} SecondPickSkips(picks: seq<int>, first: nat, k: nat)
    requires first < |picks|
    ensures var r := SecondPick(picks, first, k);
            forall t :: k <= t < (if r.Some? then r.value else |picks|) ==> picks[t] == picks[first]
    decreases |picks| - k
  {
    if k < |picks| && picks[k] == picks[first] {
      SecondPickSkips(picks, first, k + 1);
    }
  }

  /** The pairing step of `processAutoSimulation`: draw worker 1, draw worker 2,
      and draw worker 2 again while the two ids agree. The draws come from
      `tape` starting at `pos`; `next` is the first unused position. When the
      tape ends before a distinct pair is drawn, `found` is false. */
  method PickPair(pool: seq<Worker>, tape: seq<real>, pos: nat) returns (found: bool, i: nat, j: nat, next: nat)
    requires |pool| > 0 && TapeInRange(tape) && pos <= |tape|
    ensures found ==> pos + 2 <= next <= |tape|
    ensures found ==> i < |pool| && j < |pool| && pool[i].id != pool[j].id
    ensures found ==> i == Index(tape[pos], |pool|) && j == Index(tape[next - 1], |pool|)
    ensures found ==> forall k :: pos + 1 <= k < next - 1 ==> pool[Index(tape[k], |pool|)].id == pool[i].id
    ensures !found ==> next == |tape|
    ensures !found && pos + 1 < |tape| ==>
              forall k :: pos + 1 <= k < |tape| ==> pool[Index(tape[k], |pool|)].id == pool[Index(tape[pos], |pool|)].id
    ensures pos < |tape| ==> (found <==> SecondPick(Picks(pool, tape), pos, pos + 1).Some?)
    ensures found ==> SecondPick(Picks(pool, tape), pos, pos + 1) == Some(next - 1)
  {
    if pos + 2 > |tape| {
      return false, 0, 0, |tape|;
    }
    ghost var picks := Picks(pool, tape);
    i := Index(tape[pos], |pool|);
    PicksAt(pool, tape, pos);
    var k := pos + 1;
    j := Index(tape[k], |pool|);
    PicksAt(pool, tape, k);
    while pool[j].id == pool[i].id
      invariant pos + 1 <= k < |tape|
      invariant j == Index(tape[k], |pool|) && picks[k] == pool[j].id && picks[pos] == pool[i].id
      invariant forall t :: pos + 1 <= t < k ==> pool[Index(tape[t], |pool|)].id == pool[i].id
      invariant SecondPick(picks, pos, pos + 1) == SecondPick(picks, pos, k)
      decreases |tape| - k
    {
      if k + 1 == |tape| {
        return false, i, j, |tape|;
      }
      k := k + 1;
      j := Index(tape[k], |pool|);
      PicksAt(pool, tape, k);
    }
    found, next := true, k + 1;
  }
}
