/**
 signer/gossip/vote.go: how the answers of one poll become tallies.

 Tallies are real numbers here. `Tally` is the closed form the loops compute: each
 checkpoint scores its number of answers, scaled by where its weight (answers times
 requests carried) lies between the lightest and the heaviest proposal of the poll;
 scores are then divided by their sum.
 */
module VoteModel {
  import opened Wire
  import opened Sums

  /** `None` is ZeroVoteID: an empty answer. */
  type VoteId = Option<Checkpoint>

  datatype Vote = Vote(checkpoint: Option<Checkpoint>, tally: real) {
    function Id(): VoteId {
      checkpoint
    }

    function Length(): nat {
      LengthOf(checkpoint)
    }
  }

  function LengthOf(id: VoteId): nat {
    if id.None? then 0 else |id.value.abrs|
  }

  function Quotient(a: real, b: real): real
    requires b != 0.0
  {
    a / b
  }

  // ---------------------------------------------------------------- closed form

  ghost function Count(poll: seq<Vote>, id: VoteId): nat {
    if poll == [] then 0
    else Count(poll[..|poll| - 1], id) + if poll[|poll| - 1].Id() == id then 1 else 0
  }

  ghost function Present(poll: seq<Vote>): set<VoteId> {
    set i | 0 <= i < |poll| :: poll[i].Id()
  }

  ghost function Named(poll: seq<Vote>): set<VoteId> {
    Present(poll) - {None}
  }

  ghost function Weight(poll: seq<Vote>, id: VoteId): nat {
    Count(poll, id) * LengthOf(id)
  }

  ghost function Weights(poll: seq<Vote>): set<nat> {
    set id | id in Named(poll) :: Weight(poll, id)
  }

  /** Where a proposal's weight lies between the lightest (0) and the heaviest (1). */
  ghost function Profit(poll: seq<Vote>, id: VoteId): real
    requires id in Named(poll)
  {
    assert Weight(poll, id) in Weights(poll);
    var low, high := Least(Weights(poll)), Greatest(Weights(poll));
    if low == high then 1.0
    else Quotient((Weight(poll, id) - low) as real, (high - low) as real)
  }

  ghost function Score(poll: seq<Vote>, id: VoteId): real {
    if id in Named(poll) then Times(Count(poll, id) as real, Profit(poll, id))
    else Count(poll, id) as real
  }

  ghost function Scores(poll: seq<Vote>): VoteId -> real {
    id => Score(poll, id)
  }

  ghost function TotalScore(poll: seq<Vote>): real {
    Sum(Present(poll), Scores(poll))
  }

  ghost function Tally(poll: seq<Vote>, id: VoteId): real {
    if TotalScore(poll) == 0.0 then 0.0 else Quotient(Score(poll, id), TotalScore(poll))
  }

  ghost function Tallies(poll: seq<Vote>): VoteId -> real {
    id => Tally(poll, id)
  }

  // ---------------------------------------------------------------- polls

  /** The votes of one poll: no tally yet, and no checkpoint without requests. */
  ghost predicate Fresh(poll: seq<Vote>) {
    forall i :: 0 <= i < |poll| ==> poll[i].tally == 0.0 && (poll[i].checkpoint.Some? ==> poll[i].Length() > 0)
  }

  lemma {:induction false} CountPositive(poll: seq<Vote>, id: VoteId)
    ensures Count(poll, id) > 0 <==> id in Present(poll)
    ensures Count(poll, id) <= |poll|
  {
    if poll != [] {
      var init := poll[..|poll| - 1];
      CountPositive(init, id);
      if id in Present(init) {
        var i :| 0 <= i < |init| && init[i].Id() == id;
        assert poll[i].Id() == id;
      }
      if id in Present(poll) && id !in Present(init) {
        var i :| 0 <= i < |poll| && poll[i].Id() == id;
        assert i < |init| ==> init[i].Id() == id;
      }
    }
  }

  lemma PresentLength(poll: seq<Vote>, id: VoteId)
    requires Fresh(poll) && id in Named(poll)
    ensures LengthOf(id) > 0 && Count(poll, id) > 0 && Weight(poll, id) > 0
  {
    CountPositive(poll, id);
    var i :| 0 <= i < |poll| && poll[i].Id() == id;
  }

  lemma ProfitRange(poll: seq<Vote>, id: VoteId)
    requires id in Named(poll)
    ensures 0.0 <= Profit(poll, id) <= 1.0
    ensures Weight(poll, id) == Greatest(Weights(poll)) ==> Profit(poll, id) == 1.0
  {
    hide Quotient, Weight, Count, Least, Greatest, Present;
    assert Weight(poll, id) in Weights(poll);
    var low, high := Least(Weights(poll)), Greatest(Weights(poll));
    if low != high {
      QuotientRange((Weight(poll, id) - low) as real, (high - low) as real);
    }
  }

  lemma QuotientRange(a: real, b: real)
    requires 0.0 <= a <= b && b > 0.0
    ensures 0.0 <= Quotient(a, b) <= 1.0
    ensures a == b ==> Quotient(a, b) == 1.0
  {
  }

  lemma QuotientMonotone(a: real, a': real, b: real)
    requires a <= a' && b > 0.0
    ensures Quotient(a, b) <= Quotient(a', b)
  {
  }

  lemma TimesMonotone(k: real, k': real, x: real, x': real)
    requires 0.0 <= k <= k' && 0.0 <= x <= x'
    ensures 0.0 <= Times(k, x) <= Times(k', x')
  {
    assert k * x <= k * x' <= k' * x';
  }

  lemma ScoreRange(poll: seq<Vote>, id: VoteId)
    ensures Score(poll, id) >= 0.0
  {
    if id in Named(poll) {
      ProfitRange(poll, id);
      TimesMonotone(0.0, Count(poll, id) as real, 0.0, Profit(poll, id));
    }
  }

  lemma ScoresRange(poll: seq<Vote>)
    ensures forall id :: id in Present(poll) ==> 0.0 <= Scores(poll)(id) <= TotalScore(poll)
  {
    forall id | id in Present(poll)
      ensures Scores(poll)(id) >= 0.0
    {
      ScoreRange(poll, id);
    }
    SumNonnegative(Present(poll), Scores(poll));
  }

  /** Some answer always scores: the heaviest proposal, or the empty one when alone. */
  lemma TotalPositive(poll: seq<Vote>)
    requires poll != []
    ensures TotalScore(poll) >= 1.0
  {
    ScoresRange(poll);
    var best: VoteId := None;
    if Named(poll) != {} {
      var some :| some in Named(poll);
      assert Weight(poll, some) in Weights(poll);
      var top :| top in Named(poll) && Weight(poll, top) == Greatest(Weights(poll));
      best := top;
      ProfitRange(poll, best);
      assert Times(Count(poll, best) as real, 1.0) == Count(poll, best) as real;
    } else {
      assert poll[0].Id() in Present(poll);
    }
    CountPositive(poll, best);
    assert Scores(poll)(best) >= 1.0;
  }

  // ---------------------------------------------------------------- what a poll promises

  /** Tallies are shares: each in [0, 1], together exactly 1. */
  lemma TalliesAreShares(poll: seq<Vote>)
    requires poll != []
    ensures forall id :: id in Present(poll) ==> 0.0 <= Tally(poll, id) <= 1.0
    ensures Sum(Present(poll), Tallies(poll)) == 1.0
  {
    hide Times, Quotient, Score;
    TotalPositive(poll);
    ScoresRange(poll);
    var total, scores, tallies := TotalScore(poll), Scores(poll), Tallies(poll);
    forall id | id in Present(poll)
      ensures 0.0 <= Tally(poll, id) <= 1.0
      ensures scores(id) == Times(total, tallies(id))
    {
      assert 0.0 <= scores(id) <= total;
      QuotientRange(scores(id), total);
      QuotientTimes(scores(id), total);
    }
    SumScaled(Present(poll), tallies, scores, total);
    CancelTimes(total, Sum(Present(poll), tallies));
  }

  lemma QuotientTimes(a: real, b: real)
    requires b != 0.0
    ensures Times(b, Quotient(a, b)) == a
  {
  }

  lemma CancelTimes(k: real, x: real)
    requires k > 0.0 && k == Times(k, x)
    ensures x == 1.0
  {
    assert x == (k * x) / k == k / k == 1.0;
  }

  // ---------------------------------------------------------------- in terms of answers and requests

  /** The answers that name `cp`. */
  ghost function Naming(poll: seq<Vote>, cp: Option<Checkpoint>): set<int> {
    set i | 0 <= i < |poll| && poll[i].checkpoint == cp
  }

  ghost function Answers(poll: seq<Vote>, cp: Option<Checkpoint>): nat {
    |Naming(poll, cp)|
  }

  lemma NamingNext(poll: seq<Vote>, cp: Option<Checkpoint>)
    requires poll != []
    ensures var n := |poll| - 1;
            && n !in Naming(poll[..n], cp)
            && Naming(poll, cp) == Naming(poll[..n], cp) + if poll[n].checkpoint == cp then {n} else {}
  {
  }

  lemma {:induction false} CountIsAnswers(poll: seq<Vote>, cp: Option<Checkpoint>)
    ensures Count(poll, cp) == Answers(poll, cp)
  {
    if poll != [] {
      CountIsAnswers(poll[..|poll| - 1], cp);
      NamingNext(poll, cp);
    }
  }

  /** Answers naming a checkpoint, times the requests it carries. */
  ghost function Pull(poll: seq<Vote>, cp: Checkpoint): nat {
    Answers(poll, Some(cp)) * |cp.abrs|
  }

  ghost predicate IsNamed(poll: seq<Vote>, cp: Checkpoint) {
    exists i :: 0 <= i < |poll| && poll[i].checkpoint == Some(cp)
  }

  lemma WeightIsPull(poll: seq<Vote>, cp: Checkpoint)
    ensures Weight(poll, Some(cp)) == Pull(poll, cp)
    ensures Some(cp) in Named(poll) <==> IsNamed(poll, cp)
  {
    CountIsAnswers(poll, Some(cp));
    if IsNamed(poll, cp) {
      var i :| 0 <= i < |poll| && poll[i].checkpoint == Some(cp);
      assert poll[i].Id() == Some(cp);
    }
  }

  /** At least as many answers and at least as many requests never mean a smaller tally. */
  lemma TallyMonotone(poll: seq<Vote>, a: Checkpoint, b: Checkpoint)
    requires IsNamed(poll, a) && IsNamed(poll, b)
    requires Answers(poll, Some(a)) <= Answers(poll, Some(b)) && |a.abrs| <= |b.abrs|
    ensures Tally(poll, Some(a)) <= Tally(poll, Some(b))
  {
    hide Tally, Count, Named, Answers;
    WeightIsPull(poll, a);
    WeightIsPull(poll, b);
    CountIsAnswers(poll, Some(a));
    CountIsAnswers(poll, Some(b));
    TallyMonotoneById(poll, Some(a), Some(b));
  }

  /** Of two checkpoints named equally often the one with fewer requests has the smaller tally, strictly. */
  lemma FewerRequestsSmallerTally(poll: seq<Vote>, a: Checkpoint, b: Checkpoint)
    requires Fresh(poll) && IsNamed(poll, a) && IsNamed(poll, b)
    requires Answers(poll, Some(a)) == Answers(poll, Some(b)) && |a.abrs| < |b.abrs|
    ensures Tally(poll, Some(a)) < Tally(poll, Some(b))
  {
    hide Count, Answers, Times, Quotient, Least, Greatest, Weight, TotalScore, Profit, Present;
    var x, y := Some(a), Some(b);
    WeightIsPull(poll, a);
    WeightIsPull(poll, b);
    CountIsAnswers(poll, x);
    CountIsAnswers(poll, y);
    PresentLength(poll, x);
    PresentLength(poll, y);
    assert poll != [];
    TotalPositive(poll);
    LessPull(Answers(poll, x), |a.abrs|, |b.abrs|);
    ProfitStrict(poll, x, y);
    StrictTimes(Count(poll, x) as real, Profit(poll, x), Profit(poll, y));
    StrictQuotient(Score(poll, x), Score(poll, y), TotalScore(poll));
  }

  lemma LessPull(n: nat, a: nat, b: nat)
    requires n > 0 && a < b
    ensures n * a < n * b
  {
  }

  lemma StrictTimes(k: real, x: real, y: real)
    requires k > 0.0
    ensures x < y ==> Times(k, x) < Times(k, y)
    ensures Times(k, x) == 0.0 <==> x == 0.0
  {
  }

  lemma StrictQuotient(x: real, y: real, k: real)
    requires k > 0.0
    ensures x < y ==> Quotient(x, k) < Quotient(y, k)
    ensures Quotient(x, k) == 0.0 <==> x == 0.0
  {
    assert Quotient(x, k) * k == x;
  }

  lemma ProfitStrict(poll: seq<Vote>, a: VoteId, b: VoteId)
    requires a in Named(poll) && b in Named(poll) && Weight(poll, a) < Weight(poll, b)
    ensures Profit(poll, a) < Profit(poll, b)
  {
    hide Quotient, Weight, Count, Least, Greatest, Present;
    assert Weight(poll, a) in Weights(poll) && Weight(poll, b) in Weights(poll);
    var low, high := Least(Weights(poll)), Greatest(Weights(poll));
    StrictQuotient((Weight(poll, a) - low) as real, (Weight(poll, b) - low) as real, (high - low) as real);
  }

  /**
   A named checkpoint has tally 0 exactly if no named one has less pull and some has more:
   the least proposal of a poll that is not balanced counts for nothing.
   */
  lemma LeastCountsForNothing(poll: seq<Vote>, a: Checkpoint)
    requires Fresh(poll) && IsNamed(poll, a)
    ensures Tally(poll, Some(a)) == 0.0 <==>
            && (forall b :: IsNamed(poll, b) ==> Pull(poll, a) <= Pull(poll, b))
            && (exists b :: IsNamed(poll, b) && Pull(poll, a) < Pull(poll, b))
  {
    hide Count, Answers, Times, Quotient, Least, Greatest, Weight, TotalScore, Profit, Present, Pull, IsNamed;
    var x := Some(a);
    WeightIsPull(poll, a);
    PresentLength(poll, x);
    assert poll != [] by { IsNamedNonempty(poll, a); }
    TotalPositive(poll);
    StrictTimes(Count(poll, x) as real, Profit(poll, x), 0.0);
    StrictQuotient(Score(poll, x), 0.0, TotalScore(poll));
    ProfitZero(poll, x);
    LeastPull(poll, a);
  }

  lemma IsNamedNonempty(poll: seq<Vote>, a: Checkpoint)
    requires IsNamed(poll, a)
    ensures poll != []
  {
  }

  lemma ProfitZero(poll: seq<Vote>, a: VoteId)
    requires a in Named(poll)
    ensures Weights(poll) != {}
    ensures Profit(poll, a) == 0.0 <==>
            Weight(poll, a) == Least(Weights(poll)) && Least(Weights(poll)) != Greatest(Weights(poll))
  {
    hide Quotient, Weight, Count, Least, Greatest, Present;
    assert Weight(poll, a) in Weights(poll);
    var low, high := Least(Weights(poll)), Greatest(Weights(poll));
    if low != high {
      StrictQuotient((Weight(poll, a) - low) as real, 0.0, (high - low) as real);
    }
  }

  lemma LeastPull(poll: seq<Vote>, a: Checkpoint)
    requires Weights(poll) != {} && IsNamed(poll, a)
    ensures Weight(poll, Some(a)) == Least(Weights(poll)) && Least(Weights(poll)) != Greatest(Weights(poll)) <==>
            && (forall b :: IsNamed(poll, b) ==> Pull(poll, a) <= Pull(poll, b))
            && (exists b :: IsNamed(poll, b) && Pull(poll, a) < Pull(poll, b))
  {
    hide Weight, Least, Greatest, Pull, IsNamed, Present;
    forall b
      ensures Weight(poll, Some(b)) == Pull(poll, b) && (Some(b) in Named(poll) <==> IsNamed(poll, b))
    {
      WeightIsPull(poll, b);
    }
    var low, high := Least(Weights(poll)), Greatest(Weights(poll));
    var atLow :| atLow in Named(poll) && Weight(poll, atLow) == low;
    var atHigh :| atHigh in Named(poll) && Weight(poll, atHigh) == high;
    assert IsNamed(poll, atLow.value) && IsNamed(poll, atHigh.value);
    forall b | IsNamed(poll, b)
      ensures low <= Pull(poll, b) <= high
    {
      assert Weight(poll, Some(b)) in Weights(poll);
    }
  }

  /** What an answer is worth: its votes, times the pull it has over the least one. */
  ghost function Worth(poll: seq<Vote>, id: VoteId): real {
    var votes := Answers(poll, id) as real;
    if Weights(poll) == {} || Least(Weights(poll)) == Greatest(Weights(poll)) then votes
    else if id.None? then Times(votes, (Greatest(Weights(poll)) - Least(Weights(poll))) as real)
    else Times(votes, (Pull(poll, id.value) - Least(Weights(poll))) as real)
  }

  /** Tallies are in proportion to worth; together with their sum of 1 this fixes them all. */
  lemma TalliesInProportion(poll: seq<Vote>, a: VoteId, b: VoteId)
    requires a in Present(poll) && b in Present(poll)
    ensures Tally(poll, a) * Worth(poll, b) == Tally(poll, b) * Worth(poll, a)
  {
    hide Worth, TotalScore, Score, Present, Quotient;
    assert poll != [] by { PresentNonempty(poll, a); }
    TotalPositive(poll);
    var k := Unit(poll);
    ScoreIsWorth(poll, a);
    ScoreIsWorth(poll, b);
    Proportion(Worth(poll, a), Worth(poll, b), k, TotalScore(poll));
  }

  lemma PresentNonempty(poll: seq<Vote>, a: VoteId)
    requires a in Present(poll)
    ensures poll != []
  {
  }

  /** What worth is measured in. */
  ghost function Unit(poll: seq<Vote>): real {
    if Weights(poll) == {} || Least(Weights(poll)) == Greatest(Weights(poll)) then 1.0
    else (Greatest(Weights(poll)) - Least(Weights(poll))) as real
  }

  lemma ScoreIsWorth(poll: seq<Vote>, a: VoteId)
    requires a in Present(poll)
    ensures Unit(poll) != 0.0 && Score(poll, a) == Quotient(Worth(poll, a), Unit(poll))
  {
    hide Count, Answers, Least, Greatest, Pull, Present, Weight, Times, Quotient;
    CountIsAnswers(poll, a);
    var votes := Answers(poll, a) as real;
    InUnits(votes, 1.0);
    if a.Some? {
      WeightIsPull(poll, a.value);
      assert a in Named(poll) && Weight(poll, a) in Weights(poll);
      Scaled(votes, (Pull(poll, a.value) - Least(Weights(poll))) as real, Unit(poll));
    } else {
      assert a !in Named(poll);
      InUnits(votes, Unit(poll));
    }
  }

  lemma Scaled(n: real, p: real, k: real)
    requires k != 0.0
    ensures Times(n, Quotient(p, k)) == Quotient(Times(n, p), k)
  {
  }

  lemma InUnits(n: real, k: real)
    requires k != 0.0
    ensures n == Quotient(Times(n, k), k) && n == Quotient(n, 1.0) && Times(n, 1.0) == n
  {
  }

  lemma Proportion(x: real, y: real, k: real, t: real)
    requires k != 0.0 && t != 0.0
    ensures Quotient(Quotient(x, k), t) * y == Quotient(Quotient(y, k), t) * x
  {
    assert x / k / t == x * (1.0 / k / t);
    assert y / k / t == y * (1.0 / k / t);
  }

  lemma TallyMonotoneById(poll: seq<Vote>, a: VoteId, b: VoteId)
    requires a in Named(poll) && b in Named(poll)
    requires Count(poll, a) <= Count(poll, b)
    requires LengthOf(a) <= LengthOf(b)
    ensures Tally(poll, a) <= Tally(poll, b)
  {
    hide Times, Quotient;
    assert poll != [];
    TotalPositive(poll);
    ProfitMonotone(poll, a, b);
    ProfitRange(poll, a);
    TimesMonotone(Count(poll, a) as real, Count(poll, b) as real, Profit(poll, a), Profit(poll, b));
    QuotientMonotone(Score(poll, a), Score(poll, b), TotalScore(poll));
  }

  lemma ProfitMonotone(poll: seq<Vote>, a: VoteId, b: VoteId)
    requires a in Named(poll) && b in Named(poll)
    requires Count(poll, a) <= Count(poll, b)
    requires LengthOf(a) <= LengthOf(b)
    ensures Profit(poll, a) <= Profit(poll, b)
  {
    hide Quotient, Weight, Count, Least, Greatest, Present;
    WeightMonotone(poll, a, b);
    assert Weight(poll, a) in Weights(poll) && Weight(poll, b) in Weights(poll);
    var low, high := Least(Weights(poll)), Greatest(Weights(poll));
    if low != high {
      QuotientMonotone((Weight(poll, a) - low) as real, (Weight(poll, b) - low) as real, (high - low) as real);
    }
  }

  lemma WeightMonotone(poll: seq<Vote>, a: VoteId, b: VoteId)
    requires Count(poll, a) <= Count(poll, b)
    requires LengthOf(a) <= LengthOf(b)
    ensures Weight(poll, a) <= Weight(poll, b)
  {
    MulMonotone(Count(poll, a), Count(poll, b), LengthOf(a), LengthOf(b));
  }

  lemma MulMonotone(a: nat, b: nat, c: nat, d: nat)
    requires a <= b && c <= d
    ensures a * c <= b * d
  {
    assert a * c <= a * d;
    assert (b - a) * d >= 0;
  }

  lemma {:induction false} CountAsMultiset(poll: seq<Vote>, id: VoteId)
    requires Fresh(poll)
    ensures Count(poll, id) == multiset(poll)[Vote(id, 0.0)]
  {
    if poll != [] {
      var init, last := poll[..|poll| - 1], poll[|poll| - 1];
      CountAsMultiset(init, id);
      assert poll == init + [last];
    }
  }

  lemma SameAnswers(poll: seq<Vote>, other: seq<Vote>)
    requires Fresh(poll) && Fresh(other)
    requires multiset(poll) == multiset(other)
    ensures forall id :: Count(poll, id) == Count(other, id)
    ensures Present(poll) == Present(other)
  {
    forall id
      ensures Count(poll, id) == Count(other, id)
      ensures id in Present(poll) <==> id in Present(other)
    {
      CountAsMultiset(poll, id);
      CountAsMultiset(other, id);
      CountPositive(poll, id);
      CountPositive(other, id);
    }
  }

  /** The order in which answers arrive does not matter. */
  lemma TallyOrderIrrelevant(poll: seq<Vote>, other: seq<Vote>)
    requires Fresh(poll) && Fresh(other)
    requires multiset(poll) == multiset(other)
    ensures Present(poll) == Present(other)
    ensures forall id :: Tally(poll, id) == Tally(other, id)
  {
    hide Times, Quotient, Count;
    SameAnswers(poll, other);
    assert Weights(poll) == Weights(other) by {
      forall id | id in Named(poll)
        ensures Weight(poll, id) == Weight(other, id)
      {
      }
      forall w
        ensures w in Weights(poll) <==> w in Weights(other)
      {
      }
    }
    forall id
      ensures Scores(poll)(id) == Scores(other)(id)
    {
    }
    SumCongruent(Present(poll), Scores(poll), Scores(other));
  }

  lemma {:induction false} CountsCover(poll: seq<Vote>, a: VoteId, b: VoteId)
    requires a != b && forall i :: 0 <= i < |poll| ==> poll[i].Id() == a || poll[i].Id() == b
    ensures Count(poll, a) + Count(poll, b) == |poll|
  {
    if poll != [] {
      CountsCover(poll[..|poll| - 1], a, b);
    }
  }

  /** When every non-empty answer names one checkpoint, its tally is the fraction naming it. */
  lemma UnanimousTally(poll: seq<Vote>, cp: Checkpoint)
    requires Named(poll) == {Some(cp)}
    ensures TotalScore(poll) == |poll| as real
    ensures |poll| > 0
    ensures Tally(poll, Some(cp)) == Quotient(Count(poll, Some(cp)) as real, |poll| as real)
  {
    var id := Some(cp);
    assert id in Named(poll);
    assert |poll| > 0;
    TotalPositive(poll);
    forall i | 0 <= i < |poll|
      ensures poll[i].Id() == id || poll[i].Id() == None
    {
      assert poll[i].Id() in Present(poll);
      assert poll[i].Id() in Named(poll) || poll[i].Id() == None;
    }
    CountsCover(poll, id, None);
    CountPositive(poll, None);
    assert Weights(poll) == {Weight(poll, id)};
    assert Score(poll, id) == Count(poll, id) as real;
    var f := Scores(poll);
    SumPick(Present(poll), f, id);
    var rest := Present(poll) - {id};
    if None in Present(poll) {
      assert rest == {None};
      SumPick(rest, f, None);
      assert rest - {None} == {};
    } else {
      assert rest == {};
    }
  }

  // ---------------------------------------------------------------- the loops

  /** The votes of some ids, each once and with its tally, in any order. */
  ghost predicate TalliedFor(poll: seq<Vote>, ids: set<VoteId>, votes: seq<Vote>) {
    && |votes| == |ids|
    && (forall i, j :: 0 <= i < j < |votes| ==> votes[i].Id() != votes[j].Id())
    && (forall i :: 0 <= i < |votes| ==> votes[i].Id() in ids && votes[i].tally == Tally(poll, votes[i].Id()))
    && forall id :: id in ids ==> exists i :: 0 <= i < |votes| && votes[i].Id() == id
  }

  ghost predicate Tallied(poll: seq<Vote>, votes: seq<Vote>) {
    TalliedFor(poll, Present(poll), votes)
  }

  ghost function Shares(poll: seq<Vote>, n: nat, id: VoteId): real
    requires n > 0
  {
    Quotient(Count(poll, id) as real, n as real)
  }

  method ComputeProfitWeights(responses: seq<Vote>) returns (weights: map<VoteId, real>)
    requires Fresh(responses)
    ensures weights.Keys == Named(responses)
    ensures Named(responses) != {} ==> Weights(responses) != {} && Greatest(Weights(responses)) > 0
    ensures forall id :: id in weights ==>
              weights[id] == Quotient(Weight(responses, id) as real, Greatest(Weights(responses)) as real)
  {
    hide Quotient, Weight, Count;
    weights := map[];
    var max: real := 0.0;
    for i := 0 to |responses|
      invariant weights.Keys == Named(responses[..i])
      invariant forall id :: id in weights ==> weights[id] == Weight(responses[..i], id) as real <= max
      invariant if weights == map[] then max == 0.0 else exists id :: id in weights && weights[id] == max
    {
      var id := responses[i].Id();
      WeightStep(responses, i);
      if id.Some? {
        var before := if id in weights then weights[id] else 0.0;
        weights := weights[id := before + responses[i].Length() as real];
        if weights[id] > max {
          max := weights[id];
        }
        assert id in weights;
      }
    }
    assert responses[..|responses|] == responses;
    if weights != map[] {
      HeaviestPositive(responses, weights, max);
      weights := DivideBy(weights, max);
    }
  }

  /** The second loop: every weight relative to the greatest. */
  method DivideBy(weights: map<VoteId, real>, max: real) returns (shares: map<VoteId, real>)
    requires max > 0.0
    ensures shares.Keys == weights.Keys
    ensures forall id :: id in weights ==> shares[id] == Quotient(weights[id], max)
  {
    hide Quotient;
    shares := weights;
    var todo := weights.Keys;
    while todo != {}
      invariant todo <= weights.Keys == shares.Keys
      invariant forall id :: id in weights ==>
                  shares[id] == if id in todo then weights[id] else Quotient(weights[id], max)
      decreases todo
    {
      var id :| id in todo;
      shares := shares[id := Quotient(shares[id], max)];
      todo := todo - {id};
    }
  }

  lemma WeightStep(poll: seq<Vote>, i: nat)
    requires i < |poll|
    ensures var id := poll[i].Id();
            && Named(poll[..i + 1]) == Named(poll[..i]) + (if id.Some? then {id} else {})
            && Present(poll[..i + 1]) == Present(poll[..i]) + {id}
            && Count(poll[..i + 1], id) == Count(poll[..i], id) + 1
            && Weight(poll[..i + 1], id) == Weight(poll[..i], id) + LengthOf(id)
            && (forall x :: x != id ==> Count(poll[..i + 1], x) == Count(poll[..i], x))
            && (forall x :: x != id ==> Weight(poll[..i + 1], x) == Weight(poll[..i], x))
            && (id !in Present(poll[..i]) ==> Count(poll[..i], id) == 0 && Weight(poll[..i], id) == 0)
  {
    var now, next := poll[..i], poll[..i + 1];
    var id := poll[i].Id();
    assert next[..|next| - 1] == now;
    CountPositive(now, id);
    assert Present(next) == Present(now) + {id} by {
      forall x | x in Present(now)
        ensures x in Present(next)
      {
        var j :| 0 <= j < |now| && now[j].Id() == x;
        assert next[j].Id() == x;
      }
      assert next[i].Id() == id;
    }
    assert Weight(next, id) == (Count(now, id) + 1) * LengthOf(id);
  }

  lemma HeaviestPositive(poll: seq<Vote>, sums: map<VoteId, real>, max: real)
    requires Fresh(poll) && sums.Keys == Named(poll) && sums != map[]
    requires forall id :: id in sums ==> sums[id] == Weight(poll, id) as real <= max
    requires exists id :: id in sums && sums[id] == max
    ensures Weights(poll) != {} && max == Greatest(Weights(poll)) as real > 0.0
  {
    var top :| top in sums && sums[top] == max;
    assert Weight(poll, top) in Weights(poll);
    PresentLength(poll, top);
  }

  ghost predicate IsLow(weights: map<VoteId, real>, low: real) {
    (exists id :: id in weights && weights[id] == low) && forall id :: id in weights ==> low <= weights[id]
  }

  ghost predicate IsHigh(weights: map<VoteId, real>, high: real) {
    (exists id :: id in weights && weights[id] == high) && forall id :: id in weights ==> weights[id] <= high
  }

  /** What the weights are measured from: the least of them, but no more than 1. */
  function Base(low: real): real {
    if low < 1.0 then low else 1.0
  }

  /** Stretches the weights so that the base becomes 0 and the greatest 1; at the base all become 1. */
  method Normalize(weights: map<VoteId, real>) returns (normalized: map<VoteId, real>)
    ensures normalized.Keys == weights.Keys
    ensures forall low, high, id :: IsLow(weights, low) && IsHigh(weights, high) && id in weights ==>
              normalized[id] == if Base(low) == high then 1.0 else Quotient(weights[id] - Base(low), high - Base(low))
  {
    hide Quotient;
    var min, max := 1.0, 0.0;
    var todo := weights.Keys;
    while todo != {}
      invariant todo <= weights.Keys
      invariant min <= 1.0 && (min == 1.0 || exists id :: id in weights && weights[id] == min)
      invariant forall id :: id in weights && id !in todo ==> min <= weights[id]
      decreases todo
    {
      var id :| id in todo;
      if min > weights[id] {
        min := weights[id];
      }
      todo := todo - {id};
    }
    normalized := map[];
    todo := weights.Keys;
    while todo != {}
      invariant todo <= weights.Keys && normalized.Keys == weights.Keys - todo
      invariant forall id :: id in normalized ==> normalized[id] == weights[id] - min <= max
      invariant max == 0.0 || exists id :: id in normalized && normalized[id] == max
      decreases todo
    {
      var id :| id in todo;
      normalized := normalized[id := weights[id] - min];
      if normalized[id] > max {
        max := normalized[id];
      }
      todo := todo - {id};
    }
    ghost var shifted := normalized;
    forall low, high | IsLow(weights, low) && IsHigh(weights, high)
      ensures Base(low) == min && high - Base(low) == max
    {
      var atLow, atHigh :| atLow in weights && weights[atLow] == low && atHigh in weights && weights[atHigh] == high;
      assert shifted[atLow] == low - min && shifted[atHigh] == high - min;
    }
    todo := weights.Keys;
    while todo != {}
      invariant todo <= weights.Keys == normalized.Keys
      invariant forall id :: id in todo ==> normalized[id] == weights[id] - min
      invariant forall id :: id in weights && id !in todo ==>
                  normalized[id] == if max == 0.0 then 1.0 else Quotient(weights[id] - min, max)
      decreases todo
    {
      var id :| id in todo;
      normalized := normalized[id := if max == 0.0 then 1.0 else Quotient(normalized[id], max)];
      todo := todo - {id};
    }
  }

  /** The profit weights of a poll, stretched: exactly `Profit`. */
  method ProfitFactors(responses: seq<Vote>) returns (factors: map<VoteId, real>)
    requires Fresh(responses)
    ensures factors.Keys == Named(responses)
    ensures forall id :: id in factors ==> factors[id] == Profit(responses, id)
  {
    var weights := ComputeProfitWeights(responses);
    forall id | id in weights
      ensures weights[id] <= 1.0
    {
      assert Weight(responses, id) in Weights(responses);
      QuotientRange(Weight(responses, id) as real, Greatest(Weights(responses)) as real);
    }
    factors := Normalize(weights);
    forall low | IsLow(weights, low)
      ensures Base(low) == low
    {
    }
    forall id | id in factors
      ensures factors[id] == Profit(responses, id)
    {
      FactorIsProfit(responses, weights, factors, id);
    }
  }

  lemma FactorIsProfit(poll: seq<Vote>, weights: map<VoteId, real>, factors: map<VoteId, real>, id: VoteId)
    requires weights.Keys == factors.Keys == Named(poll) && id in weights
    requires Weights(poll) != {} && Greatest(Weights(poll)) > 0
    requires forall x :: x in weights ==>
               weights[x] == Quotient(Weight(poll, x) as real, Greatest(Weights(poll)) as real)
    requires forall low, high, x :: IsLow(weights, low) && IsHigh(weights, high) && x in weights ==>
               factors[x] == if low == high then 1.0 else Quotient(weights[x] - low, high - low)
    ensures factors[id] == Profit(poll, id)
  {
    hide Quotient, Weight;
    var low, high := Least(Weights(poll)), Greatest(Weights(poll));
    var l, h := low as real, high as real;
    var atLow :| atLow in Named(poll) && Weight(poll, atLow) == low;
    var atHigh :| atHigh in Named(poll) && Weight(poll, atHigh) == high;
    forall x | x in weights
      ensures weights[atLow] <= weights[x] <= weights[atHigh]
    {
      assert Weight(poll, x) in Weights(poll);
      QuotientMonotone(l, Weight(poll, x) as real, h);
      QuotientMonotone(Weight(poll, x) as real, h, h);
    }
    assert IsLow(weights, weights[atLow]) && IsHigh(weights, weights[atHigh]);
    assert Weight(poll, id) in Weights(poll);
    Stretch(Weight(poll, id) as real, l, h);
  }

  /** Dividing everything by the greatest weight first does not change the stretch. */
  lemma Stretch(w: real, low: real, high: real)
    requires 0.0 <= low <= w <= high && high > 0.0
    ensures low == high <==> Quotient(low, high) == Quotient(high, high)
    ensures low != high ==>
              Quotient(Quotient(w, high) - Quotient(low, high), Quotient(high, high) - Quotient(low, high))
                            == Quotient(w - low, high - low)
  {
    if low != high {
      var k := Quotient(1.0, high);
      SubtractQuotients(w, low, high);
      SubtractQuotients(high, low, high);
      CancelFactor(k, w - low, high - low);
    }
  }

  lemma SubtractQuotients(a: real, b: real, c: real)
    requires c > 0.0
    ensures Quotient(a, c) - Quotient(b, c) == Times(Quotient(1.0, c), a - b)
  {
    assert a / c == (1.0 / c) * a && b / c == (1.0 / c) * b;
  }

  /** First pass: one vote per id, holding the fraction of the answers that name it. */
  method CountAnswers(responses: seq<Vote>) returns (votes: map<VoteId, Vote>)
    requires Fresh(responses)
    ensures votes.Keys == Present(responses)
    ensures forall id :: id in votes ==> responses != [] && votes[id] == Vote(id, Shares(responses, |responses|, id))
  {
    hide Quotient, Count, LengthOf;
    votes := map[];
    var n := |responses|;
    for i := 0 to n
      invariant votes.Keys == Present(responses[..i])
      invariant forall id :: id in votes ==> votes[id] == Vote(id, Shares(responses[..i], n, id))
    {
      var id := responses[i].Id();
      WeightStep(responses, i);
      CountPositive(responses[..i], id);
      if id !in votes {
        votes := votes[id := responses[i]];
        ShareZero(n);
      }
      ShareStep(Count(responses[..i], id), n);
      votes := votes[id := votes[id].(tally := votes[id].tally + Quotient(1.0, n as real))];
    }
    assert responses[..n] == responses;
  }

  lemma ShareZero(n: nat)
    requires n > 0
    ensures Quotient(0.0, n as real) == 0.0
  {
  }

  lemma ShareStep(c: nat, n: nat)
    requires n > 0
    ensures Quotient((c + 1) as real, n as real) == Quotient(c as real, n as real) + Quotient(1.0, n as real)
  {
  }

  /** After the second pass every tally is the closed-form score over the number of answers. */
  lemma ScaledScore(poll: seq<Vote>, id: VoteId)
    requires poll != []
    ensures var share := Shares(poll, |poll|, id);
            (if id in Named(poll) then Times(share, Profit(poll, id)) else share)
            == Times(Quotient(1.0, |poll| as real), Score(poll, id))
  {
    hide Profit, Count;
    var c, n := Count(poll, id) as real, |poll| as real;
    if id in Named(poll) {
      var p := Profit(poll, id);
      Regroup(c, n, p);
    } else {
      Regroup(c, n, 1.0);
    }
  }

  lemma Regroup(c: real, n: real, p: real)
    requires n != 0.0
    ensures Times(Quotient(c, n), p) == Times(Quotient(1.0, n), Times(c, p))
    ensures Quotient(c, n) == Times(Quotient(1.0, n), c)
  {
    assert c / n == (1.0 / n) * c;
    assert ((1.0 / n) * c) * p == (1.0 / n) * (c * p);
  }

  lemma CancelFactor(k: real, a: real, b: real)
    requires k != 0.0 && b != 0.0
    ensures Times(k, b) != 0.0 && Quotient(Times(k, a), Times(k, b)) == Quotient(a, b)
  {
    var q := a / b;
    assert q * b == a;
    assert k * a == k * (q * b) == q * (k * b);
  }

  /** Dividing the scaled scores by their own sum gives the tallies. */
  lemma ShareOfTotal(poll: seq<Vote>, tally: VoteId -> real, id: VoteId)
    requires poll != []
    requires forall x :: x in Present(poll) ==> tally(x) == Times(Quotient(1.0, |poll| as real), Score(poll, x))
    requires id in Present(poll)
    ensures Sum(Present(poll), tally) != 0.0
    ensures Quotient(tally(id), Sum(Present(poll), tally)) == Tally(poll, id)
  {
    hide Quotient, Times, Score;
    var k := Quotient(1.0, |poll| as real);
    TotalPositive(poll);
    SumScaled(Present(poll), Scores(poll), tally, k);
    InverseNonzero(|poll|);
    CancelFactor(k, Score(poll, id), TotalScore(poll));
  }

  lemma InverseNonzero(n: nat)
    requires n > 0
    ensures Quotient(1.0, n as real) != 0.0
  {
  }

  /** Third pass: the sum of all tallies, in whatever order the map is visited. */
  method SumTallies(votes: map<VoteId, Vote>, ghost tally: VoteId -> real) returns (total: real)
    requires forall id :: id in votes ==> tally(id) == votes[id].tally
    ensures total == Sum(votes.Keys, tally)
  {
    total := 0.0;
    var todo := votes.Keys;
    ghost var seen: set<VoteId> := {};
    while todo != {}
      invariant todo !! seen && todo + seen == votes.Keys
      invariant total == Sum(seen, tally)
      decreases todo
    {
      var id :| id in todo;
      total := total + votes[id].tally;
      assert seen + {id} - {id} == seen;
      SumPick(seen + {id}, tally, id);
      seen, todo := seen + {id}, todo - {id};
    }
    assert seen == votes.Keys;
  }

  /** Second pass: multiply in the profit factors. */
  method ApplyFactors(shares: map<VoteId, Vote>, factors: map<VoteId, real>) returns (votes: map<VoteId, Vote>)
    requires factors.Keys <= shares.Keys
    ensures votes.Keys == shares.Keys
    ensures forall id :: id in votes ==>
              var tally := shares[id].tally;
              votes[id] == shares[id].(tally := if id in factors then Times(tally, factors[id]) else tally)
  {
    hide Times;
    votes := shares;
    var todo := factors.Keys;
    while todo != {}
      invariant todo <= factors.Keys
      invariant votes.Keys == shares.Keys
      invariant forall id :: id in votes && (id !in factors || id in todo) ==> votes[id] == shares[id]
      invariant forall id :: id in factors && id !in todo ==>
                  votes[id] == shares[id].(tally := Times(shares[id].tally, factors[id]))
      decreases todo
    {
      var id :| id in todo;
      votes := votes[id := votes[id].(tally := Times(votes[id].tally, factors[id]))];
      todo := todo - {id};
    }
  }

  lemma TalliedNext(poll: seq<Vote>, ids: set<VoteId>, votes: seq<Vote>, vote: Vote)
    requires TalliedFor(poll, ids, votes)
    requires vote.Id() !in ids && vote.tally == Tally(poll, vote.Id())
    ensures TalliedFor(poll, ids + {vote.Id()}, votes + [vote])
  {
    hide Tally;
    var more := votes + [vote];
    forall id | id in ids + {vote.Id()}
      ensures exists i :: 0 <= i < |more| && more[i].Id() == id
    {
      if id == vote.Id() {
        assert more[|votes|].Id() == id;
      } else {
        var i :| 0 <= i < |votes| && votes[i].Id() == id;
        assert more[i].Id() == id;
      }
    }
  }

  method CalculateTallies(responses: seq<Vote>) returns (votes: seq<Vote>)
    requires Fresh(responses)
    ensures Tallied(responses, votes)
  {
    hide Quotient, Times, Profit, Score, Present, Tally, TalliedFor, Shares, Count, Fresh;
    var shares := CountAnswers(responses);
    var factors := ProfitFactors(responses);
    var byId := ApplyFactors(shares, factors);
    ghost var tally := (id: VoteId) => if id in byId then byId[id].tally else 0.0;
    forall id | id in byId
      ensures tally(id) == Times(Quotient(1.0, |responses| as real), Score(responses, id))
    {
      ScaledScore(responses, id);
    }
    var total := SumTallies(byId, tally);
    forall id | id in byId
      ensures total != 0.0 && Quotient(byId[id].tally, total) == Tally(responses, id)
    {
      ShareOfTotal(responses, tally, id);
    }
    votes := DivideTallies(responses, byId, total);
  }

  /** Last pass: every tally relative to their sum. */
  method DivideTallies(ghost responses: seq<Vote>, byId: map<VoteId, Vote>, total: real) returns (votes: seq<Vote>)
    requires forall id :: id in byId ==> byId[id].Id() == id
    requires forall id :: id in byId ==> total != 0.0 && Quotient(byId[id].tally, total) == Tally(responses, id)
    ensures TalliedFor(responses, byId.Keys, votes)
  {
    hide Quotient, Tally, TalliedFor;
    votes := [];
    var todo := byId.Keys;
    ghost var done: set<VoteId> := {};
    TalliedNone(responses);
    while todo != {}
      invariant todo !! done && todo + done == byId.Keys
      invariant TalliedFor(responses, done, votes)
      decreases todo
    {
      var id :| id in todo;
      var vote := byId[id].(tally := Quotient(byId[id].tally, total));
      TalliedNext(responses, done, votes, vote);
      votes := votes + [vote];
      done, todo := done + {id}, todo - {id};
    }
    assert done == byId.Keys;
  }

  lemma TalliedNone(poll: seq<Vote>)
    ensures TalliedFor(poll, {}, [])
  {
  }
}
