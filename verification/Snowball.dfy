/**
 signer/gossip/snowball.go: one round's Snowball instance.

 `Step` is one tick on values and `Run` any series of ticks. The class below is the
 object the signer updates in place; its methods are proved to perform exactly these
 steps. The theorems are about `Run`, so they hold for every series of ticks.
 */
module SnowballModel {
  import opened Wire
  import opened VoteModel

  datatype State = State(
    alpha: real,
    beta: int,
    count: int,
    counts: map<VoteId, uint16>,
    totalCount: uint64,
    preferred: Option<Vote>,
    last: Option<Vote>,
    decided: bool)

  function NewSnowball(alpha: real, beta: int): State {
    State(alpha, beta, 0, map[], 0, None, None, false)
  }

  /** Reading a missing key of a Go map gives zero. */
  function CountOf(counts: map<VoteId, uint16>, id: VoteId): uint16 {
    if id in counts then counts[id] else 0
  }

  /** `counts[id]++` on uint16. */
  function Increment(counts: map<VoteId, uint16>, id: VoteId): map<VoteId, uint16> {
    counts[id := (CountOf(counts, id) + 1) % 0x1_0000]
  }

  /** PreferInLock */
  function Prefer(s: State, v: Vote): State {
    s.(preferred := Some(v), counts := if v.Id() in s.counts then s.counts else s.counts[v.Id() := 1])
  }

  /** The first of the non-empty votes with the greatest tally. */
  function Majority(votes: seq<Vote>): Option<Vote> {
    if votes == [] then None
    else
      var best, v := Majority(votes[..|votes| - 1]), votes[|votes| - 1];
      if v.Id() != None && (best.None? || v.tally > best.value.tally) then Some(v) else best
  }

  function Threshold(alpha: real, votes: nat): real {
    alpha * 2.0 / (if votes < 2 then 2.0 else votes as real)
  }

  /** The vote that carries this tick, if one does. */
  function Winner(alpha: real, votes: seq<Vote>): Option<Vote> {
    var m := Majority(votes);
    if m.None? || m.value.tally < Threshold(alpha, |votes|) then None else m
  }

  function Lose(s: State, votes: seq<Vote>): State {
    var m := Majority(votes);
    (if s.preferred.None? && m.Some? then Prefer(s, m.value) else s).(count := 0)
  }

  function Win(s: State, m: Vote): State {
    var counts := Increment(s.counts, m.Id());
    var preferred :=
      if s.preferred.None? || CountOf(counts, m.Id()) > CountOf(counts, s.preferred.value.Id()) then Some(m)
      else s.preferred;
    var s' := s.(counts := counts, preferred := preferred);
    if s.last.None? || m.Id() != s.last.value.Id() then s'.(last := Some(m), count := 1)
    else if s.count + 1 > s.beta then Prefer(s'.(count := s.count + 1), s.last.value).(decided := true)
    else s'.(count := s.count + 1)
  }

  function Step(s: State, votes: seq<Vote>): State {
    var s' := s.(totalCount := Add64(s.totalCount, 1));
    if s.decided then s'
    else
      var w := Winner(s.alpha, votes);
      if w.None? then Lose(s', votes) else Win(s', w.value)
  }

  function Run(s: State, ticks: seq<seq<Vote>>): State {
    if ticks == [] then s else Step(Run(s, ticks[..|ticks| - 1]), ticks[|ticks| - 1])
  }

  class Snowball {
    const alpha: real
    const beta: int
    var count: int
    var counts: map<VoteId, uint16>
    var totalCount: uint64
    var preferred: Option<Vote>
    var last: Option<Vote>
    var decided: bool

    function View(): State
      reads this
    {
      State(alpha, beta, count, counts, totalCount, preferred, last, decided)
    }

    constructor (alpha: real, beta: int)
      ensures View() == NewSnowball(alpha, beta)
    {
      this.alpha, this.beta := alpha, beta;
      count, counts, totalCount := 0, map[], 0;
      preferred, last, decided := None, None, false;
    }

    method Reset()
      modifies this
      ensures View() == NewSnowball(alpha, beta).(totalCount := old(totalCount))
    {
      preferred, last := None, None;
      counts, count := map[], 0;
      decided := false;
    }

    method PreferInLock(v: Vote)
      modifies this
      ensures View() == Prefer(old(View()), v)
    {
      preferred := Some(v);
      if v.Id() !in counts {
        counts := counts[v.Id() := 1];
      }
    }

    method Tick(votes: seq<Vote>)
      modifies this
      ensures View() == Step(old(View()), votes)
    {
      totalCount := Add64(totalCount, 1);
      if decided {
        return;
      }
      var majority: Option<Vote> := None;
      for i := 0 to |votes|
        invariant majority == Majority(votes[..i])
        invariant View() == old(View()).(totalCount := Add64(old(totalCount), 1))
      {
        assert votes[..i + 1][..i] == votes[..i];
        if votes[i].Id() == None {
          continue;
        }
        if majority.None? || votes[i].tally > majority.value.tally {
          majority := Some(votes[i]);
        }
      }
      assert votes[..|votes|] == votes;
      if majority.None? || majority.value.tally < Threshold(alpha, |votes|) {
        if preferred.None? && majority.Some? {
          PreferInLock(majority.value);
        }
        count := 0;
        return;
      }
      var m := majority.value;
      counts := Increment(counts, m.Id());
      if preferred.None? || CountOf(counts, m.Id()) > CountOf(counts, preferred.value.Id()) {
        preferred := Some(m);
      }
      if last.None? || m.Id() != last.value.Id() {
        last, count := Some(m), 1;
      } else {
        count := count + 1;
        if count > beta {
          PreferInLock(last.value);
          decided := true;
        }
      }
    }
  }

  // ---------------------------------------------------------------- ticks

  /** A non-empty vote no other outweighs, the first such. */
  ghost predicate FirstGreatest(votes: seq<Vote>, k: int) {
    && 0 <= k < |votes| && votes[k].Id() != None
    && (forall i :: 0 <= i < |votes| && votes[i].Id() != None ==> votes[i].tally <= votes[k].tally)
    && (forall i :: 0 <= i < k && votes[i].Id() != None ==> votes[i].tally < votes[k].tally)
  }

  /** What the majority loop finds, ties included. */
  lemma {:induction false} MajorityIsFirstGreatest(votes: seq<Vote>)
    ensures Majority(votes).None? <==> forall i :: 0 <= i < |votes| ==> votes[i].Id() == None
    ensures Majority(votes).Some? ==> exists k :: FirstGreatest(votes, k) && votes[k] == Majority(votes).value
  {
    if votes != [] {
      var n := |votes| - 1;
      var init, v := votes[..n], votes[n];
      MajorityIsFirstGreatest(init);
      assert votes == init + [v];
      if Majority(init).Some? {
        var k :| FirstGreatest(init, k) && init[k] == Majority(init).value;
        FirstGreatestNext(init, k, v);
        assert FirstGreatest(votes, if v.Id() != None && v.tally > init[k].tally then n else k);
      } else if v.Id() != None {
        assert FirstGreatest(votes, n);
      }
    }
  }

  lemma FirstGreatestNext(votes: seq<Vote>, k: int, v: Vote)
    requires FirstGreatest(votes, k)
    ensures FirstGreatest(votes + [v], if v.Id() != None && v.tally > votes[k].tally then |votes| else k)
  {
  }

  /** The id a tick succeeds with. */
  function Success(alpha: real, votes: seq<Vote>): Option<VoteId> {
    var w := Winner(alpha, votes);
    if w.None? then None else Some(w.value.Id())
  }

  /** The tally of vote `k`, times the number of votes but at least two, comes to twice alpha. */
  ghost predicate Carries(alpha: real, votes: seq<Vote>, k: int)
    requires 0 <= k < |votes|
  {
    votes[k].tally * (if |votes| < 2 then 2.0 else |votes| as real) >= 2.0 * alpha
  }

  /** A tick succeeds with an id exactly if the first greatest of the non-empty votes has it and carries. */
  lemma SuccessExactly(alpha: real, votes: seq<Vote>, id: VoteId)
    ensures Success(alpha, votes) == Some(id) <==>
            exists k :: FirstGreatest(votes, k) && votes[k].Id() == id && Carries(alpha, votes, k)
  {
    hide Majority, Carries, Threshold;
    MajorityIsFirstGreatest(votes);
    forall k | FirstGreatest(votes, k)
      ensures Majority(votes) == Some(votes[k])
      ensures Carries(alpha, votes, k) <==> votes[k].tally >= Threshold(alpha, |votes|)
    {
      OneFirstGreatest(votes, k);
      CarriesThreshold(alpha, votes, k);
    }
  }

  lemma CarriesThreshold(alpha: real, votes: seq<Vote>, k: int)
    requires 0 <= k < |votes|
    ensures Carries(alpha, votes, k) <==> votes[k].tally >= Threshold(alpha, |votes|)
  {
    AtLeastQuotient(votes[k].tally, if |votes| < 2 then 2.0 else |votes| as real, 2.0 * alpha);
  }

  lemma OneFirstGreatest(votes: seq<Vote>, k: int)
    requires FirstGreatest(votes, k)
    ensures Majority(votes) == Some(votes[k])
  {
    hide Majority;
    MajorityIsFirstGreatest(votes);
    var m :| FirstGreatest(votes, m) && votes[m] == Majority(votes).value;
    assert m == k;
  }

  lemma AtLeastQuotient(x: real, n: real, y: real)
    requires n > 0.0
    ensures x * n >= y <==> x >= y / n
  {
    assert y / n * n == y;
    assert x >= y / n ==> x * n >= y / n * n;
    assert x < y / n ==> x * n < y / n * n;
  }

  lemma SuccessIsNamed(alpha: real, votes: seq<Vote>)
    ensures Success(alpha, votes) != Some(None)
  {
    MajorityIsFirstGreatest(votes);
  }

  /** A fresh instance, with at most one preference expressed before the first tick. */
  ghost predicate Initial(s: State) {
    || s == NewSnowball(s.alpha, s.beta)
    || (exists v: Vote :: v.Id() != None && s == Prefer(NewSnowball(s.alpha, s.beta), v))
  }

  lemma InitialShape(s: State)
    requires Initial(s)
    ensures s.count == 0 && s.last == None && !s.decided
    ensures forall id :: id in s.counts ==> s.counts[id] == 1 && s.preferred.Some? && s.preferred.value.Id() == id
    ensures s.preferred.Some? ==> s.preferred.value.Id() in s.counts && s.preferred.value.Id() != None
  {
  }

  lemma {:induction false} RunKeepsParameters(s: State, ticks: seq<seq<Vote>>)
    ensures Run(s, ticks).alpha == s.alpha && Run(s, ticks).beta == s.beta
  {
    if ticks != [] {
      RunKeepsParameters(s, ticks[..|ticks| - 1]);
    }
  }

  lemma {:induction false} RunSplit(s: State, xs: seq<seq<Vote>>, ys: seq<seq<Vote>>)
    ensures Run(s, xs + ys) == Run(Run(s, xs), ys)
  {
    if ys == [] {
      assert xs + ys == xs;
    } else {
      var init, last := ys[..|ys| - 1], ys[|ys| - 1];
      RunSplit(s, xs, init);
      assert (xs + ys)[..|xs + ys| - 1] == xs + init;
      assert (xs + ys)[|xs + ys| - 1] == last;
    }
  }

  /** Every tick is counted, also after a decision. */
  lemma {:induction false} TicksAreCounted(s: State, ticks: seq<seq<Vote>>)
    ensures Run(s, ticks).totalCount == (s.totalCount + |ticks|) % TWO_64
  {
    if ticks != [] {
      TicksAreCounted(s, ticks[..|ticks| - 1]);
      OneMore(s.totalCount + |ticks| - 1);
      TotalStep(Run(s, ticks[..|ticks| - 1]), ticks[|ticks| - 1]);
    }
  }

  lemma TotalStep(s: State, votes: seq<Vote>)
    ensures Step(s, votes).totalCount == Add64(s.totalCount, 1)
  {
    hide Majority, Threshold, Add64;
  }

  lemma OneMore(n: nat)
    ensures Add64(n % TWO_64, 1) == (n + 1) % TWO_64
  {
  }

  /** Some vote of the tick is not empty. */
  ghost predicate Speaks(votes: seq<Vote>) {
    exists i :: 0 <= i < |votes| && votes[i].Id() != None
  }

  lemma MajorityIfSpeaks(votes: seq<Vote>)
    ensures Majority(votes).Some? <==> Speaks(votes)
  {
    hide Majority;
    MajorityIsFirstGreatest(votes);
  }

  /** An instance comes to prefer something with the first tick that has a non-empty vote, successful or not. */
  lemma {:induction false} PreferenceExactly(s: State, ticks: seq<seq<Vote>>)
    requires !s.decided
    ensures Run(s, ticks).preferred.Some? <==> s.preferred.Some? || exists t :: t in ticks && Speaks(t)
  {
    if ticks != [] {
      hide Speaks, Step;
      var init, votes := ticks[..|ticks| - 1], ticks[|ticks| - 1];
      assert ticks == init + [votes];
      PreferenceExactly(s, init);
      UnpreferredUndecided(s, init);
      PreferenceStep(Run(s, init), votes);
    }
  }

  lemma PreferenceStep(s: State, votes: seq<Vote>)
    requires s.decided ==> s.preferred.Some?
    ensures Step(s, votes).preferred.Some? <==> s.preferred.Some? || Speaks(votes)
    ensures Step(s, votes).decided ==> Step(s, votes).preferred.Some?
  {
    hide Majority, Speaks, Threshold;
    MajorityIfSpeaks(votes);
  }

  lemma {:induction false} UnpreferredUndecided(s: State, ticks: seq<seq<Vote>>)
    requires !s.decided
    ensures Run(s, ticks).decided ==> Run(s, ticks).preferred.Some?
  {
    if ticks != [] {
      hide Step;
      UnpreferredUndecided(s, ticks[..|ticks| - 1]);
      PreferenceStep(Run(s, ticks[..|ticks| - 1]), ticks[|ticks| - 1]);
    }
  }

  // ---------------------------------------------------------------- decision

  /** `beta + 1` consecutive ticks from `i` on, all succeeding with `id`. */
  ghost predicate Window(alpha: real, beta: int, ticks: seq<seq<Vote>>, i: nat, id: VoteId) {
    && i + beta < |ticks|
    && forall j :: i <= j <= i + beta ==> 0 <= j < |ticks| && Success(alpha, ticks[j]) == Some(id)
  }

  ghost predicate HasWindow(alpha: real, beta: int, ticks: seq<seq<Vote>>) {
    exists i: nat, id: VoteId :: Window(alpha, beta, ticks, i, id)
  }

  /** How many of the latest ticks succeeded in a row with one id. */
  ghost function Streak(alpha: real, ticks: seq<seq<Vote>>): nat {
    if ticks == [] then 0
    else
      var init, won := ticks[..|ticks| - 1], Success(alpha, ticks[|ticks| - 1]);
      if won.None? then 0
      else if init != [] && Success(alpha, init[|init| - 1]) == won then Streak(alpha, init) + 1
      else 1
  }

  lemma {:induction false} StreakMeaning(alpha: real, ticks: seq<seq<Vote>>, k: nat)
    requires 1 <= k <= |ticks|
    ensures Streak(alpha, ticks) >= k <==>
            exists id :: forall j :: |ticks| - k <= j < |ticks| ==> Success(alpha, ticks[j]) == Some(id)
  {
    var n := |ticks|;
    var init, won := ticks[..n - 1], Success(alpha, ticks[n - 1]);
    if k > 1 {
      StreakMeaning(alpha, init, k - 1);
      if Streak(alpha, ticks) >= k {
        var id :| forall j :: n - k <= j < n - 1 ==> Success(alpha, init[j]) == Some(id);
        assert Success(alpha, init[n - 2]) == Some(id) == won;
        forall j | n - k <= j < n
          ensures Success(alpha, ticks[j]) == Some(id)
        {
          assert j < n - 1 ==> ticks[j] == init[j];
        }
      }
      if id :| forall j :: n - k <= j < n ==> Success(alpha, ticks[j]) == Some(id) {
        forall j | n - k <= j < n - 1
          ensures Success(alpha, init[j]) == Some(id)
        {
          assert ticks[j] == init[j];
        }
        assert Success(alpha, ticks[n - 2]) == Some(id);
      }
    } else {
      if won.Some? {
        assert forall j :: n - 1 <= j < n ==> Success(alpha, ticks[j]) == Some(won.value);
      }
    }
  }

  /** While undecided, `count` is the current streak and `last` its id. */
  ghost predicate Tracks(s: State, ticks: seq<seq<Vote>>) {
    && s.count == Streak(s.alpha, ticks)
    && (s.count > 0 ==> s.last.Some? && Success(s.alpha, ticks[|ticks| - 1]) == Some(s.last.value.Id()))
    && (s.last.Some? ==> s.last.value.Id() != None)
  }

  /** What one tick does to `count` and `last`, and when it decides. */
  lemma StepCases(s: State, votes: seq<Vote>)
    requires !s.decided
    ensures var r, won := Step(s, votes), Success(s.alpha, votes);
            && (won.None? ==> !r.decided && r.count == 0 && r.last == s.last)
            && (won.Some? && (s.last.None? || Some(s.last.value.Id()) != won) ==>
                  !r.decided && r.count == 1 && r.last.Some? && Some(r.last.value.Id()) == won)
            && (won.Some? && s.last.Some? && Some(s.last.value.Id()) == won ==>
                  && r.count == s.count + 1 && r.last == s.last
                  && (r.decided <==> s.count + 1 > s.beta)
                  && (r.decided ==> r.preferred == s.last))
  {
    hide Majority, Threshold;
  }

  lemma {:induction false} UndecidedTracks(s: State, ticks: seq<seq<Vote>>)
    requires Initial(s) && s.beta >= 1
    requires !Run(s, ticks).decided
    ensures Tracks(Run(s, ticks), ticks)
    ensures forall n :: 0 <= n <= |ticks| ==> Streak(s.alpha, ticks[..n]) <= s.beta
  {
    hide Initial, Success, Step;
    InitialShape(s);
    RunKeepsParameters(s, ticks);
    if ticks != [] {
      var init, votes := ticks[..|ticks| - 1], ticks[|ticks| - 1];
      RunKeepsParameters(s, init);
      DecidedStays(Run(s, init), votes);
      UndecidedTracks(s, init);
      SuccessIsNamed(s.alpha, votes);
      StepCases(Run(s, init), votes);
      assert Streak(s.alpha, ticks) <= s.beta;
      PrefixStreaks(s.alpha, ticks, init, s.beta);
    }
  }

  lemma DecidedStays(s: State, votes: seq<Vote>)
    ensures s.decided ==> Step(s, votes) == s.(totalCount := Add64(s.totalCount, 1))
  {
  }

  /** Bounds on the streaks of the shorter prefixes carry over from the series without its last tick. */
  lemma PrefixStreaks(alpha: real, ticks: seq<seq<Vote>>, init: seq<seq<Vote>>, bound: int)
    requires ticks != [] && init == ticks[..|ticks| - 1]
    requires forall n :: 0 <= n <= |init| ==> Streak(alpha, init[..n]) <= bound
    ensures forall n :: 0 <= n < |ticks| ==> Streak(alpha, ticks[..n]) <= bound
    ensures ticks[..|ticks|] == ticks
  {
    hide Streak;
    forall n | 0 <= n < |ticks|
      ensures Streak(alpha, ticks[..n]) <= bound
    {
      assert ticks[..n] == init[..n];
    }
  }

  /** Decision comes with the first streak longer than beta, on the id of that streak. */
  lemma {:induction false} DecidedTracks(s: State, ticks: seq<seq<Vote>>) returns (n: nat)
    requires Initial(s) && s.beta >= 1
    requires Run(s, ticks).decided
    ensures 0 < n <= |ticks| && Streak(s.alpha, ticks[..n]) == s.beta + 1
    ensures Run(s, ticks).preferred.Some?
    ensures Success(s.alpha, ticks[n - 1]) == Some(Run(s, ticks).preferred.value.Id())
    ensures forall m :: 0 <= m < n ==> Streak(s.alpha, ticks[..m]) <= s.beta
  {
    hide Initial, Success, Step;
    InitialShape(s);
    var init, votes := ticks[..|ticks| - 1], ticks[|ticks| - 1];
    RunKeepsParameters(s, init);
    if Run(s, init).decided {
      n := DecidedTracks(s, init);
      DecidedStays(Run(s, init), votes);
      assert ticks[..n] == init[..n];
      forall m | 0 <= m < n
        ensures Streak(s.alpha, ticks[..m]) <= s.beta
      {
        assert ticks[..m] == init[..m];
      }
    } else {
      n := |ticks|;
      UndecidedTracks(s, init);
      StepCases(Run(s, init), votes);
      PrefixStreaks(s.alpha, ticks, init, s.beta);
      assert Streak(s.alpha, init[..|init|]) <= s.beta;
      assert init[..|init|] == init;
    }
  }

  lemma StreakIsWindow(alpha: real, beta: int, ticks: seq<seq<Vote>>, i: nat)
    requires beta >= 0 && i + beta < |ticks|
    ensures Streak(alpha, ticks[..i + beta + 1]) > beta <==> exists id :: Window(alpha, beta, ticks, i, id)
  {
    var n := i + beta + 1;
    var prefix := ticks[..n];
    StreakMeaning(alpha, prefix, beta + 1);
    forall id
      ensures (forall j :: i <= j < n ==> Success(alpha, prefix[j]) == Some(id))
              <==> Window(alpha, beta, ticks, i, id)
    {
      assert forall j :: 0 <= j < n ==> prefix[j] == ticks[j];
      if Window(alpha, beta, ticks, i, id) {
        forall j | i <= j < n
          ensures Success(alpha, prefix[j]) == Some(id)
        {
          assert ticks[j] == prefix[j];
        }
      }
    }
  }

  lemma {:induction false} StreakBound(alpha: real, ticks: seq<seq<Vote>>)
    ensures Streak(alpha, ticks) <= |ticks|
  {
    if ticks != [] {
      StreakBound(alpha, ticks[..|ticks| - 1]);
    }
  }

  /**
   Snowball is decided exactly when some beta + 1 consecutive ticks succeeded with one
   id; it then prefers the id of the earliest such window, and never the empty vote.
   */
  lemma DecidedExactly(s: State, ticks: seq<seq<Vote>>)
    requires Initial(s) && s.beta >= 1
    ensures Run(s, ticks).decided <==> HasWindow(s.alpha, s.beta, ticks)
    ensures Run(s, ticks).decided ==>
              exists i: nat :: Run(s, ticks).preferred.Some?
                && Run(s, ticks).preferred.value.Id() != None
                && Window(s.alpha, s.beta, ticks, i, Run(s, ticks).preferred.value.Id())
                && (forall j: nat, id :: Window(s.alpha, s.beta, ticks, j, id) ==> i <= j)
  {
    hide Run, Streak, Success, Initial;
    if Run(s, ticks).decided {
      var n := DecidedTracks(s, ticks);
      StreakBound(s.alpha, ticks[..n]);
      StreakIsWindow(s.alpha, s.beta, ticks, n - 1 - s.beta);
      var id :| Window(s.alpha, s.beta, ticks, n - 1 - s.beta, id);
      assert Success(s.alpha, ticks[n - 1]) == Some(id);
      SuccessIsNamed(s.alpha, ticks[n - 1]);
      forall j: nat, other | Window(s.alpha, s.beta, ticks, j, other)
        ensures n - 1 - s.beta <= j
      {
        StreakIsWindow(s.alpha, s.beta, ticks, j);
      }
    } else {
      UndecidedTracks(s, ticks);
      forall j: nat, id | Window(s.alpha, s.beta, ticks, j, id)
        ensures false
      {
        StreakIsWindow(s.alpha, s.beta, ticks, j);
      }
    }
  }

  /** A decision is final: no later tick touches it. */
  lemma {:induction false} DecisionFinal(s: State, ticks: seq<seq<Vote>>, more: seq<seq<Vote>>)
    requires Run(s, ticks).decided
    ensures Run(s, ticks + more) == Run(s, ticks).(totalCount := Run(s, ticks + more).totalCount)
  {
    if more == [] {
      assert ticks + more == ticks;
    } else {
      var init := more[..|more| - 1];
      DecisionFinal(s, ticks, init);
      assert (ticks + more)[..|ticks + more| - 1] == ticks + init;
    }
  }

  /** A tick on a single vote. */
  function Carried(tally: real, cp: Checkpoint): seq<Vote> {
    [Vote(Some(cp), tally)]
  }

  lemma CarriedSucceeds(alpha: real, tally: real, cp: Checkpoint)
    requires tally >= alpha
    ensures Winner(alpha, Carried(tally, cp)) == Some(Vote(Some(cp), tally))
    ensures Success(alpha, Carried(tally, cp)) == Some(Some(cp))
  {
    var votes := Carried(tally, cp);
    assert votes[..0] == [];
    assert Majority(votes) == Some(votes[0]);
    assert Threshold(alpha, 1) == alpha;
  }

  /** The equivalence needs beta >= 1, and that is all it needs. */
  lemma DecidedExactlyForBeta(alpha: real, beta: int, cp: Checkpoint)
    ensures beta >= 1 <==>
            forall ticks :: Run(NewSnowball(alpha, beta), ticks).decided <==> HasWindow(alpha, beta, ticks)
  {
    var s := NewSnowball(alpha, beta);
    if beta >= 1 {
      forall ticks
        ensures Run(s, ticks).decided <==> HasWindow(alpha, beta, ticks)
      {
        DecidedExactly(s, ticks);
      }
    } else if beta == 0 {
      var ticks := [Carried(alpha, cp)];
      CarriedSucceeds(alpha, alpha, cp);
      assert ticks[..0] == [];
      assert Window(alpha, beta, ticks, 0, Some(cp));
      assert !Run(s, ticks).decided && HasWindow(alpha, beta, ticks);
    } else {
      assert Window(alpha, beta, [], 0, None);
      assert !Run(s, []).decided && HasWindow(alpha, beta, []);
    }
  }

  // ---------------------------------------------------------------- success counts

  /** After `t` ticks: every counter is positive, and any two together number at most t + 1. */
  ghost predicate CountsBounded(s: State, t: nat) {
    && (s.preferred.None? ==> s.counts == map[])
    && (s.preferred.Some? ==> s.preferred.value.Id() in s.counts)
    && (forall id :: id in s.counts ==> 1 <= s.counts[id] <= t + 1)
    && forall a, b :: a in s.counts && b in s.counts && a != b ==> s.counts[a] + s.counts[b] <= t + 1
  }

  /** No id has been counted more often than the preferred one. */
  ghost predicate PrefersGreatest(s: State) {
    s.preferred.Some? ==> forall id :: id in s.counts ==> s.counts[id] <= CountOf(s.counts, s.preferred.value.Id())
  }

  /** Nothing but `id` has been counted. */
  ghost predicate Rivalless(s: State, id: VoteId) {
    forall x :: x in s.counts ==> x == id
  }

  lemma CountsWinBounded(s: State, t: nat, m: Vote)
    requires CountsBounded(s, t)
    requires !Win(s, m).decided
    requires CountOf(s.counts, m.Id()) < 0xFFFF
    ensures CountsBounded(Win(s, m), t + 1)
  {
    hide Increment;
    IncrementValue(s.counts, m.Id());
  }

  /** A win leaves a greatest count preferred, unless the counter wraps and there is a rival. */
  lemma CountsWinPrefers(s: State, t: nat, m: Vote)
    requires CountsBounded(s, t) && PrefersGreatest(s)
    requires !Win(s, m).decided
    requires CountOf(s.counts, m.Id()) == 0xFFFF ==> Rivalless(s, m.Id())
    ensures PrefersGreatest(Win(s, m))
  {
    hide Increment;
    IncrementValue(s.counts, m.Id());
  }

  lemma IncrementValue(counts: map<VoteId, uint16>, id: VoteId)
    ensures Increment(counts, id) == counts[id := if CountOf(counts, id) == 0xFFFF then 0 else CountOf(counts, id) + 1]
  {
  }

  lemma CountsStep(s: State, t: nat, votes: seq<Vote>)
    requires CountsBounded(s, t) && PrefersGreatest(s)
    requires !Step(s, votes).decided
    requires forall id :: Success(s.alpha, votes) == Some(id) && CountOf(s.counts, id) == 0xFFFF ==> Rivalless(s, id)
    ensures PrefersGreatest(Step(s, votes))
    ensures (forall id :: Success(s.alpha, votes) == Some(id) ==> CountOf(s.counts, id) < 0xFFFF) ==>
              CountsBounded(Step(s, votes), t + 1)
  {
    hide Majority, Win, Threshold;
    var w := Winner(s.alpha, votes);
    if w.Some? {
      var s' := s.(totalCount := Add64(s.totalCount, 1));
      CountsWinPrefers(s', t, w.value);
      if CountOf(s.counts, w.value.Id()) < 0xFFFF {
        CountsWinBounded(s', t, w.value);
      }
    }
  }

  /** A full counter leaves no room for a rival within 65535 ticks. */
  lemma FullAlone(s: State, t: nat, id: VoteId)
    requires CountsBounded(s, t) && t < 0xFFFF && CountOf(s.counts, id) == 0xFFFF
    ensures t == 0xFFFE && Rivalless(s, id)
  {
  }

  lemma {:induction false} CountsAlong(s: State, ticks: seq<seq<Vote>>)
    requires Initial(s)
    requires !Run(s, ticks).decided
    requires |ticks| <= 0xFFFF
    ensures PrefersGreatest(Run(s, ticks))
    ensures |ticks| < 0xFFFF ==> CountsBounded(Run(s, ticks), |ticks|)
  {
    if ticks == [] {
      InitialShape(s);
    } else {
      hide Step, Success, CountsBounded, PrefersGreatest, Rivalless, Initial;
      var init, votes := ticks[..|ticks| - 1], ticks[|ticks| - 1];
      var before := Run(s, init);
      DecidedStays(before, votes);
      CountsAlong(s, init);
      forall id | CountOf(before.counts, id) == 0xFFFF
        ensures |init| == 0xFFFE && Rivalless(before, id)
      {
        FullAlone(before, |init|, id);
      }
      CountsStep(before, |init|, votes);
    }
  }

  /** An undecided instance prefers a most often counted id, up to 65535 ticks and whatever beta is. */
  lemma PreferredHasGreatestCount(s: State, ticks: seq<seq<Vote>>)
    requires Initial(s)
    requires !Run(s, ticks).decided
    requires |ticks| <= 0xFFFF
    ensures PrefersGreatest(Run(s, ticks))
  {
    CountsAlong(s, ticks);
  }

  // ---------------------------------------------------------------- how far the counters reach

  /**
   The least number of ticks after which a uint16 counter can wrap beside a rival: a
   counter that starts at 1 has to win 65535 times, at most beta times in a row, and the
   rival has to win once.
   */
  function WrapBound(beta: int): nat
    requires beta >= 1
  {
    0xFFFF + if 0xFFFE / beta < 1 then 1 else 0xFFFE / beta
  }

  ghost function Wins(alpha: real, ticks: seq<seq<Vote>>, id: VoteId): nat {
    if ticks == [] then 0
    else Wins(alpha, ticks[..|ticks| - 1], id) + if Success(alpha, ticks[|ticks| - 1]) == Some(id) then 1 else 0
  }

  /** The streak a series ends with, if it is one of `id`. */
  ghost function Tail(alpha: real, ticks: seq<seq<Vote>>, id: VoteId): nat {
    if ticks != [] && Success(alpha, ticks[|ticks| - 1]) == Some(id) then Streak(alpha, ticks) else 0
  }

  /** Between streaks of at most beta wins there is at least one other tick. */
  lemma {:induction false} WinsSpread(alpha: real, beta: nat, ticks: seq<seq<Vote>>, id: VoteId)
    requires forall n :: 0 <= n <= |ticks| ==> Streak(alpha, ticks[..n]) <= beta
    ensures Wins(alpha, ticks, id) <= |ticks|
    ensures Wins(alpha, ticks, id) - Tail(alpha, ticks, id) <= beta * (|ticks| - Wins(alpha, ticks, id))
  {
    if ticks != [] {
      hide Success;
      var init := ticks[..|ticks| - 1];
      forall n | 0 <= n <= |init|
        ensures Streak(alpha, init[..n]) <= beta
      {
        assert init[..n] == ticks[..n];
      }
      WinsSpread(alpha, beta, init, id);
      assert init[..|init|] == init;
      var others := |init| - Wins(alpha, init, id);
      assert beta * (others + 1) == beta * others + beta;
    }
  }

  /** The id counted once without a win: what was preferred first, unless a win made it so. */
  ghost function Headstart(s: State, ticks: seq<seq<Vote>>): Option<VoteId> {
    if ticks == [] then if s.preferred.Some? then Some(s.preferred.value.Id()) else None
    else
      var init, votes := ticks[..|ticks| - 1], ticks[|ticks| - 1];
      if s.preferred.Some? || (exists t :: t in init && Speaks(t)) then Headstart(s, init)
      else if Majority(votes).Some? && Success(s.alpha, votes).None? then Some(Majority(votes).value.Id())
      else None
  }

  function Low16(n: nat): nat {
    n % 0x1_0000
  }

  /** While undecided, each counter is the number of wins of its id, and one for a headstart, modulo 2^16. */
  lemma {:induction false} CountsExactly(s: State, ticks: seq<seq<Vote>>, id: VoteId)
    requires Initial(s) && !Run(s, ticks).decided
    ensures Run(s, ticks).preferred.None? ==> Run(s, ticks).counts == map[]
    ensures CountOf(Run(s, ticks).counts, id) ==
            Low16(Wins(s.alpha, ticks, id) + if Headstart(s, ticks) == Some(id) then 1 else 0)
  {
    if ticks == [] {
      InitialShape(s);
    } else {
      hide Success, Step, Initial, Majority, Low16, Run, Wins, Headstart;
      var init, votes := ticks[..|ticks| - 1], ticks[|ticks| - 1];
      LastTick(s, ticks, id);
      CountsExactly(s, init, id);
      RunKeepsParameters(s, init);
      CountStep(Run(s, init), votes, id);
      NextCount(Wins(s.alpha, init, id) + if Headstart(s, init) == Some(id) then 1 else 0);
    }
  }

  /** What the last tick of a series adds. */
  lemma LastTick(s: State, ticks: seq<seq<Vote>>, id: VoteId)
    requires Initial(s) && ticks != [] && !Run(s, ticks).decided
    ensures var init, votes := ticks[..|ticks| - 1], ticks[|ticks| - 1];
            var before := Run(s, init);
            && !before.decided && Run(s, ticks) == Step(before, votes)
            && Wins(s.alpha, ticks, id) ==
               Wins(s.alpha, init, id) + (if Success(s.alpha, votes) == Some(id) then 1 else 0)
            && (before.preferred.None? ==> Headstart(s, init).None?)
            && Headstart(s, ticks) ==
               if before.preferred.Some? then Headstart(s, init)
               else if Majority(votes).Some? && Success(s.alpha, votes).None? then Some(Majority(votes).value.Id())
               else None
  {
    hide Success, Step, Majority, Speaks;
    var init, votes := ticks[..|ticks| - 1], ticks[|ticks| - 1];
    InitialShape(s);
    DecidedStays(Run(s, init), votes);
    PreferenceExactly(s, init);
    if Run(s, init).preferred.None? {
      NoHeadstartYet(s, init);
    }
  }

  lemma {:induction false} NoHeadstartYet(s: State, ticks: seq<seq<Vote>>)
    requires s.preferred.None? && !exists t :: t in ticks && Speaks(t)
    ensures Headstart(s, ticks).None?
  {
    if ticks != [] {
      hide Speaks, Majority;
      MajorityIfSpeaks(ticks[|ticks| - 1]);
      assert ticks[|ticks| - 1] in ticks;
    }
  }

  lemma CountStep(s: State, votes: seq<Vote>, id: VoteId)
    requires !s.decided && !Step(s, votes).decided && (s.preferred.None? ==> s.counts == map[])
    ensures var r := Step(s, votes);
            && (r.preferred.None? ==> r.counts == map[])
            && CountOf(r.counts, id) ==
               if Success(s.alpha, votes) == Some(id) then Low16(CountOf(s.counts, id) + 1)
               else if s.preferred.None? && Success(s.alpha, votes).None? && Majority(votes).Some?
                 && Majority(votes).value.Id() == id then 1
               else CountOf(s.counts, id)
  {
    hide Majority, Threshold;
  }

  lemma NextCount(n: nat)
    ensures Low16(Low16(n) + 1) == Low16(n + 1)
    ensures Low16(n) == 0 ==> Low16(n + 1) == 1
  {
  }

  /** A counter never exceeds the wins of its id and one initial preference. */
  lemma {:induction false} CountsAreWins(s: State, ticks: seq<seq<Vote>>, id: VoteId)
    requires Initial(s)
    ensures CountOf(Run(s, ticks).counts, id) <= Wins(s.alpha, ticks, id) + 1
  {
    if ticks == [] {
      InitialShape(s);
    } else {
      var init, votes := ticks[..|ticks| - 1], ticks[|ticks| - 1];
      CountsAreWins(s, init, id);
      RunKeepsParameters(s, init);
      CountGrows(Run(s, init), votes, id);
    }
  }

  lemma CountGrows(s: State, votes: seq<Vote>, id: VoteId)
    ensures CountOf(Step(s, votes).counts, id) <=
            if Success(s.alpha, votes) == Some(id) then CountOf(s.counts, id) + 1
            else if CountOf(s.counts, id) == 0 then 1 else CountOf(s.counts, id)
  {
    hide Majority, Threshold;
  }

  /** A counter cannot wrap in an undecided series before its wins have been spread out. */
  lemma WrapTakesTime(s: State, ticks: seq<seq<Vote>>, id: VoteId)
    requires Initial(s) && s.beta >= 1 && ticks != [] && !Run(s, ticks).decided
    requires Success(s.alpha, ticks[|ticks| - 1]) == Some(id)
    requires CountOf(Run(s, ticks[..|ticks| - 1]).counts, id) == 0xFFFF
    ensures |ticks| >= 0xFFFF + 0xFFFE / s.beta
  {
    hide Run, Success, Initial, Streak, Tail;
    var w := Wins(s.alpha, ticks, id);
    CountsAreWins(s, ticks[..|ticks| - 1], id);
    UndecidedTracks(s, ticks);
    WinsSpread(s.alpha, s.beta, ticks, id);
    TailWithin(s.alpha, ticks, id, s.beta);
    SpreadOut(s.beta, |ticks| - w);
  }

  lemma TailWithin(alpha: real, ticks: seq<seq<Vote>>, id: VoteId, beta: nat)
    requires forall n :: 0 <= n <= |ticks| ==> Streak(alpha, ticks[..n]) <= beta
    ensures Tail(alpha, ticks, id) <= beta
  {
    hide Streak;
    assert ticks[..|ticks|] == ticks;
  }

  lemma SpreadOut(beta: nat, others: nat)
    requires beta >= 1
    ensures others < 0xFFFE / beta ==> beta * others + beta <= 0xFFFE
  {
    var q := 0xFFFE / beta;
    assert beta * q <= 0xFFFE;
    assert others < q ==> beta * (others + 1) <= beta * q;
    assert beta * (others + 1) == beta * others + beta;
  }

  lemma {:induction false} CountsAlongBeta(s: State, ticks: seq<seq<Vote>>)
    requires Initial(s) && s.beta >= 1
    requires !Run(s, ticks).decided
    requires |ticks| < WrapBound(s.beta)
    ensures PrefersGreatest(Run(s, ticks))
    ensures |ticks| + 1 < WrapBound(s.beta) ==> CountsBounded(Run(s, ticks), |ticks|)
  {
    if ticks == [] {
      InitialShape(s);
    } else {
      hide Step, Success, CountsBounded, PrefersGreatest, Rivalless, Initial;
      var init, votes := ticks[..|ticks| - 1], ticks[|ticks| - 1];
      var before := Run(s, init);
      DecidedStays(before, votes);
      CountsAlongBeta(s, init);
      RunKeepsParameters(s, init);
      forall id | Success(s.alpha, votes) == Some(id) && CountOf(before.counts, id) == 0xFFFF
        ensures |ticks| + 1 == WrapBound(s.beta) && Rivalless(before, id)
      {
        WrapTakesTime(s, ticks, id);
        FullAlone(before, |init|, id);
      }
      CountsStep(before, |init|, votes);
    }
  }

  /** An undecided instance prefers a most often counted id in every series shorter than the bound. */
  lemma PreferredHasGreatestCountForBeta(s: State, ticks: seq<seq<Vote>>)
    requires Initial(s) && s.beta >= 1
    requires !Run(s, ticks).decided
    requires |ticks| < WrapBound(s.beta)
    ensures PrefersGreatest(Run(s, ticks))
  {
    CountsAlongBeta(s, ticks);
  }

  // ---------------------------------------------------------------- a series that reaches the bound

  /** A tick as doTick makes it: the tallied votes of some poll. */
  ghost predicate Polled(votes: seq<Vote>) {
    exists poll :: Fresh(poll) && Tallied(poll, votes)
  }

  /** A poll with one answer gives that answer the tally 1. */
  lemma CarriedIsPolled(cp: Checkpoint)
    requires cp.abrs != []
    ensures Polled(Carried(1.0, cp))
  {
    var poll := [Vote(Some(cp), 0.0)];
    var votes := Carried(1.0, cp);
    assert poll[0].Id() == Some(cp);
    assert Present(poll) == {Some(cp)};
    assert Named(poll) == {Some(cp)};
    UnanimousTally(poll, cp);
    assert poll[..0] == [];
    assert Count(poll, Some(cp)) == 1;
    assert votes[0].Id() == Some(cp);
    assert Tallied(poll, votes);
  }

  /** `n` ticks in a row carried by `cp`. */
  function Repeated(cp: Checkpoint, n: nat): seq<seq<Vote>> {
    if n == 0 then [] else Repeated(cp, n - 1) + [Carried(1.0, cp)]
  }

  lemma {:induction false} RepeatedShape(cp: Checkpoint, n: nat)
    ensures |Repeated(cp, n)| == n && forall t :: t in Repeated(cp, n) ==> t == Carried(1.0, cp)
  {
    if n > 0 {
      RepeatedShape(cp, n - 1);
    }
  }

  /** What a run of wins for the preferred id builds up. */
  ghost predicate Building(s: State, r: State, id: VoteId, n: nat) {
    && !r.decided && r.alpha == s.alpha && r.beta == s.beta
    && r.preferred.Some? && r.preferred.value.Id() == id
    && CountOf(r.counts, id) == (CountOf(s.counts, id) + n) % 0x1_0000
    && (forall x :: x != id ==> CountOf(r.counts, x) == CountOf(s.counts, x))
    && (if n == 0 then r.last == s.last else r.count == n && r.last.Some? && r.last.value.Id() == id)
  }

  lemma BuildingStep(s: State, r: State, votes: seq<Vote>, m: Vote, n: nat)
    requires Building(s, r, m.Id(), n) && n < s.beta
    requires s.last.None? || s.last.value.Id() != m.Id()
    requires Winner(s.alpha, votes) == Some(m)
    ensures Building(s, Step(r, votes), m.Id(), n + 1)
  {
    hide Winner, Increment;
    IncrementValue(r.counts, m.Id());
    var c := CountOf(s.counts, m.Id());
    assert (c + n + 1) % 0x1_0000 == if (c + n) % 0x1_0000 == 0xFFFF then 0 else (c + n) % 0x1_0000 + 1;
  }

  lemma {:induction false} RepeatedRun(s: State, cp: Checkpoint, n: nat)
    requires !s.decided && s.beta >= n && s.alpha <= 1.0
    requires s.preferred.Some? && s.preferred.value.Id() == Some(cp)
    requires s.last.None? || s.last.value.Id() != Some(cp)
    ensures Building(s, Run(s, Repeated(cp, n)), Some(cp), n)
  {
    if n > 0 {
      hide Winner, Building, Step, Carried;
      RepeatedRun(s, cp, n - 1);
      CarriedSucceeds(s.alpha, 1.0, cp);
      var before, tick := Repeated(cp, n - 1), Carried(1.0, cp);
      assert (before + [tick])[..|before|] == before;
      BuildingStep(s, Run(s, before), tick, Vote(Some(cp), 1.0), n - 1);
    }
  }

  /** `a` is preferred with `ca` counts so far, `b` has `cb`, and no streak of a rival is under way. */
  ghost predicate Poised(s: State, a: Checkpoint, b: Checkpoint, ca: nat, cb: nat) {
    && !s.decided && s.alpha <= 1.0
    && s.preferred.Some? && s.preferred.value.Id() == Some(a)
    && CountOf(s.counts, Some(a)) == ca % 0x1_0000 && CountOf(s.counts, Some(b)) == cb
    && (s.last.None? || s.last.value.Id() == Some(a))
  }

  /** One win for `b` that does not overtake, then `n` for `a`. */
  function Block(a: Checkpoint, b: Checkpoint, n: nat): seq<seq<Vote>> {
    [Carried(1.0, b)] + Repeated(a, n)
  }

  lemma RivalStep(s: State, a: Checkpoint, b: Checkpoint, ca: nat, cb: nat)
    requires a != b && Poised(s, a, b, ca, cb) && cb < ca < 0x1_0000
    ensures var r := Step(s, Carried(1.0, b));
            && !r.decided && r.alpha == s.alpha && r.beta == s.beta
            && r.preferred == s.preferred && r.last.Some? && r.last.value.Id() == Some(b)
            && CountOf(r.counts, Some(a)) == ca && CountOf(r.counts, Some(b)) == cb + 1
  {
    hide Winner, Increment;
    CarriedSucceeds(s.alpha, 1.0, b);
    IncrementValue(s.counts, Some(b));
  }

  lemma BlockRun(s: State, a: Checkpoint, b: Checkpoint, ca: nat, cb: nat, n: nat)
    requires a != b && Poised(s, a, b, ca, cb) && cb < ca < 0x1_0000 && 1 <= n <= s.beta
    ensures var r := Run(s, Block(a, b, n));
            r.beta == s.beta && Poised(r, a, b, ca + n, cb + 1)
  {
    hide Step, Repeated;
    var first := [Carried(1.0, b)];
    assert first[..0] == [];
    assert Run(s, first) == Step(s, Carried(1.0, b));
    RivalStep(s, a, b, ca, cb);
    RepeatedRun(Run(s, first), a, n);
    RunSplit(s, first, Repeated(a, n));
  }

  function Blocks(a: Checkpoint, b: Checkpoint, n: nat, k: nat): seq<seq<Vote>> {
    if k == 0 then [] else Blocks(a, b, n, k - 1) + Block(a, b, n)
  }

  /** `k * n`, by addition. */
  function Product(k: nat, n: nat): nat {
    if k == 0 then 0 else Product(k - 1, n) + n
  }

  lemma {:induction false} ProductAtLeast(k: nat, n: nat)
    requires n > 0
    ensures Product(k, n) >= k
  {
    if k > 0 {
      ProductAtLeast(k - 1, n);
    }
  }

  lemma {:induction false} ProductIsTimes(k: nat, n: nat)
    ensures Product(k, n) == k * n
  {
    if k > 0 {
      ProductIsTimes(k - 1, n);
    }
  }

  lemma {:induction false} BlocksShape(a: Checkpoint, b: Checkpoint, n: nat, k: nat)
    requires n > 0
    ensures |Blocks(a, b, n, k)| == Product(k, n) + k
    ensures forall t :: t in Blocks(a, b, n, k) ==> t == Carried(1.0, a) || t == Carried(1.0, b)
  {
    if k > 0 {
      hide Carried, Repeated;
      BlocksShape(a, b, n, k - 1);
      RepeatedShape(a, n);
    }
  }

  lemma {:induction false} BlocksRun(s: State, a: Checkpoint, b: Checkpoint, ca: nat, n: nat, k: nat)
    requires a != b && Poised(s, a, b, ca, 0) && ca >= 1 && 1 <= n <= s.beta
    requires ca + Product(k, n) <= 0x1_0000
    ensures var r := Run(s, Blocks(a, b, n, k));
            r.beta == s.beta && Poised(r, a, b, ca + Product(k, n), k)
  {
    hide Run, Block, Poised, Blocks;
    if k > 0 {
      ProductAtLeast(k - 1, n);
      BlocksRun(s, a, b, ca, n, k - 1);
      BlocksNext(s, a, b, ca + Product(k - 1, n), n, k);
    } else {
      NoBlocks(s, a, b, n);
    }
  }

  lemma NoBlocks(s: State, a: Checkpoint, b: Checkpoint, n: nat)
    ensures Run(s, Blocks(a, b, n, 0)) == s && Product(0, n) == 0
  {
  }

  lemma BlocksNext(s: State, a: Checkpoint, b: Checkpoint, ca: nat, n: nat, k: nat)
    requires a != b && k > 0 && k <= ca < 0x1_0000 && 1 <= n <= s.beta
    requires var r := Run(s, Blocks(a, b, n, k - 1)); r.beta == s.beta && Poised(r, a, b, ca, k - 1)
    ensures var r := Run(s, Blocks(a, b, n, k)); r.beta == s.beta && Poised(r, a, b, ca + n, k)
  {
    hide Run, Block, Poised;
    BlockRun(Run(s, Blocks(a, b, n, k - 1)), a, b, ca, k - 1, n);
    RunSplit(s, Blocks(a, b, n, k - 1), Block(a, b, n));
  }

  /** A preference for `a`, then `first` wins for it. */
  lemma FirstRun(alpha: real, beta: int, a: Checkpoint, b: Checkpoint, first: nat)
    requires a != b && alpha <= 1.0 && beta >= first
    ensures var s := Prefer(NewSnowball(alpha, beta), Vote(Some(a), 0.0));
            var r := Run(s, Repeated(a, first));
            Initial(s) && r.beta == beta && Poised(r, a, b, 1 + first, 0)
  {
    var s := Prefer(NewSnowball(alpha, beta), Vote(Some(a), 0.0));
    assert Vote(Some(a), 0.0).Id() != None;
    RepeatedRun(s, a, first);
  }

  /** How the 65535 wins are spread: `first`, and then `k` blocks of `n` after a rival's win each. */
  lemma Spread(beta: int) returns (first: nat, n: nat, k: nat)
    requires beta >= 1
    ensures first <= beta && 1 <= n <= beta && k >= 1
    ensures first + Product(k, n) == 0xFFFF && 0xFFFF + k == WrapBound(beta)
  {
    k := 0xFFFE / beta;
    if k < 1 {
      first, n, k := 0, 0xFFFF, 1;
    } else {
      n := beta;
      assert k * beta <= 0xFFFE < k * beta + beta;
      first := 0xFFFF - k * beta;
    }
    ProductIsTimes(k, n);
  }

  /** At the bound a series of polls can leave a wrapped counter preferred over a rival's. */
  lemma GreatestCountBoundExact(alpha: real, beta: int, a: Checkpoint, b: Checkpoint)
    returns (s: State, ticks: seq<seq<Vote>>)
    requires a != b && a.abrs != [] && b.abrs != []
    requires alpha <= 1.0 && beta >= 1
    ensures Initial(s) && s.alpha == alpha && s.beta == beta
    ensures |ticks| == WrapBound(beta) && forall t :: t in ticks ==> Polled(t)
    ensures !Run(s, ticks).decided && !PrefersGreatest(Run(s, ticks))
  {
    hide Run, Repeated, Blocks, Polled, Initial, WrapBound, Product;
    var first, n, k := Spread(beta);
    s := Prefer(NewSnowball(alpha, beta), Vote(Some(a), 0.0));
    var xs, ys := Repeated(a, first), Blocks(a, b, n, k);
    ticks := xs + ys;
    FirstRun(alpha, beta, a, b, first);
    BlocksRun(Run(s, xs), a, b, 1 + first, n, k);
    RunSplit(s, xs, ys);
    RepeatedShape(a, first);
    BlocksShape(a, b, n, k);
    CarriedIsPolled(a);
    CarriedIsPolled(b);
    var r := Run(s, ticks);
    assert CountOf(r.counts, Some(a)) == 0 && CountOf(r.counts, Some(b)) == k;
    assert Some(b) in r.counts;
  }

  /** A series of polls of a fresh instance that decides nothing. */
  ghost predicate Undecided(s: State, ticks: seq<seq<Vote>>, alpha: real, beta: int) {
    && Initial(s) && s.alpha == alpha && s.beta == beta
    && (forall t :: t in ticks ==> Polled(t))
    && !Run(s, ticks).decided
  }

  /**
   For every alpha up to 1 and beta from 1 on: all undecided series of at most `n` polls
   leave a most often counted id preferred exactly if `n` is below the bound.
   */
  lemma GreatestCountExactly(alpha: real, beta: int, n: nat)
    requires alpha <= 1.0 && beta >= 1
    ensures n < WrapBound(beta) <==>
            forall s, ticks :: Undecided(s, ticks, alpha, beta) && |ticks| <= n ==> PrefersGreatest(Run(s, ticks))
  {
    hide Run, Initial, Polled, PrefersGreatest, WrapBound;
    if n < WrapBound(beta) {
      forall s, ticks | Undecided(s, ticks, alpha, beta) && |ticks| <= n
        ensures PrefersGreatest(Run(s, ticks))
      {
        PreferredHasGreatestCountForBeta(s, ticks);
      }
    } else {
      var a, b := Checkpoint(0, ["a"]), Checkpoint(0, ["b"]);
      assert a.abrs[0] != b.abrs[0];
      var s, ticks := GreatestCountBoundExact(alpha, beta, a, b);
    }
  }

  // ---------------------------------------------------------------- unanimous polls

  lemma UnanimousPresent(poll: seq<Vote>, cp: Checkpoint)
    requires Named(poll) == {Some(cp)}
    ensures Some(cp) in Present(poll) && 1 <= |Present(poll)| <= 2
    ensures forall id :: id in Present(poll) ==> id == None || id == Some(cp)
  {
    hide Present;
    assert Some(cp) in Named(poll);
    assert Present(poll) == Named(poll) + (Present(poll) * {None});
    assert Present(poll) == if None in Present(poll) then {None, Some(cp)} else {Some(cp)};
  }

  lemma UnanimousVotes(poll: seq<Vote>, votes: seq<Vote>, cp: Checkpoint)
    requires Named(poll) == {Some(cp)} && Tallied(poll, votes)
    ensures 1 <= |votes| <= 2
    ensures Majority(votes) == Some(Vote(Some(cp), Tally(poll, Some(cp))))
  {
    hide Tally, Present, Named, Majority;
    UnanimousPresent(poll, cp);
    var k :| 0 <= k < |votes| && votes[k].Id() == Some(cp);
    MajorityIsFirstGreatest(votes);
    var m :| FirstGreatest(votes, m) && votes[m] == Majority(votes).value;
    assert votes[m].Id() == Some(cp);
  }

  /** When every non-empty answer names `cp`, the tick succeeds exactly if a fraction alpha does. */
  lemma UnanimousTick(alpha: real, poll: seq<Vote>, votes: seq<Vote>, cp: Checkpoint)
    requires Named(poll) == {Some(cp)} && Tallied(poll, votes)
    ensures |poll| > 0
    ensures Success(alpha, votes) ==
            if Quotient(Count(poll, Some(cp)) as real, |poll| as real) >= alpha then Some(Some(cp)) else None
  {
    hide Tally, Majority, Tallied, Quotient, Count;
    UnanimousTally(poll, cp);
    UnanimousVotes(poll, votes, cp);
    assert Threshold(alpha, |votes|) == alpha;
  }

  lemma {:induction false} WinsAccumulate(s: State, ticks: seq<seq<Vote>>, id: VoteId)
    requires !s.decided && s.beta >= 1 && s.count >= 0 && ticks != []
    requires forall i :: 0 <= i < |ticks| ==> Success(s.alpha, ticks[i]) == Some(id)
    ensures var r := Run(s, ticks);
            if r.decided then r.preferred.Some? && r.preferred.value.Id() == id
            else r.count >= |ticks| && r.last.Some? && r.last.value.Id() == id && r.count <= s.beta
  {
    RunKeepsParameters(s, ticks[..|ticks| - 1]);
    assert Success(s.alpha, ticks[|ticks| - 1]) == Some(id);
    if |ticks| > 1 {
      var init := ticks[..|ticks| - 1];
      assert forall i :: 0 <= i < |init| ==> init[i] == ticks[i];
      WinsAccumulate(s, init, id);
    }
  }

  /** beta + 1 polls in a row that all carry `cp` decide an undecided instance on `cp`. */
  lemma ConsecutiveWinsDecide(s: State, ticks: seq<seq<Vote>>, cp: Checkpoint)
    requires !s.decided && s.beta >= 1 && s.count >= 0
    requires |ticks| == s.beta + 1
    requires forall i :: 0 <= i < |ticks| ==> Success(s.alpha, ticks[i]) == Some(Some(cp))
    ensures Run(s, ticks).decided
    ensures Run(s, ticks).preferred.Some? && Run(s, ticks).preferred.value.Id() == Some(cp)
  {
    WinsAccumulate(s, ticks, Some(cp));
  }
}
