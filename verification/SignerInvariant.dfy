/**
 What every step of a signer keeps, and what follows for every run: one gapless chain
 per object, commits that never miss a request, one signed round per height, and
 rounds that look the same wherever they are read from.
 */
module SignerInvariant {
  import opened Wire
  import opened Keys
  import opened VoteModel
  import opened MempoolModel
  import opened History
  import opened SignerModel
  import S = SnowballModel
  import G = StateModel

  // ---------------------------------------------------------------- the invariant

  ghost function AddressOf(address: AddBlockRequest -> Cid, latest: Latest): map<string, Cid> {
    map o | o in latest :: address(latest[o])
  }

  /** The one round that decision number `h` leads to. */
  ghost function Certified(address: AddBlockRequest -> Cid, history: seq<Decision>, h: nat): Round
    requires h < |history|
  {
    Round(h, AddressOf(address, Ledger(history[..h + 1])), history[h].checkpoint)
  }

  /** Every proposable request continues its chain exactly. */
  ghost predicate PoolOk(address: AddBlockRequest -> Cid, latest: Latest, store: G.Store, pool: Pool) {
    && Addressed(pool, address)
    && forall c :: c in pool ==> c in store && IsDid(pool[c].objectId) && Continues(latest, pool[c])
  }

  /**
   A queued request lies strictly beyond the next height. The one exception needs a
   full chain: at the last uint64 height the wrapped comparison queues a rival.
   */
  ghost predicate Beyond(latest: Latest, abr: AddBlockRequest) {
    && abr.height > 0
    && (abr.objectId in latest ==>
          || abr.height > latest[abr.objectId].height + 1
          || (abr.height == MAX_UINT64 == latest[abr.objectId].height))
  }

  ghost predicate QueueOk(latest: Latest, inflight: map<string, AddBlockRequest>) {
    forall k :: k in inflight ==> k == KeyOf(inflight[k]) && IsDid(inflight[k].objectId) && Beyond(latest, inflight[k])
  }

  ghost predicate BallotOk(pool: Pool, v: Option<Vote>) {
    v.Some? ==> v.value.checkpoint.Some? && Admissible(pool, v.value.checkpoint.value.abrs)
  }

  ghost predicate VotesOk(pool: Pool, snowball: S.State) {
    && BallotOk(pool, snowball.preferred)
    && BallotOk(pool, snowball.last)
    && (snowball.decided ==> snowball.preferred.Some?)
  }

  ghost predicate RoundOk(address: AddBlockRequest -> Cid, history: seq<Decision>, store: G.Store, h: nat,
                          r: Completed) {
    && h < |history|
    && r.checkpoint == history[h].checkpoint
    && G.Latest(r.state) == Certified(address, history, h).state
    && G.Backed(r.state, store)
    && (r.published ==> r.state.inflight == map[])
  }

  ghost predicate RoundsOk(address: AddBlockRequest -> Cid, history: seq<Decision>, store: G.Store, rounds: map<nat,
                           Completed>) {
    forall h :: h in rounds ==> RoundOk(address, history, store, h, rounds[h])
  }

  ghost predicate DataOk(address: AddBlockRequest -> Cid, history: seq<Decision>, store: G.Store, data: map<nat,
                         Round>) {
    forall h :: h in data ==>
      && h < |history|
      && data[h] == Certified(address, history, h)
      && forall o :: o in data[h].state ==> data[h].state[o] in store
  }

  ghost predicate SignedOk(address: AddBlockRequest -> Cid, history: seq<Decision>, signed: set<Round>) {
    forall r :: r in signed ==> r.height < |history| && r == Certified(address, history, r.height)
  }

  ghost predicate RepublishOk(address: AddBlockRequest -> Cid, history: seq<Decision>, republish: map<nat, Round>) {
    forall h :: h in republish ==> h < |history| && republish[h] == Certified(address, history, h)
  }

  ghost predicate CacheOk(height: nat, cache: map<nat, Entry>, rounds: map<nat, Completed>, data: map<nat, Round>) {
    forall h :: h in cache ==> h < height && (if cache[h] == Live then h in rounds else h in data)
  }

  /** What is stored was signed, and the round recorded last is stored. */
  ghost predicate RecordsOk(lastCompleted: Option<nat>, data: map<nat, Round>, signed: set<Round>) {
    && (lastCompleted.Some? ==> lastCompleted.value in data)
    && forall h :: h in data ==> data[h] in signed
  }

  /** The requests of a decision are those its checkpoint names. */
  ghost predicate Names(address: AddBlockRequest -> Cid, d: Decision) {
    && |d.checkpoint.abrs| == |d.abrs|
    && forall i :: 0 <= i < |d.abrs| ==> d.checkpoint.abrs[i] == address(d.abrs[i])
  }

  ghost predicate HistoryOk(address: AddBlockRequest -> Cid, history: seq<Decision>) {
    Grown(history) && forall h :: 0 <= h < |history| ==> Names(address, history[h])
  }

  ghost predicate Inv(address: AddBlockRequest -> Cid, s: Signer) {
    && |s.history| == s.height
    && HistoryOk(address, s.history)
    && Addressed(s.store, address)
    && PoolOk(address, Ledger(s.history), s.store, s.mempool)
    && QueueOk(Ledger(s.history), s.inflight)
    && VotesOk(s.mempool, s.snowball)
    && RoundsOk(address, s.history, s.store, s.rounds)
    && DataOk(address, s.history, s.store, s.dataStore)
    && SignedOk(address, s.history, s.signed)
    && RepublishOk(address, s.history, s.republish)
    && CacheOk(s.height, s.cache, s.rounds, s.dataStore)
    && RecordsOk(s.lastCompleted, s.dataStore, s.signed)
  }

  // ---------------------------------------------------------------- growing stores and pools

  /** Two content-addressed maps agree wherever both are defined. */
  lemma SameContent(address: AddBlockRequest -> Cid, m: map<Cid, AddBlockRequest>, n: map<Cid, AddBlockRequest>)
    requires Injective(address) && Addressed(m, address) && Addressed(n, address)
    ensures forall c :: c in m && c in n ==> m[c] == n[c]
  {
  }

  lemma AddressKnown(address: AddBlockRequest -> Cid, m: map<Cid, AddBlockRequest>, abr: AddBlockRequest)
    requires Injective(address) && Addressed(m, address)
    ensures address(abr) in m ==> m[address(abr)] == abr
  {
  }

  lemma StoreGrows(address: AddBlockRequest -> Cid, history: seq<Decision>, store: G.Store, abr: AddBlockRequest,
                   rounds: map<nat, Completed>, data: map<nat, Round>)
    requires Injective(address) && Addressed(store, address)
    requires RoundsOk(address, history, store, rounds) && DataOk(address, history, store, data)
    ensures var store' := store[address(abr) := abr];
            && Addressed(store', address)
            && RoundsOk(address, history, store', rounds)
            && DataOk(address, history, store', data)
  {
    hide Certified, G.Latest, Injective;
    AddressKnown(address, store, abr);
    var store' := store[address(abr) := abr];
    assert forall c :: c in store ==> c in store' && store'[c] == store[c];
    forall h | h in rounds
      ensures RoundOk(address, history, store', h, rounds[h])
    {
      assert RoundOk(address, history, store, h, rounds[h]);
    }
  }

  lemma PoolGrows(address: AddBlockRequest -> Cid, latest: Latest, store: G.Store, pool: Pool, abr: AddBlockRequest)
    requires Injective(address) && Addressed(store, address) && PoolOk(address, latest, store, pool)
    requires IsDid(abr.objectId) && Continues(latest, abr)
    ensures PoolOk(address, latest, store[address(abr) := abr], pool[address(abr) := abr])
    ensures forall c :: c in pool ==> pool[address(abr) := abr][c] == pool[c]
  {
    hide Continues, IsDid, Injective;
    AddressKnown(address, pool, abr);
  }

  lemma BallotKept(pool: Pool, more: Pool, v: Option<Vote>)
    requires forall c :: c in pool ==> c in more && more[c] == pool[c]
    requires BallotOk(pool, v)
    ensures BallotOk(more, v)
  {
    hide KeyOf;
  }

  // ---------------------------------------------------------------- reading rounds

  /** A round is the same round whether it is read live or rebuilt from storage. */
  lemma GetRoundIsCertified(address: AddBlockRequest -> Cid, s: Signer, h: nat)
    requires Inv(address, s)
    requires GetRound(s, h).Some?
    ensures var v := GetRound(s, h).value;
            && h < s.height
            && v.height == h
            && v.checkpoint == s.history[h].checkpoint
            && G.Latest(v.state) == Certified(address, s.history, h).state
            && G.Backed(v.state, s.store)
  {
    hide HistoryOk, Ledger, PoolOk, QueueOk, VotesOk, SignedOk, RepublishOk, CacheOk, Addressed, AddressOf, G.Latest;
    if h in s.cache && s.cache[h] == Live && h in s.rounds {
      assert RoundOk(address, s.history, s.store, h, s.rounds[h]);
    } else {
      assert s.dataStore[h] == Certified(address, s.history, h);
      RestoredLatest(s.dataStore[h].state);
    }
  }

  lemma AnswerFromCertified(address: AddBlockRequest -> Cid, state: G.State, store: G.Store, latest: Latest,
                            objectId: string)
    requires Injective(address) && Addressed(store, address)
    requires G.Latest(state) == AddressOf(address, latest) && G.Backed(state, store)
    ensures G.Answer(state, store, objectId) == Ok(if objectId in latest then Some(latest[objectId]) else None)
  {
    G.FindReadsLatest(state, store, objectId);
  }

  /** getCurrent answers with the end of the object's chain, or fails for want of the round. */
  lemma CurrentIsChainEnd(address: AddBlockRequest -> Cid, s: Signer, objectId: string)
    requires Injective(address) && Inv(address, s)
    ensures GetCurrent(s, objectId).Err? <==> s.height > 0 && GetRound(s, s.height - 1).None?
    ensures GetCurrent(s, objectId).Ok? ==>
              GetCurrent(s, objectId).value ==
              if objectId in Ledger(s.history) then Some(Ledger(s.history)[objectId]) else None
  {
    hide HistoryOk, Addressed, PoolOk, QueueOk, VotesOk, RoundsOk, DataOk, SignedOk, RepublishOk, CacheOk, G.Answer,
         G.Latest, G.Backed;
    if s.height > 0 && GetRound(s, s.height - 1).Some? {
      GetRoundIsCertified(address, s, s.height - 1);
      assert s.history[..s.height] == s.history;
      AnswerFromCertified(address, GetRound(s, s.height - 1).value.state, s.store, Ledger(s.history), objectId);
    }
  }

  // ---------------------------------------------------------------- arrivals

  lemma JudgeKeeps(address: AddBlockRequest -> Cid, s: Signer, current: Option<AddBlockRequest>, abr: AddBlockRequest)
    requires Injective(address) && Inv(address, s) && IsDid(abr.objectId)
    requires current == if abr.objectId in Ledger(s.history) then Some(Ledger(s.history)[abr.objectId]) else None
    ensures Inv(address, Judge(address, s, current, abr))
  {
    hide Inv, Ledger, StoreAbr, StoreAsInFlight, IsDid;
    match current
    case None =>
      if abr.height == 0 {
        StoreKeeps(address, s, abr);
      } else {
        QueueKeeps(address, s, abr);
      }
    case Some(cur) =>
      if cur.height <= abr.height {
        if Add64(cur.height, 1) == abr.height {
          if cur.newTip == abr.previousTip {
            StoreKeeps(address, s, abr);
          }
        } else if abr.height > Add64(cur.height, 1) {
          QueueKeeps(address, s, abr);
        }
      }
  }

  lemma StoreKeeps(address: AddBlockRequest -> Cid, s: Signer, abr: AddBlockRequest)
    requires Injective(address) && Inv(address, s)
    requires IsDid(abr.objectId) && Continues(Ledger(s.history), abr)
    ensures Inv(address, StoreAbr(address, s, abr))
  {
    hide Continues, IsDid, RoundsOk, DataOk, BallotOk, Ledger, QueueOk, SignedOk, RepublishOk, CacheOk, PoolOk,
         Addressed;
    StoreGrows(address, s.history, s.store, abr, s.rounds, s.dataStore);
    PoolGrows(address, Ledger(s.history), s.store, s.mempool, abr);
    var s' := StoreAbr(address, s, abr);
    PoolKeys(address, Ledger(s.history), s.store, s.mempool, abr);
    BallotKept(s.mempool, s'.mempool, s.snowball.preferred);
    BallotKept(s.mempool, s'.mempool, s.snowball.last);
  }

  lemma PoolKeys(address: AddBlockRequest -> Cid, latest: Latest, store: G.Store, pool: Pool, abr: AddBlockRequest)
    requires Injective(address) && PoolOk(address, latest, store, pool)
    ensures forall c :: c in pool ==> c in pool[address(abr) := abr] && pool[address(abr) := abr][c] == pool[c]
  {
  }

  lemma QueueKeeps(address: AddBlockRequest -> Cid, s: Signer, abr: AddBlockRequest)
    requires Inv(address, s)
    requires IsDid(abr.objectId) && Beyond(Ledger(s.history), abr)
    ensures Inv(address, StoreAsInFlight(s, abr))
  {
  }

  lemma TouchKeeps(address: AddBlockRequest -> Cid, s: Signer, h: nat)
    requires Inv(address, s)
    ensures Inv(address, Touch(s, h))
    ensures Touch(s, h).history == s.history
  {
  }

  lemma ReadPreviousKeeps(address: AddBlockRequest -> Cid, s: Signer)
    requires Inv(address, s)
    ensures Inv(address, ReadPrevious(s))
    ensures ReadPrevious(s) == s.(cache := ReadPrevious(s).cache)
    ensures forall h :: GetRound(ReadPrevious(s), h) == GetRound(s, h)
  {
    hide Inv;
    if s.height > 0 {
      TouchKeeps(address, s, s.height - 1);
    }
  }

  lemma ArriveKeeps(address: AddBlockRequest -> Cid, s: Signer, abr: AddBlockRequest)
    requires Injective(address) && Inv(address, s) && IsDid(abr.objectId)
    ensures Inv(address, Arrive(address, s, abr))
  {
    hide Inv, Judge, ReadPrevious, GetCurrent, IsDid, Ledger;
    ReadPreviousKeeps(address, s);
    CurrentIsChainEnd(address, s, abr.objectId);
    if GetCurrent(s, abr.objectId).Ok? {
      JudgeKeeps(address, ReadPrevious(s), GetCurrent(s, abr.objectId).value, abr);
    }
  }

  // ---------------------------------------------------------------- voting

  lemma StartKeeps(address: AddBlockRequest -> Cid, s: Signer, preferred: seq<Cid>)
    requires Inv(address, s)
    requires Enumerates(preferred, PreferredSet(s.mempool))
    ensures Inv(address, Start(s, preferred))
  {
    PreferredAdmissible(s.mempool, preferred);
  }

  /** Whatever a tick makes preferred or last was so before, or is a vote of the tick. */
  lemma StepBallots(s: S.State, votes: seq<Vote>)
    ensures var r, m := S.Step(s, votes), S.Majority(votes);
            && (r.preferred == s.preferred || r.preferred == s.last || r.preferred == m)
            && (r.last == s.last || r.last == m)
            && (r.decided ==> s.decided || r.preferred.Some?)
            && (s.decided ==> r.preferred == s.preferred)
  {
    hide S.Majority, S.Threshold;
  }

  /** A vote that can win a tick passed the filter. */
  lemma MajorityAdmissible(pool: Pool, answers: seq<Option<Checkpoint>>, votes: seq<Vote>)
    requires Tallied(FilterAll(pool, answers), votes)
    ensures BallotOk(pool, S.Majority(votes))
  {
    hide Tally, Admissible;
    S.MajorityIsFirstGreatest(votes);
    if S.Majority(votes).Some? {
      var k :| S.FirstGreatest(votes, k) && votes[k] == S.Majority(votes).value;
      var poll := FilterAll(pool, answers);
      assert votes[k].Id() in Present(poll);
      var i :| 0 <= i < |poll| && poll[i].Id() == votes[k].Id();
      assert poll[i] == Filter(pool, answers[i]);
    }
  }

  lemma PollKeeps(address: AddBlockRequest -> Cid, s: Signer, answers: seq<Option<Checkpoint>>, votes: seq<Vote>)
    requires Inv(address, s)
    requires Tallied(FilterAll(s.mempool, answers), votes)
    ensures Inv(address, s.(snowball := S.Step(s.snowball, votes)))
  {
    hide S.Step, BallotOk, PoolOk, QueueOk, RoundsOk, DataOk, SignedOk, RepublishOk, CacheOk, HistoryOk, Ledger,
         Addressed, Tallied;
    StepBallots(s.snowball, votes);
    MajorityAdmissible(s.mempool, answers, votes);
  }

  // ---------------------------------------------------------------- commit

  /** Requests under different keys that all continue their chains are of different objects. */
  lemma LookupExtends(address: AddBlockRequest -> Cid, latest: Latest, store: G.Store, pool: Pool, ids: seq<Cid>)
    requires PoolOk(address, latest, store, pool) && Admissible(pool, ids)
    ensures Extends(latest, Lookup(pool, ids))
  {
    hide Key, IsDid;
    var abrs := Lookup(pool, ids);
    forall i, j | 0 <= i < j < |abrs|
      ensures abrs[i].objectId != abrs[j].objectId
    {
      assert KeyOf(pool[ids[i]]) != KeyOf(pool[ids[j]]);
      assert Continues(latest, pool[ids[i]]) && Continues(latest, pool[ids[j]]);
    }
  }

  lemma AppliedAt(latest: Latest, abrs: seq<AddBlockRequest>, i: nat)
    requires DistinctObjects(abrs) && i < |abrs|
    ensures abrs[i].objectId in Apply(latest, abrs) && Apply(latest, abrs)[abrs[i].objectId] == abrs[i]
  {
    AppliedLatest(latest, abrs, abrs[i].objectId);
    PickedFromDistinct(abrs, abrs[i].objectId);
  }

  lemma AppliedElsewhere(latest: Latest, abrs: seq<AddBlockRequest>, objectId: string)
    requires DistinctObjects(abrs)
    requires forall i :: 0 <= i < |abrs| ==> abrs[i].objectId != objectId
    ensures objectId in Apply(latest, abrs) <==> objectId in latest
    ensures objectId in latest ==> Apply(latest, abrs)[objectId] == latest[objectId]
  {
    AppliedLatest(latest, abrs, objectId);
    PickedFromDistinct(abrs, objectId);
  }

  ghost function NextKey(abr: AddBlockRequest): string {
    Key(abr.objectId, Add64(abr.height, 1))
  }

  ghost function NextKeys(abrs: seq<AddBlockRequest>): set<string> {
    set i | 0 <= i < |abrs| :: NextKey(abrs[i])
  }

  lemma NextKeysStep(abrs: seq<AddBlockRequest>, abr: AddBlockRequest)
    ensures NextKeys(abrs + [abr]) == NextKeys(abrs) + {NextKey(abr)}
  {
    hide NextKey;
    var more := abrs + [abr];
    forall k | k in NextKeys(abrs)
      ensures k in NextKeys(more)
    {
      var i :| 0 <= i < |abrs| && k == NextKey(abrs[i]);
      assert more[i] == abrs[i];
    }
    assert more[|abrs|] == abr;
  }

  /** Store and pool have only grown, by requests that continue the chains `after` the commit. */
  ghost predicate PoolGrown(address: AddBlockRequest -> Cid, after: Latest, s: Signer, s': Signer) {
    && Addressed(s'.store, address) && Addressed(s'.mempool, address)
    && (forall c :: c in s.store ==> c in s'.store)
    && (forall c :: c in s.mempool ==> c in s'.mempool && s'.mempool[c] == s.mempool[c])
    && (forall c :: c in s'.mempool && c !in s.mempool ==>
          c in s'.store && IsDid(s'.mempool[c].objectId) && Continues(after, s'.mempool[c]))
  }

  lemma PoolGrownStore(address: AddBlockRequest -> Cid, after: Latest, s: Signer, s': Signer, abr: AddBlockRequest)
    requires Injective(address) && PoolGrown(address, after, s, s')
    requires IsDid(abr.objectId) && Continues(after, abr)
    ensures PoolGrown(address, after, s, StoreAbr(address, s', abr))
  {
    hide IsDid, Continues, Injective;
    AddressKnown(address, s'.mempool, abr);
  }

  /** What the commit loop has done after the requests `abrs`. */
  ghost predicate Promoted(address: AddBlockRequest -> Cid, after: Latest, s: Signer, abrs: seq<AddBlockRequest>,
                           s': Signer) {
    && s' == s.(mempool := s'.mempool, inflight := s'.inflight, store := s'.store)
    && s'.inflight == s.inflight - NextKeys(abrs)
    && PoolGrown(address, after, s, s')
  }

  /** A queued request found behind `abr` is of the same object, at the next height. */
  lemma QueuedBehind(latest: Latest, inflight: map<string, AddBlockRequest>, abr: AddBlockRequest)
    requires QueueOk(latest, inflight) && IsDid(abr.objectId) && NextKey(abr) in inflight
    ensures inflight[NextKey(abr)].objectId == abr.objectId
    ensures inflight[NextKey(abr)].height == abr.height + 1
  {
    hide Key;
    var next := inflight[NextKey(abr)];
    assert KeyOf(next) == NextKey(abr);
    KeyInjective(next.objectId, next.height, abr.objectId, Add64(abr.height, 1));
  }

  lemma PromoteOne(address: AddBlockRequest -> Cid, latest: Latest, after: Latest, s: Signer,
                   abrs: seq<AddBlockRequest>, s': Signer, abr: AddBlockRequest)
    requires Injective(address) && QueueOk(latest, s.inflight)
    requires Promoted(address, after, s, abrs, s')
    requires IsDid(abr.objectId) && abr.objectId in after && after[abr.objectId] == abr
    ensures Promoted(address, after, s, abrs + [abr], Release(address, s', abr))
  {
    hide IsDid, Key, NextKeys, PoolGrown, QueueOk;
    NextKeysStep(abrs, abr);
    if NextKey(abr) in s'.inflight {
      QueuedBehind(latest, s.inflight, abr);
      var next := s'.inflight[NextKey(abr)];
      assert s.inflight - NextKeys(abrs) - {NextKey(abr)} == s.inflight - NextKeys(abrs + [abr]);
      PoolGrownFrame(address, after, s, s', s'.inflight - {NextKey(abr)});
      if next.previousTip == abr.newTip {
        PoolGrownStore(address, after, s, s', next);
        PoolGrownFrame(address, after, s, StoreAbr(address, s', next), s'.inflight - {NextKey(abr)});
      }
    } else {
      assert s.inflight - NextKeys(abrs) == s.inflight - NextKeys(abrs + [abr]);
    }
  }

  lemma PoolGrownFrame(address: AddBlockRequest -> Cid, after: Latest, s: Signer, s': Signer, inflight: map<string,
                       AddBlockRequest>)
    requires PoolGrown(address, after, s, s')
    ensures PoolGrown(address, after, s, s'.(inflight := inflight))
  {
  }

  lemma {:induction false} PromoteAll(address: AddBlockRequest -> Cid, latest: Latest, after: Latest, s: Signer,
                                      abrs: seq<AddBlockRequest>)
    requires Injective(address) && QueueOk(latest, s.inflight)
    requires Addressed(s.store, address) && Addressed(s.mempool, address)
    requires forall i :: 0 <= i < |abrs| ==>
               IsDid(abrs[i].objectId) && abrs[i].objectId in after && after[abrs[i].objectId] == abrs[i]
    ensures Promoted(address, after, s, abrs, Promote(address, s, abrs))
  {
    if abrs == [] {
      assert s.inflight - NextKeys(abrs) == s.inflight;
    } else {
      hide Promoted, IsDid, QueueOk, Addressed;
      var init, abr := abrs[..|abrs| - 1], abrs[|abrs| - 1];
      PromoteAll(address, latest, after, s, init);
      PromoteOne(address, latest, after, s, init, Promote(address, s, init), abr);
      assert init + [abr] == abrs;
    }
  }

  /** After the commit only chains not touched by it, or just extended by it, have requests left. */
  lemma PoolAfterCommit(address: AddBlockRequest -> Cid, s: Signer, ids: seq<Cid>, s': Signer)
    requires PoolOk(address, Ledger(s.history), s.store, s.mempool) && Admissible(s.mempool, ids)
    requires var abrs := Lookup(s.mempool, ids); Promoted(address, Apply(Ledger(s.history), abrs), s, abrs, s')
    ensures PoolOk(address, Apply(Ledger(s.history), Lookup(s.mempool, ids)), s'.store, Remaining(s'.mempool, ids))
  {
    hide IsDid, Key, Ledger, Apply, NextKeys;
    var latest, abrs := Ledger(s.history), Lookup(s.mempool, ids);
    var after, left := Apply(latest, abrs), Remaining(s'.mempool, ids);
    LookupExtends(address, latest, s.store, s.mempool, ids);
    forall c | c in left
      ensures c in s'.store && IsDid(left[c].objectId) && Continues(after, left[c])
    {
      if c in s.mempool {
        var abr := s.mempool[c];
        forall i | 0 <= i < |abrs|
          ensures abrs[i].objectId != abr.objectId
        {
          assert !Conflicts(s'.mempool, ids[i], c);
          assert Continues(latest, abrs[i]) && Continues(latest, abr);
        }
        AppliedElsewhere(latest, abrs, abr.objectId);
      }
    }
  }

  /** What stays queued is still beyond the chains as the commit leaves them. */
  lemma QueueAfterCommit(latest: Latest, inflight: map<string, AddBlockRequest>, abrs: seq<AddBlockRequest>)
    requires QueueOk(latest, inflight) && Extends(latest, abrs)
    ensures QueueOk(Apply(latest, abrs), inflight - NextKeys(abrs))
  {
    hide IsDid, Key, Apply, Beyond;
    var after, left := Apply(latest, abrs), inflight - NextKeys(abrs);
    forall k | k in left
      ensures Beyond(after, left[k])
    {
      if i :| 0 <= i < |abrs| && abrs[i].objectId == left[k].objectId {
        assert k != NextKey(abrs[i]);
        BeyondExtended(latest, abrs, i, left[k]);
      } else {
        BeyondElsewhere(latest, abrs, left[k]);
      }
    }
  }

  lemma BeyondExtended(latest: Latest, abrs: seq<AddBlockRequest>, i: nat, abr: AddBlockRequest)
    requires Extends(latest, abrs) && i < |abrs| && abrs[i].objectId == abr.objectId
    requires Beyond(latest, abr) && KeyOf(abr) != NextKey(abrs[i])
    ensures Beyond(Apply(latest, abrs), abr)
  {
    hide Apply, Key;
    AppliedAt(latest, abrs, i);
    assert Continues(latest, abrs[i]);
  }

  lemma BeyondElsewhere(latest: Latest, abrs: seq<AddBlockRequest>, abr: AddBlockRequest)
    requires DistinctObjects(abrs) && Beyond(latest, abr)
    requires forall i :: 0 <= i < |abrs| ==> abrs[i].objectId != abr.objectId
    ensures Beyond(Apply(latest, abrs), abr)
  {
    AppliedElsewhere(latest, abrs, abr.objectId);
  }

  lemma {:induction false} ApplyAddresses(address: AddBlockRequest -> Cid, latest: Latest, abrs: seq<AddBlockRequest>)
    ensures AddressOf(address, Apply(latest, abrs)) == AddressOf(address, latest) + G.ByObject(Wrapped(address, abrs))
  {
    if abrs == [] {
      assert Wrapped(address, abrs) == [];
      assert AddressOf(address, latest) + map[] == AddressOf(address, latest);
    } else {
      var init, last := abrs[..|abrs| - 1], abrs[|abrs| - 1];
      ApplyAddresses(address, latest, init);
      var ws := Wrapped(address, abrs);
      assert ws[..|ws| - 1] == Wrapped(address, init);
      AddressUpdate(address, Apply(latest, init), last);
      G.UpdateOverlay(AddressOf(address, latest), G.ByObject(Wrapped(address, init)), last.objectId, address(last));
    }
  }

  lemma AddressUpdate(address: AddBlockRequest -> Cid, latest: Latest, abr: AddBlockRequest)
    ensures AddressOf(address, latest[abr.objectId := abr]) == AddressOf(address, latest)[abr.objectId := address(abr)]
  {
  }

  lemma {:induction false} OverlayBacked(state: G.State, store: G.Store, ws: seq<AddBlockWrapper>)
    requires G.Backed(state, store)
    requires forall i :: 0 <= i < |ws| ==> ws[i].cid in store && store[ws[i].cid] == ws[i].abr
    ensures G.Backed(G.WithInflights(state, ws), store)
  {
    if ws != [] {
      OverlayBacked(state, store, ws[..|ws| - 1]);
    }
  }

  /** The committed round's state is the ledger with the new decision. */
  lemma CommittedRound(address: AddBlockRequest -> Cid, s: Signer, cp: Checkpoint)
    requires Injective(address) && Inv(address, s)
    requires s.height > 0 ==> GetRound(s, s.height - 1).Some?
    requires Admissible(s.mempool, cp.abrs)
    ensures var abrs := Lookup(s.mempool, cp.abrs);
            var state := G.WithInflights(BaseState(s), Wrapped(address, abrs));
            RoundOk(address, s.history + [Decision(cp, abrs)], s.store, s.height, Completed(cp, state, false))
  {
    hide Ledger, Apply, BaseState, G.WithInflights, G.Latest, G.Backed, Inv, Wrapped, Lookup, AddressOf;
    var abrs := Lookup(s.mempool, cp.abrs);
    var ws, base, d := Wrapped(address, abrs), BaseState(s), Decision(cp, abrs);
    BaseIsLedger(address, s);
    G.InflightsOverlay(base, ws);
    ApplyAddresses(address, Ledger(s.history), abrs);
    WrappedStored(address, s, cp.abrs);
    OverlayBacked(base, s.store, ws);
    LedgerStep(s.history, d);
    HistoryHeight(address, s);
    assert (s.history + [d])[..s.height + 1] == s.history + [d];
  }

  lemma HistoryHeight(address: AddBlockRequest -> Cid, s: Signer)
    requires Inv(address, s)
    ensures |s.history| == s.height
  {
  }

  lemma WrappedStored(address: AddBlockRequest -> Cid, s: Signer, ids: seq<Cid>)
    requires Injective(address) && Inv(address, s) && Admissible(s.mempool, ids)
    ensures var ws := Wrapped(address, Lookup(s.mempool, ids));
            forall i :: 0 <= i < |ws| ==> ws[i].cid in s.store && s.store[ws[i].cid] == ws[i].abr
  {
    hide KeyOf, Continues, IsDid, Injective;
    var ws := Wrapped(address, Lookup(s.mempool, ids));
    forall i | 0 <= i < |ws|
      ensures ws[i].cid in s.store && s.store[ws[i].cid] == ws[i].abr
    {
      assert ids[i] in s.mempool && ids[i] == address(s.mempool[ids[i]]);
      AddressKnown(address, s.store, s.mempool[ids[i]]);
    }
  }

  lemma LedgerStep(history: seq<Decision>, d: Decision)
    ensures Ledger(history + [d]) == Apply(Ledger(history), d.abrs)
  {
    assert (history + [d])[..|history|] == history;
  }

  lemma BaseIsLedger(address: AddBlockRequest -> Cid, s: Signer)
    requires Inv(address, s)
    requires s.height > 0 ==> GetRound(s, s.height - 1).Some?
    ensures G.Latest(BaseState(s)) == AddressOf(address, Ledger(s.history))
    ensures G.Backed(BaseState(s), s.store)
  {
    hide HistoryOk, Addressed, PoolOk, QueueOk, VotesOk, RoundsOk, DataOk, SignedOk, RepublishOk, CacheOk;
    if s.height > 0 {
      GetRoundIsCertified(address, s, s.height - 1);
      assert s.history[..s.height] == s.history;
    } else {
      assert s.history == [];
      assert G.Latest(G.EMPTY) == map[];
    }
  }

  /** Older rounds keep their meaning when a decision is appended. */
  lemma CertifiedStable(address: AddBlockRequest -> Cid, history: seq<Decision>, d: Decision, h: nat)
    requires h < |history|
    ensures Certified(address, history + [d], h) == Certified(address, history, h)
  {
    assert (history + [d])[..h + 1] == history[..h + 1];
  }

  lemma RecordsStable(address: AddBlockRequest -> Cid, s: Signer, d: Decision, store: G.Store)
    requires RoundsOk(address, s.history, s.store, s.rounds) && DataOk(address, s.history, s.store, s.dataStore)
    requires SignedOk(address, s.history, s.signed) && RepublishOk(address, s.history, s.republish)
    requires Addressed(s.store, address) && Addressed(store, address) && Injective(address)
    requires forall c :: c in s.store ==> c in store
    ensures RoundsOk(address, s.history + [d], store, s.rounds) && DataOk(address, s.history + [d], store, s.dataStore)
    ensures SignedOk(address, s.history + [d], s.signed) && RepublishOk(address, s.history + [d], s.republish)
  {
    hide Certified, G.Latest, Injective;
    var history := s.history + [d];
    SameContent(address, s.store, store);
    forall h | 0 <= h < |s.history|
      ensures Certified(address, history, h) == Certified(address, s.history, h)
      ensures history[h] == s.history[h]
    {
      CertifiedStable(address, s.history, d, h);
    }
    forall h | h in s.rounds
      ensures RoundOk(address, history, store, h, s.rounds[h])
    {
      assert RoundOk(address, s.history, s.store, h, s.rounds[h]);
    }
  }

  lemma HistoryStep(address: AddBlockRequest -> Cid, history: seq<Decision>, d: Decision)
    requires HistoryOk(address, history) && Extends(Ledger(history), d.abrs) && Names(address, d)
    ensures HistoryOk(address, history + [d])
  {
    hide Extends, Names, Ledger;
    assert (history + [d])[..|history|] == history;
  }

  lemma LookupNames(address: AddBlockRequest -> Cid, pool: Pool, cp: Checkpoint)
    requires Addressed(pool, address) && forall i :: 0 <= i < |cp.abrs| ==> cp.abrs[i] in pool
    ensures Names(address, Decision(cp, Lookup(pool, cp.abrs)))
  {
  }

  lemma CommitKeeps(address: AddBlockRequest -> Cid, s: Signer, cp: Checkpoint)
    requires Injective(address) && Inv(address, s)
    requires s.height > 0 ==> GetRound(s, s.height - 1).Some?
    requires Admissible(s.mempool, cp.abrs)
    ensures Inv(address, Commit(address, s, cp))
  {
    hide Ledger, Apply, GetRound, KeyOf, IsDid, Key, HistoryOk, Names, SignedOk, RepublishOk, DataOk, Promote,
         Remaining, RoundOk, Extends, G.WithInflights;
    var latest, abrs := Ledger(s.history), Lookup(s.mempool, cp.abrs);
    var after, d := Apply(latest, abrs), Decision(cp, abrs);
    var s1, s' := Promote(address, s, abrs), Commit(address, s, cp);
    LookupExtends(address, latest, s.store, s.mempool, cp.abrs);
    forall i | 0 <= i < |abrs|
      ensures IsDid(abrs[i].objectId) && abrs[i].objectId in after && after[abrs[i].objectId] == abrs[i]
    {
      assert abrs[i] == s.mempool[cp.abrs[i]];
      AppliedAtExtended(latest, abrs, i);
    }
    PromoteAll(address, latest, after, s, abrs);
    PoolAfterCommit(address, s, cp.abrs, s1);
    QueueAfterCommit(latest, s.inflight, abrs);
    LedgerStep(s.history, d);
    LookupNames(address, s.mempool, cp);
    HistoryStep(address, s.history, d);
    RecordsStable(address, s, d, s1.store);
    CommittedRound(address, s, cp);
    RoundInLargerStore(address, s'.history, s.store, s1.store, s.height, s'.rounds[s.height]);
  }

  lemma AppliedAtExtended(latest: Latest, abrs: seq<AddBlockRequest>, i: nat)
    requires Extends(latest, abrs) && i < |abrs|
    ensures abrs[i].objectId in Apply(latest, abrs) && Apply(latest, abrs)[abrs[i].objectId] == abrs[i]
  {
    AppliedAt(latest, abrs, i);
  }

  lemma RoundInLargerStore(address: AddBlockRequest -> Cid, history: seq<Decision>, store: G.Store, more: G.Store,
                           h: nat, r: Completed)
    requires RoundOk(address, history, store, h, r)
    requires Addressed(store, address) && Addressed(more, address) && Injective(address)
    requires forall c :: c in store ==> c in more
    ensures RoundOk(address, history, more, h, r)
  {
    hide Certified, G.Latest, Injective;
    SameContent(address, store, more);
  }

  // ---------------------------------------------------------------- flushing and publishing

  lemma FlushKeeps(address: AddBlockRequest -> Cid, s: Signer, h: nat, objectId: string)
    requires Inv(address, s) && h in s.rounds
    ensures Inv(address, s.(rounds := s.rounds[h := s.rounds[h].(state := G.FlushOne(s.rounds[h].state, objectId))]))
  {
    hide Ledger, HistoryOk, Certified, PoolOk, QueueOk, VotesOk, DataOk, SignedOk, RepublishOk, Addressed, G.Latest;
    var r := s.rounds[h];
    assert RoundOk(address, s.history, s.store, h, r);
    G.FlushOneKeepsLatest(r.state, objectId);
    assert RoundOk(address, s.history, s.store, h, r.(state := G.FlushOne(r.state, objectId)));
  }

  /** A flushed round publishes exactly the round its decision leads to. */
  lemma FlushedIsCertified(address: AddBlockRequest -> Cid, s: Signer, h: nat)
    requires Inv(address, s) && h in s.rounds && s.rounds[h].state.inflight == map[]
    ensures h < |s.history|
    ensures Round(h, s.rounds[h].state.hamt, s.rounds[h].checkpoint) == Certified(address, s.history, h)
    ensures forall o :: o in s.rounds[h].state.hamt ==> s.rounds[h].state.hamt[o] in s.store
  {
    hide HistoryOk, Ledger, AddressOf, Addressed, PoolOk, QueueOk, VotesOk, DataOk, SignedOk, RepublishOk, CacheOk;
    assert RoundOk(address, s.history, s.store, h, s.rounds[h]);
    assert G.Cids(map[]) == map[];
    assert G.Latest(s.rounds[h].state) == s.rounds[h].state.hamt;
  }

  lemma PublishKeeps(address: AddBlockRequest -> Cid, s: Signer, h: nat)
    requires Inv(address, s) && h in s.rounds && s.rounds[h].state.inflight == map[]
    ensures Inv(address, Publish(s, h))
  {
    hide Ledger, HistoryOk, Certified, PoolOk, QueueOk, VotesOk, Addressed, RoundOk, RoundsOk, DataOk, SignedOk,
         RepublishOk, CacheOk;
    FlushedIsCertified(address, s, h);
    PublishRounds(address, s.history, s.store, s.rounds, h);
    PublishRecords(address, s, h, Round(h, s.rounds[h].state.hamt, s.rounds[h].checkpoint));
  }

  lemma PublishRounds(address: AddBlockRequest -> Cid, history: seq<Decision>, store: G.Store, rounds: map<nat,
                      Completed>, h: nat)
    requires RoundsOk(address, history, store, rounds) && h in rounds && rounds[h].state.inflight == map[]
    ensures RoundsOk(address, history, store, rounds[h := rounds[h].(published := true)])
  {
    hide Certified, G.Latest, G.Backed;
    assert RoundOk(address, history, store, h, rounds[h]);
    assert RoundOk(address, history, store, h, rounds[h].(published := true));
  }

  lemma PublishRecords(address: AddBlockRequest -> Cid, s: Signer, h: nat, r: Round)
    requires DataOk(address, s.history, s.store, s.dataStore) && SignedOk(address, s.history, s.signed)
    requires RepublishOk(address, s.history, s.republish) && CacheOk(s.height, s.cache, s.rounds, s.dataStore)
    requires h < |s.history| && r == Certified(address, s.history, h)
    requires forall o :: o in r.state ==> r.state[o] in s.store
    requires h in s.rounds
    ensures DataOk(address, s.history, s.store, s.dataStore[h := r])
    ensures SignedOk(address, s.history, s.signed + {r})
    ensures RepublishOk(address, s.history, s.republish[h := r])
    ensures CacheOk(s.height, s.cache, s.rounds[h := s.rounds[h].(published := true)], s.dataStore[h := r])
  {
    hide DataOk, SignedOk, RepublishOk, Certified;
    RecordData(address, s.history, s.store, s.dataStore, h, r);
    RecordSigned(address, s.history, s.signed, h, r);
    RecordRepublish(address, s.history, s.republish, h, r);
  }

  lemma RecordData(address: AddBlockRequest -> Cid, history: seq<Decision>, store: G.Store, data: map<nat, Round>,
                   h: nat, r: Round)
    requires DataOk(address, history, store, data) && h < |history| && r == Certified(address, history, h)
    requires forall o :: o in r.state ==> r.state[o] in store
    ensures DataOk(address, history, store, data[h := r])
  {
    hide Certified;
  }

  lemma RecordSigned(address: AddBlockRequest -> Cid, history: seq<Decision>, signed: set<Round>, h: nat, r: Round)
    requires SignedOk(address, history, signed) && h < |history| && r == Certified(address, history, h)
    ensures SignedOk(address, history, signed + {r})
  {
    hide Ledger, AddressOf;
  }

  lemma RecordRepublish(address: AddBlockRequest -> Cid, history: seq<Decision>, republish: map<nat, Round>, h: nat,
                        r: Round)
    requires RepublishOk(address, history, republish) && h < |history| && r == Certified(address, history, h)
    ensures RepublishOk(address, history, republish[h := r])
  {
    hide Certified;
  }

  lemma RepublishKeeps(address: AddBlockRequest -> Cid, s: Signer, h: nat)
    requires Inv(address, s) && CanRepublish(s, h)
    ensures Inv(address, if h in s.republish then s.(signed := s.signed + {s.republish[h]}) else Publish(s, h))
  {
    hide Ledger, HistoryOk, PoolOk, QueueOk, VotesOk, DataOk, Addressed, Publish, AddressOf;
    if h !in s.republish {
      assert RoundOk(address, s.history, s.store, h, s.rounds[h]);
      PublishKeeps(address, s, h);
    } else {
      assert s.republish[h].height == h;
    }
  }

  lemma EvictKeeps(address: AddBlockRequest -> Cid, s: Signer, key: string, h: nat)
    requires Inv(address, s)
    ensures Inv(address, s.(inflight := s.inflight - {key}))
    ensures Inv(address, s.(cache := s.cache - {h}))
    ensures Inv(address, s.(republish := s.republish - {h}))
  {
    hide Ledger, HistoryOk, Certified, Beyond, KeyOf, IsDid, RoundOk, DataOk, SignedOk;
  }

  // ---------------------------------------------------------------- restarts

  lemma {:induction false} HistoryPrefix(address: AddBlockRequest -> Cid, history: seq<Decision>, n: nat)
    requires HistoryOk(address, history) && n <= |history|
    ensures HistoryOk(address, history[..n])
  {
    hide Names, Extends, Ledger;
    if n == |history| {
      assert history[..n] == history;
    } else {
      var init := history[..|history| - 1];
      HistoryPrefix(address, init, n);
      assert init[..n] == history[..n];
    }
  }

  lemma CertifiedPrefix(address: AddBlockRequest -> Cid, history: seq<Decision>, n: nat, h: nat)
    requires h < n <= |history|
    ensures Certified(address, history[..n], h) == Certified(address, history, h)
  {
    assert history[..n][..h + 1] == history[..h + 1];
  }

  /** Signed and stored rounds still follow from the history that is left. */
  lemma RecordsPrefix(address: AddBlockRequest -> Cid, s: Signer, n: nat)
    requires DataOk(address, s.history, s.store, s.dataStore) && SignedOk(address, s.history, s.signed)
    requires RecordsOk(s.lastCompleted, s.dataStore, s.signed) && n <= |s.history|
    requires forall r :: r in s.signed ==> r.height < n
    ensures DataOk(address, s.history[..n], s.store, s.dataStore) && SignedOk(address, s.history[..n], s.signed)
  {
    hide Ledger, AddressOf;
    forall r | r in s.signed
      ensures r == Certified(address, s.history[..n], r.height)
    {
      CertifiedPrefix(address, s.history, n, r.height);
    }
    forall h | h in s.dataStore
      ensures h < n && s.dataStore[h] == Certified(address, s.history[..n], h)
    {
      assert s.dataStore[h] in s.signed && s.dataStore[h].height == h;
    }
  }

  lemma ResumeKeeps(address: AddBlockRequest -> Cid, s: Signer)
    requires Inv(address, s) && CanResume(s)
    ensures Inv(address, Resume(s))
  {
    hide HistoryOk, Ledger, Certified, SignedOk, AddressOf;
    var n := Resume(s).height;
    assert n <= |s.history|;
    HistoryPrefix(address, s.history, n);
    RecordsPrefix(address, s, n);
  }

  /** Resuming is safe exactly if no round beyond the one recorded last was signed. */
  lemma ResumeKeepsExactly(address: AddBlockRequest -> Cid, s: Signer)
    requires Injective(address) && Reachable(address, s)
    ensures Inv(address, Resume(s)) <==> CanResume(s)
  {
    hide HistoryOk, Ledger, Certified, Addressed, AddressOf, PoolOk, QueueOk, VotesOk, DataOk, RoundsOk, RepublishOk;
    ReachableInv(address, s);
    if CanResume(s) {
      ResumeKeeps(address, s);
    }
  }

  // ---------------------------------------------------------------- every run

  lemma NextKeeps(address: AddBlockRequest -> Cid, s: Signer, e: Event, s': Signer)
    requires Injective(address) && Inv(address, s) && Next(address, s, e, s')
    ensures Inv(address, s')
  {
    hide Inv, IsDid, Arrive, Touch, ReadPrevious, Start, Commit, Publish, Resume, GetRound, Tallied;
    match e
    case ArriveEvent(abr) => ArriveKeeps(address, s, abr);
    case EvictInflight(key) => EvictKeeps(address, s, key, 0);
    case StartEvent(preferred) => StartKeeps(address, s, preferred);
    case Poll(answers, votes) => PollKeeps(address, s, answers, votes);
    case CommitEvent(cp) =>
      DecidedAdmissible(address, s);
      ReadPreviousKeeps(address, s);
      CommitKeeps(address, ReadPrevious(s), cp);
    case Flush(h, objectId) => FlushKeeps(address, s, h, objectId);
    case PublishEvent(h) => PublishKeeps(address, s, h);
    case Republish(h) => RepublishKeeps(address, s, h);
    case LookupRound(h) => TouchKeeps(address, s, h);
    case EvictRound(h) => EvictKeeps(address, s, "", h);
    case EvictRepublish(h) => EvictKeeps(address, s, "", h);
    case RestartEvent => ResumeKeeps(address, s);
  }

  lemma DecidedAdmissible(address: AddBlockRequest -> Cid, s: Signer)
    requires Inv(address, s) && s.snowball.decided
    ensures s.snowball.preferred.Some? && s.snowball.preferred.value.checkpoint.Some?
    ensures Admissible(s.mempool, s.snowball.preferred.value.checkpoint.value.abrs)
  {
  }

  lemma InitInv(address: AddBlockRequest -> Cid)
    ensures Inv(address, Init())
  {
  }

  lemma {:induction false} RunKeeps(address: AddBlockRequest -> Cid, states: seq<Signer>, events: seq<Event>, n: nat)
    requires Injective(address) && IsRun(address, states, events) && n < |states|
    ensures Inv(address, states[n])
  {
    if n == 0 {
      InitInv(address);
    } else {
      RunKeeps(address, states, events, n - 1);
      NextKeeps(address, states[n - 1], events[n - 1], states[n]);
    }
  }

  lemma ReachableInv(address: AddBlockRequest -> Cid, s: Signer)
    requires Injective(address) && Reachable(address, s)
    ensures Inv(address, s)
  {
    hide Inv, Next;
    var states, events :| IsRun(address, states, events) && states[|states| - 1] == s;
    RunKeeps(address, states, events, |states| - 1);
  }

  // ---------------------------------------------------------------- the theorems

  /**
   No chain tree forks: in every state a signer can reach, over any arrivals, evictions,
   answers and flush timings, the requests it committed for an object form one gapless
   chain; the mempool only holds requests that continue such a chain on its tip, and
   the queue only requests further on.
   */
  lemma ChainsNeverFork(address: AddBlockRequest -> Cid, s: Signer, objectId: string)
    requires Injective(address) && Reachable(address, s)
    ensures var chain := Chain(s.history, objectId);
            && Gapless(chain)
            && (forall c :: c in s.mempool && s.mempool[c].objectId == objectId ==>
                  && s.mempool[c].height == |chain|
                  && (chain != [] ==> s.mempool[c].previousTip == chain[|chain| - 1].newTip))
            && (forall k :: k in s.inflight && s.inflight[k].objectId == objectId ==>
                  s.inflight[k].height > |chain| || |chain| == TWO_64)
    ensures forall k: nat, i: nat, l: nat, j: nat ::
              && k < |s.history| && i < |s.history[k].abrs|
              && l < |s.history| && j < |s.history[l].abrs|
              && s.history[k].abrs[i].objectId == s.history[l].abrs[j].objectId
              && s.history[k].abrs[i].height == s.history[l].abrs[j].height
              ==> s.history[k].abrs[i] == s.history[l].abrs[j]
  {
    ReachableInv(address, s);
    ChainsAreGapless(s.history, objectId);
    forall k: nat, i: nat, l: nat, j: nat |
        && k < |s.history| && i < |s.history[k].abrs|
        && l < |s.history| && j < |s.history[l].abrs|
        && s.history[k].abrs[i].objectId == s.history[l].abrs[j].objectId
        && s.history[k].abrs[i].height == s.history[l].abrs[j].height
      ensures s.history[k].abrs[i] == s.history[l].abrs[j]
    {
      NoFork(s.history, k, i, l, j);
    }
  }

  /**
   When Snowball decides, every request of the decided checkpoint is still in the
   mempool and no object occurs twice, so the commit loop finds what it looks up.
   */
  lemma DecidedRequestsAreHeld(address: AddBlockRequest -> Cid, s: Signer)
    requires Injective(address) && Reachable(address, s) && s.snowball.decided
    ensures s.snowball.preferred.Some? && s.snowball.preferred.value.checkpoint.Some?
    ensures var ids := s.snowball.preferred.value.checkpoint.value.abrs;
            && (forall i :: 0 <= i < |ids| ==> ids[i] in s.mempool)
            && (forall i, j :: 0 <= i < j < |ids| ==> s.mempool[ids[i]].objectId != s.mempool[ids[j]].objectId)
  {
    ReachableInv(address, s);
    DecidedAdmissible(address, s);
    var ids := s.snowball.preferred.value.checkpoint.value.abrs;
    LookupExtends(address, Ledger(s.history), s.store, s.mempool, ids);
    var abrs := Lookup(s.mempool, ids);
    forall i, j | 0 <= i < j < |ids|
      ensures s.mempool[ids[i]].objectId != s.mempool[ids[j]].objectId
    {
      assert abrs[i].objectId != abrs[j].objectId;
    }
  }

  /** A signer never signs two rounds of one height, republishing and restarts included. */
  lemma OneRoundPerHeight(address: AddBlockRequest -> Cid, s: Signer, r: Round, r': Round)
    requires Injective(address) && Reachable(address, s)
    requires r in s.signed && r' in s.signed && r.height == r'.height
    ensures r == r'
  {
    ReachableInv(address, s);
  }

  /**
   The HAMT a signer publishes for a height is the fold of all decisions up to it,
   whatever was flushed when and whichever copy the round started from.
   */
  lemma PublishedStateIsFold(address: AddBlockRequest -> Cid, s: Signer, r: Round)
    requires Injective(address) && Reachable(address, s)
    requires r in s.signed
    ensures r.height < |s.history|
    ensures r.state == AddressOf(address, Ledger(s.history[..r.height + 1]))
    ensures r.checkpoint == s.history[r.height].checkpoint
  {
    ReachableInv(address, s);
  }

  /**
   A persisted round reads the same from the cache and rebuilt after an eviction: same
   height, same checkpoint, and the same answer for every object.
   */
  lemma RestoredRoundLooksLive(address: AddBlockRequest -> Cid, s: Signer, h: nat, objectId: string)
    requires Injective(address) && Reachable(address, s)
    requires h in s.dataStore && h in s.rounds
    ensures var live, restored := RoundView(h, s.rounds[h].checkpoint, s.rounds[h].state), Restore(s.dataStore[h]);
            && live.height == restored.height
            && live.checkpoint == restored.checkpoint
            && G.Answer(live.state, s.store, objectId) == G.Answer(restored.state, s.store, objectId)
  {
    hide Injective, Reachable, Ledger, HistoryOk, G.Answer, PoolOk, QueueOk, VotesOk, SignedOk, RepublishOk, CacheOk;
    ReachableInv(address, s);
    assert RoundOk(address, s.history, s.store, h, s.rounds[h]);
    var latest := Ledger(s.history[..h + 1]);
    var restored := Restore(s.dataStore[h]).state;
    RestoredLatest(s.dataStore[h].state);
    AnswerFromCertified(address, s.rounds[h].state, s.store, latest, objectId);
    AnswerFromCertified(address, restored, s.store, latest, objectId);
  }

  lemma RestoredLatest(hamt: map<string, Cid>)
    ensures G.Latest(G.State(hamt, map[])) == hamt
  {
    assert G.Cids(map[]) == map[];
  }

  /**
   The round before the current one is missing exactly when it was evicted before its
   background process stored it; only then is an arriving request dropped unread.
   */
  lemma PreviousRoundMissing(address: AddBlockRequest -> Cid, s: Signer, objectId: string)
    requires Injective(address) && Reachable(address, s) && s.height > 0
    ensures GetCurrent(s, objectId).Err? <==> s.height - 1 !in s.cache && s.height - 1 !in s.dataStore
  {
    ReachableInv(address, s);
    CurrentIsChainEnd(address, s, objectId);
  }
}
