/**
 What each step of a signer does, said about chains, queues and proposals rather than about
 the code: which requests an arrival lets in, what a round votes on, what a commit leaves
 behind, and what a restart finds.
 */
module SignerEffects {
  import opened Wire
  import opened Keys
  import opened VoteModel
  import opened MempoolModel
  import opened History
  import opened SignerModel
  import opened SignerInvariant
  import S = SnowballModel
  import G = StateModel

  // ---------------------------------------------------------------- arrivals

  /** The request comes next in the chain: at the next height, on the last tip. */
  ghost predicate IsNext(chain: seq<AddBlockRequest>, abr: AddBlockRequest) {
    abr.height == |chain| && (chain != [] ==> abr.previousTip == chain[|chain| - 1].newTip)
  }

  /** The request lies beyond the next height; a full chain lets in a rival of its last request. */
  ghost predicate IsLater(chain: seq<AddBlockRequest>, abr: AddBlockRequest) {
    abr.height > |chain| || (abr.height == MAX_UINT64 && |chain| == TWO_64)
  }

  lemma ChainEnd(address: AddBlockRequest -> Cid, s: Signer, objectId: string)
    requires Inv(address, s)
    ensures ChainOf(Chain(s.history, objectId), Ledger(s.history), objectId)
    ensures var chain := Chain(s.history, objectId); chain != [] ==> chain[|chain| - 1].height == |chain| - 1
  {
    hide Ledger, Chain, Addressed, PoolOk, QueueOk, VotesOk, RoundsOk, DataOk, SignedOk, RepublishOk, CacheOk;
    ChainsAreGapless(s.history, objectId);
  }

  lemma ContinuesExactly(address: AddBlockRequest -> Cid, s: Signer, abr: AddBlockRequest)
    requires Inv(address, s)
    ensures Continues(Ledger(s.history), abr) <==> IsNext(Chain(s.history, abr.objectId), abr)
    ensures Beyond(Ledger(s.history), abr) <==> IsLater(Chain(s.history, abr.objectId), abr)
  {
    hide Inv, Ledger, Chain;
    ChainEnd(address, s, abr.objectId);
  }

  /** handleAddBlockRequest by the ledger: what the comparison with the current request amounts to. */
  lemma JudgedExactly(address: AddBlockRequest -> Cid, s: Signer, latest: Latest, abr: AddBlockRequest)
    ensures var current := if abr.objectId in latest then Some(latest[abr.objectId]) else None;
            Judge(address, s, current, abr) ==
            if Continues(latest, abr) then
              s.(mempool := s.mempool[address(abr) := abr], store := s.store[address(abr) := abr])
            else if Beyond(latest, abr) then s.(inflight := s.inflight[KeyOf(abr) := abr])
            else s
  {
    hide KeyOf;
  }

  /**
   An arriving request is let in exactly if it comes next in its object's chain, queued exactly
   if it lies beyond, and changes nothing else; nothing is let in while the previous round
   cannot be found.
   */
  lemma ArrivalExactly(address: AddBlockRequest -> Cid, s: Signer, abr: AddBlockRequest)
    requires Injective(address) && Inv(address, s) && IsDid(abr.objectId)
    ensures var chain, s' := Chain(s.history, abr.objectId), Arrive(address, s, abr);
            var found := GetCurrent(s, abr.objectId).Ok?;
            && s'.mempool == (if found && IsNext(chain, abr) then s.mempool[address(abr) := abr] else s.mempool)
            && s'.store == (if found && IsNext(chain, abr) then s.store[address(abr) := abr] else s.store)
            && s'.inflight == (if found && IsLater(chain, abr) then s.inflight[KeyOf(abr) := abr] else s.inflight)
            && s' == s.(mempool := s'.mempool, store := s'.store, inflight := s'.inflight, cache := s'.cache)
  {
    hide Inv, Judge, ReadPrevious, GetCurrent, IsDid, Ledger, Chain, KeyOf, Continues, Beyond, IsNext, IsLater;
    ReadPreviousKeeps(address, s);
    CurrentIsChainEnd(address, s, abr.objectId);
    ContinuesExactly(address, s, abr);
    JudgedExactly(address, ReadPrevious(s), Ledger(s.history), abr);
    NextOrLater(Chain(s.history, abr.objectId), abr);
  }

  lemma NextOrLater(chain: seq<AddBlockRequest>, abr: AddBlockRequest)
    ensures !(IsNext(chain, abr) && IsLater(chain, abr))
  {
  }

  // ---------------------------------------------------------------- voting

  /** Requests in the mempool share a key exactly if they are of one object. */
  lemma KeyIsObject(address: AddBlockRequest -> Cid, s: Signer, c: Cid, d: Cid)
    requires Inv(address, s) && c in s.mempool && d in s.mempool
    ensures KeyOf(s.mempool[c]) == KeyOf(s.mempool[d]) <==> s.mempool[c].objectId == s.mempool[d].objectId
  {
    hide Ledger, Key, IsDid, HistoryOk, QueueOk, VotesOk, RoundsOk, DataOk, SignedOk, RepublishOk, CacheOk, Addressed;
    var a, b := s.mempool[c], s.mempool[d];
    assert Continues(Ledger(s.history), a) && Continues(Ledger(s.history), b);
    KeyMeansObjectAndHeight(a.objectId, a.height, b.objectId, b.height);
  }

  /** All requests are held, and no two are of one object. */
  ghost predicate Votable(s: Signer, ids: seq<Cid>) {
    && (forall i :: 0 <= i < |ids| ==> ids[i] in s.mempool)
    && forall i, j :: 0 <= i < j < |ids| ==> s.mempool[ids[i]].objectId != s.mempool[ids[j]].objectId
  }

  lemma AdmissibleExactly(address: AddBlockRequest -> Cid, s: Signer, ids: seq<Cid>)
    requires Inv(address, s)
    ensures Admissible(s.mempool, ids) <==> Votable(s, ids)
  {
    hide Inv, KeyOf;
    forall i, j | 0 <= i < j < |ids| && ids[i] in s.mempool && ids[j] in s.mempool
      ensures KeyOf(s.mempool[ids[i]]) == KeyOf(s.mempool[ids[j]]) <==>
              s.mempool[ids[i]].objectId == s.mempool[ids[j]].objectId
    {
      KeyIsObject(address, s, ids[i], ids[j]);
    }
  }

  /** An answer counts as itself exactly if it lists requests, all held and no two of one object, and else as empty. */
  lemma FilteredExactly(address: AddBlockRequest -> Cid, s: Signer, answer: Option<Checkpoint>)
    requires Inv(address, s)
    ensures Filter(s.mempool, answer) ==
            Vote(if answer.Some? && answer.value.abrs != [] && Votable(s, answer.value.abrs) then answer else None, 0.0)
  {
    hide Inv, Admissible, Votable;
    if answer.Some? {
      AdmissibleExactly(address, s, answer.value.abrs);
    }
  }

  /** Some id of a set that none is less than. */
  lemma LeastOf(ids: set<Cid>) returns (m: Cid)
    requires ids != {}
    ensures m in ids && forall d :: d in ids ==> !Less(d, m)
    decreases |ids|
  {
    hide Less;
    m :| m in ids;
    LessTotal(m, m);
    if ids != {m} {
      var x := m;
      assert ids == (ids - {x}) + {x};
      m := LeastOf(ids - {x});
      if Less(x, m) {
        forall d | d in ids
          ensures !Less(d, x)
        {
          if Less(d, x) {
            LessTotal(x, x);
            LessTransitive(d, x, m);
          }
        }
        m := x;
      } else {
        assert !Less(x, m);
      }
    }
  }

  lemma PreferredForEach(pool: Pool, c: Cid) returns (p: Cid)
    requires c in pool
    ensures p in PreferredSet(pool) && KeyOf(pool[p]) == KeyOf(pool[c]) && !Less(c, p)
  {
    hide Less, KeyOf;
    var rivals := set d | d in pool && KeyOf(pool[d]) == KeyOf(pool[c]);
    assert c in rivals;
    p := LeastOf(rivals);
    assert forall d :: d in pool && KeyOf(pool[d]) == KeyOf(pool[p]) ==> d in rivals;
  }

  /** The proposal has a request of the object of `c`, and none that `c` is less than. */
  ghost predicate Represented(s: Signer, preferred: seq<Cid>, c: Cid)
    requires c in s.mempool
  {
    exists p :: p in preferred && p in s.mempool && s.mempool[p].objectId == s.mempool[c].objectId && !Less(c, p)
  }

  lemma ProposalRepresents(address: AddBlockRequest -> Cid, s: Signer, preferred: seq<Cid>, c: Cid)
    requires Inv(address, s) && Enumerates(preferred, PreferredSet(s.mempool)) && c in s.mempool
    ensures Represented(s, preferred, c) && preferred != []
  {
    hide Inv, KeyOf, Less, PreferredSet;
    PreferredAreHeld(s.mempool);
    var p := PreferredForEach(s.mempool, c);
    KeyIsObject(address, s, p, c);
    assert p in preferred;
  }

  lemma NothingToPropose(preferred: seq<Cid>)
    requires Enumerates(preferred, PreferredSet(map[]))
    ensures preferred == []
  {
    HasElement(preferred);
  }

  lemma HasElement(ids: seq<Cid>)
    ensures ids != [] ==> exists c :: c in ids
  {
    if ids != [] {
      assert ids[0] in ids;
    }
  }

  /**
   A started round proposes, at its own height, for every object that has requests the one
   with the least CID; it proposes nothing if there is none.
   */
  lemma StartExactly(address: AddBlockRequest -> Cid, s: Signer, preferred: seq<Cid>)
    requires Inv(address, s) && Enumerates(preferred, PreferredSet(s.mempool))
    ensures var s' := Start(s, preferred);
            && s' == s.(started := true, snowball := s'.snowball)
            && (s.mempool == map[] ==> s'.snowball == s.snowball)
            && (s.mempool != map[] ==>
                  s'.snowball.preferred == Some(Vote(Some(Checkpoint(s.height, preferred)), 0.0)))
    ensures Votable(s, preferred)
    ensures forall c :: c in s.mempool ==> Represented(s, preferred, c)
  {
    hide Inv, PreferredSet, Votable, Admissible, Enumerates, Represented;
    PreferredAdmissible(s.mempool, preferred);
    AdmissibleExactly(address, s, preferred);
    forall c | c in s.mempool
      ensures Represented(s, preferred, c) && preferred != []
    {
      ProposalRepresents(address, s, preferred, c);
    }
    if s.mempool == map[] {
      NothingToPropose(preferred);
    } else {
      var c :| c in s.mempool;
      assert Represented(s, preferred, c);
    }
  }

  lemma PreferredAreHeld(pool: Pool)
    ensures PreferredSet(pool) <= pool.Keys
  {
  }

  // ---------------------------------------------------------------- commit

  /** `next` continues the chain that `abr` has just extended. */
  ghost predicate Succeeds(next: AddBlockRequest, abr: AddBlockRequest) {
    next.objectId == abr.objectId && next.height == abr.height + 1 && next.previousTip == abr.newTip
  }

  /** `c` is queued and succeeds one of `abrs`. */
  ghost predicate Released(address: AddBlockRequest -> Cid, inflight: map<string, AddBlockRequest>,
                           abrs: seq<AddBlockRequest>, c: Cid) {
    exists k, i :: k in inflight && 0 <= i < |abrs| && Succeeds(inflight[k], abrs[i]) && c == address(inflight[k])
  }

  /** The queue holds a request at the height after `abr` exactly under the key looked up. */
  lemma QueuedAt(latest: Latest, inflight: map<string, AddBlockRequest>, abr: AddBlockRequest, k: string)
    requires QueueOk(latest, inflight) && IsDid(abr.objectId) && k in inflight
    ensures k == NextKey(abr) <==> inflight[k].objectId == abr.objectId && inflight[k].height == abr.height + 1
  {
    hide Key;
    if k == NextKey(abr) {
      QueuedBehind(latest, inflight, abr);
    }
  }

  lemma NextKeysDiffer(abrs: seq<AddBlockRequest>, abr: AddBlockRequest)
    requires IsDid(abr.objectId)
    requires forall i :: 0 <= i < |abrs| ==> IsDid(abrs[i].objectId) && abrs[i].objectId != abr.objectId
    ensures NextKey(abr) !in NextKeys(abrs)
  {
    hide Key;
    forall i | 0 <= i < |abrs|
      ensures NextKey(abr) != NextKey(abrs[i])
    {
      KeyMeansObjectAndHeight(abr.objectId, Add64(abr.height, 1), abrs[i].objectId, Add64(abrs[i].height, 1));
    }
  }

  /** One more decided request releases what succeeds it. */
  lemma ReleasedNext(address: AddBlockRequest -> Cid, latest: Latest, inflight: map<string, AddBlockRequest>,
                     abrs: seq<AddBlockRequest>, abr: AddBlockRequest, c: Cid)
    requires QueueOk(latest, inflight) && IsDid(abr.objectId)
    ensures Released(address, inflight, abrs + [abr], c) <==>
            || Released(address, inflight, abrs, c)
            || (NextKey(abr) in inflight && inflight[NextKey(abr)].previousTip == abr.newTip
                && c == address(inflight[NextKey(abr)]))
  {
    hide NextKey, IsDid;
    var more := abrs + [abr];
    if NextKey(abr) in inflight && inflight[NextKey(abr)].previousTip == abr.newTip
       && c == address(inflight[NextKey(abr)]) {
      QueuedAt(latest, inflight, abr, NextKey(abr));
      assert Succeeds(inflight[NextKey(abr)], more[|abrs|]);
    }
    if Released(address, inflight, abrs, c) {
      var k, i :| k in inflight && 0 <= i < |abrs| && Succeeds(inflight[k], abrs[i]) && c == address(inflight[k]);
      assert more[i] == abrs[i];
    }
    if Released(address, inflight, more, c) {
      var k, i :| k in inflight && 0 <= i < |more| && Succeeds(inflight[k], more[i]) && c == address(inflight[k]);
      if i < |abrs| {
        assert more[i] == abrs[i];
      } else {
        QueuedAt(latest, inflight, abr, k);
      }
    }
  }

  /** The commit loop adds exactly what it releases, to store and mempool, and takes the next heights off the queue. */
  lemma {:induction false} PromoteExactly(address: AddBlockRequest -> Cid, latest: Latest, s: Signer,
                                          abrs: seq<AddBlockRequest>, c: Cid)
    requires QueueOk(latest, s.inflight) && DistinctObjects(abrs)
    requires forall i :: 0 <= i < |abrs| ==> IsDid(abrs[i].objectId)
    ensures var s' := Promote(address, s, abrs);
            && (c in s'.mempool <==> c in s.mempool || Released(address, s.inflight, abrs, c))
            && (c in s'.store <==> c in s.store || Released(address, s.inflight, abrs, c))
            && s'.inflight == s.inflight - NextKeys(abrs)
  {
    hide IsDid, Key, NextKey, Released, QueueOk;
    if abrs == [] {
      assert s.inflight - NextKeys(abrs) == s.inflight;
      assert !Released(address, s.inflight, abrs, c) by { NoneReleased(address, s.inflight, c); }
    } else {
      var init, abr := abrs[..|abrs| - 1], abrs[|abrs| - 1];
      assert init + [abr] == abrs;
      PromoteExactly(address, latest, s, init, c);
      NextKeysDiffer(init, abr);
      NextKeysStep(init, abr);
      ReleasedNext(address, latest, s.inflight, init, abr, c);
      ReleaseStep(address, Promote(address, s, init), abr, c);
      assert s.inflight - NextKeys(init) - {NextKey(abr)} == s.inflight - NextKeys(abrs);
    }
  }

  lemma NoneReleased(address: AddBlockRequest -> Cid, inflight: map<string, AddBlockRequest>, c: Cid)
    ensures !Released(address, inflight, [], c)
  {
  }

  lemma ReleaseStep(address: AddBlockRequest -> Cid, s: Signer, abr: AddBlockRequest, c: Cid)
    ensures var s', key := Release(address, s, abr), NextKey(abr);
            var released := key in s.inflight && s.inflight[key].previousTip == abr.newTip
                            && c == address(s.inflight[key]);
            && (c in s'.mempool <==> c in s.mempool || released)
            && (c in s'.store <==> c in s.store || released)
            && s'.inflight == s.inflight - {key}
  {
    hide Key;
  }

  lemma DecidedFacts(address: AddBlockRequest -> Cid, s: Signer, ids: seq<Cid>)
    requires Inv(address, s) && Admissible(s.mempool, ids)
    ensures var abrs := Lookup(s.mempool, ids);
            && DistinctObjects(abrs) && Extends(Ledger(s.history), abrs)
            && (forall i :: 0 <= i < |abrs| ==> IsDid(abrs[i].objectId))
            && QueueOk(Ledger(s.history), s.inflight)
  {
    hide Ledger, IsDid, KeyOf, HistoryOk, VotesOk, RoundsOk, DataOk, SignedOk, RepublishOk, CacheOk, Addressed,
         QueueOk, Continues;
    LookupExtends(address, Ledger(s.history), s.store, s.mempool, ids);
  }

  /** A released request is of another height than anything decided, so deleting the decided ones spares it. */
  lemma ReleasedStays(address: AddBlockRequest -> Cid, s: Signer, ids: seq<Cid>, pool: Pool, c: Cid)
    requires Injective(address) && Inv(address, s) && Admissible(s.mempool, ids)
    requires Addressed(pool, address) && c in pool
    requires forall i :: 0 <= i < |ids| ==> ids[i] in pool && pool[ids[i]] == s.mempool[ids[i]]
    requires Released(address, s.inflight, Lookup(s.mempool, ids), c)
    ensures c in Remaining(pool, ids)
  {
    hide Inv, Key, IsDid, Extends, Ledger, Injective;
    var abrs := Lookup(s.mempool, ids);
    DecidedFacts(address, s, ids);
    var k, n :| k in s.inflight && 0 <= n < |abrs| && Succeeds(s.inflight[k], abrs[n]) && c == address(s.inflight[k]);
    SameRequestAt(address, pool, c, s.inflight[k]);
    forall i | 0 <= i < |ids|
      ensures !Conflicts(pool, ids[i], c)
    {
      assert abrs[i] == pool[ids[i]];
      KeyMeansObjectAndHeight(abrs[i].objectId, abrs[i].height, pool[c].objectId, pool[c].height);
    }
  }

  lemma SameRequestAt(address: AddBlockRequest -> Cid, pool: Pool, c: Cid, abr: AddBlockRequest)
    requires Injective(address) && Addressed(pool, address) && c in pool && c == address(abr)
    ensures pool[c] == abr
  {
  }

  /** Of the requests held before, exactly those of other objects are left. */
  lemma HeldStays(address: AddBlockRequest -> Cid, s: Signer, ids: seq<Cid>, pool: Pool, c: Cid)
    requires Inv(address, s) && Admissible(s.mempool, ids)
    requires forall d :: d in s.mempool ==> d in pool && pool[d] == s.mempool[d]
    requires c in s.mempool
    ensures c in Remaining(pool, ids) <==>
            forall i :: 0 <= i < |ids| ==> s.mempool[ids[i]].objectId != s.mempool[c].objectId
  {
    hide Inv, KeyOf;
    forall i | 0 <= i < |ids|
      ensures Conflicts(pool, ids[i], c) <==> s.mempool[ids[i]].objectId == s.mempool[c].objectId
    {
      KeyIsObject(address, s, ids[i], c);
    }
  }

  /**
   What a commit leaves in the mempool and the store: the requests of other objects, and every
   queued request that succeeds a decided one.
   */
  lemma CommitReleasesExactly(address: AddBlockRequest -> Cid, s: Signer, cp: Checkpoint, c: Cid)
    requires Injective(address) && Inv(address, s) && Admissible(s.mempool, cp.abrs)
    requires s.height > 0 ==> GetRound(s, s.height - 1).Some?
    ensures var s', abrs := Commit(address, s, cp), Lookup(s.mempool, cp.abrs);
            && (c in s'.mempool <==>
                  || (c in s.mempool && forall i :: 0 <= i < |abrs| ==> abrs[i].objectId != s.mempool[c].objectId)
                  || Released(address, s.inflight, abrs, c))
            && (c in s'.store <==> c in s.store || Released(address, s.inflight, abrs, c))
            && (c in s'.mempool ==> address(s'.mempool[c]) == c)
  {
    hide Inv, GetRound, Promote, Released, Extends, QueueOk, DistinctObjects, Remaining, G.WithInflights, Ledger, IsDid;
    var ids, abrs := cp.abrs, Lookup(s.mempool, cp.abrs);
    DecidedFacts(address, s, ids);
    PromoteExactly(address, Ledger(s.history), s, abrs, c);
    PoolDuringCommit(address, s, ids);
    var pool := Promote(address, s, abrs).mempool;
    RemainingWithin(pool, ids);
    assert forall i :: 0 <= i < |ids| ==> abrs[i] == s.mempool[ids[i]];
    if c in s.mempool {
      HeldStays(address, s, ids, pool, c);
    }
    if Released(address, s.inflight, abrs, c) {
      ReleasedStays(address, s, ids, pool, c);
    }
  }

  lemma RemainingWithin(pool: Pool, ids: seq<Cid>)
    ensures forall c :: c in Remaining(pool, ids) ==> c in pool && Remaining(pool, ids)[c] == pool[c]
  {
  }

  lemma PoolDuringCommit(address: AddBlockRequest -> Cid, s: Signer, ids: seq<Cid>)
    requires Injective(address) && Inv(address, s) && Admissible(s.mempool, ids)
    ensures var pool := Promote(address, s, Lookup(s.mempool, ids)).mempool;
            Addressed(pool, address) && forall d :: d in s.mempool ==> d in pool && pool[d] == s.mempool[d]
  {
    hide Ledger, Promote, IsDid, KeyOf, Continues, Apply, Injective, Extends, HistoryOk, VotesOk, RoundsOk, DataOk,
         SignedOk, RepublishOk, CacheOk;
    var abrs, latest := Lookup(s.mempool, ids), Ledger(s.history);
    DecidedFacts(address, s, ids);
    forall i | 0 <= i < |abrs|
      ensures abrs[i].objectId in Apply(latest, abrs) && Apply(latest, abrs)[abrs[i].objectId] == abrs[i]
    {
      AppliedAtExtended(latest, abrs, i);
    }
    PromoteAll(address, latest, Apply(latest, abrs), s, abrs);
  }

  /** Exactly the queued requests at the height after a decided one have left the queue. */
  lemma CommitQueueExactly(address: AddBlockRequest -> Cid, s: Signer, cp: Checkpoint, k: string)
    requires Inv(address, s) && Admissible(s.mempool, cp.abrs)
    requires s.height > 0 ==> GetRound(s, s.height - 1).Some?
    ensures var s', abrs := Commit(address, s, cp), Lookup(s.mempool, cp.abrs);
            && (k in s'.inflight ==> k in s.inflight && s'.inflight[k] == s.inflight[k])
            && (k in s'.inflight <==>
                  && k in s.inflight
                  && !exists i :: 0 <= i < |abrs| && s.inflight[k].objectId == abrs[i].objectId
                       && s.inflight[k].height == abrs[i].height + 1)
  {
    hide Inv, GetRound, Promote, Extends, QueueOk, Remaining, G.WithInflights, Ledger, IsDid, NextKey, DistinctObjects;
    var abrs := Lookup(s.mempool, cp.abrs);
    DecidedFacts(address, s, cp.abrs);
    PromoteExactly(address, Ledger(s.history), s, abrs, "");
    if k in s.inflight {
      forall i | 0 <= i < |abrs|
        ensures k == NextKey(abrs[i]) <==>
                s.inflight[k].objectId == abrs[i].objectId && s.inflight[k].height == abrs[i].height + 1
      {
        QueuedAt(Ledger(s.history), s.inflight, abrs[i], k);
      }
    }
  }

  /**
   A commit records the decision, moves to the next height with a fresh Snowball, and from then
   on answers for every decided object with its decided request and for others as before.
   */
  lemma CommitRecordsExactly(address: AddBlockRequest -> Cid, s: Signer, cp: Checkpoint, objectId: string)
    requires Injective(address) && Inv(address, s) && Admissible(s.mempool, cp.abrs)
    requires s.height > 0 ==> GetRound(s, s.height - 1).Some?
    ensures var s', abrs := Commit(address, s, cp), Lookup(s.mempool, cp.abrs);
            && s'.history == s.history + [Decision(cp, abrs)]
            && s'.height == s.height + 1 && !s'.started
            && s'.snowball == S.NewSnowball(0.666, 10)
            && GetRound(s', s.height).Some? && GetRound(s', s.height).value.checkpoint == cp
            && (forall i :: 0 <= i < |abrs| && abrs[i].objectId == objectId ==>
                  GetCurrent(s', objectId) == Ok(Some(abrs[i])))
            && ((forall i :: 0 <= i < |abrs| ==> abrs[i].objectId != objectId) ==>
                  GetCurrent(s', objectId) == GetCurrent(s, objectId))
  {
    hide Inv, GetCurrent, Promote, Ledger, Extends, QueueOk, Apply, Remaining, G.WithInflights;
    var s', abrs := Commit(address, s, cp), Lookup(s.mempool, cp.abrs);
    PromoteFrame(address, s, abrs);
    CommitKeeps(address, s, cp);
    CurrentIsChainEnd(address, s', objectId);
    CurrentIsChainEnd(address, s, objectId);
    DecidedFacts(address, s, cp.abrs);
    LedgerStep(s.history, Decision(cp, abrs));
    forall i | 0 <= i < |abrs| && abrs[i].objectId == objectId
      ensures objectId in Ledger(s'.history) && Ledger(s'.history)[objectId] == abrs[i]
    {
      AppliedAt(Ledger(s.history), abrs, i);
    }
    if forall i :: 0 <= i < |abrs| ==> abrs[i].objectId != objectId {
      AppliedElsewhere(Ledger(s.history), abrs, objectId);
    }
  }

  lemma {:induction false} PromoteFrame(address: AddBlockRequest -> Cid, s: Signer, abrs: seq<AddBlockRequest>)
    ensures var s' := Promote(address, s, abrs);
            s' == s.(mempool := s'.mempool, store := s'.store, inflight := s'.inflight)
  {
    if abrs != [] {
      hide Release;
      PromoteFrame(address, s, abrs[..|abrs| - 1]);
      ReleaseFrame(address, Promote(address, s, abrs[..|abrs| - 1]), abrs[|abrs| - 1]);
    }
  }

  lemma ReleaseFrame(address: AddBlockRequest -> Cid, s: Signer, abr: AddBlockRequest)
    ensures var s' := Release(address, s, abr);
            s' == s.(mempool := s'.mempool, store := s'.store, inflight := s'.inflight)
  {
    hide Key;
  }

  /** A lookup that has to restore a round caches it, changes nothing else, and spoils no other lookup. */
  lemma LookupExactly(s: Signer, h: nat)
    ensures var s' := Touch(s, h);
            && s' == s.(cache := s'.cache)
            && (GetRound(s, h).Some? && h != s.height ==> h in s'.cache)
            && (forall k :: k in s.cache ==> k in s'.cache && s'.cache[k] == s.cache[k])
            && forall k :: GetRound(s', k) == GetRound(s, k)
  {
  }

  // ---------------------------------------------------------------- publishing and restarts

  /** Publishing signs, stores, records and remembers the round that the decisions up to its height lead to. */
  lemma PublishExactly(address: AddBlockRequest -> Cid, s: Signer, h: nat)
    requires Inv(address, s) && h in s.rounds && s.rounds[h].state.inflight == map[]
    ensures h < |s.history|
    ensures var r := Round(h, AddressOf(address, Ledger(s.history[..h + 1])), s.history[h].checkpoint);
            Publish(s, h) == s.(signed := s.signed + {r}, dataStore := s.dataStore[h := r], lastCompleted := Some(h),
                                republish := s.republish[h := r],
                                rounds := s.rounds[h := s.rounds[h].(published := true)])
    ensures CanRepublish(Publish(s, h), h) <==>
            !s.started && s.height == h + 1 && h in s.cache && s.cache[h] == Live
  {
    hide Inv, Ledger;
    FlushedIsCertified(address, s, h);
  }

  /**
   A restarted signer is at the height after the round recorded last, has that round to build
   on, and answers for every object with the end of its chain as of that round.
   */
  lemma ResumeExactly(address: AddBlockRequest -> Cid, s: Signer, objectId: string)
    requires Injective(address) && Inv(address, s) && CanResume(s) && s.lastCompleted.Some?
    ensures var l, s' := s.lastCompleted.value, Resume(s);
            && s'.height == l + 1 && l < |s.history| && s'.history == s.history[..l + 1]
            && GetRound(s', l).Some? && GetRound(s', l).value.checkpoint == s.history[l].checkpoint
            && var chain := Chain(s.history[..l + 1], objectId);
               GetCurrent(s', objectId) == Ok(if chain == [] then None else Some(chain[|chain| - 1]))
  {
    hide Ledger, Chain, HistoryOk, Certified, Addressed, PoolOk, QueueOk, VotesOk, RoundsOk, SignedOk, RepublishOk,
         CacheOk, CanResume, GetCurrent;
    var l, s' := s.lastCompleted.value, Resume(s);
    assert l in s.dataStore && l < |s.history|;
    ResumeKeeps(address, s);
    GetRoundIsCertified(address, s', l);
    CurrentIsChainEnd(address, s', objectId);
    ChainEnd(address, s', objectId);
  }
}
