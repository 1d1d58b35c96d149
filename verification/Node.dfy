/**
 The signer as the object the actor updates in place: signer/gossip/node.go, with the
 vote filter and the tick of snowballnetwork.go and roundHolder.Get of rounds.go.

 `Valid` carries the invariant of SignerInvariant, and every handler is proved to
 perform one step of SignerModel, so its theorems hold for every run of this object.
 */
module NodeModel {
  import opened Wire
  import opened Keys
  import opened VoteModel
  import opened MempoolModel
  import opened SnowballModel
  import opened History
  import opened SignerModel
  import opened SignerInvariant
  import G = StateModel

  class Node {
    const address: AddBlockRequest -> Cid
    const mempool: Mempool
    var snowball: Snowball
    var height: nat
    var started: bool
    var inflight: map<string, AddBlockRequest>
    var rounds: map<nat, Completed>
    var cache: map<nat, Entry>
    var dataStore: map<nat, Round>
    var lastCompleted: Option<nat>
    var store: map<Cid, AddBlockRequest>
    var republish: map<nat, Round>
    ghost var signed: set<Round>
    ghost var history: seq<Decision>

    ghost function View(): Signer
      reads this, mempool, snowball
    {
      Signer(height, snowball.View(), started, mempool.abrs, inflight, rounds, cache, dataStore, lastCompleted, store,
             republish, signed, history)
    }

    ghost predicate Valid()
      reads this, mempool, snowball
    {
      && Injective(address)
      && mempool.Valid()
      && Inv(address, View())
    }

    constructor (address: AddBlockRequest -> Cid)
      requires Injective(address)
      ensures Valid() && fresh(mempool) && fresh(snowball)
      ensures this.address == address && View() == Init()
    {
      this.address := address;
      mempool := new Mempool();
      snowball := new Snowball(DEFAULT_ALPHA, DEFAULT_BETA);
      height, started, inflight, rounds, cache := 0, false, map[], map[], map[];
      dataStore, lastCompleted, store, republish := map[], None, map[], map[];
      signed, history := {}, [];
      new;
      InitInv(address);
    }

    /** initRoundHolder on the stores of a signer that went down. */
    constructor Resume(previous: Node)
      requires previous.Valid() && CanResume(previous.View())
      ensures Valid() && fresh(mempool) && fresh(snowball) && address == previous.address
      ensures View() == SignerModel.Resume(previous.View())
      ensures Next(address, previous.View(), RestartEvent, View())
    {
      hide Inv, Next, Indexed, Injective, CanResume;
      this.address := previous.address;
      mempool := new Mempool();
      snowball := new Snowball(DEFAULT_ALPHA, DEFAULT_BETA);
      height := if previous.lastCompleted.None? then 0 else previous.lastCompleted.value + 1;
      started, inflight, rounds, cache := false, map[], map[], map[];
      dataStore, lastCompleted := previous.dataStore, previous.lastCompleted;
      store, republish, signed := previous.store, map[], previous.signed;
      history := SignerModel.Resume(previous.View()).history;
      new;
      ResumeKeeps(address, previous.View());
      ResumeIsStep(address, previous.View());
    }

    // -------------------------------------------------------------- rounds.go

    /** roundHolder.Get for a height other than the current one. */
    method GetRound(h: nat) returns (r: Option<RoundView>)
      requires Valid()
      modifies this`cache
      ensures Valid()
      ensures r == SignerModel.GetRound(old(View()), h)
      ensures View() == Touch(old(View()), h)
    {
      hide Inv;
      TouchKeeps(address, View(), h);
      if h in cache {
        CachedIsHeld(address, View(), h);
        if cache[h] == Live {
          r := Some(RoundView(h, rounds[h].checkpoint, rounds[h].state));
        } else {
          r := Some(Restore(dataStore[h]));
        }
        return;
      }
      if h !in dataStore {
        return None;
      }
      r := Some(Restore(dataStore[h]));
      if h != height {
        cache := cache[h := Restored];
      }
    }

    // -------------------------------------------------------------- requests

    method StoreAbr(abr: AddBlockRequest)
      requires mempool.Valid() && Injective(address) && Addressed(mempool.abrs, address)
      modifies this`store, mempool
      ensures mempool.Valid()
      ensures View() == SignerModel.StoreAbr(address, old(View()), abr)
    {
      hide Injective, Addressed;
      AddressKnown(address, mempool.abrs, abr);
      var id := address(abr);
      store := store[id := abr];
      mempool.Add(id, abr);
    }

    method HandleAddBlockRequest(abr: AddBlockRequest)
      requires Valid() && IsDid(abr.objectId)
      modifies this, mempool
      ensures Valid() && snowball == old(snowball)
      ensures Next(address, old(View()), ArriveEvent(abr), View())
    {
      hide Inv, IsDid, SignerModel.GetRound, Touch, SignerModel.Judge, Next, Indexed, Injective;
      ArriveKeeps(address, View(), abr);
      ArriveIsStep(address, View(), abr);
      var current: Option<AddBlockRequest> := None;
      if height > 0 {
        var locked := GetRound(height - 1);
        if locked.None? {
          return;
        }
        var state := new G.GlobalState.From(locked.value.state);
        var found := state.Find(store, abr.objectId);
        if found.Err? {
          return;
        }
        current := found.value;
      }
      InvAddressed(address, View());
      Judge(current, abr);
    }

    /** Drop, propose or queue a request, given the one its object is at. */
    method Judge(current: Option<AddBlockRequest>, abr: AddBlockRequest)
      requires mempool.Valid() && Injective(address) && Addressed(mempool.abrs, address)
      modifies this`store, this`inflight, mempool
      ensures mempool.Valid()
      ensures View() == SignerModel.Judge(address, old(View()), current, abr)
    {
      hide Injective, Addressed, KeyOf, Indexed;
      if current.None? {
        if abr.height == 0 {
          StoreAbr(abr);
        } else {
          inflight := inflight[KeyOf(abr) := abr];
        }
        return;
      }
      var cur := current.value;
      if cur.height > abr.height {
        return;
      }
      if Add64(cur.height, 1) == abr.height {
        if cur.newTip == abr.previousTip {
          StoreAbr(abr);
        }
        return;
      }
      if abr.height > Add64(cur.height, 1) {
        inflight := inflight[KeyOf(abr) := abr];
      }
    }

    // -------------------------------------------------------------- voting

    method MempoolHasAllABRs(ids: seq<Cid>) returns (hasAll: bool)
      ensures hasAll <==> forall i :: 0 <= i < |ids| ==> ids[i] in mempool.abrs
    {
      hasAll := true;
      for i := 0 to |ids|
        invariant hasAll <==> forall j :: 0 <= j < i ==> ids[j] in mempool.abrs
      {
        var held := mempool.Contains([ids[i]]);
        assert held <==> [ids[i]][0] in mempool.abrs;
        if !held {
          hasAll := false;
        }
      }
    }

    /** A request the mempool does not hold counts as a conflict. */
    method HasConflictingABRs(ids: seq<Cid>) returns (conflicting: bool)
      ensures conflicting <==> !Admissible(mempool.abrs, ids)
    {
      hide KeyOf;
      var seen: set<string> := {};
      for i := 0 to |ids|
        invariant forall j :: 0 <= j < i ==> ids[j] in mempool.abrs && KeyOf(mempool.abrs[ids[j]]) in seen
        invariant forall k :: k in seen ==>
                    exists j :: 0 <= j < i && ids[j] in mempool.abrs && KeyOf(mempool.abrs[ids[j]]) == k
        invariant forall j, l :: 0 <= j < l < i ==> KeyOf(mempool.abrs[ids[j]]) != KeyOf(mempool.abrs[ids[l]])
      {
        if ids[i] !in mempool.abrs {
          return true;
        }
        var key := KeyOf(mempool.abrs[ids[i]]);
        if key in seen {
          return true;
        }
        seen := seen + {key};
      }
      conflicting := false;
    }

    method Start()
      requires Valid()
      modifies this`started, snowball
      ensures Valid() && snowball == old(snowball)
      ensures if old(started) then View() == old(View())
              else exists preferred :: Next(address, old(View()), StartEvent(preferred), View())
    {
      hide Inv, PreferredSet;
      if started {
        return;
      }
      started := true;
      var preferred := mempool.Preferred();
      StartKeeps(address, old(View()), preferred);
      if |preferred| > 0 {
        snowball.PreferInLock(Vote(Some(Checkpoint(height, preferred)), 0.0));
      }
      assert View() == SignerModel.Start(old(View()), preferred);
      assert Next(address, old(View()), StartEvent(preferred), View());
    }

    /** One tick over the answers of `k` random signers; a signer that did not answer is `None`. */
    method DoTick(answers: seq<Option<Checkpoint>>)
      requires Valid() && started && !snowball.decided
      modifies snowball
      ensures Valid()
      ensures exists votes :: Next(address, old(View()), Poll(answers, votes), View())
    {
      hide Inv, Tallied, Step;
      var responses: seq<Vote> := [];
      for i := 0 to |answers|
        invariant |responses| == i
        invariant forall j :: 0 <= j < i ==> responses[j] == Filter(mempool.abrs, answers[j])
        invariant View() == old(View())
      {
        var vote := Vote(None, 0.0);
        if answers[i].Some? {
          var abrs := answers[i].value.abrs;
          var hasAll := MempoolHasAllABRs(abrs);
          var conflicting := HasConflictingABRs(abrs);
          if !(|abrs| == 0 || !hasAll || conflicting) {
            vote := Vote(answers[i], 0.0);
          }
        }
        responses := responses + [vote];
      }
      assert responses == FilterAll(mempool.abrs, answers);
      FilteredIsFresh(mempool.abrs, answers);
      var votes := CalculateTallies(responses);
      PollKeeps(address, View(), answers, votes);
      snowball.Tick(votes);
      assert Next(address, old(View()), Poll(answers, votes), View());
    }

    // -------------------------------------------------------------- commit

    /** handleSnowballerDone; false is the crash when the previous round cannot be found. */
    method HandleSnowballerDone() returns (ok: bool)
      requires Valid() && snowball.decided
      modifies this, mempool
      ensures Valid()
      ensures ok <==> old(height == 0 || SignerModel.GetRound(View(), height - 1).Some?)
      ensures ok ==> fresh(snowball)
      ensures ok ==> exists cp :: Next(address, old(View()), CommitEvent(cp), View())
      ensures !ok ==> View() == ReadPrevious(old(View()))
    {
      hide Inv, SignerModel.GetRound, Touch, Promote, G.WithInflights, Admissible, Lookup, SignerModel.Lock, Indexed;
      ghost var before := View();
      ReadPreviousKeeps(address, before);
      var base := G.EMPTY;
      if height > 0 {
        var previous := GetRound(height - 1);
        if previous.None? {
          return false;
        }
        base := previous.value.state;
      }
      ghost var s := View();
      assert s == ReadPrevious(before);
      DecidedAdmissible(address, s);
      var cp := snowball.preferred.value.checkpoint.value;
      CommitKeeps(address, s, cp);
      var abrs := PromoteQueued(cp.abrs);
      var state := Overlay(base, abrs);
      AdmissibleHeld(s.mempool, cp.abrs);
      Lock(cp, abrs, state);
      assert View() == Commit(address, s, cp);
      assert Next(address, before, CommitEvent(cp), View());
      ok := true;
    }

    method Lock(cp: Checkpoint, abrs: seq<AddBlockRequest>, state: G.State)
      requires mempool.Valid()
      modifies this, mempool
      ensures mempool.Valid() && fresh(snowball)
      ensures View() == SignerModel.Lock(old(View()), cp, abrs, state)
    {
      hide Remaining;
      mempool.BulkDelete(cp.abrs);
      rounds := rounds[height := Completed(cp, state, false)];
      cache := cache[height := Live];
      history := history + [Decision(cp, abrs)];
      height := height + 1;
      started := false;
      snowball := new Snowball(DEFAULT_ALPHA, DEFAULT_BETA);
    }

    /** The new round's state: the previous one with the decided requests in flight. */
    method Overlay(base: G.State, abrs: seq<AddBlockRequest>) returns (state: G.State)
      ensures state == G.WithInflights(base, Wrapped(address, abrs))
    {
      var copy := new G.GlobalState.From(base);
      copy.AddInflights(Wrapped(address, abrs));
      state := copy.View();
    }

    /** The commit loop: look every request up, and release what is queued behind it. */
    method PromoteQueued(ids: seq<Cid>) returns (abrs: seq<AddBlockRequest>)
      requires Valid() && Admissible(mempool.abrs, ids)
      modifies this`store, this`inflight, mempool
      ensures mempool.Valid()
      ensures abrs == Lookup(old(mempool.abrs), ids)
      ensures View() == Promote(address, old(View()), abrs)
    {
      hide Inv, Promote, Admissible, Injective, Addressed, Indexed, SignerModel.Release;
      ghost var s := View();
      AdmissibleHeld(s.mempool, ids);
      ghost var decided := Lookup(s.mempool, ids);
      abrs := [];
      PromoteNone(address, s);
      for i := 0 to |ids|
        invariant mempool.Valid()
        invariant abrs == decided[..i]
        invariant View() == Promote(address, s, abrs)
      {
        PromoteSoFar(address, s, ids, i);
        var abr := mempool.abrs[ids[i]];
        PromoteNext(address, s, abrs, abr);
        Release(abr);
        abrs := abrs + [abr];
      }
    }

    method Release(abr: AddBlockRequest)
      requires mempool.Valid() && Injective(address) && Addressed(mempool.abrs, address)
      modifies this`store, this`inflight, mempool
      ensures mempool.Valid()
      ensures View() == SignerModel.Release(address, old(View()), abr)
    {
      hide Injective, Addressed, Key;
      var key := Key(abr.objectId, Add64(abr.height, 1));
      if key in inflight {
        var next := inflight[key];
        if next.previousTip == abr.newTip {
          StoreAbr(next);
        }
        inflight := inflight - {key};
      }
    }

    // -------------------------------------------------------------- background

    /** One locked step of a round's background process. */
    method FlushOne(h: nat, objectId: string)
      requires Valid() && h in rounds
      modifies this`rounds
      ensures Valid()
      ensures Next(address, old(View()), Flush(h, objectId), View())
    {
      hide Inv;
      FlushKeeps(address, View(), h, objectId);
      var state := new G.GlobalState.From(rounds[h].state);
      state.Flush(objectId);
      rounds := rounds[h := rounds[h].(state := state.View())];
    }

    /** Store, sign and remember the round. */
    method PublishStep(h: nat)
      requires h in rounds
      modifies this`dataStore, this`lastCompleted, this`signed, this`republish, this`rounds
      ensures View() == Publish(old(View()), h)
    {
      var r := Round(h, rounds[h].state.hamt, rounds[h].checkpoint);
      dataStore, lastCompleted, signed := dataStore[h := r], Some(h), signed + {r};
      republish, rounds := republish[h := r], rounds[h := rounds[h].(published := true)];
    }

    method PublishCompletedRound(h: nat)
      requires Valid() && h in rounds && rounds[h].state.inflight == map[]
      modifies this`dataStore, this`lastCompleted, this`signed, this`republish, this`rounds
      ensures Valid()
      ensures Next(address, old(View()), PublishEvent(h), View())
      ensures h in republish && republish[h] in signed
    {
      hide Inv, Indexed, Injective, Next;
      PublishKeeps(address, View(), h);
      PublishIsStep(address, View(), h);
      PublishStep(h);
    }

    method RepublishCompletedRound(h: nat)
      requires Valid() && CanRepublish(View(), h)
      modifies this`dataStore, this`lastCompleted, this`signed, this`republish, this`rounds
      ensures Valid()
      ensures Next(address, old(View()), Republish(h), View())
    {
      hide Inv, Indexed, Injective, Next;
      RepublishKeeps(address, View(), h);
      RepublishIsStep(address, View(), h);
      if h in republish {
        signed := signed + {republish[h]};
      } else {
        PublishStep(h);
      }
    }
  }

  // ---------------------------------------------------------------- helpers of the handlers

  lemma ResumeIsStep(address: AddBlockRequest -> Cid, s: Signer)
    requires CanResume(s)
    ensures Next(address, s, RestartEvent, SignerModel.Resume(s))
  {
  }

  lemma ArriveIsStep(address: AddBlockRequest -> Cid, s: Signer, abr: AddBlockRequest)
    requires IsDid(abr.objectId)
    ensures Next(address, s, ArriveEvent(abr), Arrive(address, s, abr))
  {
  }

  lemma PublishIsStep(address: AddBlockRequest -> Cid, s: Signer, h: nat)
    requires h in s.rounds && s.rounds[h].state.inflight == map[]
    ensures Next(address, s, PublishEvent(h), Publish(s, h))
  {
  }

  lemma RepublishIsStep(address: AddBlockRequest -> Cid, s: Signer, h: nat)
    requires CanRepublish(s, h)
    ensures var s' := if h in s.republish then s.(signed := s.signed + {s.republish[h]}) else Publish(s, h);
            Next(address, s, Republish(h), s')
  {
  }

  lemma CachedIsHeld(address: AddBlockRequest -> Cid, s: Signer, h: nat)
    requires Inv(address, s) && h in s.cache
    ensures if s.cache[h] == Live then h in s.rounds else h in s.dataStore
    ensures s.cache[h] == Restored ==> SignerModel.GetRound(s, h) == Some(Restore(s.dataStore[h]))
  {
  }

  lemma InvAddressed(address: AddBlockRequest -> Cid, s: Signer)
    requires Inv(address, s)
    ensures Addressed(s.mempool, address)
  {
  }

  lemma FilteredIsFresh(pool: Pool, answers: seq<Option<Checkpoint>>)
    ensures Fresh(FilterAll(pool, answers))
  {
    hide Admissible;
  }

  lemma AdmissibleHeld(pool: Pool, ids: seq<Cid>)
    requires Admissible(pool, ids)
    ensures forall i :: 0 <= i < |ids| ==> ids[i] in pool
  {
  }

  lemma PromoteNone(address: AddBlockRequest -> Cid, s: Signer)
    ensures Promote(address, s, []) == s
  {
  }

  lemma PromoteNext(address: AddBlockRequest -> Cid, s: Signer, abrs: seq<AddBlockRequest>, abr: AddBlockRequest)
    ensures Promote(address, s, abrs + [abr]) == SignerModel.Release(address, Promote(address, s, abrs), abr)
  {
    assert (abrs + [abr])[..|abrs|] == abrs;
  }

  /** While the loop runs, the decided requests stay where they were. */
  lemma PromoteSoFar(address: AddBlockRequest -> Cid, s: Signer, ids: seq<Cid>, n: nat)
    requires Injective(address) && Inv(address, s) && Admissible(s.mempool, ids) && n <= |ids|
    requires forall i :: 0 <= i < |ids| ==> ids[i] in s.mempool
    ensures var s' := Promote(address, s, Lookup(s.mempool, ids)[..n]);
            && Addressed(s'.mempool, address)
            && forall i :: 0 <= i < |ids| ==> ids[i] in s'.mempool && s'.mempool[ids[i]] == s.mempool[ids[i]]
  {
    hide Ledger, Promote, IsDid, KeyOf, Continues, Apply, Injective, Extends;
    var abrs, latest := Lookup(s.mempool, ids), Ledger(s.history);
    LookupExtends(address, latest, s.store, s.mempool, ids);
    forall i | 0 <= i < |abrs|
      ensures IsDid(abrs[i].objectId)
      ensures abrs[i].objectId in Apply(latest, abrs) && Apply(latest, abrs)[abrs[i].objectId] == abrs[i]
    {
      assert abrs[i] == s.mempool[ids[i]];
      AppliedAtExtended(latest, abrs, i);
    }
    PromoteAll(address, latest, Apply(latest, abrs), s, abrs[..n]);
  }
}
