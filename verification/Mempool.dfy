/**
 signer/gossip/mempool.go: the add-block requests a signer may still propose, and the
 conflict sets that index them.

 The meaning of a mempool is the plain map `abrs`. `Indexed` says that the conflict
 sets are exactly the classes of that map under "same key" and that each remembers
 its least CID, so everything the mempool answers is a function of `abrs` alone.
 */
module MempoolModel {
  import opened Wire
  import opened Keys

  type Pool = map<Cid, AddBlockRequest>

  function KeyOf(abr: AddBlockRequest): string {
    Key(abr.objectId, abr.height)
  }

  /** Every request sits under its own address. */
  ghost predicate Addressed(pool: Pool, address: AddBlockRequest -> Cid) {
    forall c :: c in pool ==> c == address(pool[c])
  }

  datatype ConflictSet = ConflictSet(ids: seq<Cid>, preferred: Option<Cid>)

  /** conflictSet.Add */
  function AddToSet(cs: ConflictSet, id: Cid): ConflictSet {
    ConflictSet(cs.ids + [id], if cs.preferred.None? || Less(id, cs.preferred.value) then Some(id) else cs.preferred)
  }

  /** `ids` are the requests of `abrs` under `key`. */
  ghost predicate Lists(abrs: Pool, key: string, ids: seq<Cid>) {
    forall c :: c in ids <==> c in abrs && KeyOf(abrs[c]) == key
  }

  ghost predicate IsLeast(preferred: Option<Cid>, ids: seq<Cid>) {
    && preferred.Some?
    && preferred.value in ids
    && forall c :: c in ids ==> !Less(c, preferred.value)
  }

  ghost predicate IndexesKey(abrs: Pool, key: string, cs: ConflictSet) {
    Lists(abrs, key, cs.ids) && IsLeast(cs.preferred, cs.ids)
  }

  ghost predicate Indexed(abrs: Pool, sets: map<string, ConflictSet>) {
    && (forall c :: c in abrs ==> KeyOf(abrs[c]) in sets)
    && forall k :: k in sets ==> IndexesKey(abrs, k, sets[k])
  }

  /** The least request of every class: what this pool proposes. */
  ghost function PreferredSet(pool: Pool): set<Cid> {
    set c | c in pool && forall d :: d in pool && KeyOf(pool[d]) == KeyOf(pool[c]) ==> !Less(d, c)
  }

  /** `id` names a request in conflict with the request of `c` (possibly the same one). */
  ghost predicate Conflicts(pool: Pool, id: Cid, c: Cid)
    requires c in pool
  {
    id in pool && KeyOf(pool[id]) == KeyOf(pool[c])
  }

  /** What is left once every conflict set touched by `ids` is gone. */
  ghost function Remaining(pool: Pool, ids: seq<Cid>): Pool {
    map c | c in pool && !(exists i :: 0 <= i < |ids| && Conflicts(pool, ids[i], c)) :: pool[c]
  }

  /** A proposal no two of whose entries share a key, all of them in the pool. */
  ghost predicate Admissible(pool: Pool, ids: seq<Cid>) {
    && (forall i :: 0 <= i < |ids| ==> ids[i] in pool)
    && forall i, j :: 0 <= i < j < |ids| ==> KeyOf(pool[ids[i]]) != KeyOf(pool[ids[j]])
  }

  class Mempool {
    var abrs: Pool
    var conflictSets: map<string, ConflictSet>

    ghost predicate Valid()
      reads this
    {
      Indexed(abrs, conflictSets)
    }

    constructor ()
      ensures Valid() && abrs == map[]
    {
      abrs := map[];
      conflictSets := map[];
    }

    /** A CID already present must carry the same request: CIDs are content addresses. */
    method Add(id: Cid, abr: AddBlockRequest)
      requires Valid()
      requires id in abrs ==> abrs[id] == abr
      modifies this
      ensures Valid()
      ensures abrs == old(abrs)[id := abr]
    {
      var key := KeyOf(abr);
      var cs := if key in conflictSets then conflictSets[key] else ConflictSet([], None);
      var updated := AddToSet(cs, id);
      IndexAfterAdd(abrs, conflictSets, id, abr, cs);
      conflictSets := conflictSets[key := updated];
      abrs := abrs[id := abr];
    }

    method BulkDelete(ids: seq<Cid>)
      requires Valid()
      modifies this
      ensures Valid()
      ensures abrs == Remaining(old(abrs), ids)
    {
      hide Remaining, Indexed, KeyOf;
      RemainingAll(abrs);
      for i := 0 to |ids|
        invariant Valid()
        invariant abrs == Remaining(old(abrs), ids[..i])
      {
        RemainingStep(old(abrs), ids[..i], ids[i]);
        assert ids[..i + 1] == ids[..i] + [ids[i]];
        DeleteIDAndConflictSet(ids[i]);
      }
      assert ids[..|ids|] == ids;
    }

    method DeleteIDAndConflictSet(id: Cid)
      requires Valid()
      modifies this
      ensures Valid()
      ensures abrs == Remaining(old(abrs), [id])
    {
      hide Remaining, Indexed, KeyOf;
      ghost var before, index := abrs, conflictSets;
      if id in abrs {
        IndexAfterDelete(abrs, conflictSets, id);
        var key := KeyOf(abrs[id]);
        abrs := abrs - {id};
        if key in conflictSets {
          var members := conflictSets[key].ids;
          ghost var gone: set<Cid> := {id};
          for i := 0 to |members|
            invariant conflictSets == index
            invariant abrs == before - gone
            invariant gone == {id} + set c | c in members[..i]
          {
            abrs := abrs - {members[i]};
            gone := gone + {members[i]};
          }
          assert members[..|members|] == members;
          conflictSets := conflictSets - {key};
        }
      } else {
        RemainingNone(abrs, id);
      }
    }

    method Contains(ids: seq<Cid>) returns (all: bool)
      ensures all <==> forall i :: 0 <= i < |ids| ==> ids[i] in abrs
    {
      for i := 0 to |ids|
        invariant forall j :: 0 <= j < i ==> ids[j] in abrs
      {
        if ids[i] !in abrs {
          return false;
        }
      }
      all := true;
    }

    /** In whatever order the conflict sets are visited. */
    method Preferred() returns (preferred: seq<Cid>)
      requires Valid()
      ensures Enumerates(preferred, PreferredSet(abrs))
    {
      hide KeyOf, Indexed, ListsPreferred, PreferredSet;
      preferred := [];
      ListNone(abrs);
      var rest := conflictSets.Keys;
      ghost var visited: set<string> := {};
      while rest != {}
        invariant rest + visited == conflictSets.Keys && rest !! visited
        invariant ListsPreferred(abrs, visited, preferred)
        decreases rest
      {
        var key :| key in rest;
        ListNext(abrs, conflictSets, visited, preferred, key);
        preferred := preferred + [conflictSets[key].preferred.value];
        visited, rest := visited + {key}, rest - {key};
      }
      ListedAll(abrs, conflictSets, preferred);
    }
  }

  /** `s` lists the elements of `elems`, each once. */
  ghost predicate Enumerates(s: seq<Cid>, elems: set<Cid>) {
    && (forall i, j :: 0 <= i < j < |s| ==> s[i] != s[j])
    && forall c :: c in s <==> c in elems
  }

  // ---------------------------------------------------------------- helpers of the methods

  /** Adding to a conflict set keeps its preferred entry the least one. */
  lemma AddToSetLeast(cs: ConflictSet, id: Cid)
    requires cs == ConflictSet([], None) || IsLeast(cs.preferred, cs.ids)
    ensures IsLeast(AddToSet(cs, id).preferred, AddToSet(cs, id).ids)
  {
    var after := AddToSet(cs, id);
    forall c | c in after.ids && Less(c, after.preferred.value)
      ensures false
    {
      LessTotal(c, id);
      if c != id && after.preferred == Some(id) {
        LessTransitive(c, id, cs.preferred.value);
      }
    }
  }

  lemma ListsAfterAdd(abrs: Pool, key: string, ids: seq<Cid>, id: Cid, abr: AddBlockRequest)
    requires Lists(abrs, key, ids)
    requires id in abrs ==> abrs[id] == abr
    ensures Lists(abrs[id := abr], key, if key == KeyOf(abr) then ids + [id] else ids)
  {
    hide KeyOf;
  }

  lemma IndexAfterAdd(abrs: Pool, sets: map<string, ConflictSet>, id: Cid, abr: AddBlockRequest, cs: ConflictSet)
    requires Indexed(abrs, sets)
    requires id in abrs ==> abrs[id] == abr
    requires cs == if KeyOf(abr) in sets then sets[KeyOf(abr)] else ConflictSet([], None)
    ensures Indexed(abrs[id := abr], sets[KeyOf(abr) := AddToSet(cs, id)])
  {
    hide KeyOf, Less, IsLeast;
    var key := KeyOf(abr);
    if key in sets {
      assert IndexesKey(abrs, key, cs);
    }
    AddToSetLeast(cs, id);
    ListsAfterAdd(abrs, key, cs.ids, id, abr);
    forall k | k in sets && k != key
      ensures IndexesKey(abrs[id := abr], k, sets[k])
    {
      assert IndexesKey(abrs, k, sets[k]);
      ListsAfterAdd(abrs, k, sets[k].ids, id, abr);
    }
  }

  /** Dropping one conflict set from the map and from the index. */
  lemma IndexAfterDelete(abrs: Pool, sets: map<string, ConflictSet>, id: Cid)
    requires Indexed(abrs, sets) && id in abrs
    ensures KeyOf(abrs[id]) in sets
    ensures Remaining(abrs, [id]) == abrs - ({id} + set c | c in sets[KeyOf(abrs[id])].ids)
    ensures Indexed(Remaining(abrs, [id]), sets - {KeyOf(abrs[id])})
  {
    hide KeyOf, IsLeast;
    var key, left := KeyOf(abrs[id]), Remaining(abrs, [id]);
    RemainingOne(abrs, id);
    assert IndexesKey(abrs, key, sets[key]);
    assert forall c :: c in abrs ==> (Conflicts(abrs, id, c) <==> c in sets[key].ids);
    assert left == abrs - ({id} + set c | c in sets[key].ids);
    forall k | k in sets && k != key
      ensures IndexesKey(left, k, sets[k])
    {
      assert IndexesKey(abrs, k, sets[k]);
    }
  }

  lemma RemainingOne(pool: Pool, id: Cid)
    ensures forall c :: c in Remaining(pool, [id]) <==> c in pool && !Conflicts(pool, id, c)
  {
    forall c | c in pool && Conflicts(pool, id, c)
      ensures c !in Remaining(pool, [id])
    {
      assert Conflicts(pool, [id][0], c);
    }
  }

  lemma RemainingAll(pool: Pool)
    ensures Remaining(pool, []) == pool
  {
  }

  lemma RemainingNone(pool: Pool, id: Cid)
    requires id !in pool
    ensures Remaining(pool, [id]) == pool
  {
    RemainingOne(pool, id);
  }

  lemma RemainingStep(pool: Pool, ids: seq<Cid>, id: Cid)
    ensures Remaining(Remaining(pool, ids), [id]) == Remaining(pool, ids + [id])
  {
    var first, both := Remaining(pool, ids), ids + [id];
    RemainingOne(first, id);
    forall c | c in pool
      ensures c in Remaining(first, [id]) <==> c in Remaining(pool, both)
    {
      if c !in first {
        var i :| 0 <= i < |ids| && Conflicts(pool, ids[i], c);
        assert Conflicts(pool, both[i], c);
      } else if Conflicts(pool, id, c) {
        assert Conflicts(pool, both[|ids|], c);
        // `id` shares its key with `c`, so it survived `ids` just as `c` did
        assert forall i :: 0 <= i < |ids| && Conflicts(pool, ids[i], id) ==> Conflicts(pool, ids[i], c);
        assert id in first;
      } else {
        assert forall i :: 0 <= i < |both| ==> both[i] == id || both[i] == ids[i];
      }
    }
  }

  /** `listed` holds the preferred id of each visited conflict set, once. */
  ghost predicate ListsPreferred(abrs: Pool, visited: set<string>, listed: seq<Cid>) {
    && (forall i :: 0 <= i < |listed| ==> listed[i] in abrs && KeyOf(abrs[listed[i]]) in visited)
    && (forall i, j :: 0 <= i < j < |listed| ==> listed[i] != listed[j])
    && forall c :: c in listed <==> c in PreferredSet(abrs) && KeyOf(abrs[c]) in visited
  }

  lemma ListNone(abrs: Pool)
    ensures ListsPreferred(abrs, {}, [])
  {
  }

  lemma ListNext(abrs: Pool, sets: map<string, ConflictSet>, visited: set<string>, listed: seq<Cid>, key: string)
    requires Indexed(abrs, sets) && ListsPreferred(abrs, visited, listed)
    requires key in sets && key !in visited
    ensures sets[key].preferred.Some?
    ensures ListsPreferred(abrs, visited + {key}, listed + [sets[key].preferred.value])
  {
    hide Less, KeyOf;
    LeastIsPreferred(abrs, sets, key);
    var least := sets[key].preferred.value;
    assert least !in listed;
    forall c | c in PreferredSet(abrs) && KeyOf(abrs[c]) in visited + {key}
      ensures c in listed + [least]
    {
      assert KeyOf(abrs[c]) == key ==> c == least;
    }
  }

  lemma ListedAll(abrs: Pool, sets: map<string, ConflictSet>, listed: seq<Cid>)
    requires Indexed(abrs, sets) && ListsPreferred(abrs, sets.Keys, listed)
    ensures Enumerates(listed, PreferredSet(abrs))
  {
  }

  lemma LeastIsPreferred(abrs: Pool, sets: map<string, ConflictSet>, key: string)
    requires Indexed(abrs, sets) && key in sets
    ensures sets[key].preferred.Some? && sets[key].preferred.value in abrs
    ensures KeyOf(abrs[sets[key].preferred.value]) == key
    ensures forall c :: c in abrs && KeyOf(abrs[c]) == key ==>
              (c in PreferredSet(abrs) <==> c == sets[key].preferred.value)
  {
    var least := sets[key].preferred.value;
    forall c | c in abrs && KeyOf(abrs[c]) == key
      ensures c in PreferredSet(abrs) <==> c == least
    {
      LessTotal(c, least);
    }
  }

  // ---------------------------------------------------------------- what a mempool promises

  /** Two preferred requests never share a key, and every conflict set has one. */
  lemma PreferredPicksOnePerKey(pool: Pool, sets: map<string, ConflictSet>, c: Cid)
    requires Indexed(pool, sets)
    requires c in pool
    ensures exists p :: p in PreferredSet(pool) && KeyOf(pool[p]) == KeyOf(pool[c])
    ensures forall p, q :: p in PreferredSet(pool) && q in PreferredSet(pool) && KeyOf(pool[p]) == KeyOf(pool[q]) ==>
              p == q
  {
    LeastIsPreferred(pool, sets, KeyOf(pool[c]));
    forall p, q | p in PreferredSet(pool) && q in PreferredSet(pool) && KeyOf(pool[p]) == KeyOf(pool[q])
      ensures p == q
    {
      LessTotal(p, q);
    }
  }

  /** However the preferred requests are listed, the list is a proposal the pool itself admits. */
  lemma PreferredAdmissible(pool: Pool, preferred: seq<Cid>)
    requires Enumerates(preferred, PreferredSet(pool))
    ensures Admissible(pool, preferred)
  {
    assert forall i :: 0 <= i < |preferred| ==> preferred[i] in PreferredSet(pool);
    forall i, j | 0 <= i < j < |preferred|
      ensures KeyOf(pool[preferred[i]]) != KeyOf(pool[preferred[j]])
    {
      LessTotal(preferred[i], preferred[j]);
    }
  }

  /** The pool after a series of `Add`s. */
  ghost function AddAll(pool: Pool, address: AddBlockRequest -> Cid, arrivals: seq<AddBlockRequest>): Pool {
    if arrivals == [] then pool
    else
      var last := arrivals[|arrivals| - 1];
      AddAll(pool, address, arrivals[..|arrivals| - 1])[address(last) := last]
  }

  lemma {:induction false} AddAllContents(pool: Pool, address: AddBlockRequest -> Cid, arrivals: seq<AddBlockRequest>)
    requires Injective(address) && Addressed(pool, address)
    ensures Addressed(AddAll(pool, address, arrivals), address)
    ensures forall c :: c in AddAll(pool, address, arrivals) <==>
                        c in pool || exists a :: a in arrivals && address(a) == c
  {
    if arrivals != [] {
      var init, last := arrivals[..|arrivals| - 1], arrivals[|arrivals| - 1];
      AddAllContents(pool, address, init);
      assert arrivals == init + [last];
      assert last in arrivals;
    }
  }

  /** Arrival order and repetition leave no trace: same requests, same pool, same proposal. */
  lemma ArrivalOrderIrrelevant(pool: Pool, address: AddBlockRequest -> Cid, xs: seq<AddBlockRequest>,
                               ys: seq<AddBlockRequest>)
    requires Injective(address) && Addressed(pool, address)
    requires forall a :: a in xs <==> a in ys
    ensures AddAll(pool, address, xs) == AddAll(pool, address, ys)
    ensures PreferredSet(AddAll(pool, address, xs)) == PreferredSet(AddAll(pool, address, ys))
  {
    var p, q := AddAll(pool, address, xs), AddAll(pool, address, ys);
    AddAllContents(pool, address, xs);
    AddAllContents(pool, address, ys);
    forall c | c in p || c in q
      ensures c in p && c in q && p[c] == q[c]
    {
      assert c in p <==> c in q;
    }
  }

  /** Bulk deletion keeps or drops whole conflict sets, and drops exactly the touched ones. */
  lemma RemainingDropsWholeSets(pool: Pool, ids: seq<Cid>, c: Cid, d: Cid)
    requires c in pool && d in pool && KeyOf(pool[c]) == KeyOf(pool[d])
    ensures c in Remaining(pool, ids) <==> d in Remaining(pool, ids)
    ensures c in Remaining(pool, ids) ==> c !in ids
    ensures c in ids ==> d !in Remaining(pool, ids)
  {
    forall i | 0 <= i < |ids|
      ensures Conflicts(pool, ids[i], c) <==> Conflicts(pool, ids[i], d)
    {
    }
    if c in ids {
      var i :| 0 <= i < |ids| && ids[i] == c;
      assert Conflicts(pool, ids[i], d);
    }
  }
}
