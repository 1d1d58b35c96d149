/**
 signer/gossip/state.go: the latest request of every object, in two layers. A commit
 writes to `inflight`; a background process moves the entries one by one into the
 HAMT, while lookups and copies go on.

 `Latest` is the plain map both layers stand for. Every operation is described by
 what it does to that map; moving entries between the layers does nothing to it.
 */
module StateModel {
  import opened Wire

  datatype State = State(hamt: map<string, Cid>, inflight: map<string, AddBlockWrapper>)

  const EMPTY := State(map[], map[])

  type Store = map<Cid, AddBlockRequest>

  function Cids(inflight: map<string, AddBlockWrapper>): map<string, Cid> {
    map o | o in inflight :: inflight[o].cid
  }

  function Latest(s: State): map<string, Cid> {
    s.hamt + Cids(s.inflight)
  }

  /** Everything either layer refers to is in the store, under its address. */
  ghost predicate Backed(s: State, store: Store) {
    && (forall o :: o in s.hamt ==> s.hamt[o] in store)
    && (forall o :: o in s.inflight ==> s.inflight[o].cid in store && store[s.inflight[o].cid] == s.inflight[o].abr)
  }

  function Answer(s: State, store: Store, objectId: string): Result<Option<AddBlockRequest>, string> {
    if objectId in s.inflight then Ok(Some(s.inflight[objectId].abr))
    else if objectId !in s.hamt then Ok(None)
    else if s.hamt[objectId] in store then Ok(Some(store[s.hamt[objectId]]))
    else Err("error getting abr")
  }

  function WithInflights(s: State, abrws: seq<AddBlockWrapper>): State {
    if abrws == [] then s
    else
      var last := abrws[|abrws| - 1];
      var s' := WithInflights(s, abrws[..|abrws| - 1]);
      s'.(inflight := s'.inflight[last.abr.objectId := last])
  }

  /** One locked step of the background process. */
  function FlushOne(s: State, objectId: string): State {
    if objectId in s.inflight then State(s.hamt[objectId := s.inflight[objectId].cid], s.inflight - {objectId}) else s
  }

  function FlushMany(s: State, objectIds: seq<string>): State {
    if objectIds == [] then s else FlushOne(FlushMany(s, objectIds[..|objectIds| - 1]), objectIds[|objectIds| - 1])
  }

  // ---------------------------------------------------------------- the two layers are one map

  lemma FlushOneKeepsLatest(s: State, objectId: string)
    ensures Latest(FlushOne(s, objectId)) == Latest(s)
  {
  }

  /** However far the background process got, and in whatever order, the map is the same. */
  lemma {:induction false} FlushKeepsLatest(s: State, objectIds: seq<string>)
    ensures Latest(FlushMany(s, objectIds)) == Latest(s)
    ensures FlushMany(s, objectIds).inflight == s.inflight - set o | o in objectIds
  {
    if objectIds != [] {
      var init, last := objectIds[..|objectIds| - 1], objectIds[|objectIds| - 1];
      FlushKeepsLatest(s, init);
      FlushOneKeepsLatest(FlushMany(s, init), last);
      assert objectIds == init + [last];
    }
  }

  /** Once nothing is in flight, the HAMT is the map. */
  lemma FlushedHamt(s: State, objectIds: seq<string>)
    requires forall o :: o in s.inflight ==> o in objectIds
    ensures FlushMany(s, objectIds) == State(Latest(s), map[])
  {
    FlushKeepsLatest(s, objectIds);
    assert FlushMany(s, objectIds).inflight == map[];
    assert Cids(map[]) == map[];
  }

  /** `Find` answers from the map alone: nothing about the layers shows. */
  lemma FindReadsLatest(s: State, store: Store, objectId: string)
    requires Backed(s, store)
    ensures Answer(s, store, objectId) ==
            if objectId !in Latest(s) then Ok(None)
            else if Latest(s)[objectId] in store then Ok(Some(store[Latest(s)[objectId]]))
            else Err("error getting abr")
    ensures Answer(s, store, objectId).Ok?
  {
  }

  /** A lookup gives one answer before, during and after any part of a flush. */
  lemma FindUnaffectedByFlush(s: State, store: Store, objectIds: seq<string>, objectId: string)
    requires Backed(s, store)
    ensures Answer(FlushMany(s, objectIds), store, objectId) == Answer(s, store, objectId)
  {
    FlushKeepsLatest(s, objectIds);
    FlushBacked(s, store, objectIds);
    FindReadsLatest(s, store, objectId);
    FindReadsLatest(FlushMany(s, objectIds), store, objectId);
  }

  lemma {:induction false} FlushBacked(s: State, store: Store, objectIds: seq<string>)
    requires Backed(s, store)
    ensures Backed(FlushMany(s, objectIds), store)
  {
    if objectIds != [] {
      FlushBacked(s, store, objectIds[..|objectIds| - 1]);
    }
  }

  /** Writing a checkpoint overlays exactly its requests. */
  ghost function ByObject(abrws: seq<AddBlockWrapper>): map<string, Cid> {
    if abrws == [] then map[]
    else ByObject(abrws[..|abrws| - 1])[abrws[|abrws| - 1].abr.objectId := abrws[|abrws| - 1].cid]
  }

  lemma {:induction false} InflightsOverlay(s: State, abrws: seq<AddBlockWrapper>)
    ensures Latest(WithInflights(s, abrws)) == Latest(s) + ByObject(abrws)
    ensures WithInflights(s, abrws).hamt == s.hamt
  {
    hide Latest;
    if abrws == [] {
      assert Latest(s) + ByObject(abrws) == Latest(s);
    } else {
      var init, last := abrws[..|abrws| - 1], abrws[|abrws| - 1];
      InflightsOverlay(s, init);
      OverlayOne(WithInflights(s, init), last);
      UpdateOverlay(Latest(s), ByObject(init), last.abr.objectId, last.cid);
    }
  }

  lemma UpdateOverlay(a: map<string, Cid>, b: map<string, Cid>, k: string, v: Cid)
    ensures (a + b)[k := v] == a + b[k := v]
  {
  }

  lemma OverlayOne(s: State, w: AddBlockWrapper)
    ensures Latest(s.(inflight := s.inflight[w.abr.objectId := w])) == Latest(s)[w.abr.objectId := w.cid]
  {
  }

  ghost predicate DistinctObjects(abrws: seq<AddBlockWrapper>) {
    forall i, j :: 0 <= i < j < |abrws| ==> abrws[i].abr.objectId != abrws[j].abr.objectId
  }

  lemma {:induction false} ByObjectContents(abrws: seq<AddBlockWrapper>)
    requires DistinctObjects(abrws)
    ensures forall o :: o in ByObject(abrws) <==> exists i :: 0 <= i < |abrws| && abrws[i].abr.objectId == o
    ensures forall i :: 0 <= i < |abrws| ==>
              abrws[i].abr.objectId in ByObject(abrws) && ByObject(abrws)[abrws[i].abr.objectId] == abrws[i].cid
  {
    if abrws != [] {
      var init := abrws[..|abrws| - 1];
      ByObjectContents(init);
      assert abrws == init + [abrws[|abrws| - 1]];
    }
  }

  /** The order of the requests inside a checkpoint does not matter. */
  lemma CheckpointOrderIrrelevant(s: State, xs: seq<AddBlockWrapper>, ys: seq<AddBlockWrapper>)
    requires DistinctObjects(xs) && DistinctObjects(ys)
    requires forall w :: w in xs <==> w in ys
    ensures Latest(WithInflights(s, xs)) == Latest(WithInflights(s, ys))
  {
    hide Latest, WithInflights, ByObject;
    InflightsOverlay(s, xs);
    InflightsOverlay(s, ys);
    SameContents(xs, ys);
    SameContents(ys, xs);
    assert ByObject(xs) == ByObject(ys);
  }

  lemma SameContents(xs: seq<AddBlockWrapper>, ys: seq<AddBlockWrapper>)
    requires DistinctObjects(xs) && DistinctObjects(ys)
    requires forall w :: w in xs ==> w in ys
    ensures forall o :: o in ByObject(xs) ==> o in ByObject(ys) && ByObject(xs)[o] == ByObject(ys)[o]
  {
    hide ByObject;
    ByObjectContents(xs);
    ByObjectContents(ys);
    forall o | o in ByObject(xs)
      ensures o in ByObject(ys) && ByObject(xs)[o] == ByObject(ys)[o]
    {
      var i :| 0 <= i < |xs| && xs[i].abr.objectId == o;
      assert xs[i] in ys;
      var j :| 0 <= j < |ys| && ys[j] == xs[i];
    }
  }

  // ---------------------------------------------------------------- the object

  class GlobalState {
    var hamt: map<string, Cid>
    var inflight: map<string, AddBlockWrapper>

    function View(): State
      reads this
    {
      State(hamt, inflight)
    }

    constructor ()
      ensures View() == EMPTY
    {
      hamt, inflight := map[], map[];
    }

    /** A state object with the given layers. */
    constructor From(state: State)
      ensures View() == state
    {
      hamt, inflight := state.hamt, state.inflight;
    }

    method Copy() returns (copy: GlobalState)
      ensures fresh(copy) && copy.View() == View()
    {
      copy := new GlobalState.From(View());
    }

    method AddInflights(abrws: seq<AddBlockWrapper>)
      modifies this
      ensures View() == WithInflights(old(View()), abrws)
    {
      for i := 0 to |abrws|
        invariant View() == WithInflights(old(View()), abrws[..i])
      {
        assert abrws[..i + 1][..i] == abrws[..i];
        inflight := inflight[abrws[i].abr.objectId := abrws[i]];
      }
      assert abrws[..|abrws|] == abrws;
    }

    /** Fails exactly if neither layer settles it: the HAMT names a request the store does not have. */
    method Find(store: Store, objectId: string) returns (abr: Result<Option<AddBlockRequest>, string>)
      ensures abr == Answer(View(), store, objectId)
      ensures abr.Err? <==> objectId !in inflight && objectId in hamt && hamt[objectId] !in store
      ensures Backed(View(), store) ==>
                abr == Ok(if objectId in Latest(View()) then Some(store[Latest(View())[objectId]]) else None)
    {
      if objectId in inflight {
        return Ok(Some(inflight[objectId].abr));
      }
      if objectId !in hamt {
        return Ok(None);
      }
      if hamt[objectId] !in store {
        return Err("error getting abr");
      }
      abr := Ok(Some(store[hamt[objectId]]));
    }

    /** One locked step of the loop. */
    method Flush(objectId: string)
      modifies this
      ensures View() == FlushOne(old(View()), objectId)
    {
      if objectId in inflight {
        hamt := hamt[objectId := inflight[objectId].cid];
        inflight := inflight - {objectId};
      }
    }

    /** The whole loop, in whatever order the copied entries are visited. */
    method BackgroundProcess()
      modifies this
      ensures hamt == old(Latest(View())) && inflight == map[]
    {
      var todo := inflight.Keys;
      while todo != {}
        invariant inflight.Keys == todo
        invariant Latest(View()) == old(Latest(View()))
        decreases todo
      {
        var objectId :| objectId in todo;
        FlushOneKeepsLatest(View(), objectId);
        Flush(objectId);
        todo := todo - {objectId};
      }
      assert Cids(inflight) == map[];
      assert Latest(View()) == hamt;
    }
  }
}
