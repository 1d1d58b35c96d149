/**
 sdk/reftracking/reftracking.go: a store that remembers what was read from it, so that
 just those nodes can be sent along for a block to be replayed elsewhere.

 What is run against the store is any deterministic program: it decides its next Get or
 Add from the answers so far.
 */
module RefTracking {
  import opened Wire

  type Node = string
  type Store = map<Cid, Node>

  datatype Action = Get(id: Cid) | Add(node: Node)
  datatype Answer = Found(node: Node) | Missing | Added

  type Program = seq<Answer> -> Action

  /** The wrapper's state and the answers it has given. */
  datatype Tracked = Tracked(store: Store, touched: set<Cid>, added: set<Cid>)

  datatype Execution = Execution(answers: seq<Answer>, tracked: Tracked)

  ghost predicate ContentAddressed(cidOf: Node -> Cid, store: Store) {
    forall c :: c in store ==> cidOf(store[c]) == c
  }

  /** CIDs identify nodes. */
  ghost predicate Identifies(cidOf: Node -> Cid) {
    forall a, b :: cidOf(a) == cidOf(b) ==> a == b
  }

  function Perform(cidOf: Node -> Cid, t: Tracked, action: Action): (Tracked, Answer) {
    match action
    case Get(id) =>
      if id !in t.store then (t, Missing)
      else (if id in t.added then t else t.(touched := t.touched + {id}), Found(t.store[id]))
    case Add(node) =>
      (t.(store := t.store[cidOf(node) := node], added := t.added + {cidOf(node)}), Added)
  }

  /** The first `n` steps of a program on a store just wrapped. */
  ghost function Run(cidOf: Node -> Cid, program: Program, store: Store, n: nat): Execution {
    if n == 0 then Execution([], Tracked(store, {}, {}))
    else
      var before := Run(cidOf, program, store, n - 1);
      var (tracked, answer) := Perform(cidOf, before.tracked, program(before.answers));
      Execution(before.answers + [answer], tracked)
  }

  /** Two stores after the same answers: what the program added, over what each began with. */
  ghost predicate InStep(cidOf: Node -> Cid, full: Tracked, part: Tracked, store: Store, sent: Store) {
    && full.added == part.added
    && full.store.Keys == store.Keys + full.added
    && part.store.Keys == sent.Keys + part.added
    && ContentAddressed(cidOf, full.store)
    && ContentAddressed(cidOf, part.store)
  }

  lemma RunPrefix(cidOf: Node -> Cid, program: Program, store: Store, n: nat)
    ensures |Run(cidOf, program, store, n).answers| == n
  {
  }

  /** One step: the answers agree exactly if all the full store has handed out by then was sent. */
  lemma StepAgrees(cidOf: Node -> Cid, full: Tracked, part: Tracked, store: Store, sent: Store, action: Action)
    requires Identifies(cidOf) && InStep(cidOf, full, part, store, sent)
    requires full.touched <= sent.Keys <= store.Keys
    ensures var (full', a), (part', b) := Perform(cidOf, full, action), Perform(cidOf, part, action);
            && InStep(cidOf, full', part', store, sent)
            && (a == b <==> full'.touched <= sent.Keys)
  {
    hide Identifies;
    match action
    case Add(node) =>
      AddressedAfterAdd(cidOf, full.store, node);
      AddressedAfterAdd(cidOf, part.store, node);
    case Get(id) =>
      if id in full.store && id in part.store {
        SameNode(cidOf, full.store[id], part.store[id]);
      }
  }

  lemma SameNode(cidOf: Node -> Cid, a: Node, b: Node)
    requires Identifies(cidOf) && cidOf(a) == cidOf(b)
    ensures a == b
  {
  }

  lemma AddressedAfterAdd(cidOf: Node -> Cid, store: Store, node: Node)
    requires ContentAddressed(cidOf, store)
    ensures ContentAddressed(cidOf, store[cidOf(node) := node])
    ensures store[cidOf(node) := node].Keys == store.Keys + {cidOf(node)}
  {
  }

  lemma {:induction false} AgreesExactly(cidOf: Node -> Cid, program: Program, store: Store, sent: Store, n: nat)
    requires Identifies(cidOf) && ContentAddressed(cidOf, store) && ContentAddressed(cidOf, sent)
    requires sent.Keys <= store.Keys
    ensures var full, part := Run(cidOf, program, store, n), Run(cidOf, program, sent, n);
            && (full.answers == part.answers <==> full.tracked.touched <= sent.Keys)
            && (full.answers == part.answers ==> InStep(cidOf, full.tracked, part.tracked, store, sent))
  {
    hide InStep, Perform, Identifies, ContentAddressed;
    if n == 0 {
      StartInStep(cidOf, store, sent);
    } else {
      var full, part := Run(cidOf, program, store, n - 1), Run(cidOf, program, sent, n - 1);
      var full', part' := Run(cidOf, program, store, n), Run(cidOf, program, sent, n);
      AgreesExactly(cidOf, program, store, sent, n - 1);
      RunPrefix(cidOf, program, store, n - 1);
      RunPrefix(cidOf, program, sent, n - 1);
      assert full'.answers[..n - 1] == full.answers && part'.answers[..n - 1] == part.answers;
      TouchedGrows(cidOf, full.tracked, program(full.answers));
      if full.answers == part.answers {
        StepAgrees(cidOf, full.tracked, part.tracked, store, sent, program(full.answers));
        assert full'.answers == part'.answers <==> full'.answers[n - 1] == part'.answers[n - 1];
      }
    }
  }

  lemma StartInStep(cidOf: Node -> Cid, store: Store, sent: Store)
    requires ContentAddressed(cidOf, store) && ContentAddressed(cidOf, sent)
    ensures InStep(cidOf, Tracked(store, {}, {}), Tracked(sent, {}, {}), store, sent)
  {
  }

  lemma TouchedGrows(cidOf: Node -> Cid, t: Tracked, action: Action)
    ensures t.touched <= Perform(cidOf, t, action).0.touched
  {
  }

  /** What is recorded as touched was in the store to begin with. */
  lemma {:induction false} TouchedWereStored(cidOf: Node -> Cid, program: Program, store: Store, n: nat)
    ensures var t := Run(cidOf, program, store, n).tracked;
            && t.touched <= store.Keys
            && t.store.Keys == store.Keys + t.added
  {
    if n > 0 {
      TouchedWereStored(cidOf, program, store, n - 1);
    }
  }

  /**
   The touched nodes are what a replay needs, no more and no less. On a store holding
   some of the original nodes, a program gets the answers it got originally, hits and
   misses alike, exactly if all touched nodes are among them; and on the touched nodes
   alone it gets them.
   */
  lemma ReplayNeedsExactlyTouched(cidOf: Node -> Cid, program: Program, store: Store, sent: Store, n: nat)
    requires Identifies(cidOf) && ContentAddressed(cidOf, store) && ContentAddressed(cidOf, sent)
    requires sent.Keys <= store.Keys
    ensures var touched := Run(cidOf, program, store, n).tracked.touched;
            && (Run(cidOf, program, sent, n).answers == Run(cidOf, program, store, n).answers <==> touched <= sent.Keys)
            && (sent.Keys == touched ==>
                  && Run(cidOf, program, sent, n).answers == Run(cidOf, program, store, n).answers
                  && Run(cidOf, program, sent, n).tracked.added == Run(cidOf, program, store, n).tracked.added)
  {
    hide Identifies, ContentAddressed, Perform;
    AgreesExactly(cidOf, program, store, sent, n);
  }

  /** A store filled with the given nodes. */
  ghost function StoreOf(cidOf: Node -> Cid, nodes: seq<Node>): Store {
    if nodes == [] then map[] else StoreOf(cidOf, nodes[..|nodes| - 1])[cidOf(nodes[|nodes| - 1]) := nodes[|nodes| - 1]]
  }

  lemma {:induction false} StoreOfExactly(cidOf: Node -> Cid, nodes: seq<Node>, store: Store)
    requires forall n :: n in nodes ==> cidOf(n) in store && store[cidOf(n)] == n
    ensures forall n :: n in nodes ==> cidOf(n) in StoreOf(cidOf, nodes)
    ensures forall c :: c in StoreOf(cidOf, nodes) ==>
              c in store && StoreOf(cidOf, nodes)[c] == store[c] && store[c] in nodes
  {
    if nodes != [] {
      var init, last := nodes[..|nodes| - 1], nodes[|nodes| - 1];
      StoreOfExactly(cidOf, init, store);
      assert nodes == init + [last];
    }
  }

  // ---------------------------------------------------------------- the object

  class StoreWrapper {
    const cidOf: Node -> Cid
    var store: Store
    var touched: set<Cid>
    var added: set<Cid>

    ghost function View(): Tracked
      reads this
    {
      Tracked(store, touched, added)
    }

    ghost predicate Valid()
      reads this
    {
      ContentAddressed(cidOf, store) && touched <= store.Keys && added <= store.Keys
    }

    constructor (cidOf: Node -> Cid, store: Store)
      requires ContentAddressed(cidOf, store)
      ensures Valid() && this.cidOf == cidOf && View() == Tracked(store, {}, {})
    {
      this.cidOf, this.store, touched, added := cidOf, store, {}, {};
    }

    method GetNode(id: Cid) returns (n: Option<Node>)
      requires Valid()
      modifies this
      ensures Valid()
      ensures n == if id in store then Some(store[id]) else None
      ensures store == old(store) && added == old(added)
      ensures touched == old(touched) + if id in store && id !in added then {id} else {}
      ensures View() == Perform(cidOf, old(View()), Get(id)).0
      ensures Perform(cidOf, old(View()), Get(id)).1 == if n.Some? then Found(n.value) else Missing
    {
      n := if id in store then Some(store[id]) else None;
      if n.Some? {
        if id !in added {
          touched := touched + {id};
        }
      }
    }

    method AddNode(n: Node)
      requires Valid()
      modifies this
      ensures Valid()
      ensures store == old(store)[cidOf(n) := n] && added == old(added) + {cidOf(n)} && touched == old(touched)
      ensures View() == Perform(cidOf, old(View()), Add(n)).0
    {
      store := store[cidOf(n) := n];
      added := added + {cidOf(n)};
    }

    /** The nodes behind a set of ids, each once. */
    method CidToNodes(ids: set<Cid>) returns (nodes: seq<Node>)
      requires Valid() && ids <= store.Keys
      ensures |nodes| == |ids|
      ensures forall n :: n in nodes <==> cidOf(n) in ids && store[cidOf(n)] == n
    {
      nodes := [];
      var todo := ids;
      while todo != {}
        invariant todo <= ids
        invariant |nodes| + |todo| == |ids|
        invariant forall n :: n in nodes <==> cidOf(n) in ids - todo && store[cidOf(n)] == n
        decreases todo
      {
        var id :| id in todo;
        nodes := nodes + [store[id]];
        todo := todo - {id};
      }
    }

    /** The state sent along with a block: a store of exactly the touched nodes. */
    method TouchedNodes() returns (nodes: seq<Node>)
      requires Valid()
      ensures |nodes| == |touched|
      ensures StoreOf(cidOf, nodes) == map c | c in touched :: store[c]
    {
      nodes := CidToNodes(touched);
      StoreOfExactly(cidOf, nodes, store);
      assert forall c :: c in touched ==> store[c] in nodes && cidOf(store[c]) == c;
    }

    method NewNodes() returns (nodes: seq<Node>)
      requires Valid()
      ensures |nodes| == |added|
      ensures StoreOf(cidOf, nodes) == map c | c in added :: store[c]
    {
      nodes := CidToNodes(added);
      StoreOfExactly(cidOf, nodes, store);
      assert forall c :: c in added ==> store[c] in nodes && cidOf(store[c]) == c;
    }
  }
}
