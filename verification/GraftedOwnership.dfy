/**
 sdk/gossip/types/graftedownership.go: the owners of a chain tree, found by walking
 through the trees that own it.

 A graph gives, for the DID of each tree that can be fetched, what its authentications
 path resolves to. A DID outside the graph stands for a tree whose id cannot be read.
 */
module GraftedOwnershipModel {
  import opened Wire
  import opened TokenNames

  type Did = string

  datatype Inner = InnerAddr(addr: string) | InnerTree(did: Did) | InnerUnknown
  datatype Item = Addr(addr: string) | Tree(did: Did) | Nested(inner: seq<Inner>) | Unknown
  datatype Auths = Absent | Single(did: Did) | Many(items: seq<Item>) | Unexpected

  type Graph = map<Did, Auths>

  datatype Failure = Loop | Malformed

  type Owners = Result<seq<string>, Failure>

  // ---------------------------------------------------------------- what the walk meets

  /** One thing to do while resolving a tree, in order. */
  datatype Step = Owner(addr: string) | Graft(did: Did) | Bad

  function InnerStep(x: Inner): Step {
    match x
    case InnerAddr(a) => Owner(a)
    case InnerTree(d) => Graft(d)
    case InnerUnknown => Bad
  }

  function InnerSteps(inner: seq<Inner>): seq<Step> {
    seq(|inner|, k requires 0 <= k < |inner| => InnerStep(inner[k]))
  }

  function ItemSteps(item: Item): seq<Step> {
    match item
    case Addr(a) => if DID_PREFIX <= a then [] else [Owner(a)]
    case Tree(d) => [Graft(d)]
    case Nested(inner) => InnerSteps(inner)
    case Unknown => [Bad]
  }

  function Flatten(items: seq<Item>): seq<Step> {
    if items == [] then [] else Flatten(items[..|items| - 1]) + ItemSteps(items[|items| - 1])
  }

  /** What tree `did` asks for; its genesis address if it has no authentications. */
  function Steps(graph: Graph, did: Did): seq<Step>
    requires did in graph
  {
    match graph[did]
    case Absent => [Owner(DidToAddr(did))]
    case Single(d) => [Graft(d)]
    case Many(items) => Flatten(items)
    case Unexpected => [Bad]
  }

  // ---------------------------------------------------------------- the walk

  function Appended(owners: seq<string>, more: Owners): Owners {
    if more.Err? then more else Ok(owners + more.value)
  }

  ghost function Resolve(graph: Graph, did: Did, seen: set<Did>): Owners
    decreases graph.Keys - seen, 0
  {
    if did !in graph then Err(Malformed)
    else if did in seen then Err(Loop)
    else ResolveSteps(graph, Steps(graph, did), seen + {did})
  }

  ghost function ResolveSteps(graph: Graph, steps: seq<Step>, seen: set<Did>): Owners
    decreases graph.Keys - seen, |steps|
  {
    if steps == [] then Ok([])
    else
      var before := ResolveSteps(graph, steps[..|steps| - 1], seen);
      if before.Err? then before
      else
        match steps[|steps| - 1]
        case Owner(a) => Ok(before.value + [a])
        case Bad => Err(Malformed)
        case Graft(d) => Appended(before.value, Resolve(graph, d, seen))
  }

  // ---------------------------------------------------------------- walks, independently of the code

  /** Tree `a` lists tree `b`, by itself, in its list or in a list inside it. */
  ghost predicate Edge(graph: Graph, a: Did, b: Did) {
    && a in graph
    && (|| graph[a] == Single(b)
        || (graph[a].Many? && Tree(b) in graph[a].items)
        || (graph[a].Many? && exists inner :: Nested(inner) in graph[a].items && InnerTree(b) in inner))
  }

  /**
   Tree `did` names `addr`: as the address behind its DID if it has no authentications, as an
   item that is no tupelo DID, or in a list inside its list, where nothing is left out.
   */
  ghost predicate Names(graph: Graph, did: Did, addr: string) {
    && did in graph
    && (|| (graph[did].Absent? && IsBehind(did, addr))
        || (graph[did].Many? && Addr(addr) in graph[did].items && !(DID_PREFIX <= addr))
        || (graph[did].Many? && exists inner :: Nested(inner) in graph[did].items && InnerAddr(addr) in inner))
  }

  ghost predicate Walk(graph: Graph, p: seq<Did>, root: Did) {
    && p != [] && p[0] == root
    && forall i :: 0 <= i < |p| - 1 ==> Edge(graph, p[i], p[i + 1])
  }

  ghost function Last(p: seq<Did>): Did
    requires p != []
  {
    p[|p| - 1]
  }

  /** The walk comes back to where it has been. */
  ghost predicate Closes(p: seq<Did>) {
    p != [] && Last(p) in p[..|p| - 1]
  }

  /** The tree cannot be read, or holds something that is neither an address nor a tree. */
  ghost predicate Broken(graph: Graph, did: Did) {
    || did !in graph
    || graph[did].Unexpected?
    || (graph[did].Many? && Unknown in graph[did].items)
    || (graph[did].Many? && exists inner :: Nested(inner) in graph[did].items && InnerUnknown in inner)
  }

  /** Some walk from `root` runs into a cycle. */
  ghost predicate CycleReachable(graph: Graph, root: Did) {
    exists p :: Walk(graph, p, root) && Closes(p)
  }

  /** Some walk from `root` ends at a tree that cannot be read. */
  ghost predicate BrokenReachable(graph: Graph, root: Did) {
    exists p :: Walk(graph, p, root) && Broken(graph, Last(p))
  }

  /** `addr` is named by some tree that a walk from `root` ends at. */
  ghost predicate OwnerReachable(graph: Graph, root: Did, addr: string) {
    exists p :: Walk(graph, p, root) && Names(graph, Last(p), addr)
  }

  // ---------------------------------------------------------------- steps say the same

  lemma {:induction false} FlattenHolds(items: seq<Item>, step: Step)
    ensures step in Flatten(items) <==> exists item :: item in items && step in ItemSteps(item)
  {
    if items != [] {
      hide ItemSteps;
      FlattenHolds(items[..|items| - 1], step);
      assert items == items[..|items| - 1] + [items[|items| - 1]];
    }
  }

  lemma InnerHolds(inner: seq<Inner>)
    ensures forall a :: Owner(a) in InnerSteps(inner) <==> InnerAddr(a) in inner
    ensures forall d :: Graft(d) in InnerSteps(inner) <==> InnerTree(d) in inner
    ensures Bad in InnerSteps(inner) <==> InnerUnknown in inner
  {
    var steps := InnerSteps(inner);
    assert forall k :: 0 <= k < |inner| ==> steps[k] == InnerStep(inner[k]);
    forall x | x in inner
      ensures InnerStep(x) in steps
    {
      var k :| 0 <= k < |inner| && inner[k] == x;
      assert steps[k] == InnerStep(x);
    }
    assert InnerStep(InnerUnknown) == Bad;
    assert forall a :: InnerStep(InnerAddr(a)) == Owner(a);
    assert forall d :: InnerStep(InnerTree(d)) == Graft(d);
  }

  lemma StepsGraft(graph: Graph, did: Did, b: Did)
    requires did in graph
    ensures Graft(b) in Steps(graph, did) <==> Edge(graph, did, b)
  {
    if graph[did].Many? {
      var items := graph[did].items;
      FlattenHolds(items, Graft(b));
      ItemGraft(items, b);
    }
  }

  lemma ItemGraft(items: seq<Item>, b: Did)
    ensures (exists item :: item in items && Graft(b) in ItemSteps(item)) <==>
            Tree(b) in items || exists inner :: Nested(inner) in items && InnerTree(b) in inner
  {
    forall item | item in items
      ensures Graft(b) in ItemSteps(item) <==> item == Tree(b) || (item.Nested? && InnerTree(b) in item.inner)
    {
      if item.Nested? {
        InnerHolds(item.inner);
      }
    }
  }

  lemma StepsOwner(graph: Graph, did: Did, addr: string)
    requires did in graph
    ensures Owner(addr) in Steps(graph, did) <==> Names(graph, did, addr)
  {
    AddressIsBehind(did, addr);
    if graph[did].Many? {
      var items := graph[did].items;
      FlattenHolds(items, Owner(addr));
      ItemOwner(items, addr);
    }
  }

  lemma ItemOwner(items: seq<Item>, addr: string)
    ensures (exists item :: item in items && Owner(addr) in ItemSteps(item)) <==>
            || (Addr(addr) in items && !(DID_PREFIX <= addr))
            || exists inner :: Nested(inner) in items && InnerAddr(addr) in inner
  {
    forall item | item in items
      ensures Owner(addr) in ItemSteps(item) <==>
              (item == Addr(addr) && !(DID_PREFIX <= addr)) || (item.Nested? && InnerAddr(addr) in item.inner)
    {
      if item.Nested? {
        InnerHolds(item.inner);
      }
    }
  }

  lemma StepsBad(graph: Graph, did: Did)
    requires did in graph
    ensures Bad in Steps(graph, did) <==> Broken(graph, did)
  {
    if graph[did].Many? {
      var items := graph[did].items;
      FlattenHolds(items, Bad);
      ItemBad(items);
    }
  }

  lemma ItemBad(items: seq<Item>)
    ensures (exists item :: item in items && Bad in ItemSteps(item)) <==>
            Unknown in items || exists inner :: Nested(inner) in items && InnerUnknown in inner
  {
    forall item | item in items
      ensures Bad in ItemSteps(item) <==> item == Unknown || (item.Nested? && InnerUnknown in item.inner)
    {
      if item.Nested? {
        InnerHolds(item.inner);
      }
    }
  }

  // ---------------------------------------------------------------- failures

  /** Why a resolution that had already seen `seen` must fail with `why`. */
  ghost predicate Explains(graph: Graph, p: seq<Did>, did: Did, seen: set<Did>, why: Failure) {
    && Walk(graph, p, did)
    && match why
       case Malformed => Broken(graph, Last(p))
       case Loop => Last(p) in seen || Closes(p)
  }

  lemma ExtendWalk(graph: Graph, a: Did, p: seq<Did>, b: Did, seen: set<Did>, why: Failure)
    requires Edge(graph, a, b) && Explains(graph, p, b, seen + {a}, why)
    ensures Explains(graph, [a] + p, a, seen, why)
  {
    hide Edge;
    var q := [a] + p;
    WalkFrom(graph, a, p, b);
    assert q[..|q| - 1] == [a] + p[..|p| - 1];
  }

  lemma WalkFrom(graph: Graph, a: Did, p: seq<Did>, b: Did)
    requires Edge(graph, a, b) && Walk(graph, p, b)
    ensures Walk(graph, [a] + p, a)
  {
    hide Edge;
    var q := [a] + p;
    forall i | 0 <= i < |q| - 1
      ensures Edge(graph, q[i], q[i + 1])
    {
      if i > 0 {
        var k := i - 1;
        assert q[i] == p[k] && q[i + 1] == p[k + 1];
      }
    }
  }

  lemma WalkOn(graph: Graph, p: seq<Did>, root: Did)
    requires Walk(graph, p, root) && |p| > 1
    ensures Walk(graph, p[1..], p[1])
  {
    var q := p[1..];
    forall i | 0 <= i < |q| - 1
      ensures Edge(graph, q[i], q[i + 1])
    {
      var j := i + 1;
      assert Edge(graph, p[j], p[j + 1]);
    }
  }

  /** A failure comes from some walk. */
  lemma FailureExplained(graph: Graph, did: Did, seen: set<Did>) returns (p: seq<Did>)
    requires Resolve(graph, did, seen).Err?
    ensures Explains(graph, p, did, seen, Resolve(graph, did, seen).error)
    decreases graph.Keys - seen, 0
  {
    hide Steps, Edge;
    p := [did];
    if did in graph && did !in seen {
      var b := FailingStep(graph, Steps(graph, did), seen + {did});
      StepsBad(graph, did);
      if b.Some? {
        StepsGraft(graph, did, b.value);
        var q := FailureExplained(graph, b.value, seen + {did});
        ExtendWalk(graph, did, q, b.value, seen, Resolve(graph, did, seen).error);
        p := [did] + q;
      }
    }
  }

  /** Which step failed: a graft that fails the same way, or else a malformed one. */
  lemma {:induction false} FailingStep(graph: Graph, steps: seq<Step>, seen: set<Did>) returns (b: Option<Did>)
    requires ResolveSteps(graph, steps, seen).Err?
    ensures b.Some? ==> Graft(b.value) in steps && Resolve(graph, b.value, seen) == ResolveSteps(graph, steps, seen)
    ensures b.None? ==> Bad in steps && ResolveSteps(graph, steps, seen).error == Malformed
  {
    hide Resolve;
    var init, last := steps[..|steps| - 1], steps[|steps| - 1];
    if ResolveSteps(graph, init, seen).Err? {
      b := FailingStep(graph, init, seen);
    } else {
      b := if last.Graft? then Some(last.did) else None;
    }
  }

  /** A step that fails makes the steps fail. */
  lemma {:induction false} StepFails(graph: Graph, steps: seq<Step>, seen: set<Did>, k: nat)
    requires k < |steps|
    requires steps[k] == Bad || (steps[k].Graft? && Resolve(graph, steps[k].did, seen).Err?)
    ensures ResolveSteps(graph, steps, seen).Err?
  {
    hide Resolve;
    if k < |steps| - 1 {
      StepFails(graph, steps[..|steps| - 1], seen, k);
    }
  }

  /** A walk that explains a failure makes the resolution fail, one way or another. */
  lemma {:induction false} ExplainedFails(graph: Graph, p: seq<Did>, did: Did, seen: set<Did>, why: Failure)
    requires Explains(graph, p, did, seen, why)
    ensures Resolve(graph, did, seen).Err?
    decreases |p|
  {
    hide Steps, Edge, Broken;
    if did in graph && did !in seen {
      if |p| == 1 {
        StepsBad(graph, did);
        var k :| 0 <= k < |Steps(graph, did)| && Steps(graph, did)[k] == Bad;
        StepFails(graph, Steps(graph, did), seen + {did}, k);
      } else {
        var q := p[1..];
        assert Edge(graph, p[0], p[1]);
        WalkOn(graph, p, did);
        assert p[..|p| - 1] == [did] + q[..|q| - 1];
        ExplainedFails(graph, q, p[1], seen + {did}, why);
        StepsGraft(graph, did, p[1]);
        var k :| 0 <= k < |Steps(graph, did)| && Steps(graph, did)[k] == Graft(p[1]);
        StepFails(graph, Steps(graph, did), seen + {did}, k);
      }
    }
  }

  /**
   Resolution fails exactly if a cycle or an unreadable tree can be reached. A tree
   reached twice along different ways is no failure.
   */
  lemma FailsExactly(graph: Graph, root: Did)
    ensures Resolve(graph, root, {}).Err? <==> CycleReachable(graph, root) || BrokenReachable(graph, root)
  {
    hide Resolve;
    if Resolve(graph, root, {}).Err? {
      var p := FailureExplained(graph, root, {});
      assert Closes(p) || Broken(graph, Last(p));
    }
    if CycleReachable(graph, root) {
      var p :| Walk(graph, p, root) && Closes(p);
      ExplainedFails(graph, p, root, {}, Loop);
    }
    if BrokenReachable(graph, root) {
      var p :| Walk(graph, p, root) && Broken(graph, Last(p));
      ExplainedFails(graph, p, root, {}, Malformed);
    }
  }

  /** The reported reason is true, so in a readable graph a loop is reported exactly for cycles. */
  lemma LoopExactly(graph: Graph, root: Did)
    ensures Resolve(graph, root, {}) == Err(Loop) ==> CycleReachable(graph, root)
    ensures Resolve(graph, root, {}) == Err(Malformed) ==> BrokenReachable(graph, root)
    ensures !BrokenReachable(graph, root) ==> (Resolve(graph, root, {}) == Err(Loop) <==> CycleReachable(graph, root))
  {
    hide Resolve;
    FailsExactly(graph, root);
    if Resolve(graph, root, {}).Err? {
      var p := FailureExplained(graph, root, {});
    }
  }

  // ---------------------------------------------------------------- owners

  /** What the steps add up to: own addresses and those of grafted trees. */
  lemma {:induction false} StepsOwners(graph: Graph, steps: seq<Step>, seen: set<Did>, addr: string)
    requires ResolveSteps(graph, steps, seen).Ok?
    ensures forall k :: 0 <= k < |steps| && steps[k].Graft? ==> Resolve(graph, steps[k].did, seen).Ok?
    ensures addr in ResolveSteps(graph, steps, seen).value <==>
            exists k :: 0 <= k < |steps| && (steps[k] == Owner(addr)
              || (steps[k].Graft? && addr in Resolve(graph, steps[k].did, seen).value))
  {
    hide Resolve;
    if steps != [] {
      var init, last := steps[..|steps| - 1], steps[|steps| - 1];
      StepsOwners(graph, init, seen, addr);
      assert forall k :: 0 <= k < |init| ==> steps[k] == init[k];
    }
  }

  lemma SuccessOpened(graph: Graph, did: Did, seen: set<Did>)
    requires Resolve(graph, did, seen).Ok?
    ensures did in graph && did !in seen
    ensures Resolve(graph, did, seen) == ResolveSteps(graph, Steps(graph, did), seen + {did})
  {
  }

  /** An address in the result is named at the end of some walk. */
  lemma OwnerExplained(graph: Graph, did: Did, seen: set<Did>, addr: string) returns (p: seq<Did>)
    requires Resolve(graph, did, seen).Ok? && addr in Resolve(graph, did, seen).value
    ensures Walk(graph, p, did) && Names(graph, Last(p), addr)
    decreases graph.Keys - seen
  {
    hide Resolve, ResolveSteps, Steps, Edge, Names;
    SuccessOpened(graph, did, seen);
    var steps, seen' := Steps(graph, did), seen + {did};
    StepsOwners(graph, steps, seen', addr);
    var k :| 0 <= k < |steps| && (steps[k] == Owner(addr)
      || (steps[k].Graft? && addr in Resolve(graph, steps[k].did, seen').value));
    p := [did];
    StepsOwner(graph, did, addr);
    if steps[k].Graft? {
      StepsGraft(graph, did, steps[k].did);
      var q := OwnerExplained(graph, steps[k].did, seen', addr);
      WalkFrom(graph, did, q, steps[k].did);
      p := [did] + q;
    }
  }

  /** An address named at the end of a walk is in the result. */
  lemma {:induction false} NamedIsOwner(graph: Graph, p: seq<Did>, did: Did, seen: set<Did>, addr: string)
    requires Resolve(graph, did, seen).Ok?
    requires Walk(graph, p, did) && Names(graph, Last(p), addr)
    ensures addr in Resolve(graph, did, seen).value
    decreases |p|
  {
    hide Resolve, ResolveSteps, Steps, Edge, Names;
    SuccessOpened(graph, did, seen);
    var steps, seen' := Steps(graph, did), seen + {did};
    StepsOwners(graph, steps, seen', addr);
    if |p| == 1 {
      StepsOwner(graph, did, addr);
      var k :| 0 <= k < |steps| && steps[k] == Owner(addr);
    } else {
      assert Edge(graph, p[0], p[1]);
      StepsGraft(graph, did, p[1]);
      var k :| 0 <= k < |steps| && steps[k] == Graft(p[1]);
      var q := p[1..];
      WalkOn(graph, p, did);
      NamedIsOwner(graph, q, p[1], seen', addr);
    }
  }

  /** A resolution that succeeds gives exactly the addresses named by reachable trees. */
  lemma OwnersExactly(graph: Graph, root: Did, addr: string)
    requires Resolve(graph, root, {}).Ok?
    ensures addr in Resolve(graph, root, {}).value <==> OwnerReachable(graph, root, addr)
  {
    hide Resolve;
    if addr in Resolve(graph, root, {}).value {
      var p := OwnerExplained(graph, root, {}, addr);
    }
    if OwnerReachable(graph, root, addr) {
      var p :| Walk(graph, p, root) && Names(graph, Last(p), addr);
      NamedIsOwner(graph, p, root, {}, addr);
    }
  }

  // ---------------------------------------------------------------- the code

  lemma {:induction false} FailureStays(graph: Graph, before: seq<Step>, after: seq<Step>, seen: set<Did>)
    requires ResolveSteps(graph, before, seen).Err?
    ensures ResolveSteps(graph, before + after, seen) == ResolveSteps(graph, before, seen)
    decreases |after|
  {
    hide Resolve;
    if after == [] {
      assert before + after == before;
    } else {
      FailureStays(graph, before, after[..|after| - 1], seen);
      assert (before + after)[..|before + after| - 1] == before + after[..|after| - 1];
    }
  }

  /** One more step. */
  lemma AddStep(graph: Graph, before: seq<Step>, step: Step, seen: set<Did>)
    requires ResolveSteps(graph, before, seen).Ok?
    ensures step.Owner? ==>
              ResolveSteps(graph, before + [step], seen) == Ok(ResolveSteps(graph, before, seen).value + [step.addr])
    ensures step.Bad? ==> ResolveSteps(graph, before + [step], seen) == Err(Malformed)
    ensures step.Graft? ==>
              var was, more := ResolveSteps(graph, before, seen).value, Resolve(graph, step.did, seen);
              ResolveSteps(graph, before + [step], seen) == Appended(was, more)
  {
    hide Resolve;
    assert (before + [step])[..|before + [step]| - 1] == before;
  }

  lemma {:induction false} FlattenSplit(items: seq<Item>, i: nat)
    requires i <= |items|
    ensures Flatten(items) == Flatten(items[..i]) + Flatten(items[i..])
  {
    hide ItemSteps;
    if i == |items| {
      assert items[..i] == items && items[i..] == [];
    } else {
      var n := |items| - 1;
      var init, tail := items[..n], items[i..];
      FlattenSplit(init, i);
      assert init[..i] == items[..i];
      assert tail[..|tail| - 1] == init[i..] && tail[|tail| - 1] == items[n];
    }
  }

  /** A tree that asks for one thing. */
  lemma OneStep(graph: Graph, step: Step, seen: set<Did>)
    ensures step.Owner? ==> ResolveSteps(graph, [step], seen) == Ok([step.addr])
    ensures step.Bad? ==> ResolveSteps(graph, [step], seen) == Err(Malformed)
    ensures step.Graft? ==> ResolveSteps(graph, [step], seen) == Resolve(graph, step.did, seen)
  {
    hide Resolve;
    var none: seq<string> := [];
    assert [step][..0] == [];
    assert step.Owner? ==> none + [step.addr] == [step.addr];
    if step.Graft? && Resolve(graph, step.did, seen).Ok? {
      assert none + Resolve(graph, step.did, seen).value == Resolve(graph, step.did, seen).value;
    }
  }

  method ResolveOwners(graph: Graph, origin: Did) returns (owners: Owners)
    ensures owners.Err? <==> CycleReachable(graph, origin) || BrokenReachable(graph, origin)
    ensures owners == Err(Loop) ==> CycleReachable(graph, origin)
    ensures owners == Err(Malformed) ==> BrokenReachable(graph, origin)
    ensures owners.Ok? ==> forall a :: a in owners.value <==> OwnerReachable(graph, origin, a)
  {
    hide Resolve, CycleReachable, BrokenReachable, OwnerReachable;
    owners := ResolveOwnersRecursively(graph, origin, {});
    FailsExactly(graph, origin);
    LoopExactly(graph, origin);
    forall a | owners.Ok?
      ensures a in owners.value <==> OwnerReachable(graph, origin, a)
    {
      OwnersExactly(graph, origin, a);
    }
  }

  method ResolveOwnersRecursively(graph: Graph, did: Did, seen: set<Did>) returns (r: Owners)
    ensures r == Resolve(graph, did, seen)
    decreases graph.Keys - seen, 1
  {
    if did !in graph {
      return Err(Malformed);
    }
    if did in seen {
      return Err(Loop);
    }
    match graph[did]
    case Absent =>
      OneStep(graph, Owner(DidToAddr(did)), seen + {did});
      r := Ok([DidToAddr(did)]);
    case Unexpected =>
      OneStep(graph, Bad, seen + {did});
      r := Err(Malformed);
    case Single(d) =>
      OneStep(graph, Graft(d), seen + {did});
      r := ResolveOwnersRecursively(graph, d, seen + {did});
    case Many(items) =>
      r := ResolveItems(graph, items, seen + {did});
  }

  /** The loop over a list of authentications. */
  method ResolveItems(graph: Graph, items: seq<Item>, seen: set<Did>) returns (r: Owners)
    ensures r == ResolveSteps(graph, Flatten(items), seen)
    decreases graph.Keys - seen, 3
  {
    hide Resolve, ResolveSteps;
    var owners: seq<string> := [];
    NoSteps(graph, seen);
    for i := 0 to |items|
      invariant ResolveSteps(graph, Flatten(items[..i]), seen) == Ok(owners)
    {
      ghost var before := Flatten(items[..i]);
      FlattenSplit(items, i + 1);
      assert items[..i + 1][..i] == items[..i];
      assert Flatten(items[..i + 1]) == before + ItemSteps(items[i]);
      r := ResolveItem(graph, items[i], seen, before, owners);
      if r.Err? {
        FailureStays(graph, before + ItemSteps(items[i]), Flatten(items[i + 1..]), seen);
        return;
      }
      owners := r.value;
    }
    assert items[..|items|] == items;
    r := Ok(owners);
  }

  lemma NoSteps(graph: Graph, seen: set<Did>)
    ensures ResolveSteps(graph, [], seen) == Ok([])
  {
  }

  /** One authentication, its owners appended to those found so far. */
  method ResolveItem(graph: Graph, item: Item, seen: set<Did>, ghost before: seq<Step>,
                     owners: seq<string>) returns (r: Owners)
    requires ResolveSteps(graph, before, seen) == Ok(owners)
    ensures r == ResolveSteps(graph, before + ItemSteps(item), seen)
    decreases graph.Keys - seen, 2
  {
    hide Resolve, ResolveSteps;
    match item
    case Tree(d) =>
      AddStep(graph, before, Graft(d), seen);
      var more := ResolveOwnersRecursively(graph, d, seen);
      r := Appended(owners, more);
    case Addr(a) =>
      AddStep(graph, before, Owner(a), seen);
      assert before + [] == before;
      r := Ok(if DID_PREFIX <= a then owners else owners + [a]);
    case Unknown =>
      AddStep(graph, before, Bad, seen);
      r := Err(Malformed);
    case Nested(inner) =>
      var found := owners;
      assert before + InnerSteps(inner)[..0] == before;
      for k := 0 to |inner|
        invariant ResolveSteps(graph, before + InnerSteps(inner)[..k], seen) == Ok(found)
      {
        ghost var done := before + InnerSteps(inner)[..k];
        AddStep(graph, done, InnerStep(inner[k]), seen);
        assert done + [InnerStep(inner[k])] == before + InnerSteps(inner)[..k + 1];
        assert before + InnerSteps(inner) == (before + InnerSteps(inner)[..k + 1]) + InnerSteps(inner)[k + 1..];
        match inner[k]
        case InnerAddr(a) =>
          found := found + [a];
        case InnerTree(d) =>
          var more := ResolveOwnersRecursively(graph, d, seen);
          if more.Err? {
            FailureStays(graph, before + InnerSteps(inner)[..k + 1], InnerSteps(inner)[k + 1..], seen);
            return more;
          }
          found := found + more.value;
        case InnerUnknown =>
          FailureStays(graph, before + InnerSteps(inner)[..k + 1], InnerSteps(inner)[k + 1..], seen);
          return Err(Malformed);
      }
      assert InnerSteps(inner)[..|inner|] == InnerSteps(inner);
      r := Ok(found);
  }
}
