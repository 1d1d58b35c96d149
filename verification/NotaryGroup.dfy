/**
 sdk/gossip/types/notarygroup.go: the members of a group in the order that fixes their
 indices, and the size of a quorum.
 */
module NotaryGroupModel {
  import opened Wire
  import opened Keys

  datatype Signer = Signer(id: string, verKey: string)

  ghost predicate Sorted(ids: seq<string>) {
    forall i, j :: 0 <= i < j < |ids| ==> !Less(ids[j], ids[i])
  }

  /** sort.Strings after appending to a sorted slice. */
  function InsertSorted(ids: seq<string>, id: string): seq<string> {
    if ids == [] || !Less(id, ids[|ids| - 1]) then ids + [id]
    else InsertSorted(ids[..|ids| - 1], id) + [ids[|ids| - 1]]
  }

  lemma {:induction false} InsertKeepsSorted(ids: seq<string>, id: string)
    requires Sorted(ids)
    ensures Sorted(InsertSorted(ids, id))
    ensures multiset(InsertSorted(ids, id)) == multiset(ids) + multiset{id}
  {
    hide Less, Sorted;
    if ids == [] {
      SortedAppend([], id);
    } else {
      var init, last := ids[..|ids| - 1], ids[|ids| - 1];
      assert ids == init + [last];
      SortedPrefix(ids);
      if Less(id, last) {
        InsertKeepsSorted(init, id);
        var r := InsertSorted(init, id);
        LessTotal(id, last);
        forall x | x in multiset(r)
          ensures !Less(last, x)
        {
          if x != id {
            assert x in multiset(ids);
            LastGreatest(ids, x);
          }
        }
        SortedAppend(r, last);
      } else {
        forall x | x in multiset(ids)
          ensures !Less(id, x)
        {
          LastGreatest(ids, x);
          NotLessTransitive(id, last, x);
        }
        SortedAppend(ids, id);
      }
    }
  }

  lemma SortedPrefix(ids: seq<string>)
    requires Sorted(ids) && ids != []
    ensures Sorted(ids[..|ids| - 1])
  {
  }

  lemma SortedAppend(ids: seq<string>, id: string)
    requires ids == [] || (Sorted(ids) && forall x :: x in multiset(ids) ==> !Less(id, x))
    ensures Sorted(ids + [id])
  {
    hide Less;
    forall i | 0 <= i < |ids|
      ensures !Less(id, ids[i])
    {
      assert ids[i] in multiset(ids);
    }
  }

  /** Nothing in a sorted listing comes after its last entry. */
  lemma LastGreatest(ids: seq<string>, x: string)
    requires Sorted(ids) && x in multiset(ids)
    ensures ids != [] && !Less(ids[|ids| - 1], x)
  {
    hide Less;
    var i :| 0 <= i < |ids| && ids[i] == x;
    LessTotal(x, x);
  }

  /** b <= a and c <= b give c <= a. */
  lemma NotLessTransitive(a: string, b: string, c: string)
    requires !Less(a, b)
    requires c == b || !Less(b, c)
    ensures !Less(a, c)
  {
    hide Less;
    if Less(a, c) {
      LessTotal(a, b);
      LessTotal(b, c);
      if b != a && b != c {
        LessTransitive(c, b, a);
      }
      LessTotal(a, c);
    }
  }

  /** A multiset of ids has one sorted listing. */
  lemma {:induction false} SortedUnique(xs: seq<string>, ys: seq<string>)
    requires Sorted(xs) && Sorted(ys) && multiset(xs) == multiset(ys)
    ensures xs == ys
  {
    hide Less, Sorted;
    assert |xs| == |multiset(xs)| == |multiset(ys)| == |ys|;
    if xs != [] {
      var n := |xs| - 1;
      LastGreatest(ys, xs[n]);
      LastGreatest(xs, ys[n]);
      LessTotal(xs[n], ys[n]);
      assert xs == xs[..n] + [xs[n]] && ys == ys[..n] + [ys[n]];
      assert multiset(xs[..n]) == multiset(xs) - multiset{xs[n]};
      assert multiset(ys[..n]) == multiset(ys) - multiset{ys[n]};
      SortedPrefix(xs);
      SortedPrefix(ys);
      SortedUnique(xs[..n], ys[..n]);
    }
  }

  // ---------------------------------------------------------------- the group

  class NotaryGroup {
    var signers: map<string, Signer>
    var sortedIds: seq<string>

    /** The ids listed are those of the members, in order. */
    ghost predicate Valid()
      reads this
    {
      && Sorted(sortedIds)
      && (forall id :: id in sortedIds <==> id in signers)
      && forall id :: id in signers ==> signers[id].id == id
    }

    constructor ()
      ensures Valid() && signers == map[] && sortedIds == []
    {
      signers, sortedIds := map[], [];
    }

    method AddSigner(signer: Signer)
      requires Valid()
      modifies this
      ensures Valid()
      ensures signers == old(signers)[signer.id := signer]
      ensures multiset(sortedIds) == old(multiset(sortedIds)) + multiset{signer.id}
    {
      hide Less, InsertSorted;
      InsertKeepsSorted(sortedIds, signer.id);
      signers := signers[signer.id := signer];
      sortedIds := InsertSorted(sortedIds, signer.id);
      assert forall id :: id in sortedIds <==> id in multiset(sortedIds);
    }

    method AllSigners() returns (all: seq<Signer>)
      requires Valid()
      ensures |all| == |sortedIds|
      ensures forall i :: 0 <= i < |all| ==> all[i] == signers[sortedIds[i]]
    {
      all := [];
      for i := 0 to |sortedIds|
        invariant |all| == i
        invariant forall j :: 0 <= j < i ==> sortedIds[j] in signers && all[j] == signers[sortedIds[j]]
      {
        all := all + [signers[sortedIds[i]]];
      }
    }

    /** The first index under which a member is listed; none for a stranger. */
    method IndexOfSigner(signer: Signer) returns (index: Option<nat>)
      requires Valid()
      ensures index.Some? <==> signer.id in signers
      ensures index.Some? ==>
                && index.value < |sortedIds|
                && signers[sortedIds[index.value]].id == signer.id
                && forall j :: 0 <= j < index.value ==> sortedIds[j] != signer.id
    {
      for i := 0 to |sortedIds|
        invariant forall j :: 0 <= j < i ==> sortedIds[j] != signer.id
      {
        if sortedIds[i] == signer.id {
          return Some(i);
        }
      }
      index := None;
    }

    method QuorumCount() returns (count: nat)
      ensures count == Quorum(|sortedIds|)
    {
      count := Ceil((|sortedIds| as real / 3.0) * 2.0);
      QuorumIsTwoThirds(|sortedIds|);
    }
  }

  // ---------------------------------------------------------------- indices

  /** The ids listed after a series of `AddSigner`s. */
  ghost function AddAll(ids: seq<string>): seq<string> {
    if ids == [] then [] else InsertSorted(AddAll(ids[..|ids| - 1]), ids[|ids| - 1])
  }

  lemma {:induction false} AddAllSorts(ids: seq<string>)
    ensures Sorted(AddAll(ids)) && multiset(AddAll(ids)) == multiset(ids)
  {
    if ids != [] {
      hide InsertSorted, Sorted;
      var init, last := ids[..|ids| - 1], ids[|ids| - 1];
      AddAllSorts(init);
      InsertKeepsSorted(AddAll(init), last);
      assert ids == init + [last];
    }
  }

  /** Every node gives the members the same indices, whatever order it learnt of them in. */
  lemma IndicesAgree(xs: seq<string>, ys: seq<string>)
    requires multiset(xs) == multiset(ys)
    ensures AddAll(xs) == AddAll(ys)
  {
    hide AddAll, Sorted;
    AddAllSorts(xs);
    AddAllSorts(ys);
    SortedUnique(AddAll(xs), AddAll(ys));
  }

  ghost predicate NoRepeat(ids: seq<string>) {
    forall i, j :: 0 <= i < j < |ids| ==> ids[i] != ids[j]
  }

  /** Adding a member twice lists it twice: indices are unambiguous exactly if nobody was. */
  lemma {:induction false} IndicesDistinctExactly(ids: seq<string>)
    ensures NoRepeat(AddAll(ids)) <==> NoRepeat(ids)
  {
    AddAllSorts(ids);
    NoRepeatAsMultiset(ids);
    NoRepeatAsMultiset(AddAll(ids));
  }

  lemma {:induction false} NoRepeatAsMultiset(ids: seq<string>)
    ensures NoRepeat(ids) <==> forall id :: multiset(ids)[id] <= 1
  {
    if ids != [] {
      var init, last := ids[..|ids| - 1], ids[|ids| - 1];
      NoRepeatAsMultiset(init);
      assert ids == init + [last];
      assert multiset(ids) == multiset(init) + multiset{last};
      if NoRepeat(ids) {
        assert NoRepeat(init);
        assert last !in init;
        assert multiset(init)[last] == 0;
      } else if NoRepeat(init) {
        assert last in init;
        assert multiset(ids)[last] >= 2;
      } else {
        var id :| multiset(init)[id] > 1;
        assert multiset(ids)[id] > 1;
      }
    }
  }

  // ---------------------------------------------------------------- quorums

  /** math.Ceil */
  function Ceil(x: real): int {
    -((-x).Floor)
  }

  /** The least number that is at least two thirds of the group. */
  function Quorum(n: nat): nat {
    (2 * n + 2) / 3
  }

  lemma QuorumIsTwoThirds(n: nat)
    ensures Ceil((n as real / 3.0) * 2.0) == Quorum(n)
    ensures 3 * Quorum(n) >= 2 * n && (Quorum(n) > 0 ==> 3 * (Quorum(n) - 1) < 2 * n)
  {
    var x := (n as real / 3.0) * 2.0;
    assert 3.0 * x == (2 * n) as real;
    var c := Ceil(x);
    assert c as real >= x && (c - 1) as real < x;
    assert (3 * c) as real >= (2 * n) as real && (3 * (c - 1)) as real < (2 * n) as real;
  }

  /** Two quorums of a group always share a member outside any minority of less than a third. */
  lemma QuorumsShareHonest(members: set<nat>, a: set<nat>, b: set<nat>, faulty: set<nat>)
    requires a <= members && b <= members && faulty <= members
    requires |a| >= Quorum(|members|) && |b| >= Quorum(|members|)
    requires 3 * |faulty| < |members|
    ensures exists i :: i in a && i in b && i !in faulty
  {
    var both := a * b;
    assert a + b <= members;
    SubsetSize(a + b, members);
    assert |a + b| == |a| + |b| - |both|;
    if both <= faulty {
      SubsetSize(both, faulty);
      assert false;
    }
    var i :| i in both && i !in faulty;
  }

  lemma {:induction false} SubsetSize(a: set<nat>, b: set<nat>)
    requires a <= b
    ensures |a| <= |b|
  {
    if a != {} {
      var x :| x in a;
      SubsetSize(a - {x}, b - {x});
    }
  }
}
