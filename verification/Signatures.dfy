/**
 sdk/signatures/signature.go and sdk/bls: counting signers, restoring group keys and
 aggregating BLS signatures.

 Points are ideal: a group key is the multiset of the keys summed into it, and a
 signature the multiset of (key, message) pairs summed into it. A signature verifies
 under a group key for a message exactly when it is that key's pairs with that message.
 */
module SignatureModel {
  import opened Wire
  import opened Sums

  const MAX_UINT32: int := 0xFFFF_FFFF

  type VerKey = string

  /** What signers sign: a round, through its CID. */
  type Message = Round

  datatype KeyType = KeyTypeSecp256k1 | KeyTypeBLSGroupSig

  /** `publicKey` is `None` until restored: it is not sent along. */
  datatype Signature = Signature(
    keyType: KeyType,
    publicKey: Option<multiset<VerKey>>,
    signers: seq<uint32>,
    point: multiset<(VerKey, Message)>)

  /** VerKey.Verify */
  ghost predicate Verifies(key: multiset<VerKey>, msg: Message, point: multiset<(VerKey, Message)>) {
    forall k, m :: point[(k, m)] == if m == msg then key[k] else 0
  }

  /** A signature determines its message, and a key and a message determine their signature. */
  lemma VerifiesExactly(key: multiset<VerKey>, msg: Message, point: multiset<(VerKey, Message)>,
                        other: Message, point': multiset<(VerKey, Message)>)
    requires Verifies(key, msg, point)
    ensures Verifies(key, msg, point') <==> point' == point
    ensures key != multiset{} ==> (Verifies(key, other, point) <==> other == msg)
  {
    if Verifies(key, msg, point') {
      forall p: (VerKey, Message)
        ensures point'[p] == point[p]
      {
        assert point'[(p.0, p.1)] == point[(p.0, p.1)];
      }
    }
    if key != multiset{} {
      var k :| k in key;
      assert point[(k, msg)] > 0;
    }
  }

  /** Who the vector names. */
  ghost function SignerSet(signers: seq<uint32>): set<nat> {
    set i | 0 <= i < |signers| && signers[i] > 0 :: i
  }

  /** The group key a vector stands for. */
  ghost function GroupKey(signers: seq<uint32>, keys: seq<VerKey>): multiset<VerKey>
    requires |signers| == |keys|
  {
    if signers == [] then multiset{}
    else
      var n := |signers| - 1;
      GroupKey(signers[..n], keys[..n]) + multiset{}[keys[n] := signers[n]]
  }

  // ---------------------------------------------------------------- operations

  method SignerCount(sig: Signature) returns (count: nat)
    ensures count == |SignerSet(sig.signers)|
  {
    count := 0;
    ghost var seen: set<nat> := {};
    for i := 0 to |sig.signers|
      invariant seen == set j | 0 <= j < i && sig.signers[j] > 0 :: j
      invariant count == |seen|
    {
      if sig.signers[i] > 0 {
        count := count + 1;
        seen := seen + {i};
      }
    }
    assert seen == SignerSet(sig.signers);
  }

  /** One member, once. */
  ghost predicate NamesOnly(signers: seq<uint32>, index: nat) {
    index < |signers| && forall i :: 0 <= i < |signers| ==> signers[i] == if i == index then 1 else 0
  }

  /** A signature by one member; fails for an index outside the group. */
  method BLSSign(key: VerKey, msg: Message, signerLen: nat, signerIndex: nat) returns (sig: Result<Signature, string>)
    ensures sig.Ok? <==> signerIndex < signerLen
    ensures sig.Ok? ==>
              && sig.value.keyType == KeyTypeBLSGroupSig
              && sig.value.publicKey == Some(multiset{key})
              && |sig.value.signers| == signerLen
              && NamesOnly(sig.value.signers, signerIndex) && SignerSet(sig.value.signers) == {signerIndex}
              && sig.value.point == multiset{(key, msg)}
  {
    if signerIndex >= signerLen {
      return Err("signer index must be less than signer length");
    }
    var signers: seq<uint32> := seq(signerLen, i => if i == signerIndex then 1 else 0);
    sig := Ok(Signature(KeyTypeBLSGroupSig, Some(multiset{key}), signers, multiset{(key, msg)}));
    assert signers[signerIndex] == 1 && forall i :: 0 <= i < signerLen && i != signerIndex ==> signers[i] == 0;
    assert SignerSet(signers) == {signerIndex};
  }

  method RestoreBLSPublicKey(sig: Signature, knownVerKeys: seq<VerKey>) returns (restored: Result<Signature, string>)
    ensures restored.Ok? <==> |knownVerKeys| == |sig.signers|
    ensures restored.Ok? ==>
              var key := GroupKey(sig.signers, knownVerKeys);
              restored.value == sig.(keyType := KeyTypeBLSGroupSig, publicKey := Some(key))
  {
    if |knownVerKeys| != |sig.signers| {
      return Err("error known verkeys length did not match signers length");
    }
    var verKeys: seq<VerKey> := [];
    for i := 0 to |sig.signers|
      invariant multiset(verKeys) == GroupKey(sig.signers[..i], knownVerKeys[..i])
    {
      var verKey, cnt := knownVerKeys[i], sig.signers[i];
      var newKeys: seq<VerKey> := [];
      for j := 0 to cnt
        invariant multiset(newKeys) == multiset{}[verKey := j]
      {
        newKeys := newKeys + [verKey];
      }
      assert sig.signers[..i + 1][..i] == sig.signers[..i] && knownVerKeys[..i + 1][..i] == knownVerKeys[..i];
      verKeys := verKeys + newKeys;
    }
    assert sig.signers[..|sig.signers|] == sig.signers && knownVerKeys[..|knownVerKeys|] == knownVerKeys;
    restored := Ok(sig.(keyType := KeyTypeBLSGroupSig, publicKey := Some(multiset(verKeys))));
  }

  // ---------------------------------------------------------------- aggregation

  ghost function CountAt(i: nat): Signature -> nat {
    (sig: Signature) => if i < |sig.signers| then sig.signers[i] else 0
  }

  /** What the aggregate of `sigs` counts for signer `i`. */
  ghost function TotalAt(sigs: seq<Signature>, i: nat): nat {
    Total(sigs, CountAt(i))
  }

  ghost function SumKeys(sigs: seq<Signature>): multiset<VerKey>
    requires forall s :: s in sigs ==> s.publicKey.Some?
  {
    if sigs == [] then multiset{} else SumKeys(sigs[..|sigs| - 1]) + sigs[|sigs| - 1].publicKey.value
  }

  ghost function SumPoints(sigs: seq<Signature>): multiset<(VerKey, Message)> {
    if sigs == [] then multiset{} else SumPoints(sigs[..|sigs| - 1]) + sigs[|sigs| - 1].point
  }

  ghost predicate Aggregable(sigs: seq<Signature>) {
    && sigs != []
    && (forall s :: s in sigs ==> s.keyType == KeyTypeBLSGroupSig && |s.signers| == |sigs[0].signers|)
    && forall i :: 0 <= i < |sigs[0].signers| ==> TotalAt(sigs, i) <= MAX_UINT32
  }

  ghost predicate IsAggregate(sigs: seq<Signature>, sig: Signature)
    requires sigs != [] && forall s :: s in sigs ==> s.publicKey.Some?
  {
    && sig.keyType == KeyTypeBLSGroupSig
    && |sig.signers| == |sigs[0].signers|
    && (forall i :: 0 <= i < |sig.signers| ==> sig.signers[i] == TotalAt(sigs, i))
    && sig.point == SumPoints(sigs)
    && sig.publicKey == Some(SumKeys(sigs))
  }

  /** Adds one vector to the running totals; fails if a total would not fit in 32 bits. */
  method AddSigners(totals: seq<uint32>, signers: seq<uint32>) returns (sum: Option<seq<uint32>>)
    requires |totals| == |signers|
    ensures sum.Some? <==> forall i :: 0 <= i < |totals| ==> totals[i] + signers[i] <= MAX_UINT32
    ensures sum.Some? ==> |sum.value| == |totals| && forall i :: 0 <= i < |totals| ==>
              sum.value[i] == totals[i] + signers[i]
  {
    var acc := totals;
    for i := 0 to |signers|
      invariant |acc| == |totals|
      invariant forall j :: 0 <= j < i ==> acc[j] == totals[j] + signers[j] <= MAX_UINT32
      invariant forall j :: i <= j < |acc| ==> acc[j] == totals[j]
    {
      var cnt, existing := signers[i], acc[i];
      if cnt > MAX_UINT32 - existing || existing > MAX_UINT32 - cnt {
        return None;
      }
      acc := acc[i := existing + cnt];
    }
    sum := Some(acc);
  }

  /** Succeeds exactly if the vectors have one length and no per-signer total overflows 32 bits. */
  method AggregateBLSSignatures(sigs: seq<Signature>) returns (agg: Result<Signature, string>)
    requires sigs != [] && forall s :: s in sigs ==> s.publicKey.Some?
    ensures agg.Ok? <==>
            && (forall s :: s in sigs ==> s.keyType == KeyTypeBLSGroupSig && |s.signers| == |sigs[0].signers|)
            && forall i :: 0 <= i < |sigs[0].signers| ==> TotalAt(sigs, i) <= 0xFFFF_FFFF
    ensures agg.Ok? <==> Aggregable(sigs)
    ensures agg.Ok? ==> IsAggregate(sigs, agg.value)
  {
    hide Total;
    var n := |sigs[0].signers|;
    var signers: seq<uint32> := seq(n, _ => 0);
    var keys: multiset<VerKey>, point: multiset<(VerKey, Message)> := multiset{}, multiset{};
    TotalsStart();
    for i := 0 to |sigs|
      invariant |signers| == n
      invariant forall j :: 0 <= j < n ==> signers[j] == TotalAt(sigs[..i], j)
      invariant forall s :: s in sigs[..i] ==> s.keyType == KeyTypeBLSGroupSig && |s.signers| == n
      invariant keys == SumKeys(sigs[..i]) && point == SumPoints(sigs[..i])
    {
      var sig := sigs[i];
      assert sig in sigs;
      if sig.keyType != KeyTypeBLSGroupSig {
        return Err("wrong signature type, can only aggregate BLS signatures");
      }
      if |sig.signers| != n {
        return Err("all signatures to aggregate must have the same signer length");
      }
      TotalsStep(sigs, i);
      var sum := AddSigners(signers, sig.signers);
      if sum.None? {
        TotalsOverflow(sigs, i, n, signers);
        return Err("error would overflow");
      }
      signers := sum.value;
      assert sigs[..i + 1][..i] == sigs[..i];
      keys, point := keys + sig.publicKey.value, point + sig.point;
    }
    assert sigs[..|sigs|] == sigs;
    agg := Ok(Signature(KeyTypeBLSGroupSig, Some(keys), signers, point));
  }

  lemma TotalsStart()
    ensures forall j: nat :: TotalAt([], j) == 0
  {
  }

  lemma TotalsStep(sigs: seq<Signature>, i: nat)
    requires i < |sigs|
    ensures forall j: nat :: TotalAt(sigs[..i + 1], j) == TotalAt(sigs[..i], j) + CountAt(j)(sigs[i])
  {
    assert sigs[..i + 1][..i] == sigs[..i];
  }

  /** A prefix that overflows makes the whole overflow: counts only add up. */
  lemma TotalsOverflow(sigs: seq<Signature>, i: nat, n: nat, signers: seq<uint32>)
    requires i < |sigs| && n == |sigs[0].signers| == |sigs[i].signers| == |signers|
    requires forall j :: 0 <= j < n ==> signers[j] == TotalAt(sigs[..i], j)
    requires exists j :: 0 <= j < n && signers[j] + sigs[i].signers[j] > MAX_UINT32
    ensures !Aggregable(sigs)
  {
    hide Total;
    var j :| 0 <= j < n && signers[j] + sigs[i].signers[j] > MAX_UINT32;
    TotalsStep(sigs, i);
    assert sigs == sigs[..i + 1] + sigs[i + 1..];
    TotalConcat(sigs[..i + 1], sigs[i + 1..], CountAt(j));
    assert TotalAt(sigs, j) > MAX_UINT32;
  }

  // ---------------------------------------------------------------- what aggregation promises

  lemma {:induction false} TotalPositive(sigs: seq<Signature>, i: nat)
    ensures TotalAt(sigs, i) > 0 <==> exists s :: s in sigs && i in SignerSet(s.signers)
  {
    if sigs != [] {
      var n := |sigs| - 1;
      TotalPositive(sigs[..n], i);
      assert sigs == sigs[..n] + [sigs[n]];
      assert CountAt(i)(sigs[n]) > 0 <==> i in SignerSet(sigs[n].signers);
    }
  }

  /** The aggregate names exactly the signers some part names, so its count is that of the union. */
  lemma AggregateNamesUnion(sigs: seq<Signature>, sig: Signature, i: nat)
    requires sigs != [] && (forall s :: s in sigs ==> s.publicKey.Some? && |s.signers| == |sigs[0].signers|)
    requires IsAggregate(sigs, sig)
    ensures i in SignerSet(sig.signers) <==> exists s :: s in sigs && i in SignerSet(s.signers)
  {
    hide TotalAt;
    TotalPositive(sigs, i);
    if s :| s in sigs && i in SignerSet(s.signers) {
      assert i < |sig.signers|;
    }
  }

  lemma {:induction false} GroupKeyCounts(signers: seq<uint32>, keys: seq<VerKey>, k: VerKey)
    requires |signers| == |keys|
    ensures GroupKey(signers, keys)[k] == Total(Indices(|keys|), CountFor(signers, keys, k))
  {
    if signers != [] {
      var n := |signers| - 1;
      GroupKeyCounts(signers[..n], keys[..n], k);
      assert Indices(n + 1)[..n] == Indices(n);
      TotalCongruent(Indices(n), CountFor(signers[..n], keys[..n], k), CountFor(signers, keys, k));
    }
  }

  ghost function Indices(n: nat): seq<nat> {
    seq(n, i => i)
  }

  /** How often vector entry `i` puts key `k` into the group key. */
  ghost function CountFor(signers: seq<uint32>, keys: seq<VerKey>, k: VerKey): nat -> nat
    requires |signers| == |keys|
  {
    (i: nat) => if i < |keys| && keys[i] == k then signers[i] else 0
  }

  lemma {:induction false} TotalAdds<T>(xs: seq<T>, f: T -> nat, g: T -> nat, h: T -> nat)
    requires forall x :: x in xs ==> h(x) == f(x) + g(x)
    ensures Total(xs, h) == Total(xs, f) + Total(xs, g)
  {
    if xs != [] {
      TotalAdds(xs[..|xs| - 1], f, g, h);
    }
  }

  /** Group keys add up like their vectors. */
  lemma GroupKeyAdds(a: seq<uint32>, b: seq<uint32>, sum: seq<uint32>, keys: seq<VerKey>)
    requires |a| == |b| == |sum| == |keys|
    requires forall i :: 0 <= i < |sum| ==> sum[i] as int == a[i] as int + b[i] as int
    ensures GroupKey(sum, keys) == GroupKey(a, keys) + GroupKey(b, keys)
  {
    hide GroupKey;
    forall k
      ensures GroupKey(sum, keys)[k] == GroupKey(a, keys)[k] + GroupKey(b, keys)[k]
    {
      GroupKeyCounts(a, keys, k);
      GroupKeyCounts(b, keys, k);
      GroupKeyCounts(sum, keys, k);
      TotalAdds(Indices(|keys|), CountFor(a, keys, k), CountFor(b, keys, k), CountFor(sum, keys, k));
    }
  }

  lemma {:induction false} GroupKeyZero(signers: seq<uint32>, keys: seq<VerKey>)
    requires |signers| == |keys| && forall i :: 0 <= i < |signers| ==> signers[i] == 0
    ensures GroupKey(signers, keys) == multiset{}
  {
    if signers != [] {
      GroupKeyZero(signers[..|signers| - 1], keys[..|signers| - 1]);
    }
  }

  /** The key carried by an aggregate is the one restored from its vector. */
  lemma {:induction false} AggregateKeyRestores(sigs: seq<Signature>, sum: seq<uint32>, keys: seq<VerKey>)
    requires forall s :: s in sigs ==> |s.signers| == |keys| && s.publicKey == Some(GroupKey(s.signers, keys))
    requires |sum| == |keys| && forall i :: 0 <= i < |sum| ==> sum[i] == TotalAt(sigs, i)
    ensures SumKeys(sigs) == GroupKey(sum, keys)
  {
    if sigs == [] {
      GroupKeyZero(sum, keys);
    } else {
      hide GroupKey;
      var n := |sigs| - 1;
      var init, last := sigs[..n], sigs[n];
      TotalsStep(sigs, n);
      assert sigs[..n + 1] == sigs;
      assert forall i :: 0 <= i < |keys| ==> TotalAt(init, i) == sum[i] - last.signers[i];
      var part: seq<uint32> := seq(|keys|, i requires 0 <= i < |keys| => sum[i] - last.signers[i]);
      AggregateKeyRestores(init, part, keys);
      GroupKeyAdds(part, last.signers, sum, keys);
    }
  }

  lemma {:induction false} PointsVerify(sigs: seq<Signature>, msg: Message)
    requires forall s :: s in sigs ==> s.publicKey.Some? && Verifies(s.publicKey.value, msg, s.point)
    ensures Verifies(SumKeys(sigs), msg, SumPoints(sigs))
  {
    if sigs != [] {
      PointsVerify(sigs[..|sigs| - 1], msg);
      assert Verifies(sigs[|sigs| - 1].publicKey.value, msg, sigs[|sigs| - 1].point);
    }
  }

  /**
   Aggregating valid signatures over one message gives a valid one: its key is what
   RestoreBLSPublicKey rebuilds from its vector, and it verifies under that key.
   */
  lemma AggregateIsValid(sigs: seq<Signature>, sig: Signature, keys: seq<VerKey>, msg: Message)
    requires sigs != []
    requires forall s :: s in sigs ==>
               && |s.signers| == |keys|
               && s.publicKey == Some(GroupKey(s.signers, keys))
               && Verifies(s.publicKey.value, msg, s.point)
    requires IsAggregate(sigs, sig)
    ensures |sig.signers| == |keys|
    ensures sig.publicKey == Some(GroupKey(sig.signers, keys))
    ensures Verifies(sig.publicKey.value, msg, sig.point)
  {
    hide GroupKey, Verifies, TotalAt;
    assert sigs[0] in sigs;
    AggregateKeyRestores(sigs, sig.signers, keys);
    PointsVerify(sigs, msg);
  }

  lemma {:induction false} SumKeysCounts(sigs: seq<Signature>, k: VerKey)
    requires forall s :: s in sigs ==> s.publicKey.Some?
    ensures SumKeys(sigs)[k] == Total(sigs, (s: Signature) => if s.publicKey.Some? then s.publicKey.value[k] else 0)
  {
    if sigs != [] {
      SumKeysCounts(sigs[..|sigs| - 1], k);
    }
  }

  lemma {:induction false} SumPointsCounts(sigs: seq<Signature>, p: (VerKey, Message))
    ensures SumPoints(sigs)[p] == Total(sigs, (s: Signature) => s.point[p])
  {
    if sigs != [] {
      SumPointsCounts(sigs[..|sigs| - 1], p);
    }
  }

  /** Neither success nor the aggregate depends on the order of the parts. */
  lemma AggregateOrderIrrelevant(xs: seq<Signature>, ys: seq<Signature>)
    requires xs != [] && ys != [] && multiset(xs) == multiset(ys)
    requires (forall s :: s in xs ==> s.publicKey.Some?) && (forall s :: s in ys ==> s.publicKey.Some?)
    ensures Aggregable(xs) <==> Aggregable(ys)
    ensures Aggregable(xs) ==> forall sig :: IsAggregate(xs, sig) <==> IsAggregate(ys, sig)
  {
    hide Total, SumKeys, SumPoints, CountAt;
    assert forall s :: s in xs <==> s in multiset(xs);
    assert forall s :: s in ys <==> s in multiset(ys);
    assert xs[0] in ys && ys[0] in xs;
    forall i: nat
      ensures TotalAt(xs, i) == TotalAt(ys, i)
    {
      TotalPermutation(xs, ys, CountAt(i));
    }
    forall k
      ensures SumKeys(xs)[k] == SumKeys(ys)[k]
    {
      SumKeysCounts(xs, k);
      SumKeysCounts(ys, k);
      TotalPermutation(xs, ys, (s: Signature) => if s.publicKey.Some? then s.publicKey.value[k] else 0);
    }
    forall p
      ensures SumPoints(xs)[p] == SumPoints(ys)[p]
    {
      SumPointsCounts(xs, p);
      SumPointsCounts(ys, p);
      TotalPermutation(xs, ys, (s: Signature) => s.point[p]);
    }
    assert SumKeys(xs) == SumKeys(ys) && SumPoints(xs) == SumPoints(ys);
  }
}
