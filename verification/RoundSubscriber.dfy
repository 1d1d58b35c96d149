/**
 sdk/gossip/client/roundsubscriber.go: a client collecting round confirmations until a
 quorum has signed one.

 `Handle` is one message on values; `Collected` is the client after a series of
 messages. The class below is the object updated in place, proved to do the same.
 */
module RoundSubscriberModel {
  import opened Wire
  import opened Sums
  import opened SignatureModel
  import opened NotaryGroupModel

  /** `round` stands for the RoundCid the signature is over; `height` is not signed. */
  datatype Confirmation = Confirmation(round: Round, height: nat, signature: Signature)

  type ConflictSet = map<Round, Confirmation>

  datatype Client = Client(current: Option<Confirmation>, inflight: map<nat, ConflictSet>)

  const FRESH := Client(None, map[])

  // ---------------------------------------------------------------- one message

  ghost function Restored(keys: seq<VerKey>, conf: Confirmation): Confirmation
    requires |conf.signature.signers| == |keys|
  {
    var key := GroupKey(conf.signature.signers, keys);
    conf.(signature := conf.signature.(keyType := KeyTypeBLSGroupSig, publicKey := Some(key)))
  }

  /** A confirmation that passes the checks made on arrival. */
  ghost predicate Acceptable(keys: seq<VerKey>, conf: Confirmation) {
    && |conf.signature.signers| == |keys|
    && Verifies(GroupKey(conf.signature.signers, keys), conf.round, conf.signature.point)
  }

  ghost predicate IsQuorum(keys: seq<VerKey>, sig: Signature) {
    |SignerSet(sig.signers)| >= Quorum(|keys|)
  }

  /** The aggregate of two restored signatures of one length. */
  ghost function Merged(a: Signature, b: Signature): Signature
    requires a.publicKey.Some? && b.publicKey.Some? && Aggregable([a, b])
  {
    Signature(KeyTypeBLSGroupSig, Some(a.publicKey.value + b.publicKey.value),
              seq(|a.signers|, i requires 0 <= i < |a.signers| => SumAt(a, b, i)), a.point + b.point)
  }

  ghost function SumAt(a: Signature, b: Signature, i: nat): uint32
    requires Aggregable([a, b]) && i < |a.signers|
  {
    TotalOfTwo(a, b, i);
    assert b in [a, b] && [a, b][0] == a;
    a.signers[i] + b.signers[i]
  }

  /** roundConflictSet.add: what the set holds for the round afterwards, unless it overflows. */
  ghost function Combine(known: ConflictSet, conf: Confirmation): Option<Confirmation> {
    if conf.round !in known then Some(conf)
    else
      var existing := known[conf.round];
      var a, b := existing.signature, conf.signature;
      if a.publicKey.Some? && b.publicKey.Some? && Aggregable([a, b]) then
        Some(existing.(signature := Merged(a, b)))
      else None
  }

  ghost function Known(c: Client, h: nat): ConflictSet {
    if h in c.inflight then c.inflight[h] else map[]
  }

  /** handleMessage, up to the lookups of handleQuorum. */
  ghost function Handle(keys: seq<VerKey>, c: Client, conf: Confirmation): Client {
    if c.current.Some? && conf.height <= c.current.value.height then c
    else if !Acceptable(keys, conf) then c
    else
      var updated := Combine(Known(c, conf.height), Restored(keys, conf));
      if updated.None? then c
      else
        var inflight := c.inflight[conf.height := Known(c, conf.height)[conf.round := updated.value]];
        if IsQuorum(keys, updated.value.signature) then
          Client(updated, map h | h in inflight && h > updated.value.height :: inflight[h])
        else
          Client(c.current, inflight)
  }

  ghost function Collected(keys: seq<VerKey>, messages: seq<Confirmation>): Client {
    if messages == [] then FRESH
    else Handle(keys, Collected(keys, messages[..|messages| - 1]), messages[|messages| - 1])
  }

  // ---------------------------------------------------------------- soundness

  /** A restored signature that verifies for its round. */
  ghost predicate Sound(keys: seq<VerKey>, conf: Confirmation) {
    && Acceptable(keys, conf)
    && conf.signature.keyType == KeyTypeBLSGroupSig
    && conf.signature.publicKey == Some(GroupKey(conf.signature.signers, keys))
  }

  /** Every pair in the signature is backed by `said`. */
  ghost predicate Backed(said: (VerKey, Round) -> bool, conf: Confirmation) {
    forall k, r :: conf.signature.point[(k, r)] > 0 ==> said(k, r)
  }

  /** What a client may rely on about anything it stores. */
  ghost predicate Trusted(keys: seq<VerKey>, said: (VerKey, Round) -> bool, conf: Confirmation) {
    Sound(keys, conf) && Backed(said, conf)
  }

  ghost predicate ClientOk(keys: seq<VerKey>, said: (VerKey, Round) -> bool, c: Client) {
    && (c.current.Some? ==> Trusted(keys, said, c.current.value) && IsQuorum(keys, c.current.value.signature))
    && (forall h, r :: h in c.inflight && r in c.inflight[h] ==>
          && c.inflight[h][r].height == h
          && c.inflight[h][r].round == r
          && Trusted(keys, said, c.inflight[h][r]))
  }

  lemma RestoredTrusted(keys: seq<VerKey>, said: (VerKey, Round) -> bool, conf: Confirmation)
    requires Acceptable(keys, conf) && Backed(said, conf)
    ensures Trusted(keys, said, Restored(keys, conf))
  {
  }

  lemma TotalOfTwo(a: Signature, b: Signature, i: nat)
    ensures TotalAt([a, b], i) == CountAt(i)(a) + CountAt(i)(b)
  {
    var f := CountAt(i);
    assert [a, b][..1] == [a] && [a][..0] == [];
    assert Total([a], f) == Total([], f) + f(a);
    assert Total([a, b], f) == Total([a], f) + f(b);
  }

  lemma MergedIsAggregate(a: Signature, b: Signature)
    requires a.publicKey.Some? && b.publicKey.Some? && Aggregable([a, b])
    ensures IsAggregate([a, b], Merged(a, b))
    ensures forall sig :: IsAggregate([a, b], sig) ==> sig == Merged(a, b)
  {
    var both, m := [a, b], Merged(a, b);
    assert both[..1] == [a] && [a][..0] == [];
    assert b in both;
    forall i | 0 <= i < |a.signers|
      ensures m.signers[i] == TotalAt(both, i)
    {
      TotalOfTwo(a, b, i);
    }
    assert SumPoints([a]) == SumPoints([]) + a.point && SumPoints(both) == SumPoints([a]) + b.point;
    assert SumKeys([a]) == SumKeys([]) + a.publicKey.value && SumKeys(both) == SumKeys([a]) + b.publicKey.value;
    assert SumPoints([]) + a.point == a.point && SumKeys([]) + a.publicKey.value == a.publicKey.value;
    assert m.point == SumPoints(both) && m.publicKey == Some(SumKeys(both));
    forall sig | IsAggregate(both, sig)
      ensures sig == m
    {
      assert sig.signers == m.signers;
    }
  }

  lemma MergedTrusted(keys: seq<VerKey>, said: (VerKey, Round) -> bool, existing: Confirmation, conf: Confirmation)
    requires Trusted(keys, said, existing) && Trusted(keys, said, conf) && existing.round == conf.round
    requires Aggregable([existing.signature, conf.signature])
    ensures Trusted(keys, said, existing.(signature := Merged(existing.signature, conf.signature)))
  {
    hide GroupKey, Verifies, Aggregable, IsAggregate;
    var a, b := existing.signature, conf.signature;
    MergedIsAggregate(a, b);
    AggregateIsValid([a, b], Merged(a, b), keys, conf.round);
  }

  lemma CombineTrusted(keys: seq<VerKey>, said: (VerKey, Round) -> bool, known: ConflictSet, conf: Confirmation)
    requires Trusted(keys, said, conf)
    requires conf.round in known ==>
               && known[conf.round].round == conf.round && known[conf.round].height == conf.height
               && Trusted(keys, said, known[conf.round])
    ensures var r := Combine(known, conf);
            r.Some? ==> Trusted(keys, said, r.value) && r.value.round == conf.round && r.value.height == conf.height
  {
    hide Trusted, Aggregable, Merged;
    if conf.round in known && Combine(known, conf).Some? {
      MergedTrusted(keys, said, known[conf.round], conf);
    }
  }

  lemma HandleKeeps(keys: seq<VerKey>, said: (VerKey, Round) -> bool, c: Client, conf: Confirmation)
    requires ClientOk(keys, said, c) && Backed(said, conf)
    ensures ClientOk(keys, said, Handle(keys, c, conf))
  {
    hide Trusted, Combine, Verifies, GroupKey, Backed, IsQuorum;
    if !(c.current.Some? && conf.height <= c.current.value.height) && Acceptable(keys, conf) {
      RestoredTrusted(keys, said, conf);
      CombineTrusted(keys, said, Known(c, conf.height), Restored(keys, conf));
    }
  }

  lemma {:induction false} CollectedOk(keys: seq<VerKey>, said: (VerKey, Round) -> bool, messages: seq<Confirmation>)
    requires forall m :: m in messages ==> Backed(said, m)
    ensures ClientOk(keys, said, Collected(keys, messages))
  {
    if messages != [] {
      hide Handle, ClientOk, Backed;
      CollectedOk(keys, said, messages[..|messages| - 1]);
      HandleKeeps(keys, said, Collected(keys, messages[..|messages| - 1]), messages[|messages| - 1]);
    }
  }

  lemma {:induction false} GroupKeyHolds(signers: seq<uint32>, keys: seq<VerKey>, i: nat)
    requires |signers| == |keys| && i < |keys| && signers[i] > 0
    ensures GroupKey(signers, keys)[keys[i]] > 0
  {
    var n := |signers| - 1;
    if i < n {
      GroupKeyHolds(signers[..n], keys[..n], i);
    }
  }

  /** Whoever the vector of a sound confirmation names has signed its round. */
  lemma NamedHaveSigned(keys: seq<VerKey>, said: (VerKey, Round) -> bool, conf: Confirmation, i: nat)
    requires Acceptable(keys, conf) && Backed(said, conf) && i in SignerSet(conf.signature.signers)
    ensures i < |keys| && said(keys[i], conf.round)
  {
    GroupKeyHolds(conf.signature.signers, keys, i);
    assert conf.signature.point[(keys[i], conf.round)] > 0;
  }

  /** The current round of a client was signed by a quorum of distinct members. */
  lemma CurrentHasQuorum(keys: seq<VerKey>, said: (VerKey, Round) -> bool, messages: seq<Confirmation>)
    requires forall m :: m in messages ==> Backed(said, m)
    requires Collected(keys, messages).current.Some?
    ensures var conf := Collected(keys, messages).current.value;
            var signers := SignerSet(conf.signature.signers);
            && |signers| >= Quorum(|keys|)
            && forall i :: i in signers ==> i < |keys| && said(keys[i], conf.round)
  {
    hide Collected, Backed, SignerSet, Acceptable;
    CollectedOk(keys, said, messages);
    var conf := Collected(keys, messages).current.value;
    forall i | i in SignerSet(conf.signature.signers)
      ensures i < |keys| && said(keys[i], conf.round)
    {
      NamedHaveSigned(keys, said, conf, i);
    }
  }

  // ---------------------------------------------------------------- heights

  /** A message either leaves the current round alone or moves it to a greater height. */
  lemma HandleMovesUp(keys: seq<VerKey>, said: (VerKey, Round) -> bool, c: Client, conf: Confirmation)
    requires ClientOk(keys, said, c) && Backed(said, conf)
    ensures var c' := Handle(keys, c, conf);
            || c'.current == c.current
            || (c'.current.Some? && c'.current.value.round == conf.round && c'.current.value.height == conf.height
                && (c.current.Some? ==> c.current.value.height < conf.height))
  {
    hide Trusted, Combine, Verifies, GroupKey, Backed, IsQuorum;
    if !(c.current.Some? && conf.height <= c.current.value.height) && Acceptable(keys, conf) {
      RestoredTrusted(keys, said, conf);
      CombineTrusted(keys, said, Known(c, conf.height), Restored(keys, conf));
    }
  }

  /** Heights of current rounds never go down, and a height never changes its round. */
  lemma {:induction false} HeightsIncrease(keys: seq<VerKey>, said: (VerKey, Round) -> bool,
                                           messages: seq<Confirmation>, n: nat)
    requires forall m :: m in messages ==> Backed(said, m)
    requires n <= |messages| && Collected(keys, messages[..n]).current.Some?
    ensures var before, after := Collected(keys, messages[..n]).current, Collected(keys, messages).current;
            && after.Some?
            && before.value.height <= after.value.height
            && (before.value.height == after.value.height ==> before == after)
  {
    hide Handle, ClientOk, Backed;
    if n == |messages| {
      assert messages[..n] == messages;
    } else {
      var init, last := messages[..|messages| - 1], messages[|messages| - 1];
      assert init[..n] == messages[..n];
      HeightsIncrease(keys, said, init, n);
      CollectedOk(keys, said, init);
      HandleMovesUp(keys, said, Collected(keys, init), last);
    }
  }

  /** A confirmation that carries the height of the round it confirms. */
  ghost predicate Genuine(conf: Confirmation) {
    conf.height == conf.round.height
  }

  lemma {:induction false} CurrentGenuine(keys: seq<VerKey>, said: (VerKey, Round) -> bool, messages: seq<Confirmation>)
    requires forall m :: m in messages ==> Backed(said, m) && Genuine(m)
    ensures var current := Collected(keys, messages).current; current.Some? ==> Genuine(current.value)
  {
    if messages != [] {
      hide Handle, ClientOk, Backed;
      var init, last := messages[..|messages| - 1], messages[|messages| - 1];
      CurrentGenuine(keys, said, init);
      CollectedOk(keys, said, init);
      HandleMovesUp(keys, said, Collected(keys, init), last);
    }
  }

  // ---------------------------------------------------------------- what a client accepts

  /** A confirmation by member `i` alone, as the member publishes it. */
  ghost predicate SingleFrom(keys: seq<VerKey>, i: nat, conf: Confirmation) {
    && |conf.signature.signers| == |keys|
    && NamesOnly(conf.signature.signers, i)
    && conf.signature.point == multiset{(keys[i], conf.round)}
  }

  /** The client is at height `h` or beyond, or holds `i`'s signature of `r` at `h`. */
  ghost predicate Heard(c: Client, h: nat, r: Round, i: nat) {
    || (c.current.Some? && c.current.value.height >= h)
    || (r in Known(c, h) && i in SignerSet(Known(c, h)[r].signature.signers))
  }

  /** No quorum is left waiting. */
  ghost predicate NoneWaiting(keys: seq<VerKey>, c: Client) {
    forall h, r :: h in c.inflight && r in c.inflight[h] ==> !IsQuorum(keys, c.inflight[h][r].signature)
  }

  lemma {:induction false} GroupKeyOfOne(signers: seq<uint32>, keys: seq<VerKey>, i: nat)
    requires |signers| == |keys| && NamesOnly(signers, i)
    ensures GroupKey(signers, keys) == multiset{keys[i]}
  {
    var n := |signers| - 1;
    if i == n {
      GroupKeyZero(signers[..n], keys[..n]);
    } else {
      GroupKeyOfOne(signers[..n], keys[..n], i);
    }
  }

  lemma SingleIsAcceptable(keys: seq<VerKey>, i: nat, conf: Confirmation)
    requires SingleFrom(keys, i, conf)
    ensures Acceptable(keys, conf) && i in SignerSet(conf.signature.signers)
  {
    hide GroupKey;
    GroupKeyOfOne(conf.signature.signers, keys, i);
    assert conf.signature.signers[i] == 1;
  }

  /** Whoever either part names, a merged confirmation names. */
  lemma CombineNames(known: ConflictSet, conf: Confirmation, i: nat)
    requires conf.round in known && Combine(known, conf).Some?
    requires i in SignerSet(known[conf.round].signature.signers) || i in SignerSet(conf.signature.signers)
    ensures i in SignerSet(Combine(known, conf).value.signature.signers)
  {
    var a, b := known[conf.round].signature, conf.signature;
    assert b in [a, b] && [a, b][0] == a;
    var m := Merged(a, b);
    assert m.signers[i] == SumAt(a, b, i);
  }

  /** A single signature is only refused if its signer is counted already, as often as 32 bits allow. */
  lemma RefusedIsCounted(known: ConflictSet, conf: Confirmation, i: nat)
    requires conf.round in known && Combine(known, conf).None? && NamesOnly(conf.signature.signers, i)
    requires var a, b := known[conf.round].signature, conf.signature;
             && a.publicKey.Some? && a.keyType == KeyTypeBLSGroupSig && |a.signers| == |b.signers|
             && b.publicKey.Some? && b.keyType == KeyTypeBLSGroupSig
    ensures i in SignerSet(known[conf.round].signature.signers)
  {
    var a, b := known[conf.round].signature, conf.signature;
    assert !Aggregable([a, b]);
    var j :| 0 <= j < |a.signers| && TotalAt([a, b], j) > MAX_UINT32;
    TotalOfTwo(a, b, j);
  }

  /** The signers of `r` a client has counted at height `h`. */
  ghost function Counted(c: Client, h: nat, r: Round): set<nat> {
    if r in Known(c, h) then SignerSet(Known(c, h)[r].signature.signers) else {}
  }

  /** No signer would be counted more often than 32 bits hold. */
  ghost predicate Fits(c: Client, conf: Confirmation) {
    var known := Known(c, conf.height);
    conf.round in known ==>
      var a, b := known[conf.round].signature.signers, conf.signature.signers;
      |a| == |b| && forall i :: 0 <= i < |b| ==> a[i] as int + b[i] as int <= 0xFFFF_FFFF
  }

  lemma MergedSigners(a: seq<uint32>, b: seq<uint32>, sum: seq<uint32>)
    requires |a| == |b| == |sum| && forall i :: 0 <= i < |sum| ==> sum[i] == a[i] as int + b[i] as int
    ensures SignerSet(sum) == SignerSet(a) + SignerSet(b)
  {
  }

  lemma CombineExactly(keys: seq<VerKey>, c: Client, conf: Confirmation)
    requires ClientOk(keys, Anyone(), c) && |conf.signature.signers| == |keys|
    ensures var r := Combine(Known(c, conf.height), Restored(keys, conf));
            && (r.Some? <==> Fits(c, conf))
            && (r.Some? ==>
                  SignerSet(r.value.signature.signers) ==
                  Counted(c, conf.height, conf.round) + SignerSet(conf.signature.signers))
  {
    hide GroupKey, ClientOk;
    var known, incoming := Known(c, conf.height), Restored(keys, conf);
    if conf.round in known {
      KnownSound(keys, c, conf.height, conf.round);
      var a, b := known[conf.round].signature, incoming.signature;
      assert b in [a, b] && [a, b][0] == a;
      forall i | 0 <= i < |keys|
        ensures TotalAt([a, b], i) == a.signers[i] as int + b.signers[i] as int
      {
        TotalOfTwo(a, b, i);
      }
      if Combine(known, incoming).Some? {
        var m := Merged(a, b);
        assert forall i :: 0 <= i < |m.signers| ==> m.signers[i] == a.signers[i] as int + b.signers[i] as int;
        MergedSigners(a.signers, b.signers, m.signers);
      }
    }
  }

  /**
   What a message above the current height that passes the checks does: its signers are counted
   for its round, unless a counter would overflow; with a quorum the round becomes current and
   everything up to its height is dropped.
   */
  lemma HandledExactly(keys: seq<VerKey>, c: Client, conf: Confirmation)
    requires ClientOk(keys, Anyone(), c) && Acceptable(keys, conf)
    requires c.current.Some? ==> c.current.value.height < conf.height
    ensures var c' := Handle(keys, c, conf);
            var signers := Counted(c, conf.height, conf.round) + SignerSet(conf.signature.signers);
            && (!Fits(c, conf) ==> c' == c)
            && (Fits(c, conf) && |signers| >= Quorum(|keys|) ==>
                  && c'.current.Some? && c'.current.value.round == conf.round && c'.current.value.height == conf.height
                  && SignerSet(c'.current.value.signature.signers) == signers
                  && forall h: nat :: Known(c', h) == if h <= conf.height then map[] else Known(c, h))
            && (Fits(c, conf) && |signers| < Quorum(|keys|) ==>
                  && c'.current == c.current && Counted(c', conf.height, conf.round) == signers
                  && (forall h: nat :: h != conf.height ==> Known(c', h) == Known(c, h))
                  && (forall r :: r != conf.round ==> Counted(c', conf.height, r) == Counted(c, conf.height, r)))
  {
    hide Combine, GroupKey, Verifies, SignerSet, Acceptable, ClientOk, Fits;
    AcceptableFits(keys, conf);
    CombineExactly(keys, c, conf);
    CombineKeepsHeight(keys, c, conf, Restored(keys, conf));
  }

  /** A message that is not above the current height, or does not pass the checks, changes nothing. */
  lemma IgnoredExactly(keys: seq<VerKey>, c: Client, conf: Confirmation)
    requires (c.current.Some? && conf.height <= c.current.value.height) || !Acceptable(keys, conf)
    ensures Handle(keys, c, conf) == c
  {
  }

  lemma HeardNow(keys: seq<VerKey>, c: Client, conf: Confirmation, i: nat)
    requires ClientOk(keys, Anyone(), c) && SingleFrom(keys, i, conf)
    ensures Heard(Handle(keys, c, conf), conf.height, conf.round, i)
  {
    hide Combine, GroupKey, Verifies, SignerSet, Acceptable, IsQuorum;
    SingleIsAcceptable(keys, i, conf);
    var known, incoming := Known(c, conf.height), Restored(keys, conf);
    if !(c.current.Some? && conf.height <= c.current.value.height) {
      CombineKeepsHeight(keys, c, conf, incoming);
      if conf.round in known {
        KnownSound(keys, c, conf.height, conf.round);
        if Combine(known, incoming).Some? {
          CombineNames(known, incoming, i);
        } else {
          RefusedIsCounted(known, incoming, i);
        }
      } else {
        CombineFirst(known, incoming);
      }
    }
  }

  lemma CombineFirst(known: ConflictSet, conf: Confirmation)
    requires conf.round !in known
    ensures Combine(known, conf) == Some(conf)
  {
  }

  lemma KnownSound(keys: seq<VerKey>, c: Client, h: nat, r: Round)
    requires ClientOk(keys, Anyone(), c) && r in Known(c, h)
    ensures var sig := Known(c, h)[r].signature;
            sig.publicKey.Some? && sig.keyType == KeyTypeBLSGroupSig && |sig.signers| == |keys|
  {
    hide GroupKey, Verifies, Backed;
    assert Trusted(keys, Anyone(), c.inflight[h][r]);
  }

  lemma HeardStays(keys: seq<VerKey>, c: Client, conf: Confirmation, h: nat, r: Round, i: nat)
    requires ClientOk(keys, Anyone(), c) && Heard(c, h, r, i)
    ensures Heard(Handle(keys, c, conf), h, r, i)
  {
    hide Combine, GroupKey, Verifies, SignerSet, Acceptable, IsQuorum, ClientOk;
    HandleMovesUp(keys, Anyone(), c, conf);
    if !(c.current.Some? && conf.height <= c.current.value.height) && Acceptable(keys, conf) {
      AcceptableFits(keys, conf);
      var known, incoming := Known(c, conf.height), Restored(keys, conf);
      CombineKeepsHeight(keys, c, conf, incoming);
      if Combine(known, incoming).Some? && conf.height == h && conf.round == r && r in known
         && i in SignerSet(known[r].signature.signers) {
        CombineNames(known, incoming, i);
      }
    }
  }

  lemma AcceptableFits(keys: seq<VerKey>, conf: Confirmation)
    requires Acceptable(keys, conf)
    ensures |conf.signature.signers| == |keys|
  {
  }

  lemma NoneWaitingStays(keys: seq<VerKey>, c: Client, conf: Confirmation)
    requires ClientOk(keys, Anyone(), c) && NoneWaiting(keys, c)
    ensures NoneWaiting(keys, Handle(keys, c, conf))
  {
    hide Combine, Acceptable, IsQuorum, ClientOk;
    if Acceptable(keys, conf) {
      AcceptableFits(keys, conf);
      CombineKeepsHeight(keys, c, conf, Restored(keys, conf));
    }
  }

  lemma {:induction false} NoneEverWaits(keys: seq<VerKey>, messages: seq<Confirmation>)
    ensures NoneWaiting(keys, Collected(keys, messages))
  {
    if messages != [] {
      hide Handle, NoneWaiting, ClientOk;
      CollectedOk(keys, Anyone(), messages[..|messages| - 1]);
      NoneEverWaits(keys, messages[..|messages| - 1]);
      NoneWaitingStays(keys, Collected(keys, messages[..|messages| - 1]), messages[|messages| - 1]);
    }
  }

  lemma {:induction false} HeardOnceDelivered(keys: seq<VerKey>, messages: seq<Confirmation>, k: nat, i: nat)
    requires k < |messages| && SingleFrom(keys, i, messages[k])
    ensures Heard(Collected(keys, messages), messages[k].height, messages[k].round, i)
  {
    hide Handle, Heard, ClientOk, SingleFrom;
    var init, last := messages[..|messages| - 1], messages[|messages| - 1];
    CollectedOk(keys, Anyone(), init);
    if k < |init| {
      HeardOnceDelivered(keys, init, k, i);
      HeardStays(keys, Collected(keys, init), last, messages[k].height, messages[k].round, i);
    } else {
      HeardNow(keys, Collected(keys, init), last, i);
    }
  }

  /**
   Once the confirmations of a quorum for one round have been delivered, each by its signer
   alone, in any order and among any other messages, the client is at that height or beyond.
   */
  lemma QuorumIsAdopted(keys: seq<VerKey>, messages: seq<Confirmation>, r: Round, h: nat, quorum: set<nat>)
    requires quorum != {} && |quorum| >= Quorum(|keys|)
    requires forall i :: i in quorum ==>
               exists k :: 0 <= k < |messages| && SingleFrom(keys, i, messages[k])
                 && messages[k].round == r && messages[k].height == h
    ensures var current := Collected(keys, messages).current; current.Some? && current.value.height >= h
  {
    hide Collected, SingleFrom, SignerSet;
    var c := Collected(keys, messages);
    NoneEverWaits(keys, messages);
    forall i | i in quorum
      ensures Heard(c, h, r, i)
    {
      var k :| 0 <= k < |messages| && SingleFrom(keys, i, messages[k])
        && messages[k].round == r && messages[k].height == h;
      HeardOnceDelivered(keys, messages, k, i);
    }
    var i :| i in quorum;
    assert Heard(c, h, r, i);
    if !(c.current.Some? && c.current.value.height >= h) {
      var signers := SignerSet(Known(c, h)[r].signature.signers);
      SubsetSize(quorum, signers);
      assert false;
    }
  }

  // ---------------------------------------------------------------- the object

  /** The nodes a client can fetch, and which byte strings are well-formed CIDs (cid.Cast). */
  datatype Dag = Dag(rounds: set<Round>, checkpoints: set<Checkpoint>, castable: string -> bool)

  /** Everything a notification about `round` needs can be fetched and read. */
  ghost predicate Fetchable(dag: Dag, round: Round) {
    && round in dag.rounds
    && round.checkpoint in dag.checkpoints
    && forall c :: c in round.checkpoint.abrs ==> dag.castable(c)
  }

  datatype Notification = Notification(
    accepted: seq<Cid>,
    checkpoint: Checkpoint,
    round: Round,
    confirmation: Confirmation)

  datatype Proof = Proof(
    objectId: string,
    tip: string,
    abr: AddBlockRequest,
    checkpoint: Checkpoint,
    round: Round,
    confirmation: Confirmation)

  /** What a subscriber waiting for `abr` is handed, if the notification is about it. */
  function ProofFor(address: AddBlockRequest -> Cid, note: Notification, abr: AddBlockRequest): Option<Proof> {
    if address(abr) in note.accepted then
      Some(Proof(abr.objectId, abr.newTip, abr, note.checkpoint, note.round, note.confirmation))
    else None
  }

  function Anyone(): (VerKey, Round) -> bool {
    (k, r) => true
  }

  /** VerKey.Verify, pair by pair. */
  method Verify(key: multiset<VerKey>, msg: Round, point: multiset<(VerKey, Round)>) returns (ok: bool)
    ensures ok <==> Verifies(key, msg, point)
  {
    var keysLeft, pointLeft := key, point;
    while keysLeft != multiset{}
      invariant keysLeft <= key
      invariant forall k :: keysLeft[k] == key[k] || (keysLeft[k] == 0 && point[(k, msg)] == key[k])
      invariant forall k, m ::
                  pointLeft[(k, m)] == if m == msg && keysLeft[k] == 0 && key[k] > 0 then 0 else point[(k, m)]
      decreases keysLeft
    {
      var k :| k in keysLeft;
      if pointLeft[(k, msg)] != keysLeft[k] {
        assert !Verifies(key, msg, point);
        return false;
      }
      keysLeft, pointLeft := keysLeft[k := 0], pointLeft[(k, msg) := 0];
    }
    ok := pointLeft == multiset{};
    if !ok {
      var p :| p in pointLeft;
      assert point[(p.0, p.1)] > 0;
    }
  }

  class RoundSubscriber {
    const keys: seq<VerKey>
    var inflight: map<nat, ConflictSet>
    var current: Option<Confirmation>

    ghost function View(): Client
      reads this
    {
      Client(current, inflight)
    }

    ghost predicate Valid()
      reads this
    {
      ClientOk(keys, Anyone(), View())
    }

    constructor (keys: seq<VerKey>)
      ensures Valid() && this.keys == keys && View() == FRESH
    {
      this.keys := keys;
      inflight, current := map[], None;
    }

    method HandleMessage(conf: Confirmation, dag: Dag) returns (note: Option<Notification>)
      requires Valid()
      modifies this
      ensures Valid()
      ensures View() == Handle(keys, old(View()), conf)
      ensures note.Some? <==> current != old(current) && current.Some? && Fetchable(dag, current.value.round)
      ensures note.Some? ==> note.value == NoteOf(current.value)
    {
      hide ClientOk, Combine, GroupKey, Verifies;
      note := None;
      HandleKeeps(keys, Anyone(), View(), conf);
      HandleMovesUp(keys, Anyone(), View(), conf);
      if current.Some? && conf.height <= current.value.height {
        return;
      }
      var restored := RestoreBLSPublicKey(conf.signature, keys);
      if restored.Err? {
        return;
      }
      var valid := Verify(restored.value.publicKey.value, conf.round, restored.value.point);
      if !valid {
        return;
      }
      var known: ConflictSet := if conf.height in inflight then inflight[conf.height] else map[];
      var incoming := conf.(signature := restored.value);
      if conf.round in known {
        KnownSound(keys, View(), conf.height, conf.round);
      }
      var updated := Add(known, incoming);
      if updated.None? {
        return;
      }
      CombineKeepsHeight(keys, View(), conf, incoming);
      inflight := inflight[conf.height := known[conf.round := updated.value]];
      var count := SignerCount(updated.value.signature);
      if count >= Quorum(|keys|) {
        note := HandleQuorum(updated.value, dag);
      }
    }

    /** roundConflictSet.add on one conflict set; `None` if the signer totals would overflow. */
    method Add(known: ConflictSet, conf: Confirmation) returns (updated: Option<Confirmation>)
      requires conf.signature.publicKey.Some?
      requires conf.round in known ==> known[conf.round].signature.publicKey.Some?
      ensures updated == Combine(known, conf)
    {
      hide Aggregable, IsAggregate, Merged;
      if conf.round !in known {
        return Some(conf);
      }
      var existing := known[conf.round];
      var sum := AggregateBLSSignatures([existing.signature, conf.signature]);
      if sum.Err? {
        return None;
      }
      MergedIsAggregate(existing.signature, conf.signature);
      updated := Some(existing.(signature := sum.value));
    }

    method HandleQuorum(conf: Confirmation, dag: Dag) returns (note: Option<Notification>)
      modifies this
      ensures current == Some(conf)
      ensures inflight == map h | h in old(inflight) && h > conf.height :: old(inflight)[h]
      ensures note.Some? <==>
                && conf.round in dag.rounds && conf.round.checkpoint in dag.checkpoints
                && forall c :: c in conf.round.checkpoint.abrs ==> dag.castable(c)
      ensures note.Some? ==>
                && note.value.accepted == conf.round.checkpoint.abrs && note.value.checkpoint == conf.round.checkpoint
                && note.value.round == conf.round && note.value.confirmation == conf
    {
      current := Some(conf);
      var todo := inflight.Keys;
      while todo != {}
        invariant todo <= old(inflight).Keys
        invariant current == Some(conf)
        invariant inflight == map h | h in old(inflight) && (h in todo || h > conf.height) :: old(inflight)[h]
        decreases todo
      {
        var h :| h in todo;
        if h <= conf.height {
          inflight := inflight - {h};
        }
        todo := todo - {h};
      }
      if conf.round !in dag.rounds || conf.round.checkpoint !in dag.checkpoints {
        return None;
      }
      var ids, accepted: seq<Cid> := conf.round.checkpoint.abrs, [];
      for i := 0 to |ids|
        invariant accepted == ids[..i]
        invariant forall c :: c in accepted ==> dag.castable(c)
      {
        if !dag.castable(ids[i]) {
          return None;
        }
        accepted := accepted + [ids[i]];
      }
      note := Some(Notification(accepted, conf.round.checkpoint, conf.round, conf));
    }
  }

  /** The notification about a confirmed round. */
  function NoteOf(conf: Confirmation): Notification {
    Notification(conf.round.checkpoint.abrs, conf.round.checkpoint, conf.round, conf)
  }

  lemma CombineKeepsHeight(keys: seq<VerKey>, c: Client, conf: Confirmation, incoming: Confirmation)
    requires ClientOk(keys, Anyone(), c) && Acceptable(keys, conf) && incoming == Restored(keys, conf)
    ensures var r := Combine(Known(c, conf.height), incoming);
            r.Some? ==> r.value.height == conf.height && r.value.round == conf.round
  {
    hide Trusted, Combine, GroupKey, Verifies;
    RestoredTrusted(keys, Anyone(), conf);
    CombineTrusted(keys, Anyone(), Known(c, conf.height), incoming);
  }
}
