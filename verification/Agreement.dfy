/**
 The network as a whole: honest signers in any state they can reach, fewer than a third
 of the members faulty and free to sign anything, and clients or verifiers reading what
 was signed.
 */
module AgreementModel {
  import opened Wire
  import opened History
  import opened SignerModel
  import opened SignerInvariant
  import opened SignatureModel
  import opened NotaryGroupModel
  import opened RoundSubscriberModel
  import opened ProofModel

  /** Member `i` has key `keys[i]` and, unless faulty, is in state `signers[i]`. */
  datatype Network = Network(keys: seq<VerKey>, signers: seq<SignerModel.Signer>, faulty: set<nat>)

  ghost function Below(n: nat): (r: set<nat>)
    ensures |r| == n && forall i: nat :: i in r <==> i < n
  {
    if n == 0 then {} else Below(n - 1) + {n - 1}
  }

  ghost function Members(net: Network): set<nat> {
    Below(|net.keys|)
  }

  ghost predicate MostlyHonest(address: AddBlockRequest -> Cid, net: Network) {
    && Injective(address)
    && |net.signers| == |net.keys|
    && net.faulty <= Members(net)
    && 3 * |net.faulty| < |net.keys|
    && forall i :: 0 <= i < |net.signers| && i !in net.faulty ==> Reachable(address, net.signers[i])
  }

  /** Signatures cannot be forged: an honest member's key only stands with rounds it published. */
  ghost predicate HasSaid(net: Network, k: VerKey, r: Round) {
    forall i :: 0 <= i < |net.keys| && i < |net.signers| && i !in net.faulty && net.keys[i] == k ==>
      r in net.signers[i].signed
  }

  ghost function Said(net: Network): (VerKey, Round) -> bool {
    (k, r) => HasSaid(net, k, r)
  }

  // ---------------------------------------------------------------- one honest witness

  /** Two quorum confirmations were both signed by one honest member. */
  lemma SharedWitness(address: AddBlockRequest -> Cid, net: Network, a: Confirmation, b: Confirmation) returns (i: nat)
    requires MostlyHonest(address, net)
    requires Confirmed(a, Quorum(|net.keys|), net.keys) && Confirmed(b, Quorum(|net.keys|), net.keys)
    requires Backed(Said(net), a) && Backed(Said(net), b)
    ensures i < |net.signers| && i !in net.faulty && Reachable(address, net.signers[i])
    ensures a.round in net.signers[i].signed && b.round in net.signers[i].signed
  {
    hide Reachable, Backed, Acceptable, GroupKey, SignerSet;
    var ones, others := SignerSet(a.signature.signers), SignerSet(b.signature.signers);
    SignersAreMembers(net, a);
    SignersAreMembers(net, b);
    QuorumsShareHonest(Members(net), ones, others, net.faulty);
    i :| i in ones && i in others && i !in net.faulty;
    NamedHaveSigned(net.keys, Said(net), a, i);
    NamedHaveSigned(net.keys, Said(net), b, i);
    assert HasSaid(net, net.keys[i], a.round) && HasSaid(net, net.keys[i], b.round);
  }

  lemma SignersAreMembers(net: Network, a: Confirmation)
    requires Acceptable(net.keys, a)
    ensures SignerSet(a.signature.signers) <= Members(net)
  {
  }

  /** Rounds confirmed by quorums at one height are one round: same state, same checkpoint. */
  lemma ConfirmedRoundsAgree(address: AddBlockRequest -> Cid, net: Network, a: Confirmation, b: Confirmation)
    requires MostlyHonest(address, net)
    requires Confirmed(a, Quorum(|net.keys|), net.keys) && Confirmed(b, Quorum(|net.keys|), net.keys)
    requires Backed(Said(net), a) && Backed(Said(net), b)
    requires a.round.height == b.round.height
    ensures a.round == b.round
  {
    hide Reachable, Backed, Acceptable, SignerSet;
    var i := SharedWitness(address, net, a, b);
    OneRoundPerHeight(address, net.signers[i], a.round, b.round);
  }

  // ---------------------------------------------------------------- clients

  /**
   Agreement between clients, exactly: whatever messages two clients were fed, they hold the
   same round if and only if the rounds they hold have the same height.
   */
  lemma ClientsAgreeExactly(address: AddBlockRequest -> Cid, net: Network, ms: seq<Confirmation>, ns: seq<Confirmation>)
    requires MostlyHonest(address, net)
    requires forall m :: m in ms ==> Backed(Said(net), m)
    requires forall n :: n in ns ==> Backed(Said(net), n)
    requires Collected(net.keys, ms).current.Some? && Collected(net.keys, ns).current.Some?
    ensures var a, b := Collected(net.keys, ms).current.value.round, Collected(net.keys, ns).current.value.round;
            a == b <==> a.height == b.height
  {
    hide Collected, Backed, Acceptable, SignerSet, MostlyHonest;
    CollectedOk(net.keys, Said(net), ms);
    CollectedOk(net.keys, Said(net), ns);
    var a, b := Collected(net.keys, ms).current.value, Collected(net.keys, ns).current.value;
    if a.round.height == b.round.height {
      ConfirmedRoundsAgree(address, net, a, b);
    }
  }

  /** Fed messages that carry the heights of their rounds, two clients never hold different rounds for one height. */
  lemma ClientsAgree(address: AddBlockRequest -> Cid, net: Network, ms: seq<Confirmation>, ns: seq<Confirmation>)
    requires MostlyHonest(address, net)
    requires forall m :: m in ms ==> Backed(Said(net), m) && Genuine(m)
    requires forall n :: n in ns ==> Backed(Said(net), n) && Genuine(n)
    requires Collected(net.keys, ms).current.Some? && Collected(net.keys, ns).current.Some?
    requires Collected(net.keys, ms).current.value.height == Collected(net.keys, ns).current.value.height
    ensures Collected(net.keys, ms).current.value.round == Collected(net.keys, ns).current.value.round
  {
    hide Collected, Backed, MostlyHonest;
    ClientsAgreeExactly(address, net, ms, ns);
    CurrentGenuine(net.keys, Said(net), ms);
    CurrentGenuine(net.keys, Said(net), ns);
  }

  /**
   The height on a confirmation is not signed, and the client does not compare it with the
   round's. So next to a client whose round is correctly labelled, a client that claims the
   same height agrees exactly if its own round is correctly labelled too.
   */
  lemma AgreementNeedsGenuineHeights(address: AddBlockRequest -> Cid, net: Network, ms: seq<Confirmation>,
                                     ns: seq<Confirmation>)
    requires MostlyHonest(address, net)
    requires forall m :: m in ms ==> Backed(Said(net), m)
    requires forall n :: n in ns ==> Backed(Said(net), n)
    requires Collected(net.keys, ms).current.Some? && Collected(net.keys, ns).current.Some?
    requires Collected(net.keys, ms).current.value.height == Collected(net.keys, ns).current.value.height
    requires Genuine(Collected(net.keys, ms).current.value)
    ensures var a, b := Collected(net.keys, ms).current.value, Collected(net.keys, ns).current.value;
            a.round == b.round <==> Genuine(b)
  {
    hide Collected, Backed, MostlyHonest;
    ClientsAgreeExactly(address, net, ms, ns);
  }

  /** A quorum confirmation alone makes a fresh client adopt its round at the height it claims. */
  lemma FreshClientAdopts(keys: seq<VerKey>, conf: Confirmation)
    requires Confirmed(conf, Quorum(|keys|), keys)
    ensures Collected(keys, [conf]).current == Some(RoundSubscriberModel.Restored(keys, conf))
  {
    hide GroupKey, Verifies, SignerSet;
    assert [conf][..0] == [];
    assert Collected(keys, [conf]) == Handle(keys, FRESH, conf);
  }

  /** Any quorum confirmation passes under every height: relabelled, it is adopted there. */
  lemma RelabelledIsAdopted(keys: seq<VerKey>, conf: Confirmation, h: nat)
    requires Confirmed(conf, Quorum(|keys|), keys)
    ensures var current := Collected(keys, [conf.(height := h)]).current;
            current.Some? && current.value.height == h && current.value.round == conf.round
  {
    hide Collected, GroupKey, Verifies, SignerSet;
    FreshClientAdopts(keys, conf.(height := h));
  }

  /** Relabelling one of any two different quorum-confirmed rounds splits two fresh clients at one height. */
  lemma RelabellingSplits(keys: seq<VerKey>, a: Confirmation, b: Confirmation)
    requires Confirmed(a, Quorum(|keys|), keys) && Confirmed(b, Quorum(|keys|), keys) && a.round != b.round
    ensures var ca, cb := Collected(keys, [a]).current, Collected(keys, [b.(height := a.height)]).current;
            ca.Some? && cb.Some? && ca.value.height == cb.value.height && ca.value.round != cb.value.round
  {
    hide Collected, GroupKey, Verifies, SignerSet;
    RelabelledIsAdopted(keys, a, a.height);
    RelabelledIsAdopted(keys, b, a.height);
    assert a.(height := a.height) == a;
  }

  // ---------------------------------------------------------------- proofs

  /** The request of a verified proof was committed by every honest signer of its round. */
  lemma ProvenIsCommitted(address: AddBlockRequest -> Cid, s: SignerModel.Signer, castable: string -> bool,
                          proof: Proof)
    returns (i: nat)
    requires Injective(address) && Reachable(address, s)
    requires proof.round in s.signed && Linked(proof)
    requires Listed(castable, proof.checkpoint.abrs, address(proof.abr))
    ensures proof.round.height < |s.history| && i < |s.history[proof.round.height].abrs|
    ensures s.history[proof.round.height].abrs[i] == proof.abr
    ensures HistoryOk(address, s.history)
  {
    hide Reachable, Ledger, Grown, Injective;
    ReachableInv(address, s);
    PublishedStateIsFold(address, s, proof.round);
    var d := s.history[proof.round.height];
    assert Names(address, d);
    i :| 0 <= i < |d.checkpoint.abrs| && d.checkpoint.abrs[i] == address(proof.abr);
    SameRequest(address, d.abrs[i], proof.abr);
  }

  lemma SameRequest(address: AddBlockRequest -> Cid, a: AddBlockRequest, b: AddBlockRequest)
    requires Injective(address) && address(a) == address(b)
    ensures a == b
  {
  }

  ghost predicate Accepted(address: AddBlockRequest -> Cid, castable: string -> bool, net: Network, proof: Proof) {
    Proves(castable, address, proof, Quorum(|net.keys|), net.keys) && Backed(Said(net), proof.confirmation)
  }

  /**
   Proofs never fork a chain tree: two verified proofs about one object and height are
   about the same request, whatever rounds they come from and whoever collected them.
   */
  lemma ProofsNeverFork(address: AddBlockRequest -> Cid, castable: string -> bool, net: Network, p: Proof, q: Proof)
    requires MostlyHonest(address, net)
    requires Accepted(address, castable, net, p) && Accepted(address, castable, net, q)
    requires p.objectId == q.objectId && p.abr.height == q.abr.height
    ensures p.abr == q.abr && p.tip == q.tip
  {
    hide Reachable, Backed, Acceptable, SignerSet, Listed, Grown;
    var w := SharedWitness(address, net, p.confirmation, q.confirmation);
    var s := net.signers[w];
    var i := ProvenIsCommitted(address, s, castable, p);
    var j := ProvenIsCommitted(address, s, castable, q);
    NoFork(s.history, p.round.height, i, q.round.height, j);
  }

  /** Verified proofs of successive heights of an object link up: the later builds on the earlier's tip. */
  lemma ProofsLinkUp(address: AddBlockRequest -> Cid, castable: string -> bool, net: Network, p: Proof, q: Proof)
    requires MostlyHonest(address, net)
    requires Accepted(address, castable, net, p) && Accepted(address, castable, net, q)
    requires p.objectId == q.objectId && q.abr.height as int == p.abr.height as int + 1
    ensures q.abr.previousTip == p.tip
  {
    hide Reachable, Backed, Acceptable, SignerSet, Listed, Grown, Chain;
    var w := SharedWitness(address, net, p.confirmation, q.confirmation);
    var s := net.signers[w];
    var i := ProvenIsCommitted(address, s, castable, p);
    var j := ProvenIsCommitted(address, s, castable, q);
    CommittedStandsInChain(s.history, p.round.height, i);
    CommittedStandsInChain(s.history, q.round.height, j);
    ChainsAreGapless(s.history, p.objectId);
    var chain := Chain(s.history, p.objectId);
    assert chain[q.abr.height].previousTip == chain[q.abr.height - 1].newTip;
  }

  /** Verified proofs of one round height agree on the whole state of the network at that height. */
  lemma ProvenStatesAgree(address: AddBlockRequest -> Cid, castable: string -> bool, net: Network, p: Proof, q: Proof)
    requires MostlyHonest(address, net)
    requires Accepted(address, castable, net, p) && Accepted(address, castable, net, q)
    requires p.round.height == q.round.height
    ensures p.round == q.round && p.checkpoint == q.checkpoint
  {
    hide MostlyHonest, Backed, Acceptable, SignerSet, Listed;
    ConfirmedRoundsAgree(address, net, p.confirmation, q.confirmation);
  }
}
