/**
 sdk/proof/proof.go: checking a proof away from the client that collected it.
 */
module ProofModel {
  import opened Wire
  import opened SignatureModel
  import opened NotaryGroupModel
  import opened RoundSubscriberModel

  /** The request is listed, and every CID up to it can be read. */
  ghost predicate Listed(castable: string -> bool, abrs: seq<Cid>, id: Cid) {
    exists i :: 0 <= i < |abrs| && abrs[i] == id && forall j :: 0 <= j <= i ==> castable(abrs[j])
  }

  /** The search ends with an unreadable CID. */
  ghost predicate Unreadable(castable: string -> bool, abrs: seq<Cid>, id: Cid) {
    exists i :: 0 <= i < |abrs| && !castable(abrs[i]) && forall j :: 0 <= j < i ==> abrs[j] != id
  }

  ghost predicate Confirmed(conf: Confirmation, quorumCount: nat, keys: seq<VerKey>) {
    |SignerSet(conf.signature.signers)| >= quorumCount && Acceptable(keys, conf)
  }

  /** Confirmation, round and checkpoint belong together. */
  ghost predicate Linked(proof: Proof) {
    proof.round == proof.confirmation.round && proof.checkpoint == proof.round.checkpoint
  }

  ghost predicate Proves(castable: string -> bool, address: AddBlockRequest -> Cid, proof: Proof, quorumCount: nat,
                         keys: seq<VerKey>) {
    && Confirmed(proof.confirmation, quorumCount, keys)
    && Linked(proof)
    && Listed(castable, proof.checkpoint.abrs, address(proof.abr))
    && castable(proof.tip)
    && proof.tip == proof.abr.newTip
    && proof.objectId == proof.abr.objectId
  }

  ghost predicate Malformed(castable: string -> bool, address: AddBlockRequest -> Cid, proof: Proof, quorumCount: nat,
                            keys: seq<VerKey>) {
    var sig, abrs, id := proof.confirmation.signature, proof.checkpoint.abrs, address(proof.abr);
    && |SignerSet(sig.signers)| >= quorumCount
    && (|sig.signers| != |keys|
        || (Acceptable(keys, proof.confirmation) && Linked(proof)
            && (Unreadable(castable, abrs, id)
                || (Listed(castable, abrs, id) && !(castable(proof.tip) && castable(proof.abr.newTip))))))
  }

  method VerifyRoundConfirmation(conf: Confirmation, quorumCount: nat, keys: seq<VerKey>) returns (ok: Result<bool,
                                 string>)
    ensures ok == Ok(true) <==> Confirmed(conf, quorumCount, keys)
    ensures ok.Err? <==> |SignerSet(conf.signature.signers)| >= quorumCount && |conf.signature.signers| != |keys|
  {
    hide GroupKey, Verifies, SignerSet;
    var count := SignerCount(conf.signature);
    if count < quorumCount {
      return Ok(false);
    }
    var restored := RestoreBLSPublicKey(conf.signature, keys);
    if restored.Err? {
      return Err("error restoring public key");
    }
    var verified := RoundSubscriberModel.Verify(restored.value.publicKey.value, conf.round, restored.value.point);
    ok := Ok(verified);
  }

  method FindRequest(castable: string -> bool, abrs: seq<Cid>, id: Cid) returns (found: Result<bool, string>)
    ensures found == Ok(true) <==> Listed(castable, abrs, id)
    ensures found.Err? <==> Unreadable(castable, abrs, id)
    ensures found == Ok(true) ==> id in abrs
    ensures found == Ok(false) <==> id !in abrs && forall c :: c in abrs ==> castable(c)
  {
    for i := 0 to |abrs|
      invariant forall j :: 0 <= j < i ==> castable(abrs[j]) && abrs[j] != id
    {
      if !castable(abrs[i]) {
        return Err("error casting checkpoint add block request cid");
      }
      if abrs[i] == id {
        return Ok(true);
      }
    }
    found := Ok(false);
  }

  method Verify(castable: string -> bool, address: AddBlockRequest -> Cid, proof: Proof, quorumCount: nat,
                keys: seq<VerKey>)
    returns (ok: Result<bool, string>)
    ensures ok == Ok(true) <==> Proves(castable, address, proof, quorumCount, keys)
    ensures ok.Err? <==> Malformed(castable, address, proof, quorumCount, keys)
  {
    hide SignerSet, GroupKey, Verifies, Unreadable, Listed;
    var confirmed := VerifyRoundConfirmation(proof.confirmation, quorumCount, keys);
    if confirmed != Ok(true) {
      return confirmed;
    }
    if proof.round != proof.confirmation.round {
      return Ok(false);
    }
    if proof.checkpoint != proof.round.checkpoint {
      return Ok(false);
    }
    ListedReadable(castable, proof.checkpoint.abrs, address(proof.abr));
    var found := FindRequest(castable, proof.checkpoint.abrs, address(proof.abr));
    if found != Ok(true) {
      return found;
    }
    if !castable(proof.tip) {
      return Err("error casting tip cid");
    }
    if !castable(proof.abr.newTip) {
      return Err("error casting add block request new tip cid");
    }
    ok := Ok(proof.tip == proof.abr.newTip && proof.objectId == proof.abr.objectId);
  }

  lemma ListedReadable(castable: string -> bool, abrs: seq<Cid>, id: Cid)
    ensures !(Listed(castable, abrs, id) && Unreadable(castable, abrs, id))
  {
  }

  lemma ListedIfAllReadable(castable: string -> bool, abrs: seq<Cid>, id: Cid)
    requires forall c :: c in abrs ==> castable(c)
    ensures Listed(castable, abrs, id) <==> id in abrs
    ensures !Unreadable(castable, abrs, id)
  {
  }

  /**
   A client at a round it could fetch hands a subscriber a proof exactly if the round's
   checkpoint lists the request, and the proof is about that request and that round.
   */
  lemma DeliveredExactly(keys: seq<VerKey>, messages: seq<Confirmation>, address: AddBlockRequest -> Cid,
                         abr: AddBlockRequest)
    requires Collected(keys, messages).current.Some?
    ensures var conf := Collected(keys, messages).current.value;
            var proof := ProofFor(address, NoteOf(conf), abr);
            && (proof.Some? <==> address(abr) in conf.round.checkpoint.abrs)
            && (proof.Some? ==>
                  && proof.value.abr == abr && proof.value.round == conf.round
                  && |SignerSet(proof.value.confirmation.signature.signers)| >= Quorum(|keys|))
  {
    hide Collected, Acceptable, SignerSet;
    CollectedOk(keys, Anyone(), messages);
  }

  /**
   Whatever series of messages brought a client to its current round, the proof it hands
   to a subscriber is accepted elsewhere exactly if the request's new tip is a CID, and
   otherwise reported as malformed; it is never merely rejected.
   */
  lemma DeliveredProofVerifies(keys: seq<VerKey>, messages: seq<Confirmation>, dag: Dag,
                               address: AddBlockRequest -> Cid, abr: AddBlockRequest)
    requires var client := Collected(keys, messages);
             client.current.Some? && Fetchable(dag, client.current.value.round)
             && address(abr) in client.current.value.round.checkpoint.abrs
    ensures ProofFor(address, NoteOf(Collected(keys, messages).current.value), abr).Some?
    ensures var proof := ProofFor(address, NoteOf(Collected(keys, messages).current.value), abr).value;
            && (Proves(dag.castable, address, proof, Quorum(|keys|), keys) <==> dag.castable(abr.newTip))
            && (Malformed(dag.castable, address, proof, Quorum(|keys|), keys) <==> !dag.castable(abr.newTip))
  {
    hide Collected, Acceptable, Listed, Unreadable, SignerSet;
    CollectedOk(keys, Anyone(), messages);
    var conf := Collected(keys, messages).current.value;
    ListedIfAllReadable(dag.castable, conf.round.checkpoint.abrs, address(abr));
    AcceptableFits(keys, conf);
  }
}
