/**
 What the decided rounds of one signer amount to: the latest request of each object,
 and each object's chain of committed requests.
 */
module History {
  import opened Wire

  type Latest = map<string, AddBlockRequest>

  /** A decided checkpoint, with the requests its CIDs stand for. */
  datatype Decision = Decision(checkpoint: Checkpoint, abrs: seq<AddBlockRequest>)

  ghost function Apply(latest: Latest, abrs: seq<AddBlockRequest>): Latest {
    if abrs == [] then latest
    else Apply(latest, abrs[..|abrs| - 1])[abrs[|abrs| - 1].objectId := abrs[|abrs| - 1]]
  }

  ghost function Ledger(decisions: seq<Decision>): Latest {
    if decisions == [] then map[] else Apply(Ledger(decisions[..|decisions| - 1]), decisions[|decisions| - 1].abrs)
  }

  /** `abr` continues its object's chain: the next height, on the current tip. */
  ghost predicate Continues(latest: Latest, abr: AddBlockRequest) {
    if abr.objectId in latest then
      abr.height == latest[abr.objectId].height + 1 && abr.previousTip == latest[abr.objectId].newTip
    else
      abr.height == 0
  }

  ghost predicate DistinctObjects(abrs: seq<AddBlockRequest>) {
    forall i, j :: 0 <= i < j < |abrs| ==> abrs[i].objectId != abrs[j].objectId
  }

  ghost predicate Extends(latest: Latest, abrs: seq<AddBlockRequest>) {
    && DistinctObjects(abrs)
    && forall i :: 0 <= i < |abrs| ==> Continues(latest, abrs[i])
  }

  /** Every decision extended the chains as they stood before it. */
  ghost predicate Grown(decisions: seq<Decision>) {
    decisions != [] ==>
      && Grown(decisions[..|decisions| - 1])
      && Extends(Ledger(decisions[..|decisions| - 1]), decisions[|decisions| - 1].abrs)
  }

  // ---------------------------------------------------------------- chains

  ghost function Picked(abrs: seq<AddBlockRequest>, objectId: string): seq<AddBlockRequest> {
    if abrs == [] then []
    else
      Picked(abrs[..|abrs| - 1], objectId) +
      if abrs[|abrs| - 1].objectId == objectId then [abrs[|abrs| - 1]] else []
  }

  /** All requests ever committed for an object, in commit order. */
  ghost function Chain(decisions: seq<Decision>, objectId: string): seq<AddBlockRequest> {
    if decisions == [] then []
    else Chain(decisions[..|decisions| - 1], objectId) + Picked(decisions[|decisions| - 1].abrs, objectId)
  }

  /** Heights 0, 1, 2, ... with each request built on the tip before it. */
  ghost predicate Gapless(chain: seq<AddBlockRequest>) {
    && (forall i :: 0 <= i < |chain| ==> chain[i].height == i)
    && forall i :: 0 < i < |chain| ==> chain[i].previousTip == chain[i - 1].newTip
  }

  lemma {:induction false} PickedFromDistinct(abrs: seq<AddBlockRequest>, objectId: string)
    requires DistinctObjects(abrs)
    ensures |Picked(abrs, objectId)| <= 1
    ensures forall i :: 0 <= i < |abrs| && abrs[i].objectId == objectId ==> Picked(abrs, objectId) == [abrs[i]]
    ensures Picked(abrs, objectId) != [] ==>
              Picked(abrs, objectId)[0] in abrs && Picked(abrs, objectId)[0].objectId == objectId
  {
    if abrs != [] {
      var init, last := abrs[..|abrs| - 1], abrs[|abrs| - 1];
      PickedFromDistinct(init, objectId);
      assert forall i :: 0 <= i < |init| ==> init[i] == abrs[i];
    }
  }

  lemma {:induction false} AppliedLatest(latest: Latest, abrs: seq<AddBlockRequest>, objectId: string)
    requires DistinctObjects(abrs)
    ensures var after, picked := Apply(latest, abrs), Picked(abrs, objectId);
            && (picked == [] ==>
                  && (objectId in after <==> objectId in latest)
                  && (objectId in after ==> after[objectId] == latest[objectId]))
            && (picked != [] ==> objectId in after && after[objectId] == picked[0])
  {
    if abrs != [] {
      var init, last := abrs[..|abrs| - 1], abrs[|abrs| - 1];
      AppliedLatest(latest, init, objectId);
      PickedFromDistinct(abrs, objectId);
      PickedFromDistinct(init, objectId);
    }
  }

  /** `chain` is gapless, belongs to `objectId`, and the latest request is its end. */
  ghost predicate ChainOf(chain: seq<AddBlockRequest>, latest: Latest, objectId: string) {
    && Gapless(chain)
    && (objectId in latest <==> chain != [])
    && (chain != [] ==> latest[objectId] == chain[|chain| - 1])
    && (forall i :: 0 <= i < |chain| ==> chain[i].objectId == objectId)
  }

  lemma ChainStep(chain: seq<AddBlockRequest>, latest: Latest, abrs: seq<AddBlockRequest>, objectId: string)
    requires ChainOf(chain, latest, objectId) && Extends(latest, abrs)
    ensures ChainOf(chain + Picked(abrs, objectId), Apply(latest, abrs), objectId)
  {
    hide Picked, Gapless, Apply;
    AppliedLatest(latest, abrs, objectId);
    PickedFromDistinct(abrs, objectId);
    var picked := Picked(abrs, objectId);
    if picked == [] {
      assert chain + picked == chain;
    } else {
      var i :| 0 <= i < |abrs| && abrs[i] == picked[0];
      assert Continues(latest, abrs[i]);
      assert picked == [abrs[i]];
      ChainLength(chain);
      ExtendGapless(chain, abrs[i]);
    }
  }

  lemma ChainLength(chain: seq<AddBlockRequest>)
    requires Gapless(chain)
    ensures chain != [] ==> chain[|chain| - 1].height == |chain| - 1
  {
  }

  /** The chain of every object is gapless, and the ledger holds its end. */
  lemma {:induction false} ChainsAreGapless(decisions: seq<Decision>, objectId: string)
    requires Grown(decisions)
    ensures ChainOf(Chain(decisions, objectId), Ledger(decisions), objectId)
  {
    if decisions != [] {
      hide ChainOf, Extends, Picked, Apply;
      var init, last := decisions[..|decisions| - 1], decisions[|decisions| - 1];
      ChainsAreGapless(init, objectId);
      ChainStep(Chain(init, objectId), Ledger(init), last.abrs, objectId);
    }
  }

  lemma ExtendGapless(chain: seq<AddBlockRequest>, abr: AddBlockRequest)
    requires Gapless(chain) && abr.height == |chain|
    requires chain != [] ==> abr.previousTip == chain[|chain| - 1].newTip
    ensures Gapless(chain + [abr])
  {
  }

  /** Where a committed request stands: its chain holds it at its own height. */
  lemma {:induction false} CommittedStandsInChain(decisions: seq<Decision>, k: nat, i: nat)
    requires Grown(decisions)
    requires k < |decisions| && i < |decisions[k].abrs|
    ensures var abr := decisions[k].abrs[i];
            abr.height < |Chain(decisions, abr.objectId)| && Chain(decisions, abr.objectId)[abr.height] == abr
  {
    var init, last := decisions[..|decisions| - 1], decisions[|decisions| - 1];
    var abr := decisions[k].abrs[i];
    ChainsAreGapless(decisions, abr.objectId);
    ChainsAreGapless(init, abr.objectId);
    if k < |init| {
      CommittedStandsInChain(init, k, i);
    } else {
      PickedFromDistinct(last.abrs, abr.objectId);
      var chain := Chain(decisions, abr.objectId);
      assert chain == Chain(init, abr.objectId) + [abr];
      assert chain[|chain| - 1] == abr;
    }
  }

  /** No fork: two committed requests of one object and height are one request. */
  lemma NoFork(decisions: seq<Decision>, k: nat, i: nat, l: nat, j: nat)
    requires Grown(decisions)
    requires k < |decisions| && i < |decisions[k].abrs|
    requires l < |decisions| && j < |decisions[l].abrs|
    requires decisions[k].abrs[i].objectId == decisions[l].abrs[j].objectId
    requires decisions[k].abrs[i].height == decisions[l].abrs[j].height
    ensures decisions[k].abrs[i] == decisions[l].abrs[j]
  {
    CommittedStandsInChain(decisions, k, i);
    CommittedStandsInChain(decisions, l, j);
  }
}
