/**
 Values the protocol exchanges, and the machine integers inside them.

 Content addresses are ideal. A checkpoint, a round and a HAMT stand for their own
 CID, so two of them have the same address exactly when they are equal. An
 add-block request needs a printed CID because the mempool orders requests by it:
 an arbitrary injective function `address` plays that role wherever one is needed.
 */
module Wire {

  const TWO_64: int := 0x1_0000_0000_0000_0000
  const MAX_UINT64: int := 0xFFFF_FFFF_FFFF_FFFF

  type uint64 = n: int | 0 <= n < 0x1_0000_0000_0000_0000
  type uint32 = n: int | 0 <= n < 0x1_0000_0000
  type uint16 = n: int | 0 <= n < 0x1_0000

  /** Go's `a + b` on uint64. */
  function Add64(a: uint64, b: uint64): uint64 {
    (a + b) % TWO_64
  }

  datatype Option<+T> = None | Some(value: T)

  datatype Result<+T, +E> = Ok(value: T) | Err(error: E)

  /** The printed form of a CID. */
  type Cid = string

  datatype AddBlockRequest = AddBlockRequest(
    objectId: string,
    height: uint64,
    previousTip: string,
    newTip: string,
    payload: string)

  /** A request together with the CID under which it was put into the store. */
  datatype AddBlockWrapper = AddBlockWrapper(abr: AddBlockRequest, cid: Cid)

  /** A proposal: the add-block requests one round would lock. */
  datatype Checkpoint = Checkpoint(height: nat, abrs: seq<Cid>)

  /** A locked round: the HAMT from object id to latest request, and the checkpoint decided. */
  datatype Round = Round(height: nat, state: map<string, Cid>, checkpoint: Checkpoint)

  ghost predicate Injective(address: AddBlockRequest -> Cid) {
    forall a, b :: address(a) == address(b) ==> a == b
  }
}
