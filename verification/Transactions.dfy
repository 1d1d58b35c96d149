/**
 sdk/consensus/transactions.go: the token transactions of chain trees, and the payload a
 sender hands to the receiver of a send.
 */
module Transactions {
  import opened Wire
  import opened TokenNames
  import opened TreeLedgerModel

  type Did = string

  type Resolved = Result<TokenName, string>

  // ---------------------------------------------------------------- effect on a tree

  /** The tree after an operation on one of its tokens, unless the operation is refused. */
  ghost function Applied(tree: Tokens, c: Resolved, op: Operation): Option<Tokens> {
    if c.Err? then None
    else
      var key := c.value.ToString();
      if !Accepts(TokenIn(tree, key), op) || (op.Establish? && key in tree) then None
      else Some(tree[key := After(TokenIn(tree, key), op)])
  }

  method EstablishTokenTransaction(did: Did, tree: Tokens, name: string,
                                   maximum: Option<uint64>) returns (r: Option<Tokens>)
    ensures exists c :: Canonical(tree.Keys, did, name, true, c)
              && r == Applied(tree, c, Establish(if maximum.None? then 0 else maximum.value))
  {
    var c := CanonicalTokenName(Some(tree.Keys), did, name, true);
    if c.Err? {
      return None;
    }
    var ledger := new TreeLedger(tree, c.value.ToString());
    if ledger.tokenName in ledger.tree {
      return None;
    }
    ledger.EstablishToken(if maximum.None? then 0 else maximum.value);
    r := Some(ledger.tree);
  }

  method MintTokenTransaction(did: Did, tree: Tokens, name: string, amount: uint64) returns (r: Option<Tokens>)
    ensures exists c :: Canonical(tree.Keys, did, name, true, c) && r == Applied(tree, c, Mint(amount))
  {
    var c := CanonicalTokenName(Some(tree.Keys), did, name, true);
    if c.Err? {
      return None;
    }
    var ledger := new TreeLedger(tree, c.value.ToString());
    var ok := ledger.MintToken(amount);
    r := if ok then Some(ledger.tree) else None;
  }

  method SendTokenTransaction(did: Did, tree: Tokens, name: string, id: string, destination: string, amount: uint64)
    returns (r: Option<Tokens>)
    ensures exists c :: Canonical(tree.Keys, did, name, false, c)
              && r == Applied(tree, c, Send(id, destination, amount))
  {
    var c := CanonicalTokenName(Some(tree.Keys), did, name, false);
    if c.Err? {
      return None;
    }
    var ledger := new TreeLedger(tree, c.value.ToString());
    var ok := ledger.SendToken(id, destination, amount);
    r := if ok then Some(ledger.tree) else None;
  }

  // ---------------------------------------------------------------- from sender to receiver

  /** What the leaves of a payload show: under which name, in the sender's tree, which send. */
  datatype TokenPayload = TokenPayload(transactionId: string, key: string, send: TokenSend)

  ghost predicate FirstWithId(sends: seq<TokenSend>, id: string, i: int) {
    0 <= i < |sends| && sends[i].id == id && forall j :: 0 <= j < i ==> sends[j].id != id
  }

  method TokenPayloadForTransaction(tree: Tokens, tn: TokenName, id: string) returns (r: Option<TokenPayload>)
    ensures r.Some? <==>
              && tn.chainTreeDid != "" && tn.localName != ""
              && exists send :: send in TokenIn(tree, tn.ToString()).sends && send.id == id
    ensures r.Some? ==>
              exists i :: FirstWithId(TokenIn(tree, tn.ToString()).sends, id, i)
                && r.value == TokenPayload(id, tn.ToString(), TokenIn(tree, tn.ToString()).sends[i])
  {
    if !tn.IsCanonical() {
      return None;
    }
    var key := tn.ToString();
    var sends := TokenIn(tree, key).sends;
    for i := 0 to |sends|
      invariant forall j :: 0 <= j < i ==> sends[j].id != id
    {
      if sends[i].id == id {
        assert FirstWithId(sends, id, i);
        return Some(TokenPayload(id, key, sends[i]));
      }
    }
    r := None;
  }

  /** The receiver's side: the name is read back from the sender's tree and printed again. */
  method ReceiveTokenTransaction(tree: Tokens, payload: TokenPayload) returns (r: Option<Tokens>)
    ensures var receive := Receive(payload.transactionId, payload.send.amount);
            r == Applied(tree, Ok(TokenNameFromString(payload.key)), receive)
    ensures ':' in payload.key && r.Some? ==>
              payload.key in r.value && forall k :: k != payload.key ==> TokenIn(r.value, k) == TokenIn(tree, k)
  {
    ParseThenPrint(payload.key);
    var ledger := new TreeLedger(tree, TokenNameFromString(payload.key).ToString());
    var ok := ledger.ReceiveToken(payload.transactionId, payload.send.amount);
    r := if ok then Some(ledger.tree) else None;
  }

  /** IsTokenRecipient: every receive in a block must be for the block's own tree. */
  method IsTokenRecipient(did: Did, payloads: seq<TokenPayload>) returns (ok: bool)
    ensures ok <==> forall p :: p in payloads ==> p.send.destination == did
  {
    for i := 0 to |payloads|
      invariant forall j :: 0 <= j < i ==> payloads[j].send.destination == did
    {
      if did != payloads[i].send.destination {
        return false;
      }
    }
    ok := true;
  }
}
