/**
 sdk/consensus/tree_ledger.go: the token ledger kept in a chain tree.

 A token's logs are lists of CIDs of their entries; here they are lists of the entries.
 Sums and balances are uint64 and wrap; the exact sums are over integers.
 */
module TreeLedgerModel {
  import opened Wire
  import opened Sums

  datatype TokenSend = TokenSend(id: string, amount: uint64, destination: string)
  datatype TokenReceive = TokenReceive(sendId: string, amount: uint64)

  /** `policy` holds the Maximum; it is only there for established tokens. */
  datatype Token = Token(
    policy: Option<uint64>,
    mints: seq<uint64>,
    sends: seq<TokenSend>,
    receives: seq<TokenReceive>,
    balance: uint64)

  /** The tokens of a tree, under their printed names. */
  type Tokens = map<string, Token>

  const EMPTY_TOKEN := Token(None, [], [], [], 0)

  // ---------------------------------------------------------------- exact sums

  ghost function MintAmount(): uint64 -> nat {
    (m: uint64) => m
  }

  ghost function SendAmount(): TokenSend -> nat {
    (s: TokenSend) => s.amount
  }

  ghost function ReceiveAmount(): TokenReceive -> nat {
    (r: TokenReceive) => r.amount
  }

  ghost function Minted(t: Token): nat {
    Total(t.mints, MintAmount())
  }

  ghost function Sent(t: Token): nat {
    Total(t.sends, SendAmount())
  }

  ghost function Received(t: Token): nat {
    Total(t.receives, ReceiveAmount())
  }

  lemma TotalAppend<T>(xs: seq<T>, x: T, f: T -> nat)
    ensures Total(xs + [x], f) == Total(xs, f) + f(x)
  {
    assert (xs + [x])[..|xs|] == xs;
  }

  lemma NoAmounts()
    ensures Total<uint64>([], MintAmount()) == 0
  {
  }

  /** Reducing before adding changes nothing modulo 2^64. */
  lemma AddModulo(total: nat, amount: uint64)
    ensures Add64(total % TWO_64, amount) == (total + amount) % TWO_64
  {
    var k := total / TWO_64;
    assert total + amount == total % TWO_64 + amount + k * TWO_64;
  }

  // ---------------------------------------------------------------- operations on one token

  ghost predicate ReceivedId(t: Token, id: string) {
    exists i :: 0 <= i < |t.receives| && t.receives[i].sendId == id
  }

  /** The minting rule, with the running total reduced modulo 2^64 as in the code. */
  ghost predicate MayMint(t: Token, amount: uint64) {
    && amount > 0
    && t.policy.Some?
    && (t.policy.value > 0 ==> Add64(Minted(t) % TWO_64, amount) <= t.policy.value)
  }

  ghost predicate MaySend(t: Token, amount: uint64) {
    0 < amount <= t.balance
  }

  function Minting(t: Token, amount: uint64): Token {
    t.(mints := t.mints + [amount], balance := Add64(t.balance, amount))
  }

  function Sending(t: Token, id: string, destination: string, amount: uint64): Token
    requires amount <= t.balance
  {
    t.(sends := t.sends + [TokenSend(id, amount, destination)], balance := t.balance - amount)
  }

  function Receiving(t: Token, id: string, amount: uint64): Token {
    t.(receives := t.receives + [TokenReceive(id, amount)], balance := Add64(t.balance, amount))
  }

  function TokenIn(tokens: Tokens, name: string): Token {
    if name in tokens then tokens[name] else EMPTY_TOKEN
  }

  // ---------------------------------------------------------------- what every token keeps

  /** How far the cached balance is behind the logs. */
  ghost function Surplus(t: Token): int {
    Minted(t) + Received(t) - Sent(t) - t.balance
  }

  ghost predicate DistinctReceives(t: Token) {
    forall i, j :: 0 <= i < j < |t.receives| ==> t.receives[i].sendId != t.receives[j].sendId
  }

  ghost predicate UnderCap(t: Token) {
    t.policy.Some? && t.policy.value > 0 && Minted(t) < TWO_64 ==> Minted(t) <= t.policy.value
  }

  ghost predicate TokenOk(t: Token) {
    && Surplus(t) >= 0
    && Surplus(t) % TWO_64 == 0
    && DistinctReceives(t)
    && UnderCap(t)
  }

  lemma EmptyOk(policy: Option<uint64>)
    ensures TokenOk(EMPTY_TOKEN.(policy := policy))
  {
  }

  lemma WrapShift(surplus: int, a: uint64, b: uint64)
    requires surplus >= 0 && surplus % TWO_64 == 0
    ensures var s := surplus + a + b - Add64(a, b); s >= 0 && s % TWO_64 == 0
  {
    assert a + b < 2 * TWO_64;
    if a + b >= TWO_64 {
      assert Add64(a, b) == a + b - TWO_64;
    }
  }

  lemma MintKeeps(t: Token, amount: uint64)
    requires TokenOk(t) && MayMint(t, amount)
    ensures TokenOk(Minting(t, amount))
  {
    TotalAppend(t.mints, amount, MintAmount());
    WrapShift(Surplus(t), t.balance, amount);
    assert Surplus(Minting(t, amount)) == Surplus(t) + t.balance + amount - Add64(t.balance, amount);
  }

  lemma SendKeeps(t: Token, id: string, destination: string, amount: uint64)
    requires TokenOk(t) && MaySend(t, amount)
    ensures TokenOk(Sending(t, id, destination, amount))
  {
    TotalAppend(t.sends, TokenSend(id, amount, destination), SendAmount());
  }

  lemma ReceiveKeeps(t: Token, id: string, amount: uint64)
    requires TokenOk(t) && !ReceivedId(t, id)
    ensures TokenOk(Receiving(t, id, amount))
  {
    TotalAppend(t.receives, TokenReceive(id, amount), ReceiveAmount());
    WrapShift(Surplus(t), t.balance, amount);
    assert Surplus(Receiving(t, id, amount)) == Surplus(t) + t.balance + amount - Add64(t.balance, amount);
  }

  // ---------------------------------------------------------------- runs of a ledger

  datatype Operation =
    | Establish(maximum: uint64)
    | Mint(amount: uint64)
    | Send(id: string, destination: string, amount: uint64)
    | Receive(id: string, amount: uint64)

  ghost predicate Accepts(t: Token, op: Operation) {
    match op
    case Establish(_) => true
    case Mint(amount) => MayMint(t, amount)
    case Send(_, _, amount) => MaySend(t, amount)
    case Receive(id, _) => !ReceivedId(t, id)
  }

  /** A rejected operation leaves the token as it was. */
  ghost function After(t: Token, op: Operation): Token {
    if !Accepts(t, op) then t
    else
      match op
      case Establish(maximum) => EMPTY_TOKEN.(policy := Some(maximum))
      case Mint(amount) => Minting(t, amount)
      case Send(id, destination, amount) => Sending(t, id, destination, amount)
      case Receive(id, amount) => Receiving(t, id, amount)
  }

  ghost function AfterAll(ops: seq<Operation>): Token {
    if ops == [] then EMPTY_TOKEN else After(AfterAll(ops[..|ops| - 1]), ops[|ops| - 1])
  }

  /** Whatever the operations, the balance agrees with the logs modulo 2^64 and no send is received twice. */
  lemma {:induction false} LedgerOk(ops: seq<Operation>)
    ensures TokenOk(AfterAll(ops))
    ensures var t := AfterAll(ops); t.balance == (Minted(t) + Received(t) - Sent(t)) % TWO_64
  {
    hide TokenOk, MayMint, ReceivedId;
    if ops == [] {
      EmptyOk(None);
    } else {
      var t, op := AfterAll(ops[..|ops| - 1]), ops[|ops| - 1];
      LedgerOk(ops[..|ops| - 1]);
      if Accepts(t, op) {
        match op
        case Establish(maximum) => EmptyOk(Some(maximum));
        case Mint(amount) => MintKeeps(t, amount);
        case Send(id, destination, amount) => SendKeeps(t, id, destination, amount);
        case Receive(id, amount) => ReceiveKeeps(t, id, amount);
      }
    }
    BalanceFromLogs(AfterAll(ops));
  }

  lemma BalanceFromLogs(t: Token)
    requires TokenOk(t)
    ensures t.balance == (Minted(t) + Received(t) - Sent(t)) % TWO_64
  {
    var k := Surplus(t) / TWO_64;
    assert Minted(t) + Received(t) - Sent(t) == t.balance + k * TWO_64;
  }

  /** While what came in fits in 64 bits the balance is exact, and mints stay within a positive Maximum. */
  lemma LedgerExact(ops: seq<Operation>)
    requires var t := AfterAll(ops); Minted(t) + Received(t) < TWO_64
    ensures var t := AfterAll(ops);
            && t.balance == Minted(t) + Received(t) - Sent(t)
            && (t.policy.Some? && t.policy.value > 0 ==> Minted(t) <= t.policy.value)
  {
    hide AfterAll, Minted, Received, Sent;
    LedgerOk(ops);
    NoMultipleBelow(Surplus(AfterAll(ops)));
  }

  lemma NoMultipleBelow(n: int)
    requires 0 <= n < TWO_64 && n % TWO_64 == 0
    ensures n == 0
  {
  }

  /**
   A mint is accepted exactly if it is positive, the token has a policy, and the true total
   with it is, modulo 2^64, at most the Maximum, or there is none.
   */
  lemma MintAcceptedExactly(t: Token, amount: uint64)
    ensures Accepts(t, Mint(amount)) <==>
            amount > 0 && t.policy.Some? && (t.policy.value == 0 || (Minted(t) + amount) % TWO_64 <= t.policy.value)
  {
    hide Minted, Add64;
    AddModulo(Minted(t), amount);
  }

  /** While what came in fits in 64 bits, a send is accepted exactly if the logs cover it. */
  lemma SendAcceptedExactly(ops: seq<Operation>, id: string, destination: string, amount: uint64)
    requires var t := AfterAll(ops); Minted(t) + Received(t) < TWO_64
    ensures var t := AfterAll(ops);
            Accepts(t, Send(id, destination, amount)) <==> 0 < amount <= Minted(t) + Received(t) - Sent(t)
  {
    hide AfterAll, Minted, Received, Sent;
    LedgerExact(ops);
  }

  /** An accepted mint respects a positive Maximum exactly if the true total still fits in 64 bits. */
  lemma CapExactly(t: Token, amount: uint64)
    requires MayMint(t, amount) && t.policy.value > 0 && Minted(t) < TWO_64
    ensures Minted(Minting(t, amount)) <= t.policy.value <==> Minted(t) + amount < TWO_64
  {
    TotalAppend(t.mints, amount, MintAmount());
    assert Minted(t) % TWO_64 == Minted(t);
  }

  /** In every run, mints are within a positive Maximum exactly if their true total fits in 64 bits. */
  lemma CapInRuns(ops: seq<Operation>)
    requires var t := AfterAll(ops); t.policy.Some? && t.policy.value > 0
    ensures var t := AfterAll(ops); Minted(t) <= t.policy.value <==> Minted(t) < TWO_64
  {
    hide AfterAll, Minted, Received, Sent;
    LedgerOk(ops);
  }

  /** Past that point the cap can fail: with a Maximum of 100, a second mint far above it is accepted. */
  lemma CapCanWrap()
    ensures var t := AfterAll([Establish(100), Mint(50), Mint(MAX_UINT64 - 9)]);
            t.policy == Some(100) && Minted(t) == TWO_64 + 40 && t.balance == 40
  {
    hide After;
    var t0 := EMPTY_TOKEN.(policy := Some(100));
    var t1 := Minting(t0, 50);
    AfterOneMore([], Establish(100));
    AfterOneMore([Establish(100)], Mint(50));
    AfterOneMore([Establish(100), Mint(50)], Mint(MAX_UINT64 - 9));
    MintsTwice(t0, t1);
    assert [] + [Establish(100)] == [Establish(100)];
    assert [Establish(100)] + [Mint(50)] == [Establish(100), Mint(50)];
    assert [Establish(100), Mint(50)] + [Mint(MAX_UINT64 - 9)] == [Establish(100), Mint(50), Mint(MAX_UINT64 - 9)];
  }

  lemma AfterOneMore(ops: seq<Operation>, op: Operation)
    ensures AfterAll(ops + [op]) == After(AfterAll(ops), op)
  {
    assert (ops + [op])[..|ops|] == ops;
  }

  lemma MintsTwice(t0: Token, t1: Token)
    requires t0 == EMPTY_TOKEN.(policy := Some(100)) && t1 == Minting(t0, 50)
    ensures After(EMPTY_TOKEN, Establish(100)) == t0 && After(t0, Mint(50)) == t1
    ensures var t2 := After(t1, Mint(MAX_UINT64 - 9));
            t2.policy == Some(100) && Minted(t2) == TWO_64 + 40 && t2.balance == 40
  {
    hide Total;
    NoAmounts();
    TotalAppend<uint64>([], 50, MintAmount());
    TotalAppend<uint64>(t1.mints, MAX_UINT64 - 9, MintAmount());
    assert Minted(t0) == 0 && Minted(t1) == 50;
    assert MayMint(t0, 50) && MayMint(t1, MAX_UINT64 - 9);
  }

  // ---------------------------------------------------------------- the object

  class TreeLedger {
    const tokenName: string
    var tree: Tokens

    constructor (tree: Tokens, tokenName: string)
      ensures this.tree == tree && this.tokenName == tokenName
    {
      this.tree, this.tokenName := tree, tokenName;
    }

    /** sumTokenTransactions, the unchecked 64-bit sum. */
    method SumTokenTransactions(amounts: seq<uint64>) returns (sum: uint64)
      ensures sum == Total(amounts, MintAmount()) % TWO_64
    {
      hide Total, Add64;
      sum := 0;
      NoAmounts();
      assert amounts[..0] == [];
      for i := 0 to |amounts|
        invariant sum == Total(amounts[..i], MintAmount()) % TWO_64
      {
        TotalAppend(amounts[..i], amounts[i], MintAmount());
        assert amounts[..i + 1] == amounts[..i] + [amounts[i]];
        AddModulo(Total(amounts[..i], MintAmount()), amounts[i]);
        sum := Add64(sum, amounts[i]);
      }
      assert amounts[..|amounts|] == amounts;
    }

    method CreateToken()
      modifies this
      ensures tree == old(tree)[tokenName := EMPTY_TOKEN]
    {
      tree := tree[tokenName := Token(None, [], [], [], 0)];
    }

    method EstablishToken(maximum: uint64)
      modifies this
      ensures tree == old(tree)[tokenName := After(TokenIn(old(tree), tokenName), Establish(maximum))]
    {
      CreateToken();
      tree := tree[tokenName := tree[tokenName].(policy := Some(maximum))];
    }

    method MintToken(amount: uint64) returns (ok: bool)
      modifies this
      ensures ok <==> Accepts(TokenIn(old(tree), tokenName), Mint(amount))
      ensures ok ==> tokenName in old(tree)
      ensures ok ==> tree == old(tree)[tokenName := After(TokenIn(old(tree), tokenName), Mint(amount))]
      ensures !ok ==> tree == old(tree)
    {
      if amount == 0 {
        return false;
      }
      if tokenName !in tree || tree[tokenName].policy.None? {
        return false;
      }
      var token := tree[tokenName];
      if token.policy.value > 0 {
        var currentMintedTotal := SumTokenTransactions(token.mints);
        if Add64(currentMintedTotal, amount) > token.policy.value {
          return false;
        }
      }
      var newBalance := Add64(token.balance, amount);
      tree := tree[tokenName := token.(mints := token.mints + [amount], balance := newBalance)];
      ok := true;
    }

    method SendToken(txId: string, destination: string, amount: uint64) returns (ok: bool)
      modifies this
      ensures ok <==> Accepts(TokenIn(old(tree), tokenName), Send(txId, destination, amount))
      ensures ok ==> tokenName in old(tree)
      ensures ok ==>
                tree == old(tree)[tokenName := After(TokenIn(old(tree), tokenName), Send(txId, destination, amount))]
      ensures !ok ==> tree == old(tree)
    {
      if amount == 0 {
        return false;
      }
      if tokenName !in tree || tree[tokenName].balance < amount {
        return false;
      }
      var token := tree[tokenName];
      var sends := token.sends + [TokenSend(txId, amount, destination)];
      tree := tree[tokenName := token.(sends := sends, balance := token.balance - amount)];
      ok := true;
    }

    /** A token not seen before is created first; a send id seen before is refused. */
    method ReceiveToken(sendTokenTxId: string, amount: uint64) returns (ok: bool)
      modifies this
      ensures ok <==> Accepts(TokenIn(old(tree), tokenName), Receive(sendTokenTxId, amount))
      ensures ok ==>
                tree == old(tree)[tokenName := After(TokenIn(old(tree), tokenName), Receive(sendTokenTxId, amount))]
      ensures !ok ==> tree == old(tree)
    {
      if tokenName !in tree {
        CreateToken();
      }
      var token := tree[tokenName];
      for i := 0 to |token.receives|
        invariant forall j :: 0 <= j < i ==> token.receives[j].sendId != sendTokenTxId
        invariant tree == if tokenName in old(tree) then old(tree) else old(tree)[tokenName := EMPTY_TOKEN]
      {
        if token.receives[i].sendId == sendTokenTxId {
          return false;
        }
      }
      var receives := token.receives + [TokenReceive(sendTokenTxId, amount)];
      tree := tree[tokenName := token.(receives := receives, balance := Add64(token.balance, amount))];
      ok := true;
    }
  }
}
