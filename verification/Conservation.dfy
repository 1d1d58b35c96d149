/**
 Tokens across chain trees: every accepted transaction of every tree is one step of a
 world, and what was minted is always somewhere.

 A receive shows a send to the receiving tree and is logged under any id: nothing compares
 that id with the send's own. `claimed` remembers which sends (by sender, token and
 position) have been received.
 */
module Conservation {
  import opened Wire
  import opened Sums
  import opened TokenNames
  import opened TreeLedgerModel
  import opened Transactions

  datatype World = World(trees: map<Did, Tokens>, claimed: set<(Did, string, nat)>)

  const NO_TREES := World(map[], {})

  /** `name` is what the transaction says, `c` what CanonicalTokenName makes of it. */
  datatype Action =
    | Create(did: Did)
    | Transact(did: Did, name: string, c: Resolved, op: Operation)
    | Claim(did: Did, sender: Did, tn: TokenName, i: nat, id: string)

  ghost predicate Next(w: World, a: Action, w': World) {
    match a
    case Create(did) =>
      did !in w.trees && w' == w.(trees := w.trees[did := map[]])
    case Transact(did, name, c, op) =>
      && did in w.trees && !op.Receive?
      && Canonical(w.trees[did].Keys, did, name, !op.Send?, c)
      && Applied(w.trees[did], c, op).Some?
      && w' == w.(trees := w.trees[did := Applied(w.trees[did], c, op).value])
    case Claim(did, sender, tn, i, id) =>
      var key := tn.ToString();
      && did in w.trees && sender in w.trees && i < |TokenIn(w.trees[sender], key).sends|
      && var send := TokenIn(w.trees[sender], key).sends[i];
         var r := Applied(w.trees[did], Ok(TokenNameFromString(key)), Receive(id, send.amount));
         && send.destination == did
         && r.Some?
         && w' == World(w.trees[did := r.value], w.claimed + {(sender, key, i)})
  }

  /** What a step does to one token. */
  ghost function Touched(a: Action): string {
    match a
    case Create(_) => ""
    case Transact(_, _, c, _) => if c.Ok? then c.value.ToString() else ""
    case Claim(_, _, tn, _, _) => tn.ToString()
  }

  /** The send a claim shows exists. */
  ghost predicate Shows(w: World, a: Action) {
    a.Claim? ==> a.sender in w.trees && a.i < |TokenIn(w.trees[a.sender], a.tn.ToString()).sends|
  }

  ghost function OperationOf(w: World, a: Action): Operation
    requires !a.Create? && Shows(w, a)
  {
    if a.Transact? then a.op else Receive(a.id, TokenIn(w.trees[a.sender], a.tn.ToString()).sends[a.i].amount)
  }

  ghost function At(w: World, did: Did, key: string): Token {
    if did in w.trees then TokenIn(w.trees[did], key) else EMPTY_TOKEN
  }

  /** A step changes one token of one tree, by one accepted operation. */
  lemma StepShape(w: World, a: Action, w': World)
    requires Next(w, a, w')
    ensures a.Create? ==> forall d, k :: At(w', d, k) == At(w, d, k)
    ensures !a.Create? ==>
              && Shows(w, a) && a.did in w.trees && w'.trees.Keys == w.trees.Keys
              && (forall d, k :: d != a.did || k != Touched(a) ==> At(w', d, k) == At(w, d, k))
              && Accepts(At(w, a.did, Touched(a)), OperationOf(w, a))
              && At(w', a.did, Touched(a)) == After(At(w, a.did, Touched(a)), OperationOf(w, a))
              && (OperationOf(w, a).Establish? ==> At(w, a.did, Touched(a)) == EMPTY_TOKEN)
  {
    hide Accepts, After, Canonical;
    if a.Claim? {
      ClaimedKey(a.tn);
    }
  }

  lemma ClaimedKey(tn: TokenName)
    ensures TokenNameFromString(tn.ToString()).ToString() == tn.ToString()
  {
    PrintedForm(tn);
    ParseThenPrint(tn.ToString());
  }

  // ---------------------------------------------------------------- sums over all trees

  /** Sends nobody has received. */
  ghost function Pending(sends: seq<TokenSend>, did: Did, key: string, claimed: set<(Did, string, nat)>): nat {
    if sends == [] then 0
    else
      var n := |sends| - 1;
      Pending(sends[..n], did, key, claimed) + if (did, key, n) in claimed then 0 else sends[n].amount
  }

  ghost function MintedAt(w: World, key: string): Did -> int {
    (d: Did) => Minted(At(w, d, key))
  }

  ghost function BalanceAt(w: World, key: string): Did -> int {
    (d: Did) => At(w, d, key).balance
  }

  ghost function PendingAt(w: World, key: string): Did -> int {
    (d: Did) => Pending(At(w, d, key).sends, d, key, w.claimed)
  }

  ghost function TotalMinted(w: World, key: string): int {
    Whole(w.trees.Keys, MintedAt(w, key))
  }

  ghost function TotalBalance(w: World, key: string): int {
    Whole(w.trees.Keys, BalanceAt(w, key))
  }

  ghost function TotalPending(w: World, key: string): int {
    Whole(w.trees.Keys, PendingAt(w, key))
  }

  /** What was minted but is neither in a balance nor on its way. */
  ghost function Lost(w: World, key: string): int {
    TotalMinted(w, key) - TotalBalance(w, key) - TotalPending(w, key)
  }

  lemma {:induction false} PendingElsewhere(sends: seq<TokenSend>, did: Did, key: string,
                                            claimed: set<(Did, string, nat)>, claimed': set<(Did, string, nat)>)
    requires forall n: nat :: n < |sends| ==> ((did, key, n) in claimed <==> (did, key, n) in claimed')
    ensures Pending(sends, did, key, claimed) == Pending(sends, did, key, claimed')
  {
    if sends != [] {
      PendingElsewhere(sends[..|sends| - 1], did, key, claimed, claimed');
    }
  }

  /** Receiving a send takes exactly its amount off the pending ones. */
  lemma {:induction false} PendingClaimed(sends: seq<TokenSend>, did: Did, key: string,
                                          claimed: set<(Did, string, nat)>, i: nat)
    requires i < |sends| && (did, key, i) !in claimed
    ensures Pending(sends, did, key, claimed + {(did, key, i)}) == Pending(sends, did, key, claimed) - sends[i].amount
  {
    var n := |sends| - 1;
    if i == n {
      PendingElsewhere(sends[..n], did, key, claimed, claimed + {(did, key, i)});
    } else {
      PendingClaimed(sends[..n], did, key, claimed, i);
    }
  }

  lemma PendingSent(sends: seq<TokenSend>, did: Did, key: string, claimed: set<(Did, string, nat)>, send: TokenSend)
    requires (did, key, |sends|) !in claimed
    ensures Pending(sends + [send], did, key, claimed) == Pending(sends, did, key, claimed) + send.amount
  {
    assert (sends + [send])[..|sends|] == sends;
  }

  // ---------------------------------------------------------------- claims

  /** A claimed send exists. */
  ghost predicate ClaimOk(w: World, did: Did, key: string, i: nat) {
    did in w.trees && i < |At(w, did, key).sends|
  }

  /** Claimed sends exist, and no send is for nothing. */
  ghost predicate ClaimsOk(w: World) {
    && (forall did, key, i :: (did, key, i) in w.claimed ==> ClaimOk(w, did, key, i))
    && forall did, key, i :: 0 <= i < |At(w, did, key).sends| ==> At(w, did, key).sends[i].amount > 0
  }

  /** The tree a send went to has logged its id. */
  ghost predicate Logged(w: World, did: Did, key: string, i: nat)
    requires ClaimOk(w, did, key, i)
  {
    ReceivedId(At(w, At(w, did, key).sends[i].destination, key), At(w, did, key).sends[i].id)
  }

  ghost predicate ClaimsLogged(w: World) {
    forall did, key, i :: (did, key, i) in w.claimed ==> ClaimOk(w, did, key, i) && Logged(w, did, key, i)
  }

  /** A receive logged under the id of the send it shows, as TokenPayloadForTransaction makes them. */
  ghost predicate OwnId(w: World, a: Action) {
    a.Claim? ==> Shows(w, a) && a.id == TokenIn(w.trees[a.sender], a.tn.ToString()).sends[a.i].id
  }

  /** Logs only grow. */
  lemma LogsGrow(w: World, a: Action, w': World, did: Did, key: string)
    requires Next(w, a, w')
    ensures At(w, did, key).sends <= At(w', did, key).sends
    ensures At(w, did, key).receives <= At(w', did, key).receives
  {
    hide Next, Touched, MayMint, ReceivedId;
    StepShape(w, a, w');
  }

  lemma ReceivedStays(t: Token, t': Token, id: string)
    requires ReceivedId(t, id) && t.receives <= t'.receives
    ensures ReceivedId(t', id)
  {
    var i :| 0 <= i < |t.receives| && t.receives[i].sendId == id;
    assert t'.receives[i] == t.receives[i];
  }

  lemma ReceivingRecords(t: Token, id: string, amount: uint64)
    ensures ReceivedId(Receiving(t, id, amount), id)
  {
    var t' := Receiving(t, id, amount);
    assert t'.receives[|t.receives|].sendId == id;
  }

  lemma ClaimsKept(w: World, a: Action, w': World)
    requires Next(w, a, w') && ClaimsOk(w)
    ensures ClaimsOk(w')
  {
    hide Canonical, MayMint, ReceivedId;
    StepShape(w, a, w');
    forall did, key, i | (did, key, i) in w'.claimed
      ensures ClaimOk(w', did, key, i)
    {
      LogsGrow(w, a, w', did, key);
    }
    forall did, key, i | 0 <= i < |At(w', did, key).sends|
      ensures At(w', did, key).sends[i].amount > 0
    {
      NewSendsPositive(w, a, w', did, key, i);
    }
  }

  lemma NewSendsPositive(w: World, a: Action, w': World, did: Did, key: string, i: nat)
    requires Next(w, a, w') && ClaimsOk(w) && i < |At(w', did, key).sends|
    ensures At(w', did, key).sends[i].amount > 0
  {
    hide Next, Touched, MayMint, ReceivedId;
    StepShape(w, a, w');
  }

  /** Logging every receive under its send's id keeps every claimed send logged. */
  lemma ClaimsStayLogged(w: World, a: Action, w': World)
    requires Next(w, a, w') && ClaimsLogged(w) && OwnId(w, a)
    ensures ClaimsLogged(w')
  {
    hide ReceivedId, Canonical, MayMint;
    forall did, key, i | (did, key, i) in w'.claimed
      ensures ClaimOk(w', did, key, i) && Logged(w', did, key, i)
    {
      LogsGrow(w, a, w', did, key);
      var send := At(w, did, key).sends[i];
      LogsGrow(w, a, w', send.destination, key);
      if (did, key, i) in w.claimed {
        ReceivedStays(At(w, send.destination, key), At(w', send.destination, key), send.id);
      } else {
        StepShape(w, a, w');
        ReceivingRecords(At(w, a.did, key), a.id, send.amount);
      }
    }
  }

  /** A send logged under its own id cannot be received again under it. */
  lemma ClaimedOnce(w: World, a: Action, w': World)
    requires Next(w, a, w') && a.Claim? && ClaimsLogged(w) && OwnId(w, a)
    ensures (a.sender, Touched(a), a.i) !in w.claimed
  {
    StepShape(w, a, w');
  }

  // ---------------------------------------------------------------- one step

  /** The step makes a 64-bit balance of `key` wrap. */
  ghost predicate Wraps(w: World, a: Action, key: string) {
    && !a.Create? && key == Touched(a)
    && Shows(w, a)
    && match OperationOf(w, a)
       case Mint(amount) => At(w, a.did, key).balance + amount >= TWO_64
       case Receive(_, amount) => At(w, a.did, key).balance + amount >= TWO_64
       case _ => false
  }

  /** The step receives a send of `key` that was received before. */
  ghost predicate Repeats(w: World, a: Action, key: string) {
    a.Claim? && key == Touched(a) && Shows(w, a) && (a.sender, key, a.i) in w.claimed
  }

  /** What a step pays out twice. */
  ghost function Repaid(w: World, a: Action, key: string): nat {
    if Repeats(w, a, key) then OperationOf(w, a).amount else 0
  }

  lemma CreateKeepsSums(w: World, a: Action, w': World, key: string)
    requires Next(w, a, w') && a.Create?
    ensures Lost(w', key) == Lost(w, key)
  {
    StepShape(w, a, w');
    AddedTree(w.trees.Keys, a.did, w'.trees.Keys, MintedAt(w, key), MintedAt(w', key));
    AddedTree(w.trees.Keys, a.did, w'.trees.Keys, BalanceAt(w, key), BalanceAt(w', key));
    AddedTree(w.trees.Keys, a.did, w'.trees.Keys, PendingAt(w, key), PendingAt(w', key));
  }

  lemma AddedTree(dids: set<Did>, did: Did, dids': set<Did>, f: Did -> int, g: Did -> int)
    requires did !in dids && dids' == dids + {did} && g(did) == 0
    requires forall d :: d in dids ==> f(d) == g(d)
    ensures Whole(dids', g) == Whole(dids, f)
  {
    WholePick(dids', g, did);
    assert dids' - {did} == dids;
    WholeCongruent(dids, f, g);
  }

  /** Minted amounts and balances move at one tree only. */
  lemma LocalSums(w: World, a: Action, w': World, key: string)
    requires Next(w, a, w') && !a.Create?
    ensures a.did in w.trees
    ensures TotalMinted(w', key) - TotalMinted(w, key) == Minted(At(w', a.did, key)) - Minted(At(w, a.did, key))
    ensures TotalBalance(w', key) - TotalBalance(w, key) == At(w', a.did, key).balance - At(w, a.did, key).balance
  {
    hide Next, Accepts, After, Minted, Touched;
    StepShape(w, a, w');
    WholeChanged(w.trees.Keys, MintedAt(w, key), MintedAt(w', key), a.did);
    WholeChanged(w.trees.Keys, BalanceAt(w, key), BalanceAt(w', key), a.did);
  }

  /** A transaction of a tree moves its own pending sends only. */
  lemma TransactPending(w: World, a: Action, w': World, key: string)
    requires Next(w, a, w') && a.Transact? && ClaimsOk(w)
    ensures TotalPending(w', key) - TotalPending(w, key) ==
            if a.op.Send? && key == Touched(a) then a.op.amount as int else 0
  {
    StepShape(w, a, w');
    hide Next, Canonical, Accepts;
    WholeChanged(w.trees.Keys, PendingAt(w, key), PendingAt(w', key), a.did);
    var sends := At(w, a.did, key).sends;
    if a.op.Send? && key == Touched(a) {
      assert (a.did, key, |sends|) !in w.claimed;
      PendingSent(sends, a.did, key, w.claimed, TokenSend(a.op.id, a.op.amount, a.op.destination));
    }
  }

  /** A first claim takes the send's amount off the sender's pending sends, a repeated one does not. */
  lemma ClaimPending(w: World, a: Action, w': World, key: string)
    requires Next(w, a, w') && a.Claim?
    ensures Shows(w, a)
    ensures TotalPending(w', key) - TotalPending(w, key) ==
            if key == Touched(a) && !Repeats(w, a, key) then -(OperationOf(w, a).amount as int) else 0
  {
    hide Pending, Canonical, Accepts, After;
    StepShape(w, a, w');
    var f, g := PendingAt(w, key), PendingAt(w', key);
    forall d | d in w.trees.Keys && d != a.sender
      ensures f(d) == g(d)
    {
      SameSends(w, a, w', d, key);
      PendingElsewhere(At(w, d, key).sends, d, key, w.claimed, w'.claimed);
    }
    WholeChanged(w.trees.Keys, f, g, a.sender);
    SameSends(w, a, w', a.sender, key);
    if key == Touched(a) && !Repeats(w, a, key) {
      PendingClaimed(At(w, a.sender, key).sends, a.sender, key, w.claimed, a.i);
    } else {
      PendingElsewhere(At(w, a.sender, key).sends, a.sender, key, w.claimed, w'.claimed);
    }
  }

  lemma SameSends(w: World, a: Action, w': World, d: Did, key: string)
    requires Next(w, a, w') && a.Claim?
    ensures At(w', d, key).sends == At(w, d, key).sends
  {
    hide Next, Touched, ReceivedId;
    StepShape(w, a, w');
  }

  /** Each step loses nothing, except 2^64 when a balance wraps, and gains what it pays out twice. */
  lemma StepConserves(w: World, a: Action, w': World, key: string)
    requires Next(w, a, w') && ClaimsOk(w)
    ensures Lost(w', key) == Lost(w, key) + (if Wraps(w, a, key) then TWO_64 else 0) - Repaid(w, a, key)
  {
    if a.Create? {
      CreateKeepsSums(w, a, w', key);
    } else {
      LocalSums(w, a, w', key);
      StepShape(w, a, w');
      if a.Transact? {
        TransactPending(w, a, w', key);
      } else {
        ClaimPending(w, a, w', key);
      }
      if key == Touched(a) {
        TokenMoves(At(w, a.did, key), OperationOf(w, a));
      }
    }
  }

  /** What an accepted operation does to the minted amount and the balance of its token. */
  lemma TokenMoves(t: Token, op: Operation)
    requires Accepts(t, op) && (op.Establish? ==> t == EMPTY_TOKEN)
    ensures var t' := After(t, op);
            var wrap := if (op.Mint? || op.Receive?) && t.balance + op.amount >= TWO_64 then TWO_64 else 0;
            match op
            case Establish(_) => Minted(t') == Minted(t) && t'.balance == t.balance
            case Mint(amount) => Minted(t') == Minted(t) + amount && t'.balance as int == t.balance + amount - wrap
            case Send(_, _, amount) => Minted(t') == Minted(t) && t'.balance as int == t.balance - amount
            case Receive(_, amount) => Minted(t') == Minted(t) && t'.balance as int == t.balance + amount - wrap
  {
    if op.Mint? {
      TotalAppend(t.mints, op.amount, MintAmount());
    }
  }

  // ---------------------------------------------------------------- runs

  ghost predicate IsRun(states: seq<World>, actions: seq<Action>) {
    && |states| == |actions| + 1
    && states[0] == NO_TREES
    && forall n :: 0 <= n < |actions| ==> Next(states[n], actions[n], states[n + 1])
  }

  ghost function WrapCount(states: seq<World>, actions: seq<Action>, key: string, n: nat): nat
    requires n <= |actions| < |states|
  {
    if n == 0 then 0
    else WrapCount(states, actions, key, n - 1) + if Wraps(states[n - 1], actions[n - 1], key) then 1 else 0
  }

  /** What a run has paid out twice. */
  ghost function RepaidTotal(states: seq<World>, actions: seq<Action>, key: string, n: nat): nat
    requires n <= |actions| < |states|
  {
    if n == 0 then 0
    else RepaidTotal(states, actions, key, n - 1) + Repaid(states[n - 1], actions[n - 1], key)
  }

  /** No send of `key` is received twice in the first `n` steps. */
  ghost predicate NoRepeats(states: seq<World>, actions: seq<Action>, key: string, n: nat)
    requires n <= |actions| < |states|
  {
    forall m :: 0 <= m < n ==> !Repeats(states[m], actions[m], key)
  }

  lemma {:induction false} RunConserves(states: seq<World>, actions: seq<Action>, key: string, n: nat)
    requires IsRun(states, actions) && n <= |actions|
    ensures ClaimsOk(states[n])
    ensures Lost(states[n], key) == TWO_64 * WrapCount(states, actions, key, n) - RepaidTotal(states, actions, key, n)
    ensures RepaidTotal(states, actions, key, n) == 0 <==> NoRepeats(states, actions, key, n)
  {
    hide Next, Wraps, ClaimsOk, Lost, Repaid, Repeats;
    if n == 0 {
      NothingLost(key);
    } else {
      RunConserves(states, actions, key, n - 1);
      assert Next(states[n - 1], actions[n - 1], states[n]);
      ClaimsKept(states[n - 1], actions[n - 1], states[n]);
      StepConserves(states[n - 1], actions[n - 1], states[n], key);
      RepaidIsPositive(states[n - 1], actions[n - 1], key);
    }
  }

  lemma RepaidIsPositive(w: World, a: Action, key: string)
    requires ClaimsOk(w)
    ensures Repaid(w, a, key) > 0 <==> Repeats(w, a, key)
  {
    if Repeats(w, a, key) {
      assert OperationOf(w, a).amount == At(w, a.sender, key).sends[a.i].amount;
    }
  }

  lemma NothingLost(key: string)
    ensures ClaimsOk(NO_TREES) && Lost(NO_TREES, key) == 0
  {
  }

  /** Equal modulo 2^64. */
  ghost predicate Congruent(x: int, y: int) {
    x % TWO_64 == y % TWO_64
  }

  /** The books of every token, in every state every run reaches. */
  lemma TokensAccounted(states: seq<World>, actions: seq<Action>, key: string, n: nat)
    requires IsRun(states, actions) && n <= |actions|
    ensures TotalBalance(states[n], key) + TotalPending(states[n], key) + TWO_64 * WrapCount(states, actions, key, n)
            == TotalMinted(states[n], key) + RepaidTotal(states, actions, key, n)
  {
    hide WrapCount, RepaidTotal, IsRun, ClaimsOk, NoRepeats, TotalBalance, TotalPending, TotalMinted;
    RunConserves(states, actions, key, n);
  }

  /**
   Conservation, in every state every run reaches, for every token. As long as no balance
   of the token has wrapped, balances plus sends not yet received make up the minted amount
   exactly if no send was received twice. As long as no send was received twice, they make
   it up modulo 2^64, and exactly if no balance has wrapped; in particular while less than
   2^64 was minted.
   */
  lemma TokensAreConserved(states: seq<World>, actions: seq<Action>, key: string, n: nat)
    requires IsRun(states, actions) && n <= |actions|
    ensures var w := states[n];
            var held, minted := TotalBalance(w, key) + TotalPending(w, key), TotalMinted(w, key);
            && (WrapCount(states, actions, key, n) == 0 ==> (held == minted <==> NoRepeats(states, actions, key, n)))
            && (NoRepeats(states, actions, key, n) ==>
                  && Congruent(held, minted)
                  && (held == minted <==> WrapCount(states, actions, key, n) == 0)
                  && (minted < TWO_64 ==> held == minted))
  {
    var w, wraps := states[n], WrapCount(states, actions, key, n);
    hide WrapCount, RepaidTotal, IsRun, ClaimsOk, NoRepeats, TotalBalance, TotalPending, TotalMinted, Congruent;
    RunConserves(states, actions, key, n);
    TotalsNonnegative(w, key);
    var held, repaid := TotalBalance(w, key) + TotalPending(w, key), RepaidTotal(states, actions, key, n);
    Balanced(held, TotalMinted(w, key), wraps, repaid);
  }

  /** What the books imply, as arithmetic. */
  lemma Balanced(held: nat, minted: int, wraps: nat, repaid: nat)
    requires held + TWO_64 * wraps == minted + repaid
    ensures wraps == 0 ==> (held == minted <==> repaid == 0)
    ensures repaid == 0 ==> Congruent(held, minted) && (held == minted <==> wraps == 0)
    ensures repaid == 0 && minted < TWO_64 ==> held == minted
  {
    ModuloShift(held, wraps);
  }

  /** Every receive of the first `n` steps is logged under the id of its send. */
  ghost predicate OwnIds(states: seq<World>, actions: seq<Action>, n: nat)
    requires n <= |actions| < |states|
  {
    forall m :: 0 <= m < n ==> OwnId(states[m], actions[m])
  }

  lemma {:induction false} ClaimsLoggedInRuns(states: seq<World>, actions: seq<Action>, n: nat)
    requires IsRun(states, actions) && n <= |actions| && OwnIds(states, actions, n)
    ensures ClaimsLogged(states[n])
  {
    hide Next, ClaimsLogged, OwnId;
    if n == 0 {
      NothingClaimed();
    } else {
      ClaimsLoggedInRuns(states, actions, n - 1);
      assert Next(states[n - 1], actions[n - 1], states[n]);
      ClaimsStayLogged(states[n - 1], actions[n - 1], states[n]);
    }
  }

  lemma NothingClaimed()
    ensures ClaimsLogged(NO_TREES)
  {
  }

  /** Logging every receive under the id of its send is enough: no send is then received twice. */
  lemma OwnIdsNeverRepeat(states: seq<World>, actions: seq<Action>, key: string, n: nat)
    requires IsRun(states, actions) && n <= |actions| && OwnIds(states, actions, n)
    ensures NoRepeats(states, actions, key, n)
  {
    hide Next, ClaimsLogged, OwnId;
    forall m | 0 <= m < n
      ensures !Repeats(states[m], actions[m], key)
    {
      ClaimsLoggedInRuns(states, actions, m);
      assert Next(states[m], actions[m], states[m + 1]);
      if actions[m].Claim? {
        ClaimedOnce(states[m], actions[m], states[m + 1]);
      }
    }
  }

  // ---------------------------------------------------------------- a send received twice

  /** Whoever has received a send can receive it again, under any id not logged yet. */
  lemma ReceivableAgain(w: World, a: Action, w': World, id: string) returns (w'': World)
    requires Next(w, a, w') && a.Claim? && !ReceivedId(At(w', a.did, Touched(a)), id)
    ensures Next(w', a.(id := id), w'') && Repeats(w', a.(id := id), Touched(a))
  {
    hide Canonical, ReceivedId;
    StepShape(w, a, w');
    SameSends(w, a, w', a.sender, Touched(a));
    ClaimedKey(a.tn);
    var send := At(w', a.sender, Touched(a)).sends[a.i];
    var r := Applied(w'.trees[a.did], Ok(TokenNameFromString(Touched(a))), Receive(id, send.amount));
    w'' := World(w'.trees[a.did := r.value], w'.claimed + {(a.sender, Touched(a), a.i)});
  }

  /** The local name of a tree's only token, or of none yet, stands for a token of its own. */
  lemma LocalNameIsOwn(did: Did, name: string, tokens: set<string>, requireDefault: bool)
    requires ':' !in name && tokens <= {TokenName(did, name).ToString()}
    ensures Canonical(tokens, did, name, requireDefault, Ok(TokenName(did, name)))
  {
    PrintThenParse(TokenName(did, name));
    assert DID_PREFIX[3] == ':';
  }

  lemma OwnTransaction(w: World, did: Did, name: string, op: Operation)
    requires did in w.trees && ':' !in name && !op.Receive?
    requires w.trees[did].Keys <= {TokenName(did, name).ToString()}
    requires var key := TokenName(did, name).ToString();
             Accepts(At(w, did, key), op) && (op.Establish? ==> key !in w.trees[did])
    ensures var key := TokenName(did, name).ToString();
            Next(w, Transact(did, name, Ok(TokenName(did, name)), op),
                 w.(trees := w.trees[did := w.trees[did][key := After(At(w, did, key), op)]]))
  {
    hide Canonical, Accepts, After;
    LocalNameIsOwn(did, name, w.trees[did].Keys, !op.Send?);
  }

  lemma ClaimStep(w: World, did: Did, sender: Did, tn: TokenName, i: nat, id: string)
    requires did in w.trees && sender in w.trees && i < |At(w, sender, tn.ToString()).sends|
    requires At(w, sender, tn.ToString()).sends[i].destination == did && !ReceivedId(At(w, did, tn.ToString()), id)
    ensures var key := tn.ToString();
            var t := Receiving(At(w, did, key), id, At(w, sender, key).sends[i].amount);
            Next(w, Claim(did, sender, tn, i, id),
                 World(w.trees[did := w.trees[did][key := t]], w.claimed + {(sender, key, i)}))
  {
    hide ReceivedId;
    ClaimedKey(tn);
  }

  /** The token of a tree that minted an amount and sent all of it. */
  ghost function Sender(amount: uint64, id: string, to: Did): Token {
    Token(Some(0), [amount], [TokenSend(id, amount, to)], [], 0)
  }

  /**
   A run in which a send is received under its own id and then under another: all that was
   minted is received twice.
   */
  lemma DoubleReceive(a: Did, b: Did, amount: uint64, x: string, y: string)
    returns (states: seq<World>, actions: seq<Action>)
    requires a != b && x != y && 0 < amount && 2 * amount < TWO_64
    ensures IsRun(states, actions)
    ensures var w, key := states[|actions|], TokenName(a, "t").ToString();
            TotalMinted(w, key) == amount && TotalPending(w, key) == 0 && TotalBalance(w, key) == 2 * amount
  {
    hide Next, Accepts, After;
    var tn := TokenName(a, "t");
    var key := tn.ToString();
    var t1 := EMPTY_TOKEN.(policy := Some(0));
    var t2 := Minting(t1, amount);
    var t3 := Sender(amount, x, b);
    var u1 := Receiving(EMPTY_TOKEN, x, amount);
    var u2 := Receiving(u1, y, amount);
    var w1 := World(map[a := map[]], {});
    var w2 := World(map[a := map[], b := map[]], {});
    var w3 := World(map[a := map[key := t1], b := map[]], {});
    var w4 := World(map[a := map[key := t2], b := map[]], {});
    var w5 := World(map[a := map[key := t3], b := map[]], {});
    var w6 := World(map[a := map[key := t3], b := map[key := u1]], {(a, key, 0)});
    var w7 := World(map[a := map[key := t3], b := map[key := u2]], {(a, key, 0)});
    states := [NO_TREES, w1, w2, w3, w4, w5, w6, w7];
    actions := [Create(a), Create(b), Transact(a, "t", Ok(tn), Establish(0)), Transact(a, "t", Ok(tn), Mint(amount)),
                Transact(a, "t", Ok(tn), Send(x, b, amount)), Claim(b, a, tn, 0, x), Claim(b, a, tn, 0, y)];
    BookOperations(amount, x, b);
    CreateStep(NO_TREES, a, w1);
    CreateStep(w1, b, w2);
    OwnTransaction(w2, a, "t", Establish(0));
    assert Next(w2, actions[2], w3) by { assert w2.trees[a := w2.trees[a][key := t1]] == w3.trees; }
    OwnTransaction(w3, a, "t", Mint(amount));
    assert Next(w3, actions[3], w4) by {
      assert map[key := t1][key := t2] == map[key := t2];
      assert w3.trees[a := w3.trees[a][key := t2]] == w4.trees;
    }
    OwnTransaction(w4, a, "t", Send(x, b, amount));
    assert Next(w4, actions[4], w5) by {
      assert map[key := t2][key := t3] == map[key := t3];
      assert w4.trees[a := w4.trees[a][key := t3]] == w5.trees;
    }
    ClaimStep(w5, b, a, tn, 0, x);
    assert Next(w5, actions[5], w6) by {
      assert w5.trees[b := w5.trees[b][key := u1]] == w6.trees && w5.claimed + {(a, key, 0)} == w6.claimed;
    }
    ClaimStep(w6, b, a, tn, 0, y);
    assert Next(w6, actions[6], w7) by {
      assert map[key := u1][key := u2] == map[key := u2];
      assert w6.trees[b := w6.trees[b][key := u2]] == w7.trees && w6.claimed + {(a, key, 0)} == w7.claimed;
    }
    DoubledSums(w7, a, b, key, amount, x, y);
  }

  lemma CreateStep(w: World, did: Did, w': World)
    requires did !in w.trees && w' == w.(trees := w.trees[did := map[]])
    ensures Next(w, Create(did), w')
  {
  }

  lemma BookOperations(amount: uint64, x: string, b: Did)
    requires amount > 0
    ensures var t1 := EMPTY_TOKEN.(policy := Some(0));
            var t2 := Minting(t1, amount);
            && Accepts(EMPTY_TOKEN, Establish(0)) && After(EMPTY_TOKEN, Establish(0)) == t1
            && Accepts(t1, Mint(amount)) && After(t1, Mint(amount)) == t2
            && Accepts(t2, Send(x, b, amount)) && After(t2, Send(x, b, amount)) == Sender(amount, x, b)
  {
  }

  lemma DoubledSums(w: World, a: Did, b: Did, key: string, amount: uint64, x: string, y: string)
    requires a != b && 2 * amount < TWO_64
    requires var u := Receiving(Receiving(EMPTY_TOKEN, x, amount), y, amount);
             w == World(map[a := map[key := Sender(amount, x, b)], b := map[key := u]], {(a, key, 0)})
    ensures TotalMinted(w, key) == amount && TotalPending(w, key) == 0 && TotalBalance(w, key) == 2 * amount
  {
    hide Whole, Minted, Pending, Receiving, Sender;
    var u := Receiving(Receiving(EMPTY_TOKEN, x, amount), y, amount);
    assert w.trees.Keys == {a, b};
    assert At(w, a, key) == Sender(amount, x, b) && At(w, b, key) == u;
    TwoTrees(a, b, MintedAt(w, key));
    TwoTrees(a, b, BalanceAt(w, key));
    TwoTrees(a, b, PendingAt(w, key));
    SenderBooks(amount, x, a, b, key);
    ReceiverBooks(amount, x, y, a, b, key);
  }

  lemma SenderBooks(amount: uint64, x: string, a: Did, b: Did, key: string)
    ensures var t := Sender(amount, x, b);
            Minted(t) == amount && t.balance == 0 && Pending(t.sends, a, key, {(a, key, 0)}) == 0
  {
    TotalAppend<uint64>([], amount, MintAmount());
    assert [] + [amount] == [amount];
    var sends := Sender(amount, x, b).sends;
    assert sends[..0] == [];
  }

  lemma ReceiverBooks(amount: uint64, x: string, y: string, a: Did, b: Did, key: string)
    requires 2 * amount < TWO_64
    ensures var u := Receiving(Receiving(EMPTY_TOKEN, x, amount), y, amount);
            Minted(u) == 0 && u.balance == 2 * amount && Pending(u.sends, b, key, {(a, key, 0)}) == 0
  {
    NoAmounts();
  }

  lemma TwoTrees(a: Did, b: Did, f: Did -> int)
    requires a != b
    ensures Whole({a, b}, f) == f(a) + f(b)
  {
    WholePick({a, b}, f, a);
    assert {a, b} - {a} == {b};
    WholePick({b}, f, b);
    assert {b} - {b} == {};
  }

  lemma TotalsNonnegative(w: World, key: string)
    ensures TotalBalance(w, key) >= 0 && TotalPending(w, key) >= 0
  {
    WholeNonnegative(w.trees.Keys, BalanceAt(w, key));
    WholeNonnegative(w.trees.Keys, PendingAt(w, key));
  }

  lemma ModuloShift(x: int, k: nat)
    ensures (x + TWO_64 * k) % TWO_64 == x % TWO_64
    ensures TWO_64 * k == 0 <==> k == 0
    ensures TWO_64 * k < TWO_64 ==> k == 0
  {
  }

  // ---------------------------------------------------------------- who mints

  /** Keys are printed names; only a tree's own tokens have a policy, and only those are minted. */
  ghost predicate IssuerOk(did: Did, tree: Tokens) {
    forall key :: key in tree ==>
      && ':' in key
      && (tree[key].mints != [] ==> tree[key].policy.Some?)
      && (tree[key].policy.Some? ==> did + ":" <= key)
  }

  /** A name for the tree's own use stands for a token of its own, or for one it already has. */
  lemma OwnName(tree: Tokens, did: Did, name: string, c: Resolved)
    requires Canonical(tree.Keys, did, name, true, c) && c.Ok? && forall key :: key in tree ==> ':' in key
    ensures did + ":" <= c.value.ToString() || c.value.ToString() in tree
  {
    PrintedForm(c.value);
    if c.value.chainTreeDid != did {
      var t :| t in tree.Keys && TokenNameFromString(t) == c.value;
      ParseThenPrint(t);
    }
  }

  lemma IssuerKept(w: World, a: Action, w': World)
    requires Next(w, a, w') && forall did :: did in w.trees ==> IssuerOk(did, w.trees[did])
    ensures forall did :: did in w'.trees ==> IssuerOk(did, w'.trees[did])
  {
    if !a.Create? {
      assert IssuerOk(a.did, w.trees[a.did]);
      if a.Claim? {
        ClaimedKey(a.tn);
        PrintedForm(a.tn);
      } else {
        PrintedForm(a.c.value);
        if !a.op.Send? {
          OwnName(w.trees[a.did], a.did, a.name, a.c);
        }
      }
    }
  }

  lemma {:induction false} IssuersInRuns(states: seq<World>, actions: seq<Action>, n: nat)
    requires IsRun(states, actions) && n <= |actions|
    ensures forall did :: did in states[n].trees ==> IssuerOk(did, states[n].trees[did])
  {
    hide Next, IssuerOk;
    if n > 0 {
      IssuersInRuns(states, actions, n - 1);
      assert Next(states[n - 1], actions[n - 1], states[n]);
      IssuerKept(states[n - 1], actions[n - 1], states[n]);
    }
  }

  /**
   A token is only ever minted by a tree whose DID its name starts with. Two such trees are
   one exactly if their DIDs have one length, as all DIDs in use do.
   */
  lemma OnlyTheIssuerMints(states: seq<World>, actions: seq<Action>, n: nat, key: string, d: Did, e: Did)
    requires IsRun(states, actions) && n <= |actions|
    requires At(states[n], d, key).mints != [] && At(states[n], e, key).mints != []
    ensures d + ":" <= key && e + ":" <= key
    ensures d == e <==> |d| == |e|
  {
    IssuersInRuns(states, actions, n);
    assert IssuerOk(d, states[n].trees[d]) && IssuerOk(e, states[n].trees[e]);
    assert (d + ":")[..|d|] == d && (e + ":")[..|e|] == e;
    assert key[..|d|] == d && key[..|e|] == e;
  }
}
