/**
 sdk/consensus/transactions.go and consensus.go: names joined and split at colons.
 */
module TokenNames {
  import opened Wire

  /** strings.Split(s, ":") */
  function Split(s: string): (parts: seq<string>)
    ensures |parts| >= 1
  {
    if s == "" then [""]
    else
      Prepend(s[0], Split(s[1..]))
  }

  /** The parts after one more character in front. */
  function Prepend(c: char, parts: seq<string>): (r: seq<string>)
    requires |parts| >= 1
    ensures |r| >= 1
  {
    if c == ':' then [""] + parts else [[c] + parts[0]] + parts[1..]
  }

  lemma PrependDistributes(c: char, x: seq<string>, y: seq<string>)
    requires |x| >= 1
    ensures Prepend(c, x + y) == Prepend(c, x) + y
  {
    assert (x + y)[1..] == x[1..] + y;
  }

  /** strings.Join(parts, ":") */
  function Join(parts: seq<string>): string {
    if parts == [] then ""
    else if |parts| == 1 then parts[0]
    else parts[0] + ":" + Join(parts[1..])
  }

  lemma {:induction false} JoinSplit(s: string)
    ensures Join(Split(s)) == s
  {
    if s != "" {
      var rest := Split(s[1..]);
      JoinSplit(s[1..]);
      if s[0] == ':' {
        assert ([""] + rest)[1..] == rest;
      } else {
        var parts := [[s[0]] + rest[0]] + rest[1..];
        assert parts[1..] == rest[1..];
      }
    }
  }

  /** No part of a split holds a colon, and a string without one is its only part. */
  lemma {:induction false} PartsAreColonFree(s: string)
    ensures forall p :: p in Split(s) ==> ':' !in p
    ensures |Split(s)| == 1 <==> ':' !in s
    ensures ':' !in s ==> Split(s) == [s]
  {
    if s != "" {
      PartsAreColonFree(s[1..]);
      assert s == [s[0]] + s[1..];
    }
  }

  /** Splitting at a colon of one's choice splits both sides. */
  lemma {:induction false} SplitAt(a: string, b: string)
    ensures Split(a + ":" + b) == Split(a) + Split(b)
  {
    var s := a + ":" + b;
    if a == "" {
      assert s[0] == ':' && s[1..] == b;
    } else {
      SplitAt(a[1..], b);
      assert s[0] == a[0] && s[1..] == a[1..] + ":" + b;
      PrependDistributes(a[0], Split(a[1..]), Split(b));
      assert Split(a) == Prepend(a[0], Split(a[1..])) && Split(s) == Prepend(s[0], Split(s[1..]));
    }
  }

  lemma {:induction false} JoinAppend(parts: seq<string>, last: string)
    requires parts != []
    ensures Join(parts + [last]) == Join(parts) + ":" + last
  {
    assert (parts + [last])[1..] == parts[1..] + [last];
    if |parts| == 1 {
      assert parts[1..] + [last] == [last];
    } else {
      JoinAppend(parts[1..], last);
    }
  }

  // ---------------------------------------------------------------- DIDs

  const DID_PREFIX := "did:tupelo:"

  function AddrToDid(addr: string): string {
    DID_PREFIX + addr
  }

  function DidToAddr(did: string): string {
    var segs := Split(did);
    segs[|segs| - 1]
  }

  /** What comes after the last colon. */
  ghost predicate IsBehind(did: string, addr: string) {
    ':' !in addr && (did == addr || exists p :: did == p + ":" + addr)
  }

  /** The address of a DID is what comes after its last colon, and nothing else is. */
  lemma AddressIsBehind(did: string, addr: string)
    ensures DidToAddr(did) == addr <==> IsBehind(did, addr)
  {
    var segs := Split(did);
    var last := segs[|segs| - 1];
    PartsAreColonFree(did);
    JoinSplit(did);
    assert last in segs;
    if |segs| > 1 {
      var init := segs[..|segs| - 1];
      assert segs == init + [last];
      JoinAppend(init, last);
    }
    assert IsBehind(did, last);
    if IsBehind(did, addr) {
      PartsAreColonFree(addr);
      if p :| did == p + ":" + addr {
        SplitAt(p, addr);
      }
    }
  }

  /** Reading the address back from a DID works exactly for addresses without a colon. */
  lemma DidRoundTrip(addr: string)
    ensures DidToAddr(AddrToDid(addr)) == addr <==> ':' !in addr
  {
    assert AddrToDid(addr) == "did:tupelo" + ":" + addr;
    SplitAt("did:tupelo", addr);
    PartsAreColonFree(addr);
    var segs := Split(addr);
    assert segs[|segs| - 1] in segs;
  }

  // ---------------------------------------------------------------- token names

  datatype TokenName = TokenName(chainTreeDid: string, localName: string) {
    function ToString(): string {
      Join([chainTreeDid, localName])
    }

    predicate IsCanonical() {
      chainTreeDid != "" && localName != ""
    }
  }

  function TokenNameFromString(s: string): TokenName {
    var components := Split(s);
    TokenName(Join(components[..|components| - 1]), components[|components| - 1])
  }

  lemma PrintedForm(tn: TokenName)
    ensures tn.ToString() == tn.chainTreeDid + ":" + tn.localName
  {
    var parts := [tn.chainTreeDid, tn.localName];
    assert parts[1..] == [tn.localName];
    assert Join(parts) == parts[0] + ":" + Join(parts[1..]);
  }

  /** A printed name is read back unchanged exactly if its local part has no colon. */
  lemma PrintThenParse(tn: TokenName)
    ensures TokenNameFromString(tn.ToString()) == tn <==> ':' !in tn.localName
  {
    var did, name := tn.chainTreeDid, tn.localName;
    PrintedForm(tn);
    SplitAt(did, name);
    PartsAreColonFree(name);
    var segs := Split(name);
    assert segs[|segs| - 1] in segs;
    if ':' !in name {
      assert (Split(did) + [name])[..|Split(did)|] == Split(did);
      JoinSplit(did);
    }
  }

  /** A string is printed back unchanged exactly if it has a colon. */
  lemma ParseThenPrint(s: string)
    ensures TokenNameFromString(s).ToString() == s <==> ':' in s
  {
    var parts := Split(s);
    PartsAreColonFree(s);
    PrintedForm(TokenNameFromString(s));
    if ':' in s {
      var init, last := parts[..|parts| - 1], parts[|parts| - 1];
      assert parts == init + [last];
      JoinAppend(init, last);
      JoinSplit(s);
    }
  }

  /** Names that can be read back never share a key in the tree. */
  lemma PrintInjective(a: TokenName, b: TokenName)
    requires ':' !in a.localName && ':' !in b.localName
    requires a.ToString() == b.ToString()
    ensures a == b
  {
    PrintThenParse(a);
    PrintThenParse(b);
  }

  /** `tn` is one of the tree's names and has the local part asked for. */
  ghost predicate Matches(tokens: set<string>, name: string, tn: TokenName) {
    exists t :: t in tokens && TokenNameFromString(t) == tn && tn.localName == name
  }

  ghost predicate Ambiguous(tokens: set<string>, name: string) {
    exists t, u :: t in tokens && u in tokens && t != u
      && TokenNameFromString(t).localName == name == TokenNameFromString(u).localName
  }

  /**
   What a name stands for in a tree. A full name stands for itself, and must be the
   tree's own where that is required. A local name stands for the one token of the tree
   with that local name, for the tree's own if there is none, and for nothing if there
   are several.
   */
  ghost predicate Canonical(tokens: set<string>, did: string, name: string, requireDefault: bool, r: Result<TokenName,
                            string>) {
    if DID_PREFIX <= name then
      && (r.Ok? <==> !requireDefault || TokenNameFromString(name).chainTreeDid == did)
      && (r.Ok? ==> r.value == TokenNameFromString(name))
    else
      && (r.Err? <==> Ambiguous(tokens, name))
      && (r.Ok? ==> r.value.localName == name)
      && (r.Ok? && r.value.chainTreeDid != did ==> Matches(tokens, name, r.value))
      && (r.Ok? ==> forall tn :: Matches(tokens, name, tn) ==> tn == r.value)
  }

  /**
   CanonicalTokenName. `tokens` are the names under the tree's tokens path, `None` if it
   is not there yet.
   */
  method CanonicalTokenName(tokens: Option<set<string>>, defaultDid: string, tokenName: string, requireDefault: bool)
    returns (r: Result<TokenName, string>)
    ensures Canonical(Names(tokens), defaultDid, tokenName, requireDefault, r)
  {
    if DID_PREFIX <= tokenName {
      var tn := TokenNameFromString(tokenName);
      if requireDefault && tn.chainTreeDid != defaultDid {
        return Err("invalid chaintree DID in token name");
      }
      return Ok(tn);
    }
    if tokens.None? {
      return Ok(TokenName(defaultDid, tokenName));
    }
    var matched: Option<TokenName>, todo := None, tokens.value;
    ghost var hit: string := "";
    while todo != {}
      invariant todo <= tokens.value
      invariant matched.None? ==> forall t :: t in tokens.value - todo ==> TokenNameFromString(t).localName != tokenName
      invariant matched.Some? ==>
                  && hit in tokens.value - todo && TokenNameFromString(hit) == matched.value
                  && matched.value.localName == tokenName
                  && forall t :: t in tokens.value - todo && TokenNameFromString(t).localName == tokenName ==> t == hit
      decreases todo
    {
      var token :| token in todo;
      var tn := TokenNameFromString(token);
      if tn.localName == tokenName {
        if matched.Some? {
          return Err("ambiguous token names found; please provide full name");
        }
        matched, hit := Some(tn), token;
      }
      todo := todo - {token};
    }
    if matched.Some? {
      return Ok(matched.value);
    }
    r := Ok(TokenName(defaultDid, tokenName));
  }

  ghost function Names(tokens: Option<set<string>>): set<string> {
    if tokens.None? then {} else tokens.value
  }
}
