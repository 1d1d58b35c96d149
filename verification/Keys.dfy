/**
 The order on printed CIDs, and the string keys that the mempool and the in-flight
 queue build by writing a decimal height behind an object id.
 */
module Keys {
  import opened Wire

  // ---------------------------------------------------------------- order

  /** Go's `<` on strings. */
  predicate Less(a: string, b: string) {
    if b == "" then false
    else if a == "" then true
    else a[0] < b[0] || (a[0] == b[0] && Less(a[1..], b[1..]))
  }

  lemma {:induction false} LessTotal(a: string, b: string)
    ensures Less(a, b) || a == b || Less(b, a)
    ensures !(Less(a, b) && Less(b, a))
    ensures a == b ==> !Less(a, b)
  {
    if a != "" && b != "" {
      LessTotal(a[1..], b[1..]);
      assert a == [a[0]] + a[1..] && b == [b[0]] + b[1..];
    }
  }

  lemma {:induction false} LessTransitive(a: string, b: string, c: string)
    requires Less(a, b) && Less(b, c)
    ensures Less(a, c)
  {
    if a != "" && a[0] == b[0] == c[0] {
      LessTransitive(a[1..], b[1..], c[1..]);
    }
  }

  /** The strings agree up to `i`, where the first ends or has the smaller character. */
  ghost predicate FirstDiffers(a: string, b: string, i: int) {
    && 0 <= i <= |a| && i < |b|
    && a[..i] == b[..i]
    && (i == |a| || a[i] < b[i])
  }

  /** Less is the dictionary order: a proper prefix, or the smaller character at the first difference. */
  lemma {:induction false} LessExactly(a: string, b: string)
    ensures Less(a, b) <==> exists i :: FirstDiffers(a, b, i)
  {
    if a != "" && b != "" && a[0] == b[0] {
      LessExactly(a[1..], b[1..]);
      if i :| FirstDiffers(a[1..], b[1..], i) {
        assert a[..i + 1] == [a[0]] + a[1..][..i] && b[..i + 1] == [b[0]] + b[1..][..i];
        assert FirstDiffers(a, b, i + 1);
      }
      if i :| FirstDiffers(a, b, i) {
        assert a[1..][..i - 1] == a[..i][1..] && b[1..][..i - 1] == b[..i][1..];
        assert FirstDiffers(a[1..], b[1..], i - 1);
      }
    } else if a == "" || b == "" {
      assert b != "" ==> FirstDiffers(a, b, 0);
    } else {
      assert a[0] < b[0] ==> FirstDiffers(a, b, 0);
      if i :| FirstDiffers(a, b, i) {
        assert i == 0 || a[..i][0] == b[..i][0];
      }
    }
  }

  // ---------------------------------------------------------------- decimal heights

  /** strconv.FormatUint(n, 10). */
  function FormatUint(n: nat): (s: string)
    ensures |s| > 0
  {
    if n < 10 then [('0' as int + n) as char]
    else FormatUint(n / 10) + [('0' as int + n % 10) as char]
  }

  predicate IsDigit(c: char) {
    '0' <= c <= '9'
  }

  /** Value of a digit string, read left to right. */
  ghost function Parse(s: string): int {
    if s == "" then 0 else 10 * Parse(s[..|s| - 1]) + (s[|s| - 1] as int - '0' as int)
  }

  lemma {:induction false} FormatDigits(n: nat)
    ensures forall i :: 0 <= i < |FormatUint(n)| ==> IsDigit(FormatUint(n)[i])
    ensures Parse(FormatUint(n)) == n
    ensures FormatUint(n)[0] == '0' ==> n == 0
  {
    if n >= 10 {
      FormatDigits(n / 10);
      var s := FormatUint(n);
      assert s[..|s| - 1] == FormatUint(n / 10);
    } else {
      var s := FormatUint(n);
      assert s[..|s| - 1] == "";
    }
  }

  lemma FormatInjective(m: nat, n: nat)
    requires FormatUint(m) == FormatUint(n)
    ensures m == n
  {
    FormatDigits(m);
    FormatDigits(n);
  }

  /** A non-empty proper prefix of a printed number is itself a printed, positive number. */
  lemma {:induction false} FormatPrefix(n: nat, k: nat) returns (v: nat)
    requires 0 < k < |FormatUint(n)|
    ensures 0 < v <= n / 10
    ensures FormatUint(n)[..k] == FormatUint(v)
  {
    var s := FormatUint(n);
    FormatDigits(n / 10);
    if k == |s| - 1 {
      v := n / 10;
      assert s[..k] == FormatUint(v);
    } else {
      v := FormatPrefix(n / 10, k);
      assert s[..k] == FormatUint(n / 10)[..k];
    }
  }

  // ---------------------------------------------------------------- keys

  /** toConflictSetID and inFlightID: the same concatenation in both places. */
  function Key(objectId: string, height: nat): string {
    objectId + FormatUint(height)
  }

  /** Some pair of heights gives the two ids one key. */
  ghost predicate Collide(a: string, b: string) {
    exists h: uint64, k: uint64 :: Key(a, h) == Key(b, k)
  }

  /** `b` is `a` followed by a positive decimal small enough to take one more digit. */
  ghost predicate ExtendsByHeight(a: string, b: string) {
    exists v: nat :: 0 < v <= MAX_UINT64 / 10 && b == a + FormatUint(v)
  }

  lemma {:induction false} KeySplit(a: string, h: nat, b: string, k: nat)
    requires Key(a, h) == Key(b, k)
    requires |a| < |b|
    requires h <= MAX_UINT64
    ensures ExtendsByHeight(a, b)
  {
    var d := |b| - |a|;
    assert Key(a, h)[|a|..] == FormatUint(h);
    assert b == Key(b, k)[..|b|];
    assert b == a + FormatUint(h)[..d];
    assert |FormatUint(h)| == d + |FormatUint(k)|;
    var v := FormatPrefix(h, d);
    assert b == a + FormatUint(v);
  }

  /** Ids of one length never share a key, whatever the heights. */
  lemma KeyInjective(a: string, h: nat, b: string, k: nat)
    requires |a| == |b|
    requires Key(a, h) == Key(b, k)
    ensures a == b && h == k
  {
    assert a == Key(a, h)[..|a|] && b == Key(b, k)[..|b|];
    assert FormatUint(h) == Key(a, h)[|a|..] && FormatUint(k) == Key(b, k)[|b|..];
    FormatInjective(h, k);
  }

  /** For ids in use, a key stands for one object at one height. */
  lemma KeyMeansObjectAndHeight(a: string, h: nat, b: string, k: nat)
    requires IsDid(a) && IsDid(b)
    ensures Key(a, h) == Key(b, k) <==> a == b && h == k
  {
    if Key(a, h) == Key(b, k) {
      KeyInjective(a, h, b, k);
    }
  }

  /** Exactly which pairs of distinct ids can be confused by the concatenated key. */
  lemma KeyCollisionExact(a: string, b: string)
    requires a != b
    ensures Collide(a, b) <==> ExtendsByHeight(a, b) || ExtendsByHeight(b, a)
  {
    if Collide(a, b) {
      var h: uint64, k: uint64 :| Key(a, h) == Key(b, k);
      if |a| < |b| {
        KeySplit(a, h, b, k);
      } else if |b| < |a| {
        KeySplit(b, k, a, h);
      } else {
        KeyInjective(a, h, b, k);
        assert false;
      }
    }
    if ExtendsByHeight(a, b) {
      ExtensionCollides(a, b);
    }
    if ExtendsByHeight(b, a) {
      ExtensionCollides(b, a);
      var h: uint64, k: uint64 :| Key(b, h) == Key(a, k);
      assert Key(a, k) == Key(b, h);
    }
  }

  lemma ExtensionCollides(a: string, b: string)
    requires ExtendsByHeight(a, b)
    ensures Collide(a, b)
  {
    var v: nat :| 0 < v <= MAX_UINT64 / 10 && b == a + FormatUint(v);
    var h: uint64 := 10 * v;
    assert FormatUint(h) == FormatUint(v) + "0";
    assert FormatUint(0) == "0";
    assert Key(a, h) == a + (FormatUint(v) + "0") == Key(b, 0);
  }

  /**
   The form of object ids in use: `did:tupelo:` and a 42 character address
   (consensus.AddrToDid over a printed Ethereum address). They have one length.
   */
  predicate IsDid(id: string) {
    |id| == 53 && id[..11] == "did:tupelo:"
  }
}
