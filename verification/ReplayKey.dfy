/** How a grant's identifier becomes a bucket key, and exactly which identifiers share one. */
module ReplayKey {
  import opened Policy

  const DOT: Byte := 46

  /** Letters, digits, dash, underscore, equals and dot pass through. */
  predicate Safe(c: Byte) {
    97 <= c <= 122 || 65 <= c <= 90 || 48 <= c <= 57 || c == 45 || c == 95 || c == 61 || c == DOT
  }

  function HexDigit(d: int): (h: Byte)
    requires 0 <= d < 16
    ensures Safe(h) && h != DOT
  {
    if d < 10 then 48 + d else 97 + (d - 10)
  }

  function Escape(c: Byte): seq<Byte> {
    [DOT, HexDigit(c / 16), HexDigit(c % 16)]
  }

  function KeyOf(c: Byte): seq<Byte> {
    if Safe(c) then [c] else Escape(c)
  }

  function Key(id: seq<Byte>): seq<Byte> {
    if id == [] then [] else KeyOf(id[0]) + Key(id[1..])
  }

  method ComputeKey(id: seq<Byte>) returns (out: seq<Byte>)
    ensures out == Key(id)
  {
    out := [];
    var i := 0;
    while i < |id|
      invariant 0 <= i <= |id|
      invariant Key(id) == out + Key(id[i..])
    {
      KeyStep(id, i, out);
      if Safe(id[i]) {
        out := out + [id[i]];
      } else {
        out := out + Escape(id[i]);
      }
      i := i + 1;
    }
  }

  lemma KeyStep(id: seq<Byte>, i: nat, out: seq<Byte>)
    requires i < |id|
    ensures out + Key(id[i..]) == (out + KeyOf(id[i])) + Key(id[i + 1..])
  {
    assert id[i..][0] == id[i] && id[i..][1..] == id[i + 1..];
    assert out + (KeyOf(id[i]) + Key(id[i + 1..])) == (out + KeyOf(id[i])) + Key(id[i + 1..]);
  }

  lemma {:induction false} KeyConcat(a: seq<Byte>, b: seq<Byte>)
    ensures Key(a + b) == Key(a) + Key(b)
  {
    if a == [] {
      assert a + b == b;
    } else {
      KeyConcat(a[1..], b);
      assert (a + b)[1..] == a[1..] + b;
      Associates(KeyOf(a[0]), Key(a[1..]), Key(b));
    }
  }

  lemma Associates(x: seq<Byte>, y: seq<Byte>, z: seq<Byte>)
    ensures x + (y + z) == (x + y) + z
  {
  }

  /** Where a stretch sits in what it was put together from, and taking it out again. */
  lemma Middle<T>(a: seq<T>, m: seq<T>, c: seq<T>)
    ensures (a + m + c)[|a|..|a| + |m|] == m && |a + m + c| == |a| + |m| + |c|
  {
  }

  lemma Around<T>(s: seq<T>, i: nat, j: nat)
    requires i <= j <= |s|
    ensures s == s[..i] + s[i..j] + s[j..]
  {
  }

  lemma {:induction false} SafeIsItsOwnKey(a: seq<Byte>)
    requires forall i | 0 <= i < |a| :: Safe(a[i])
    ensures Key(a) == a
  {
    if a != [] {
      SafeIsItsOwnKey(a[1..]);
    }
  }

  /** The three bytes at `i` read as the escape of a byte that is escaped. */
  ghost predicate EscapeAt(a: seq<Byte>, i: nat, c: Byte) {
    i + 3 <= |a| && !Safe(c) && a[i..i + 3] == Escape(c)
  }

  /** Nothing in the identifier is escaped, and nothing in it looks escaped. */
  ghost predicate Clean(a: seq<Byte>) {
    && (forall i | 0 <= i < |a| :: Safe(a[i]))
    && forall i: nat, c: Byte :: !EscapeAt(a, i, c)
  }

  ghost predicate SharesItsKey(a: seq<Byte>) {
    exists b :: b != a && Key(b) == Key(a)
  }

  /** Swapping a stretch for one with the same key keeps the key. */
  lemma SameKeySwap(pre: seq<Byte>, x: seq<Byte>, y: seq<Byte>, post: seq<Byte>)
    requires Key(x) == Key(y)
    ensures Key(pre + x + post) == Key(pre + y + post)
  {
    KeyConcat(pre + x, post);
    KeyConcat(pre, x);
    KeyConcat(pre + y, post);
    KeyConcat(pre, y);
  }

  lemma Swap(pre: seq<Byte>, x: seq<Byte>, y: seq<Byte>, post: seq<Byte>)
    requires Key(x) == Key(y) && |x| != |y|
    ensures SharesItsKey(pre + x + post)
  {
    SameKeySwap(pre, x, y, post);
    LongerShares(pre + x + post, pre + y + post);
  }

  lemma LongerShares(a: seq<Byte>, b: seq<Byte>)
    requires |a| != |b| && Key(a) == Key(b)
    ensures SharesItsKey(a)
  {
    assert b != a;
  }

  lemma EscapeIsItsOwnKey(c: Byte)
    requires !Safe(c)
    ensures Key([c]) == Key(Escape(c)) == Escape(c)
  {
    SafeIsItsOwnKey(Escape(c));
    assert Key([c]) == Escape(c) + Key([]);
  }

  /** An identifier has its key to itself exactly when it is clean. */
  lemma KeySharedExactly(a: seq<Byte>)
    ensures SharesItsKey(a) <==> !Clean(a)
  {
    if i :| 0 <= i < |a| && !Safe(a[i]) {
      UnsafeShares(a, i);
    } else if i: nat, c: Byte :| EscapeAt(a, i, c) {
      EscapeShares(a, i, c);
    } else {
      forall b | Key(b) == Key(a)
        ensures b == a
      {
        CleanIsAlone(a, b);
      }
    }
  }

  lemma UnsafeShares(a: seq<Byte>, i: nat)
    requires i < |a| && !Safe(a[i])
    ensures SharesItsKey(a)
  {
    EscapeIsItsOwnKey(a[i]);
    Around(a, i, i + 1);
    assert a[i..i + 1] == [a[i]];
    Swap(a[..i], [a[i]], Escape(a[i]), a[i + 1..]);
  }

  lemma EscapeShares(a: seq<Byte>, i: nat, c: Byte)
    requires EscapeAt(a, i, c)
    ensures SharesItsKey(a)
  {
    EscapeIsItsOwnKey(c);
    Around(a, i, i + 3);
    Swap(a[..i], Escape(c), [c], a[i + 3..]);
  }

  lemma CleanIsAlone(a: seq<Byte>, b: seq<Byte>)
    requires Clean(a) && Key(b) == Key(a)
    ensures a == b
  {
    SafeIsItsOwnKey(a);
    if j :| 0 <= j < |b| && !Safe(b[j]) {
      var i := FirstUnsafe(b, j);
      UnsafeShowsEscape(b, i);
    } else {
      SafeIsItsOwnKey(b);
    }
  }

  lemma UnsafeShowsEscape(b: seq<Byte>, i: nat)
    requires i < |b| && !Safe(b[i]) && forall j | 0 <= j < i :: Safe(b[j])
    ensures EscapeAt(Key(b), i, b[i])
  {
    KeyAround(b, i);
    EscapeBetween(b[..i], b[i], Key(b[i + 1..]));
  }

  lemma KeyAround(b: seq<Byte>, i: nat)
    requires i < |b| && !Safe(b[i]) && forall j | 0 <= j < i :: Safe(b[j])
    ensures Key(b) == b[..i] + Escape(b[i]) + Key(b[i + 1..])
  {
    SafeIsItsOwnKey(b[..i]);
    KeyConcat(b[..i], b[i..]);
    assert b == b[..i] + b[i..];
    KeyStep(b, i, b[..i]);
  }

  lemma EscapeBetween(pre: seq<Byte>, c: Byte, post: seq<Byte>)
    requires !Safe(c)
    ensures EscapeAt(pre + Escape(c) + post, |pre|, c)
  {
    Middle(pre, Escape(c), post);
  }

  lemma {:induction false} FirstUnsafe(b: seq<Byte>, i: nat) returns (k: nat)
    requires i < |b| && !Safe(b[i])
    ensures k < |b| && !Safe(b[k]) && forall j | 0 <= j < k :: Safe(b[j])
  {
    k := 0;
    while Safe(b[k])
      invariant k <= i && forall j | 0 <= j < k :: Safe(b[j])
      decreases i - k
    {
      k := k + 1;
    }
  }

  /** Among identifiers without a dot no two share a key. */
  lemma {:induction false} InjectiveWithoutDots(a: seq<Byte>, b: seq<Byte>)
    requires DOT !in a && DOT !in b && Key(a) == Key(b)
    ensures a == b
  {
    if a != [] && b != [] {
      assert Key(a)[0] == Key(b)[0];
      HeadsAgree(a[0], b[0]);
      assert Key(a)[|KeyOf(a[0])|..] == Key(a[1..]) && Key(b)[|KeyOf(b[0])|..] == Key(b[1..]);
      InjectiveWithoutDots(a[1..], b[1..]);
    }
  }

  lemma HeadsAgree(c: Byte, d: Byte)
    requires c != DOT && d != DOT
    ensures forall x: seq<Byte>, y: seq<Byte> :: KeyOf(c) + x == KeyOf(d) + y ==> c == d
  {
    forall x: seq<Byte>, y: seq<Byte> | KeyOf(c) + x == KeyOf(d) + y
      ensures c == d
    {
      var l, r := KeyOf(c) + x, KeyOf(d) + y;
      assert l[0] == KeyOf(c)[0] && r[0] == KeyOf(d)[0];
      if !Safe(c) && !Safe(d) {
        assert l[1] == HexDigit(c / 16) && r[1] == HexDigit(d / 16);
        assert l[2] == HexDigit(c % 16) && r[2] == HexDigit(d % 16);
      }
    }
  }

  /** The bytes a bucket admits in a key. */
  ghost predicate Admitted(c: Byte) {
    || 'a' as int <= c <= 'z' as int || 'A' as int <= c <= 'Z' as int || '0' as int <= c <= '9' as int
    || c == '-' as int || c == '_' as int || c == '=' as int || c == '.' as int
  }

  /** Every id has a key the bucket admits, and an id is its own key exactly when the bucket would admit it. */
  lemma {:induction false} KeysAreAdmitted(id: seq<Byte>)
    ensures forall c | c in Key(id) :: Admitted(c)
    ensures Key(id) == id <==> forall c | c in id :: Admitted(c)
    ensures |Key(id)| >= |id|
  {
    if id != [] {
      KeysAreAdmitted(id[1..]);
      assert id == [id[0]] + id[1..];
      if Safe(id[0]) {
        assert Key(id)[1..] == Key(id[1..]);
      } else {
        assert |Key(id)| == 3 + |Key(id[1..])| && id[0] in id && !Admitted(id[0]);
        assert forall c | c in Escape(id[0]) :: Safe(c);
      }
    }
  }

  /** A slash, and the text of its escape. */
  lemma KeyIsNotInjective()
    ensures Key([47]) == Key([46, 50, 102])
  {
    EscapeIsItsOwnKey(47);
    assert Escape(47) == [46, 50, 102];
  }
}
