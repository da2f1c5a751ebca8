/**
  String primitives of the JavaScript runtime the service relies on:
  `trim`, ASCII `toLowerCase`, `includes`, `startsWith`, `Array.prototype.join`,
  `String.prototype.split` on one character, and decimal rendering of integers.
 */
module Text {

  /** The code points `String.prototype.trim` removes: ECMAScript WhiteSpace and LineTerminator. */
  predicate IsSpace(c: char) {
    || c == ' ' || c == '\t' || c == '\n' || c == '\r'
    || c == '\U{B}' || c == '\U{C}' || c == '\U{A0}' || c == '\U{1680}'
    || ('\U{2000}' <= c <= '\U{200A}')
    || c == '\U{2028}' || c == '\U{2029}' || c == '\U{202F}' || c == '\U{205F}'
    || c == '\U{3000}' || c == '\U{FEFF}'
  }

  predicate AllSpace(s: string) {
    forall i :: 0 <= i < |s| ==> IsSpace(s[i])
  }

  /** Neither end of `s` is white space. */
  predicate Trimmed(s: string) {
    s == [] || (!IsSpace(s[0]) && !IsSpace(s[|s| - 1]))
  }

  function TrimStart(s: string): (r: string)
    ensures |r| <= |s| && r == s[|s| - |r|..]
    ensures AllSpace(s[..|s| - |r|])
    ensures r == [] || !IsSpace(r[0])
  {
    if |s| > 0 && IsSpace(s[0]) then
      var r := TrimStart(s[1..]);
      assert s[..|s| - |r|] == [s[0]] + s[1..][..|s[1..]| - |r|];
      r
    else s
  }

  function TrimEnd(s: string): (r: string)
    ensures |r| <= |s| && r == s[..|r|]
    ensures AllSpace(s[|r|..])
    ensures r == [] || !IsSpace(r[|r| - 1])
  {
    if |s| > 0 && IsSpace(s[|s| - 1]) then
      var r := TrimEnd(s[..|s| - 1]);
      assert s[|r|..] == s[..|s| - 1][|r|..] + [s[|s| - 1]];
      r
    else s
  }

  /** `r` is `s` with white space removed from both ends: a slice of `s` with only white space
      before and after it. */
  predicate IsTrimOf(r: string, s: string) {
    exists i :: 0 <= i <= |s| - |r| && r == s[i..i + |r|] && AllSpace(s[..i]) && AllSpace(s[i + |r|..])
  }

  /** `String.prototype.trim`. */
  function Trim(s: string): (r: string)
    ensures Trimmed(r)
    ensures IsTrimOf(r, s)
    ensures r == [] <==> AllSpace(s)
    ensures Trimmed(s) ==> r == s
  {
    TrimSlice(s);
    var r := TrimEnd(TrimStart(s));
    assert r == [] ==> AllSpace(s) by {
      if r == [] {
        BlankTrimOf(s);
      }
    }
    r
  }

  lemma TrimSlice(s: string)
    ensures IsTrimOf(TrimEnd(TrimStart(s)), s)
  {
    var a := TrimStart(s);
    var r := TrimEnd(a);
    var i := |s| - |a|;
    SliceOfSuffix(s, i, |r|);
    TrimWitness(r, s, i);
  }

  /** White space on both sides of an empty slice covers the whole string. */
  lemma BlankTrimOf(s: string)
    requires IsTrimOf([], s)
    ensures AllSpace(s)
  {
    var i :| 0 <= i <= |s| && AllSpace(s[..i]) && AllSpace(s[i..]);
    forall k | 0 <= k < |s|
      ensures IsSpace(s[k])
    {
      if k < i {
        assert s[k] == s[..i][k];
      } else {
        assert s[k] == s[i..][k - i];
      }
    }
  }

  lemma TrimWitness(r: string, s: string, i: nat)
    requires i <= |s| - |r| && r == s[i..i + |r|] && AllSpace(s[..i]) && AllSpace(s[i + |r|..])
    ensures IsTrimOf(r, s)
  {
  }

  lemma SliceOfSuffix(s: string, i: nat, n: nat)
    requires i + n <= |s|
    ensures s[i..][..n] == s[i..i + n] && s[i..][n..] == s[i + n..]
  {
  }

  /** Lower-cases the ASCII letters A-Z and leaves every other character alone. */
  function LowerChar(c: char): char {
    if 'A' <= c <= 'Z' then (c as int + 32) as char else c
  }

  function Lower(s: string): (r: string)
    ensures |r| == |s|
    ensures forall i :: 0 <= i < |s| ==> r[i] == LowerChar(s[i])
  {
    seq(|s|, i requires 0 <= i < |s| => LowerChar(s[i]))
  }

  /** `String(x).trim().toLowerCase()`: the canonical form every normaliser compares. */
  function Canon(s: string): (r: string)
    ensures Trimmed(r)
    ensures r == [] <==> AllSpace(s)
    ensures forall i :: 0 <= i < |r| ==> !IsUpper(r[i])
    ensures |r| == |Trim(s)|
    ensures forall i :: 0 <= i < |r| ==> r[i] == Trim(s)[i] || (IsUpper(Trim(s)[i]) && r[i] as int == Trim(s)[i] as int + 32)
  {
    LowerTrimmed(Trim(s));
    LowerChars(Trim(s));
    Lower(Trim(s))
  }

  lemma LowerTrimmed(t: string)
    requires Trimmed(t)
    ensures Trimmed(Lower(t))
  {
    if t != [] {
      LowerCharKeepsSpace(t[0]);
      LowerCharKeepsSpace(t[|t| - 1]);
    }
  }

  /** Each character of `Lower(t)` is its original, or an ASCII capital shifted to lower case. */
  lemma LowerChars(t: string)
    ensures forall i :: 0 <= i < |t| ==> !IsUpper(Lower(t)[i])
    ensures forall i :: 0 <= i < |t| ==>
              Lower(t)[i] == t[i] || (IsUpper(t[i]) && Lower(t)[i] as int == t[i] as int + 32)
  {
  }

  /** Lower-casing never turns a letter into white space or back. */
  lemma LowerCharKeepsSpace(c: char)
    ensures IsSpace(LowerChar(c)) == IsSpace(c)
  {
    if 'A' <= c <= 'Z' {
      assert 'a' <= LowerChar(c) <= 'z';
    }
  }

  predicate IsUpper(c: char) {
    'A' <= c <= 'Z'
  }

  /** A trimmed string without ASCII capitals is its own canonical form. */
  lemma CanonOfToken(s: string)
    requires Trimmed(s)
    requires forall c :: c in s ==> !IsUpper(c)
    ensures Canon(s) == s
  {
    assert Trim(s) == s;
    assert forall i :: 0 <= i < |s| ==> s[i] in s;
  }

  /** A word of lower-case ASCII letters and hyphens is its own canonical form. */
  lemma LowerWordCanon(s: string)
    requires forall i :: 0 <= i < |s| ==> 'a' <= s[i] <= 'z' || s[i] == '-'
    ensures Canon(s) == s
  {
    forall c | c in s ensures !IsUpper(c) {
      var i :| 0 <= i < |s| && s[i] == c;
    }
    CanonOfToken(s);
  }

  lemma LowerIdempotent(s: string)
    ensures Lower(Lower(s)) == Lower(s)
  {
  }

  /** Canonicalisation is idempotent, so every normaliser is blind to case and surrounding space. */
  lemma CanonIdempotent(s: string)
    ensures Canon(Canon(s)) == Canon(s)
  {
    var c := Canon(s);
    assert Trim(c) == c;
    LowerIdempotent(Trim(s));
  }

  predicate StartsWith(s: string, prefix: string) {
    |prefix| <= |s| && s[..|prefix|] == prefix
  }

  predicate EndsWith(s: string, suffix: string) {
    |suffix| <= |s| && s[|s| - |suffix|..] == suffix
  }

  /** `String.prototype.includes`. */
  predicate Contains(s: string, fragment: string)
    decreases |s|
  {
    StartsWith(s, fragment) || (|s| > 0 && Contains(s[1..], fragment))
  }

  /** A string lacking some character of a fragment does not contain the fragment. */
  lemma NotContains(s: string, fragment: string, i: nat)
    requires i < |fragment| && fragment[i] !in s
    ensures !Contains(s, fragment)
  {
    if Contains(s, fragment) {
      ContainsChars(s, fragment);
    }
  }

  /** Every character of a contained fragment occurs in the string. */
  lemma {:induction false} ContainsChars(s: string, fragment: string)
    requires Contains(s, fragment)
    ensures forall i :: 0 <= i < |fragment| ==> fragment[i] in s
    decreases |s|
  {
    if StartsWith(s, fragment) {
      forall i | 0 <= i < |fragment|
        ensures fragment[i] in s
      {
        assert s[i] == fragment[i];
      }
    } else {
      ContainsChars(s[1..], fragment);
      forall i | 0 <= i < |fragment|
        ensures fragment[i] in s
      {
        var k :| 0 <= k < |s[1..]| && s[1..][k] == fragment[i];
        assert s[k + 1] == fragment[i];
      }
    }
  }

  /** `Array.prototype.join(sep)` over strings. */
  function Join(parts: seq<string>, sep: string): (r: string)
    ensures |parts| == 1 ==> r == parts[0]
    ensures |parts| > 0 ==> StartsWith(r, parts[0])
    ensures |parts| > 0 ==> EndsWith(r, parts[|parts| - 1])
  {
    if |parts| == 0 then ""
    else if |parts| == 1 then parts[0]
    else parts[0] + sep + Join(parts[1..], sep)
  }

  /** Position of the first occurrence of `c` in `s`. */
  function IndexOf(s: string, c: char): (i: nat)
    requires c in s
    ensures i < |s| && s[i] == c && c !in s[..i]
  {
    if s[0] == c then 0 else 1 + IndexOf(s[1..], c)
  }

  /** `String.prototype.split` on a one-character separator. */
  function Split(s: string, sep: char): (parts: seq<string>)
    ensures |parts| >= 1
    ensures forall k :: 0 <= k < |parts| ==> sep !in parts[k]
    decreases |s|
  {
    if sep !in s then [s]
    else
      var i := IndexOf(s, sep);
      [s[..i]] + Split(s[i + 1..], sep)
  }

  /** The first separator in `a + [c] + b` is the one after `a` when `a` has none. */
  lemma {:induction false} IndexOfAfterPrefix(a: string, c: char, b: string)
    requires c !in a
    ensures c in a + [c] + b
    ensures IndexOf(a + [c] + b, c) == |a|
  {
    var s := a + [c] + b;
    assert s[|a|] == c;
    if a != [] {
      assert s[1..] == a[1..] + [c] + b;
      IndexOfAfterPrefix(a[1..], c, b);
    }
  }

  lemma JoinCons(head: string, tail: seq<string>, sep: string)
    requires |tail| >= 1
    ensures Join([head] + tail, sep) == head + sep + Join(tail, sep)
  {
    assert ([head] + tail)[1..] == tail;
  }

  /** Splitting a joined list recovers it when no piece contains the separator. */
  lemma {:induction false} SplitJoin(parts: seq<string>, sep: char)
    requires |parts| >= 1
    requires forall k :: 0 <= k < |parts| ==> sep !in parts[k]
    ensures Split(Join(parts, [sep]), sep) == parts
    decreases |parts|
  {
    if |parts| > 1 {
      var rest := Join(parts[1..], [sep]);
      JoinCons(parts[0], parts[1..], [sep]);
      assert parts == [parts[0]] + parts[1..];
      var s := parts[0] + [sep] + rest;
      assert Join(parts, [sep]) == s;
      IndexOfAfterPrefix(parts[0], sep, rest);
      assert s[..|parts[0]|] == parts[0];
      assert s[|parts[0]| + 1..] == rest;
      SplitJoin(parts[1..], sep);
    }
  }

  lemma Decompose(s: string, i: nat)
    requires i < |s|
    ensures s == s[..i] + [s[i]] + s[i + 1..]
  {
  }

  /** Joining the pieces of a split restores the string. */
  lemma {:induction false} JoinSplit(s: string, sep: char)
    ensures Join(Split(s, sep), [sep]) == s
    decreases |s|
  {
    if sep !in s {
      assert Split(s, sep) == [s];
    } else {
      var i := IndexOf(s, sep);
      var head := s[..i];
      var after := s[i + 1..];
      var tail := Split(after, sep);
      assert Split(s, sep) == [head] + tail;
      JoinSplit(after, sep);
      JoinCons(head, tail, [sep]);
      assert Join(Split(s, sep), [sep]) == head + [sep] + Join(tail, [sep]);
      assert Join(tail, [sep]) == after;
      Decompose(s, i);
    }
  }

  predicate IsDigit(c: char) {
    '0' <= c <= '9'
  }

  predicate AllDigits(s: string) {
    forall i :: 0 <= i < |s| ==> IsDigit(s[i])
  }

  function DigitChar(d: nat): (c: char)
    requires d < 10
    ensures IsDigit(c)
  {
    ('0' as int + d) as char
  }

  function DigitValue(c: char): nat
    requires IsDigit(c)
  {
    c as int - '0' as int
  }

  /** Decimal text of a natural number, as `String(n)` renders it. */
  function NatText(n: nat): (s: string)
    ensures |s| >= 1 && AllDigits(s)
    ensures |s| > 1 ==> s[0] != '0'
  {
    if n < 10 then [DigitChar(n)] else NatText(n / 10) + [DigitChar(n % 10)]
  }

  /** Reads back a string of decimal digits. */
  function ParseNat(s: string): nat
    requires AllDigits(s)
  {
    if |s| == 0 then 0 else ParseNat(s[..|s| - 1]) * 10 + DigitValue(s[|s| - 1])
  }

  lemma {:induction false} ParseNatText(n: nat)
    ensures ParseNat(NatText(n)) == n
  {
    if n >= 10 {
      var s := NatText(n);
      assert s[..|s| - 1] == NatText(n / 10);
      ParseNatText(n / 10);
    }
  }

  /** Decimal text of an integer: a leading '-' for negative values. */
  function IntText(i: int): (s: string)
    ensures i >= 0 ==> s == NatText(i)
    ensures i < 0 ==> s == "-" + NatText(-i)
  {
    if i < 0 then "-" + NatText(-i) else NatText(i)
  }
}
