/**
  C strings: their contents are `string` values, the buffers that hold them are
  arrays ended by a NUL.  A `char` stands for one byte.
 */
module CStrings {
  const NUL: char := '\0'

  predicate NulFree(s: string) { forall i | 0 <= i < |s| :: s[i] != NUL }

  /** The contents of a buffer: everything before the first NUL. */
  function CStr(b: seq<char>): (s: string)
    ensures NulFree(s) && |s| <= |b| && s == b[..|s|]
    ensures |s| < |b| ==> b[|s|] == NUL
  {
    if b == [] || b[0] == NUL then "" else [b[0]] + CStr(b[1..])
  }

  lemma {:induction false} CStrIs(b: seq<char>, s: string)
    requires NulFree(s) && |s| < |b| && b[..|s|] == s && b[|s|] == NUL
    ensures CStr(b) == s
  {
    if s != "" {
      assert b[0] == s[0] && b[1..][..|s| - 1] == s[1..];
      CStrIs(b[1..], s[1..]);
    } else {
      assert b[0] == NUL;
    }
  }

  /** `s[i]`, where the terminator is the last character one may read. */
  function At(s: string, i: nat): char {
    if i < |s| then s[i] else NUL
  }

  function Take(s: string, n: nat): (r: string)
    ensures |r| <= n && r <= s && (|s| <= n ==> r == s)
  {
    if |s| <= n then s else s[..n]
  }

  function Lower(c: char): char {
    if 'A' <= c <= 'Z' then (c as int + 32) as char else c
  }

  function LowerAll(s: string): (r: string)
    ensures |r| == |s|
  {
    seq(|s|, i requires 0 <= i < |s| => Lower(s[i]))
  }

  /** Equal up to the case of ASCII letters. */
  predicate SameFold(a: string, b: string) { LowerAll(a) == LowerAll(b) }

  // ------------------------------------------------------------------
  // The scanning predicates
  // ------------------------------------------------------------------

  predicate HasCRLF(s: string) { '\r' in s || '\n' in s }

  predicate HasChaining(s: string) { ';' in s }

  predicate Alnum(c: char) { 'a' <= c <= 'z' || 'A' <= c <= 'Z' || '0' <= c <= '9' }

  predicate IsTokenChars(s: string) {
    forall i | 0 <= i < |s| :: Alnum(s[i]) || s[i] == '_' || s[i] == '-'
  }

  predicate PathChar(c: char) { Alnum(c) || c == '_' || c == '-' || c == '/' || c == '.' }

  predicate OccursAt(s: string, sub: string, i: nat) {
    i + |sub| <= |s| && s[i..i + |sub|] == sub
  }

  /** `strstr(s, sub)` finds something. */
  predicate Contains(s: string, sub: string) {
    exists i | 0 <= i <= |s| :: OccursAt(s, sub, i)
  }

  predicate Climbs(s: string) { Contains(s, "../") || Contains(s, "..\\") }

  predicate IsMapChars(s: string) {
    (forall i | 0 <= i < |s| :: PathChar(s[i])) && s != ".." && !Climbs(s)
  }

  predicate IsPathChars(s: string) {
    (forall i | 0 <= i < |s| :: PathChar(s[i])) && !Climbs(s)
  }

  predicate IsNumberChars(s: string) {
    forall i | 0 <= i < |s| :: '0' <= s[i] <= '9' || s[i] in {'-', '+', '.', ' ', '\t'}
  }

  predicate IsAsciiClean(s: string) {
    forall i | 0 <= i < |s| :: 32 <= s[i] as int <= 126
  }

  // ------------------------------------------------------------------
  // Case-insensitive comparison with a length
  // ------------------------------------------------------------------

  /** The loop shared by `StrCasePrefix` and `StrCaseEq`, from index `i`:
      `End` stands for the early return at a common terminator. */
  datatype Scan = Differ | End | Through

  function Compare(a: string, b: string, i: nat, n: nat): Scan
    decreases n - i
  {
    if i >= n then Through
    else if Lower(At(a, i)) != Lower(At(b, i)) then Differ
    else if Lower(At(a, i)) == NUL then End
    else Compare(a, b, i + 1, n)
  }

  method CompareLoop(a: string, b: string, n: nat) returns (r: Scan)
    ensures r == Compare(a, b, 0, n)
  {
    var i := 0;
    while i < n
      invariant i <= n && Compare(a, b, i, n) == Compare(a, b, 0, n)
    {
      var ca, cb := Lower(At(a, i)), Lower(At(b, i));
      if ca != cb {
        return Differ;
      }
      if ca == NUL {
        return End;
      }
      i := i + 1;
    }
    r := Through;
  }

  /** `StrCasePrefix(s, prefix, n)`. */
  predicate StrCasePrefix(s: string, prefix: string, n: nat) {
    Compare(s, prefix, 0, n) != Differ
  }

  /** `StrCaseEq(a, b, n)`. */
  predicate StrCaseEq(a: string, b: string, n: nat) {
    match Compare(a, b, 0, n)
    case Differ => false
    case End => true
    case Through => At(a, n) == NUL
  }

  lemma {:induction false} CompareThrough(a: string, b: string, i: nat, n: nat)
    requires NulFree(a) && NulFree(b) && i <= n <= |b| && i <= |a|
    ensures Compare(a, b, i, n) == if n <= |a| && SameFold(a[i..n], b[i..n]) then Through else Differ
    decreases n - i
  {
    if i < n {
      assert Lower(At(b, i)) != NUL;
      if i < |a| {
        CompareThrough(a, b, i + 1, n);
        if n <= |a| {
          assert a[i..n] == [a[i]] + a[i + 1..n] && b[i..n] == [b[i]] + b[i + 1..n];
          FoldCons(a[i], a[i + 1..n], b[i], b[i + 1..n]);
        }
      }
    } else {
      assert a[i..n] == b[i..n] == "";
    }
  }

  lemma FoldCons(x: char, a: string, y: char, b: string)
    ensures SameFold([x] + a, [y] + b) <==> Lower(x) == Lower(y) && SameFold(a, b)
  {
    var p, q := LowerAll([x] + a), LowerAll([y] + b);
    assert p == [Lower(x)] + LowerAll(a) && q == [Lower(y)] + LowerAll(b);
    if p == q {
      assert LowerAll(a) == p[1..] && LowerAll(b) == q[1..];
    }
  }

  /** With `n` the literal's length the prefix test is a prefix test. */
  lemma PrefixMeaning(s: string, prefix: string, n: nat)
    requires NulFree(s) && NulFree(prefix) && n <= |prefix|
    ensures StrCasePrefix(s, prefix, n) <==> n <= |s| && SameFold(s[..n], prefix[..n])
  {
    CompareThrough(s, prefix, 0, n);
  }

  /** The equality test compares with the first `n` characters of the literal: it is
      equality with the literal only when `n` is the literal's length. */
  lemma EqMeaning(a: string, b: string, n: nat)
    requires NulFree(a) && NulFree(b) && n <= |b|
    ensures StrCaseEq(a, b, n) <==> SameFold(a, b[..n])
  {
    CompareThrough(a, b, 0, n);
    if n <= |a| {
      assert At(a, n) == NUL <==> |a| == n;
      if |a| == n { assert a[0..n] == a; }
    }
    assert b[0..n] == b[..n];
  }

  /** The loop of `StrCasePrefix` decides the prefix test. */
  method RunStrCasePrefix(s: string, prefix: string, n: nat) returns (r: bool)
    requires NulFree(s) && NulFree(prefix) && n <= |prefix|
    ensures r == StrCasePrefix(s, prefix, n)
    ensures r <==> n <= |s| && SameFold(s[..n], prefix[..n])
  {
    var scan := CompareLoop(s, prefix, n);
    PrefixMeaning(s, prefix, n);
    r := scan != Differ;
  }

  /** The loop of `StrCaseEq`, and the look at the terminator after it. */
  method RunStrCaseEq(a: string, b: string, n: nat) returns (r: bool)
    requires NulFree(a) && NulFree(b) && n <= |b|
    ensures r == StrCaseEq(a, b, n)
    ensures r <==> SameFold(a, b[..n])
  {
    var scan := CompareLoop(a, b, n);
    EqMeaning(a, b, n);
    r := scan == End || (scan == Through && At(a, n) == NUL);
  }
}
