/**
  The character classes and the case folding of the filters, in plain terms.
 */
module CharClasses {
  import opened CStrings

  predicate Letter(c: char) { 'a' <= c <= 'z' || 'A' <= c <= 'Z' }

  predicate Digit(c: char) { c in "0123456789" }

  predicate AllDigits(s: string) { forall i | 0 <= i < |s| :: Digit(s[i]) }

  predicate WordChar(c: char) { Letter(c) || Digit(c) || c == '_' || c == '-' }

  predicate FileText(s: string) { forall i | 0 <= i < |s| :: WordChar(s[i]) || s[i] == '/' || s[i] == '.' }

  /** Case is folded for the 26 letters and nothing else. */
  lemma LowerMeans(c: char)
    ensures var up, low := "ABCDEFGHIJKLMNOPQRSTUVWXYZ", "abcdefghijklmnopqrstuvwxyz";
            if c in up then exists i | 0 <= i < 26 :: up[i] == c && Lower(c) == low[i] else Lower(c) == c
  {
    var up, low := "ABCDEFGHIJKLMNOPQRSTUVWXYZ", "abcdefghijklmnopqrstuvwxyz";
    if 'A' <= c <= 'Z' {
      var i := c as int - 'A' as int;
      assert up[i] == c && low[i] == Lower(c);
    }
  }

  lemma TokenCharsMean(s: string)
    ensures IsTokenChars(s) <==> forall i | 0 <= i < |s| :: WordChar(s[i])
  {
  }

  predicate ThreeAt(v: string, i: int, x: char, y: char, z: char) {
    0 <= i < |v| - 2 && v[i] == x && v[i + 1] == y && v[i + 2] == z
  }

  lemma OccursMeans(v: string, sub: string, i: nat)
    requires |sub| == 3
    ensures OccursAt(v, sub, i) <==> ThreeAt(v, i, sub[0], sub[1], sub[2])
  {
    if i + 3 <= |v| {
      assert v[i..i + 3] == [v[i], v[i + 1], v[i + 2]] && sub == [sub[0], sub[1], sub[2]];
      assert [v[i], v[i + 1], v[i + 2]][0] == v[i] && [v[i], v[i + 1], v[i + 2]][2] == v[i + 2];
    }
  }

  lemma ContainsMeans(v: string, sub: string)
    requires |sub| == 3
    ensures Contains(v, sub) <==> exists i :: ThreeAt(v, i, sub[0], sub[1], sub[2])
  {
    hide OccursAt;
    if i :| 0 <= i <= |v| && OccursAt(v, sub, i) {
      OccursMeans(v, sub, i);
    }
    if i :| ThreeAt(v, i, sub[0], sub[1], sub[2]) {
      OccursMeans(v, sub, i);
    }
  }

  /** Either kind of slash after two dots. */
  lemma ClimbMeans(v: string)
    ensures Climbs(v) <==> exists i :: ThreeAt(v, i, '.', '.', '/') || ThreeAt(v, i, '.', '.', '\\')
  {
    hide Contains, ThreeAt;
    var a, b := "../", "..\\";
    ContainsMeans(v, a);
    ContainsMeans(v, b);
    assert a[0] == a[1] == b[0] == b[1] == '.' && a[2] == '/' && b[2] == '\\';
    assert Contains(v, a) <==> exists i :: ThreeAt(v, i, '.', '.', '/');
    assert Contains(v, b) <==> exists i :: ThreeAt(v, i, '.', '.', '\\');
  }

  lemma FileCharsMean(s: string)
    ensures (forall i | 0 <= i < |s| :: PathChar(s[i])) <==> FileText(s)
  {
  }

  /** Among file characters only the forward slash can follow. */
  lemma FileCharsAreInert(s: string)
    requires forall i | 0 <= i < |s| :: PathChar(s[i])
    ensures !HasCRLF(s) && forall i :: !ThreeAt(s, i, '.', '.', '\\')
  {
  }

  lemma PathCharsMean(s: string)
    ensures IsPathChars(s) <==> FileText(s) && forall i :: !ThreeAt(s, i, '.', '.', '/')
  {
    hide Climbs, ThreeAt, PathChar, FileText;
    FileCharsMean(s);
    ClimbMeans(s);
    if forall i | 0 <= i < |s| :: PathChar(s[i]) { FileCharsAreInert(s); }
  }

  lemma MapCharsMean(s: string)
    ensures IsMapChars(s) <==> FileText(s) && s != ".." && forall i :: !ThreeAt(s, i, '.', '.', '/')
  {
    hide Climbs, ThreeAt, PathChar, FileText;
    PathCharsMean(s);
  }

  lemma NumberCharsMean(s: string)
    ensures IsNumberChars(s) <==> forall i | 0 <= i < |s| :: Digit(s[i]) || s[i] in "-+. \t"
  {
  }
}
