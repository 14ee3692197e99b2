/**
  The rules of the sanitiser in plain terms, character by character, and what is
  done with a userinfo that breaks them.
 */
module UserinfoRules {
  import opened CStrings
  import opened CharClasses
  import opened InfoString
  import opened InfoTheory
  import opened NameCleaner
  import opened NameTheory
  import opened Userinfo
  import opened UserinfoTheory

  /** A model name: short, printable and none of four names, in any case. */
  lemma ModelRule(v: string)
    requires NulFree(v)
    ensures ModelOk(v) <==>
            && |v| <= 63 && (forall i | 0 <= i < |v| :: ' ' <= v[i] <= '~')
            && !SameFold(v, "jedi_/red") && !SameFold(v, "jedi_/blue")
            && !SameFold(v, "rancor") && !SameFold(v, "wampa")
  {
    var a, b, c, d := "jedi_/red", "jedi_/blue", "rancor", "wampa";
    EqMeaning(v, a, 9);
    EqMeaning(v, b, 10);
    EqMeaning(v, c, 6);
    EqMeaning(v, d, 5);
    assert a[..9] == a && b[..10] == b && c[..6] == c && d[..5] == d;
  }

  /** A siege class: short, of letters, digits, underscores and hyphens. */
  lemma ClassRule(v: string)
    ensures ClassOk(v) <==> |v| <= 63 && forall i | 0 <= i < |v| :: WordChar(v[i])
  {
    TokenCharsMean(v);
  }

  /** A saber: short, of these and slashes and dots, without a step up. */
  lemma SaberRule(v: string)
    ensures SaberOk(v) <==>
            && |v| <= 63 && (forall i | 0 <= i < |v| :: WordChar(v[i]) || v[i] == '/' || v[i] == '.')
            && forall i :: !ThreeAt(v, i, '.', '.', '/')
  {
    hide HasCRLF, IsPathChars;
    PathCharsMean(v);
    if IsPathChars(v) { FileCharsAreInert(v); }
  }

  // ------------------------------------------------------------------
  // Force powers
  // ------------------------------------------------------------------

  lemma {:induction false} DashesConcat(a: string, b: string)
    ensures Dashes(a + b) == Dashes(a) + Dashes(b)
    decreases |b|
  {
    if b == "" {
      assert a + b == a;
    } else {
      assert (a + b)[..|a + b| - 1] == a + b[..|b| - 1];
      DashesConcat(a, b[..|b| - 1]);
    }
  }

  lemma {:induction false} NoDashes(s: string)
    requires '-' !in s
    ensures Dashes(s) == 0
  {
    if s != "" {
      assert s[|s| - 1] in s;
      NoDashes(s[..|s| - 1]);
    }
  }

  /** Three fields of digits with dashes between. */
  function Joined(a: string, b: string, c: string): string {
    a + "-" + b + "-" + c
  }

  lemma JoinedDashes(a: string, b: string, c: string)
    requires '-' !in a && '-' !in b && '-' !in c
    ensures Dashes(Joined(a, b, c)) == 2
  {
    DashesConcat(a + "-" + b + "-", c);
    DashesConcat(a + "-" + b, "-");
    DashesConcat(a + "-", b);
    DashesConcat(a, "-");
    NoDashes(a);
    NoDashes(b);
    NoDashes(c);
    assert Dashes("-") == 1 by { assert "-"[..0] == ""; }
  }

  lemma FirstDash(v: string) returns (a: string, rest: string)
    requires Dashes(v) > 0
    ensures v == a + ("-" + rest) && '-' !in a && Dashes(rest) == Dashes(v) - 1
  {
    hide Dashes;
    var i := Find(v, '-', 0);
    a := v[..i];
    NoDashes(a);
    assert v == a + v[i..];
    DashesConcat(a, v[i..]);
    if i == |v| { NoDashes(v[i..]); }
    rest := v[i + 1..];
    assert v[i..] == "-" + rest;
    DashesConcat("-", rest);
    OneDash();
  }

  /** Any string with two dashes is of that form. */
  lemma TwoDashesJoin(v: string) returns (a: string, b: string, c: string)
    requires Dashes(v) == 2
    ensures v == Joined(a, b, c) && '-' !in a && '-' !in b && '-' !in c
  {
    hide Dashes;
    var rest;
    a, rest := FirstDash(v);
    b, c := FirstDash(rest);
    DashInside(c);
    assert a + ("-" + (b + ("-" + c))) == Joined(a, b, c);
  }

  lemma OneDash()
    ensures Dashes("-") == 1
  {
    assert "-"[..0] == "";
  }

  lemma {:induction false} DashInside(s: string)
    ensures '-' in s ==> Dashes(s) > 0
  {
    if s != "" && s[|s| - 1] != '-' {
      DashInside(s[..|s| - 1]);
    }
  }

  /** What `Joined` looks like, character by character. */
  lemma JoinedAt(a: string, b: string, c: string, i: nat)
    requires i < |Joined(a, b, c)|
    ensures Joined(a, b, c)[i] ==
            if i < |a| then a[i] else if i == |a| then '-'
            else if i <= |a| + |b| then b[i - |a| - 1] else if i == |a| + |b| + 1 then '-' else c[i - |a| - |b| - 2]
  {
  }

  lemma JoinedLength(a: string, b: string, c: string)
    ensures |Joined(a, b, c)| == |a| + |b| + |c| + 2
  {
  }

  /** Force powers: rank, side and the powers, all digits, 22 to 24 characters with
      the dashes, the second of which is at most the sixth character. */
  lemma ForceRule(v: string)
    ensures ForceOk(v) <==>
            exists a, b, c :: v == Joined(a, b, c) && FieldsOk(a, b, c)
  {
    if ForceOk(v) {
      var a, b, c := TwoDashesJoin(v);
      FieldsFromForce(a, b, c);
    }
    if a, b, c :| v == Joined(a, b, c) && FieldsOk(a, b, c) {
      ForceFromFields(a, b, c);
    }
  }

  predicate FieldsOk(a: string, b: string, c: string) {
    && AllDigits(a) && AllDigits(b) && AllDigits(c) && |a| >= 1 && |b| >= 1 && |a| + |b| <= 4
    && 20 <= |a| + |b| + |c| <= 22
  }

  lemma FieldsFromForce(a: string, b: string, c: string)
    requires ForceOk(Joined(a, b, c)) && '-' !in a && '-' !in b && '-' !in c
    ensures FieldsOk(a, b, c)
  {
    hide Dashes, Joined;
    var v := Joined(a, b, c);
    JoinedLength(a, b, c);
    forall i: nat | i < |v| ensures ForceCharOk(v, i) { }
    forall i: nat | i < |a| ensures Digit(a[i]) { JoinedAt(a, b, c, i); assert ForceCharOk(v, i) && a[i] in a; }
    forall i: nat | i < |b| ensures Digit(b[i]) {
      JoinedAt(a, b, c, |a| + 1 + i);
      assert ForceCharOk(v, |a| + 1 + i) && b[i] in b;
    }
    forall i: nat | i < |c| ensures Digit(c[i]) {
      JoinedAt(a, b, c, |a| + |b| + 2 + i);
      assert ForceCharOk(v, |a| + |b| + 2 + i) && c[i] in c;
    }
    JoinedAt(a, b, c, |a|);
    JoinedAt(a, b, c, |a| + |b| + 1);
    assert ForceCharOk(v, |a|) && ForceCharOk(v, |a| + |b| + 1);
  }

  lemma ForceFromFields(a: string, b: string, c: string)
    requires FieldsOk(a, b, c)
    ensures ForceOk(Joined(a, b, c))
  {
    hide Dashes, Joined;
    var v := Joined(a, b, c);
    JoinedDashes(a, b, c);
    JoinedLength(a, b, c);
    forall i: nat | i < |v| ensures ForceCharOk(v, i) {
      JoinedAt(a, b, c, i);
      if i > 0 { JoinedAt(a, b, c, i - 1); }
    }
  }

  // ------------------------------------------------------------------
  // What is done about it
  // ------------------------------------------------------------------

  /** The client is kicked exactly for the signature, and otherwise the return code
      says whether a rule was broken. */
  lemma ReturnCodeMeans(text: string)
    ensures var g := Get(Pairs(text), "model"); var rc := Sanitize(text, 2048).rc;
            && (rc == -1 <==> g.Value? && Banned(Take(g.text, 511)))
            && (rc != -1 ==> rc == if forall f: Field :: FieldObeys(text, f) then 0 else 1)
  {
    hide TurnsFrom, Pairs, Get, Banned, FieldObeys;
    CleanIsUntouched(text);
    PassIdleIff(text, 0);
  }

  /** What each key reads after a pass that does not kick: what it read, if that obeys
      the rule; else the fixed replacement, nothing, or the cleaned name. */
  lemma WhatIsWritten(text: string, f: Field)
    requires |text| <= 1023 && Sanitize(text, 2048).rc != -1
    ensures var after := Pairs(Sanitize(text, 2048).text); var g := Get(Pairs(text), KeyOf(f));
            if g == Absent || Obeys(f, g.text) then Get(after, KeyOf(f)) == g
            else match f
              case Model => Get(after, "model") == Value("kyle")
              case Force => Get(after, "forcepowers") == Value("7-1-030000000000003332")
              case Name => Get(after, "name") == Value(Clean(Take(g.text, 511)))
              case Class => Get(after, "siegeclass") == Absent
              case Saber1 => Get(after, "saber1") == Absent
              case Saber2 => Get(after, "saber2") == Absent
  {
    hide TurnsFrom, Pairs, Get, Banned, Obeys, Clean;
    GrowthTotal();
    PassOn(text, 0, f);
    var g := Get(Pairs(text), KeyOf(f));
    if g.Value? {
      ObeysIff(f, g.text);
      if f == Name { CleanShape(Seen(g.text)); }
    }
  }

  /** A userinfo event: dropped when empty or longer than 1023 characters, the client
      kicked for the signature, otherwise forwarded; written back only if changed. */
  lemma ReactionMeans(text: string)
    ensures var r := React(text, 2048); var s := Sanitize(text, 2048);
            && (r == Drop <==> |text| == 0 || |text| > 1023)
            && (r == Kick <==> 1 <= |text| <= 1023 && s.rc == -1)
            && (r.Forward? <==> 1 <= |text| <= 1023 && s.rc >= 0)
            && (r.Forward? ==> r.text == s.text && (r.written <==> s.rc == 1))
  {
    hide TurnsFrom, Kicked;
  }
}
