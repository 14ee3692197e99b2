/**
  `SanitizeUserinfo`: six keys of a client's userinfo are checked in turn and
  rewritten in place when they break their rule.
 */
module Userinfo {
  import opened CStrings
  import opened InfoString
  import opened InfoTheory
  import opened NameCleaner

  const UI_SIZE: nat := 2048
  const VAL_SIZE: nat := 512
  const MAX_INFO: nat := 1023

  datatype Field = Model | Force | Name | Class | Saber1 | Saber2

  function KeyOf(f: Field): string {
    match f
    case Model => "model"
    case Force => "forcepowers"
    case Name => "name"
    case Class => "siegeclass"
    case Saber1 => "saber1"
    case Saber2 => "saber2"
  }

  /** What to do with a value: nothing, or write another (empty: drop the key). */
  datatype Edit = Keep | Put(value: string)

  const DEFAULT_FORCE := "7-1-030000000000003332"

  /** The cheat signature. */
  predicate Banned(val: string) { StrCaseEq(val, "darksidetools", 12) }

  predicate ModelOk(val: string) {
    && !StrCaseEq(val, "jedi_/red", 9) && !StrCaseEq(val, "jedi_/blue", 10)
    && !StrCaseEq(val, "rancor", 6) && !StrCaseEq(val, "wampa", 5)
    && IsAsciiClean(val) && |val| < 64
  }

  function Dashes(s: string): nat {
    if s == "" then 0 else Dashes(s[..|s| - 1]) + (if s[|s| - 1] == '-' then 1 else 0)
  }

  /** The character at `i` is a digit, or a separator where one may stand. */
  predicate ForceCharOk(s: string, i: nat)
    requires i < |s|
  {
    '0' <= s[i] <= '9' || (s[i] == '-' && 1 <= i <= 5 && s[i - 1] != '-')
  }

  predicate ForceOk(val: string) {
    22 <= |val| <= 24 && (forall i | 0 <= i < |val| :: ForceCharOk(val, i)) && Dashes(val) == 2
  }

  predicate ClassOk(val: string) {
    (val == "" || IsTokenChars(val)) && |val| < 64 && !HasCRLF(val)
  }

  predicate SaberOk(val: string) {
    IsPathChars(val) && |val| < 64 && !HasCRLF(val)
  }

  function Judge(f: Field, val: string): Edit {
    match f
    case Model => if ModelOk(val) then Keep else Put("kyle")
    case Force => if ForceOk(val) then Keep else Put(DEFAULT_FORCE)
    case Name => if Clean(val) == val then Keep else Put(Clean(val))
    case Class => if ClassOk(val) then Keep else Put("")
    case Saber1 => if SaberOk(val) then Keep else Put("")
    case Saber2 => if SaberOk(val) then Keep else Put("")
  }

  /** What the 512-byte buffer holds of a value. */
  function Seen(v: string): string { Take(v, VAL_SIZE - 1) }

  datatype Pass = Pass(text: string, changed: bool)

  /** One key's turn. */
  function Turn(text: string, infolen: nat, f: Field): Pass
    requires infolen > 0
  {
    match Get(Pairs(text), KeyOf(f))
    case Absent => Pass(text, false)
    case Value(v) =>
      match Judge(f, Seen(v))
      case Keep => Pass(text, false)
      case Put(w) => Pass(SetText(text, infolen, KeyOf(f), w), true)
  }

  const FIELDS: seq<Field> := [Model, Force, Name, Class, Saber1, Saber2]

  /** The turns from the i-th key on. */
  function TurnsFrom(text: string, infolen: nat, i: nat): Pass
    requires infolen > 0 && i <= 6
    decreases 6 - i
  {
    if i == 6 then Pass(text, false)
    else
      var p := Turn(text, infolen, FIELDS[i]);
      var q := TurnsFrom(p.text, infolen, i + 1);
      Pass(q.text, p.changed || q.changed)
  }

  predicate Kicked(text: string) {
    match Get(Pairs(text), "model")
    case Absent => false
    case Value(v) => Banned(Seen(v))
  }

  datatype Sanitized = Sanitized(rc: int, text: string)

  function Sanitize(text: string, infolen: nat): Sanitized
    requires infolen > 0
  {
    if Kicked(text) then Sanitized(-1, text)
    else
      var p := TurnsFrom(text, infolen, 0);
      Sanitized(if p.changed then 1 else 0, p.text)
  }

  // ------------------------------------------------------------------
  // The code
  // ------------------------------------------------------------------

  lemma DashesStep(s: string, i: nat)
    requires i < |s|
    ensures Dashes(s[..i + 1]) == Dashes(s[..i]) + (if s[i] == '-' then 1 else 0)
  {
    assert s[..i + 1][..i] == s[..i];
  }

  method ForceBad(val: string) returns (bad: bool)
    ensures bad == !ForceOk(val)
  {
    var n, i, seps := |val|, 0, 0;
    bad := false;
    if n < 22 || n > 24 {
      return true;
    }
    while i < n && !bad
      invariant 0 <= i <= n
      invariant !bad ==> seps == Dashes(val[..i])
      invariant !bad ==> forall j | 0 <= j < i :: ForceCharOk(val, j)
      invariant bad ==> !ForceOk(val)
      decreases n - i, !bad
    {
      var c := val[i];
      DashesStep(val, i);
      if c != '-' && (c < '0' || c > '9') {
        bad := true;
        assert !ForceCharOk(val, i);
      } else if c == '-' {
        if i < 1 || i > 5 {
          bad := true;
          assert !ForceCharOk(val, i);
        } else if val[i - 1] == '-' {
          bad := true;
          assert !ForceCharOk(val, i);
        } else {
          seps := seps + 1;
        }
      }
      i := i + 1;
    }
    assert val[..n] == val;
    if seps != 2 {
      bad := true;
    }
  }

  /** The checks on one value. */
  method Examine(f: Field, val: string) returns (e: Edit)
    ensures e == Judge(f, val)
  {
    match f
    case Model =>
      var bad := false;
      if StrCaseEq(val, "jedi_/red", 9) || StrCaseEq(val, "jedi_/blue", 10) ||
         StrCaseEq(val, "rancor", 6) || StrCaseEq(val, "wampa", 5) ||
         !IsAsciiClean(val) || |val| >= 64 {
        bad := true;
      }
      e := if bad then Put("kyle") else Keep;
    case Force =>
      var bad := ForceBad(val);
      e := if bad then Put(DEFAULT_FORCE) else Keep;
    case Name =>
      var buf := new char[VAL_SIZE];
      CleanName(val, buf);
      var fixed := CStr(buf[..]);
      e := if fixed != val then Put(fixed) else Keep;
    case Class =>
      e := if (val != "" && !IsTokenChars(val)) || |val| >= 64 || HasCRLF(val) then Put("") else Keep;
    case Saber1 =>
      e := if !IsPathChars(val) || |val| >= 64 || HasCRLF(val) then Put("") else Keep;
    case Saber2 =>
      e := if !IsPathChars(val) || |val| >= 64 || HasCRLF(val) then Put("") else Keep;
  }

  lemma KeysArePlain(f: Field)
    ensures NulFree(KeyOf(f)) && Plain(KeyOf(f)) && KeyOf(f) != ""
  {
  }

  predicate Writable(s: string) { NulFree(s) && Plain(s) }

  lemma DefaultsAreWritable()
    ensures Writable("kyle") && Writable(DEFAULT_FORCE) && Writable("")
  {
  }

  lemma CleanIsWritable(val: string)
    requires Plain(val)
    ensures Writable(Clean(val))
  {
    hide Clean;
    CleanShape(val);
    assert Plain(FALLBACK);
  }

  lemma EditsAreWritable(f: Field, val: string)
    requires Plain(val)
    ensures Judge(f, val).Put? ==> Writable(Judge(f, val).value)
  {
    hide Clean, ModelOk, ForceOk, ClassOk, SaberOk, Writable;
    DefaultsAreWritable();
    CleanIsWritable(val);
  }

  /** A value is part of the text it was found in. */
  lemma {:induction false} GetIsPlain(ps: seq<Pair>, key: string)
    requires PlainPairs(ps) && Get(ps, key).Value?
    ensures Plain(Get(ps, key).text)
  {
    if !SameFold(ps[0].key, key) {
      GetIsPlain(ps[1..], key);
    }
  }

  lemma {:induction false} SeenIsPlain(text: string, key: string)
    requires Get(Pairs(text), key).Value?
    ensures Plain(Seen(Get(Pairs(text), key).text))
  {
    PairsArePlain(text, 0);
    GetIsPlain(Pairs(text), key);
  }

  method SanitizeField(ui: array<char>, f: Field) returns (changed: bool)
    requires ui.Length > 0 && |CStr(ui[..])| < ui.Length
    modifies ui
    ensures Pass(CStr(ui[..]), changed) == Turn(old(CStr(ui[..])), ui.Length, f)
    ensures |CStr(ui[..])| < ui.Length
  {
    hide CStr, Judge, SetText, Pairs, Get;
    var text := CStr(ui[..]);
    var val := new char[VAL_SIZE];
    var found := InfoValue(text, KeyOf(f), val);
    changed := false;
    if found {
      SeenIsPlain(text, KeyOf(f));
      var v := CStr(val[..]);
      var e := Examine(f, v);
      if e.Put? {
        KeysArePlain(f);
        EditsAreWritable(f, v);
        InfoSet(ui, KeyOf(f), e.value);
        SetTextFits(text, ui.Length, KeyOf(f), e.value);
        changed := true;
      }
    }
  }

  lemma SetTextFits(text: string, infolen: nat, key: string, value: string)
    requires infolen > 0
    ensures |SetText(text, infolen, key, value)| < infolen
  {
  }

  lemma {:induction false} SixTurns(text: string, n: nat, p1: Pass, p2: Pass, p3: Pass, p4: Pass, p5: Pass, p6: Pass)
    requires n > 0 && p1 == Turn(text, n, Model) && p2 == Turn(p1.text, n, Force) && p3 == Turn(p2.text, n, Name)
    requires p4 == Turn(p3.text, n, Class) && p5 == Turn(p4.text, n, Saber1) && p6 == Turn(p5.text, n, Saber2)
    ensures TurnsFrom(text, n, 0)
            == Pass(p6.text, p1.changed || p2.changed || p3.changed || p4.changed || p5.changed || p6.changed)
  {
    hide Turn;
    assert TurnsFrom(p6.text, n, 6) == Pass(p6.text, false);
    assert TurnsFrom(p5.text, n, 5) == Pass(p6.text, p6.changed);
    assert TurnsFrom(p4.text, n, 4) == Pass(p6.text, p5.changed || p6.changed);
    assert TurnsFrom(p3.text, n, 3) == Pass(p6.text, p4.changed || p5.changed || p6.changed);
    assert TurnsFrom(p2.text, n, 2) == Pass(p6.text, p3.changed || p4.changed || p5.changed || p6.changed);
  }

  method SanitizeUserinfo(ui: array<char>, kickReason: array<char>) returns (rc: int)
    requires ui.Length > 0 && |CStr(ui[..])| < ui.Length
    requires kickReason.Length > 0 && kickReason != ui
    modifies ui, kickReason
    ensures Sanitized(rc, CStr(ui[..])) == Sanitize(old(CStr(ui[..])), ui.Length)
    ensures rc == -1 ==> CStr(kickReason[..]) == Take("cheating detected", kickReason.Length - 1)
  {
    hide CStr, Turn, Pairs, Get;
    ghost var text := CStr(ui[..]);
    var val := new char[VAL_SIZE];
    var found := InfoValue(CStr(ui[..]), "model", val);
    if found && StrCaseEq(CStr(val[..]), "darksidetools", 12) {
      StrNCpy(kickReason, "cheating detected");
      return -1;
    }
    assert !Kicked(text);
    var changed := false;
    ghost var n := ui.Length;
    var fixed := SanitizeField(ui, Model);
    ghost var p1 := Pass(CStr(ui[..]), fixed);
    changed := changed || fixed;
    fixed := SanitizeField(ui, Force);
    ghost var p2 := Pass(CStr(ui[..]), fixed);
    changed := changed || fixed;
    fixed := SanitizeField(ui, Name);
    ghost var p3 := Pass(CStr(ui[..]), fixed);
    changed := changed || fixed;
    fixed := SanitizeField(ui, Class);
    ghost var p4 := Pass(CStr(ui[..]), fixed);
    changed := changed || fixed;
    fixed := SanitizeField(ui, Saber1);
    ghost var p5 := Pass(CStr(ui[..]), fixed);
    changed := changed || fixed;
    fixed := SanitizeField(ui, Saber2);
    ghost var p6 := Pass(CStr(ui[..]), fixed);
    changed := changed || fixed;
    SixTurns(text, n, p1, p2, p3, p4, p5, p6);
    rc := if changed then 1 else 0;
  }

  // ------------------------------------------------------------------
  // The userinfo-changed event
  // ------------------------------------------------------------------

  /** What the proxy does with a client's new userinfo. */
  datatype Reaction = Drop | Kick | Forward(text: string, written: bool)

  predicate LooksEvil(s: string) { |s| == 0 || |s| >= 1024 }

  function React(text: string, infolen: nat): Reaction
    requires infolen > 0
  {
    if LooksEvil(text) then Drop
    else
      var s := Sanitize(text, infolen);
      if s.rc < 0 then Kick else Forward(s.text, s.rc > 0)
  }

  /** `ui` is what the engine filled in. */
  method UserinfoChanged(ui: array<char>) returns (r: Reaction)
    requires ui.Length > 0 && |CStr(ui[..])| < ui.Length
    modifies ui
    ensures r == React(old(CStr(ui[..])), ui.Length)
  {
    hide CStr, Kicked, TurnsFrom;
    if LooksEvil(CStr(ui[..])) {
      return Drop;
    }
    var kick := new char[128];
    var rc := SanitizeUserinfo(ui, kick);
    if rc < 0 {
      return Kick;
    }
    r := Forward(CStr(ui[..]), rc > 0);
  }
}
