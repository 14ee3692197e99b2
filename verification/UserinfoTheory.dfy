/**
  What `SanitizeUserinfo` achieves: every checked key obeys its rule afterwards,
  nothing else changes, the text hardly grows, and two passes reach a fixed point.
 */
module UserinfoTheory {
  import opened CStrings
  import opened InfoString
  import opened InfoTheory
  import opened NameCleaner
  import opened Userinfo

  /** The longest text the lemmas below need to consider. */
  const ROOM_LIMIT: nat := 1900

  /** The rule a value must obey. */
  predicate Accepts(f: Field, v: string) {
    match f
    case Model => ModelOk(v)
    case Force => ForceOk(v)
    case Name => 1 <= |v| <= 63 && NoneStripped(v)
    case Class => ClassOk(v)
    case Saber1 => SaberOk(v)
    case Saber2 => SaberOk(v)
  }

  predicate NeedsEdit(f: Field, g: Found) {
    g.Value? && Judge(f, Seen(g.text)) != Keep
  }

  /** What becomes of the key's value. */
  function NextValue(f: Field, g: Found): Found {
    match g
    case Absent => Absent
    case Value(v) =>
      match Judge(f, Seen(v))
      case Keep => g
      case Put(w) => if w == "" then Absent else Value(w)
  }

  // ------------------------------------------------------------------
  // The replacement values obey the rules
  // ------------------------------------------------------------------

  lemma NotTheLiteral(a: string, b: string, n: nat)
    requires NulFree(a) && NulFree(b) && n <= |b| && |a| != n
    ensures !StrCaseEq(a, b, n)
  {
    EqMeaning(a, b, n);
    assert |LowerAll(a)| != |LowerAll(b[..n])|;
  }

  /** None of the banned model names has this length. */
  lemma ShortModelOk(val: string)
    requires NulFree(val) && |val| < 5 && IsAsciiClean(val)
    ensures ModelOk(val) && !Banned(val)
  {
    assert NulFree("jedi_/red") && NulFree("jedi_/blue") && NulFree("rancor") && NulFree("wampa");
    assert NulFree("darksidetools");
    NotTheLiteral(val, "jedi_/red", 9);
    NotTheLiteral(val, "jedi_/blue", 10);
    NotTheLiteral(val, "rancor", 6);
    NotTheLiteral(val, "wampa", 5);
    NotTheLiteral(val, "darksidetools", 12);
  }

  lemma DefaultForceShape()
    ensures var s := DEFAULT_FORCE;
            && |s| == 22 && s[0] == '7' && s[1] == '-' && s[2] == '1' && s[3] == '-'
            && forall i | 4 <= i < 22 :: '0' <= s[i] <= '9'
  {
  }

  lemma {:induction false} DefaultForceDashes(s: string)
    requires |s| == 22 && s[0] != '-' && s[1] == '-' && s[2] != '-' && s[3] == '-'
    requires forall i | 4 <= i < 22 :: s[i] != '-'
    ensures Dashes(s) == 2
  {
    assert s[..0] == "";
    DashesStep(s, 0);
    DashesStep(s, 1);
    DashesStep(s, 2);
    DashesStep(s, 3);
    NoMoreDashes(s, 4, 22);
    assert s[..22] == s;
  }

  lemma DefaultForceOk()
    ensures ForceOk(DEFAULT_FORCE)
  {
    hide Dashes;
    DefaultForceShape();
    DefaultForceDashes(DEFAULT_FORCE);
  }

  lemma {:induction false} NoMoreDashes(s: string, i: nat, j: nat)
    requires i <= j <= |s| && forall k | i <= k < j :: s[k] != '-'
    ensures Dashes(s[..j]) == Dashes(s[..i])
    decreases j - i
  {
    if i < j {
      NoMoreDashes(s, i, j - 1);
      DashesStep(s, j - 1);
    }
  }

  /** A value that is kept obeys its rule, and the 512-byte buffer saw all of it. */
  lemma KeptIsAccepted(f: Field, v: string)
    requires Judge(f, Seen(v)) == Keep
    ensures Seen(v) == v && Accepts(f, v)
  {
    CleanShape(Seen(v));
  }

  /** So does what replaces it; only a name may need another look. */
  lemma PutIsAccepted(f: Field, v: string)
    requires Judge(f, v).Put?
    ensures var w := Judge(f, v).value;
            && (w != "" ==> Accepts(f, w) && Seen(w) == w)
            && (f != Name ==> w == "" || Judge(f, w) == Keep)
  {
    ShortModelOk("kyle");
    DefaultForceOk();
    CleanShape(v);
  }

  lemma NextIsAccepted(f: Field, g: Found)
    ensures var h := NextValue(f, g); h.Value? ==> Accepts(f, h.text)
  {
    if g.Value? {
      if Judge(f, Seen(g.text)) == Keep {
        KeptIsAccepted(f, g.text);
      } else {
        PutIsAccepted(f, Seen(g.text));
      }
    }
  }

  /** After two turns a key's value needs no edit. */
  lemma SettledAfterTwo(f: Field, g: Found)
    ensures !NeedsEdit(f, NextValue(f, NextValue(f, g)))
  {
    var h := NextValue(f, g);
    if g.Value? && Judge(f, Seen(g.text)).Put? {
      PutIsAccepted(f, Seen(g.text));
      if f == Name {
        CleanTwiceIsTidy(Seen(g.text));
        CleanShape(Clean(Seen(g.text)));
      }
    }
  }

  // ------------------------------------------------------------------
  // One turn
  // ------------------------------------------------------------------

  function Pos(f: Field): nat {
    match f
    case Model => 0 case Force => 1 case Name => 2 case Class => 3 case Saber1 => 4 case Saber2 => 5
  }

  lemma FieldAt(f: Field)
    ensures Pos(f) < 6 && FIELDS[Pos(f)] == f
  {
  }

  lemma KeysDiffer(f: Field, g: Field)
    requires f != g
    ensures !SameFold(KeyOf(f), KeyOf(g))
  {
    if |KeyOf(f)| == |KeyOf(g)| {
      assert LowerAll(KeyOf(f))[5] != LowerAll(KeyOf(g))[5];
    } else {
      assert |LowerAll(KeyOf(f))| != |LowerAll(KeyOf(g))|;
    }
  }

  /** How much longer one turn can make the text. */
  function Growth(f: Field): nat {
    match f
    case Model => 3 case Force => 22 case Name => 7 case Class => 0 case Saber1 => 0 case Saber2 => 0
  }

  lemma {:induction false} BodyIsShorter(s: string, room: nat)
    ensures |Body(s, room)| <= |s|
    decreases |s|
  {
    if s != "" && room > 0 {
      BodyIsShorter(s[1..], room);
      BodyIsShorter(s[1..], room - 1);
    }
  }

  /** A replacement is longer than what it replaces by `Growth` at most. */
  lemma EditGrowth(f: Field, v: string)
    requires Judge(f, Seen(v)).Put?
    ensures |Judge(f, Seen(v)).value| <= |v| + Growth(f) && |Judge(f, Seen(v)).value| <= 63
  {
    if f == Model && v == "" {
      ShortModelOk("");
    }
    CleanShape(Seen(v));
    BodyIsShorter(SkipLead(Seen(v)), 63);
  }

  /** The new pair always finds room: no guard of `Info_Set` ever drops a pair. */
  lemma EditHasRoom(text: string, f: Field, v: string)
    requires |text| <= ROOM_LIMIT && Get(Pairs(text), KeyOf(f)) == Value(v) && Judge(f, Seen(v)).Put?
    ensures var w := Judge(f, Seen(v)).value;
            HasRoom(text, UI_SIZE, KeyOf(f), w) && |SetText(text, UI_SIZE, KeyOf(f), w)| <= |text| + Growth(f)
  {
    hide Judge, Pairs, PairsFrom, Print, Without, Get, SetText;
    var w := Judge(f, Seen(v)).value;
    var key := KeyOf(f);
    EditGrowth(f, v);
    WithoutSaves(Pairs(text), key);
    PrintBound(text);
    SetTextIsPrint(text, UI_SIZE, key, w);
    UpdatedLength(Pairs(text), key, w);
  }

  lemma PrintBound(text: string)
    ensures |Print(Pairs(text))| <= |text|
  {
    PrintIsPrefix(text, 0);
  }

  lemma {:induction false} UpdatedLength(ps: seq<Pair>, key: string, w: string)
    ensures |Print(Updated(ps, key, w))|
            == |Print(Without(ps, key))| + (if w == "" then 0 else 2 + |key| + |w|)
  {
    PrintAppend(Without(ps, key), if w == "" then [] else [Pair(key, w)]);
    if w != "" {
      PrintStep(Pair(key, w), []);
      assert [Pair(key, w)] + [] == [Pair(key, w)];
    }
  }

  lemma {:induction false} TurnEffect(text: string, f: Field, k: string)
    requires |text| <= ROOM_LIMIT
    ensures var p := Turn(text, UI_SIZE, f); var g := Get(Pairs(text), KeyOf(f));
            && Get(Pairs(p.text), KeyOf(f)) == NextValue(f, g)
            && (!SameFold(KeyOf(f), k) ==> Get(Pairs(p.text), k) == Get(Pairs(text), k))
            && |p.text| <= |text| + Growth(f)
            && p.changed == NeedsEdit(f, g) && (!p.changed ==> p.text == text)
  {
    hide Judge, SetText, Pairs, HasRoom;
    var g := Get(Pairs(text), KeyOf(f));
    if NeedsEdit(f, g) {
      var w := Judge(f, Seen(g.text)).value;
      EditHasRoom(text, f, g.text);
      SeenIsPlain(text, KeyOf(f));
      EditsAreWritable(f, Seen(g.text));
      KeysArePlain(f);
      GetAfterSet(text, UI_SIZE, KeyOf(f), w, k);
    }
  }

  // ------------------------------------------------------------------
  // One pass
  // ------------------------------------------------------------------

  /** The most the turns from the i-th key on can add. */
  function GrowthFrom(i: nat): nat
    requires i <= 6
    decreases 6 - i
  {
    if i == 6 then 0 else Growth(FIELDS[i]) + GrowthFrom(i + 1)
  }

  lemma {:induction false} PassLength(text: string, i: nat)
    requires i <= 6 && |text| + GrowthFrom(i) <= ROOM_LIMIT
    ensures |TurnsFrom(text, UI_SIZE, i).text| <= |text| + GrowthFrom(i)
    decreases 6 - i
  {
    hide Turn, Growth;
    if i < 6 {
      TurnEffect(text, FIELDS[i], "");
      PassLength(Turn(text, UI_SIZE, FIELDS[i]).text, i + 1);
    }
  }

  /** Keys the pass does not check keep their values. */
  lemma {:induction false} PassFrame(text: string, i: nat, k: string)
    requires i <= 6 && |text| + GrowthFrom(i) <= ROOM_LIMIT
    requires forall f: Field | i <= Pos(f) :: !SameFold(KeyOf(f), k)
    ensures Get(Pairs(TurnsFrom(text, UI_SIZE, i).text), k) == Get(Pairs(text), k)
    decreases 6 - i
  {
    hide Turn, Growth, Pairs;
    if i < 6 {
      assert Pos(FIELDS[i]) == i;
      TurnEffect(text, FIELDS[i], k);
      PassFrame(Turn(text, UI_SIZE, FIELDS[i]).text, i + 1, k);
    }
  }

  /** A checked key gets exactly its own turn's effect. */
  lemma {:induction false} PassOn(text: string, i: nat, f: Field)
    requires i <= Pos(f) && |text| + GrowthFrom(i) <= ROOM_LIMIT
    ensures Get(Pairs(TurnsFrom(text, UI_SIZE, i).text), KeyOf(f)) == NextValue(f, Get(Pairs(text), KeyOf(f)))
    decreases 6 - i
  {
    hide Turn, Growth, Pairs, NextValue, KeyOf, SameFold;
    FieldAt(f);
    var t1 := Turn(text, UI_SIZE, FIELDS[i]).text;
    TurnEffect(text, FIELDS[i], KeyOf(f));
    if FIELDS[i] == f {
      forall g: Field | i + 1 <= Pos(g) ensures !SameFold(KeyOf(g), KeyOf(f)) {
        FieldAt(g);
        KeysDiffer(g, f);
      }
      PassFrame(t1, i + 1, KeyOf(f));
    } else {
      KeysDiffer(FIELDS[i], f);
      PassOn(t1, i + 1, f);
    }
  }

  // ------------------------------------------------------------------
  // Main results
  // ------------------------------------------------------------------

  lemma GrowthTotal()
    ensures GrowthFrom(0) == 32
  {
    assert GrowthFrom(6) == 0 && GrowthFrom(5) == 0 && GrowthFrom(4) == 0 && GrowthFrom(3) == 0;
    assert GrowthFrom(2) == 7 && GrowthFrom(1) == 29;
  }

  /** A sanitised userinfo obeys every rule. */
  lemma SanitizedIsAcceptable(text: string, f: Field)
    requires |text| <= MAX_INFO && Sanitize(text, UI_SIZE).rc >= 0
    ensures match Get(Pairs(Sanitize(text, UI_SIZE).text), KeyOf(f))
            case Absent => true
            case Value(v) => Accepts(f, v)
  {
    hide TurnsFrom, Pairs, Kicked, NextValue;
    GrowthTotal();
    PassOn(text, 0, f);
    NextIsAccepted(f, Get(Pairs(text), KeyOf(f)));
  }

  /** Every other key reads as before, and the text grows by at most 3 + 22 + 7. */
  lemma {:induction false} SanitizeFrame(text: string, k: string)
    requires |text| <= MAX_INFO
    requires forall f: Field :: !SameFold(KeyOf(f), k)
    ensures Get(Pairs(Sanitize(text, UI_SIZE).text), k) == Get(Pairs(text), k)
    ensures |Sanitize(text, UI_SIZE).text| <= |text| + 3 + 22 + 7
  {
    hide TurnsFrom, Pairs, Kicked;
    GrowthTotal();
    PassFrame(text, 0, k);
    PassLength(text, 0);
  }

  lemma SanitizeLength(text: string)
    requires |text| + 32 <= ROOM_LIMIT
    ensures |Sanitize(text, UI_SIZE).text| <= |text| + 32
  {
    hide TurnsFrom, Kicked;
    GrowthTotal();
    PassLength(text, 0);
  }

  /** The rules for a whole value, name included. */
  predicate Obeys(f: Field, v: string) {
    match f
    case Model => ModelOk(v) && !Banned(v)
    case Force => ForceOk(v)
    case Name => Tidy(v)
    case Class => ClassOk(v)
    case Saber1 => SaberOk(v)
    case Saber2 => SaberOk(v)
  }

  predicate FieldObeys(text: string, f: Field) {
    match Get(Pairs(text), KeyOf(f))
    case Absent => true
    case Value(v) => Obeys(f, v)
  }

  /** A value obeys its rule exactly when the checks, which see 511 characters of
      it, find nothing to change. */
  lemma ObeysIff(f: Field, v: string)
    ensures Obeys(f, v) <==> Judge(f, Seen(v)) == Keep && (f == Model ==> !Banned(Seen(v)))
  {
    hide Banned, ForceOk, IsPathChars, IsTokenChars;
    CleanFixedPoints(Seen(v));
    if f == Force && ForceOk(v) { ForceIsShort(v); }
    if f == Force && ForceOk(Seen(v)) { ForceIsShort(Seen(v)); }
  }

  lemma ForceIsShort(v: string)
    requires ForceOk(v)
    ensures |v| <= 24
  {
  }

  lemma {:induction false} PassIdleIff(text: string, i: nat)
    requires i <= 6
    ensures !TurnsFrom(text, UI_SIZE, i).changed <==>
            forall j | i <= j < 6 :: !NeedsEdit(FIELDS[j], Get(Pairs(text), KeyOf(FIELDS[j])))
    ensures !TurnsFrom(text, UI_SIZE, i).changed ==> TurnsFrom(text, UI_SIZE, i).text == text
    decreases 6 - i
  {
    hide Judge, Pairs, Get, SetText;
    if i < 6 {
      assert Turn(text, UI_SIZE, FIELDS[i]).changed <==> NeedsEdit(FIELDS[i], Get(Pairs(text), KeyOf(FIELDS[i])));
      if !Turn(text, UI_SIZE, FIELDS[i]).changed {
        PassIdleIff(text, i + 1);
      }
    }
  }

  lemma FieldObeysIff(text: string, f: Field)
    ensures FieldObeys(text, f) <==>
            !NeedsEdit(f, Get(Pairs(text), KeyOf(f))) && (f == Model ==> !Kicked(text))
  {
    hide Pairs, Get, Judge, Banned, Obeys;
    match Get(Pairs(text), KeyOf(f))
    case Absent =>
    case Value(v) => ObeysIff(f, v);
  }

  /** The first pass leaves a userinfo alone exactly when every checked key is absent
      or obeys its rule. */
  lemma CleanIsUntouched(text: string)
    ensures Sanitize(text, UI_SIZE) == Sanitized(0, text) <==> forall f: Field :: FieldObeys(text, f)
  {
    hide TurnsFrom, Pairs, Get, Judge, Banned, Obeys, FieldObeys;
    PassIdleIff(text, 0);
    forall f: Field
      ensures FieldObeys(text, f) <==>
              !NeedsEdit(f, Get(Pairs(text), KeyOf(f))) && (f == Model ==> !Kicked(text))
    {
      FieldObeysIff(text, f);
    }
    if Sanitize(text, UI_SIZE) == Sanitized(0, text) {
      forall f: Field ensures FieldObeys(text, f) { FieldAt(f); }
    }
    if forall f: Field :: FieldObeys(text, f) {
      assert FieldObeys(text, Model);
      forall j | 0 <= j < 6 ensures !NeedsEdit(FIELDS[j], Get(Pairs(text), KeyOf(FIELDS[j]))) {
        assert FieldObeys(text, FIELDS[j]);
      }
    }
  }

  /** A client that was not kicked is not kicked for what the sanitiser wrote. */
  lemma StaysUnkicked(text: string)
    requires |text| + 32 <= ROOM_LIMIT && !Kicked(text)
    ensures !Kicked(Sanitize(text, UI_SIZE).text)
  {
    hide TurnsFrom, Pairs;
    GrowthTotal();
    PassOn(text, 0, Model);
    ShortModelOk("kyle");
  }

  /** Two passes reach a fixed point: if the first does not kick the client, a third
      pass reports nothing to fix and leaves the text as the second left it. */
  lemma TwoPassesSettle(text: string)
    requires |text| <= MAX_INFO && Sanitize(text, UI_SIZE).rc >= 0
    ensures var s1 := Sanitize(text, UI_SIZE); var s2 := Sanitize(s1.text, UI_SIZE);
            Sanitize(s2.text, UI_SIZE) == Sanitized(0, s2.text)
  {
    hide TurnsFrom, Pairs, Kicked, NextValue, NeedsEdit;
    GrowthTotal();
    var s1 := Sanitize(text, UI_SIZE);
    var s2 := Sanitize(s1.text, UI_SIZE);
    StaysUnkicked(text);
    SanitizeLength(text);
    StaysUnkicked(s1.text);
    SanitizeLength(s1.text);
    forall f: Field ensures !NeedsEdit(f, Get(Pairs(s2.text), KeyOf(f))) {
      PassOn(text, 0, f);
      PassOn(s1.text, 0, f);
      SettledAfterTwo(f, Get(Pairs(text), KeyOf(f)));
    }
    PassIdleIff(s2.text, 0);
  }

  /** What reaches the game: no more than 1055 characters, every checked key within
      its rule; and unless it was written back, exactly what the client sent. */
  lemma ForwardedIsAcceptable(text: string, f: Field)
    requires React(text, UI_SIZE).Forward?
    ensures var r := React(text, UI_SIZE);
            && 1 <= |text| <= MAX_INFO && |r.text| <= 1055
            && (!r.written ==> r.text == text)
            && (match Get(Pairs(r.text), KeyOf(f)) case Absent => true case Value(v) => Accepts(f, v))
  {
    hide TurnsFrom, Pairs, Kicked;
    SanitizedIsAcceptable(text, f);
    SanitizeLength(text);
    GrowthTotal();
    PassUnchanged(text, 0);
  }

  /** A pass that reports no change made none. */
  lemma {:induction false} PassUnchanged(text: string, i: nat)
    requires i <= 6 && |text| + GrowthFrom(i) <= ROOM_LIMIT
    ensures !TurnsFrom(text, UI_SIZE, i).changed ==> TurnsFrom(text, UI_SIZE, i).text == text
    decreases 6 - i
  {
    hide Turn, Growth;
    if i < 6 {
      TurnEffect(text, FIELDS[i], "");
      PassUnchanged(Turn(text, UI_SIZE, FIELDS[i]).text, i + 1);
    }
  }

  // ------------------------------------------------------------------
  // The cheat signature
  // ------------------------------------------------------------------

  /** The signature check is one character short: what it catches is a model called
      darksidetool, in any case; the full word it spells is not caught. */
  lemma BannedMeaning(val: string)
    requires NulFree(val)
    ensures Banned(val) <==> SameFold(val, "darksidetool")
    ensures val == "darksidetools" ==> !Banned(val)
  {
    var w := "darksidetools";
    assert NulFree(w);
    assert w[..12] == "darksidetool";
    EqMeaning(val, w, 12);
    if val == w {
      NotTheLiteral(val, w, 12);
    }
  }
}
