/**
  `Info_Set` is an update of an association list: parsing what it writes gives the
  old pairs without the key, in order, and then the new pair.
 */
module InfoTheory {
  import opened CStrings
  import opened InfoString

  /** A text that can stand between backslashes. */
  predicate Plain(s: string) { '\\' !in s }

  predicate PlainPairs(ps: seq<Pair>) {
    forall i | 0 <= i < |ps| :: Plain(ps[i].key) && Plain(ps[i].value)
  }

  // ------------------------------------------------------------------
  // Parsing and printing
  // ------------------------------------------------------------------

  lemma {:induction false} FindIs(s: string, c: char, i: nat, j: nat)
    requires i <= j <= |s| && c !in s[i..j] && (j < |s| ==> s[j] == c)
    ensures Find(s, c, i) == j
    decreases j - i
  {
    if i < j {
      assert s[i] == s[i..j][0] && s[i + 1..j] == s[i..j][1..];
      FindIs(s, c, i + 1, j);
    }
  }

  lemma {:induction false} PairsArePlain(s: string, p: nat)
    requires p <= |s|
    ensures PlainPairs(PairsFrom(s, p))
    decreases |s| - p
  {
    if p < |s| && s[p] == '\\' {
      var kend := Find(s, '\\', p + 1);
      if kend < |s| {
        PairsArePlain(s, Find(s, '\\', kend + 1));
      }
    }
  }

  ghost predicate PrintsAt(s: string, p: nat)
    requires p <= |s|
  {
    var t := Print(PairsFrom(s, p));
    p + |t| <= |s| && s[p..p + |t|] == t
  }

  lemma {:induction false} PrintsStep(s: string, p: nat, vend: nat, first: Pair)
    requires p <= vend <= |s| && PairsFrom(s, p) == [first] + PairsFrom(s, vend) && s[p..vend] == Show(first)
    requires PrintsAt(s, vend)
    ensures PrintsAt(s, p)
  {
    hide PairsFrom, Show, Print;
    PrintStep(first, PairsFrom(s, vend));
    var t := Print(PairsFrom(s, vend));
    assert s[p..vend + |t|] == s[p..vend] + s[vend..vend + |t|];
  }

  lemma {:induction false} PrintsNothing(s: string, p: nat)
    requires p <= |s| && (p == |s| || s[p] != '\\' || Find(s, '\\', p + 1) == |s|)
    ensures PrintsAt(s, p)
  {
    assert PairsFrom(s, p) == [];
  }

  /** The pairs of a string are a prefix of it; the rest is malformed. */
  lemma {:induction false} PrintIsPrefix(s: string, p: nat)
    requires p <= |s|
    ensures PrintsAt(s, p)
    decreases |s| - p
  {
    hide PrintsAt, Show, PairsFrom, Find;
    if p < |s| && s[p] == '\\' && Find(s, '\\', p + 1) < |s| {
      PairsAt(s, p);
      var kend := Find(s, '\\', p + 1);
      var vend := Find(s, '\\', kend + 1);
      PrintIsPrefix(s, vend);
      PrintsStep(s, p, vend, Pair(s[p + 1..kend], s[kend + 1..vend]));
    } else {
      PrintsNothing(s, p);
    }
  }

  lemma {:induction false} PrintStep(first: Pair, rest: seq<Pair>)
    ensures Print([first] + rest) == Show(first) + Print(rest)
  {
    assert ([first] + rest)[1..] == rest;
  }

  lemma {:induction false} PrintAppend(ps: seq<Pair>, qs: seq<Pair>)
    ensures Print(ps + qs) == Print(ps) + Print(qs)
  {
    if ps == [] {
      assert ps + qs == qs;
    } else {
      assert (ps + qs)[1..] == ps[1..] + qs;
      PrintAppend(ps[1..], qs);
    }
  }

  /** Where the parts of a printed pair lie. */
  lemma Layout(a: string, p: Pair, rest: string)
    ensures var s := a + (Show(p) + rest);
            var kend := |a| + 1 + |p.key|;
            var vend := kend + 1 + |p.value|;
            && |s| == vend + |rest| && s[|a|] == '\\' && s[kend] == '\\'
            && s[|a| + 1..kend] == p.key && s[kend + 1..vend] == p.value
            && s[vend..] == rest && s == a + Show(p) + rest && vend == |a + Show(p)|
  {
    var s := a + (Show(p) + rest);
    var t := Show(p);
    assert t[0] == '\\' && t[1..1 + |p.key|] == p.key && t[1 + |p.key|] == '\\' && t[2 + |p.key|..] == p.value;
    assert s[|a|..|a| + |t|] == t;
  }

  /** One printed pair parses as itself. */
  lemma {:induction false} ParseOne(s: string, p: nat, kend: nat, vend: nat)
    requires p < kend < vend <= |s| && s[p] == '\\' && s[kend] == '\\'
    requires Plain(s[p + 1..kend]) && Plain(s[kend + 1..vend]) && (vend < |s| ==> s[vend] == '\\')
    ensures PairsFrom(s, p) == [Pair(s[p + 1..kend], s[kend + 1..vend])] + PairsFrom(s, vend)
  {
    hide Find;
    FindIs(s, '\\', p + 1, kend);
    FindIs(s, '\\', kend + 1, vend);
  }

  lemma {:induction false} PrintStarts(ps: seq<Pair>)
    ensures Print(ps) != "" ==> Print(ps)[0] == '\\'
  {
  }

  /** A printed pair, then anything that could start another. */
  lemma {:induction false} ParseShow(a: string, first: Pair, tail: string)
    requires Plain(first.key) && Plain(first.value) && (tail != "" ==> tail[0] == '\\')
    ensures var s := a + (Show(first) + tail);
            && s == a + Show(first) + tail
            && PairsFrom(s, |a|) == [first] + PairsFrom(s, |a + Show(first)|)
  {
    hide PairsFrom, Find, Show;
    var s := a + (Show(first) + tail);
    Layout(a, first, tail);
    var kend := |a| + 1 + |first.key|;
    var vend := kend + 1 + |first.value|;
    if vend < |s| { assert s[vend] == s[vend..][0] == tail[0]; }
    ParseOne(s, |a|, kend, vend);
  }

  lemma {:induction false} ParsePrintCons(a: string, first: Pair, rest: seq<Pair>)
    requires Plain(first.key) && Plain(first.value)
    ensures var s := a + (Show(first) + Print(rest));
            && s == a + Show(first) + Print(rest)
            && PairsFrom(s, |a|) == [first] + PairsFrom(s, |a + Show(first)|)
  {
    hide PairsFrom, Show, Print;
    PrintStarts(rest);
    ParseShow(a, first, Print(rest));
  }

  lemma {:induction false} ParseNothing(a: string)
    ensures PairsFrom(a + "", |a|) == []
  {
    assert a + "" == a;
  }

  /** Parsing undoes printing, at any offset. */
  lemma {:induction false} ParsePrintFrom(a: string, ps: seq<Pair>)
    requires PlainPairs(ps)
    ensures PairsFrom(a + Print(ps), |a|) == ps
    decreases |ps|
  {
    hide PairsFrom, Find, Show, Plain;
    if ps == [] {
      ParseNothing(a);
    } else {
      var first, rest := ps[0], ps[1..];
      ParsePrintCons(a, first, rest);
      ParsePrintFrom(a + Show(first), rest);
      assert Print(ps) == Show(first) + Print(rest) && ps == [first] + rest;
    }
  }

  /** Every list of pairs without backslashes survives printing and parsing. */
  lemma {:induction false} ParsePrint(ps: seq<Pair>)
    requires PlainPairs(ps)
    ensures Pairs(Print(ps)) == ps
  {
    ParsePrintFrom("", ps);
    assert "" + Print(ps) == Print(ps);
  }

  lemma PrintThree(p: Pair, q: Pair, r: Pair)
    ensures Print([p, q, r]) == Show(p) + Show(q) + Show(r)
  {
    assert [p, q, r][1..] == [q, r] && [q, r][1..] == [r] && [r][1..] == [];
    assert Print([r]) == Show(r) + "" == Show(r);
  }

  lemma SameName()
    ensures SameFold("name", "Name")
  {
  }

  lemma {:induction false} TailStarts(ps: seq<Pair>, rest: string)
    ensures (Print(ps) + ("\\" + rest))[0] == '\\'
  {
    PrintStarts(ps);
  }

  lemma {:induction false} ParseIncomplete(a: string, rest: string)
    requires Plain(rest)
    ensures PairsFrom(a + ("\\" + rest), |a|) == []
  {
    var s := a + ("\\" + rest);
    assert s[|a|] == '\\' && s[|a| + 1..] == rest;
    FindIs(s, '\\', |a| + 1, |s|);
  }

  /** An incomplete pair behind printed ones is ignored. */
  lemma {:induction false} ParsePrintRest(a: string, ps: seq<Pair>, rest: string)
    requires PlainPairs(ps) && Plain(rest)
    ensures PairsFrom(a + (Print(ps) + ("\\" + rest)), |a|) == ps
    decreases |ps|
  {
    hide PairsFrom, Show, Plain;
    if ps == [] {
      ParseIncomplete(a, rest);
      assert "" + ("\\" + rest) == "\\" + rest;
    } else {
      var first, more := ps[0], ps[1..];
      var tail := Print(more) + ("\\" + rest);
      TailStarts(more, rest);
      ParseShow(a, first, tail);
      ParsePrintRest(a + Show(first), more, rest);
      Reassociate(a, Show(first), Print(more), "\\" + rest);
      assert Print(ps) == Show(first) + Print(more) && ps == [first] + more;
    }
  }

  lemma Reassociate(a: string, b: string, c: string, d: string)
    ensures a + ((b + c) + d) == a + (b + (c + d)) && (a + b) + (c + d) == a + (b + (c + d))
  {
  }

  /** What a userinfo looks like: keys and values in turn, a backslash before each;
      keys are found whatever their case, the first pair counts, and what follows the
      last complete pair does not. */
  lemma PairsInPlain(a: string, b: string, c: string, rest: string)
    requires Plain(a) && Plain(b) && Plain(c) && Plain(rest)
    ensures var s := "\\name\\" + a + "\\NAME\\" + b + "\\model\\" + c + "\\" + rest;
            && Pairs(s) == [Pair("name", a), Pair("NAME", b), Pair("model", c)]
            && Get(Pairs(s), "Name") == Value(a)
    ensures Pairs(rest) == []
  {
    var ps := [Pair("name", a), Pair("NAME", b), Pair("model", c)];
    var s := "\\name\\" + a + "\\NAME\\" + b + "\\model\\" + c + "\\" + rest;
    PrintThree(ps[0], ps[1], ps[2]);
    assert s == Print(ps) + ("\\" + rest);
    ParsePrintRest("", ps, rest);
    assert "" + (Print(ps) + ("\\" + rest)) == s;
    SameName();
  }

  // ------------------------------------------------------------------
  // The list operations
  // ------------------------------------------------------------------

  lemma {:induction false} WithoutFacts(ps: seq<Pair>, key: string)
    ensures |Print(Without(ps, key))| <= |Print(ps)|
    ensures PlainPairs(ps) ==> PlainPairs(Without(ps, key))
    ensures Get(Without(ps, key), key) == Absent
    ensures Get(ps, key) == Absent ==> Without(ps, key) == ps
  {
    if ps != [] {
      WithoutFacts(ps[1..], key);
      if !SameFold(ps[0].key, key) {
        PrintStep(ps[0], Without(ps[1..], key));
        GetStep(ps[0], Without(ps[1..], key), key);
      }
    }
  }

  lemma {:induction false} WithoutOther(ps: seq<Pair>, key: string, other: string)
    requires !SameFold(key, other)
    ensures Get(Without(ps, key), other) == Get(ps, other)
  {
    if ps != [] {
      WithoutOther(ps[1..], key, other);
      if !SameFold(ps[0].key, key) {
        GetStep(ps[0], Without(ps[1..], key), other);
      }
    }
  }

  lemma {:induction false} GetAppend(ps: seq<Pair>, qs: seq<Pair>, key: string)
    ensures Get(ps + qs, key) == if Get(ps, key) == Absent then Get(qs, key) else Get(ps, key)
  {
    if ps == [] {
      assert ps + qs == qs;
    } else {
      assert (ps + qs)[1..] == ps[1..] + qs;
      GetAppend(ps[1..], qs, key);
    }
  }

  /** Removing a key shortens the text by at least the pair that was found. */
  lemma {:induction false} WithoutSaves(ps: seq<Pair>, key: string)
    requires Get(ps, key).Value?
    ensures |Print(Without(ps, key))| + 2 + |key| + |Get(ps, key).text| <= |Print(ps)|
  {
    if SameFold(ps[0].key, key) {
      assert |LowerAll(ps[0].key)| == |LowerAll(key)|;
      WithoutFacts(ps[1..], key);
    } else {
      WithoutSaves(ps[1..], key);
      PrintStep(ps[0], Without(ps[1..], key));
    }
  }

  // ------------------------------------------------------------------
  // What Info_Set does
  // ------------------------------------------------------------------

  lemma {:induction false} CopyOthersIsPrint(ps: seq<Pair>, key: string, acc: string)
    requires |acc| + |Print(ps)| < TMP - 1
    ensures CopyOthers(ps, key, acc) == acc + Print(Without(ps, key))
    decreases |ps|
  {
    if ps == [] {
      assert acc + Print(Without(ps, key)) == acc;
    } else if SameFold(ps[0].key, key) {
      CopyOthersIsPrint(ps[1..], key, acc);
      assert Without(ps, key) == Without(ps[1..], key);
    } else {
      CopyOthersIsPrint(ps[1..], key, acc + Show(ps[0]));
      PrintStep(ps[0], Without(ps[1..], key));
      assert acc + Show(ps[0]) + Print(Without(ps[1..], key)) == acc + (Show(ps[0]) + Print(Without(ps[1..], key)));
    }
  }

  /** The pairs `Info_Set` should leave. */
  function Updated(ps: seq<Pair>, key: string, value: string): seq<Pair> {
    Without(ps, key) + (if value == "" then [] else [Pair(key, value)])
  }

  lemma UpdatedIsPlain(ps: seq<Pair>, key: string, value: string)
    requires PlainPairs(ps) && Plain(key) && Plain(value)
    ensures PlainPairs(Updated(ps, key, value))
  {
    WithoutFacts(ps, key);
  }

  /** Does the new pair find room? */
  predicate HasRoom(text: string, infolen: nat, key: string, value: string) {
    value == "" || Fits(|Print(Without(Pairs(text), key))|, infolen, key, value)
  }

  lemma SetTextIsPrint(text: string, infolen: nat, key: string, value: string)
    requires |text| < TMP - 1 && |text| < infolen
    ensures SetText(text, infolen, key, value)
            == Print(Updated(Pairs(text), key, if HasRoom(text, infolen, key, value) then value else ""))
  {
    var ps := Pairs(text);
    PrintIsPrefix(text, 0);
    WithoutFacts(ps, key);
    CopyOthersIsPrint(ps, key, "");
    var others := Without(ps, key);
    assert "" + Print(others) == Print(others);
    PrintAppend(others, [Pair(key, value)]);
    assert Print([Pair(key, value)]) == Show(Pair(key, value)) + Print([]);
    assert Show(Pair(key, value)) + "" == Show(Pair(key, value));
    assert others + [] == others;
  }

  /** `Info_Set` updates the list of pairs: for every text, however malformed its
      tail and however often the key occurs.  Only when the new pair finds no room
      is it lost, and then the old one is gone all the same. */
  lemma SetRefinesUpdate(text: string, infolen: nat, key: string, value: string)
    requires |text| < TMP - 1 && |text| < infolen && Plain(key) && Plain(value)
    ensures Pairs(SetText(text, infolen, key, value))
            == Updated(Pairs(text), key, if HasRoom(text, infolen, key, value) then value else "")
  {
    var v := if HasRoom(text, infolen, key, value) then value else "";
    SetTextIsPrint(text, infolen, key, value);
    PairsArePlain(text, 0);
    UpdatedIsPlain(Pairs(text), key, v);
    ParsePrint(Updated(Pairs(text), key, v));
  }

  /** In numbers: a text below 2047 characters is rewritten as a list, and the new pair
      finds room when everything together stays below 2047 and one below the buffer. */
  lemma {:induction false} SetInNumbers(text: string, infolen: nat, key: string, value: string)
    requires |text| < 2047 && |text| < infolen && Plain(key) && Plain(value)
    ensures var others := Without(Pairs(text), key);
            var fits := var all := |Print(others)| + |key| + |value| + 2; all < 2047 && all + 1 < infolen;
            Pairs(SetText(text, infolen, key, value))
            == others + (if value != "" && fits then [Pair(key, value)] else [])
  {
    hide Pairs, Without, Print, SetText;
    SetRefinesUpdate(text, infolen, key, value);
  }

  /** Reading after writing: the key has the new value, every other key the value
      it had. */
  lemma {:induction false} GetAfterSet(text: string, infolen: nat, key: string, value: string, other: string)
    requires |text| < TMP - 1 && |text| < infolen && Plain(key) && Plain(value)
    requires HasRoom(text, infolen, key, value)
    ensures var after := Pairs(SetText(text, infolen, key, value));
            && Get(after, key) == (if value == "" then Absent else Value(value))
            && (!SameFold(key, other) ==> Get(after, other) == Get(Pairs(text), other))
            && (SameFold(key, other) ==> Get(after, other) == Get(after, key))
  {
    var ps := Pairs(text);
    SetRefinesUpdate(text, infolen, key, value);
    UpdatedGet(ps, key, value, other);
  }

  lemma {:induction false} UpdatedGet(ps: seq<Pair>, key: string, value: string, other: string)
    ensures var after := Updated(ps, key, value);
            && Get(after, key) == (if value == "" then Absent else Value(value))
            && (!SameFold(key, other) ==> Get(after, other) == Get(ps, other))
            && (SameFold(key, other) ==> Get(after, other) == Get(after, key))
  {
    WithoutFacts(ps, key);
    GetAppend(Without(ps, key), if value == "" then [] else [Pair(key, value)], key);
    if SameFold(key, other) {
      GetFold(Updated(ps, key, value), key, other);
    } else {
      WithoutOther(ps, key, other);
      GetAppend(Without(ps, key), if value == "" then [] else [Pair(key, value)], other);
    }
  }

  lemma {:induction false} GetFold(ps: seq<Pair>, a: string, b: string)
    requires SameFold(a, b)
    ensures Get(ps, a) == Get(ps, b)
  {
    if ps != [] {
      GetFold(ps[1..], a, b);
    }
  }
}
