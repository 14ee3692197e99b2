/**
  `CleanName`: strip control and confusable bytes, shorten runs, cut to 63
  characters, never return an empty name.
 */
module NameCleaner {
  import opened CStrings
  import opened InfoString

  /** Bytes the cleaner drops. */
  predicate Stripped(c: char) {
    c as int < 0x20 || c as int in {0x81, 0x8D, 0x8F, 0x90, 0x9D, 0xA0, 0xAD}
  }

  /** Two more of the same blank or at-sign follow. */
  predicate Triple(s: string) {
    |s| >= 3 && s[0] == s[1] == s[2] && (s[0] == ' ' || s[0] == '@')
  }

  function SkipLead(s: string): (r: string)
    ensures r != "" ==> r[0] != ' ' && r[0] != '*'
    ensures |r| <= |s|
  {
    if s != "" && (s[0] == ' ' || s[0] == '*') then SkipLead(s[1..]) else s
  }

  /** The main loop, with room for `room` more characters. */
  function Body(s: string, room: nat): (r: string)
    ensures |r| <= room
    decreases |s|
  {
    if s == "" || room == 0 then ""
    else if Stripped(s[0]) || Triple(s) then Body(s[1..], room)
    else [s[0]] + Body(s[1..], room - 1)
  }

  function Room(outlen: nat): nat
    requires outlen > 0
  {
    if outlen < 64 then outlen - 1 else 63
  }

  const FALLBACK := "Padawan"

  function CleanText(s: string, outlen: nat): string
    requires outlen > 0
  {
    var b := Body(SkipLead(s), Room(outlen));
    if b == "" then Take(FALLBACK, outlen - 1) else b
  }

  predicate NoneStripped(s: string) { forall i | 0 <= i < |s| :: !Stripped(s[i]) }

  predicate DrawnFrom(r: string, s: string) { forall i | 0 <= i < |r| :: r[i] in s }

  lemma {:induction false} BodyShape(s: string, room: nat)
    ensures NoneStripped(Body(s, room)) && DrawnFrom(Body(s, room), s)
    decreases |s|
  {
    if s != "" && room > 0 {
      assert forall c | c in s[1..] :: c in s;
      if Stripped(s[0]) || Triple(s) {
        BodyShape(s[1..], room);
      } else {
        BodyShape(s[1..], room - 1);
      }
    }
  }

  lemma {:induction false} BodyStep(s: string, i: nat, room: nat)
    requires i < |s| && room > 0
    ensures Body(s[i..], room)
            == if Stripped(s[i]) || Triple(s[i..]) then Body(s[i + 1..], room) else [s[i]] + Body(s[i + 1..], room - 1)
  {
    assert s[i..][1..] == s[i + 1..];
  }

  method SkipBlanks(input: string) returns (i: nat)
    ensures i <= |input| && input[i..] == SkipLead(input)
  {
    i := 0;
    assert input[0..] == input;
    while i < |input| && (input[i] == ' ' || input[i] == '*')
      invariant 0 <= i <= |input| && SkipLead(input[i..]) == SkipLead(input)
    {
      assert input[i..][1..] == input[i + 1..];
      i := i + 1;
    }
  }

  /** The main loop.  `colorless` counts the characters that are not the digit of a
      colour code; the first character always counts, so it is zero only when
      nothing was kept. */
  method KeepCharacters(input: string, start: nat, out: array<char>) returns (pos: nat, colorless: nat)
    requires out.Length > 0 && start <= |input|
    modifies out
    ensures pos <= Room(out.Length) && out[..pos] == Body(input[start..], Room(out.Length))
    ensures colorless == 0 <==> pos == 0
  {
    hide Body, Stripped;
    var i := start;
    pos, colorless := 0, 0;
    while i < |input| && pos + 1 < out.Length && pos + 1 < 64
      invariant start <= i <= |input| && pos <= Room(out.Length)
      invariant out[..pos] + Body(input[i..], Room(out.Length) - pos) == Body(input[start..], Room(out.Length))
      invariant colorless == 0 <==> pos == 0
    {
      var c := input[i];
      BodyStep(input, i, Room(out.Length) - pos);
      if Stripped(c) {
        i := i + 1;
        continue;
      }
      if i + 2 < |input| && ((c == ' ' && input[i + 1] == ' ' && input[i + 2] == ' ')
                             || (c == '@' && input[i + 1] == '@' && input[i + 2] == '@')) {
        i := i + 1;
        continue;
      }
      ghost var was := out[..pos];
      out[pos] := c;
      pos := pos + 1;
      assert out[..pos] == was + [c];
      if !(pos > 1 && out[pos - 2] == '^' && (('0' <= c <= '9') || c == '#')) {
        colorless := colorless + 1;
      }
      i := i + 1;
    }
    BodyDone(input, i, Room(out.Length) - pos);
  }

  lemma {:induction false} BodyDone(s: string, i: nat, room: nat)
    requires i <= |s| && (i == |s| || room == 0)
    ensures Body(s[i..], room) == ""
  {
  }

  method CleanName(input: string, out: array<char>)
    requires out.Length > 0
    modifies out
    ensures CStr(out[..]) == CleanText(input, out.Length)
  {
    hide Body;
    var i := SkipBlanks(input);
    var pos, colorless := KeepCharacters(input, i, out);
    ghost var name := Body(SkipLead(input), Room(out.Length));
    BodyShape(SkipLead(input), Room(out.Length));
    out[pos] := NUL;
    if pos == 0 || colorless == 0 {
      StrNCpy(out, FALLBACK);
    } else {
      out[out.Length - 1] := NUL;
      assert out[..][..pos] == name;
      CStrIs(out[..], name);
    }
  }

  // ------------------------------------------------------------------
  // What the cleaner guarantees
  // ------------------------------------------------------------------

  /** With the 512-byte buffer of `SanitizeUserinfo`. */
  function Clean(s: string): string {
    CleanText(s, 512)
  }

  /** A name the cleaner has nothing to say about. */
  predicate Tidy(s: string) {
    && 1 <= |s| <= 63 && NoneStripped(s) && NoTriples(s)
    && s[0] != ' ' && s[0] != '*'
  }

  predicate NoTriples(s: string) {
    forall i | 0 <= i < |s| :: !Triple(s[i..])
  }

  /** Cleaned names have 1 to 63 characters, none of them stripped, all of them
      from the input unless the fallback was needed. */
  lemma CleanShape(s: string)
    ensures 1 <= |Clean(s)| <= 63 && NoneStripped(Clean(s))
    ensures Clean(s) == FALLBACK || DrawnFrom(Clean(s), s)
  {
    BodyShape(SkipLead(s), 63);
    SkipLeadDraws(s);
  }

  lemma {:induction false} SkipLeadDraws(s: string)
    ensures forall c | c in SkipLead(s) :: c in s
    ensures NoneStripped(s) ==> NoneStripped(SkipLead(s))
  {
    if s != "" && (s[0] == ' ' || s[0] == '*') {
      SkipLeadDraws(s[1..]);
      assert forall c | c in s[1..] :: c in s;
    }
  }

  lemma {:induction false} BodyOfTidy(s: string, room: nat)
    requires |s| <= room && NoneStripped(s) && NoTriples(s)
    ensures Body(s, room) == s
    decreases |s|
  {
    if s != "" {
      assert s[0..] == s;
      TailNoTriples(s);
      BodyOfTidy(s[1..], room - 1);
    }
  }

  lemma TailNoTriples(s: string)
    requires s != "" && NoTriples(s)
    ensures NoTriples(s[1..])
  {
    forall i | 0 <= i < |s[1..]| ensures !Triple(s[1..][i..]) {
      assert s[1..][i..] == s[i + 1..];
    }
  }

  lemma ConsNoTriples(c: char, r: string)
    requires NoTriples(r) && !Triple([c] + r)
    ensures NoTriples([c] + r)
  {
    var s := [c] + r;
    forall i | 0 <= i < |s| ensures !Triple(s[i..]) {
      if i == 0 {
        assert s[0..] == s;
      } else {
        assert s[i..] == r[i - 1..];
      }
    }
  }

  /** Without stripped bytes in between, shortening keeps the first character. */
  lemma {:induction false} HeadKept(s: string, room: nat)
    requires NoneStripped(s) && s != "" && room > 0
    ensures Body(s, room) != "" && Body(s, room)[0] == s[0]
    decreases |s|
  {
    if Triple(s) {
      HeadKept(s[1..], room);
    }
  }

  /** If two equal characters lead the result, the same two lead the input. */
  lemma {:induction false} TwoKept(s: string, room: nat)
    requires NoneStripped(s) && |Body(s, room)| >= 2 && Body(s, room)[0] == Body(s, room)[1]
    ensures |s| >= 2 && s[0] == s[1] == Body(s, room)[0]
  {
    HeadKept(s, room);
    if !Triple(s) {
      assert Body(s, room)[1..] == Body(s[1..], room - 1);
      HeadKept(s[1..], room - 1);
    }
  }

  /** Shortening leaves no run of three. */
  lemma {:induction false} BodyCollapses(s: string, room: nat)
    requires NoneStripped(s)
    ensures NoTriples(Body(s, room))
    decreases |s|
  {
    if s != "" && room > 0 {
      var t := s[1..];
      if Triple(s) {
        BodyCollapses(t, room);
      } else {
        var r := Body(t, room - 1);
        BodyCollapses(t, room - 1);
        if Triple([s[0]] + r) {
          assert r[0] == ([s[0]] + r)[1] && r[1] == ([s[0]] + r)[2];
          TwoKept(t, room - 1);
        }
        ConsNoTriples(s[0], r);
      }
    }
  }

  /** The cleaner leaves a name alone exactly when it is tidy. */
  lemma CleanFixedPoints(s: string)
    ensures Clean(s) == s <==> Tidy(s)
  {
    if Tidy(s) {
      BodyOfTidy(s, 63);
    }
    if Clean(s) == s {
      CleanShape(s);
      CleanOfCleanInput(s);
    }
  }

  lemma FallbackIsTidy()
    ensures Tidy(FALLBACK)
  {
    var f := FALLBACK;
    forall i | 0 <= i < |f| ensures !Triple(f[i..]) {
      assert f[i..][0] == f[i] && f[i] != ' ' && f[i] != '@';
    }
  }

  /** A name free of stripped bytes is tidy after one cleaning. */
  lemma CleanOfCleanInput(s: string)
    requires NoneStripped(s)
    ensures Tidy(Clean(s))
  {
    var u := SkipLead(s);
    SkipLeadDraws(s);
    CleanShape(s);
    FallbackIsTidy();
    if u != "" {
      HeadKept(u, 63);
      BodyCollapses(u, 63);
    }
  }

  /** On names free of stripped bytes the cleaner is idempotent. */
  lemma CleanIdempotent(s: string)
    requires NoneStripped(s)
    ensures Clean(Clean(s)) == Clean(s)
  {
    CleanOfCleanInput(s);
    CleanFixedPoints(Clean(s));
  }

  /** Two passes always suffice: the second result is tidy, so a third pass, and any
      later one, changes nothing. */
  lemma CleanTwiceIsTidy(s: string)
    ensures Tidy(Clean(Clean(s))) && Clean(Clean(Clean(s))) == Clean(Clean(s))
  {
    CleanShape(s);
    CleanOfCleanInput(Clean(s));
    CleanFixedPoints(Clean(Clean(s)));
  }

  /** One pass need not: dropping a control byte can expose a leading blank. */
  lemma CleanOnceMayNotSuffice()
    ensures var s := [1 as char, ' ', 'a'];
            Clean(s) == [' ', 'a'] && Clean(Clean(s)) == ['a']
  {
    var s := [1 as char, ' ', 'a'];
    assert s[1..] == [' ', 'a'] && [' ', 'a'][1..] == ['a'] && ['a'][1..] == [];
    assert Body("", 62) == "" && Body("", 61) == "";
    assert Body(['a'], 62) == ['a'] && Body(['a'], 63) == ['a'];
    assert Body([' ', 'a'], 63) == [' ', 'a'];
    assert Body(s, 63) == [' ', 'a'];
    assert SkipLead([' ', 'a']) == ['a'] by { assert SkipLead(['a']) == ['a']; }
  }

  // ------------------------------------------------------------------
  // When one application is enough
  // ------------------------------------------------------------------

  /** The string without its stripped bytes. */
  function Bare(s: string): (r: string)
    ensures |r| <= |s|
  {
    if s == "" then "" else (if Stripped(s[0]) then "" else [s[0]]) + Bare(s[1..])
  }

  /** Does the main loop, given room, keep the first character? */
  predicate KeepsFirst(s: string) { s != "" && !Stripped(s[0]) && !Triple(s) }

  /** How many characters before the i-th the main loop keeps, given room. */
  function KeptBefore(s: string, i: nat): nat
    requires i <= |s|
  {
    if i == 0 then 0 else (if KeepsFirst(s) then 1 else 0) + KeptBefore(s[1..], i - 1)
  }

  /** A run of three blanks or at-signs that starts at `i`, survives because stripped
      bytes interrupt it, and is kept within `room`. */
  predicate BrokenRun(s: string, i: nat, room: nat)
    requires i < |s|
  {
    KeepsFirst(s[i..]) && Triple(Bare(s[i..])) && KeptBefore(s, i) + 3 <= room
  }

  predicate NoBrokenRun(s: string, room: nat) {
    forall i | 0 <= i < |s| :: !BrokenRun(s, i, room)
  }

  /** The first character that is not stripped is one the cleaner lets lead. */
  predicate GoodLead(s: string) {
    Bare(s) != "" ==> Bare(s)[0] != ' ' && Bare(s)[0] != '*'
  }

  /** The result starts as the bare string starts. */
  lemma {:induction false} BodyHead(s: string, room: nat)
    requires room > 0
    ensures Body(s, room) == "" <==> Bare(s) == ""
    ensures Bare(s) != "" ==> Body(s, room)[0] == Bare(s)[0]
    decreases |s|
  {
    if s != "" && !KeepsFirst(s) {
      BodyHead(s[1..], room);
      if !Stripped(s[0]) { BareTwo(s); }
    }
  }

  lemma {:induction false} BareTwo(s: string)
    requires Triple(s)
    ensures |Bare(s)| >= 3 && Bare(s)[0] == Bare(s)[1] == s[0] && Bare(s)[1..] == Bare(s[1..])
    ensures |Bare(s[1..])| >= 2 && Bare(s[1..])[0] == Bare(s[1..])[1] == s[0]
  {
    assert s[1..][1..] == s[2..] && s[2..][1..] == s[3..];
    assert Bare(s) == [s[0]] + Bare(s[1..]) && Bare(s[1..]) == [s[0]] + Bare(s[2..]);
    assert Bare(s[2..]) == [s[0]] + Bare(s[3..]);
  }

  predicate StartsTwice(s: string, c: char) { |s| >= 2 && s[0] == s[1] == c }

  /** And with the same pair, if it starts with one. */
  lemma {:induction false} BodyPair(s: string, room: nat, c: char)
    requires room >= 2
    ensures StartsTwice(Body(s, room), c) <==> StartsTwice(Bare(s), c)
    decreases |s|
  {
    if s != "" {
      if KeepsFirst(s) {
        BodyHead(s[1..], room - 1);
        assert Body(s, room) == [s[0]] + Body(s[1..], room - 1) && Bare(s) == [s[0]] + Bare(s[1..]);
      } else {
        BodyPair(s[1..], room, c);
        if !Stripped(s[0]) { BareTwo(s); }
      }
    }
  }

  /** One step of the scan. */
  lemma {:induction false} TripleOfKept(s: string, room: nat)
    requires KeepsFirst(s) && room > 0
    ensures Triple(Body(s, room)) <==> room >= 3 && Triple(Bare(s))
  {
    var r, b := Body(s[1..], room - 1), Bare(s[1..]);
    assert Body(s, room) == [s[0]] + r && Bare(s) == [s[0]] + b;
    if room >= 3 {
      BodyPair(s[1..], room - 1, s[0]);
      assert Triple([s[0]] + r) <==> StartsTwice(r, s[0]) && (s[0] == ' ' || s[0] == '@');
      assert Triple([s[0]] + b) <==> StartsTwice(b, s[0]) && (s[0] == ' ' || s[0] == '@');
    }
  }

  lemma NoTriplesCons(c: char, r: string)
    ensures NoTriples([c] + r) <==> NoTriples(r) && !Triple([c] + r)
  {
    var s := [c] + r;
    if NoTriples(s) {
      assert s[0..] == s && s[1..] == r;
      TailNoTriples(s);
    } else if NoTriples(r) && !Triple(s) {
      ConsNoTriples(c, r);
    }
  }

  lemma BrokenRunShift(s: string, i: nat, room: nat)
    requires 0 < i < |s|
    ensures BrokenRun(s, i, room) <==>
            (if KeepsFirst(s) then room > 0 && BrokenRun(s[1..], i - 1, room - 1) else BrokenRun(s[1..], i - 1, room))
  {
    assert s[i..] == s[1..][i - 1..];
  }

  lemma {:induction false} NoBrokenRunCons(s: string, room: nat)
    requires s != "" && room > 0
    ensures NoBrokenRun(s, room) <==>
            if KeepsFirst(s) then !(room >= 3 && Triple(Bare(s))) && NoBrokenRun(s[1..], room - 1)
            else NoBrokenRun(s[1..], room)
  {
    hide KeepsFirst, Triple, Bare;
    assert s[0..] == s;
    forall i | 0 < i < |s| {
      BrokenRunShift(s, i, room);
    }
    var next := if KeepsFirst(s) then room - 1 else room;
    if NoBrokenRun(s, room) {
      forall i | 0 <= i < |s[1..]| ensures !BrokenRun(s[1..], i, next) {
        assert !BrokenRun(s, i + 1, room);
      }
      assert !BrokenRun(s, 0, room);
    }
  }

  /** The result has a run of three exactly when the input has a broken one. */
  lemma {:induction false} TriplesAreBrokenRuns(s: string, room: nat)
    ensures NoTriples(Body(s, room)) <==> NoBrokenRun(s, room)
    decreases |s|
  {
    hide Triple, Bare, KeptBefore, NoTriples, NoBrokenRun;
    if s == "" || room == 0 {
      NothingBroken(s, room);
    } else {
      NoBrokenRunCons(s, room);
      if KeepsFirst(s) {
        TriplesAreBrokenRuns(s[1..], room - 1);
        TripleOfKept(s, room);
        NoTriplesCons(s[0], Body(s[1..], room - 1));
      } else {
        TriplesAreBrokenRuns(s[1..], room);
      }
    }
  }

  lemma NothingBroken(s: string, room: nat)
    requires s == "" || room == 0
    ensures NoTriples("") && NoBrokenRun(s, room)
  {
  }

  /** One application reaches the fixed point exactly when, behind the leading blanks
      and asterisks, the first character that survives is neither of these and no
      run of three survives by being interrupted within the 63 that are kept. */
  lemma {:induction false} CleanOnceSufficesIff(s: string)
    ensures var u := SkipLead(s);
            Clean(Clean(s)) == Clean(s) <==> GoodLead(u) && NoBrokenRun(u, 63)
  {
    hide Body, SkipLead, Bare, NoTriples, NoBrokenRun, NoneStripped;
    var u := SkipLead(s);
    CleanFixedPoints(Clean(s));
    CleanShape(s);
    FallbackIsTidy();
    TriplesAreBrokenRuns(u, 63);
    BodyHead(u, 63);
    if Body(u, 63) == "" {
      NothingTriple();
    }
  }

  lemma NothingTriple()
    ensures NoTriples("")
  {
  }
}
