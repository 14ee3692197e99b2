/**
  What `CleanName` makes of a name, byte by byte, without the cleaner's own words:
  which bytes go, how runs are shortened, what leads, what is left when nothing is.
 */
module NameTheory {
  import opened CStrings
  import opened NameCleaner

  /** The bytes a cleaned name may have. */
  predicate Wanted(c: char) {
    c as int >= 0x20 && c != 0x81 as char && c != 0x8D as char && c != 0x8F as char && c != 0x90 as char
    && c != 0x9D as char && c != 0xA0 as char && c != 0xAD as char
  }

  function OnlyWanted(s: string): string {
    if s == "" then "" else (if Wanted(s[0]) then [s[0]] else "") + OnlyWanted(s[1..])
  }

  function Copies(c: char, n: nat): (s: string)
    ensures |s| == n && forall i | 0 <= i < n :: s[i] == c
  {
    if n == 0 then "" else [c] + Copies(c, n - 1)
  }

  /** No control byte and none of seven extended bytes survives. */
  lemma CleanIsWanted(s: string)
    ensures forall c | c in Clean(s) :: c as int >= 0x20
    ensures forall c | c in Clean(s) :: c as int !in {0x81, 0x8D, 0x8F, 0x90, 0x9D, 0xA0, 0xAD}
  {
    CleanShape(s);
    var r := Clean(s);
    forall c | c in r ensures !Stripped(c) {
      var i :| 0 <= i < |r| && r[i] == c;
    }
  }

  lemma {:induction false} BodyOfPlain(s: string, room: nat)
    requires ' ' !in s && '@' !in s
    ensures Body(s, room) == Take(OnlyWanted(s), room)
    decreases |s|
  {
    if s != "" && room > 0 {
      assert forall c | c in s[1..] :: c in s;
      assert s[0] in s;
      if Wanted(s[0]) {
        BodyOfPlain(s[1..], room - 1);
        assert OnlyWanted(s) == [s[0]] + OnlyWanted(s[1..]);
      } else {
        BodyOfPlain(s[1..], room);
        assert OnlyWanted(s) == OnlyWanted(s[1..]);
      }
    }
  }

  /** A name without blanks, asterisks and at-signs keeps the first 63 of its wanted
      bytes, or becomes Padawan if it has none; a smaller buffer cuts it further. */
  lemma {:induction false} PlainNamesKeepTheirBytes(s: string, outlen: nat)
    requires ' ' !in s && '*' !in s && '@' !in s && outlen > 0
    ensures var kept := Take(OnlyWanted(s), if outlen <= 63 then outlen - 1 else 63);
            CleanText(s, outlen) == if kept == "" then Take("Padawan", outlen - 1) else kept
    ensures outlen == 512 ==> CleanText(s, outlen) == Clean(s)
  {
    if s != "" { assert s[0] in s; }
    assert SkipLead(s) == s;
    BodyOfPlain(s, if outlen <= 63 then outlen - 1 else 63);
  }

  /** Leading blanks and asterisks go. */
  lemma {:induction false} LeadIsSkipped(lead: string, rest: string, outlen: nat)
    requires forall c | c in lead :: c == ' ' || c == '*'
    requires outlen > 0
    ensures CleanText(lead + rest, outlen) == CleanText(rest, outlen)
    ensures SkipLead(lead + rest) == SkipLead(rest)
    decreases |lead|
  {
    if lead == "" {
      assert lead + rest == rest;
    } else {
      assert lead[0] in lead && (lead + rest)[1..] == lead[1..] + rest;
      assert forall c | c in lead[1..] :: c in lead;
      LeadIsSkipped(lead[1..], rest, outlen);
    }
  }

  /** Where `c` may stand at most twice in a row. */
  function RunLimit(c: char, n: nat): nat {
    if (c == ' ' || c == '@') && n > 2 then 2 else n
  }

  lemma RunStep(c: char, n: nat, rest: string)
    requires n > 0 && (rest == "" || rest[0] != c)
    ensures var s := Copies(c, n) + rest;
            && s != "" && s[0] == c && s[1..] == Copies(c, n - 1) + rest
            && (Triple(s) <==> n >= 3 && (c == ' ' || c == '@'))
  {
    var s := Copies(c, n) + rest;
    if n >= 3 {
      assert s[1] == Copies(c, n)[1] && s[2] == Copies(c, n)[2];
    } else if |s| >= 3 {
      assert s[n] == rest[0];
    }
  }

  lemma LimitStep(c: char, n: nat)
    ensures n > 0 ==>
              RunLimit(c, n) == RunLimit(c, n - 1) + (if n >= 3 && (c == ' ' || c == '@') then 0 else 1)
  {
  }

  lemma OneMore(c: char, k: nat, room: nat)
    requires room > 0
    ensures Take(Copies(c, k + 1), room) == [c] + Take(Copies(c, k), room - 1)
  {
    assert Copies(c, k + 1) == [c] + Copies(c, k);
  }

  lemma {:induction false} NoRun(c: char, n: nat, rest: string, room: nat)
    requires n == 0 || room == 0
    ensures var kept := Take(Copies(c, RunLimit(c, n)), room);
            Body(Copies(c, n) + rest, room) == kept + Body(rest, room - |kept|)
  {
    if n == 0 { assert Copies(c, 0) + rest == rest; }
  }

  lemma {:induction false} BodyOfWanted(s: string, room: nat)
    requires s != "" && Wanted(s[0]) && room > 0
    ensures Body(s, room) == if Triple(s) then Body(s[1..], room) else [s[0]] + Body(s[1..], room - 1)
  {
  }

  /** A run of one wanted byte keeps its length, but of blanks and at-signs only two. */
  lemma {:induction false} RunsAreShortened(c: char, n: nat, rest: string, room: nat)
    requires Wanted(c) && (rest == "" || rest[0] != c)
    ensures var kept := Take(Copies(c, RunLimit(c, n)), room);
            Body(Copies(c, n) + rest, room) == kept + Body(rest, room - |kept|)
    decreases n
  {
    hide Triple, Copies, Take, Body, Stripped, Wanted, RunLimit;
    LimitStep(c, n);
    if n == 0 || room == 0 {
      NoRun(c, n, rest, room);
    } else {
      RunStep(c, n, rest);
      BodyOfWanted(Copies(c, n) + rest, room);
      if n >= 3 && (c == ' ' || c == '@') {
        RunsAreShortened(c, n - 1, rest, room);
      } else {
        var fewer := Take(Copies(c, RunLimit(c, n - 1)), room - 1);
        RunsAreShortened(c, n - 1, rest, room - 1);
        OneMore(c, RunLimit(c, n - 1), room);
        Regroup([c], fewer, Body(rest, room - 1 - |fewer|));
      }
    }
  }

  lemma Regroup(a: string, b: string, c: string)
    ensures a + (b + c) == (a + b) + c
  {
  }

  /** Any other byte is as if it were not there. */
  lemma {:induction false} UnwantedVanishes(c: char, rest: string, room: nat)
    requires !Wanted(c)
    ensures Body([c] + rest, room) == Body(rest, room)
  {
    assert ([c] + rest)[1..] == rest;
  }

  /** The cleaner leaves exactly these names alone. */
  lemma TidyMeans(s: string)
    ensures Clean(s) == s <==>
            && 1 <= |s| <= 63 && s[0] != ' ' && s[0] != '*' && (forall i | 0 <= i < |s| :: Wanted(s[i]))
            && forall i | 0 <= i < |s| - 2 :: s[i] == s[i + 1] == s[i + 2] ==> s[i] != ' ' && s[i] != '@'
  {
    CleanFixedPoints(s);
    forall i | 0 <= i < |s| - 2
      ensures Triple(s[i..]) <==> s[i] == s[i + 1] == s[i + 2] && (s[i] == ' ' || s[i] == '@')
    {
      var u := s[i..];
      assert u[0] == s[i] && u[1] == s[i + 1] && u[2] == s[i + 2];
    }
    assert forall i | |s| - 2 <= i < |s| && 0 <= i :: !Triple(s[i..]);
  }
}
