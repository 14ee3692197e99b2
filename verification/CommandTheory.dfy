/**
  What the client-command filter guarantees about the commands it allows: of what it
  looked at, and of what the game will read, which can be more.
 */
module CommandTheory {
  import opened CStrings
  import opened InfoString
  import opened CommandFilter

  // ------------------------------------------------------------------
  // What the filter does not see
  // ------------------------------------------------------------------

  /** The arguments as the game will read them: nothing cut. */
  function Whole(argv: seq<string>, i: nat): string {
    if i <= 1 then ""
    else Whole(argv, i - 1) + (if i > 2 then " " else "") + (if i - 1 < |argv| then argv[i - 1] else "")
  }

  predicate TokensFit(argv: seq<string>, i: nat) {
    forall j | 1 <= j < i && j < |argv| :: |argv[j]| <= TOK_SIZE - 1
  }

  /** What is cut off the end of a text that may have `n` characters. */
  function Cut(s: string, n: nat): (r: string)
    ensures Take(s, n) + r == s
  {
    if |s| <= n then "" else s[n..]
  }

  /** How many characters are cut off the tokens before the i-th. */
  function TokensCut(argv: seq<string>, i: nat): nat {
    if i <= 1 then 0
    else TokensCut(argv, i - 1) + (if i - 1 < |argv| then |Cut(argv[i - 1], TOK_SIZE - 1)| else 0)
  }

  /** One of the tokens before the i-th has the character in its cut-off part. */
  predicate CutHas(argv: seq<string>, i: nat, c: char)
    requires i <= |argv|
  {
    exists j | 1 <= j < i :: c in Cut(argv[j], TOK_SIZE - 1)
  }

  /** A character is hidden when it lies behind the 255th of its token, or behind
      the 1023rd of what the tokens join to. */
  predicate Hidden(argv: seq<string>, c: char) {
    || CutHas(argv, |argv|, c)
    || c in Cut(JoinTo(argv, |argv|), ARGS_SIZE - 1)
  }

  /** How many characters are hidden. */
  function HiddenLength(argv: seq<string>): nat {
    TokensCut(argv, |argv|) + |Cut(JoinTo(argv, |argv|), ARGS_SIZE - 1)|
  }

  lemma {:induction false} JoinAgainstWhole(argv: seq<string>, i: nat)
    requires i <= |argv|
    ensures |Whole(argv, i)| == |JoinTo(argv, i)| + TokensCut(argv, i)
    ensures TokensFit(argv, i) ==> JoinTo(argv, i) == Whole(argv, i)
    ensures !TokensFit(argv, i) ==> TokensCut(argv, i) > 0 && |JoinTo(argv, i)| >= TOK_SIZE - 1
  {
    if i > 1 {
      JoinAgainstWhole(argv, i - 1);
    }
  }

  lemma CutHasStep(argv: seq<string>, i: nat, c: char)
    requires 1 < i <= |argv|
    ensures CutHas(argv, i, c) <==> CutHas(argv, i - 1, c) || c in Cut(argv[i - 1], TOK_SIZE - 1)
  {
    hide Cut, Take;
  }

  lemma InParts(x: string, y: string, z: string, c: char)
    ensures c in x + y + z <==> c in x || c in y || c in z
  {
  }

  lemma {:induction false} WholeCharacters(argv: seq<string>, i: nat, c: char)
    requires i <= |argv|
    ensures c in Whole(argv, i) <==> c in JoinTo(argv, i) || CutHas(argv, i, c)
  {
    hide Cut, Take, CutHas;
    if i > 1 {
      var s, tok, sep := argv[i - 1], Arg(argv, i - 1, TOK_SIZE), if i > 2 then " " else "";
      WholeCharacters(argv, i - 1, c);
      CutHasStep(argv, i, c);
      InParts(Whole(argv, i - 1), sep, s, c);
      InParts(JoinTo(argv, i - 1), sep, tok, c);
      InParts(tok, Cut(s, TOK_SIZE - 1), "", c);
      assert tok + Cut(s, TOK_SIZE - 1) + "" == s;
    } else {
      NothingCut(argv, i, c);
    }
  }

  lemma NothingCut(argv: seq<string>, i: nat, c: char)
    requires i <= |argv| && i <= 1
    ensures !CutHas(argv, i, c)
  {
  }

  /** What the game reads is what the filter saw and what was hidden from it. */
  lemma {:induction false} WholeIsSeenOrHidden(argv: seq<string>, c: char)
    ensures c in Whole(argv, |argv|) <==> c in Args(argv) || Hidden(argv, c)
    ensures |Whole(argv, |argv|)| == |Args(argv)| + HiddenLength(argv)
  {
    var s := JoinTo(argv, |argv|);
    WholeCharacters(argv, |argv|, c);
    JoinAgainstWhole(argv, |argv|);
    assert c in s <==> c in Args(argv) || c in Cut(s, ARGS_SIZE - 1);
  }

  /** The filter judges the whole command exactly when every argument has at most
      255 characters and all of them joined at most 1023. */
  lemma {:induction false} SeesWholeIff(argv: seq<string>)
    ensures Args(argv) == Whole(argv, |argv|)
            <==> TokensFit(argv, |argv|) && |Whole(argv, |argv|)| <= ARGS_SIZE - 1
    ensures Args(argv) == Whole(argv, |argv|) <==> HiddenLength(argv) == 0
  {
    JoinAgainstWhole(argv, |argv|);
    WholeIsSeenOrHidden(argv, ' ');
    if HiddenLength(argv) == 0 {
      assert TokensFit(argv, |argv|);
    }
  }

  /** A cut token alone fills 255 characters, so fewer are the whole command. */
  lemma {:induction false} ShortIsWhole(argv: seq<string>)
    requires |Args(argv)| < TOK_SIZE - 1
    ensures Args(argv) == Whole(argv, |argv|)
  {
    JoinAgainstWhole(argv, |argv|);
  }

  // ------------------------------------------------------------------
  // Command names
  // ------------------------------------------------------------------

  /** A prefix match fixes each of its characters, up to case. */
  lemma {:induction false} PrefixChar(s: string, prefix: string, i: nat, n: nat, k: nat)
    requires i <= k < n <= |prefix| && NulFree(prefix) && Compare(s, prefix, i, n) != Differ
    ensures Lower(At(s, k)) == Lower(prefix[k])
    decreases n - i
  {
    assert Lower(At(prefix, i)) != NUL;
    if i < k {
      PrefixChar(s, prefix, i + 1, n, k);
    }
  }

  lemma {:induction false} PrefixOfPrefix(s: string, p: string, q: string, i: nat, n: nat, m: nat)
    requires i <= m <= n <= |p| && q == p[..m] && NulFree(p) && Compare(s, p, i, n) != Differ
    ensures Compare(s, q, i, m) != Differ
    decreases n - i
  {
    if i < m {
      assert At(q, i) == At(p, i) == p[i] && Lower(p[i]) != NUL;
      PrefixOfPrefix(s, p, q, i + 1, n, m);
    }
  }

  lemma ThirdAndFourth(cmd: string, prefix: string, n: nat)
    requires 4 <= n <= |prefix| && NulFree(prefix)
    ensures StrCasePrefix(cmd, prefix, n) ==>
              Lower(At(cmd, 2)) == Lower(prefix[2]) && Lower(At(cmd, 3)) == Lower(prefix[3])
  {
    if StrCasePrefix(cmd, prefix, n) {
      PrefixChar(cmd, prefix, 0, n, 2);
      PrefixChar(cmd, prefix, 0, n, 3);
    }
  }

  /** The two commands that execute their argument. */
  predicate IsSink(cmd: string) { StrCasePrefix(cmd, "amvstr", 6) || StrCasePrefix(cmd, "ammap", 5) }

  lemma SinksAreDistinct(cmd: string)
    requires IsSink(cmd)
    ensures !StrCasePrefix(cmd, "amsay", 5) && !StrCasePrefix(cmd, "ampsay", 6)
    ensures StrCasePrefix(cmd, "ammap", 5) ==> !StrCasePrefix(cmd, "amvstr", 6)
  {
    hide Compare;
    var say, psay, vstr, map_ := "amsay", "ampsay", "amvstr", "ammap";
    if StrCasePrefix(cmd, say, 5) { PrefixChar(cmd, say, 0, 5, 2); }
    if StrCasePrefix(cmd, psay, 6) { PrefixChar(cmd, psay, 0, 6, 2); }
    if StrCasePrefix(cmd, vstr, 6) { PrefixChar(cmd, vstr, 0, 6, 2); }
    if StrCasePrefix(cmd, map_, 5) { PrefixChar(cmd, map_, 0, 5, 2); }
  }

  lemma SinkIsAdmin(cmd: string)
    requires IsSink(cmd)
    ensures StrCasePrefix(cmd, "am", 2)
  {
    var vstr, map_, brief := "amvstr", "ammap", "am";
    assert brief == vstr[..2] == map_[..2];
    if StrCasePrefix(cmd, vstr, 6) {
      PrefixOfPrefix(cmd, vstr, brief, 0, 6, 2);
    } else {
      PrefixOfPrefix(cmd, map_, brief, 0, 5, 2);
    }
  }

  lemma AdminNamesDiffer(cmd: string)
    ensures StrCasePrefix(cmd, "amlogin", 7) || StrCasePrefix(cmd, "ampoll", 6) ==>
              && !IsSink(cmd) && !StrCasePrefix(cmd, "amsay", 5) && !StrCasePrefix(cmd, "amrename", 8)
              && !StrCasePrefix(cmd, "amtele", 6) && !StrCasePrefix(cmd, "amtelemark", 10)
              && !StrCasePrefix(cmd, "amorigin", 8)
              && !StrCasePrefix(cmd, "amplayefx", 9) && !StrCasePrefix(cmd, "amweather", 9)
    ensures StrCasePrefix(cmd, "amlogin", 7) ==> !StrCasePrefix(cmd, "ampsay", 6)
    ensures StrCasePrefix(cmd, "ampoll", 6) ==> !StrCasePrefix(cmd, "ampsay", 6) && !StrCasePrefix(cmd, "amlogin", 7)
  {
    hide Compare;
    ThirdAndFourth(cmd, "amlogin", 7);
    ThirdAndFourth(cmd, "ampoll", 6);
    ThirdAndFourth(cmd, "amsay", 5);
    ThirdAndFourth(cmd, "ampsay", 6);
    ThirdAndFourth(cmd, "amvstr", 6);
    ThirdAndFourth(cmd, "ammap", 5);
    ThirdAndFourth(cmd, "amrename", 8);
    ThirdAndFourth(cmd, "amtele", 6);
    ThirdAndFourth(cmd, "amtelemark", 10);
    ThirdAndFourth(cmd, "amorigin", 8);
    ThirdAndFourth(cmd, "amplayefx", 9);
    ThirdAndFourth(cmd, "amweather", 9);
  }

  lemma RenameIsRename(cmd: string)
    requires StrCasePrefix(cmd, "amrename", 8)
    ensures StrCasePrefix(cmd, "am", 2) && !IsSink(cmd)
    ensures !StrCasePrefix(cmd, "amsay", 5) && !StrCasePrefix(cmd, "ampsay", 6) && !StrCasePrefix(cmd, "amlogin", 7)
  {
    hide Compare;
    ThirdAndFourth(cmd, "amrename", 8);
    ThirdAndFourth(cmd, "amsay", 5);
    ThirdAndFourth(cmd, "ampsay", 6);
    ThirdAndFourth(cmd, "amvstr", 6);
    ThirdAndFourth(cmd, "ammap", 5);
    ThirdAndFourth(cmd, "amlogin", 7);
    var long, brief := "amrename", "am";
    assert brief == long[..2];
    PrefixOfPrefix(cmd, long, brief, 0, 8, 2);
  }

  lemma ChatIsNotVote(cmd: string)
    requires NulFree(cmd) && IsChat(cmd)
    ensures !StrCaseEq(cmd, "callvote", 8)
  {
    hide Compare;
    var say, team, tell, vote := "say", "say_team", "tell", "callvote";
    EqMeaning(cmd, say, 3);
    EqMeaning(cmd, team, 8);
    EqMeaning(cmd, tell, 4);
    EqMeaning(cmd, vote, 8);
    assert say[..3] == say && team[..8] == team && tell[..4] == tell && vote[..8] == vote;
    assert LowerAll(say)[0] == 's' && LowerAll(team)[0] == 's' && LowerAll(tell)[0] == 't';
    assert LowerAll(vote)[0] == 'c';
  }

  // ------------------------------------------------------------------
  // What an allowed command cannot contain
  // ------------------------------------------------------------------

  /** Commands whose text may contain a semicolon. */
  predicate MayChain(cmd: string) {
    StrCasePrefix(cmd, "amsay", 5) || StrCasePrefix(cmd, "ampsay", 6) || StrCasePrefix(cmd, "amlogin", 7)
    || StrCasePrefix(cmd, "amrename", 8) || IsChat(cmd)
  }

  lemma TokenIsInert(s: string)
    requires IsTokenChars(s) || IsMapChars(s)
    ensures !HasCRLF(s) && !HasChaining(s)
  {
  }

  /** With one argument of at most 64 characters the differently cut copies of it
      are the same text. */
  lemma CopiesCoincide(argv: seq<string>)
    requires |argv| == 2 && |Arg(argv, 1, ARG_SIZE)| <= 64
    ensures Args(argv) == Arg(argv, 1, ARG_SIZE) == argv[1]
  {
    JoinStep(argv, 1);
    JoinNothing(argv);
  }

  /** No allowed command but amrename has a line break in what the filter saw, and a
      semicolon only where chat, logins and renames may have one. */
  lemma AllowedIsInert(argv: seq<string>, maxClients: int)
    requires !Decide(argv, maxClients).block
    ensures var cmd := Arg(argv, 0, ARG_SIZE);
            && (HasCRLF(Args(argv)) ==> StrCasePrefix(cmd, "amrename", 8))
            && (HasChaining(Args(argv)) ==> MayChain(cmd))
  {
    hide StrCasePrefix, StrCaseEq, CrashVector, Arg, Args, HasCRLF, HasChaining, IsNumberChars, IsPathChars;
    var cmd, arg1, args := Arg(argv, 0, ARG_SIZE), Arg(argv, 1, ARG_SIZE), Args(argv);
    ArgsBound(argv);
    if StrCasePrefix(cmd, "am", 2) && |argv| == 2 && |arg1| <= 64 {
      CopiesCoincide(argv);
      if IsTokenChars(arg1) || IsMapChars(arg1) {
        TokenIsInert(arg1);
      }
    }
  }

  /** An allowed amrename answers for its first argument, all of it. */
  lemma AllowedRenameIsInert(argv: seq<string>, maxClients: int)
    requires !Decide(argv, maxClients).block && StrCasePrefix(Arg(argv, 0, ARG_SIZE), "amrename", 8)
    ensures |argv| >= 2 && 1 <= |argv[1]| <= 64 && !HasCRLF(argv[1]) && !HasChaining(argv[1])
  {
    hide StrCasePrefix, HasCRLF, HasChaining, IsTokenChars, IsMapChars, IsNumberChars, IsPathChars, Args;
    RenameIsRename(Arg(argv, 0, ARG_SIZE));
  }

  /** What the game reads of an allowed command other than amrename has a line break
      exactly when a hidden part has one; outside chat, logins and renames, a
      semicolon likewise. */
  lemma {:induction false} AllowedWholeIsInert(argv: seq<string>, maxClients: int)
    requires !Decide(argv, maxClients).block
    ensures var cmd := Arg(argv, 0, ARG_SIZE); var whole := Whole(argv, |argv|);
            && (!StrCasePrefix(cmd, "amrename", 8) ==>
                  (HasCRLF(whole) <==> Hidden(argv, '\r') || Hidden(argv, '\n')))
            && (!MayChain(cmd) ==> (HasChaining(whole) <==> Hidden(argv, ';')))
  {
    hide Decide, MayChain, StrCasePrefix, Hidden, Whole, Args;
    AllowedIsInert(argv, maxClients);
    WholeIsSeenOrHidden(argv, '\r');
    WholeIsSeenOrHidden(argv, '\n');
    WholeIsSeenOrHidden(argv, ';');
  }

  /** Hidden parts do get through: a chat line is judged by its first 255
      characters, whatever follows them. */
  lemma {:induction false} LongSayPasses(s: string, maxClients: int)
    requires |s| > TOK_SIZE - 1 && !HasCRLF(s[..TOK_SIZE - 1])
    ensures var argv := ["say", s];
            && !Decide(argv, maxClients).block
            && Args(argv) == s[..TOK_SIZE - 1] && Whole(argv, 2) == s
            && (HasCRLF(Whole(argv, 2)) <==> HasCRLF(s[TOK_SIZE - 1..]))
  {
    hide JAPlusBlock, HasChaining, Atol;
    var argv := ["say", s];
    var seen := s[..TOK_SIZE - 1];
    assert Arg(argv, 0, ARG_SIZE) == "say";
    assert JoinTo(argv, 2) == JoinTo(argv, 1) + "" + Arg(argv, 1, TOK_SIZE) && JoinTo(argv, 1) == "";
    assert Whole(argv, 2) == Whole(argv, 1) + "" + s && Whole(argv, 1) == "";
    assert Args(argv) == seen;
    SayIsChat();
    assert s == seen + s[TOK_SIZE - 1..];
  }

  lemma SayIsChat()
    ensures var c := "say";
            && StrCaseEq(c, "say", 3) && !StrCasePrefix(c, "am", 2) && !StrCasePrefix(c, "jkaDST_", 7)
            && !StrCaseEq(c, "gc", 2) && !StrCaseEq(c, "npc", 3) && !StrCaseEq(c, "team", 4)
            && !StrCaseEq(c, "callteamvote", 12) && !StrCaseEq(c, "callvote", 8)
  {
  }

  // ------------------------------------------------------------------
  // How long an allowed command can be
  // ------------------------------------------------------------------

  lemma ArgsBound(argv: seq<string>)
    ensures |Args(argv)| <= 1023
  {
  }

  /** An allowed sink gets exactly one argument, and the whole of it, not just the
      copy the filter looked at, is a short sanitised token. */
  lemma AllowedSinkIsOneToken(argv: seq<string>, maxClients: int)
    requires !Decide(argv, maxClients).block && IsSink(Arg(argv, 0, ARG_SIZE))
    ensures |argv| == 2 && Args(argv) == argv[1] && 1 <= |argv[1]| <= 64
    ensures if StrCasePrefix(Arg(argv, 0, ARG_SIZE), "amvstr", 6) then IsTokenChars(argv[1])
            else IsMapChars(argv[1])
  {
    hide StrCasePrefix, IsTokenChars, IsMapChars, Args;
    SinkIsAdmin(Arg(argv, 0, ARG_SIZE));
    SinksAreDistinct(Arg(argv, 0, ARG_SIZE));
    CopiesCoincide(argv);
  }

  /** How long the arguments of an allowed command can be. */
  function Cap(cmd: string): nat {
    if !StrCasePrefix(cmd, "am", 2) then (if IsChat(cmd) then 256 else 1023)
    else if IsSink(cmd) then 64
    else if StrCasePrefix(cmd, "amrename", 8) then 1023
    else if StrCasePrefix(cmd, "amlogin", 7) then 128
    else if StrCasePrefix(cmd, "amsay", 5) || StrCasePrefix(cmd, "ampsay", 6)
            || StrCasePrefix(cmd, "ampoll", 6) then 256
    else 512
  }

  /** What the game reads of an allowed command is longer than its class allows by at
      most what was hidden; and nothing is hidden of sinks and logins. */
  lemma {:induction false} AllowedIsShort(argv: seq<string>, maxClients: int)
    requires !Decide(argv, maxClients).block && NulFree(Arg(argv, 0, ARG_SIZE))
    ensures var cap := Cap(Arg(argv, 0, ARG_SIZE));
            && |Args(argv)| <= cap && |Whole(argv, |argv|)| <= cap + HiddenLength(argv)
            && (cap < TOK_SIZE - 1 ==> Args(argv) == Whole(argv, |argv|))
  {
    hide StrCasePrefix, StrCaseEq, CrashVector, HasCRLF, HasChaining, IsNumberChars, IsPathChars;
    hide Args, Arg, Whole, HiddenLength;
    var cmd := Arg(argv, 0, ARG_SIZE);
    ArgsBound(argv);
    AdminNamesDiffer(cmd);
    WholeIsSeenOrHidden(argv, ' ');
    if |Args(argv)| < TOK_SIZE - 1 { ShortIsWhole(argv); }
    if IsSink(cmd) { SinksAreDistinct(cmd); }
    if StrCasePrefix(cmd, "am", 2) {
      if |argv| == 2 && |Arg(argv, 1, ARG_SIZE)| <= 64 {
        CopiesCoincide(argv);
      }
    } else if IsChat(cmd) {
      ChatIsNotVote(cmd);
    }
  }

  // ------------------------------------------------------------------
  // The npc names
  // ------------------------------------------------------------------

  /** As with the cheat signature, one literal is longer than the length it is
      compared with: spawning saber_droi is blocked, saber_droid is not. */
  lemma SaberDroidMeaning(name: string)
    requires NulFree(name)
    ensures StrCaseEq(name, "saber_droid", 10) <==> SameFold(name, "saber_droi")
    ensures name == "saber_droid" ==> !StrCaseEq(name, "saber_droid", 10)
  {
    var w := "saber_droid";
    assert NulFree(w) && w[..10] == "saber_droi";
    EqMeaning(name, w, 10);
    if name == w {
      assert |LowerAll(w)| != |LowerAll(w[..10])|;
    }
  }
}
