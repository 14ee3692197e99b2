/**
  The policy of the client-command filter, command by command, in plain terms: what
  exactly blocks a command of each class, and what the numbers in it mean.
 */
module CommandPolicy {
  import opened CStrings
  import opened CharClasses
  import opened InfoString
  import opened CommandFilter
  import opened CommandTheory

  // ------------------------------------------------------------------
  // Numbers
  // ------------------------------------------------------------------

  /** The decimal digits of a number. */
  function Decimal(n: nat): (s: string)
    ensures s != "" && forall i | 0 <= i < |s| :: s[i] in "0123456789"
  {
    if n < 10 then ["0123456789"[n]] else Decimal(n / 10) + ["0123456789"[n % 10]]
  }

  predicate Starts(s: string, cs: string) { s != "" && s[0] in cs }

  /** The digits of a text, read after `acc`, when more text follows. */
  lemma {:induction false} DigitsConcat(a: string, b: string, acc: nat)
    requires forall i | 0 <= i < |a| :: a[i] in "0123456789"
    ensures Digits(a + b, acc) == Digits(b, Digits(a, acc))
  {
    if a == "" {
      assert a + b == b;
    } else {
      assert (a + b)[1..] == a[1..] + b && IsDigit(a[0]);
      DigitsConcat(a[1..], b, 10 * acc + (a[0] as int - '0' as int));
    }
  }

  lemma DigitValue(d: nat)
    requires d < 10
    ensures var c := "0123456789"[d]; IsDigit(c) && c as int - '0' as int == d
  {
  }

  lemma {:induction false} DigitsOfOne(c: char, acc: nat)
    requires IsDigit(c)
    ensures Digits([c], acc) == 10 * acc + (c as int - '0' as int)
  {
    assert [c][1..] == "" && Digits("", 10 * acc + (c as int - '0' as int)) == 10 * acc + (c as int - '0' as int);
  }

  lemma {:induction false} DigitsOfDecimal(n: nat)
    ensures Digits(Decimal(n), 0) == n
  {
    var d := "0123456789"[n % 10];
    DigitValue(n % 10);
    if n < 10 {
      DigitsOfOne(d, 0);
    } else {
      DigitsOfDecimal(n / 10);
      DigitsConcat(Decimal(n / 10), [d], 0);
      DigitsOfOne(d, n / 10);
    }
  }

  lemma DigitIsListed(c: char)
    requires IsDigit(c)
    ensures c in "0123456789"
  {
    assert "0123456789"[c as int - '0' as int] == c;
  }

  lemma {:induction false} DigitsStop(rest: string, acc: nat)
    requires !Starts(rest, "0123456789")
    ensures Digits(rest, acc) == acc
  {
    if rest != "" && IsDigit(rest[0]) { DigitIsListed(rest[0]); }
  }

  /** What `atoi` is for: leading white space, a sign, digits, anything else. */
  function Saturated(n: int): int {
    if n > 2147483647 then 2147483647 else if n < -2147483648 then -2147483648 else n
  }

  predicate IsBlankText(s: string) {
    forall i | 0 <= i < |s| :: s[i] in {' ', '\t', '\n', '\r', 11 as char, 12 as char}
  }

  lemma {:induction false} AtolSkips(blanks: string, s: string)
    requires IsBlankText(blanks)
    ensures Atol(blanks + s) == Atol(s)
  {
    if blanks == "" {
      assert blanks + s == s;
    } else {
      assert (blanks + s)[1..] == blanks[1..] + s;
      AtolSkips(blanks[1..], s);
    }
  }

  lemma {:induction false} DigitsThenRest(n: nat, rest: string)
    requires !Starts(rest, "0123456789")
    ensures Digits(Decimal(n) + rest, 0) == n
    ensures IsDigit((Decimal(n) + rest)[0])
  {
    DigitsConcat(Decimal(n), rest, 0);
    DigitsOfDecimal(n);
    DigitsStop(rest, n);
    var c := Decimal(n)[0];
    var k :| 0 <= k < 10 && "0123456789"[k] == c;
    DigitValue(k);
  }

  /** The number in a decimal text, with blanks before it, a sign, and anything but a
      digit behind it, is the number, cut to 32 bits. */
  lemma AtolOfDecimal(blanks: string, n: nat, rest: string)
    requires IsBlankText(blanks) && !Starts(rest, "0123456789")
    ensures Atol(blanks + (Decimal(n) + rest)) == Saturated(n)
    ensures Atol(blanks + ("+" + (Decimal(n) + rest))) == Saturated(n)
    ensures Atol(blanks + ("-" + (Decimal(n) + rest))) == Saturated(0 - n)
  {
    var s := Decimal(n) + rest;
    DigitsThenRest(n, rest);
    AtolSkips(blanks, s);
    AtolSkips(blanks, "+" + s);
    AtolSkips(blanks, "-" + s);
    assert ("+" + s)[1..] == s && ("-" + s)[1..] == s;
  }

  /** A text without a number counts as zero. */
  lemma {:induction false} AtolOfText(blanks: string, s: string)
    requires IsBlankText(blanks) && (s == "" || (s[0] !in "0123456789" && s[0] !in {'+', '-'} && !IsBlankText(s[..1])))
    ensures Atol(blanks + s) == 0
  {
    AtolSkips(blanks, s);
    if s != "" {
      assert s[..1][0] == s[0];
      DigitsStop(s, 0);
    }
  }

  // ------------------------------------------------------------------
  // Classes of commands
  // ------------------------------------------------------------------

  /** Starts with the word, in any case. */
  predicate Begins(s: string, word: string) { |word| <= |s| && SameFold(s[..|word|], word) }

  /** What the filter sees of a token: its first 127 characters. */
  function Token(argv: seq<string>, n: nat): string {
    if n >= |argv| then "" else if |argv[n]| <= 127 then argv[n] else argv[n][..127]
  }

  predicate NulFreeTokens(argv: seq<string>) { forall i | 0 <= i < |argv| :: NulFree(argv[i]) }

  predicate LineBreak(s: string) { '\n' in s || '\r' in s }

  lemma TokenIsArg(argv: seq<string>, n: nat)
    ensures Arg(argv, n, ARG_SIZE) == Token(argv, n)
    ensures NulFreeTokens(argv) ==> NulFree(Token(argv, n))
  {
  }

  lemma BeginsIff(s: string, word: string)
    requires NulFree(s) && NulFree(word)
    ensures StrCasePrefix(s, word, |word|) <==> Begins(s, word)
  {
    PrefixMeaning(s, word, |word|);
    assert word[..|word|] == word;
  }

  lemma IsIff(s: string, word: string)
    requires NulFree(s) && NulFree(word)
    ensures StrCaseEq(s, word, |word|) <==> SameFold(s, word)
  {
    EqMeaning(s, word, |word|);
    assert word[..|word|] == word;
  }

  // ------------------------------------------------------------------
  // JA+ commands
  // ------------------------------------------------------------------

  /** The third and fourth characters tell the commands apart. */
  lemma ThirdFourth(cmd: string, word: string)
    requires NulFree(cmd) && NulFree(word) && |word| >= 4
    ensures StrCasePrefix(cmd, word, |word|) <==> Begins(cmd, word)
    ensures Begins(cmd, word) ==>
              |cmd| >= 4 && Lower(cmd[2]) == Lower(word[2]) && Lower(cmd[3]) == Lower(word[3])
  {
    BeginsIff(cmd, word);
    if Begins(cmd, word) {
      assert LowerAll(cmd[..|word|])[2] == LowerAll(word)[2] && LowerAll(cmd[..|word|])[3] == LowerAll(word)[3];
    }
  }

  function Key(cmd: string): (char, char) {
    if |cmd| < 4 then ('.', '.') else (Lower(cmd[2]), Lower(cmd[3]))
  }

  lemma WordsDiffer(cmd: string)
    requires NulFree(cmd)
    ensures StrCasePrefix(cmd, "amsay", 5) == Begins(cmd, "amsay")
    ensures StrCasePrefix(cmd, "ampsay", 6) == Begins(cmd, "ampsay")
    ensures StrCasePrefix(cmd, "amvstr", 6) == Begins(cmd, "amvstr")
    ensures StrCasePrefix(cmd, "ammap", 5) == Begins(cmd, "ammap")
    ensures StrCasePrefix(cmd, "amlogin", 7) == Begins(cmd, "amlogin")
    ensures StrCasePrefix(cmd, "amrename", 8) == Begins(cmd, "amrename")
    ensures StrCasePrefix(cmd, "amtele", 6) == Begins(cmd, "amtele")
    ensures StrCasePrefix(cmd, "amtelemark", 10) == Begins(cmd, "amtelemark")
    ensures StrCasePrefix(cmd, "amorigin", 8) == Begins(cmd, "amorigin")
    ensures StrCasePrefix(cmd, "amplayefx", 9) == Begins(cmd, "amplayefx")
    ensures StrCasePrefix(cmd, "amweather", 9) == Begins(cmd, "amweather")
    ensures StrCasePrefix(cmd, "ampoll", 6) == Begins(cmd, "ampoll")
    ensures Begins(cmd, "amsay") ==> Key(cmd) == ('s', 'a')
    ensures Begins(cmd, "ampsay") ==> Key(cmd) == ('p', 's')
    ensures Begins(cmd, "amvstr") ==> Key(cmd) == ('v', 's')
    ensures Begins(cmd, "ammap") ==> Key(cmd) == ('m', 'a')
    ensures Begins(cmd, "amlogin") ==> Key(cmd) == ('l', 'o')
    ensures Begins(cmd, "amrename") ==> Key(cmd) == ('r', 'e')
    ensures Begins(cmd, "amtele") || Begins(cmd, "amtelemark") ==> Key(cmd) == ('t', 'e')
    ensures Begins(cmd, "amorigin") ==> Key(cmd) == ('o', 'r')
    ensures Begins(cmd, "amplayefx") ==> Key(cmd) == ('p', 'l')
    ensures Begins(cmd, "amweather") ==> Key(cmd) == ('w', 'e')
    ensures Begins(cmd, "ampoll") ==> Key(cmd) == ('p', 'o')
  {
    hide Begins, StrCasePrefix;
    ThirdFourth(cmd, "amsay");
    ThirdFourth(cmd, "ampsay");
    ThirdFourth(cmd, "amvstr");
    ThirdFourth(cmd, "ammap");
    ThirdFourth(cmd, "amlogin");
    ThirdFourth(cmd, "amrename");
    ThirdFourth(cmd, "amtele");
    ThirdFourth(cmd, "amtelemark");
    ThirdFourth(cmd, "amorigin");
    ThirdFourth(cmd, "amplayefx");
    ThirdFourth(cmd, "amweather");
    ThirdFourth(cmd, "ampoll");
  }

  /** What blocks a JA+ command, class by class.  Chat and logins may hold anything but
      line breaks; the two that execute their argument take one clean token; the
      others neither line breaks nor semicolons; each has its size. */
  lemma AdminPolicy(argv: seq<string>, maxClients: int)
    requires NulFreeTokens(argv) && Begins(Token(argv, 0), "am")
    ensures var cmd, args, arg1 := Token(argv, 0), Args(argv), Token(argv, 1);
            var d := Decide(argv, maxClients);
            var inert := !LineBreak(args) && ';' !in args;
            && !d.kick
            && (Begins(cmd, "amsay") || Begins(cmd, "ampsay") ==> (!d.block <==> !LineBreak(args) && |args| <= 256))
            && (Begins(cmd, "amvstr") ==>
                  (!d.block <==> |argv| == 2 && 1 <= |arg1| <= 64 && forall i | 0 <= i < |arg1| :: WordChar(arg1[i])))
            && (Begins(cmd, "ammap") ==>
                  (!d.block <==> && |argv| == 2 && 1 <= |arg1| <= 64 && FileText(arg1) && arg1 != ".."
                                 && forall i :: !ThreeAt(arg1, i, '.', '.', '/')))
            && (Begins(cmd, "amlogin") ==> (!d.block <==> !LineBreak(args) && |args| <= 128))
            && (Begins(cmd, "amrename") ==>
                  (!d.block <==> 1 <= |arg1| <= 64 && !LineBreak(arg1) && ';' !in arg1))
            && (Begins(cmd, "amtele") || Begins(cmd, "amtelemark") || Begins(cmd, "amorigin") ==>
                  (!d.block <==> |args| <= 512 && forall i | 0 <= i < |args| :: Digit(args[i]) || args[i] in "-+. \t"))
            && (Begins(cmd, "amplayefx") || Begins(cmd, "amweather") ==>
                  (!d.block <==> && inert && |args| <= 512 && arg1 != "" && FileText(arg1)
                                 && forall i :: !ThreeAt(arg1, i, '.', '.', '/')))
            && (Begins(cmd, "ampoll") ==> (!d.block <==> inert && |args| <= 256))
            && (PlainAdmin(cmd) ==> (!d.block <==> inert && |args| <= 512))
  {
    hide Begins, StrCasePrefix, IsTokenChars, IsMapChars, IsPathChars, IsNumberChars, Args, Arg, VanillaBlock, FileText;
    hide ThreeAt, WordChar;
    var cmd, args, arg1 := Token(argv, 0), Args(argv), Token(argv, 1);
    TokenIsArg(argv, 0);
    TokenIsArg(argv, 1);
    BeginsIff(cmd, "am");
    WordsDiffer(cmd);
    TokenCharsMean(arg1);
    MapCharsMean(arg1);
    PathCharsMean(arg1);
    NumberCharsMean(args);
    if IsNumberChars(args) { NumbersAreInert(args); }
  }

  lemma NumbersAreInert(s: string)
    requires IsNumberChars(s)
    ensures !LineBreak(s) && ';' !in s
  {
  }

  /** A JA+ command with no rule of its own. */
  predicate PlainAdmin(cmd: string) {
    && !Begins(cmd, "amsay") && !Begins(cmd, "ampsay") && !Begins(cmd, "amvstr") && !Begins(cmd, "ammap")
    && !Begins(cmd, "amlogin") && !Begins(cmd, "amrename") && !Begins(cmd, "amtele") && !Begins(cmd, "amtelemark")
    && !Begins(cmd, "amorigin") && !Begins(cmd, "amplayefx") && !Begins(cmd, "amweather") && !Begins(cmd, "ampoll")
  }

  // ------------------------------------------------------------------
  // Base game commands
  // ------------------------------------------------------------------

  /** The number the base game reads in a token cut at `n` characters. */
  function Number(argv: seq<string>, i: nat, n: nat): int
    requires n > 0
  {
    Atol(if i < |argv| then Take(argv[i], n) else "")
  }

  /** The limits of a vote. */
  predicate InLimits(what: string, v: int) {
    && (SameFold(what, "capturelimit") || SameFold(what, "fraglimit") ==> v >= 0)
    && (SameFold(what, "g_doWarmup") ==> 0 <= v <= 1)
    && (SameFold(what, "map_restart") ==> 0 <= v <= 60)
    && (SameFold(what, "timelimit") ==> 0 <= v <= 35790)
  }

  predicate IsSpecial(cmd: string) {
    || SameFold(cmd, "gc") || SameFold(cmd, "npc") || SameFold(cmd, "team") || SameFold(cmd, "callteamvote")
    || SameFold(cmd, "callvote") || SameFold(cmd, "say") || SameFold(cmd, "say_team") || SameFold(cmd, "tell")
  }

  lemma FoldLength(a: string, b: string)
    requires SameFold(a, b)
    ensures |a| == |b|
  {
    assert |LowerAll(a)| == |LowerAll(b)|;
  }

  lemma FoldAt(a: string, b: string, i: nat)
    requires SameFold(a, b) && i < |a|
    ensures |a| == |b| && Lower(a[i]) == Lower(b[i])
  {
    FoldLength(a, b);
    assert LowerAll(a)[i] == LowerAll(b)[i];
  }

  /** Length and first character tell the base game's commands apart. */
  lemma FoldHead(cmd: string, word: string)
    requires NulFree(cmd) && NulFree(word) && word != ""
    ensures StrCaseEq(cmd, word, |word|) <==> SameFold(cmd, word)
    ensures SameFold(cmd, word) ==> |cmd| == |word| && Lower(cmd[0]) == Lower(word[0])
    ensures SameFold(cmd, word) && |word| >= 3 ==> Lower(cmd[2]) == Lower(word[2])
  {
    IsIff(cmd, word);
    if SameFold(cmd, word) {
      FoldLength(cmd, word);
      FoldAt(cmd, word, 0);
      if |word| >= 3 { FoldAt(cmd, word, 2); }
    }
  }

  lemma JkaHead(cmd: string)
    requires NulFree(cmd)
    ensures StrCasePrefix(cmd, "jkaDST_", 7) <==> Begins(cmd, "jkaDST_")
    ensures Begins(cmd, "jkaDST_") ==> |cmd| >= 7 && Lower(cmd[0]) == 'j'
  {
    BeginsIff(cmd, "jkaDST_");
    var w := "jkaDST_";
    if Begins(cmd, w) {
      FoldAt(cmd[..7], w, 0);
    }
  }

  lemma CommandsDiffer(cmd: string)
    requires NulFree(cmd)
    ensures StrCaseEq(cmd, "gc", 2) == SameFold(cmd, "gc") && StrCaseEq(cmd, "npc", 3) == SameFold(cmd, "npc")
    ensures StrCaseEq(cmd, "team", 4) == SameFold(cmd, "team")
    ensures StrCaseEq(cmd, "callteamvote", 12) == SameFold(cmd, "callteamvote")
    ensures StrCaseEq(cmd, "callvote", 8) == SameFold(cmd, "callvote")
    ensures StrCaseEq(cmd, "say", 3) == SameFold(cmd, "say") && StrCaseEq(cmd, "tell", 4) == SameFold(cmd, "tell")
    ensures StrCaseEq(cmd, "say_team", 8) == SameFold(cmd, "say_team")
    ensures StrCasePrefix(cmd, "jkaDST_", 7) == Begins(cmd, "jkaDST_")
    ensures IsSpecial(cmd) ==> !Begins(cmd, "jkaDST_")
    ensures SameFold(cmd, "gc") ==> Shape(cmd) == (2, 'g', '.')
    ensures SameFold(cmd, "npc") ==> Shape(cmd) == (3, 'n', 'c')
    ensures SameFold(cmd, "say") ==> Shape(cmd) == (3, 's', 'y')
    ensures SameFold(cmd, "team") ==> Shape(cmd) == (4, 't', 'a')
    ensures SameFold(cmd, "tell") ==> Shape(cmd) == (4, 't', 'l')
    ensures SameFold(cmd, "callvote") ==> Shape(cmd) == (8, 'c', 'l')
    ensures SameFold(cmd, "say_team") ==> Shape(cmd) == (8, 's', 'y')
    ensures SameFold(cmd, "callteamvote") ==> Shape(cmd) == (12, 'c', 'l')
  {
    hide SameFold, Begins, StrCaseEq, StrCasePrefix;
    JkaHead(cmd);
    FoldHead(cmd, "gc");
    FoldHead(cmd, "npc");
    FoldHead(cmd, "team");
    FoldHead(cmd, "callteamvote");
    FoldHead(cmd, "callvote");
    FoldHead(cmd, "say");
    FoldHead(cmd, "say_team");
    FoldHead(cmd, "tell");
  }

  function Shape(cmd: string): (nat, char, char) {
    (|cmd|, if cmd == "" then '.' else Lower(cmd[0]), if |cmd| < 3 then '.' else Lower(cmd[2]))
  }

  /** What blocks a command of the base game, command by command. */
  lemma BasePolicy(argv: seq<string>, maxClients: int)
    requires NulFreeTokens(argv) && !Begins(Token(argv, 0), "am")
    ensures var cmd, args, arg1, arg2 := Token(argv, 0), Args(argv), Token(argv, 1), Token(argv, 2);
            var d := Decide(argv, maxClients);
            var inert := !LineBreak(args) && ';' !in args;
            && (d.kick <==> Begins(cmd, "jkaDST_")) && (d.kick ==> d.block)
            && (SameFold(cmd, "gc") ==> (!d.block <==> inert && 0 <= Number(argv, 1, 127) < maxClients))
            && (SameFold(cmd, "npc") ==>
                  (!d.block <==>
                   inert && !(SameFold(arg1, "spawn") && (SameFold(arg2, "ragnos") || SameFold(arg2, "saber_droi")))))
            && (SameFold(cmd, "team") ==>
                  (!d.block <==> inert && !SameFold(arg1, "follow1") && !SameFold(arg1, "follow2")))
            && (SameFold(cmd, "callteamvote") ==> d.block)
            && (SameFold(cmd, "callvote") ==> (!d.block <==> inert && InLimits(arg1, Number(argv, 2, 255))))
            && (SameFold(cmd, "say") || SameFold(cmd, "say_team") || SameFold(cmd, "tell") ==>
                  (!d.block <==> !LineBreak(args) && |args| <= 256))
            && (!IsSpecial(cmd) && !Begins(cmd, "jkaDST_") ==> (!d.block <==> inert))
  {
    hide SameFold, Begins, StrCaseEq, StrCasePrefix, Atol, Args, Arg, Shape, VoteOk, InLimits;
    var cmd, arg1, arg2 := Token(argv, 0), Token(argv, 1), Token(argv, 2);
    TokenIsArg(argv, 0);
    TokenIsArg(argv, 1);
    TokenIsArg(argv, 2);
    BeginsIff(cmd, "am");
    CommandsDiffer(cmd);
    NumbersRead(argv);
    VoteMeans(arg1, Number(argv, 2, 255));
    NpcMeans(arg1, arg2);
    IsIff(arg1, "follow1");
    IsIff(arg1, "follow2");
  }

  lemma NumbersRead(argv: seq<string>)
    ensures Atol(Arg(argv, 1, ARG_SIZE)) == Number(argv, 1, 127)
    ensures Atol(Arg(argv, 2, TOK_SIZE)) == Number(argv, 2, 255) && |Arg(argv, 2, TOK_SIZE)| < 256
  {
  }

  lemma NpcMeans(arg1: string, arg2: string)
    requires NulFree(arg1) && NulFree(arg2)
    ensures StrCaseEq(arg1, "spawn", 5) <==> SameFold(arg1, "spawn")
    ensures StrCaseEq(arg2, "ragnos", 6) <==> SameFold(arg2, "ragnos")
    ensures StrCaseEq(arg2, "saber_droid", 10) <==> SameFold(arg2, "saber_droi")
  {
    IsIff(arg1, "spawn");
    IsIff(arg2, "ragnos");
    SaberDroidMeaning(arg2);
  }

  lemma VoteMeans(what: string, v: int)
    requires NulFree(what)
    ensures VoteOk(what, v) <==> InLimits(what, v)
  {
    hide SameFold, StrCaseEq;
    IsIff(what, "capturelimit");
    IsIff(what, "fraglimit");
    IsIff(what, "g_doWarmup");
    IsIff(what, "map_restart");
    IsIff(what, "timelimit");
    VotesDiffer(what);
  }

  lemma VotesDiffer(what: string)
    ensures SameFold(what, "capturelimit") ==> |what| == 12
    ensures SameFold(what, "g_doWarmup") ==> |what| == 10
    ensures SameFold(what, "map_restart") ==> |what| == 11
    ensures SameFold(what, "fraglimit") ==> |what| == 9 && Lower(what[0]) == 'f'
    ensures SameFold(what, "timelimit") ==> |what| == 9 && Lower(what[0]) == 't'
  {
    hide SameFold;
    if SameFold(what, "capturelimit") { FoldLength(what, "capturelimit"); }
    if SameFold(what, "g_doWarmup") { FoldLength(what, "g_doWarmup"); }
    if SameFold(what, "map_restart") { FoldLength(what, "map_restart"); }
    if SameFold(what, "fraglimit") {
      FoldLength(what, "fraglimit");
      FoldAt(what, "fraglimit", 0);
    }
    if SameFold(what, "timelimit") {
      FoldLength(what, "timelimit");
      FoldAt(what, "timelimit", 0);
    }
  }

  // ------------------------------------------------------------------
  // Numbers in commands
  // ------------------------------------------------------------------

  /** A text of blanks, a sign and digits for the number `n`. */
  function Numeral(n: int): string {
    if n < 0 then "-" + Decimal(0 - n) else Decimal(n)
  }

  /** An allowed gc names a client; an allowed vote keeps its limits. */
  lemma NumbersAreKept(argv: seq<string>, maxClients: int, n: int)
    requires NulFreeTokens(argv) && |argv| >= 2 && 0 - 0x8000_0000 <= n < 0x8000_0000
    requires !Decide(argv, maxClients).block
    ensures SameFold(argv[0], "gc") && argv[1] == Numeral(n) ==> 0 <= n < maxClients
    ensures SameFold(argv[0], "callvote") && |argv| >= 3 && |argv[1]| <= 127 && argv[2] == Numeral(n) ==>
              InLimits(argv[1], n)
  {
    hide SameFold, Atol, InLimits, Args, Begins;
    NumeralReads(n);
    if SameFold(argv[0], "gc") || SameFold(argv[0], "callvote") {
      ShortName(argv);
      BasePolicy(argv, maxClients);
    }
  }

  function Pow10(k: nat): nat { if k == 0 then 1 else 10 * Pow10(k - 1) }

  lemma {:induction false} DecimalLength(n: nat, k: nat)
    requires k > 0 && n < Pow10(k)
    ensures |Decimal(n)| <= k
  {
    if n >= 10 {
      DecimalLength(n / 10, k - 1);
    }
  }

  lemma TenDigits()
    ensures Pow10(10) == 10_000_000_000
  {
    assert Pow10(2) == 100 && Pow10(4) == 10_000 && Pow10(6) == 1_000_000 && Pow10(8) == 100_000_000;
  }

  lemma NumeralReads(n: int)
    requires 0 - 0x8000_0000 <= n < 0x8000_0000
    ensures Atol(Numeral(n)) == n && |Numeral(n)| <= 11
  {
    hide Atol;
    var m := if n < 0 then 0 - n else n;
    assert Pow10(10) == 10_000_000_000 by { TenDigits(); }
    DecimalLength(m, 10);
    AtolOfDecimal("", m, "");
    assert "" + (Decimal(m) + "") == Decimal(m) && "" + ("-" + (Decimal(m) + "")) == "-" + Decimal(m);
  }

  lemma ShortName(argv: seq<string>)
    requires |argv| > 0 && (SameFold(argv[0], "gc") || SameFold(argv[0], "callvote"))
    ensures Token(argv, 0) == argv[0] && !Begins(argv[0], "am")
  {
    var a, b, w := "gc", "callvote", "am";
    if SameFold(argv[0], a) {
      FoldAt(argv[0], a, 0);
    } else {
      FoldLength(argv[0], b);
      FoldAt(argv[0], b, 0);
    }
    if Begins(argv[0], w) { FoldAt(argv[0][..2], w, 0); }
  }
}
