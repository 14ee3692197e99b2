/**
  The client-command filter: join the argument tokens into a bounded buffer, then
  apply the policy for JA+ `am*` commands or for the base game.

  `argv` is the engine's token list; `Engine_Argv` copies at most `cap - 1`
  characters of a token.  Cvar values are parameters.
 */
module CommandFilter {
  import opened CStrings
  import opened InfoString

  const ARGS_SIZE: nat := 1024
  const TOK_SIZE: nat := 256
  const ARG_SIZE: nat := 128

  /** `Engine_Argv(n, buf, cap)`. */
  function Arg(argv: seq<string>, n: nat, cap: nat): string
    requires cap > 0
  {
    if n < |argv| then Take(argv[n], cap - 1) else ""
  }

  // ------------------------------------------------------------------
  // Joining the arguments
  // ------------------------------------------------------------------

  /** Tokens 1 to i - 1, each cut at 255 characters, with single spaces between. */
  function JoinTo(argv: seq<string>, i: nat): string {
    if i <= 1 then ""
    else JoinTo(argv, i - 1) + (if i > 2 then " " else "") + Arg(argv, i - 1, TOK_SIZE)
  }

  /** What the filter sees of the arguments. */
  function Args(argv: seq<string>): string {
    Take(JoinTo(argv, |argv|), ARGS_SIZE - 1)
  }

  lemma {:induction false} JoinGrows(argv: seq<string>, i: nat, j: nat)
    requires i <= j
    ensures JoinTo(argv, i) <= JoinTo(argv, j)
  {
    if i < j {
      JoinGrows(argv, i, j - 1);
    }
  }

  lemma TakeOfPrefix(a: string, b: string, n: nat)
    requires a <= b && |Take(a, n)| == n
    ensures Take(a, n) == Take(b, n)
  {
  }

  lemma TakeConcat(a: string, b: string, n: nat)
    requires |a| <= n
    ensures Take(a + b, n) == a + Take(b, n - |a|)
  {
  }

  method JoinArgs(argv: seq<string>, args: array<char>)
    requires args.Length == ARGS_SIZE && forall i | 0 <= i < |argv| :: NulFree(argv[i])
    modifies args
    ensures CStr(args[..]) == Args(argv)
  {
    hide JoinTo, CStr;
    var argc, i, len := |argv|, 1, 0;
    args[0] := NUL;
    JoinNothing(argv);
    while i < argc && len < ARGS_SIZE - 1
      invariant 1 <= i && (i <= argc || i == 1) && 0 <= len <= ARGS_SIZE - 1
      invariant args[..len] == Take(JoinTo(argv, i), ARGS_SIZE - 1)
      invariant NulFree(args[..len])
      decreases argc - i
    {
      var tok := Arg(argv, i, TOK_SIZE);
      JoinStep(argv, i);
      if i > 1 && len < ARGS_SIZE - 1 {
        args[len] := ' ';
        len := len + 1;
        assert args[..len] == JoinTo(argv, i) + " ";
      }
      ghost var here := args[..len];
      var room := ARGS_SIZE - 1 - len;
      Append(args, len, Take(tok, room));
      len := len + |Take(tok, room)|;
      TakeConcat(here, tok, ARGS_SIZE - 1);
      NulFreeConcat(here, Take(tok, room));
      i := i + 1;
    }
    JoinDone(argv, i, args[..len]);
    args[len] := NUL;
    CStrIs(args[..], Args(argv));
  }

  /** The loop stops at the last token or when the buffer is full. */
  lemma {:induction false} JoinDone(argv: seq<string>, i: nat, got: string)
    requires 1 <= i && (i <= |argv| || i == 1) && got == Take(JoinTo(argv, i), ARGS_SIZE - 1)
    requires i >= |argv| || |got| == ARGS_SIZE - 1
    ensures got == Args(argv)
  {
    JoinNothing(argv);
    if i < |argv| {
      JoinGrows(argv, i, |argv|);
      TakeOfPrefix(JoinTo(argv, i), JoinTo(argv, |argv|), ARGS_SIZE - 1);
    }
  }

  lemma {:induction false} JoinNothing(argv: seq<string>)
    ensures JoinTo(argv, 1) == "" && JoinTo(argv, 0) == ""
  {
  }

  lemma JoinStep(argv: seq<string>, i: nat)
    requires i >= 1
    ensures JoinTo(argv, i + 1)
            == JoinTo(argv, i) + (if i > 1 then " " else "") + Arg(argv, i, TOK_SIZE)
  {
  }

  // ------------------------------------------------------------------
  // JA+ commands
  // ------------------------------------------------------------------

  /** `JAPlusBlock`; only called for commands that start with "am". */
  predicate JAPlusBlock(cmd: string, args: string, argc: nat, arg1: string) {
    if StrCasePrefix(cmd, "amsay", 5) || StrCasePrefix(cmd, "ampsay", 6) then
      HasCRLF(args) || |args| > 256
    else if StrCasePrefix(cmd, "amvstr", 6) then
      !(argc == 2 && arg1 != "" && |arg1| <= 64 && IsTokenChars(arg1))
    else if StrCasePrefix(cmd, "ammap", 5) then
      !(argc == 2 && arg1 != "" && |arg1| <= 64 && IsMapChars(arg1))
    else if StrCasePrefix(cmd, "amlogin", 7) then
      HasCRLF(args) || |args| > 128
    else if StrCasePrefix(cmd, "amrename", 8) then
      arg1 == "" || HasCRLF(arg1) || HasChaining(arg1) || |arg1| > 64
    else if StrCasePrefix(cmd, "amtele", 6) || StrCasePrefix(cmd, "amtelemark", 10)
            || StrCasePrefix(cmd, "amorigin", 8) then
      HasCRLF(args) || HasChaining(args) || |args| > 512 || !IsNumberChars(args)
    else if StrCasePrefix(cmd, "amplayefx", 9) || StrCasePrefix(cmd, "amweather", 9) then
      arg1 == "" || HasCRLF(args) || HasChaining(args) || |args| > 512 || !IsPathChars(arg1)
    else if StrCasePrefix(cmd, "ampoll", 6) then
      HasCRLF(args) || HasChaining(args) || |args| > 256
    else
      HasCRLF(args) || HasChaining(args) || |args| > 512
  }

  // ------------------------------------------------------------------
  // Base game commands
  // ------------------------------------------------------------------

  predicate IsSpace(c: char) { c as int == 32 || 9 <= c as int <= 13 }

  predicate IsDigit(c: char) { '0' <= c <= '9' }

  function Digits(s: string, acc: nat): nat {
    if s != "" && IsDigit(s[0]) then Digits(s[1..], 10 * acc + (s[0] as int - '0' as int)) else acc
  }

  function Clamp32(x: int): int {
    if x > 0x7fff_ffff then 0x7fff_ffff else if x < -0x8000_0000 then -0x8000_0000 else x
  }

  /** `atoi` and `atol` of the 32-bit C library. */
  function Atol(s: string): int {
    if s == "" then 0
    else if IsSpace(s[0]) then Atol(s[1..])
    else if s[0] == '-' then Clamp32(0 - Digits(s[1..], 0))
    else if s[0] == '+' then Clamp32(Digits(s[1..], 0))
    else Clamp32(Digits(s, 0))
  }

  /** `kick`: the client is also announced and dropped. */
  datatype Decision = Decision(block: bool, kick: bool)

  /** The numeric limits on `callvote`. */
  predicate VoteOk(arg1: string, v: int) {
    if StrCaseEq(arg1, "capturelimit", 12) || StrCaseEq(arg1, "fraglimit", 9) then v >= 0
    else if StrCaseEq(arg1, "g_doWarmup", 10) then 0 <= v <= 1
    else if StrCaseEq(arg1, "map_restart", 11) then 0 <= v <= 60
    else if StrCaseEq(arg1, "timelimit", 9) then 0 <= v <= 35790
    else true
  }

  predicate IsChat(cmd: string) {
    StrCaseEq(cmd, "say", 3) || StrCaseEq(cmd, "say_team", 8) || StrCaseEq(cmd, "tell", 4)
  }

  /** The commands that crash the game or its clients. */
  predicate CrashVector(cmd: string, arg1: string, npc1: string, npc2: string, maxClients: int) {
    || (StrCaseEq(cmd, "gc", 2) && !(0 <= Atol(arg1) < maxClients))
    || (StrCaseEq(cmd, "npc", 3) && StrCaseEq(npc1, "spawn", 5)
        && (StrCaseEq(npc2, "ragnos", 6) || StrCaseEq(npc2, "saber_droid", 10)))
    || (StrCaseEq(cmd, "team", 4) && (StrCaseEq(arg1, "follow1", 7) || StrCaseEq(arg1, "follow2", 7)))
    || StrCaseEq(cmd, "callteamvote", 12)
  }

  function VanillaBlock(cmd: string, args: string, arg1: string, arg2: string,
                        npc1: string, npc2: string, maxClients: int): Decision {
    if StrCasePrefix(cmd, "jkaDST_", 7) then Decision(true, true)
    else if CrashVector(cmd, arg1, npc1, npc2, maxClients) then Decision(true, false)
    else if StrCaseEq(cmd, "callvote", 8) then
      Decision(|arg2| >= 256 || !VoteOk(arg1, Atol(arg2)) || HasCRLF(args) || HasChaining(args), false)
    else if IsChat(cmd) then Decision(HasCRLF(args) || |args| > 256, false)
    else Decision(HasCRLF(args) || HasChaining(args), false)
  }

  method RunVanillaBlock(argv: seq<string>, cmd: string, args: string, arg1: string, arg2: string, maxClients: int)
    returns (d: Decision)
    ensures d == VanillaBlock(cmd, args, arg1, arg2, Arg(argv, 1, ARG_SIZE), Arg(argv, 2, ARG_SIZE), maxClients)
  {
    hide StrCaseEq, StrCasePrefix, HasCRLF, HasChaining, Atol;
    if StrCasePrefix(cmd, "jkaDST_", 7) {
      return Decision(true, true);
    }
    if StrCaseEq(cmd, "gc", 2) {
      var slot := Atol(arg1);
      if slot < 0 || slot >= maxClients {
        return Decision(true, false);
      }
    }
    if StrCaseEq(cmd, "npc", 3) {
      var a1 := Arg(argv, 1, ARG_SIZE);
      var a2 := Arg(argv, 2, ARG_SIZE);
      if StrCaseEq(a1, "spawn", 5) && (StrCaseEq(a2, "ragnos", 6) || StrCaseEq(a2, "saber_droid", 10)) {
        return Decision(true, false);
      }
    }
    if StrCaseEq(cmd, "team", 4) && (StrCaseEq(arg1, "follow1", 7) || StrCaseEq(arg1, "follow2", 7)) {
      return Decision(true, false);
    }
    if StrCaseEq(cmd, "callteamvote", 12) {
      return Decision(true, false);
    }
    if StrCaseEq(cmd, "callvote", 8) {
      if |arg2| >= 256 {
        return Decision(true, false);
      }
      var v := Atol(arg2);
      if StrCaseEq(arg1, "capturelimit", 12) || StrCaseEq(arg1, "fraglimit", 9) {
        if v < 0 {
          return Decision(true, false);
        }
      } else if StrCaseEq(arg1, "g_doWarmup", 10) {
        if v < 0 || v > 1 {
          return Decision(true, false);
        }
      } else if StrCaseEq(arg1, "map_restart", 11) {
        if v < 0 || v > 60 {
          return Decision(true, false);
        }
      } else if StrCaseEq(arg1, "timelimit", 9) {
        if v < 0 || v > 35790 {
          return Decision(true, false);
        }
      }
      if HasCRLF(args) || HasChaining(args) {
        return Decision(true, false);
      }
      return Decision(false, false);
    }
    if StrCaseEq(cmd, "say", 3) || StrCaseEq(cmd, "say_team", 8) || StrCaseEq(cmd, "tell", 4) {
      return Decision(HasCRLF(args) || |args| > 256, false);
    }
    d := Decision(HasCRLF(args) || HasChaining(args), false);
  }

  // ------------------------------------------------------------------
  // The filter
  // ------------------------------------------------------------------

  function Decide(argv: seq<string>, maxClients: int): Decision {
    var arg0 := Arg(argv, 0, ARG_SIZE);
    var arg1 := Arg(argv, 1, ARG_SIZE);
    if StrCasePrefix(arg0, "am", 2) then Decision(JAPlusBlock(arg0, Args(argv), |argv|, arg1), false)
    else VanillaBlock(arg0, Args(argv), arg1, Arg(argv, 2, TOK_SIZE),
                      Arg(argv, 1, ARG_SIZE), Arg(argv, 2, ARG_SIZE), maxClients)
  }

  /** `ShouldBlockClientCommand`. */
  method ShouldBlockClientCommand(argv: seq<string>, maxClients: int) returns (d: Decision)
    requires forall i | 0 <= i < |argv| :: NulFree(argv[i])
    ensures d == Decide(argv, maxClients)
  {
    hide JAPlusBlock, VanillaBlock, Arg, Args, StrCasePrefix;
    var arg0 := Arg(argv, 0, ARG_SIZE);
    var argc := |argv|;
    var arg1 := Arg(argv, 1, ARG_SIZE);
    var arg2 := Arg(argv, 2, TOK_SIZE);
    var buf := new char[ARGS_SIZE];
    JoinArgs(argv, buf);
    var args := CStr(buf[..]);
    if StrCasePrefix(arg0, "am", 2) {
      return Decision(JAPlusBlock(arg0, args, argc, arg1), false);
    }
    d := RunVanillaBlock(argv, arg0, args, arg1, arg2, maxClients);
  }
}
