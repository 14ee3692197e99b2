/**
  Info strings, `\key\value\key\value`: the reader `Info_Value`, the in-place
  rewriter `Info_Set`, and what they mean as operations on a list of pairs.
 */
module InfoString {
  import opened CStrings

  const TMP: nat := 2048

  datatype Pair = Pair(key: string, value: string)

  datatype Found = Absent | Value(text: string)

  /** `strchr`: the first `c` at or after `i`, or the end. */
  function Find(s: string, c: char, i: nat): (j: nat)
    requires i <= |s|
    ensures i <= j <= |s| && c !in s[i..j] && (j < |s| ==> s[j] == c)
    decreases |s| - i
  {
    if i == |s| || s[i] == c then i else Find(s, c, i + 1)
  }

  /** The pairs from index `p` on. */
  function PairsFrom(s: string, p: nat): seq<Pair>
    requires p <= |s|
    decreases |s| - p
  {
    if p == |s| || s[p] != '\\' then []
    else
      var kend := Find(s, '\\', p + 1);
      if kend == |s| then []
      else
        var vend := Find(s, '\\', kend + 1);
        [Pair(s[p + 1..kend], s[kend + 1..vend])] + PairsFrom(s, vend)
  }

  /** The pairs of an info string; anything after the last complete pair, and a
      string that does not start with a backslash, is ignored. */
  function Pairs(s: string): seq<Pair> {
    PairsFrom(s, 0)
  }

  function Show(p: Pair): string {
    "\\" + p.key + "\\" + p.value
  }

  function Print(ps: seq<Pair>): string {
    if ps == [] then "" else Show(ps[0]) + Print(ps[1..])
  }

  /** The value of the first pair with that key. */
  function Get(ps: seq<Pair>, key: string): Found {
    if ps == [] then Absent
    else if SameFold(ps[0].key, key) then Value(ps[0].value)
    else Get(ps[1..], key)
  }

  /** The pairs with other keys, in order. */
  function Without(ps: seq<Pair>, key: string): seq<Pair> {
    if ps == [] then []
    else if SameFold(ps[0].key, key) then Without(ps[1..], key)
    else [ps[0]] + Without(ps[1..], key)
  }

  // ------------------------------------------------------------------
  // Reading
  // ------------------------------------------------------------------

  /** `memcpy` and a terminator: make `s` the contents of `out`. */
  method StoreStr(out: array<char>, s: string)
    requires |s| < out.Length && NulFree(s)
    modifies out
    ensures CStr(out[..]) == s
  {
    forall i | 0 <= i < |s| {
      out[i] := s[i];
    }
    out[|s|] := NUL;
    assert out[..][..|s|] == s;
    CStrIs(out[..], s);
  }

  /** The key comparison of the two loops. */
  method KeyMatches(k: string, key: string) returns (r: bool)
    ensures r == SameFold(k, key)
  {
    if |k| != |key| {
      assert |LowerAll(k)| != |LowerAll(key)|;
      return false;
    }
    var i := 0;
    while i < |k|
      invariant 0 <= i <= |k|
      invariant forall j | 0 <= j < i :: Lower(k[j]) == Lower(key[j])
    {
      if Lower(k[i]) != Lower(key[i]) {
        assert LowerAll(k)[i] != LowerAll(key)[i];
        return false;
      }
      i := i + 1;
    }
    assert LowerAll(k) == LowerAll(key);
    r := true;
  }

  /** The text of the pair at `p` is what printing it gives. */
  lemma PairText(s: string, p: nat, kend: nat, vend: nat)
    requires p < kend < vend <= |s|
    requires s[p] == '\\' && s[kend] == '\\'
    ensures s[p..vend] == Show(Pair(s[p + 1..kend], s[kend + 1..vend]))
  {
    assert s[p..vend] == s[p..p + 1] + s[p + 1..kend] + s[kend..kend + 1] + s[kend + 1..vend];
  }

  lemma PairsAt(s: string, p: nat)
    requires p < |s| && s[p] == '\\'
    ensures var kend := Find(s, '\\', p + 1);
            if kend == |s| then PairsFrom(s, p) == []
            else
              var vend := Find(s, '\\', kend + 1);
              var first := Pair(s[p + 1..kend], s[kend + 1..vend]);
              PairsFrom(s, p) == [first] + PairsFrom(s, vend) && s[p..vend] == Show(first)
  {
    var kend := Find(s, '\\', p + 1);
    if kend < |s| {
      PairText(s, p, kend, Find(s, '\\', kend + 1));
    }
  }

  method InfoValue(info: string, key: string, out: array<char>) returns (found: bool)
    requires NulFree(info)
    modifies out
    ensures out.Length == 0 ==> !found
    ensures out.Length > 0 ==>
              match Get(Pairs(info), key)
              case Absent => !found && CStr(out[..]) == ""
              case Value(v) => found && CStr(out[..]) == Take(v, out.Length - 1)
  {
    hide Find, PairsFrom, SameFold, CStr, Get;
    if out.Length == 0 {
      return false;
    }
    StoreStr(out, "");
    var p := 0;
    while p < |info| && info[p] == '\\'
      invariant 0 <= p <= |info| && CStr(out[..]) == ""
      invariant Get(PairsFrom(info, p), key) == Get(Pairs(info), key)
      decreases |info| - p
    {
      PairsAt(info, p);
      var k := p + 1;
      var kend := Find(info, '\\', k);
      if kend == |info| {
        GetNothing(info, p, key);
        return false;
      }
      var v := kend + 1;
      var vend := Find(info, '\\', v);
      GetStep(Pair(info[k..kend], info[v..vend]), PairsFrom(info, vend), key);
      var same := KeyMatches(info[k..kend], key);
      if same {
        StoreStr(out, Take(info[v..vend], out.Length - 1));
        return true;
      }
      p := vend;
    }
    GetNothing(info, p, key);
    found := false;
  }

  lemma {:induction false} GetStep(first: Pair, rest: seq<Pair>, key: string)
    ensures Get([first] + rest, key) == if SameFold(first.key, key) then Value(first.value) else Get(rest, key)
  {
    assert ([first] + rest)[1..] == rest;
  }

  /** The loop stops where the parser stops. */
  lemma {:induction false} GetNothing(info: string, p: nat, key: string)
    requires p <= |info|
    requires p == |info| || info[p] != '\\' || Find(info, '\\', p + 1) == |info|
    ensures Get(PairsFrom(info, p), key) == Absent
  {
  }

  // ------------------------------------------------------------------
  // Writing
  // ------------------------------------------------------------------

  /** The copy loop of `Info_Set`: a pair that no longer fits `tmp` is skipped. */
  function CopyOthers(ps: seq<Pair>, key: string, tmp: string): string
    decreases |ps|
  {
    if ps == [] then tmp
    else if !SameFold(ps[0].key, key) && |tmp| + |Show(ps[0])| < TMP - 1 then
      CopyOthers(ps[1..], key, tmp + Show(ps[0]))
    else CopyOthers(ps[1..], key, tmp)
  }

  predicate Fits(pos: nat, infolen: nat, key: string, value: string) {
    var need := 1 + |key| + 1 + |value|;
    pos + need < infolen - 1 && pos + need < TMP - 1
  }

  /** The contents after `Info_Set`. */
  function SetText(text: string, infolen: nat, key: string, value: string): string
    requires infolen > 0
  {
    var kept := CopyOthers(Pairs(text), key, "");
    var all := if value != "" && Fits(|kept|, infolen, key, value) then kept + Show(Pair(key, value)) else kept;
    Take(all, infolen - 1)
  }

  /** `memcpy(buf + pos, s, |s|)`. */
  method Append(buf: array<char>, pos: nat, s: string)
    requires pos + |s| <= buf.Length
    modifies buf
    ensures buf[..pos + |s|] == old(buf[..pos]) + s
  {
    forall i | 0 <= i < |s| {
      buf[pos + i] := s[i];
    }
  }

  /** `strncpy(dst, s, n - 1); dst[n - 1] = 0` for the whole buffer of size n. */
  method StrNCpy(dst: array<char>, s: string)
    requires dst.Length > 0 && NulFree(s)
    modifies dst
    ensures CStr(dst[..]) == Take(s, dst.Length - 1)
  {
    var t := Take(s, dst.Length - 1);
    forall i | 0 <= i < dst.Length {
      dst[i] := if i < |t| then t[i] else NUL;
    }
    assert dst[..][..|t|] == t;
    CStrIs(dst[..], t);
  }

  lemma {:induction false} CopyStep(first: Pair, rest: seq<Pair>, key: string, acc: string)
    ensures CopyOthers([first] + rest, key, acc)
            == CopyOthers(rest, key,
                          if !SameFold(first.key, key) && |acc| + |Show(first)| < TMP - 1 then acc + Show(first) else acc)
  {
    assert ([first] + rest)[1..] == rest;
  }

  lemma NulFreeConcat(a: string, b: string)
    requires NulFree(a) && NulFree(b)
    ensures NulFree(a + b)
  {
  }

  /** The copy loop: every pair except those with `key` goes to `tmp`. */
  method CopyPairs(text: string, key: string, tmp: array<char>) returns (pos: nat)
    requires tmp.Length == TMP && NulFree(text)
    modifies tmp
    ensures pos < TMP - 1 && tmp[..pos] == CopyOthers(Pairs(text), key, "") && NulFree(tmp[..pos])
  {
    hide Find, CopyOthers, PairsFrom, SameFold, Show;
    pos := 0;
    tmp[0] := NUL;
    var p := 0;
    while p < |text| && text[p] == '\\'
      invariant 0 <= p <= |text| && pos < TMP - 1 && NulFree(tmp[..pos])
      invariant CopyOthers(PairsFrom(text, p), key, tmp[..pos]) == CopyOthers(Pairs(text), key, "")
      decreases |text| - p
    {
      PairsAt(text, p);
      var k := p + 1;
      var kend := Find(text, '\\', k);
      if kend == |text| {
        break;
      }
      var v := kend + 1;
      var vend := Find(text, '\\', v);
      CopyStep(Pair(text[k..kend], text[v..vend]), PairsFrom(text, vend), key, tmp[..pos]);
      var same := KeyMatches(text[k..kend], key);
      if !same {
        var pair := vend - p;
        if pos + pair < TMP - 1 {
          ghost var was := tmp[..pos];
          Append(tmp, pos, text[p..vend]);
          pos := pos + pair;
          NulFreeConcat(was, text[p..vend]);
          tmp[pos] := NUL;
        }
      }
      p := vend;
    }
    NothingLeft(text, p, key, tmp[..pos]);
  }

  /** The loop stops where the parser stops. */
  lemma {:induction false} NothingLeft(text: string, p: nat, key: string, acc: string)
    requires p <= |text|
    requires p == |text| || text[p] != '\\' || Find(text, '\\', p + 1) == |text|
    ensures CopyOthers(PairsFrom(text, p), key, acc) == acc
  {
  }

  method InfoSet(info: array<char>, key: string, value: string)
    requires info.Length > 0 && |CStr(info[..])| < info.Length
    requires NulFree(key) && NulFree(value)
    modifies info
    ensures CStr(info[..]) == SetText(old(CStr(info[..])), info.Length, key, value)
  {
    hide CopyOthers, Pairs, CStr;
    var text := CStr(info[..]);
    var tmp := new char[TMP];
    var pos := CopyPairs(text, key, tmp);
    if value != "" { // a pair for which there is no room is left out
      var need := 1 + |key| + 1 + |value|;
      if pos + need < info.Length - 1 && pos + need < TMP - 1 {
        Append(tmp, pos, Show(Pair(key, value)));
        pos := pos + need;
      }
    }
    StrNCpy(info, tmp[..pos]);
  }
}
