// The printer and the parser of the exception configuration: oplus_chg_olc_config_get
// and oplus_chg_olc_config_set.
module OlcConfig {
  import opened Common

  type uint64 = x: int | 0 <= x < 0x1_0000_0000_0000_0000

  const OLC_CONFIG_NUM_MAX := 16
  const OLC_CONFIG_SIZE := 16 * 16 + 16
  const OLC_CONFIG_BIT_NUM := 16

  // ------------------------------------------------------------- hexadecimal words

  function HexDigit(d: nat): char
    requires d < 16
  {
    if d < 10 then '0' + d as char else 'a' + (d - 10) as char
  }

  // "%llx".
  function ToHex(w: nat): string {
    if w < 16 then [HexDigit(w)] else ToHex(w / 16) + [HexDigit(w % 16)]
  }

  function DigitOf(c: char): Option<nat> {
    if '0' <= c <= '9' then Some((c - '0') as nat)
    else if 'a' <= c <= 'f' then Some((c - 'a') as nat + 10)
    else if 'A' <= c <= 'F' then Some((c - 'A') as nat + 10)
    else None
  }

  // The leading digits of a string, and the value of a string of digits.
  function Digits(s: string): (n: nat)
    ensures n <= |s|
    ensures forall i :: 0 <= i < n ==> DigitOf(s[i]).Some?
    ensures n < |s| ==> DigitOf(s[n]).None?
  {
    if |s| == 0 || DigitOf(s[0]).None? then 0 else 1 + Digits(s[1..])
  }

  function Value(s: string): nat {
    if |s| == 0 then 0
    else Value(s[..|s| - 1]) * 16 + match DigitOf(s[|s| - 1]) case Some(d) => d case None => 0
  }

  // What is left of a token once its sign, and then its prefix, have been skipped.
  function AfterSign(s: string): string {
    if |s| > 0 && s[0] == '+' then s[1..] else s
  }

  function AfterPrefix(s: string): string {
    if |s| > 1 && s[0] == '0' && (s[1] == 'x' || s[1] == 'X') then s[2..] else s
  }

  // kstrtoull with base 16: an optional plus sign, an optional 0x, digits, and an
  // optional newline; nothing on any other text or on a value that does not fit.
  function Kstrtoull(s: string): Option<uint64> {
    var s2 := AfterPrefix(AfterSign(s));
    var n := Digits(s2);
    if n == 0 || Value(s2[..n]) >= 0x1_0000_0000_0000_0000 then None
    else if s2[n..] == "" || s2[n..] == "\n" then Some(Value(s2[..n]))
    else None
  }

  // Characters that the parser and the separator treat specially.
  predicate Special(c: char) {
    c == ',' || c == '+' || c == 'x' || c == 'X' || c == '\n'
  }

  lemma HexDigitRoundTrip(d: nat)
    requires d < 16
    ensures DigitOf(HexDigit(d)) == Some(d) && !Special(HexDigit(d))
  {
  }

  lemma {:induction false} HexRoundTrip(w: nat)
    ensures |ToHex(w)| > 0 && Value(ToHex(w)) == w
    ensures forall i :: 0 <= i < |ToHex(w)| ==> DigitOf(ToHex(w)[i]).Some? && !Special(ToHex(w)[i])
  {
    HexDigitRoundTrip(w % 16);
    if w < 16 {
      assert ToHex(w)[..0] == "";
    } else {
      HexRoundTrip(w / 16);
      var k := |ToHex(w)| - 1;
      assert ToHex(w)[..k] == ToHex(w / 16) && ToHex(w)[k] == HexDigit(w % 16);
    }
  }

  function Pow16(k: nat): nat {
    if k == 0 then 1 else 16 * Pow16(k - 1)
  }

  lemma {:induction false} HexLength(w: nat, k: nat)
    requires k > 0 && w < Pow16(k)
    ensures |ToHex(w)| <= k
  {
    if w >= 16 {
      assert k > 1 by {
        assert Pow16(0) == 1;
      }
      HexLength(w / 16, k - 1);
    }
  }

  lemma WordsFitBitNum(w: uint64)
    ensures |ToHex(w)| <= OLC_CONFIG_BIT_NUM
  {
    assert Pow16(4) == 0x1_0000 && Pow16(8) == 0x1_0000_0000;
    assert Pow16(12) == 0x1_0000_0000_0000 && Pow16(16) == 0x1_0000_0000_0000_0000;
    HexLength(w, 16);
  }

  lemma AllDigits(s: string)
    requires forall i :: 0 <= i < |s| ==> DigitOf(s[i]).Some?
    ensures Digits(s) == |s|
  {
  }

  lemma PlainDigits(s: string)
    requires |s| > 0 && forall i :: 0 <= i < |s| ==> DigitOf(s[i]).Some? && !Special(s[i])
    requires Value(s) < 0x1_0000_0000_0000_0000
    ensures Kstrtoull(s) == Some(Value(s))
  {
    AllDigits(s);
    assert s[..|s|] == s && s[|s|..] == "";
  }

  // What the printer writes for a word, the parser reads back.
  lemma WordRoundTrip(w: uint64)
    ensures Kstrtoull(ToHex(w)) == Some(w)
  {
    HexRoundTrip(w);
    PlainDigits(ToHex(w));
  }

  // ------------------------------------------------------------- what is printed and read

  const LOWER := "0123456789abcdef"
  const UPPER := "0123456789ABCDEF"

  // A digit in either case, and a numeral of such digits, the last one first.
  predicate IsDigit(c: char, d: nat) {
    d < 16 && (c == LOWER[d] || c == UPPER[d])
  }

  predicate Spells(s: string, w: nat) {
    if |s| == 0 then w == 0 else IsDigit(s[|s| - 1], w % 16) && Spells(s[..|s| - 1], w / 16)
  }

  lemma DigitIs(c: char, d: nat)
    ensures DigitOf(c) == Some(d) <==> IsDigit(c, d)
  {
    if d < 10 {
      assert LOWER[d] == UPPER[d] == '0' + d as char;
    } else if d < 16 {
      assert LOWER[d] == 'a' + (d - 10) as char && UPPER[d] == 'A' + (d - 10) as char;
    }
  }

  lemma {:induction false} SpellsIsValue(s: string, w: nat)
    ensures Spells(s, w) <==> (forall i :: 0 <= i < |s| ==> DigitOf(s[i]).Some?) && Value(s) == w
  {
    if |s| > 0 {
      var k := |s| - 1;
      SpellsIsValue(s[..k], w / 16);
      DigitIs(s[k], w % 16);
      if DigitOf(s[k]).Some? {
        DigitIs(s[k], DigitOf(s[k]).value);
        LastDigit(Value(s[..k]), DigitOf(s[k]).value, w);
      }
      assert forall i :: 0 <= i < k ==> s[..k][i] == s[i];
    }
  }

  lemma LastDigit(v: nat, d: nat, w: nat)
    requires d < 16
    ensures v * 16 + d == w <==> v == w / 16 && d == w % 16
  {
  }

  // A word is printed in lower case and without leading zeros.
  lemma {:induction false} PrintsLower(w: nat)
    ensures Spells(ToHex(w), w)
    ensures forall i :: 0 <= i < |ToHex(w)| ==> ToHex(w)[i] in LOWER
    ensures |ToHex(w)| > 0 && (w > 0 ==> ToHex(w)[0] != '0')
  {
    HexDigitRoundTrip(w % 16);
    DigitIs(HexDigit(w % 16), w % 16);
    assert HexDigit(w % 16) == LOWER[w % 16];
    if w < 16 {
      assert ToHex(w)[..0] == "";
    } else {
      PrintsLower(w / 16);
      assert ToHex(w)[..|ToHex(w)| - 1] == ToHex(w / 16);
    }
  }

  // An optional plus sign, an optional prefix, digits, and an optional end of line.
  predicate Parts(s: string, plus: string, prefix: string, digits: string, end: string, w: nat) {
    && s == plus + (prefix + (digits + end))
    && (plus == "" || plus == "+") && (prefix == "" || prefix == "0x" || prefix == "0X")
    && (end == "" || end == "\n") && |digits| > 0 && Spells(digits, w)
  }

  lemma {:induction false} DigitsBefore(digits: string, end: string)
    requires forall i :: 0 <= i < |digits| ==> DigitOf(digits[i]).Some?
    requires |end| > 0 ==> DigitOf(end[0]).None?
    ensures Digits(digits + end) == |digits|
  {
    if |digits| == 0 {
      assert digits + end == end;
    } else {
      DigitsBefore(digits[1..], end);
      assert (digits + end)[1..] == digits[1..] + end;
    }
  }

  lemma SkipsPrefix(prefix: string, digits: string, end: string)
    requires prefix == "" || prefix == "0x" || prefix == "0X"
    requires |digits| > 0 && forall i :: 0 <= i < |digits| ==> DigitOf(digits[i]).Some?
    requires end == "" || end == "\n"
    ensures AfterPrefix(prefix + (digits + end)) == digits + end
    ensures (prefix + (digits + end))[0] != '+'
  {
    var t := digits + end;
    assert t[0] == digits[0] && (|t| > 1 ==> t[1] == if |digits| > 1 then digits[1] else '\n');
    if prefix == "" {
      assert prefix + t == t;
    } else {
      assert (prefix + t)[2..] == t && (prefix + t)[0] == '0';
    }
  }

  lemma ReadsParts(s: string, plus: string, prefix: string, digits: string, end: string, w: uint64)
    requires Parts(s, plus, prefix, digits, end, w)
    ensures Kstrtoull(s) == Some(w)
  {
    var t := digits + end;
    SpellsIsValue(digits, w);
    SkipsPrefix(prefix, digits, end);
    assert AfterSign(s) == prefix + t by {
      assert plus == "+" ==> s[1..] == prefix + t;
      assert plus == "" ==> s == prefix + t;
    }
    DigitsBefore(digits, end);
    assert t[..|digits|] == digits && t[|digits|..] == end;
  }

  lemma SplitsSign(s: string) returns (plus: string)
    ensures s == plus + AfterSign(s) && (plus == "" || plus == "+")
  {
    plus := if |AfterSign(s)| < |s| then "+" else "";
  }

  lemma SplitsPrefix(s: string) returns (prefix: string)
    ensures s == prefix + AfterPrefix(s) && (prefix == "" || prefix == "0x" || prefix == "0X")
  {
    prefix := if |AfterPrefix(s)| == |s| then "" else if s[1] == 'x' then "0x" else "0X";
  }

  lemma SplitsDigits(s: string, w: uint64) returns (digits: string, end: string)
    requires Digits(s) > 0 && Value(s[..Digits(s)]) == w && (s[Digits(s)..] == "" || s[Digits(s)..] == "\n")
    ensures s == digits + end && (end == "" || end == "\n") && |digits| > 0 && Spells(digits, w)
  {
    digits, end := s[..Digits(s)], s[Digits(s)..];
    SpellsIsValue(digits, w);
  }

  lemma FindsParts(s: string, w: uint64) returns (plus: string, prefix: string, digits: string, end: string)
    requires Kstrtoull(s) == Some(w)
    ensures Parts(s, plus, prefix, digits, end, w)
  {
    plus := SplitsSign(s);
    prefix := SplitsPrefix(AfterSign(s));
    digits, end := SplitsDigits(AfterPrefix(AfterSign(s)), w);
  }

  // The parser reads a word from a token if and only if the token spells it so.
  lemma ReadsIffSpelled(s: string, w: uint64)
    ensures Kstrtoull(s) == Some(w) <==> exists plus, prefix, digits, end :: Parts(s, plus, prefix, digits, end, w)
  {
    if Kstrtoull(s) == Some(w) {
      var plus, prefix, digits, end := FindsParts(s, w);
    }
    if plus, prefix, digits, end :| Parts(s, plus, prefix, digits, end, w) {
      ReadsParts(s, plus, prefix, digits, end, w);
    }
  }

  // ------------------------------------------------------------- lists of words

  // The pieces that strsep cuts a string into at its commas.
  function Tokens(s: string): (ts: seq<string>)
    ensures |ts| > 0
    decreases |s|
  {
    var i := FirstIndex(s, ',');
    if i == |s| then [s] else [s[..i]] + Tokens(s[i + 1..])
  }

  // The printed text, without the comma after the last word.
  function Text(ws: seq<uint64>): string {
    if |ws| == 0 then ""
    else if |ws| == 1 then ToHex(ws[0])
    else ToHex(ws[0]) + "," + Text(ws[1..])
  }

  lemma {:induction false} TextTokens(ws: seq<uint64>)
    requires |ws| > 0
    ensures Tokens(Text(ws)) == seq(|ws|, i requires 0 <= i < |ws| => ToHex(ws[i]))
    ensures |Text(ws)| < |ws| * (OLC_CONFIG_BIT_NUM + 1)
  {
    HexRoundTrip(ws[0]);
    WordsFitBitNum(ws[0]);
    var t := ToHex(ws[0]);
    if |ws| == 1 {
      FirstIndexIs(t, ',', |t|);
    } else {
      TextTokens(ws[1..]);
      var s := Text(ws);
      FirstIndexIs(s, ',', |t|);
      assert s[..|t|] == t && s[|t| + 1..] == Text(ws[1..]);
    }
  }

  function Joined(ts: seq<string>): string {
    if |ts| == 0 then "" else if |ts| == 1 then ts[0] else ts[0] + "," + Joined(ts[1..])
  }

  // The tokens are the text between its commas.
  lemma {:induction false} TokensSplit(s: string)
    ensures Joined(Tokens(s)) == s
    ensures forall i :: 0 <= i < |Tokens(s)| ==> ',' !in Tokens(s)[i]
    decreases |s|
  {
    var i := FirstIndex(s, ',');
    if i < |s| {
      TokensSplit(s[i + 1..]);
      assert Tokens(s)[1..] == Tokens(s[i + 1..]);
      assert s == s[..i] + "," + s[i + 1..];
    }
  }

  // How many tokens are taken before one is too long or all words are set.
  function Taken(ts: seq<string>): (n: nat)
    ensures n <= |ts| && n <= OLC_CONFIG_NUM_MAX
    ensures forall i :: 0 <= i < n ==> |ts[i]| <= OLC_CONFIG_BIT_NUM
  {
    TakenFrom(ts, 0)
  }

  function TakenFrom(ts: seq<string>, i: nat): (n: nat)
    requires i <= |ts| && i <= OLC_CONFIG_NUM_MAX
    ensures i <= n <= |ts| && n <= OLC_CONFIG_NUM_MAX
    ensures forall j :: i <= j < n ==> |ts[j]| <= OLC_CONFIG_BIT_NUM
    ensures n < |ts| && n < OLC_CONFIG_NUM_MAX ==> |ts[n]| > OLC_CONFIG_BIT_NUM
    decreases |ts| - i
  {
    if i == |ts| || i == OLC_CONFIG_NUM_MAX || |ts[i]| > OLC_CONFIG_BIT_NUM then i else TakenFrom(ts, i + 1)
  }

  // The words after the tokens have been parsed over `ws`: token i goes to word i.
  function Parsed(ws: seq<uint64>, ts: seq<string>): (r: seq<uint64>)
    requires |ws| == OLC_CONFIG_NUM_MAX
    ensures |r| == |ws|
  {
    ParsedUpTo(ws, ts, Taken(ts))
  }

  function ParsedUpTo(ws: seq<uint64>, ts: seq<string>, n: nat): (r: seq<uint64>)
    requires n <= |ts|
    ensures |r| == |ws|
  {
    seq(|ws|, i requires 0 <= i < |ws| => if i < n then ParsedOver(ws[i], ts[i]) else ws[i])
  }

  function ParsedOver(w: uint64, token: string): uint64 {
    match Kstrtoull(token)
    case Some(v) => v
    case None => w
  }

  // strlcpy into the parser's buffer.
  function Clip(s: string): string {
    if |s| < OLC_CONFIG_SIZE then s else s[..OLC_CONFIG_SIZE - 1]
  }

  // oplus_chg_olc_config_set.
  function ConfigSet(ws: seq<uint64>, buf: string): seq<uint64>
    requires |ws| == OLC_CONFIG_NUM_MAX
  {
    Parsed(ws, Tokens(Clip(buf)))
  }

  // Printing all words and parsing the text restores every word, whatever was configured
  // before; the printed text always fits the parser's buffer.
  lemma PrintParseRoundTrip(ws: seq<uint64>, before: seq<uint64>)
    requires |ws| == |before| == OLC_CONFIG_NUM_MAX
    ensures |Text(ws)| < OLC_CONFIG_SIZE
    ensures ConfigSet(before, Text(ws)) == ws
  {
    TextTokens(ws);
    var ts := Tokens(Text(ws));
    forall i | 0 <= i < |ws| ensures |ts[i]| <= OLC_CONFIG_BIT_NUM && Kstrtoull(ts[i]) == Some(ws[i]) {
      WordsFitBitNum(ws[i]);
      WordRoundTrip(ws[i]);
    }
    assert Taken(ts) == OLC_CONFIG_NUM_MAX;
  }

  // Word by word: a word is set if its token and those before it are at most 16 characters
  // long and its token spells a word; otherwise it stays as it was.
  lemma WordIsSet(ws: seq<uint64>, buf: string, i: nat)
    requires |ws| == OLC_CONFIG_NUM_MAX && i < OLC_CONFIG_NUM_MAX
    ensures var ts := Tokens(Clip(buf));
            ConfigSet(ws, buf)[i] ==
            if i < |ts| && (forall j :: 0 <= j <= i ==> |ts[j]| <= 16) && Kstrtoull(ts[i]).Some?
            then Kstrtoull(ts[i]).value else ws[i]
  {
    var ts := Tokens(Clip(buf));
    var n := TakenFrom(ts, 0);
    assert n == Taken(ts);
    if n <= i < |ts| {
      assert |ts[n]| > OLC_CONFIG_BIT_NUM;
    }
  }

  // Of a text that is too long only the front is read.
  lemma OnlyTheFrontIsRead(ws: seq<uint64>, buf: string)
    requires |ws| == OLC_CONFIG_NUM_MAX && |buf| > 271
    ensures ConfigSet(ws, buf) == ConfigSet(ws, buf[..271])
    ensures Clip(buf[..271]) == buf[..271]
  {
  }

  // A malformed token leaves its own word as it was and does not disturb the others.
  lemma MalformedTokenIsLocal(ws: seq<uint64>, buf: string, buf': string, i: nat, bad: string)
    requires |ws| == OLC_CONFIG_NUM_MAX && i < Taken(Tokens(Clip(buf)))
    requires Tokens(Clip(buf')) == Tokens(Clip(buf))[i := bad]
    requires Kstrtoull(bad).None? && |bad| <= OLC_CONFIG_BIT_NUM
    ensures ConfigSet(ws, buf') == ConfigSet(ws, buf)[i := ws[i]]
  {
    SameTaken(Tokens(Clip(buf)), Tokens(Clip(buf')), 0);
  }

  lemma {:induction false} SameTaken(ts: seq<string>, us: seq<string>, k: nat)
    requires |ts| == |us| && k <= |ts| && k <= OLC_CONFIG_NUM_MAX
    requires forall i :: 0 <= i < |ts| ==> (|ts[i]| <= OLC_CONFIG_BIT_NUM <==> |us[i]| <= OLC_CONFIG_BIT_NUM)
    ensures TakenFrom(ts, k) == TakenFrom(us, k)
    decreases |ts| - k
  {
    if k < |ts| && k < OLC_CONFIG_NUM_MAX && |ts[k]| <= OLC_CONFIG_BIT_NUM {
      SameTaken(ts, us, k + 1);
    }
  }

  // ------------------------------------------------------------- the two functions

  // All words, each with its comma.
  function Lines(ws: seq<uint64>): string {
    if |ws| == 0 then "" else Lines(ws[..|ws| - 1]) + ToHex(ws[|ws| - 1]) + ","
  }

  lemma {:induction false} LinesFront(ws: seq<uint64>)
    requires |ws| > 0
    ensures Lines(ws) == ToHex(ws[0]) + "," + Lines(ws[1..])
  {
    var k := |ws| - 1;
    if k == 0 {
      assert ws[..0] == [] && ws[1..] == [];
    } else {
      LinesFront(ws[..k]);
      assert ws[..k][1..] == ws[1..][..k - 1];
    }
  }

  lemma {:induction false} LinesAreText(ws: seq<uint64>)
    requires |ws| > 0
    ensures Lines(ws) == Text(ws) + ","
  {
    LinesFront(ws);
    if |ws| > 1 {
      LinesAreText(ws[1..]);
    } else {
      assert ws[1..] == [];
    }
  }

  class Config {
    const olcConfig: array<uint64>

    constructor ()
      ensures fresh(olcConfig) && olcConfig.Length == OLC_CONFIG_NUM_MAX
      ensures forall i :: 0 <= i < olcConfig.Length ==> olcConfig[i] == 0
    {
      olcConfig := new uint64[OLC_CONFIG_NUM_MAX](_ => 0);
    }

    method Set(buf: string)
      requires olcConfig.Length == OLC_CONFIG_NUM_MAX
      modifies olcConfig
      ensures olcConfig[..] == ConfigSet(old(olcConfig[..]), buf)
    {
      var configBuf := Clip(buf);
      ghost var ws, ts := olcConfig[..], Tokens(configBuf);
      var config, rest := Strsep(configBuf);
      var num := 0;
      while true
        invariant 0 <= num < OLC_CONFIG_NUM_MAX && num < |ts|
        invariant Taken(ts) == TakenFrom(ts, num)
        invariant ts[num..] == [config] + if rest.Some? then Tokens(rest.value) else []
        invariant olcConfig[..] == ParsedUpTo(ws, ts, num)
        decreases |ts| - num
      {
        assert config == ts[num..][0];
        if |config| > OLC_CONFIG_BIT_NUM {
          break;
        }
        SetWord(num, config, ws, ts);
        num := num + 1;
        if num >= OLC_CONFIG_NUM_MAX || rest.None? {
          break;
        }
        assert ts[num..] == ts[num - 1..][1..];
        config, rest := Strsep(rest.value);
      }
    }

    method SetWord(num: nat, config: string, ghost ws: seq<uint64>, ghost ts: seq<string>)
      requires num < olcConfig.Length && num < |ts| && config == ts[num]
      requires olcConfig[..] == ParsedUpTo(ws, ts, num)
      modifies olcConfig
      ensures olcConfig[..] == ParsedUpTo(ws, ts, num + 1)
    {
      var ret := Kstrtoull(config);
      if ret.Some? {
        olcConfig[num] := ret.value;
      }
    }

    // The text goes to `buf`, and is followed there by the last comma, or by the NUL that
    // the full temporary buffer has in its place.
    method Get(buf: array<char>) returns (len: nat)
      requires olcConfig.Length == OLC_CONFIG_NUM_MAX && buf.Length >= OLC_CONFIG_SIZE
      modifies buf
      ensures len < buf.Length && buf[..len] == Text(olcConfig[..])
      ensures olcConfig[..] == old(olcConfig[..])
    {
      var idx := 0;
      ghost var ws := olcConfig[..];
      for num := 0 to OLC_CONFIG_NUM_MAX
        invariant olcConfig[..] == ws
        invariant |Lines(ws[..num])| == idx <= num * (OLC_CONFIG_BIT_NUM + 1)
        invariant if num < OLC_CONFIG_NUM_MAX then buf[..idx] == Lines(ws[..num])
                  else idx > 0 && buf[..idx - 1] == Lines(ws[..num])[..idx - 1]
      {
        WordsFitBitNum(ws[num]);
        assert ws[..num + 1][..num] == ws[..num];
        idx := PrintWord(buf, idx, olcConfig[num]);
      }
      assert ws[..OLC_CONFIG_NUM_MAX] == ws;
      LinesAreText(ws);
      len := idx - 1;
    }
  }

  // snprintf of a word and its comma into what the temporary buffer has left, and the
  // copy of what snprintf says it wrote: if the comma just does not fit, a NUL.
  method PrintWord(buf: array<char>, idx: nat, w: uint64) returns (idx': nat)
    requires idx + |ToHex(w)| + 1 <= OLC_CONFIG_SIZE <= buf.Length
    modifies buf
    ensures idx' == idx + |ToHex(w)| + 1
    ensures buf[..idx' - 1] == old(buf[..idx]) + ToHex(w)
    ensures idx' < OLC_CONFIG_SIZE ==> buf[..idx'] == old(buf[..idx]) + ToHex(w) + ","
  {
    var text := ToHex(w) + ",";
    var room := OLC_CONFIG_SIZE - idx;
    var tmp := if |text| < room then text else text[..room - 1] + ['\0'];
    CopyInto(buf, idx, tmp);
    idx' := idx + |text|;
    assert buf[..idx'] == buf[..idx] + buf[idx..idx'];
    assert buf[..idx' - 1] == buf[..idx] + buf[idx..idx'][..|text| - 1];
  }

  method Strsep(s: string) returns (token: string, rest: Option<string>)
    ensures Tokens(s) == [token] + if rest.Some? then Tokens(rest.value) else []
  {
    var i := 0;
    while i < |s| && s[i] != ','
      invariant 0 <= i <= |s| && forall j :: 0 <= j < i ==> s[j] != ','
    {
      i := i + 1;
    }
    FirstIndexIs(s, ',', i);
    assert s[..|s|] == s;
    token, rest := s[..i], if i < |s| then Some(s[i + 1..]) else None;
  }

  method CopyInto(buf: array<char>, at: nat, s: string)
    requires at + |s| <= buf.Length
    modifies buf
    ensures buf[..at] == old(buf[..at]) && buf[at..at + |s|] == s
  {
    for i := 0 to |s|
      invariant buf[..at] == old(buf[..at]) && buf[at..at + i] == s[..i]
    {
      buf[at + i] := s[i];
      assert buf[at..at + i + 1] == buf[at..at + i] + [s[i]];
    }
  }
}
