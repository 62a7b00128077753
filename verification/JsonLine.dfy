/** The hand-written JSON reader of search_engine.cpp and the escapers whose
    lines it reads. A byte is a character below 256. */
module JsonLine {
  import opened Common
  import Utf8

  // ------------------------------------------------------------ finding a value

  predicate Blank(c: char) { c == ' ' || c == '\t' }

  predicate StartsWith(t: string, pat: string) {
    |pat| <= |t| && t[..|pat|] == pat
  }

  function DropBlanks(t: string): (r: string)
    ensures |r| <= |t|
  {
    if t != "" && Blank(t[0]) then DropBlanks(t[1..]) else t
  }

  function Quoted(key: string): string { "\"" + key + "\"" }

  /** t starts with the quoted key, blanks and a colon. */
  ghost predicate KeyAt(t: string, key: string) {
    && StartsWith(t, Quoted(key))
    && var after := DropBlanks(t[|key| + 2..]); after != "" && after[0] == ':'
  }

  /** The text from the value of the first such place on. */
  ghost function ValueText(t: string, key: string): Maybe<string> {
    if KeyAt(t, key) then Just(DropBlanks(DropBlanks(t[|key| + 2..])[1..]))
    else if t == "" then Nothing
    else ValueText(t[1..], key)
  }

  /** std::string::find: the least position from `from` on where pat stands, or -1. */
  method Find(line: string, pat: string, from: nat) returns (p: int)
    ensures p == -1 ==> forall i :: from <= i <= |line| ==> !StartsWith(line[i..], pat)
    ensures p != -1 ==> from <= p <= |line| && StartsWith(line[p..], pat)
    ensures p != -1 ==> forall i :: from <= i < p ==> !StartsWith(line[i..], pat)
  {
    p := from;
    while p <= |line|
      invariant p >= from && forall i :: from <= i < p && i <= |line| ==> !StartsWith(line[i..], pat)
      decreases |line| + 1 - p
    {
      if StartsWith(line[p..], pat) { return; }
      p := p + 1;
    }
    p := -1;
  }

  /** The blank-skipping loops. */
  method SkipBlanks(line: string, from: nat) returns (q: nat)
    requires from <= |line|
    ensures from <= q <= |line| && line[q..] == DropBlanks(line[from..])
  {
    q := from;
    while q < |line| && Blank(line[q])
      invariant from <= q <= |line| && DropBlanks(line[q..]) == DropBlanks(line[from..])
    {
      assert line[q..][1..] == line[q + 1..];
      q := q + 1;
    }
  }

  lemma {:induction false} ValueTextSkips(line: string, key: string, start: nat, stop: nat)
    requires start <= stop <= |line| && forall i :: start <= i < stop ==> !KeyAt(line[i..], key)
    ensures ValueText(line[start..], key) == ValueText(line[stop..], key)
    decreases |line| - start
  {
    if start < stop {
      assert line[start..][1..] == line[start + 1..];
      ValueTextSkips(line, key, start + 1, stop);
    }
  }

  /** json_value_pos: the value after the first place where the quoted key is
      followed by a colon; other places with the same characters are skipped. */
  method JsonValuePos(line: string, key: string) returns (pos: int)
    ensures pos == -1 <==> ValueText(line, key).Nothing?
    ensures pos != -1 ==> 0 <= pos <= |line| && ValueText(line, key) == Just(line[pos..])
  {
    hide DropBlanks;
    var pat := Quoted(key);
    var from := 0;
    assert line[0..] == line;
    while true
      invariant 0 <= from <= |line| + 1
      invariant forall i :: 0 <= i < from && i <= |line| ==> !KeyAt(line[i..], key)
      decreases |line| + 1 - from
    {
      var p := Find(line, pat, from);
      if p == -1 {
        ValueTextSkips(line, key, 0, |line|);
        assert line[|line|..] == "";
        return -1;
      }
      assert line[p..][|pat|..] == line[p + |pat|..];
      var q := SkipBlanks(line, p + |pat|);
      if q < |line| && line[q] == ':' {
        ValueTextSkips(line, key, 0, p);
        assert line[q..][1..] == line[q + 1..];
        var r := SkipBlanks(line, q + 1);
        return r;
      }
      from := p + 1;
    }
  }

  // ------------------------------------------------------------ numbers

  const U64 := 0x1_0000_0000_0000_0000

  predicate IsDigit(c: char) { '0' <= c <= '9' }

  /** The leading digits of t appended to v, in 64-bit arithmetic. */
  ghost function DigitValue(t: string, v: nat): nat {
    if t != "" && IsDigit(t[0]) then DigitValue(t[1..], (v * 10 + (t[0] as nat - '0' as nat)) % U64) else v
  }

  ghost function NumberAt(t: Maybe<string>): Maybe<nat> {
    if t.Just? && t.value != "" && IsDigit(t.value[0]) then Just(DigitValue(t.value, 0)) else Nothing
  }

  /** json_find_u64. */
  method JsonFindU64(line: string, key: string) returns (out: Maybe<nat>)
    ensures out == NumberAt(ValueText(line, key))
  {
    var pos := JsonValuePos(line, key);
    if pos < 0 { return Nothing; }
    if pos >= |line| || !IsDigit(line[pos]) { return Nothing; }
    var q: nat, v: nat := pos, 0;
    while q < |line| && IsDigit(line[q])
      invariant pos <= q <= |line| && DigitValue(line[pos..], 0) == DigitValue(line[q..], v)
    {
      assert line[q..][1..] == line[q + 1..];
      v := (v * 10 + (line[q] as nat - '0' as nat)) % U64;
      q := q + 1;
    }
    return Just(v);
  }

  // ------------------------------------------------------------ unicode escapes

  function HexValue(c: char): Maybe<nat> {
    if '0' <= c <= '9' then Just(c as nat - '0' as nat)
    else if 'a' <= c <= 'f' then Just(c as nat - 'a' as nat + 10)
    else if 'A' <= c <= 'F' then Just(c as nat - 'A' as nat + 10)
    else Nothing
  }

  /** The value of four leading hex digits. */
  function Hex4(t: string): (v: Maybe<nat>)
    ensures v.Just? ==> v.value < 0x10000 && |t| >= 4
  {
    if |t| < 4 then Nothing
    else
      var a, b, c, d := HexValue(t[0]), HexValue(t[1]), HexValue(t[2]), HexValue(t[3]);
      if a.Just? && b.Just? && c.Just? && d.Just? then Just(a.value * 4096 + b.value * 256 + c.value * 16 + d.value)
      else Nothing
  }

  /** The hex4 closure. */
  method ReadHex4(s: string, p: nat) returns (v: Maybe<nat>)
    requires p <= |s|
    ensures v == Hex4(s[p..])
  {
    if p + 4 > |s| { return Nothing; }
    var r := 0;
    var k := p;
    while k < p + 4
      invariant p <= k <= p + 4
      invariant forall j :: p <= j < k ==> HexValue(s[j]).Just?
      invariant k == p ==> r == 0
      invariant k == p + 1 ==> r == HexValue(s[p]).value
      invariant k == p + 2 ==> r == HexValue(s[p]).value * 16 + HexValue(s[p + 1]).value
      invariant k == p + 3 ==>
                r == HexValue(s[p]).value * 256 + HexValue(s[p + 1]).value * 16 + HexValue(s[p + 2]).value
      invariant k == p + 4 ==>
                r == HexValue(s[p]).value * 4096 + HexValue(s[p + 1]).value * 256 + HexValue(s[p + 2]).value * 16
                    + HexValue(s[p + 3]).value
    {
      var digit := HexValue(s[k]);
      assert s[p..][k - p] == s[k];
      if digit.Nothing? { return Nothing; }
      r := r * 16 + digit.value;
      k := k + 1;
    }
    return Just(r);
  }

  function Chars(bytes: seq<Utf8.Byte>): string {
    seq(|bytes|, i requires 0 <= i < |bytes| => bytes[i] as char)
  }

  /** What is appended for a code point; a lone low surrogate gets three bytes too. */
  function Bytes(cp: nat): string
    requires cp <= 0x10FFFF
  {
    if cp < 0x80 then [cp as char]
    else if cp < 0x800 then [(0xC0 + cp / 64) as char, (0x80 + cp % 64) as char]
    else if cp < 0x10000 then [(0xE0 + cp / 4096) as char, (0x80 + cp / 64 % 64) as char, (0x80 + cp % 64) as char]
    else [(0xF0 + cp / 262144) as char, (0x80 + cp / 4096 % 64) as char, (0x80 + cp / 64 % 64) as char,
          (0x80 + cp % 64) as char]
  }

  /** Those bytes are the UTF-8 of every scalar value. */
  lemma BytesAreUtf8(cp: Utf8.Scalar)
    ensures Bytes(cp) == Chars(Utf8.Encode(cp))
  {
    assert cp / 4096 == cp / 64 / 64 && cp / 262144 == cp / 64 / 64 / 64;
  }

  datatype Escape = Escape(used: nat, bytes: string)

  /** append_unicode_escape on the text just after the u. */
  function UnicodeEscape(t: string): (e: Maybe<Escape>)
    ensures e.Just? ==> 0 < e.value.used <= |t|
  {
    match Hex4(t)
    case Nothing => Nothing
    case Just(cp) =>
      if 0xD800 <= cp <= 0xDBFF then
        if |t| < 10 || t[4] != '\\' || t[5] != 'u' then Nothing
        else match Hex4(t[6..])
          case Nothing => Nothing
          case Just(lo) =>
            if lo < 0xDC00 || lo > 0xDFFF then Nothing
            else Just(Escape(10, Bytes(0x10000 + (cp - 0xD800) * 0x400 + (lo - 0xDC00))))
      else Just(Escape(4, Bytes(cp)))
  }

  /** append_unicode_escape. */
  method AppendUnicodeEscape(s: string, i: nat, out0: string) returns (ok: bool, next: nat, out: string)
    requires i <= |s|
    ensures ok <==> UnicodeEscape(s[i..]).Just?
    ensures ok ==> next == i + UnicodeEscape(s[i..]).value.used && out == out0 + UnicodeEscape(s[i..]).value.bytes
  {
    next, out := i, out0;
    var first := ReadHex4(s, i);
    if first.Nothing? { return false, next, out; }
    var cp := first.value;
    next := next + 4;
    if 0xD800 <= cp <= 0xDBFF {
      if next + 6 > |s| || s[next] != '\\' || s[next + 1] != 'u' { return false, next, out; }
      var lo := ReadHex4(s, next + 2);
      assert s[i..][6..] == s[next + 2..];
      if lo.Nothing? || lo.value < 0xDC00 || lo.value > 0xDFFF { return false, next, out; }
      next := next + 6;
      cp := 0x10000 + (cp - 0xD800) * 0x400 + (lo.value - 0xDC00);
    }
    return true, next, out + Bytes(cp);
  }

  // ------------------------------------------------------------ strings

  /** The characters with a two-character escape, and its letter. */
  function ShortEscape(e: char): Maybe<char> {
    if e == '"' || e == '\\' || e == '/' then Just(e)
    else if e == 'n' then Just('\n')
    else if e == 'r' then Just('\r')
    else if e == 't' then Just('\t')
    else if e == 'b' then Just('\U{8}')
    else if e == 'f' then Just('\U{C}')
    else Nothing
  }

  function Prepend(s: string, t: Maybe<string>): Maybe<string> {
    if t.Nothing? then Nothing else Just(s + t.value)
  }

  lemma PrependParts(a: string, b: string, t: Maybe<string>)
    ensures Prepend(a, Prepend(b, t)) == Prepend(a + b, t) && Prepend("", t) == t
  {
    if t.Just? {
      assert a + (b + t.value) == (a + b) + t.value;
      assert "" + t.value == t.value;
    }
  }

  /** The string value whose text, after the opening quote, is t. */
  ghost function Unescape(t: string): Maybe<string> {
    if t == "" then Nothing
    else if t[0] == '"' then Just("")
    else if t[0] == '\\' then
      if |t| < 2 then Nothing
      else if t[1] == 'u' then
        var e := UnicodeEscape(t[2..]);
        if e.Nothing? then Nothing else Prepend(e.value.bytes, Unescape(t[2..][e.value.used..]))
      else
        var c := ShortEscape(t[1]);
        if c.Nothing? then Nothing else Prepend([c.value], Unescape(t[2..]))
    else Prepend([t[0]], Unescape(t[1..]))
  }

  ghost function StringAt(t: Maybe<string>): Maybe<string> {
    if t.Just? && t.value != "" && t.value[0] == '"' then Unescape(t.value[1..]) else Nothing
  }

  /** json_find_string. */
  method JsonFindString(line: string, key: string) returns (out: Maybe<string>)
    ensures out == StringAt(ValueText(line, key))
  {
    hide UnicodeEscape, ShortEscape, ValueText;
    var pos := JsonValuePos(line, key);
    if pos < 0 { return Nothing; }
    if pos >= |line| || line[pos] != '"' { return Nothing; }
    var q: nat := pos + 1;
    var v := "";
    assert line[pos..][1..] == line[q..];
    PrependParts("", "", Unescape(line[q..]));
    while q < |line|
      invariant pos < q <= |line|
      invariant Unescape(line[pos + 1..]) == Prepend(v, Unescape(line[q..]))
    {
      var c := line[q];
      ghost var t := line[q..];
      if c == '"' {
        assert v + "" == v;
        return Just(v);
      }
      if c == '\\' {
        if q + 1 >= |line| { return Nothing; }
        var e := line[q + 1];
        assert t[2..] == line[q + 2..] && t[1] == e;
        q := q + 2;
        if e == 'u' {
          var ok, next, longer := AppendUnicodeEscape(line, q, v);
          if !ok { return Nothing; }
          assert line[q..][next - q..] == line[next..];
          PrependParts(v, UnicodeEscape(line[q..]).value.bytes, Unescape(line[next..]));
          q, v := next, longer;
        } else {
          var short := ShortEscape(e);
          if short.Nothing? { return Nothing; }
          PrependParts(v, [short.value], Unescape(line[q..]));
          v := v + [short.value];
        }
      } else {
        assert t[1..] == line[q + 1..];
        PrependParts(v, [c], Unescape(line[q + 1..]));
        v := v + [c];
        q := q + 1;
      }
    }
    return Nothing;
  }

  // ------------------------------------------------------------ the writers

  /** One element of a written string: a plain byte, a two-character escape, or
      one or two \u escapes for a code point. */
  datatype Unit = Plain(c: char) | Short(c: char) | Code(cp: Utf8.Scalar, upper: bool)

  function ShortLetter(c: char): Maybe<char> {
    if c == '"' || c == '\\' || c == '/' then Just(c)
    else if c == '\n' then Just('n')
    else if c == '\r' then Just('r')
    else if c == '\t' then Just('t')
    else if c == '\U{8}' then Just('b')
    else if c == '\U{C}' then Just('f')
    else Nothing
  }

  predicate UnitOk(u: Unit) {
    match u
    case Plain(c) => c != '"' && c != '\\'
    case Short(c) => ShortLetter(c).Just?
    case Code(_, _) => true
  }

  function HexDigit(n: nat, upper: bool): char
    requires n < 16
  {
    if n < 10 then ('0' as int + n) as char
    else if upper then ('A' as int + n - 10) as char
    else ('a' as int + n - 10) as char
  }

  function HexFour(n: nat, upper: bool): string
    requires n < 0x10000
  {
    [HexDigit(n / 4096, upper), HexDigit(n / 256 % 16, upper), HexDigit(n / 16 % 16, upper), HexDigit(n % 16, upper)]
  }

  function SpellUnit(u: Unit): string
    requires UnitOk(u)
  {
    match u
    case Plain(c) => [c]
    case Short(c) => ['\\', ShortLetter(c).value]
    case Code(cp, upper) =>
      if cp < 0x10000 then "\\u" + HexFour(cp, upper)
      else "\\u" + HexFour(0xD800 + (cp - 0x10000) / 0x400, upper)
           + "\\u" + HexFour(0xDC00 + (cp - 0x10000) % 0x400, upper)
  }

  /** The bytes a unit stands for. */
  function MeanUnit(u: Unit): string {
    match u
    case Plain(c) => [c]
    case Short(c) => [c]
    case Code(cp, _) => Chars(Utf8.Encode(cp))
  }

  predicate UnitsOk(units: seq<Unit>) {
    forall u :: u in units ==> UnitOk(u)
  }

  function Spell(units: seq<Unit>): string
    requires UnitsOk(units)
  {
    if units == [] then "" else SpellUnit(units[0]) + Spell(units[1..])
  }

  function Mean(units: seq<Unit>): string {
    if units == [] then "" else MeanUnit(units[0]) + Mean(units[1..])
  }

  /** The letters of the two-character escapes, and the digits of the others. */
  lemma EscapeAlphabet(c: char, n: nat)
    requires n < 16
    ensures match ShortLetter(c)
            case Just(e) => exists i :: 0 <= i < 8 && c == "\"\\/\n\r\t\U{8}\U{C}"[i] && e == "\"\\/nrtbf"[i]
            case Nothing => c !in "\"\\/\n\r\t\U{8}\U{C}"
    ensures HexDigit(n, false) == "0123456789abcdef"[n] && HexDigit(n, true) == "0123456789ABCDEF"[n]
  {
    var from, to := "\"\\/\n\r\t\U{8}\U{C}", "\"\\/nrtbf";
    if c in from {
      var i :| 0 <= i < 8 && c == from[i];
      assert ShortLetter(c) == Just(to[i]);
    }
  }

  lemma HexDigitRead(n: nat, upper: bool)
    requires n < 16
    ensures HexValue(HexDigit(n, upper)) == Just(n)
  {
  }

  lemma HexFourRead(n: nat, upper: bool, rest: string)
    requires n < 0x10000
    ensures Hex4(HexFour(n, upper) + rest) == Just(n)
  {
    HexDigitRead(n / 4096, upper);
    HexDigitRead(n / 256 % 16, upper);
    HexDigitRead(n / 16 % 16, upper);
    HexDigitRead(n % 16, upper);
    assert n / 256 == n / 16 / 16 && n / 4096 == n / 16 / 16 / 16;
  }

  /** A code point beyond the basic plane is written as its two surrogates, the high one first. */
  lemma PairSpelled()
    ensures SpellUnit(Code(0x1F600, false)) == "\\ud83d\\ude00" && SpellUnit(Code(0x3042, true)) == "\\u3042"
  {
    HexSamples();
    hide HexFour;
    assert "\\u" + "d83d" + "\\u" + "de00" == "\\ud83d\\ude00";
  }

  lemma HexSamples()
    ensures HexFour(0xD83D, false) == "d83d" && HexFour(0xDE00, false) == "de00" && HexFour(0x3042, true) == "3042"
  {
  }

  /** Two surrogate escapes are read as their code point. */
  lemma PairRead(cp: Utf8.Scalar, upper: bool, rest: string)
    requires cp >= 0x10000
    ensures var t := SpellUnit(Code(cp, upper))[2..] + rest;
            UnicodeEscape(t) == Just(Escape(10, Bytes(cp))) && t[10..] == rest
  {
    hide HexFour, Hex4, Bytes;
    var hi, lo := 0xD800 + (cp - 0x10000) / 0x400, 0xDC00 + (cp - 0x10000) % 0x400;
    assert (hi - 0xD800) * 0x400 + (lo - 0xDC00) == cp - 0x10000;
    var first, second := HexFour(hi, upper), HexFour(lo, upper);
    HexFourRead(hi, upper, "\\u" + second + rest);
    HexFourRead(lo, upper, rest);
    HexFourLength(hi, upper);
    HexFourLength(lo, upper);
    PairText(first, second, rest);
    assert SpellUnit(Code(cp, upper))[2..] + rest == first + ("\\u" + second + rest);
    hide SpellUnit;
  }

  lemma PairText(first: string, second: string, rest: string)
    requires |first| == |second| == 4
    ensures var t := first + ("\\u" + second + rest);
            |t| >= 10 && t[4] == '\\' && t[5] == 'u' && t[6..] == second + rest && t[10..] == rest
  {
  }

  lemma HexFourLength(n: nat, upper: bool)
    requires n < 0x10000
    ensures |HexFour(n, upper)| == 4
  {
  }

  /** Reading back an escaped code point gives its UTF-8 bytes, surrogate pair or not. */
  lemma CodeRead(cp: Utf8.Scalar, upper: bool, rest: string)
    ensures var t := SpellUnit(Code(cp, upper))[2..] + rest;
            var e := UnicodeEscape(t);
            e.Just? && e.value.bytes == Chars(Utf8.Encode(cp)) && t[e.value.used..] == rest
  {
    BytesAreUtf8(cp);
    if cp < 0x10000 {
      hide HexFour, Hex4, Bytes;
      HexFourLength(cp, upper);
      assert SpellUnit(Code(cp, upper))[2..] == HexFour(cp, upper);
      HexFourRead(cp, upper, rest);
    } else {
      PairRead(cp, upper, rest);
    }
  }

  lemma EscapeRead(t: string, e: Escape)
    requires |t| >= 2 && t[0] == '\\' && t[1] == 'u' && UnicodeEscape(t[2..]) == Just(e)
    ensures Unescape(t) == Prepend(e.bytes, Unescape(t[2..][e.used..]))
  {
    hide UnicodeEscape;
  }

  lemma CodeUnitRead(cp: Utf8.Scalar, upper: bool, rest: string)
    ensures Unescape(SpellUnit(Code(cp, upper)) + rest) == Prepend(MeanUnit(Code(cp, upper)), Unescape(rest))
  {
    hide UnicodeEscape, HexFour, Unescape, Utf8.Encode, Chars;
    var u := Code(cp, upper);
    var t := SpellUnit(u) + rest;
    CodeRead(cp, upper, rest);
    assert t[0] == '\\' && t[1] == 'u' && t[2..] == SpellUnit(u)[2..] + rest;
    EscapeRead(t, UnicodeEscape(t[2..]).value);
  }

  lemma PlainRead(c: char, rest: string)
    requires UnitOk(Plain(c))
    ensures Unescape([c] + rest) == Prepend([c], Unescape(rest))
  {
    hide UnicodeEscape;
    assert ([c] + rest)[1..] == rest;
  }

  lemma ShortRead(u: Unit, rest: string)
    requires UnitOk(u) && u.Short?
    ensures Unescape(SpellUnit(u) + rest) == Prepend(MeanUnit(u), Unescape(rest))
  {
    hide UnicodeEscape;
    assert (SpellUnit(u) + rest)[2..] == rest;
  }

  lemma UnitRead(u: Unit, rest: string)
    requires UnitOk(u)
    ensures Unescape(SpellUnit(u) + rest) == Prepend(MeanUnit(u), Unescape(rest))
  {
    hide Unescape, HexFour, Utf8.Encode, Chars, Prepend;
    match u
    case Plain(c) => PlainRead(c, rest);
    case Short(_) => ShortRead(u, rest);
    case Code(cp, upper) => CodeUnitRead(cp, upper, rest);
  }

  /** The reader undoes every admissible escaping, up to the closing quote. */
  lemma {:induction false} UnescapeSpelled(units: seq<Unit>, rest: string)
    requires UnitsOk(units)
    ensures Unescape(Spell(units) + "\"" + rest) == Just(Mean(units))
  {
    hide SpellUnit, MeanUnit, UnitOk;
    if units == [] {
      assert Spell(units) + "\"" + rest == "\"" + rest;
    } else {
      var tail := Spell(units[1..]) + "\"" + rest;
      assert Spell(units) + "\"" + rest == SpellUnit(units[0]) + tail;
      UnitRead(units[0], tail);
      UnescapeSpelled(units[1..], rest);
    }
  }

  /** json_escape, as units: five short escapes, \u00XX for other controls. */
  function UnitOf(c: char): (u: Unit)
    ensures UnitOk(u) && MeanUnit(u) == [c]
  {
    if c == '"' || c == '\\' || c == '\n' || c == '\r' || c == '\t' then Short(c)
    else if c < ' ' then Code(c as int, false)
    else Plain(c)
  }

  function UnitsOf(s: string): (units: seq<Unit>)
    ensures |units| == |s| && UnitsOk(units)
  {
    if s == "" then [] else [UnitOf(s[0])] + UnitsOf(s[1..])
  }

  lemma {:induction false} UnitsMean(s: string)
    ensures Mean(UnitsOf(s)) == s
  {
    if s != "" {
      UnitsMean(s[1..]);
      assert UnitsOf(s)[1..] == UnitsOf(s[1..]);
      assert s == [s[0]] + s[1..];
    }
  }

  lemma {:induction false} SpellAppend(a: seq<Unit>, b: seq<Unit>)
    requires UnitsOk(a) && UnitsOk(b)
    ensures UnitsOk(a + b) && Spell(a + b) == Spell(a) + Spell(b)
  {
    hide UnitOk, SpellUnit;
    if a == [] {
      assert a + b == b;
    } else {
      SpellAppend(a[1..], b);
      assert (a + b)[0] == a[0] && (a + b)[1..] == a[1..] + b;
      var x, y, z := SpellUnit(a[0]), Spell(a[1..]), Spell(b);
      assert x + (y + z) == (x + y) + z;
    }
  }

  lemma {:induction false} UnitsOfAppend(s: string, c: char)
    ensures UnitsOf(s + [c]) == UnitsOf(s) + [UnitOf(c)]
  {
    if s == "" {
      assert s + [c] == [c];
    } else {
      UnitsOfAppend(s[1..], c);
      assert (s + [c])[1..] == s[1..] + [c];
    }
  }

  /** The spelling of each character: the five short escapes, four hex digits for any other
      control character, and itself for all others. */
  lemma EscapedChar(c: char)
    ensures SpellUnit(UnitOf(c)) ==
            if c == '"' then "\\\""
            else if c == '\\' then "\\\\"
            else if c == '\n' then "\\n"
            else if c == '\r' then "\\r"
            else if c == '\t' then "\\t"
            else if c < ' ' then "\\u00" + ["01"[c as int / 16], "0123456789abcdef"[c as int % 16]]
            else [c]
  {
  }

  /** One written line stays one line: nothing below a space is left in it. */
  lemma {:induction false} NoControls(s: string)
    ensures forall x :: x in Spell(UnitsOf(s)) ==> x >= ' '
  {
    if s != "" {
      hide SpellUnit, UnitOf;
      NoControls(s[1..]);
      NoControlIn(s[0]);
      assert UnitsOf(s)[1..] == UnitsOf(s[1..]);
      assert Spell(UnitsOf(s)) == SpellUnit(UnitOf(s[0])) + Spell(UnitsOf(s[1..]));
    }
  }

  lemma NoControlIn(c: char)
    ensures forall x :: x in SpellUnit(UnitOf(c)) ==> x >= ' '
  {
    EscapedChar(c);
  }

  /** json_escape. */
  method JsonEscape(s: string) returns (out: string)
    ensures out == Spell(UnitsOf(s))
    ensures forall x :: x in out ==> x >= ' '
  {
    hide UnitOk, SpellUnit;
    NoControls(s);
    out := "";
    var i := 0;
    while i < |s|
      invariant 0 <= i <= |s| && out == Spell(UnitsOf(s[..i]))
    {
      assert s[..i + 1] == s[..i] + [s[i]];
      UnitsOfAppend(s[..i], s[i]);
      SpellAppend(UnitsOf(s[..i]), [UnitOf(s[i])]);
      assert Spell([UnitOf(s[i])]) == SpellUnit(UnitOf(s[i]));
      out := out + SpellUnit(UnitOf(s[i]));
      i := i + 1;
    }
    assert s[..i] == s;
  }

  // ------------------------------------------------------------ whole lines

  predicate IdentChar(c: char) { 'a' <= c <= 'z' || 'A' <= c <= 'Z' || c == '_' || '0' <= c <= '9' }

  predicate Identifier(key: string) {
    key != "" && forall i :: 0 <= i < |key| ==> IdentChar(key[i])
  }

  datatype Value = Text(units: seq<Unit>) | Number(n: nat)
  datatype Member = Member(key: string, value: Value)

  /** The blanks a writer puts before a colon, after it and after a comma. */
  datatype Layout = Layout(beforeColon: string, afterColon: string, afterComma: string)

  ghost predicate LayoutOk(l: Layout) {
    && (forall i :: 0 <= i < |l.beforeColon| ==> Blank(l.beforeColon[i]))
    && (forall i :: 0 <= i < |l.afterColon| ==> Blank(l.afterColon[i]))
    && (forall i :: 0 <= i < |l.afterComma| ==> Blank(l.afterComma[i]))
  }

  predicate ValueOk(v: Value) {
    match v
    case Text(units) => UnitsOk(units)
    case Number(n) => n < U64
  }

  function SpellValue(v: Value): string
    requires ValueOk(v)
  {
    match v
    case Text(units) => "\"" + Spell(units) + "\""
    case Number(n) => Decimal(n)
  }

  function Separator(l: Layout): string { l.beforeColon + (":" + l.afterColon) }

  /** The members from the first one's key to the closing brace. */
  ghost function Body(members: seq<Member>, l: Layout): string
    requires forall m :: m in members ==> ValueOk(m.value)
    decreases |members|, 1
  {
    if members == [] then "}"
    else Quoted(members[0].key) + (Separator(l) + (SpellValue(members[0].value) + After(members, l)))
  }

  /** What follows the first member's value. */
  ghost function After(members: seq<Member>, l: Layout): string
    requires members != [] && forall m :: m in members ==> ValueOk(m.value)
    decreases |members|, 0
  {
    if |members| == 1 then "}" else "," + (l.afterComma + Body(members[1..], l))
  }

  /** A flat object on one line. */
  ghost function Render(members: seq<Member>, l: Layout): string
    requires forall m :: m in members ==> ValueOk(m.value)
  {
    "{" + Body(members, l)
  }

  /** Such a line as json.dumps writes it, and its digits. */
  lemma LineSpelled(k1: string, units: seq<Unit>, k2: string, n: nat)
    requires UnitsOk(units) && n < U64
    ensures Render([Member(k1, Text(units)), Member(k2, Number(n))], Layout("", " ", " ")) ==
            "{\"" + k1 + "\": \"" + Spell(units) + "\", \"" + k2 + "\": " + Decimal(n) + "}"
    ensures Decimal(0) == "0" && Decimal(9) == "9" && Decimal(10) == "10" && Decimal(1234) == "1234"
  {
    hide Spell, Decimal, Body, After;
    var text, number, l := Member(k1, Text(units)), Member(k2, Number(n)), Layout("", " ", " ");
    var last := "\"" + k2 + "\": " + Decimal(n) + "}";
    LastMember(number, l);
    assert Separator(l) == ": ";
    assert Body([number], l) == last;
    FirstMember(text, number, l);
    assert Body([text, number], l) == "\"" + k1 + "\": \"" + Spell(units) + "\", " + last;
    DecimalSamples();
  }

  lemma LastMember(m: Member, l: Layout)
    requires ValueOk(m.value)
    ensures Body([m], l) == Quoted(m.key) + Separator(l) + SpellValue(m.value) + "}"
  {
    hide SpellValue, Separator;
  }

  lemma FirstMember(m: Member, n: Member, l: Layout)
    requires ValueOk(m.value) && ValueOk(n.value)
    ensures Body([m, n], l) == Quoted(m.key) + Separator(l) + SpellValue(m.value) + "," + l.afterComma + Body([n], l)
  {
    hide SpellValue, Separator;
    assert [m, n][1..] == [n];
  }

  /** Beyond the first character, a quote only follows a backslash. */
  ghost predicate QuotesEscaped(body: string) {
    forall i :: 0 < i < |body| && body[i] == '"' ==> body[i - 1] == '\\'
  }

  /** A quoted stretch is not a key followed by a colon, unless it is that key. */
  lemma NoKey(body: string, after: string, key: string)
    requires Identifier(key) && QuotesEscaped(body) && (body == "" || body[0] != '"')
    requires after != "" && !IdentChar(after[0])
    requires body == key ==> DropBlanks(after) == "" || DropBlanks(after)[0] != ':'
    ensures !KeyAt("\"" + body + "\"" + after, key)
  {
    var t := "\"" + body + "\"" + after;
    var n, k := |body|, |key|;
    assert forall i :: 0 <= i < n ==> t[1 + i] == body[i];
    assert forall i :: 0 <= i < k ==> Quoted(key)[1 + i] == key[i];
    assert t[1 + n] == '"' && Quoted(key)[1 + k] == '"' && t[n + 2..] == after;
    if i :| 0 <= i < n && i < k && body[i] != key[i] {
      Differs(t, Quoted(key), 1 + i);
    } else if n < k {
      assert IdentChar(key[n]);
      Differs(t, Quoted(key), 1 + n);
    } else if k < n {
      assert body[k - 1] == key[k - 1] && IdentChar(key[k - 1]);
      Differs(t, Quoted(key), 1 + k);
    } else {
      assert body == key;
    }
  }

  lemma Differs(t: string, pat: string, i: nat)
    requires i < |t| && i < |pat| && t[i] != pat[i]
    ensures !StartsWith(t, pat)
  {
    if |pat| <= |t| {
      assert t[..|pat|][i] == t[i];
    }
  }

  lemma SkipOne(t: string, key: string)
    requires t != "" && !KeyAt(t, key)
    ensures ValueText(t, key) == ValueText(t[1..], key)
  {
  }

  /** No key starts inside the rest of a quoted stretch. */
  lemma {:induction false} SkipInside(body: string, after: string, key: string)
    requires Identifier(key) && QuotesEscaped(body) && after != "" && !IdentChar(after[0])
    requires forall i :: 0 <= i < |body| && body[i] == '"' ==> DropBlanks(after) == "" || DropBlanks(after)[0] != ':'
    ensures ValueText(body + "\"" + after, key) == ValueText(after, key)
    decreases |body|
  {
    hide ValueText, DropBlanks;
    var t := body + "\"" + after;
    if body == "" {
      assert t == "\"" + "" + after;
      LoneQuote(after, key);
      SkipOne(t, key);
      assert t[1..] == after;
    } else {
      var rest := body[1..];
      assert t[1..] == rest + "\"" + after;
      if body[0] == '"' {
        assert t == "\"" + rest + "\"" + after;
        NoKey(rest, after, key);
      } else {
        NotQuote(t, key);
      }
      SkipOne(t, key);
      SkipInside(rest, after, key);
    }
  }

  lemma NotQuote(t: string, key: string)
    requires t != "" && t[0] != '"'
    ensures !KeyAt(t, key)
  {
    Differs(t, Quoted(key), 0);
  }

  lemma LoneQuote(after: string, key: string)
    requires Identifier(key) && after != "" && !IdentChar(after[0])
    ensures !KeyAt("\"" + after, key)
  {
    var t := "\"" + after;
    assert Quoted(key)[1] == key[0] && IdentChar(key[0]);
    Differs(t, Quoted(key), 1);
  }

  lemma {:induction false} SkipPlain(seg: string, rest: string, key: string)
    requires '"' !in seg
    ensures ValueText(seg + rest, key) == ValueText(rest, key)
  {
    if seg == "" {
      assert seg + rest == rest;
    } else {
      assert (seg + rest)[0] == seg[0] && seg[0] in seg;
      NotQuote(seg + rest, key);
      assert (seg + rest)[1..] == seg[1..] + rest;
      SkipPlain(seg[1..], rest, key);
    }
  }

  /** A complete quoted stretch that is not the key is skipped. */
  lemma SkipQuoted(body: string, after: string, key: string)
    requires Identifier(key) && QuotesEscaped(body) && (body == "" || body[0] != '"')
    requires after != "" && !IdentChar(after[0])
    requires body == key || '"' in body ==> DropBlanks(after) == "" || DropBlanks(after)[0] != ':'
    ensures ValueText(Quoted(body) + after, key) == ValueText(after, key)
  {
    var t := Quoted(body) + after;
    assert t == "\"" + body + "\"" + after;
    NoKey(body, after, key);
    SkipOne(t, key);
    assert t[1..] == body + "\"" + after;
    SkipInside(body, after, key);
  }

  /** In an escaped value every quote follows a backslash. */
  lemma {:induction false} SpelledQuotes(units: seq<Unit>)
    requires UnitsOk(units)
    ensures QuotesEscaped(Spell(units)) && (Spell(units) == "" || Spell(units)[0] != '"')
  {
    if units != [] {
      SpelledQuotes(units[1..]);
      UnitQuotes(units[0]);
      hide SpellUnit, UnitOk;
      var a, b := SpellUnit(units[0]), Spell(units[1..]);
      assert Spell(units) == a + b;
      forall i | 0 < i < |a + b| && (a + b)[i] == '"' ensures (a + b)[i - 1] == '\\' {
        if i >= |a| {
          assert (a + b)[i] == b[i - |a|];
        }
      }
    }
  }

  lemma UnitQuotes(u: Unit)
    requires UnitOk(u)
    ensures SpellUnit(u) != "" && QuotesEscaped(SpellUnit(u)) && SpellUnit(u)[0] != '"'
  {
    if u.Code? {
      hide HexDigit;
      HexNoQuote();
    }
  }

  lemma HexNoQuote()
    ensures forall n: nat, upper: bool :: n < 16 ==> HexDigit(n, upper) != '"'
  {
  }

  // ------------------------------------------------------------ looking a key up

  /** What follows a value: a comma or the closing brace. */
  ghost predicate Ends(after: string) {
    after != "" && (after[0] == ',' || after[0] == '}')
  }

  lemma {:induction false} DropBlankPrefix(blanks: string, rest: string)
    requires forall i :: 0 <= i < |blanks| ==> Blank(blanks[i])
    ensures DropBlanks(blanks + rest) == DropBlanks(rest)
  {
    if blanks == "" {
      assert blanks + rest == rest;
    } else {
      assert (blanks + rest)[1..] == blanks[1..] + rest;
      DropBlankPrefix(blanks[1..], rest);
    }
  }

  /** The key itself is found, and the value starts after colon and blanks. */
  lemma KeyFound(key: string, l: Layout, value: string)
    requires LayoutOk(l) && value != "" && !Blank(value[0])
    ensures ValueText(Quoted(key) + (Separator(l) + value), key) == Just(value)
  {
    var t := Quoted(key) + (Separator(l) + value);
    var colon := ":" + (l.afterColon + value);
    assert Separator(l) + value == l.beforeColon + colon;
    assert t[..|key| + 2] == Quoted(key);
    assert t[|key| + 2..] == Separator(l) + value;
    DropBlankPrefix(l.beforeColon, colon);
    assert colon[1..] == l.afterColon + value;
    DropBlankPrefix(l.afterColon, value);
  }

  lemma {:induction false} DecimalDigits(n: nat)
    ensures Decimal(n) != "" && forall i :: 0 <= i < |Decimal(n)| ==> IsDigit(Decimal(n)[i])
  {
    if n >= 10 { DecimalDigits(n / 10); }
  }

  lemma {:induction false} DigitsThrough(x: string, rest: string, v: nat)
    requires forall i :: 0 <= i < |x| ==> IsDigit(x[i])
    ensures DigitValue(x + rest, v) == DigitValue(rest, DigitValue(x, v))
  {
    if x == "" {
      assert x + rest == rest;
    } else {
      assert (x + rest)[1..] == x[1..] + rest;
      DigitsThrough(x[1..], rest, (v * 10 + (x[0] as nat - '0' as nat)) % U64);
    }
  }

  lemma OneDigit(d: nat, v: nat)
    requires d < 10
    ensures DigitValue([('0' as int + d) as char], v) == (v * 10 + d) % 0x1_0000_0000_0000_0000
  {
    assert [('0' as int + d) as char][1..] == "";
  }

  lemma {:induction false} DecimalValue(n: nat)
    requires n < U64
    ensures DigitValue(Decimal(n), 0) == n
  {
    if n < 10 {
      OneDigit(n, 0);
    } else {
      DecimalValue(n / 10);
      DecimalDigits(n / 10);
      DigitsThrough(Decimal(n / 10), [('0' as int + n % 10) as char], 0);
      OneDigit(n % 10, n / 10);
    }
  }

  /** What each kind of lookup returns at the start of a written value. */
  lemma ValueRead(v: Value, after: string)
    requires ValueOk(v) && Ends(after)
    ensures SpellValue(v) != "" && !Blank(SpellValue(v)[0])
    ensures v.Text? ==>
              && StringAt(Just(SpellValue(v) + after)) == Just(Mean(v.units))
              && NumberAt(Just(SpellValue(v) + after)) == Nothing
    ensures v.Number? ==>
            NumberAt(Just(SpellValue(v) + after)) == Just(v.n) && StringAt(Just(SpellValue(v) + after)) == Nothing
  {
    match v
    case Text(units) =>
      var t := SpellValue(v) + after;
      assert t[1..] == Spell(units) + "\"" + after;
      UnescapeSpelled(units, after);
    case Number(n) =>
      DecimalDigits(n);
      DecimalValue(n);
      DigitsThrough(Decimal(n), after, 0);
  }

  /** A written value is passed over, whatever its text looks like. */
  lemma SkipValue(v: Value, after: string, key: string)
    requires ValueOk(v) && Ends(after) && Identifier(key)
    ensures ValueText(SpellValue(v) + after, key) == ValueText(after, key)
  {
    match v
    case Text(units) =>
      SpelledQuotes(units);
      assert DropBlanks(after) == after;
      assert SpellValue(v) == Quoted(Spell(units));
      SkipQuoted(Spell(units), after, key);
    case Number(n) =>
      DecimalDigits(n);
      assert '"' !in Decimal(n);
      SkipPlain(Decimal(n), after, key);
  }

  lemma BlanksHaveNoQuote(l: Layout)
    requires LayoutOk(l)
    ensures '"' !in Separator(l) && '"' !in l.afterComma
    ensures !IdentChar(Separator(l)[0])
  {
    assert forall i :: 0 <= i < |l.beforeColon| ==> Blank(l.beforeColon[i]);
    assert forall i :: 0 <= i < |l.afterColon| ==> Blank(l.afterColon[i]);
    assert forall i :: 0 <= i < |l.afterComma| ==> Blank(l.afterComma[i]);
    assert Separator(l)[0] == if l.beforeColon != "" then l.beforeColon[0] else ':';
  }

  /** A member with another key is passed over completely. */
  lemma SkipMember(m: Member, after: string, l: Layout, key: string)
    requires LayoutOk(l) && ValueOk(m.value) && Identifier(m.key) && Ends(after)
    requires Identifier(key) && m.key != key
    ensures ValueText(Quoted(m.key) + (Separator(l) + (SpellValue(m.value) + after)), key) == ValueText(after, key)
  {
    BlanksHaveNoQuote(l);
    hide SpellValue, ValueText, DropBlanks, Separator;
    var v := SpellValue(m.value) + after;
    assert m.key[0] != '"' && '"' !in m.key by { assert forall i :: 0 <= i < |m.key| ==> IdentChar(m.key[i]); }
    SkipQuoted(m.key, Separator(l) + v, key);
    SkipPlain(Separator(l), v, key);
    SkipValue(m.value, after, key);
  }

  lemma AfterEnds(members: seq<Member>, l: Layout)
    requires members != [] && forall m :: m in members ==> ValueOk(m.value)
    ensures Ends(After(members, l))
  {
  }

  /** From one member's value to the next member. */
  lemma SkipComma(members: seq<Member>, l: Layout, key: string)
    requires |members| > 1 && LayoutOk(l) && forall m :: m in members ==> ValueOk(m.value)
    ensures ValueText(After(members, l), key) == ValueText(Body(members[1..], l), key)
  {
    BlanksHaveNoQuote(l);
    hide ValueText, Body;
    SkipPlain(",", l.afterComma + Body(members[1..], l), key);
    SkipPlain(l.afterComma, Body(members[1..], l), key);
  }

  lemma {:induction false} LookupInBody(members: seq<Member>, l: Layout, i: nat) returns (after: string)
    requires i < |members| && LayoutOk(l)
    requires forall m :: m in members ==> ValueOk(m.value) && Identifier(m.key)
    requires forall j, k :: 0 <= j < k < |members| ==> members[j].key != members[k].key
    ensures Ends(after) && ValueText(Body(members, l), members[i].key) == Just(SpellValue(members[i].value) + after)
    decreases |members|
  {
    hide SpellValue, ValueText, After, Separator;
    AfterEnds(members, l);
    if i == 0 {
      after := After(members, l);
      ValueRead(members[0].value, after);
      KeyFound(members[0].key, l, SpellValue(members[0].value) + after);
    } else {
      SkipMember(members[0], After(members, l), l, members[i].key);
      SkipComma(members, l, members[i].key);
      after := LookupInBody(members[1..], l, i - 1);
    }
  }

  /** Looking up each key of a written line returns exactly its own value, as a
      string or as a number, whatever the other values contain. */
  lemma LookupReturnsOwnValue(members: seq<Member>, l: Layout, i: nat)
    requires i < |members| && LayoutOk(l)
    requires forall m :: m in members ==> ValueOk(m.value) && Identifier(m.key)
    requires forall j, k :: 0 <= j < k < |members| ==> members[j].key != members[k].key
    ensures var found := ValueText(Render(members, l), members[i].key);
            match members[i].value
            case Text(units) => StringAt(found) == Just(Mean(units)) && NumberAt(found) == Nothing
            case Number(n) => NumberAt(found) == Just(n) && StringAt(found) == Nothing
  {
    hide Body, ValueText, StringAt, NumberAt, SpellValue;
    SkipPlain("{", Body(members, l), members[i].key);
    var after := LookupInBody(members, l, i);
    ValueRead(members[i].value, after);
  }

  lemma {:induction false} AbsentFromBody(members: seq<Member>, l: Layout, key: string)
    requires LayoutOk(l) && Identifier(key)
    requires forall m :: m in members ==> ValueOk(m.value) && Identifier(m.key) && m.key != key
    ensures ValueText(Body(members, l), key) == Nothing
    decreases |members|
  {
    SkipPlain("}", "", key);
    assert "}" + "" == "}";
    NothingInNothing(key);
    if members != [] {
      hide SpellValue, ValueText, Separator;
      AfterEnds(members, l);
      SkipMember(members[0], After(members, l), l, key);
      if |members| > 1 {
        SkipComma(members, l, key);
        AbsentFromBody(members[1..], l, key);
      }
    }
  }

  lemma NothingInNothing(key: string)
    ensures ValueText("", key) == Nothing
  {
  }

  /** A key the object does not have is not found, even if a value spells it. */
  lemma LookupOfAbsentKey(members: seq<Member>, l: Layout, key: string)
    requires LayoutOk(l) && Identifier(key)
    requires forall m :: m in members ==> ValueOk(m.value) && Identifier(m.key) && m.key != key
    ensures ValueText(Render(members, l), key) == Nothing
  {
    hide Body, ValueText;
    SkipPlain("{", Body(members, l), key);
    AbsentFromBody(members, l, key);
  }

  /** A string escaped with json_escape is read back unchanged, from any line. */
  lemma EscapedRoundTrip(members: seq<Member>, l: Layout, i: nat, s: string)
    requires i < |members| && LayoutOk(l) && members[i].value == Text(UnitsOf(s))
    requires forall m :: m in members ==> ValueOk(m.value) && Identifier(m.key)
    requires forall j, k :: 0 <= j < k < |members| ==> members[j].key != members[k].key
    ensures StringAt(ValueText(Render(members, l), members[i].key)) == Just(s)
  {
    UnitsMean(s);
    LookupReturnsOwnValue(members, l, i);
  }
}
