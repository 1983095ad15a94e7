/**
 Canonical JSON text: the compact, key-sorted, ASCII-only form that is hashed for every audit row
 (RFC 8259, sections 4, 5 and 7).

 A parser is the printer's partner. Everything about the printer (equal texts mean equal values)
 is derived from the parser undoing it.
 */
module Json {
  import opened Basics

  datatype Json =
    | Null
    | Bool(b: bool)
    | Num(n: int)
    | Text(s: Str)
    | Arr(items: seq<Json>)
    | Obj(entries: seq<Entry>)  // in insertion order

  datatype Entry = Entry(key: Str, value: Json)

  // ----- Strings -----

  function HexDigit(d: int): char
    requires 0 <= d < 16
  {
    "0123456789abcdef"[d]
  }

  function HexValue(c: char): Option<int> {
    if '0' <= c <= '9' then Some(c as int - '0' as int)
    else if 'a' <= c <= 'f' then Some(c as int - 'a' as int + 10)
    else if 'A' <= c <= 'F' then Some(c as int - 'A' as int + 10)
    else None
  }

  lemma HexInverts(d: int)
    requires 0 <= d < 16
    ensures HexValue(HexDigit(d)) == Some(d)
  {
  }

  function Pow16(k: nat): nat {
    if k == 0 then 1 else 16 * Pow16(k - 1)
  }

  /** The last k hexadecimal digits of u. */
  function HexText(u: nat, k: nat): (r: string)
    ensures |r| == k
  {
    if k == 0 then [] else HexText(u / 16, k - 1) + [HexDigit(u % 16)]
  }

  function ReadHex(s: string): (r: Option<nat>)
    ensures r.Some? ==> r.value < Pow16(|s|)
  {
    if s == [] then Some(0)
    else
      var high, low := ReadHex(s[..|s| - 1]), HexValue(s[|s| - 1]);
      if high.None? || low.None? then None else Some(16 * high.value + low.value)
  }

  lemma {:induction false} ReadHexInverts(u: nat, k: nat)
    requires u < Pow16(k)
    ensures ReadHex(HexText(u, k)) == Some(u)
  {
    if k > 0 {
      HexQuotient(u, k);
      ReadHexInverts(u / 16, k - 1);
      ReadHexStep(u, k);
    }
  }

  lemma ReadHexStep(u: nat, k: nat)
    requires k > 0 && ReadHex(HexText(u / 16, k - 1)) == Some(u / 16)
    ensures ReadHex(HexText(u, k)) == Some(u)
  {
    ReadHexSnoc(HexText(u / 16, k - 1), u % 16, u / 16);
    SixteenthsAndRest(u);
  }

  lemma SixteenthsAndRest(u: nat)
    ensures u / 16 * 16 + u % 16 == u
  {
  }

  lemma HexQuotient(u: nat, k: nat)
    requires k > 0 && u < Pow16(k)
    ensures u / 16 < Pow16(k - 1)
  {
  }

  lemma ReadHexSnoc(t: string, digit: nat, value: nat)
    requires digit < 16 && ReadHex(t) == Some(value)
    ensures ReadHex(t + [HexDigit(digit)]) == Some(value * 16 + digit)
  {
    HexInverts(digit);
    assert (t + [HexDigit(digit)])[..|t|] == t;
  }

  lemma Pow16Of4()
    ensures Pow16(4) == 0x10000
  {
    assert Pow16(2) == 0x100;
  }

  function UnicodeEscape(u: nat): (r: string)
    ensures |r| == 6
  {
    ['\\', 'u'] + HexText(u, 4)
  }

  /** The code unit written by a leading six-character escape, if there is one. */
  function ReadUnicodeEscape(s: string): (r: Option<nat>)
    ensures r.Some? ==> |s| >= 6 && r.value < 0x10000
  {
    Pow16Of4();
    if |s| < 6 || s[0] != '\\' || s[1] != 'u' then None else ReadHex(s[2..6])
  }

  lemma ReadUnicodeEscapeInverts(u: nat, rest: string)
    requires u < 0x10000
    ensures ReadUnicodeEscape(UnicodeEscape(u) + rest) == Some(u)
    ensures (UnicodeEscape(u) + rest)[6..] == rest
  {
    var s := UnicodeEscape(u) + rest;
    assert s[2..6] == HexText(u, 4);
    Pow16Of4();
    ReadHexInverts(u, 4);
  }

  predicate HighSurrogate(u: int) { 0xD800 <= u < 0xDC00 }
  predicate LowSurrogate(u: int) { 0xDC00 <= u < 0xE000 }

  function Combine(high: int, low: int): CodePoint
    requires HighSurrogate(high) && LowSurrogate(low)
  {
    0x10000 + (high - 0xD800) * 0x400 + (low - 0xDC00)
  }

  function HighOf(c: CodePoint): (u: CodePoint)
    requires c >= 0x10000
    ensures HighSurrogate(u)
  {
    0xD800 + (c - 0x10000) / 0x400
  }

  function LowOf(c: CodePoint): (u: CodePoint)
    requires c >= 0x10000
    ensures LowSurrogate(u)
  {
    0xDC00 + (c - 0x10000) % 0x400
  }

  /** The letter of a two-character escape. */
  function ShortName(c: CodePoint): (r: Option<char>)
    ensures r.Some? ==> r.value != 'u'
  {
    if c == 0x22 then Some('"')
    else if c == 0x5C then Some('\\')
    else if c == 0x08 then Some('b')
    else if c == 0x0C then Some('f')
    else if c == 0x0A then Some('n')
    else if c == 0x0D then Some('r')
    else if c == 0x09 then Some('t')
    else None
  }

  /** One character of a string, escaped so that the text is printable ASCII. */
  function EscapeChar(c: CodePoint): (r: string) {
    if ShortName(c).Some? then ['\\', ShortName(c).value]
    else if 0x20 <= c <= 0x7E then [c as char]
    else if c < 0x10000 then UnicodeEscape(c)
    else UnicodeEscape(HighOf(c)) + UnicodeEscape(LowOf(c))
  }

  function Escape(s: Str): string {
    if s == [] then [] else EscapeChar(s[0]) + Escape(s[1..])
  }

  /** The character named by a two-character escape other than \u. */
  function ShortEscape(c: char): Option<CodePoint> {
    match c
    case '"' => Some(0x22)
    case '\\' => Some(0x5C)
    case '/' => Some(0x2F)
    case 'b' => Some(0x08)
    case 'f' => Some(0x0C)
    case 'n' => Some(0x0A)
    case 'r' => Some(0x0D)
    case 't' => Some(0x09)
    case _ => None
  }

  /** One character of a quoted string, and what follows it. A surrogate pair reads as one character. */
  function ReadChar(s: string): (r: Option<(CodePoint, string)>)
    ensures r.Some? ==> |r.value.1| < |s|
  {
    if s == [] || s[0] == '"' || s[0] < ' ' then None
    else if s[0] != '\\' then Some((s[0] as int, s[1..]))
    else if |s| < 2 then None
    else if s[1] != 'u' then
      var c := ShortEscape(s[1]);
      if c.None? then None else Some((c.value, s[2..]))
    else
      var u := ReadUnicodeEscape(s);
      if u.None? then None
      else
        var low := ReadUnicodeEscape(s[6..]);
        if HighSurrogate(u.value) && low.Some? && LowSurrogate(low.value)
        then Some((Combine(u.value, low.value), s[12..]))
        else Some((u.value, s[6..]))
  }

  /** The rest of a quoted string after its opening quote. */
  function ReadString(s: string): (r: Option<(Str, string)>)
    ensures r.Some? ==> |r.value.1| < |s|
    decreases |s|
  {
    if s == [] then None
    else if s[0] == '"' then Some(([], s[1..]))
    else
      var c := ReadChar(s);
      if c.None? then None
      else
        var rest := ReadString(c.value.1);
        if rest.None? then None else Some(([c.value.0] + rest.value.0, rest.value.1))
  }

  /** A string with every adjacent surrogate pair replaced by the character it encodes. */
  function Join(s: Str): (r: Str)
    ensures |r| <= |s|
  {
    if |s| < 2 then s
    else if HighSurrogate(s[0]) && LowSurrogate(s[1]) then [Combine(s[0], s[1])] + Join(s[2..])
    else [s[0]] + Join(s[1..])
  }

  /** No high surrogate is directly followed by a low one. */
  predicate Unpaired(s: Str) {
    forall i :: 0 <= i < |s| - 1 ==> !(HighSurrogate(s[i]) && LowSurrogate(s[i + 1]))
  }

  lemma {:induction false} JoinFixes(s: Str)
    ensures Join(s) == s <==> Unpaired(s)
    ensures |Join(s)| == |s| ==> Unpaired(s)
  {
    if |s| >= 2 {
      if HighSurrogate(s[0]) && LowSurrogate(s[1]) {
        assert |Join(s[2..])| <= |s| - 2;
      } else {
        JoinFixes(s[1..]);
        assert s == [s[0]] + s[1..];
        if Unpaired(s[1..]) {
          forall i | 0 <= i < |s| - 1 ensures !(HighSurrogate(s[i]) && LowSurrogate(s[i + 1])) {
            if i > 0 { assert s[i] == s[1..][i - 1] && s[i + 1] == s[1..][i]; }
          }
        } else {
          var i :| 0 <= i < |s[1..]| - 1 && HighSurrogate(s[1..][i]) && LowSurrogate(s[1..][i + 1]);
          assert HighSurrogate(s[i + 1]) && LowSurrogate(s[i + 1 + 1]);
        }
      }
    }
  }

  /** Text that does not open with an escaped low surrogate: nothing for a high surrogate to pair with. */
  predicate NoLowNext(t: string) {
    ReadUnicodeEscape(t).None? || !LowSurrogate(ReadUnicodeEscape(t).value)
  }

  lemma EscapedCharStart(c: CodePoint, rest: string)
    requires !LowSurrogate(c)
    ensures NoLowNext(EscapeChar(c) + rest)
  {
    var t := EscapeChar(c) + rest;
    if ShortName(c).Some? {
      assert t[1] == ShortName(c).value;
    } else if 0x20 <= c <= 0x7E {
      assert t[0] == c as char;
    } else if c < 0x10000 {
      ReadUnicodeEscapeInverts(c, rest);
    } else {
      assert t == UnicodeEscape(HighOf(c)) + (UnicodeEscape(LowOf(c)) + rest);
      ReadUnicodeEscapeInverts(HighOf(c), UnicodeEscape(LowOf(c)) + rest);
    }
  }

  lemma CombineInverts(c: CodePoint)
    requires c >= 0x10000
    ensures Combine(HighOf(c), LowOf(c)) == c
  {
  }

  /** Reading back two escaped surrogates in a row. */
  lemma ReadTwoEscapes(high: CodePoint, low: CodePoint, rest: string)
    requires HighSurrogate(high) && LowSurrogate(low)
    ensures ReadChar(UnicodeEscape(high) + (UnicodeEscape(low) + rest)) == Some((Combine(high, low), rest))
  {
    var tail := UnicodeEscape(low) + rest;
    var t := UnicodeEscape(high) + tail;
    ReadUnicodeEscapeInverts(high, tail);
    ReadUnicodeEscapeInverts(low, rest);
    assert t[0] == '\\' && t[1] == 'u' && t[6..] == tail;
    assert t[12..] == tail[6..];
  }

  lemma ReadShortEscape(c: CodePoint, rest: string)
    requires ShortName(c).Some?
    ensures ReadChar(['\\', ShortName(c).value] + rest) == Some((c, rest))
  {
    var t := ['\\', ShortName(c).value] + rest;
    assert t[0] == '\\' && t[1] == ShortName(c).value && t[2..] == rest;
    assert ShortEscape(ShortName(c).value) == Some(c);
  }

  lemma ReadPlain(c: CodePoint, rest: string)
    requires ShortName(c).None? && 0x20 <= c <= 0x7E
    ensures ReadChar([c as char] + rest) == Some((c, rest))
  {
    var t := [c as char] + rest;
    assert t[0] == c as char && t[1..] == rest;
  }

  lemma ReadOneEscape(c: CodePoint, rest: string)
    requires c < 0x10000 && (HighSurrogate(c) ==> NoLowNext(rest))
    ensures ReadChar(UnicodeEscape(c) + rest) == Some((c, rest))
  {
    var t := UnicodeEscape(c) + rest;
    ReadUnicodeEscapeInverts(c, rest);
    assert t[0] == '\\' && t[1] == 'u';
  }

  lemma ReadCharInverts(c: CodePoint, rest: string)
    requires HighSurrogate(c) ==> NoLowNext(rest)
    ensures ReadChar(EscapeChar(c) + rest) == Some((c, rest))
  {
    var t := EscapeChar(c) + rest;
    if ShortName(c).Some? {
      ReadShortEscape(c, rest);
    } else if 0x20 <= c <= 0x7E {
      ReadPlain(c, rest);
    } else if c < 0x10000 {
      ReadOneEscape(c, rest);
    } else {
      assert t == UnicodeEscape(HighOf(c)) + (UnicodeEscape(LowOf(c)) + rest);
      ReadTwoEscapes(HighOf(c), LowOf(c), rest);
      CombineInverts(c);
    }
  }

  lemma EscapeNotQuote(c: CodePoint, rest: string)
    ensures EscapeChar(c) + rest != [] && (EscapeChar(c) + rest)[0] != '"'
  {
    if c >= 0x10000 { assert UnicodeEscape(HighOf(c))[0] == '\\'; }
  }

  /** The text of a string from some point on, its closing quote, and what follows. */
  function Closing(s: Str, rest: string): string {
    Escape(s) + (['"'] + rest)
  }

  lemma ClosingStep(s: Str, rest: string)
    requires s != []
    ensures Closing(s, rest) == EscapeChar(s[0]) + Closing(s[1..], rest)
  {
  }

  lemma ReadOneMore(c: CodePoint, cs: Str, t: string, after: string, rest: string)
    requires t != [] && t[0] != '"'
    requires ReadChar(t) == Some((c, after)) && ReadString(after) == Some((cs, rest))
    ensures ReadString(t) == Some(([c] + cs, rest))
  {
  }

  lemma EscapeSurrogate(c: CodePoint)
    requires HighSurrogate(c) || LowSurrogate(c)
    ensures EscapeChar(c) == UnicodeEscape(c)
  {
  }

  /** Reading a printed string gives it back with its surrogate pairs joined. */
  lemma {:induction false} ReadStringInverts(s: Str, rest: string)
    ensures ReadString(Closing(s, rest)) == Some((Join(s), rest))
    decreases |s|
  {
    var t := Closing(s, rest);
    if s == [] {
      assert t[0] == '"' && t[1..] == rest;
    } else {
      ClosingStep(s, rest);
      EscapeNotQuote(s[0], Closing(s[1..], rest));
      if |s| >= 2 && HighSurrogate(s[0]) && LowSurrogate(s[1]) {
        ReadPairedStart(s, rest);
        ReadStringInverts(s[2..], rest);
        ReadOneMore(Combine(s[0], s[1]), Join(s[2..]), t, Closing(s[2..], rest), rest);
      } else {
        if HighSurrogate(s[0]) { AfterHighSurrogate(s, rest); }
        ReadCharInverts(s[0], Closing(s[1..], rest));
        ReadStringInverts(s[1..], rest);
        ReadOneMore(s[0], Join(s[1..]), t, Closing(s[1..], rest), rest);
        JoinUnpairedStart(s);
      }
    }
  }

  lemma ReadPairedStart(s: Str, rest: string)
    requires |s| >= 2 && HighSurrogate(s[0]) && LowSurrogate(s[1])
    ensures ReadChar(Closing(s, rest)) == Some((Combine(s[0], s[1]), Closing(s[2..], rest)))
  {
    ClosingStep(s, rest);
    ClosingStep(s[1..], rest);
    assert s[1..][1..] == s[2..];
    EscapeSurrogate(s[0]);
    EscapeSurrogate(s[1]);
    ReadTwoEscapes(s[0], s[1], Closing(s[2..], rest));
  }

  lemma JoinUnpairedStart(s: Str)
    requires s != [] && !(|s| >= 2 && HighSurrogate(s[0]) && LowSurrogate(s[1]))
    ensures Join(s) == [s[0]] + Join(s[1..])
  {
    if |s| == 1 { assert s == [s[0]]; }
  }

  lemma AfterHighSurrogate(s: Str, rest: string)
    requires s != [] && (|s| >= 2 ==> !LowSurrogate(s[1]))
    ensures NoLowNext(Closing(s[1..], rest))
  {
    if |s| == 1 {
      assert Closing(s[1..], rest)[0] == '"';
    } else {
      ClosingStep(s[1..], rest);
      EscapedCharStart(s[1], Closing(s[1..][1..], rest));
    }
  }

  lemma EscapeCombined(high: CodePoint, low: CodePoint)
    requires HighSurrogate(high) && LowSurrogate(low)
    ensures EscapeChar(Combine(high, low)) == EscapeChar(high) + EscapeChar(low)
  {
    var c := Combine(high, low);
    assert HighOf(c) == high && LowOf(c) == low;
  }

  /** A surrogate pair escapes like the character it encodes. */
  lemma EscapePair(s: Str)
    requires |s| >= 2 && HighSurrogate(s[0]) && LowSurrogate(s[1])
    ensures Escape(s) == EscapeChar(Combine(s[0], s[1])) + Escape(s[2..])
  {
    var a, b, rest := EscapeChar(s[0]), EscapeChar(s[1]), Escape(s[2..]);
    EscapeCombined(s[0], s[1]);
    assert s[1..][1..] == s[2..];
    EscapeFirst(s);
    EscapeFirst(s[1..]);
    Associative(a, b, rest);
  }

  lemma Associative(a: string, b: string, c: string)
    ensures a + (b + c) == (a + b) + c
  {
  }

  lemma EscapeFirst(s: Str)
    requires s != []
    ensures Escape(s) == EscapeChar(s[0]) + Escape(s[1..])
  {
  }

  lemma {:induction false} EscapeIgnoresPairing(s: Str)
    ensures Escape(Join(s)) == Escape(s)
    decreases |s|
  {
    if |s| < 2 {
    } else if HighSurrogate(s[0]) && LowSurrogate(s[1]) {
      EscapeIgnoresPairing(s[2..]);
      EscapePair(s);
      EscapeHead(Combine(s[0], s[1]), Join(s[2..]));
    } else {
      EscapeIgnoresPairing(s[1..]);
      EscapeHead(s[0], Join(s[1..]));
    }
  }

  lemma EscapeHead(c: CodePoint, s: Str)
    ensures Escape([c] + s) == EscapeChar(c) + Escape(s)
  {
    assert ([c] + s)[1..] == s;
  }

  /** Two strings print alike exactly when they are equal up to joining surrogate pairs. */
  lemma EscapeKernel(s: Str, t: Str)
    ensures Escape(s) == Escape(t) <==> Join(s) == Join(t)
  {
    ReadStringInverts(s, []);
    ReadStringInverts(t, []);
    EscapeIgnoresPairing(s);
    EscapeIgnoresPairing(t);
  }

  /** Why strings must be free of surrogate pairs: a pair and the character it encodes print alike. */
  lemma PairedStringsCollide()
    ensures Escape([0xD83D, 0xDE00]) == Escape([0x1F600])
    ensures Unpaired([0x1F600]) && !Unpaired([0xD83D, 0xDE00])
  {
    var pair: Str := [0xD83D, 0xDE00];
    assert HighSurrogate(pair[0]) && LowSurrogate(pair[0 + 1]);
    assert pair[2..] == [];
    assert Join(pair) == [Combine(0xD83D, 0xDE00)] == [0x1F600];
    EscapeIgnoresPairing(pair);
  }

  // ----- Numbers -----

  predicate Digit(c: char) { '0' <= c <= '9' }

  function NatText(n: nat): (r: string) {
    if n < 10 then [HexDigit(n)] else NatText(n / 10) + [HexDigit(n % 10)]
  }

  function IntText(n: int): string {
    if n < 0 then ['-'] + NatText(-n) else NatText(n)
  }

  function DigitRun(s: string): (k: nat)
    ensures k <= |s| && forall i :: 0 <= i < k ==> Digit(s[i])
  {
    if s != [] && Digit(s[0]) then 1 + DigitRun(s[1..]) else 0
  }

  function DigitsValue(s: string): nat
    requires forall i :: 0 <= i < |s| ==> Digit(s[i])
  {
    if s == [] then 0
    else
      assert Digit(s[|s| - 1]);
      DigitsValue(s[..|s| - 1]) * 10 + (s[|s| - 1] as int - '0' as int)
  }

  /** An unsigned integer: digits without a superfluous leading zero. */
  function ReadNat(s: string): (r: Option<(nat, string)>)
    ensures r.Some? ==> |r.value.1| < |s|
  {
    var k := DigitRun(s);
    if k == 0 || (k > 1 && s[0] == '0') then None else Some((DigitsValue(s[..k]), s[k..]))
  }

  /** What may follow a number: anything but another digit. */
  predicate NoDigitNext(rest: string) {
    rest == [] || !Digit(rest[0])
  }

  lemma {:induction false} NatTextShape(n: nat)
    ensures NatText(n) != [] && (forall i :: 0 <= i < |NatText(n)| ==> Digit(NatText(n)[i]))
    ensures DigitsValue(NatText(n)) == n
    ensures |NatText(n)| > 1 ==> NatText(n)[0] != '0'
    ensures n > 0 ==> NatText(n)[0] != '0'
  {
    if n < 10 {
      DigitAt(n);
      DigitsSnoc([], n, 0);
      assert [] + [HexDigit(n)] == [HexDigit(n)];
    } else {
      NatTextShape(n / 10);
      DigitsSnoc(NatText(n / 10), n % 10, n / 10);
      TenthsAndRest(n);
    }
  }

  lemma DigitAt(k: nat)
    requires k < 10
    ensures Digit(HexDigit(k)) && HexDigit(k) as int - '0' as int == k
    ensures k > 0 ==> HexDigit(k) != '0'
  {
  }

  lemma TenthsAndRest(n: nat)
    ensures n / 10 * 10 + n % 10 == n && (n >= 10 ==> n / 10 > 0)
  {
  }

  lemma DigitsSnoc(t: string, k: nat, value: nat)
    requires k < 10 && (forall i :: 0 <= i < |t| ==> Digit(t[i])) && DigitsValue(t) == value
    ensures forall i :: 0 <= i < |t| + 1 ==> Digit((t + [HexDigit(k)])[i])
    ensures DigitsValue(t + [HexDigit(k)]) == value * 10 + k
  {
    DigitAt(k);
    assert (t + [HexDigit(k)])[..|t|] == t;
  }

  lemma {:induction false} DigitRunOf(d: string, rest: string)
    requires forall i :: 0 <= i < |d| ==> Digit(d[i])
    requires NoDigitNext(rest)
    ensures DigitRun(d + rest) == |d|
  {
    if d == [] {
      assert d + rest == rest;
    } else {
      assert (d + rest)[1..] == d[1..] + rest;
      DigitRunOf(d[1..], rest);
    }
  }

  lemma ReadNatInverts(n: nat, rest: string)
    requires NoDigitNext(rest)
    ensures ReadNat(NatText(n) + rest) == Some((n, rest))
    ensures Digit((NatText(n) + rest)[0])
  {
    NatTextShape(n);
    DigitRunOf(NatText(n), rest);
    assert (NatText(n) + rest)[..|NatText(n)|] == NatText(n);
  }

  // ----- Values -----

  /** The compact text of a value, its objects in the order they stand. */
  function Emit(v: Json): string
    decreases v, 1
  {
    match v
    case Null => "null"
    case Bool(b) => if b then "true" else "false"
    case Num(n) => IntText(n)
    case Text(s) => ['"'] + Escape(s) + ['"']
    case Arr(items) => ['['] + EmitItems(items) + [']']
    case Obj(entries) => ['{'] + EmitEntries(entries) + ['}']
  }

  function EmitItems(items: seq<Json>): string
    decreases items, 0
  {
    if items == [] then []
    else Emit(items[0]) + (if |items| == 1 then [] else [','] + EmitItems(items[1..]))
  }

  function EmitEntry(e: Entry): string
    decreases e, 2
  {
    ['"'] + Escape(e.key) + ['"', ':'] + Emit(e.value)
  }

  function EmitEntries(entries: seq<Entry>): string
    decreases entries, 0
  {
    if entries == [] then []
    else EmitEntry(entries[0]) + (if |entries| == 1 then [] else [','] + EmitEntries(entries[1..]))
  }

  function ReadLiteral(s: string, word: string, v: Json): (r: Option<(Json, string)>)
    requires word != []
    ensures r.Some? ==> |r.value.1| < |s|
  {
    if word <= s then Some((v, s[|word|..])) else None
  }

  /** A parser for compact JSON text: one value, and what follows it. */
  function ReadValue(s: string): (r: Option<(Json, string)>)
    ensures r.Some? ==> |r.value.1| < |s|
    decreases |s|, 0
  {
    if s == [] then None
    else if s[0] == 'n' then ReadLiteral(s, "null", Null)
    else if s[0] == 't' then ReadLiteral(s, "true", Bool(true))
    else if s[0] == 'f' then ReadLiteral(s, "false", Bool(false))
    else if s[0] == '"' then
      var t := ReadString(s[1..]);
      if t.None? then None else Some((Text(t.value.0), t.value.1))
    else if s[0] == '[' then
      if |s| > 1 && s[1] == ']' then Some((Arr([]), s[2..]))
      else
        var items := ReadItems(s[1..]);
        if items.None? then None else Some((Arr(items.value.0), items.value.1))
    else if s[0] == '{' then
      if |s| > 1 && s[1] == '}' then Some((Obj([]), s[2..]))
      else
        var entries := ReadEntries(s[1..]);
        if entries.None? then None else Some((Obj(entries.value.0), entries.value.1))
    else if s[0] == '-' then
      var n := ReadNat(s[1..]);
      if n.None? then None else (var m: int := n.value.0; Some((Num(-m), n.value.1)))
    else
      var n := ReadNat(s);
      if n.None? then None else Some((Num(n.value.0), n.value.1))
  }

  /** One or more values up to and including the closing bracket. */
  function ReadItems(s: string): (r: Option<(seq<Json>, string)>)
    ensures r.Some? ==> |r.value.1| < |s|
    decreases |s|, 1
  {
    var v := ReadValue(s);
    if v.None? || v.value.1 == [] then None
    else if v.value.1[0] == ']' then Some(([v.value.0], v.value.1[1..]))
    else if v.value.1[0] != ',' then None
    else
      var more := ReadItems(v.value.1[1..]);
      if more.None? then None else Some(([v.value.0] + more.value.0, more.value.1))
  }

  /** A quoted key, a colon and a value. */
  function ReadEntry(s: string): (r: Option<(Entry, string)>)
    ensures r.Some? ==> |r.value.1| < |s|
    decreases |s|, 1
  {
    if s == [] || s[0] != '"' then None
    else
      var k := ReadString(s[1..]);
      if k.None? || k.value.1 == [] || k.value.1[0] != ':' then None
      else
        var v := ReadValue(k.value.1[1..]);
        if v.None? then None else Some((Entry(k.value.0, v.value.0), v.value.1))
  }

  /** One or more entries up to and including the closing brace. */
  function ReadEntries(s: string): (r: Option<(seq<Entry>, string)>)
    ensures r.Some? ==> |r.value.1| < |s|
    decreases |s|, 2
  {
    var e := ReadEntry(s);
    if e.None? || e.value.1 == [] then None
    else if e.value.1[0] == '}' then Some(([e.value.0], e.value.1[1..]))
    else if e.value.1[0] != ',' then None
    else
      var more := ReadEntries(e.value.1[1..]);
      if more.None? then None else Some(([e.value.0] + more.value.0, more.value.1))
  }

  /** Every string in the value, keys included, is free of surrogate pairs. */
  ghost predicate Clean(v: Json)
    decreases v, 1
  {
    match v
    case Text(s) => Unpaired(s)
    case Arr(items) => forall i :: 0 <= i < |items| ==> Clean(items[i])
    case Obj(entries) => CleanEntries(entries)
    case _ => true
  }

  ghost predicate CleanEntries(entries: seq<Entry>)
    decreases entries, 0
  {
    forall i :: 0 <= i < |entries| ==> Unpaired(entries[i].key) && Clean(entries[i].value)
  }

  lemma ReadQuoted(s: Str, rest: string)
    requires Unpaired(s)
    ensures ReadString(Closing(s, rest)) == Some((s, rest))
  {
    ReadStringInverts(s, rest);
    JoinFixes(s);
  }

  lemma ReadNonNegative(t: string, n: nat, rest: string)
    requires t != [] && Digit(t[0]) && ReadNat(t) == Some((n, rest))
    ensures ReadValue(t) == Some((Num(n), rest))
  {
  }

  lemma ReadNegative(t: string, n: int, rest: string)
    requires n >= 0 && ReadNat(t) == Some((n, rest))
    ensures ReadValue(['-'] + t) == Some((Num(-n), rest))
  {
    assert (['-'] + t)[1..] == t;
  }

  lemma ReadMinus(n: int, rest: string)
    requires n >= 0 && NoDigitNext(rest)
    ensures ReadValue(['-'] + NatText(n) + rest) == Some((Num(-n), rest))
  {
    ReadNatInverts(n, rest);
    ReadNegative(NatText(n) + rest, n, rest);
    assert ['-'] + NatText(n) + rest == ['-'] + (NatText(n) + rest);
  }

  lemma ReadNumInverts(n: int, rest: string)
    requires NoDigitNext(rest)
    ensures ReadValue(IntText(n) + rest) == Some((Num(n), rest))
  {
    if n < 0 {
      ReadMinus(-n, rest);
    } else {
      ReadNatInverts(n, rest);
      ReadNonNegative(NatText(n) + rest, n, rest);
    }
  }

  lemma ReadTextInverts(s: Str, rest: string)
    requires Unpaired(s)
    ensures ReadValue(Emit(Text(s)) + rest) == Some((Text(s), rest))
  {
    var t := Emit(Text(s)) + rest;
    assert t == ['"'] + Closing(s, rest);
    assert t[1..] == Closing(s, rest);
    ReadQuoted(s, rest);
  }

  lemma ReadLiteralInverts(word: string, v: Json, rest: string)
    requires word != []
    ensures ReadLiteral(word + rest, word, v) == Some((v, rest))
  {
  }

  /** The parser undoes the printer, whatever follows the printed value. */
  lemma {:induction false} ReadValueInverts(v: Json, rest: string)
    requires Clean(v)
    requires NoDigitNext(rest)
    ensures ReadValue(Emit(v) + rest) == Some((v, rest))
    decreases v, 1
  {
    match v {
      case Null => ReadLiteralInverts("null", v, rest);
      case Bool(b) => ReadLiteralInverts(if b then "true" else "false", v, rest);
      case Num(n) => ReadNumInverts(n, rest);
      case Text(s) => ReadTextInverts(s, rest);
      case Arr(items) => ReadArrInverts(items, rest);
      case Obj(entries) => ReadObjInverts(entries, rest);
    }
  }

  /** The first character of a printed value never closes an array or an object. */
  lemma EmitStart(v: Json)
    ensures Emit(v) != [] && Emit(v)[0] != ']' && Emit(v)[0] != '}'
  {
    if v.Num? && v.n >= 0 { NatTextShape(v.n); }
  }

  lemma {:induction false} ReadArrInverts(items: seq<Json>, rest: string)
    requires Clean(Arr(items))
    ensures ReadValue(Emit(Arr(items)) + rest) == Some((Arr(items), rest))
    decreases items, 2
  {
    var t := Emit(Arr(items)) + rest;
    assert t[0] == '[';
    if items == [] {
      assert t[1] == ']' && t[2..] == rest;
    } else {
      var inner := EmitItems(items) + [']'] + rest;
      assert t[1..] == inner;
      EmitStart(items[0]);
      assert inner[0] == Emit(items[0])[0];
      ReadItemsInverts(items, rest);
    }
  }

  lemma {:induction false} ReadItemsInverts(items: seq<Json>, rest: string)
    requires items != [] && forall i :: 0 <= i < |items| ==> Clean(items[i])
    ensures ReadItems(EmitItems(items) + [']'] + rest) == Some((items, rest))
    decreases items, 0
  {
    var t := EmitItems(items) + [']'] + rest;
    if |items| == 1 {
      assert t == Emit(items[0]) + ([']'] + rest);
      ReadValueInverts(items[0], [']'] + rest);
      ReadLastItem(t, items[0], rest);
      assert items == [items[0]];
    } else {
      var more := EmitItems(items[1..]) + [']'] + rest;
      assert t == Emit(items[0]) + ([','] + more);
      ReadValueInverts(items[0], [','] + more);
      ReadItemsInverts(items[1..], rest);
      ReadItemAndMore(t, items[0], more, items[1..], rest);
      assert items == [items[0]] + items[1..];
    }
  }

  lemma ReadLastItem(t: string, v: Json, rest: string)
    requires ReadValue(t) == Some((v, [']'] + rest))
    ensures ReadItems(t) == Some(([v], rest))
  {
    assert ([']'] + rest)[1..] == rest;
  }

  lemma ReadItemAndMore(t: string, v: Json, more: string, vs: seq<Json>, rest: string)
    requires ReadValue(t) == Some((v, [','] + more)) && ReadItems(more) == Some((vs, rest))
    ensures ReadItems(t) == Some(([v] + vs, rest))
  {
    assert ([','] + more)[1..] == more;
  }

  lemma {:induction false} ReadObjInverts(entries: seq<Entry>, rest: string)
    requires CleanEntries(entries)
    ensures ReadValue(Emit(Obj(entries)) + rest) == Some((Obj(entries), rest))
    decreases entries, 2
  {
    var t := Emit(Obj(entries)) + rest;
    assert t[0] == '{';
    if entries == [] {
      assert EmitEntries(entries) == [];
      assert t == ['{', '}'] + rest;
    } else {
      var inner := EmitEntries(entries) + ['}'] + rest;
      assert t[1..] == inner;
      assert inner[0] == EmitEntry(entries[0])[0] == '"';
      ReadEntriesInverts(entries, rest);
    }
  }

  lemma ReadEntryParts(t: string, key: Str, after: string, v: Json, rest: string)
    requires t != [] && t[0] == '"' && ReadString(t[1..]) == Some((key, after))
    requires after != [] && after[0] == ':' && ReadValue(after[1..]) == Some((v, rest))
    ensures ReadEntry(t) == Some((Entry(key, v), rest))
  {
  }

  lemma EntryText(e: Entry, rest: string)
    ensures EmitEntry(e) + rest == ['"'] + Closing(e.key, [':'] + (Emit(e.value) + rest))
  {
  }

  lemma {:induction false} ReadEntryInverts(e: Entry, rest: string)
    requires Unpaired(e.key) && Clean(e.value)
    requires NoDigitNext(rest)
    ensures ReadEntry(EmitEntry(e) + rest) == Some((e, rest))
    decreases e, 2
  {
    var after := [':'] + (Emit(e.value) + rest);
    EntryText(e, rest);
    assert (['"'] + Closing(e.key, after))[1..] == Closing(e.key, after);
    assert after[1..] == Emit(e.value) + rest;
    ReadQuoted(e.key, after);
    ReadValueInverts(e.value, rest);
    ReadEntryParts(['"'] + Closing(e.key, after), e.key, after, e.value, rest);
  }

  lemma ReadEntriesLast(t: string, e: Entry, after: string)
    requires ReadEntry(t) == Some((e, ['}'] + after))
    ensures ReadEntries(t) == Some(([e], after))
  {
    assert (['}'] + after)[1..] == after;
  }

  lemma ReadEntriesMore(t: string, e: Entry, after: string, more: seq<Entry>, rest: string)
    requires ReadEntry(t) == Some((e, [','] + after)) && ReadEntries(after) == Some((more, rest))
    ensures ReadEntries(t) == Some(([e] + more, rest))
  {
    assert ([','] + after)[1..] == after;
  }

  lemma {:induction false} ReadEntriesInverts(entries: seq<Entry>, rest: string)
    requires entries != [] && CleanEntries(entries)
    ensures ReadEntries(EmitEntries(entries) + ['}'] + rest) == Some((entries, rest))
    decreases entries, 0
  {
    var e := entries[0];
    if |entries| == 1 {
      assert EmitEntries(entries) + ['}'] + rest == EmitEntry(e) + (['}'] + rest);
      ReadEntryInverts(e, ['}'] + rest);
      ReadEntriesLast(EmitEntry(e) + (['}'] + rest), e, rest);
      assert entries == [e];
    } else {
      var more := EmitEntries(entries[1..]) + ['}'] + rest;
      assert EmitEntries(entries) + ['}'] + rest == EmitEntry(e) + ([','] + more);
      ReadEntryInverts(e, [','] + more);
      ReadEntriesInverts(entries[1..], rest);
      ReadEntriesMore(EmitEntry(e) + ([','] + more), e, more, entries[1..], rest);
      assert entries == [e] + entries[1..];
    }
  }

  // ----- Sorting objects by key -----

  function InsertEntry(e: Entry, entries: seq<Entry>): seq<Entry> {
    if entries == [] || !Less(entries[0].key, e.key) then [e] + entries
    else [entries[0]] + InsertEntry(e, entries[1..])
  }

  /** The value with every object in it sorted by key. */
  function Normalize(v: Json): Json
    decreases v, 1
  {
    match v
    case Arr(items) => Arr(NormalizeItems(items))
    case Obj(entries) => Obj(NormalizeEntries(entries))
    case _ => v
  }

  function NormalizeItems(items: seq<Json>): (r: seq<Json>)
    ensures |r| == |items|
    decreases items, 0
  {
    if items == [] then [] else [Normalize(items[0])] + NormalizeItems(items[1..])
  }

  function NormalizeEntry(e: Entry): Entry
    decreases e, 2
  {
    Entry(e.key, Normalize(e.value))
  }

  function NormalizeEntries(entries: seq<Entry>): seq<Entry>
    decreases entries, 0
  {
    if entries == [] then []
    else InsertEntry(NormalizeEntry(entries[0]), NormalizeEntries(entries[1..]))
  }

  /** The text that is hashed: sorted keys, no spaces, ASCII only. */
  function Canonical(v: Json): string {
    Emit(Normalize(v))
  }

  ghost predicate DistinctKeys(entries: seq<Entry>) {
    forall i, j :: 0 <= i < j < |entries| ==> entries[i].key != entries[j].key
  }

  /** Keys are distinct in every object of the value, as they are in a dictionary. */
  ghost predicate IsDict(v: Json)
    decreases v, 1
  {
    match v
    case Arr(items) => forall i :: 0 <= i < |items| ==> IsDict(items[i])
    case Obj(entries) => DistinctKeys(entries) && forall i :: 0 <= i < |entries| ==> IsDict(entries[i].value)
    case _ => true
  }

  /** Equality of values as the program sees it: the order of an object's entries does not matter. */
  ghost predicate Same(x: Json, y: Json)
    decreases x, 1
  {
    match (x, y)
    case (Arr(a), Arr(b)) => |a| == |b| && forall i :: 0 <= i < |a| ==> Same(a[i], b[i])
    case (Obj(a), Obj(b)) => SameEntries(a, b)
    case _ => x == y
  }

  ghost predicate SameEntries(a: seq<Entry>, b: seq<Entry>)
    decreases a, 1
  {
    && (forall i {:trigger HasMatch(a[i], b)} :: 0 <= i < |a| ==> HasMatch(a[i], b))
    && (forall j {:trigger HasMatchIn(a, b[j])} :: 0 <= j < |b| ==> HasMatchIn(a, b[j]))
  }

  ghost predicate HasMatch(e: Entry, b: seq<Entry>)
    decreases e, 3
  {
    exists j :: 0 <= j < |b| && SameEntry(e, b[j])
  }

  ghost predicate HasMatchIn(a: seq<Entry>, f: Entry)
    decreases a, 0
  {
    exists i :: 0 <= i < |a| && SameEntry(a[i], f)
  }

  ghost predicate SameEntry(e: Entry, f: Entry)
    decreases e, 2
  {
    e.key == f.key && Same(e.value, f.value)
  }

  lemma AlignedValue(a: seq<Entry>, b: seq<Entry>, i: nat)
    requires |a| == |b| && DistinctKeys(a) && SameEntries(a, b) && i < |a|
    requires forall k :: 0 <= k < |a| ==> a[k].key == b[k].key
    ensures Same(a[i].value, b[i].value)
  {
    assert HasMatch(a[i], b);
    var j :| 0 <= j < |b| && SameEntry(a[i], b[j]);
    assert a[j].key == a[i].key;
  }

  lemma AlignedEntries(a: seq<Entry>, b: seq<Entry>)
    requires |a| == |b|
    requires forall i :: 0 <= i < |a| ==> SameEntry(a[i], b[i])
    ensures SameEntries(a, b)
  {
    forall i | 0 <= i < |a| ensures HasMatch(a[i], b) { assert SameEntry(a[i], b[i]); }
    forall j | 0 <= j < |b| ensures HasMatchIn(a, b[j]) { assert SameEntry(a[j], b[j]); }
  }

  /** Dictionaries filled with the same keys in the same order are equal exactly value by value. */
  lemma AlignedDictionaries(a: seq<Entry>, b: seq<Entry>)
    requires |a| == |b| && DistinctKeys(a)
    requires forall i :: 0 <= i < |a| ==> a[i].key == b[i].key
    ensures Same(Obj(a), Obj(b)) <==> forall i :: 0 <= i < |a| ==> Same(a[i].value, b[i].value)
  {
    if SameEntries(a, b) {
      forall i | 0 <= i < |a| ensures Same(a[i].value, b[i].value) { AlignedValue(a, b, i); }
    } else if forall i :: 0 <= i < |a| ==> Same(a[i].value, b[i].value) {
      AlignedEntries(a, b);
    }
  }

  function Keys(entries: seq<Entry>): seq<Str> {
    seq(|entries|, i requires 0 <= i < |entries| => entries[i].key)
  }

  lemma {:induction false} InsertEntrySorts(e: Entry, entries: seq<Entry>)
    requires Ascending(Keys(entries))
    requires forall i :: 0 <= i < |entries| ==> entries[i].key != e.key
    ensures Ascending(Keys(InsertEntry(e, entries)))
    ensures forall f :: f in InsertEntry(e, entries) <==> f == e || f in entries
  {
    if entries != [] {
      LessTotal(entries[0].key, e.key);
      if Less(entries[0].key, e.key) {
        var tail := InsertEntry(e, entries[1..]);
        assert Keys(entries[1..]) == Keys(entries)[1..];
        InsertEntrySorts(e, entries[1..]);
        assert entries == [entries[0]] + entries[1..];
        forall i | 0 <= i < |tail| ensures Less(entries[0].key, tail[i].key) {
          assert tail[i] in tail;
          if tail[i] != e {
            var j :| 0 <= j < |entries[1..]| && entries[1..][j] == tail[i];
            assert Less(Keys(entries)[0], Keys(entries)[j + 1]);
          }
        }
        assert Keys(tail) == Keys(InsertEntry(e, entries))[1..];
      } else {
        forall i | 0 <= i < |entries| ensures Less(e.key, entries[i].key) {
          if i > 0 {
            assert Less(Keys(entries)[0], Keys(entries)[i]);
            LessTransitive(e.key, entries[0].key, entries[i].key);
          }
        }
        assert Keys(entries) == Keys(InsertEntry(e, entries))[1..];
      }
    }
  }

  ghost predicate Normalizes(entries: seq<Entry>, f: Entry) {
    exists i :: 0 <= i < |entries| && f == NormalizeEntry(entries[i])
  }

  /** Sorting keeps exactly the entries, each with its value normalized. */
  lemma {:induction false} NormalizeEntriesShape(entries: seq<Entry>)
    requires DistinctKeys(entries)
    ensures Ascending(Keys(NormalizeEntries(entries)))
    ensures forall f :: f in NormalizeEntries(entries) <==> Normalizes(entries, f)
  {
    if entries != [] {
      var head, tail := NormalizeEntry(entries[0]), NormalizeEntries(entries[1..]);
      NormalizeEntriesShape(entries[1..]);
      forall i | 0 <= i < |tail| ensures tail[i].key != head.key {
        assert tail[i] in tail;
        var j :| 0 <= j < |entries[1..]| && tail[i] == NormalizeEntry(entries[1..][j]);
        assert entries[1..][j] == entries[j + 1];
      }
      InsertEntrySorts(head, tail);
      forall f ensures f in NormalizeEntries(entries) <==> Normalizes(entries, f) {
        if f in tail {
          var j :| 0 <= j < |entries[1..]| && f == NormalizeEntry(entries[1..][j]);
          assert f == NormalizeEntry(entries[j + 1]);
        }
        if i :| 0 <= i < |entries| && f == NormalizeEntry(entries[i]) {
          if i > 0 { assert f == NormalizeEntry(entries[1..][i - 1]); }
        }
      }
    }
  }

  lemma {:induction false} NormalizeItemsShape(items: seq<Json>)
    ensures forall i :: 0 <= i < |items| ==> NormalizeItems(items)[i] == Normalize(items[i])
  {
    if items != [] { NormalizeItemsShape(items[1..]); }
  }

  /** Two sorted lists of entries with the same members are the same list. */
  lemma SortedEntriesUnique(a: seq<Entry>, b: seq<Entry>)
    requires Ascending(Keys(a)) && Ascending(Keys(b))
    requires forall e :: e in a <==> e in b
    ensures a == b
  {
    forall k ensures k in Keys(a) <==> k in Keys(b) {
      if k in Keys(a) {
        var i :| 0 <= i < |a| && Keys(a)[i] == k;
        assert a[i] in b;
        var j :| 0 <= j < |b| && b[j] == a[i];
        assert Keys(b)[j] == k;
      }
      if k in Keys(b) {
        var i :| 0 <= i < |b| && Keys(b)[i] == k;
        assert b[i] in a;
        var j :| 0 <= j < |a| && a[j] == b[i];
        assert Keys(a)[j] == k;
      }
    }
    AscendingUnique(Keys(a), Keys(b));
    assert |a| == |Keys(a)| == |Keys(b)| == |b|;
    forall i | 0 <= i < |a| ensures a[i] == b[i] {
      assert a[i] in b;
      var j :| 0 <= j < |b| && b[j] == a[i];
      assert Keys(b)[i] == Keys(a)[i] == Keys(b)[j];
      LessTotal(Keys(b)[i], Keys(b)[j]);
    }
  }

  lemma {:induction false} NormalizeKeepsClean(v: Json)
    requires Clean(v) && IsDict(v)
    ensures Clean(Normalize(v))
  {
    match v {
      case Arr(items) =>
        NormalizeItemsShape(items);
        forall i | 0 <= i < |items| ensures Clean(NormalizeItems(items)[i]) { NormalizeKeepsClean(items[i]); }
      case Obj(entries) =>
        var sorted := NormalizeEntries(entries);
        NormalizeEntriesShape(entries);
        forall i | 0 <= i < |sorted| ensures Unpaired(sorted[i].key) && Clean(sorted[i].value) {
          assert sorted[i] in sorted;
          var j :| 0 <= j < |entries| && sorted[i] == NormalizeEntry(entries[j]);
          NormalizeKeepsClean(entries[j].value);
        }
      case _ =>
    }
  }

  ghost predicate SortingAgrees(a: seq<Entry>, b: seq<Entry>) {
    forall i, j :: 0 <= i < |a| && 0 <= j < |b| ==>
      (SameEntry(a[i], b[j]) <==> NormalizeEntry(a[i]) == NormalizeEntry(b[j]))
  }

  /** Sorting identifies exactly the values that are equal up to the order of entries. */
  lemma {:induction false} NormalizeKernel(x: Json, y: Json)
    requires IsDict(x) && IsDict(y)
    ensures Normalize(x) == Normalize(y) <==> Same(x, y)
    decreases x
  {
    match (x, y) {
      case (Arr(a), Arr(b)) =>
        NormalizeItemsShape(a);
        NormalizeItemsShape(b);
        if |a| == |b| {
          forall i | 0 <= i < |a| ensures Normalize(a[i]) == Normalize(b[i]) <==> Same(a[i], b[i]) {
            NormalizeKernel(a[i], b[i]);
          }
          if Same(x, y) { assert NormalizeItems(a) == NormalizeItems(b); }
        }
      case (Obj(a), Obj(b)) =>
        forall i, j | 0 <= i < |a| && 0 <= j < |b|
          ensures SameEntry(a[i], b[j]) <==> NormalizeEntry(a[i]) == NormalizeEntry(b[j])
        {
          NormalizeKernel(a[i].value, b[j].value);
        }
        if Same(x, y) { SameSortsEqual(a, b); }
        if Normalize(x) == Normalize(y) { EqualSortsAreSame(a, b); }
      case _ =>
    }
  }

  lemma EqualSortsAreSame(a: seq<Entry>, b: seq<Entry>)
    requires DistinctKeys(a) && DistinctKeys(b) && SortingAgrees(a, b)
    requires NormalizeEntries(a) == NormalizeEntries(b)
    ensures SameEntries(a, b)
  {
    NormalizeEntriesShape(a);
    NormalizeEntriesShape(b);
    forall i | 0 <= i < |a| ensures HasMatch(a[i], b) {
      assert Normalizes(a, NormalizeEntry(a[i]));
      assert Normalizes(b, NormalizeEntry(a[i]));
      var j :| 0 <= j < |b| && NormalizeEntry(a[i]) == NormalizeEntry(b[j]);
      assert SameEntry(a[i], b[j]);
    }
    forall j | 0 <= j < |b| ensures HasMatchIn(a, b[j]) {
      assert Normalizes(b, NormalizeEntry(b[j]));
      assert Normalizes(a, NormalizeEntry(b[j]));
      var i :| 0 <= i < |a| && NormalizeEntry(b[j]) == NormalizeEntry(a[i]);
      assert SameEntry(a[i], b[j]);
    }
  }

  lemma SameNormalizes(a: seq<Entry>, b: seq<Entry>, e: Entry)
    requires SortingAgrees(a, b) && SameEntries(a, b)
    ensures Normalizes(a, e) <==> Normalizes(b, e)
  {
    if i :| 0 <= i < |a| && e == NormalizeEntry(a[i]) {
      assert HasMatch(a[i], b);
      var j :| 0 <= j < |b| && SameEntry(a[i], b[j]);
      assert e == NormalizeEntry(b[j]);
    }
    if j :| 0 <= j < |b| && e == NormalizeEntry(b[j]) {
      assert HasMatchIn(a, b[j]);
      var i :| 0 <= i < |a| && SameEntry(a[i], b[j]);
      assert e == NormalizeEntry(a[i]);
    }
  }

  lemma SameSortsEqual(a: seq<Entry>, b: seq<Entry>)
    requires DistinctKeys(a) && DistinctKeys(b) && SortingAgrees(a, b)
    requires SameEntries(a, b)
    ensures NormalizeEntries(a) == NormalizeEntries(b)
  {
    NormalizeEntriesShape(a);
    NormalizeEntriesShape(b);
    forall e ensures e in NormalizeEntries(a) <==> e in NormalizeEntries(b) {
      SameNormalizes(a, b, e);
    }
    SortedEntriesUnique(NormalizeEntries(a), NormalizeEntries(b));
  }

  // ----- The canonical text -----

  /** In every object of the value, at any depth, the keys strictly ascend by code point. */
  ghost predicate KeysSorted(v: Json)
    decreases v, 1
  {
    match v
    case Arr(items) => forall i :: 0 <= i < |items| ==> KeysSorted(items[i])
    case Obj(entries) =>
      DictionarySorted(Keys(entries)) && forall i :: 0 <= i < |entries| ==> KeysSorted(entries[i].value)
    case _ => true
  }

  lemma {:induction false} NormalizeSortsKeys(v: Json)
    requires IsDict(v)
    ensures KeysSorted(Normalize(v))
  {
    match v {
      case Arr(items) =>
        NormalizeItemsShape(items);
        forall i | 0 <= i < |items| ensures KeysSorted(NormalizeItems(items)[i]) { NormalizeSortsKeys(items[i]); }
      case Obj(entries) =>
        var sorted := NormalizeEntries(entries);
        NormalizeEntriesShape(entries);
        AscendingIsDictionarySorted(Keys(sorted));
        forall i | 0 <= i < |sorted| ensures KeysSorted(sorted[i].value) {
          assert sorted[i] in sorted;
          var j :| 0 <= j < |entries| && sorted[i] == NormalizeEntry(entries[j]);
          NormalizeSortsKeys(entries[j].value);
        }
      case _ =>
    }
  }

  /** Sorting changes nothing that the program can see. */
  lemma {:induction false} NormalizeIsSame(v: Json)
    requires IsDict(v)
    ensures Same(v, Normalize(v))
  {
    match v {
      case Arr(items) =>
        NormalizeItemsShape(items);
        forall i | 0 <= i < |items| ensures Same(items[i], NormalizeItems(items)[i]) { NormalizeIsSame(items[i]); }
      case Obj(entries) =>
        forall i | 0 <= i < |entries| ensures SameEntry(entries[i], NormalizeEntry(entries[i])) {
          NormalizeIsSame(entries[i].value);
        }
        SortedIsSame(entries);
      case _ =>
    }
  }

  lemma SortedIsSame(entries: seq<Entry>)
    requires DistinctKeys(entries)
    requires forall i :: 0 <= i < |entries| ==> SameEntry(entries[i], NormalizeEntry(entries[i]))
    ensures SameEntries(entries, NormalizeEntries(entries))
  {
    var sorted := NormalizeEntries(entries);
    NormalizeEntriesShape(entries);
    forall i | 0 <= i < |entries| ensures HasMatch(entries[i], sorted) {
      assert Normalizes(entries, NormalizeEntry(entries[i]));
      var j :| 0 <= j < |sorted| && sorted[j] == NormalizeEntry(entries[i]);
      assert SameEntry(entries[i], sorted[j]);
    }
    forall j | 0 <= j < |sorted| ensures HasMatchIn(entries, sorted[j]) {
      assert sorted[j] in sorted;
      var i :| 0 <= i < |entries| && sorted[j] == NormalizeEntry(entries[i]);
      assert SameEntry(entries[i], sorted[j]);
    }
  }

  /**
   The canonical text parses back to the value it was printed from, the keys of every object in it strictly
   ascending.
   */
  lemma CanonicalRoundTrip(v: Json)
    requires Clean(v) && IsDict(v)
    ensures ReadValue(Canonical(v)) == Some((Normalize(v), []))
    ensures KeysSorted(Normalize(v)) && Same(v, Normalize(v))
  {
    NormalizeKeepsClean(v);
    ReadValueInverts(Normalize(v), []);
    NormalizeSortsKeys(v);
    NormalizeIsSame(v);
    assert Emit(Normalize(v)) + [] == Emit(Normalize(v));
  }

  ghost predicate PrintableAscii(t: string) {
    forall i :: 0 <= i < |t| ==> ' ' <= t[i] <= '~'
  }

  lemma {:induction false} HexTextAscii(u: nat, k: nat)
    ensures PrintableAscii(HexText(u, k))
  {
    if k > 0 { HexTextAscii(u / 16, k - 1); }
  }

  lemma {:induction false} EscapeAscii(s: Str)
    ensures PrintableAscii(Escape(s))
  {
    if s != [] {
      var c := s[0];
      if 0x10000 <= c {
        HexTextAscii(HighOf(c), 4);
        HexTextAscii(LowOf(c), 4);
      } else {
        HexTextAscii(c, 4);
      }
      EscapeAscii(s[1..]);
    }
  }

  lemma {:induction false} NatTextAscii(n: nat)
    ensures PrintableAscii(NatText(n))
  {
    if n >= 10 { NatTextAscii(n / 10); }
  }

  lemma EmitScalarAscii(v: Json)
    requires !v.Arr? && !v.Obj?
    ensures PrintableAscii(Emit(v))
  {
    match v {
      case Num(n) => NatTextAscii(if n < 0 then -n else n);
      case Text(s) => EscapeAscii(s);
      case _ =>
    }
  }

  /** Whatever characters the strings of a value hold, its text is printable ASCII. */
  lemma {:induction false} EmitAscii(v: Json)
    ensures PrintableAscii(Emit(v))
    decreases v, 1
  {
    match v {
      case Arr(items) => EmitItemsAscii(items);
      case Obj(entries) => EmitEntriesAscii(entries);
      case _ => EmitScalarAscii(v);
    }
  }

  lemma {:induction false} EmitItemsAscii(items: seq<Json>)
    ensures PrintableAscii(EmitItems(items))
    decreases items, 0
  {
    if items != [] {
      EmitAscii(items[0]);
      EmitItemsAscii(items[1..]);
    }
  }

  lemma {:induction false} EmitEntriesAscii(entries: seq<Entry>)
    ensures PrintableAscii(EmitEntries(entries))
    decreases entries, 0
  {
    if entries != [] {
      var e := entries[0];
      EscapeAscii(e.key);
      EmitAscii(e.value);
      EmitEntriesAscii(entries[1..]);
    }
  }

  /** Four lower-case hexadecimal digits, the leading one first. */
  function FourDigits(u: int): string
    requires 0 <= u < 0x10000
  {
    var hex := "0123456789abcdef";
    [hex[u / 0x1000], hex[u / 0x100 % 0x10], hex[u / 0x10 % 0x10], hex[u % 0x10]]
  }

  lemma UnicodeEscapeSpelledOut(u: nat)
    requires u < 0x10000
    ensures UnicodeEscape(u) == "\\u" + FourDigits(u)
  {
    assert HexText(u, 1) == [HexDigit(u % 16)];
    assert u / 16 / 16 == u / 0x100 && u / 16 / 16 / 16 == u / 0x1000;
    var a, b, c := u / 0x1000, u / 0x100, u / 0x10;
    assert HexText(a, 1) == HexText(a / 16, 0) + [HexDigit(a % 16)] == [HexDigit(a)];
    assert HexText(b, 2) == HexText(a, 1) + [HexDigit(b % 16)];
    assert HexText(c, 3) == HexText(b, 2) + [HexDigit(c % 16)];
    assert HexText(u, 4) == HexText(c, 3) + [HexDigit(u % 16)];
  }

  /**
   How each character is written: itself if printable ASCII; the seven short escapes; otherwise one \u escape in
   lower-case hexadecimal, or two, for the surrogate pair of a character beyond the basic plane.
   */
  lemma EscapeSpelledOut(c: CodePoint)
    ensures EscapeChar(c) ==
            if c == '"' as int then "\\\""
            else if c == '\\' as int then "\\\\"
            else if c == 8 then "\\b"
            else if c == 9 then "\\t"
            else if c == 10 then "\\n"
            else if c == 12 then "\\f"
            else if c == 13 then "\\r"
            else if ' ' as int <= c <= '~' as int then [c as char]
            else if c <= 0xFFFF then "\\u" + FourDigits(c)
            else "\\u" + FourDigits(0xD800 + (c - 0x10000) / 0x400) + "\\u" + FourDigits(0xDC00 + (c - 0x10000) % 0x400)
  {
    if c > 0xFFFF { PairSpelledOut(c); } else { UnicodeEscapeSpelledOut(c); }
  }

  lemma PairSpelledOut(c: CodePoint)
    requires c > 0xFFFF
    ensures EscapeChar(c) ==
            "\\u" + FourDigits(0xD800 + (c - 0x10000) / 0x400) + "\\u" + FourDigits(0xDC00 + (c - 0x10000) % 0x400)
  {
    var high, low := HighOf(c), LowOf(c);
    UnicodeEscapeSpelledOut(high);
    UnicodeEscapeSpelledOut(low);
    assert EscapeChar(c) == UnicodeEscape(high) + UnicodeEscape(low);
    Associative("\\u" + FourDigits(high), "\\u", FourDigits(low));
  }

  /** Printable text without quotes and backslashes. */
  ghost predicate Plain(t: string) {
    forall i :: 0 <= i < |t| ==> ' ' <= t[i] <= '~' && t[i] != '"' && t[i] != '\\'
  }

  /** Plain text is written as it is. */
  lemma {:induction false} EscapePlain(t: string)
    requires Plain(t)
    ensures Escape(Lit(t)) == t
  {
    if t != [] {
      assert Lit(t)[1..] == Lit(t[1..]);
      EscapePlain(t[1..]);
      assert t == [t[0]] + t[1..];
    }
  }

  /** Canonical texts are equal exactly for values that are equal up to the order of entries. */
  lemma CanonicalKernel(x: Json, y: Json)
    requires Clean(x) && IsDict(x) && Clean(y) && IsDict(y)
    ensures Canonical(x) == Canonical(y) <==> Same(x, y)
  {
    CanonicalRoundTrip(x);
    CanonicalRoundTrip(y);
    NormalizeKernel(x, y);
  }

  /** The order in which a dictionary was filled does not show in its canonical text. */
  lemma CanonicalIgnoresInsertionOrder(a: seq<Entry>, b: seq<Entry>)
    requires DistinctKeys(a) && DistinctKeys(b)
    requires forall e :: e in a <==> e in b
    ensures Canonical(Obj(a)) == Canonical(Obj(b))
  {
    NormalizeEntriesShape(a);
    NormalizeEntriesShape(b);
    forall e ensures e in NormalizeEntries(a) <==> e in NormalizeEntries(b) {
      if i :| 0 <= i < |a| && e == NormalizeEntry(a[i]) { assert a[i] in b; }
      if i :| 0 <= i < |b| && e == NormalizeEntry(b[i]) { assert b[i] in a; }
    }
    SortedEntriesUnique(NormalizeEntries(a), NormalizeEntries(b));
  }

  // ----- The text, part by part -----

  function Quoted(s: Str): string {
    "\"" + Escape(s) + "\""
  }

  /** The parts with a separator between them. */
  function Joined(separator: string, parts: seq<string>): string {
    if parts == [] then [] else if |parts| == 1 then parts[0] else parts[0] + separator + Joined(separator, parts[1..])
  }

  function EntryTexts(entries: seq<Entry>): seq<string> {
    seq(|entries|, i requires 0 <= i < |entries| => EmitEntry(entries[i]))
  }

  /** The members of an object are separated by bare commas. */
  lemma {:induction false} EntriesAreJoined(entries: seq<Entry>)
    ensures EmitEntries(entries) == Joined(",", EntryTexts(entries))
  {
    if |entries| > 1 {
      EntriesAreJoined(entries[1..]);
      assert EntryTexts(entries)[1..] == EntryTexts(entries[1..]);
      Associative(EmitEntry(entries[0]), ",", EmitEntries(entries[1..]));
    }
  }

  function Braced(t: string): string {
    ['{'] + t + ['}']
  }

  function ItemTexts(items: seq<Json>): seq<string> {
    seq(|items|, i requires 0 <= i < |items| => Emit(items[i]))
  }

  lemma {:induction false} ItemsAreJoined(items: seq<Json>)
    ensures EmitItems(items) == Joined(",", ItemTexts(items))
  {
    if |items| > 1 {
      ItemsAreJoined(items[1..]);
      assert ItemTexts(items)[1..] == ItemTexts(items[1..]);
      Associative(Emit(items[0]), ",", EmitItems(items[1..]));
    }
  }

  /** The whole text layout: literals, quoted strings, and lists and members separated by bare commas and colons. */
  lemma LayoutSpelledOut(v: Json)
    ensures Emit(v) ==
            match v
            case Null => "null"
            case Bool(b) => if b then "true" else "false"
            case Num(n) => IntText(n)
            case Text(s) => "\"" + Escape(s) + "\""
            case Arr(items) => "[" + Joined(",", seq(|items|, i requires 0 <= i < |items| => Emit(items[i]))) + "]"
            case Obj(entries) =>
              Braced(Joined(",", seq(|entries|, i requires 0 <= i < |entries| =>
                "\"" + Escape(entries[i].key) + "\":" + Emit(entries[i].value))))
  {
    match v {
      case Arr(items) =>
        ItemsAreJoined(items);
        assert ItemTexts(items) == seq(|items|, i requires 0 <= i < |items| => Emit(items[i]));
      case Obj(entries) =>
        var texts := seq(|entries|, i requires 0 <= i < |entries| =>
          "\"" + Escape(entries[i].key) + "\":" + Emit(entries[i].value));
        EntriesAreJoined(entries);
        assert EntryTexts(entries) == texts;
      case _ =>
    }
  }

  /** The members of an object: the quoted key, a bare colon, the value. */
  function Members(names: seq<string>, texts: seq<string>): seq<string>
    requires |names| == |texts|
  {
    seq(|names|, i requires 0 <= i < |names| => "\"" + names[i] + "\":" + texts[i])
  }

  lemma PlainEntry(name: string, v: Json)
    requires Plain(name)
    ensures EmitEntry(Entry(Lit(name), v)) == "\"" + name + "\":" + Emit(v)
  {
    EscapePlain(name);
  }

  lemma PlainEntries(names: seq<string>, texts: seq<string>, entries: seq<Entry>)
    requires |names| == |texts| == |entries|
    requires forall i :: 0 <= i < |names| ==> Plain(names[i]) && entries[i].key == Lit(names[i])
    requires forall i :: 0 <= i < |texts| ==> texts[i] == Emit(entries[i].value)
    ensures EntryTexts(entries) == Members(names, texts)
  {
    forall i | 0 <= i < |names| ensures EntryTexts(entries)[i] == Members(names, texts)[i] {
      PlainEntry(names[i], entries[i].value);
    }
  }
}
