/**
 * The bridge's Socket.IO codec: bytes go out as an event packet with a JSON array of
 * numbers, and an incoming packet is told apart by its prefix and decoded again.
 */
module Codec {
  import opened Wrappers
  import opened Addresses

  /** A `char` of a byte array. */
  type Byte = b: int | -128 <= b < 128

  function Unsigned(b: Byte): (n: nat)
    ensures n < 256
  {
    if b < 0 then b + 256 else b
  }

  /** Conversion of an `int` to `char`: the low eight bits. */
  function LowByte(n: int): Byte {
    var low := n % 256;
    if low < 128 then low else low - 256
  }

  // ---------------------------------------------------------------- JSON

  datatype Json = Null | Bool(value: bool) | Num(n: int) | Str(text: string) | Arr(items: seq<Json>)

  function HexDigit(n: nat): (c: char)
    requires n < 16
    ensures HexValue(c) == Some(n)
  {
    if n < 10 then DigitChar(n) else 'a' + (n - 10) as char
  }

  function HexValue(c: char): (n: Option<nat>)
    ensures n.Some? ==> n.value < 16
  {
    if IsDigit(c) then Some(DigitValue(c))
    else if 'a' <= c <= 'f' then Some(c as nat - 'a' as nat + 10)
    else if 'A' <= c <= 'F' then Some(c as nat - 'A' as nat + 10)
    else None
  }

  /** Control characters with an escape letter of their own. */
  function ShortEscape(c: char): Option<char> {
    var n := c as nat;
    if c == '"' || c == '\\' then Some(c)
    else if n == 8 then Some('b')
    else if n == 12 then Some('f')
    else if n == 10 then Some('n')
    else if n == 13 then Some('r')
    else if n == 9 then Some('t')
    else None
  }

  /** A character as it is written inside a string. */
  function Escape(c: char): string {
    if ShortEscape(c).Some? then ['\\', ShortEscape(c).value]
    else if c < ' ' then ['\\', 'u', '0', '0', HexDigit(c as nat / 16), HexDigit(c as nat % 16)]
    else [c]
  }

  function Escaped(s: string): string {
    if s == "" then "" else Escape(s[0]) + Escaped(s[1..])
  }

  /** The escapes by the letter, as section 7 of RFC 8259 has them. */
  lemma EscapesWritten(c: char)
    ensures Escape('"') == ['\\', '"'] && Escape('\\') == ['\\', '\\']
    ensures Escape(8 as char) == ['\\', 'b'] && Escape(12 as char) == ['\\', 'f']
    ensures Escape('\n') == ['\\', 'n'] && Escape('\r') == ['\\', 'r'] && Escape('\t') == ['\\', 't']
    ensures Escape(31 as char) == ['\\', 'u', '0', '0', '1', 'f']
    ensures c >= ' ' && c != '"' && c != '\\' ==> Escape(c) == [c]
    ensures c < ' ' ==> |Escape(c)| in {2, 6} && Escape(c)[0] == '\\'
  {
  }

  /** No character of the string needs an escape. */
  predicate PlainText(s: string) {
    forall c :: c in s ==> c != '"' && c != '\\' && ' ' <= c
  }

  lemma {:induction false} PlainIsEscaped(s: string)
    requires PlainText(s)
    ensures Escaped(s) == s
  {
    if s != "" {
      assert s[0] in s && forall c :: c in s[1..] ==> c in s;
      PlainIsEscaped(s[1..]);
      PlainEscape(s[0]);
      assert s == [s[0]] + s[1..];
    }
  }

  lemma PlainEscape(c: char)
    requires c != '"' && c != '\\' && ' ' <= c
    ensures Escape(c) == [c]
  {
  }

  /** Compact text, as the JSON writer produces it. */
  function Print(v: Json): string
    decreases v, 1, 0
  {
    match v
    case Null => "null"
    case Bool(b) => if b then "true" else "false"
    case Num(n) => if n < 0 then "-" + Digits(-n) else Digits(n)
    case Str(s) => "\"" + Escaped(s) + "\""
    case Arr(items) => if items == [] then "[]" else "[" + PrintItems(v, 0)
  }

  /** The items from the `i`-th on, with the closing bracket. */
  function PrintItems(v: Json, i: nat): string
    requires v.Arr? && i < |v.items|
    decreases v, 0, 2 * (|v.items| - i)
  {
    Print(v.items[i]) + PrintTail(v, i + 1)
  }

  /** What follows an item: the bracket, or a comma and the items from the `i`-th on. */
  function PrintTail(v: Json, i: nat): string
    requires v.Arr? && i <= |v.items|
    decreases v, 0, 2 * (|v.items| - i) + 1
  {
    if i == |v.items| then "]" else "," + PrintItems(v, i)
  }

  datatype Parsed<T> = Failed | Parsed(value: T, rest: string)

  predicate IsSpace(c: char) {
    c == ' ' || c == '\t' || c == '\n' || c == '\r'
  }

  function SkipSpace(s: string): (r: string)
    ensures |r| <= |s| && (s != "" && !IsSpace(s[0]) ==> r == s)
  {
    if s != "" && IsSpace(s[0]) then SkipSpace(s[1..]) else s
  }

  function DigitRun(s: string): (n: nat)
    ensures n <= |s| && AllDigits(s[..n]) && (n < |s| ==> !IsDigit(s[n]))
  {
    if s == "" || !IsDigit(s[0]) then 0
    else
      var n := DigitRun(s[1..]);
      assert s[..n + 1] == [s[0]] + s[1..][..n];
      n + 1
  }

  /** A fraction or an exponent would follow. */
  predicate StartsFraction(s: string) {
    s != "" && (s[0] == '.' || s[0] == 'e' || s[0] == 'E')
  }

  /** An unsigned integer without leading zeros. */
  function ParseNumber(s: string): (r: Parsed<nat>)
    ensures r.Parsed? ==> |r.rest| < |s|
  {
    var n := DigitRun(s);
    if n == 0 || (n > 1 && s[0] == '0') || StartsFraction(s[n..]) then Failed else Parsed(NumberOf(s[..n]), s[n..])
  }

  /** The character an escape letter stands for. */
  function ShortValue(c: char): Option<char> {
    if c == '"' || c == '\\' || c == '/' then Some(c)
    else if c == 'b' then Some(8 as char)
    else if c == 'f' then Some(12 as char)
    else if c == 'n' then Some(10 as char)
    else if c == 'r' then Some(13 as char)
    else if c == 't' then Some(9 as char)
    else None
  }

  /** Four hexadecimal digits, unless they name half of a surrogate pair. */
  function HexChar(s: string): Option<char>
    requires |s| == 4
  {
    var a, b, c, d := HexValue(s[0]), HexValue(s[1]), HexValue(s[2]), HexValue(s[3]);
    if a.None? || b.None? || c.None? || d.None? then None
    else
      var n := ((a.value * 16 + b.value) * 16 + c.value) * 16 + d.value;
      if n < 0xD800 || 0xE000 <= n < 0x1_0000 then Some(n as char) else None
  }

  /** One character of a string, plain or escaped. */
  function ParseChar(s: string): (r: Parsed<char>)
    ensures r.Parsed? ==> |r.rest| < |s|
  {
    if s == "" || s[0] < ' ' then Failed
    else if s[0] != '\\' then Parsed(s[0], s[1..])
    else if |s| >= 2 && ShortValue(s[1]).Some? then Parsed(ShortValue(s[1]).value, s[2..])
    else if |s| >= 6 && s[1] == 'u' && HexChar(s[2..6]).Some? then Parsed(HexChar(s[2..6]).value, s[6..])
    else Failed
  }

  /** The rest of a string, up to the closing quote. */
  function ParseText(s: string): (r: Parsed<string>)
    ensures r.Parsed? ==> |r.rest| < |s|
  {
    if s != "" && s[0] == '"' then Parsed("", s[1..])
    else
      var first := ParseChar(s);
      if first.Failed? then Failed else WithFirst(first.value, ParseText(first.rest))
  }

  function WithFirst(c: char, tail: Parsed<string>): (r: Parsed<string>)
    ensures r.Parsed? ==> tail.Parsed? && r.rest == tail.rest
  {
    if tail.Failed? then Failed else Parsed([c] + tail.value, tail.rest)
  }

  function AsText(p: Parsed<string>): Parsed<Json> {
    if p.Failed? then Failed else Parsed(Str(p.value), p.rest)
  }

  function AsNumber(p: Parsed<nat>, negative: bool): Parsed<Json> {
    if p.Failed? then Failed else Parsed(Num(if negative then 0 - p.value else p.value), p.rest)
  }

  function AsArray(p: Parsed<seq<Json>>): Parsed<Json> {
    if p.Failed? then Failed else Parsed(Arr(p.value), p.rest)
  }

  function ParseLiteral(s: string): (r: Parsed<Json>)
    ensures r.Parsed? ==> |r.rest| < |s|
  {
    if "null" <= s then Parsed(Null, s[4..])
    else if "true" <= s then Parsed(Bool(true), s[4..])
    else if "false" <= s then Parsed(Bool(false), s[5..])
    else Failed
  }

  function ParseValue(s: string): (r: Parsed<Json>)
    ensures r.Parsed? ==> |r.rest| < |s|
    decreases |s|, 0
  {
    var t := SkipSpace(s);
    if t == "" then Failed
    else if t[0] == '"' then AsText(ParseText(t[1..]))
    else if t[0] == '-' then AsNumber(ParseNumber(t[1..]), true)
    else if IsDigit(t[0]) then AsNumber(ParseNumber(t), false)
    else if t[0] == '[' then
      var first := SkipSpace(t[1..]);
      if first != "" && first[0] == ']' then Parsed(Arr([]), first[1..]) else AsArray(ParseItems(t[1..]))
    else ParseLiteral(t)
  }

  /** One item or more, up to the closing bracket. */
  function ParseItems(s: string): (r: Parsed<seq<Json>>)
    ensures r.Parsed? ==> |r.rest| < |s|
    decreases |s|, 1
  {
    var head := ParseValue(s);
    if head.Failed? then Failed else Prepended(head.value, ParseTail(head.rest))
  }

  /** What follows an item. */
  function ParseTail(s: string): (r: Parsed<seq<Json>>)
    ensures r.Parsed? ==> |r.rest| < |s|
    decreases |s|, 2
  {
    var t := SkipSpace(s);
    if t != "" && t[0] == ']' then Parsed([], t[1..])
    else if t != "" && t[0] == ',' then ParseItems(t[1..])
    else Failed
  }

  function Prepended(v: Json, tail: Parsed<seq<Json>>): Parsed<seq<Json>> {
    if tail.Failed? then Failed else Parsed([v] + tail.value, tail.rest)
  }

  /** A whole document: one value and white space. */
  function ParseDocument(s: string): Option<Json> {
    var r := ParseValue(s);
    if r.Parsed? && SkipSpace(r.rest) == "" then Some(r.value) else None
  }

  // ------------------------------------------------- printing and parsing

  lemma {:induction false} NoLeadingZero(n: nat)
    requires n > 0
    ensures Digits(n)[0] != '0'
  {
    if n >= 10 {
      NoLeadingZero(n / 10);
    }
  }

  lemma {:induction false} RunOfDigits(d: string, rest: string)
    requires AllDigits(d) && (rest == "" || !IsDigit(rest[0]))
    ensures DigitRun(d + rest) == |d|
  {
    if d == "" {
      assert d + rest == rest;
    } else {
      RunOfDigits(d[1..], rest);
      assert (d + rest)[1..] == d[1..] + rest;
    }
  }

  /** What may follow a number. */
  predicate EndsNumber(rest: string) {
    rest == "" || !(IsDigit(rest[0]) || StartsFraction(rest))
  }

  lemma NumberParses(n: nat, rest: string)
    requires EndsNumber(rest)
    ensures ParseNumber(Digits(n) + rest) == Parsed(n, rest)
  {
    var d := Digits(n);
    RunOfDigits(d, rest);
    assert (d + rest)[..|d|] == d && (d + rest)[|d|..] == rest;
    NumberOfDigits(n);
    if n >= 10 {
      NoLeadingZero(n);
    }
  }

  /** Reading one written character. */
  lemma CharParses(c: char, tail: string)
    ensures Escape(c)[0] != '"' && ParseChar(Escape(c) + tail) == Parsed(c, tail)
  {
    var s := Escape(c) + tail;
    assert s[|Escape(c)|..] == tail;
    if ShortEscape(c).None? && c < ' ' {
      ControlParses(c);
      assert s[2..6] == ['0', '0', HexDigit(c as nat / 16), HexDigit(c as nat % 16)];
    }
  }

  lemma ControlParses(c: char)
    requires c < ' '
    ensures HexChar(['0', '0', HexDigit(c as nat / 16), HexDigit(c as nat % 16)]) == Some(c)
  {
    var n := c as nat;
    assert HexValue('0') == Some(0);
    assert n / 16 * 16 + n % 16 == n;
    assert n as char == c;
  }

  lemma {:induction false} TextParses(s: string, rest: string)
    ensures ParseText(Escaped(s) + "\"" + rest) == Parsed(s, rest)
  {
    var tail := "\"" + rest;
    assert Escaped(s) + "\"" + rest == Escaped(s) + tail;
    if s == "" {
      assert Escaped(s) + tail == tail && tail[1..] == rest;
    } else {
      TextParses(s[1..], rest);
      var more := Escaped(s[1..]) + "\"" + rest;
      FirstEscaped(s, rest);
      FirstParses(s[0], more);
      assert [s[0]] + s[1..] == s;
    }
  }

  lemma FirstEscaped(s: string, rest: string)
    requires s != ""
    ensures Escaped(s) + "\"" + rest == Escape(s[0]) + (Escaped(s[1..]) + "\"" + rest)
  {
  }

  lemma FirstParses(c: char, more: string)
    ensures ParseText(Escape(c) + more) == WithFirst(c, ParseText(more))
  {
    CharParses(c, more);
    assert (Escape(c) + more)[0] == Escape(c)[0];
  }

  predicate StartsValue(s: string) {
    s != "" && !IsSpace(s[0]) && s[0] != ']'
  }

  lemma DigitsStart(n: nat, rest: string)
    ensures IsDigit((Digits(n) + rest)[0])
  {
  }

  lemma PrintStarts(v: Json, rest: string)
    ensures StartsValue(Print(v) + rest)
  {
    if v.Num? && v.n >= 0 {
      DigitsStart(v.n, rest);
    }
  }

  lemma NumParses(n: int, rest: string)
    requires EndsNumber(rest)
    ensures ParseValue(Print(Num(n)) + rest) == Parsed(Num(n), rest)
  {
    var magnitude := if n < 0 then -n else n;
    var digits := Digits(magnitude) + rest;
    NumberParses(magnitude, rest);
    if n < 0 {
      assert Print(Num(n)) + rest == "-" + digits;
      NegativeParses(digits);
    } else {
      DigitsStart(magnitude, rest);
      DigitsParse(digits);
    }
  }

  lemma NegativeParses(digits: string)
    ensures ParseValue("-" + digits) == AsNumber(ParseNumber(digits), true)
  {
    assert ("-" + digits)[1..] == digits;
  }

  lemma DigitsParse(digits: string)
    requires digits != "" && IsDigit(digits[0])
    ensures ParseValue(digits) == AsNumber(ParseNumber(digits), false)
  {
  }

  lemma StrParses(text: string, rest: string)
    ensures ParseValue(Print(Str(text)) + rest) == Parsed(Str(text), rest)
  {
    TextParses(text, rest);
    Quoted(Escaped(text), rest);
    QuoteParses(Escaped(text) + "\"" + rest);
  }

  lemma Quoted(inner: string, rest: string)
    ensures "\"" + inner + "\"" + rest == "\"" + (inner + "\"" + rest)
  {
  }

  lemma QuoteParses(inner: string)
    ensures ParseValue("\"" + inner) == AsText(ParseText(inner))
  {
    assert ("\"" + inner)[1..] == inner;
  }

  lemma ArrParses(inner: string)
    requires StartsValue(inner)
    ensures ParseValue("[" + inner) == AsArray(ParseItems(inner))
  {
    assert ("[" + inner)[1..] == inner;
  }

  lemma EmptyParses(rest: string)
    ensures ParseValue("[]" + rest) == Parsed(Arr([]), rest)
  {
    assert ("[]" + rest)[1..] == "]" + rest && ("]" + rest)[1..] == rest;
  }

  lemma LiteralParses(v: Json, rest: string)
    requires v.Null? || v.Bool?
    ensures ParseValue(Print(v) + rest) == Parsed(v, rest)
  {
    assert (Print(v) + rest)[|Print(v)|..] == rest;
  }

  /** Parsing undoes printing, whatever follows. */
  lemma {:induction false} PrintParses(v: Json, rest: string)
    requires v.Num? ==> EndsNumber(rest)
    ensures ParseValue(Print(v) + rest) == Parsed(v, rest)
    decreases v, 2
  {
    match v
    case Null => LiteralParses(v, rest);
    case Bool(_) => LiteralParses(v, rest);
    case Num(n) => NumParses(n, rest);
    case Str(text) => StrParses(text, rest);
    case Arr(_) => ArrayParses(v, rest);
  }

  lemma {:induction false} ArrayParses(v: Json, rest: string)
    requires v.Arr?
    ensures ParseValue(Print(v) + rest) == Parsed(v, rest)
    decreases v, 1
  {
    if v.items == [] {
      EmptyParses(rest);
    } else {
      ItemsParse(v, 0, rest);
      ItemsStart(v, 0, rest);
      ArrParses(PrintItems(v, 0) + rest);
      assert Print(v) + rest == "[" + (PrintItems(v, 0) + rest);
    }
  }

  lemma ItemsStart(v: Json, i: nat, rest: string)
    requires v.Arr? && i < |v.items|
    ensures StartsValue(PrintItems(v, i) + rest)
  {
    var head, tail := Print(v.items[i]), PrintTail(v, i + 1);
    PrintStarts(v.items[i], tail + rest);
    assert head + tail + rest == head + (tail + rest);
  }

  lemma ItemsUnfold(s: string, v: Json, t: string)
    requires ParseValue(s) == Parsed(v, t)
    ensures ParseItems(s) == Prepended(v, ParseTail(t))
  {
  }

  lemma ItemAndTail(v: Json, items: seq<Json>, printed: string, tail: string, rest: string)
    requires ParseValue(printed + (tail + rest)) == Parsed(v, tail + rest)
    requires ParseTail(tail + rest) == Parsed(items, rest)
    ensures ParseItems(printed + tail + rest) == Parsed([v] + items, rest)
  {
    ItemsUnfold(printed + (tail + rest), v, tail + rest);
    assert printed + tail + rest == printed + (tail + rest);
  }

  lemma {:induction false} ItemsParse(v: Json, i: nat, rest: string)
    requires v.Arr? && i < |v.items|
    ensures ParseItems(PrintItems(v, i) + rest) == Parsed(v.items[i..], rest)
    decreases v, 0, 2 * (|v.items| - i)
  {
    PrintParses(v.items[i], PrintTail(v, i + 1) + rest);
    TailParses(v, i + 1, rest);
    ItemAndTail(v.items[i], v.items[i + 1..], Print(v.items[i]), PrintTail(v, i + 1), rest);
    assert v.items[i..] == [v.items[i]] + v.items[i + 1..];
  }

  lemma Comma(items: string, rest: string)
    ensures ParseTail("," + items + rest) == ParseItems(items + rest)
    ensures ParseTail("]" + rest) == Parsed([], rest)
  {
    assert ("," + items + rest)[1..] == items + rest;
    assert ("]" + rest)[1..] == rest;
  }

  lemma {:induction false} TailParses(v: Json, i: nat, rest: string)
    requires v.Arr? && i <= |v.items|
    ensures ParseTail(PrintTail(v, i) + rest) == Parsed(v.items[i..], rest)
    ensures EndsNumber(PrintTail(v, i) + rest)
    decreases v, 0, 2 * (|v.items| - i) + 1
  {
    if i == |v.items| {
      Comma("", rest);
      assert v.items[i..] == [];
    } else {
      ItemsParse(v, i, rest);
      Comma(PrintItems(v, i), rest);
    }
  }
}
