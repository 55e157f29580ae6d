/**
 JSON text as section 2 to 7 of RFC 8259 define it: a reader for every JSON text,
 a compact writer, and the proof that the reader undoes the writer.  Text is a
 sequence of Unicode characters.
 */
module Json {
  import opened Decimal

  datatype Json =
    | JNull
    | JBool(b: bool)
    | JNumber(lexeme: string)
    | JString(text: string)
    | JArray(items: seq<Json>)
    | JObject(members: seq<Member>)

  datatype Member = Member(name: string, value: Json)

  // ---------------------------------------------------------------- writer

  const HEX: string := "0123456789abcdef"

  /** One character of a string literal (section 7): quotes, backslashes and controls are escaped. */
  function EscapeChar(c: char): (r: string)
    ensures |r| >= 1
  {
    if c == '"' || c == '\\' then ['\\', c]
    else if c < ' ' then ['\\', 'u', '0', '0', HEX[c as int / 16], HEX[c as int % 16]]
    else [c]
  }

  function Escape(s: string): string {
    if |s| == 0 then "" else EscapeChar(s[0]) + Escape(s[1..])
  }

  function Quote(s: string): string {
    "\"" + Escape(s) + "\""
  }

  function Print(j: Json): string
    decreases j, 1
  {
    match j
    case JNull => "null"
    case JBool(b) => if b then "true" else "false"
    case JNumber(lexeme) => lexeme
    case JString(text) => Quote(text)
    case JArray(items) => "[" + PrintItems(items) + "]"
    case JObject(members) => "{" + PrintMembers(members) + "}"
  }

  function PrintItems(items: seq<Json>): string
    decreases items, 0
  {
    if |items| == 0 then ""
    else if |items| == 1 then Print(items[0])
    else Print(items[0]) + "," + PrintItems(items[1..])
  }

  function PrintMember(m: Member): string
    decreases m, 0
  {
    Quote(m.name) + ":" + Print(m.value)
  }

  function PrintMembers(members: seq<Member>): string
    decreases members, 0
  {
    if |members| == 0 then ""
    else if |members| == 1 then PrintMember(members[0])
    else PrintMember(members[0]) + "," + PrintMembers(members[1..])
  }

  // ---------------------------------------------------------------- reader

  datatype Parsed<+T> = Fail | Got(value: T, rest: string)

  predicate IsSpace(c: char) {
    c == ' ' || c == '\t' || c == '\n' || c == '\r'
  }

  function SkipSpace(s: string): (r: string)
    ensures |r| <= |s|
  {
    if |s| > 0 && IsSpace(s[0]) then SkipSpace(s[1..]) else s
  }

  function HexValue(c: char): (v: int)
    ensures v < 16
  {
    if '0' <= c <= '9' then c as int - '0' as int
    else if 'a' <= c <= 'f' then c as int - 'a' as int + 10
    else if 'A' <= c <= 'F' then c as int - 'A' as int + 10
    else -1
  }

  /** The 16-bit unit written as four hexadecimal digits, or -1. */
  function HexUnit(s: string): (v: int)
    ensures v < 0x10000
    ensures v >= 0 ==> |s| >= 4
  {
    if |s| < 4 || HexValue(s[0]) < 0 || HexValue(s[1]) < 0 || HexValue(s[2]) < 0 || HexValue(s[3]) < 0 then -1
    else ((HexValue(s[0]) * 16 + HexValue(s[1])) * 16 + HexValue(s[2])) * 16 + HexValue(s[3])
  }

  /** What follows a backslash; a pair of surrogate escapes stands for one character. */
  function ParseEscape(s: string): (p: Parsed<char>)
    ensures p.Got? ==> |p.rest| < |s|
  {
    if |s| == 0 then Fail
    else if s[0] == '"' || s[0] == '\\' || s[0] == '/' then Got(s[0], s[1..])
    else if s[0] == 'b' then Got(8 as char, s[1..])
    else if s[0] == 'f' then Got(12 as char, s[1..])
    else if s[0] == 'n' then Got('\n', s[1..])
    else if s[0] == 'r' then Got('\r', s[1..])
    else if s[0] == 't' then Got('\t', s[1..])
    else if s[0] != 'u' then Fail
    else
      var unit := HexUnit(s[1..]);
      if unit < 0 || 0xDC00 <= unit < 0xE000 then Fail
      else if unit < 0xD800 || 0xE000 <= unit then Got(unit as char, s[5..])
      else if |s| < 7 || s[5] != '\\' || s[6] != 'u' then Fail
      else
        var low := HexUnit(s[7..]);
        if 0xDC00 <= low < 0xE000
        then Got((0x10000 + (unit - 0xD800) * 0x400 + (low - 0xDC00)) as char, s[11..])
        else Fail
  }

  /** The characters of a string literal, up to and including its closing quote. */
  function ParseChars(s: string): (p: Parsed<string>)
    ensures p.Got? ==> |p.rest| < |s|
    decreases |s|
  {
    if |s| == 0 then Fail
    else if s[0] == '"' then Got("", s[1..])
    else if s[0] < ' ' then Fail
    else
      var head := if s[0] == '\\' then ParseEscape(s[1..]) else Got(s[0], s[1..]);
      if head.Fail? then Fail
      else
        var tail := ParseChars(head.rest);
        if tail.Fail? then Fail else Got([head.value] + tail.value, tail.rest)
  }

  predicate IsNumberChar(c: char) {
    IsDigit(c) || c == '-' || c == '+' || c == '.' || c == 'e' || c == 'E'
  }

  function NumberLength(s: string): (n: nat)
    ensures n <= |s|
  {
    if |s| > 0 && IsNumberChar(s[0]) then 1 + NumberLength(s[1..]) else 0
  }

  function DigitCount(s: string): (n: nat)
    ensures n <= |s| && AllDigits(s[..n])
  {
    if |s| > 0 && IsDigit(s[0]) then
      var n := 1 + DigitCount(s[1..]);
      assert s[..n] == [s[0]] + s[1..][..n - 1];
      n
    else 0
  }

  /** `[ "." 1*DIGIT ] [ ("e" / "E") [ "+" / "-" ] 1*DIGIT ]`, section 6. */
  predicate ValidFraction(s: string) {
    if |s| > 0 && s[0] == '.' then
      DigitCount(s[1..]) > 0 && ValidExponent(s[1..][DigitCount(s[1..])..])
    else ValidExponent(s)
  }

  predicate ValidExponent(s: string) {
    |s| == 0 ||
    ((s[0] == 'e' || s[0] == 'E') &&
     var digits := if |s| > 1 && (s[1] == '+' || s[1] == '-') then s[2..] else s[1..];
     |digits| > 0 && AllDigits(digits))
  }

  /** A number (section 6): optional minus, an integer without leading zeros, fraction, exponent. */
  predicate ValidNumber(s: string) {
    var body := if |s| > 0 && s[0] == '-' then s[1..] else s;
    var n := DigitCount(body);
    n > 0 && (body[0] == '0' ==> n == 1) && ValidFraction(body[n..])
  }

  function ParseLiteral(s: string, word: string, value: Json): (p: Parsed<Json>)
    requires |word| > 0
    ensures p.Got? ==> |p.rest| < |s|
  {
    if word <= s then Got(value, s[|word|..]) else Fail
  }

  function ParseNumber(s: string): (p: Parsed<Json>)
    ensures p.Got? ==> |p.rest| < |s|
  {
    var n := NumberLength(s);
    if n > 0 && ValidNumber(s[..n]) then Got(JNumber(s[..n]), s[n..]) else Fail
  }

  function ParseValue(text: string): (p: Parsed<Json>)
    ensures p.Got? ==> |p.rest| < |text|
    decreases |text|, 1
  {
    var s := SkipSpace(text);
    if |s| == 0 then Fail
    else if s[0] == '"' then
      var chars := ParseChars(s[1..]);
      if chars.Fail? then Fail else Got(JString(chars.value), chars.rest)
    else if s[0] == '[' then
      var t := SkipSpace(s[1..]);
      if |t| > 0 && t[0] == ']' then Got(JArray([]), t[1..])
      else
        var items := ParseItems(s[1..]);
        if items.Fail? then Fail else Got(JArray(items.value), items.rest)
    else if s[0] == '{' then
      var t := SkipSpace(s[1..]);
      if |t| > 0 && t[0] == '}' then Got(JObject([]), t[1..])
      else
        var members := ParseMembers(s[1..]);
        if members.Fail? then Fail else Got(JObject(members.value), members.rest)
    else if s[0] == 'n' then ParseLiteral(s, "null", JNull)
    else if s[0] == 't' then ParseLiteral(s, "true", JBool(true))
    else if s[0] == 'f' then ParseLiteral(s, "false", JBool(false))
    else ParseNumber(s)
  }

  /** `value *( "," value ) "]"`. */
  function ParseItems(text: string): (p: Parsed<seq<Json>>)
    ensures p.Got? ==> |p.rest| < |text|
    decreases |text|, 2
  {
    var head := ParseValue(text);
    if head.Fail? then Fail
    else
      var s := SkipSpace(head.rest);
      if |s| > 0 && s[0] == ']' then Got([head.value], s[1..])
      else if |s| > 0 && s[0] == ',' then
        var tail := ParseItems(s[1..]);
        if tail.Fail? then Fail else Got([head.value] + tail.value, tail.rest)
      else Fail
  }

  /** `string ":" value`. */
  function ParseMember(text: string): (p: Parsed<Member>)
    ensures p.Got? ==> |p.rest| < |text|
    decreases |text|, 2
  {
    var s := SkipSpace(text);
    if |s| == 0 || s[0] != '"' then Fail
    else
      var name := ParseChars(s[1..]);
      if name.Fail? then Fail
      else
        var t := SkipSpace(name.rest);
        if |t| == 0 || t[0] != ':' then Fail
        else
          var value := ParseValue(t[1..]);
          if value.Fail? then Fail else Got(Member(name.value, value.value), value.rest)
  }

  /** `member *( "," member ) "}"`. */
  function ParseMembers(text: string): (p: Parsed<seq<Member>>)
    ensures p.Got? ==> |p.rest| < |text|
    decreases |text|, 3
  {
    var head := ParseMember(text);
    if head.Fail? then Fail
    else
      var s := SkipSpace(head.rest);
      if |s| > 0 && s[0] == '}' then Got([head.value], s[1..])
      else if |s| > 0 && s[0] == ',' then
        var tail := ParseMembers(s[1..]);
        if tail.Fail? then Fail else Got([head.value] + tail.value, tail.rest)
      else Fail
  }

  /** A whole JSON text. */
  function Parse(s: string): Parsed<Json> {
    var p := ParseValue(s);
    if p.Got? && SkipSpace(p.rest) == "" then Got(p.value, "") else Fail
  }

  // ---------------------------------------------------------------- round trip

  lemma {:induction false} EscapeCharInverse(c: char, rest: string)
    ensures EscapeChar(c)[0] != '"' && EscapeChar(c)[0] >= ' '
    ensures EscapeChar(c)[0] != '\\' ==> EscapeChar(c) == [c]
    ensures EscapeChar(c)[0] == '\\' ==> ParseEscape((EscapeChar(c) + rest)[1..]) == Got(c, rest)
  {
    var e := EscapeChar(c);
    var s := (e + rest)[1..];
    assert s == e[1..] + rest;
    if c == '"' || c == '\\' {
      assert s == [c] + rest;
    } else if c < ' ' {
      assert s[1..] == ['0', '0', HEX[c as int / 16], HEX[c as int % 16]] + rest;
      assert s[5..] == rest;
      HexDigits(c as int / 16);
      HexDigits(c as int % 16);
      assert HexUnit(s[1..]) == c as int;
    }
  }

  lemma {:induction false} HexDigits(d: nat)
    requires d < 16
    ensures HexValue(HEX[d]) == d
  {
  }

  /**
   The string reader undoes the string writer on every string and stops exactly
   after the closing quote, whatever follows it.
   */
  lemma {:induction false} StringRoundTrip(v: string, rest: string)
    ensures ParseChars(Escape(v) + "\"" + rest) == Got(v, rest)
  {
    var s := Escape(v) + "\"" + rest;
    if |v| == 0 {
      assert s == ['"'] + rest;
      assert s[1..] == rest;
    } else {
      var e := EscapeChar(v[0]);
      var after := Escape(v[1..]) + "\"" + rest;
      assert s == e + after;
      assert s[0] == e[0];
      EscapeCharInverse(v[0], after);
      StringRoundTrip(v[1..], rest);
      if e[0] != '\\' {
        assert s[1..] == after;
      }
      assert ParseChars(s) == Got([v[0]] + v[1..], rest);
      assert [v[0]] + v[1..] == v;
    }
  }

  /** Every number lexeme in `j` follows the grammar. */
  predicate Printable(j: Json) {
    match j
    case JNumber(lexeme) => ValidNumber(lexeme) && forall i :: 0 <= i < |lexeme| ==> IsNumberChar(lexeme[i])
    case JArray(items) => forall i :: 0 <= i < |items| ==> Printable(items[i])
    case JObject(members) => forall i :: 0 <= i < |members| ==> Printable(members[i].value)
    case _ => true
  }

  /** `rest` cannot be mistaken for more of a number. */
  predicate Delimited(rest: string) {
    |rest| > 0 ==> !IsNumberChar(rest[0])
  }

  lemma {:induction false} NumberLengthExact(s: string, rest: string)
    requires forall i :: 0 <= i < |s| ==> IsNumberChar(s[i])
    requires Delimited(rest)
    ensures NumberLength(s + rest) == |s|
  {
    if |s| == 0 {
      assert s + rest == rest;
    } else {
      assert (s + rest)[1..] == s[1..] + rest;
      NumberLengthExact(s[1..], rest);
    }
  }

  lemma {:induction false} PrintStart(j: Json)
    requires Printable(j)
    ensures |Print(j)| > 0 && !IsSpace(Print(j)[0]) && Print(j)[0] != ']' && Print(j)[0] != '}'
  {
    match j
    case JNumber(lexeme) =>
      assert IsNumberChar(lexeme[0]);
    case _ =>
  }

  lemma {:induction false} ParseValueNumber(s: string)
    requires |s| > 0 && IsNumberChar(s[0])
    ensures ParseValue(s) == ParseNumber(s)
  {
  }

  lemma {:induction false} ParseNumberPrinted(lexeme: string, rest: string)
    requires Printable(JNumber(lexeme)) && Delimited(rest)
    ensures ParseValue(lexeme + rest) == Got(JNumber(lexeme), rest)
  {
    NumberLengthExact(lexeme, rest);
    var s := lexeme + rest;
    assert s[..|lexeme|] == lexeme && s[|lexeme|..] == rest;
    assert s[0] == lexeme[0];
    ParseValueNumber(s);
  }

  lemma {:induction false} ParseStringPrinted(text: string, rest: string)
    ensures ParseValue(Quote(text) + rest) == Got(JString(text), rest)
  {
    var s := Quote(text) + rest;
    assert s == ['"'] + (Escape(text) + "\"" + rest);
    assert s[1..] == Escape(text) + "\"" + rest;
    StringRoundTrip(text, rest);
  }

  lemma {:induction false} ParseWordPrinted(j: Json, rest: string)
    requires j.JNull? || j.JBool?
    ensures ParseValue(Print(j) + rest) == Got(j, rest)
  {
    var s := Print(j) + rest;
    assert Print(j) <= s;
    assert s[|Print(j)|..] == rest;
  }

  /** Reading what was written gives the same value back and leaves what follows untouched. */
  lemma {:induction false} ParsePrint(j: Json, rest: string)
    requires Printable(j) && Delimited(rest)
    ensures ParseValue(Print(j) + rest) == Got(j, rest)
    decreases j, 1
  {
    match j
    case JNull => ParseWordPrinted(j, rest);
    case JBool(_) => ParseWordPrinted(j, rest);
    case JNumber(lexeme) => ParseNumberPrinted(lexeme, rest);
    case JString(text) => ParseStringPrinted(text, rest);
    case JArray(items) =>
      if |items| > 0 {
        ParsePrintItems(items, rest);
        PrintStart(items[0]);
      }
      ParseArrayText(items, PrintItems(items), rest);
    case JObject(members) =>
      if |members| > 0 {
        ParsePrintMembers(members, rest);
      }
      ParseObjectText(members, PrintMembers(members), rest);
  }

  lemma {:induction false} BracketText(open: char, body: string, close: string, rest: string)
    ensures var s := ([open] + body + close) + rest;
            |s| > 0 && s[0] == open && s[1..] == body + (close + rest)
  {
  }

  lemma {:induction false} CommaText(head: string, tail: string, rest: string)
    ensures (head + "," + tail) + rest == head + ("," + (tail + rest))
    ensures ("," + (tail + rest))[1..] == tail + rest
  {
  }

  lemma {:induction false} ParseArrayText(items: seq<Json>, body: string, rest: string)
    requires |items| == 0 ==> body == ""
    requires |items| > 0 ==> |body| > 0 && !IsSpace(body[0]) && body[0] != ']'
    requires |items| > 0 ==> ParseItems(body + ("]" + rest)) == Got(items, rest)
    ensures ParseValue("[" + body + "]" + rest) == Got(JArray(items), rest)
  {
    BracketText('[', body, "]", rest);
    var t := body + ("]" + rest);
    if |items| == 0 {
      assert t == "]" + rest;
      assert t[1..] == rest;
    } else {
      assert t[0] == body[0];
    }
    assert SkipSpace(t) == t;
  }

  lemma {:induction false} ParseObjectText(members: seq<Member>, body: string, rest: string)
    requires |members| == 0 ==> body == ""
    requires |members| > 0 ==> |body| > 0 && body[0] == '"'
    requires |members| > 0 ==> ParseMembers(body + ("}" + rest)) == Got(members, rest)
    ensures ParseValue("{" + body + "}" + rest) == Got(JObject(members), rest)
  {
    BracketText('{', body, "}", rest);
    var t := body + ("}" + rest);
    if |members| == 0 {
      assert t == "}" + rest;
      assert t[1..] == rest;
    } else {
      assert t[0] == body[0];
    }
    assert SkipSpace(t) == t;
  }

  lemma {:induction false} ParsePrintItems(items: seq<Json>, rest: string)
    requires |items| > 0
    requires forall i :: 0 <= i < |items| ==> Printable(items[i])
    ensures ParseItems(PrintItems(items) + ("]" + rest)) == Got(items, rest)
    decreases items, 0
  {
    if |items| == 1 {
      ParsePrint(items[0], "]" + rest);
      assert ("]" + rest)[1..] == rest;
      assert items == [items[0]];
    } else {
      var after := PrintItems(items[1..]) + ("]" + rest);
      CommaText(Print(items[0]), PrintItems(items[1..]), "]" + rest);
      ParsePrint(items[0], "," + after);
      ParsePrintItems(items[1..], rest);
      ParseItemsStep(items[0], items[1..], Print(items[0]) + ("," + after), after, rest);
      assert items == [items[0]] + items[1..];
    }
  }

  lemma {:induction false} ParseItemsStep(head: Json, tail: seq<Json>, text: string, after: string, rest: string)
    requires ParseValue(text) == Got(head, "," + after)
    requires ParseItems(after) == Got(tail, rest)
    ensures ParseItems(text) == Got([head] + tail, rest)
  {
    assert ("," + after)[1..] == after;
  }

  lemma {:induction false} ParsePrintMember(m: Member, rest: string)
    requires Printable(m.value) && Delimited(rest)
    ensures ParseMember(PrintMember(m) + rest) == Got(m, rest)
    decreases m, 0
  {
    ParsePrint(m.value, rest);
    ParseMemberPrinted(m, rest);
  }

  lemma {:induction false} MemberText(name: string, value: string, rest: string)
    ensures var s := ("\"" + name + "\"" + ":" + value) + rest;
            && |s| > 0 && s[0] == '"'
            && s[1..] == name + "\"" + (":" + (value + rest))
  {
  }

  lemma {:induction false} ParseMemberPrinted(m: Member, rest: string)
    requires ParseValue(Print(m.value) + rest) == Got(m.value, rest)
    ensures ParseMember(PrintMember(m) + rest) == Got(m, rest)
  {
    var s := PrintMember(m) + rest;
    var t := ":" + (Print(m.value) + rest);
    MemberText(Escape(m.name), Print(m.value), rest);
    StringRoundTrip(m.name, t);
    assert t[1..] == Print(m.value) + rest;
  }

  lemma {:induction false} ParsePrintMembers(members: seq<Member>, rest: string)
    requires |members| > 0
    requires forall i :: 0 <= i < |members| ==> Printable(members[i].value)
    ensures ParseMembers(PrintMembers(members) + ("}" + rest)) == Got(members, rest)
    decreases members, 0
  {
    if |members| == 1 {
      ParsePrintMember(members[0], "}" + rest);
      assert ("}" + rest)[1..] == rest;
      assert members == [members[0]];
    } else {
      var after := PrintMembers(members[1..]) + ("}" + rest);
      ParsePrintMember(members[0], "," + after);
      ParsePrintMembers(members[1..], rest);
      CommaText(PrintMember(members[0]), PrintMembers(members[1..]), "}" + rest);
      ParseMembersStep(members[0], members[1..], PrintMember(members[0]) + ("," + after), after, rest);
      assert members == [members[0]] + members[1..];
    }
  }

  lemma {:induction false} ParseMembersStep(head: Member, tail: seq<Member>, text: string, after: string, rest: string)
    requires ParseMember(text) == Got(head, "," + after)
    requires ParseMembers(after) == Got(tail, rest)
    ensures ParseMembers(text) == Got([head] + tail, rest)
  {
    assert ("," + after)[1..] == after;
  }

  /** The reader inverts the writer on every JSON value. */
  lemma {:induction false} RoundTrip(j: Json)
    requires Printable(j)
    ensures Parse(Print(j)) == Got(j, "")
  {
    ParsePrint(j, "");
    assert Print(j) + "" == Print(j);
  }

  // ---------------------------------------------------------------- numbers

  /** `x` times ten to the power `shift`. */
  function Scaled(x: real, shift: int): real
    decreases if shift < 0 then -shift else shift
  {
    if shift > 0 then Scaled(x * 10.0, shift - 1) else if shift < 0 then Scaled(x / 10.0, shift + 1) else x
  }

  function ExponentValue(s: string): int
    requires ValidExponent(s)
  {
    if |s| == 0 then 0
    else if s[1] == '-' then 0 - Value(s[2..])
    else if s[1] == '+' then Value(s[2..])
    else Value(s[1..])
  }

  /** The digits of the integer and fraction part followed by what they are scaled by. */
  function UnsignedValue(whole: string, fraction: string): real
    requires AllDigits(whole) && ValidFraction(fraction)
  {
    if |fraction| > 0 && fraction[0] == '.' then
      var k := DigitCount(fraction[1..]);
      var after := fraction[1..];
      Scaled(Value(whole + after[..k]) as real, ExponentValue(after[k..]) - k)
    else Scaled(Value(whole) as real, ExponentValue(fraction))
  }

  /** The exact value a number lexeme denotes. */
  function NumberValue(s: string): real
    requires ValidNumber(s)
  {
    var body := if s[0] == '-' then s[1..] else s;
    var n := DigitCount(body);
    var magnitude := UnsignedValue(body[..n], body[n..]);
    if s[0] == '-' then -magnitude else magnitude
  }

  lemma {:induction false} DigitCountAll(s: string)
    requires AllDigits(s)
    ensures DigitCount(s) == |s|
  {
    if |s| > 0 {
      DigitCountAll(s[1..]);
    }
  }

  /** A decimal rendering is a JSON number and denotes the integer exactly. */
  lemma {:induction false} DecimalIsNumber(n: nat)
    ensures Printable(JNumber(ToString(n)))
    ensures NumberValue(ToString(n)) == n as real
  {
    var s := ToString(n);
    NoLeadingZero(n);
    DigitCountAll(s);
    ValueOfToString(n);
    assert s[|s|..] == "" && s[..|s|] == s;
  }
}
