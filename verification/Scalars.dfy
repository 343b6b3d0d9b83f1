/**
  The scalars of a build manifest as text: integers, booleans, plain words and quoted
  strings, read by the manifest loader and written by the manifest printer.
*/
module Scalars {
  import opened Options

  datatype Value =
    | Mapping(entries: seq<(string, Value)>)
    | Null
    | Bool(flag: bool)
    | Number(n: int)
    | Text(s: string)

  datatype ScalarError = UnterminatedScalar | InvalidScalar

  datatype Parsed = Parsed(value: Value) | Unparsed(error: ScalarError)

  // ---------- white space ----------

  predicate IsSpace(c: char) {
    || '\U{9}' <= c <= '\U{d}' || '\U{1c}' <= c <= ' ' || c == '\U{85}' || c == '\U{a0}' || c == '\U{1680}'
    || '\U{2000}' <= c <= '\U{200a}' || '\U{2028}' <= c <= '\U{2029}'
    || c == '\U{202f}' || c == '\U{205f}' || c == '\U{3000}'
  }

  function LeftStripped(s: string): string {
    if s != "" && IsSpace(s[0]) then LeftStripped(s[1..]) else s
  }

  function RightStripped(s: string): string {
    if s != "" && IsSpace(s[|s| - 1]) then RightStripped(s[..|s| - 1]) else s
  }

  function Stripped(s: string): string {
    RightStripped(LeftStripped(s))
  }

  /** Begins and ends with something other than white space. */
  predicate Tight(s: string) {
    s != "" && !IsSpace(s[0]) && !IsSpace(s[|s| - 1])
  }

  lemma StrippedTight(s: string)
    requires Tight(s)
    ensures Stripped(s) == s && Stripped(" " + s) == s
  {
    assert (" " + s)[1..] == s;
  }

  // ---------- integers ----------

  predicate IsDigit(c: char) {
    '0' <= c <= '9'
  }

  function Digit(d: nat): (c: char)
    requires d < 10
    ensures IsDigit(c) && c as int - '0' as int == d
  {
    ('0' as int + d) as char
  }

  function Digits(n: nat): (s: string)
    ensures s != "" && forall i :: 0 <= i < |s| ==> IsDigit(s[i])
  {
    if n < 10 then [Digit(n)] else Digits(n / 10) + [Digit(n % 10)]
  }

  function Decimal(n: int): string {
    if n < 0 then "-" + Digits(-n) else Digits(n)
  }

  /** Digits, with single underscores allowed between them. */
  function ParseDigits(s: string, n: int, afterDigit: bool): Option<int> {
    if s == "" then if afterDigit then Some(n) else None
    else if IsDigit(s[0]) then ParseDigits(s[1..], n * 10 + (s[0] as int - '0' as int), true)
    else if s[0] == '_' && afterDigit then ParseDigits(s[1..], n, false)
    else None
  }

  function ParseInt(s: string): Option<int> {
    var signed := s != "" && s[0] in "+-";
    match ParseDigits(if signed then s[1..] else s, 0, false)
    case None => None
    case Some(n) => Some(if signed && s[0] == '-' then -n else n)
  }

  lemma {:induction false} ParseDigitsOf(n: nat, rest: string)
    ensures ParseDigits(Digits(n) + rest, 0, false) == ParseDigits(rest, n, true)
  {
    var text, last := Digits(n) + rest, [Digit(n % 10)] + rest;
    assert last[1..] == rest;
    if n < 10 {
      assert text == last;
    } else {
      ParseDigitsOf(n / 10, last);
      assert text == Digits(n / 10) + last;
    }
  }

  lemma IntRoundTrip(n: int)
    ensures ParseInt(Decimal(n)) == Some(n)
  {
    var digits := Digits(if n < 0 then -n else n);
    ParseDigitsOf(if n < 0 then -n else n, "");
    assert digits + "" == digits;
    assert ("-" + digits)[1..] == digits;
  }

  // ---------- quoted strings ----------

  function HexDigit(d: nat): (c: char)
    requires d < 16
    ensures IsDigit(c) || 'a' <= c <= 'f'
    ensures HexValue(c) == Some(d)
  {
    if d < 10 then Digit(d) else ('a' as int + (d - 10)) as char
  }

  function HexValue(c: char): (d: Option<nat>)
    ensures d.Some? ==> d.value < 16
  {
    if IsDigit(c) then Some(c as int - '0' as int)
    else if 'a' <= c <= 'f' then Some(c as int - 'a' as int + 10)
    else if 'A' <= c <= 'F' then Some(c as int - 'A' as int + 10)
    else None
  }

  predicate NeedsEscape(c: char) {
    c < ' ' || c == '"' || c == '\\'
  }

  /** The letter of the short escape for a character that has one. */
  function ShortEscape(c: char): Option<char> {
    match c
    case '"' => Some('"')
    case '\\' => Some('\\')
    case '\U{8}' => Some('b')
    case '\U{c}' => Some('f')
    case '\n' => Some('n')
    case '\r' => Some('r')
    case '\t' => Some('t')
    case _ => None
  }

  function Unshort(letter: char): Option<char> {
    match letter
    case '"' => Some('"')
    case '\\' => Some('\\')
    case '/' => Some('/')
    case 'b' => Some('\U{8}')
    case 'f' => Some('\U{c}')
    case 'n' => Some('\n')
    case 'r' => Some('\r')
    case 't' => Some('\t')
    case _ => None
  }

  function EscapedChar(c: char): string {
    if !NeedsEscape(c) then [c]
    else
      match ShortEscape(c)
      case Some(letter) => ['\\', letter]
      case None => "\\u00" + [HexDigit(c as int / 16), HexDigit(c as int % 16)]
  }

  function Escaped(s: string): string {
    if s == "" then "" else EscapedChar(s[0]) + Escaped(s[1..])
  }

  function Quoted(s: string): string {
    "\"" + Escaped(s) + "\""
  }

  /** The character written with four hexadecimal digits, other than a surrogate. */
  function CodeUnit(s: string): Option<char>
    requires |s| == 4
  {
    match (HexValue(s[0]), HexValue(s[1]), HexValue(s[2]), HexValue(s[3]))
    case (Some(a), Some(b), Some(c), Some(d)) =>
      var code := ((a * 16 + b) * 16 + c) * 16 + d;
      if code < 0xd800 || 0xe000 <= code then Some(code as char) else None
    case _ => None
  }

  function Prepend(c: char, s: Option<string>): Option<string> {
    match s case None => None case Some(rest) => Some([c] + rest)
  }

  /** What stands behind the opening quote, up to a closing quote at the very end. */
  function Unescaped(s: string): Option<string> {
    if s == "" then None
    else if s[0] == '"' then if |s| == 1 then Some("") else None
    else if s[0] == '\\' then
      if |s| < 2 then None
      else if s[1] == 'u' then
        if |s| < 6 then None
        else match CodeUnit(s[2..6]) case None => None case Some(c) => Prepend(c, Unescaped(s[6..]))
      else match Unshort(s[1]) case None => None case Some(c) => Prepend(c, Unescaped(s[2..]))
    else if s[0] < ' ' then None
    else Prepend(s[0], Unescaped(s[1..]))
  }

  lemma {:induction false} UnescapedCode(c: char, rest: string)
    requires c < ' '
    ensures Unescaped("\\u00" + [HexDigit(c as int / 16), HexDigit(c as int % 16)] + rest)
         == Prepend(c, Unescaped(rest))
  {
    var high, low := HexDigit(c as int / 16), HexDigit(c as int % 16);
    var text := "\\u00" + [high, low] + rest;
    assert text[0] == '\\' && text[1] == 'u' && text[6..] == rest;
    assert text[2..6] == ['0', '0', high, low];
    assert CodeUnit(['0', '0', high, low]) == Some(c);
  }

  lemma {:induction false} UnescapedShort(c: char, letter: char, rest: string)
    requires Unshort(letter) == Some(c)
    ensures Unescaped(['\\', letter] + rest) == Prepend(c, Unescaped(rest))
  {
    assert letter != 'u';
    hide CodeUnit, Unshort;
    var text := ['\\', letter] + rest;
    assert text[0] == '\\' && text[1] == letter && text[2..] == rest;
  }

  lemma {:induction false} UnescapedPlain(c: char, rest: string)
    requires !NeedsEscape(c)
    ensures Unescaped([c] + rest) == Prepend(c, Unescaped(rest))
  {
    assert ([c] + rest)[1..] == rest;
  }

  lemma UnescapedChar(c: char, rest: string)
    ensures Unescaped(EscapedChar(c) + rest) == Prepend(c, Unescaped(rest))
  {
    if !NeedsEscape(c) {
      UnescapedPlain(c, rest);
    } else if ShortEscape(c).Some? {
      UnescapedShort(c, ShortEscape(c).value, rest);
    } else {
      UnescapedCode(c, rest);
    }
  }

  lemma {:induction false} UnescapedEscaped(s: string)
    ensures Unescaped(Escaped(s) + "\"") == Some(s)
  {
    if s == "" {
      assert Escaped(s) + "\"" == "\"";
    } else {
      assert [s[0]] + s[1..] == s;
      UnescapedEscaped(s[1..]);
      UnescapedChar(s[0], Escaped(s[1..]) + "\"");
      assert Escaped(s) + "\"" == EscapedChar(s[0]) + (Escaped(s[1..]) + "\"");
    }
  }

  /** An escaped text that has no closing quote behind it is never a string. */
  lemma {:induction false} UnescapedUnclosed(s: string)
    ensures Unescaped(Escaped(s)) == None
  {
    if s != "" {
      UnescapedUnclosed(s[1..]);
      UnescapedChar(s[0], Escaped(s[1..]));
    }
  }

  /** Between single quotes, two stand for one. */
  function Undoubled(s: string): string {
    if |s| >= 2 && s[..2] == "''" then "'" + Undoubled(s[2..])
    else if s == "" then ""
    else [s[0]] + Undoubled(s[1..])
  }

  // ---------- scalars ----------

  function Lowered(s: string): string {
    seq(|s|, i requires 0 <= i < |s| => if 'A' <= s[i] <= 'Z' then (s[i] as int + 32) as char else s[i])
  }

  function ParseScalar(text: string): Parsed {
    var value := Stripped(text);
    var lowered := Lowered(value);
    if value == "" then Parsed(Mapping([]))
    else if lowered == "true" then Parsed(Bool(true))
    else if lowered == "false" then Parsed(Bool(false))
    else if lowered in ["null", "~"] then Parsed(Null)
    else if value[0] in "\"'" then
      if |value| < 2 || value[|value| - 1] != value[0] then Unparsed(UnterminatedScalar)
      else if value[0] == '"' then
        match Unescaped(value[1..]) case None => Unparsed(InvalidScalar) case Some(s) => Parsed(Text(s))
      else Parsed(Text(Undoubled(value[1..|value| - 1])))
    else
      match ParseInt(value) case None => Parsed(Text(value)) case Some(n) => Parsed(Number(n))
  }

  predicate IsScalar(v: Value) {
    v.Number? || v.Bool? || v.Text?
  }

  /** A number as digits, a truth value as the implementation language spells it, any other text quoted. */
  function YamlScalar(v: Value): string
    requires IsScalar(v)
  {
    match v
    case Number(n) => Decimal(n)
    case Bool(flag) => if flag then "True" else "False"
    case Text(s) => Quoted(s)
  }

  lemma LoweredAt(s: string)
    ensures |Lowered(s)| == |s|
    ensures s != "" && !('A' <= s[0] <= 'Z') ==> Lowered(s)[0] == s[0]
  {
  }

  lemma DecimalIsTight(n: int)
    ensures Tight(Decimal(n)) && Decimal(n)[0] in "-0123456789"
  {
    var digits := Digits(if n < 0 then -n else n);
    assert IsDigit(digits[|digits| - 1]) && IsDigit(digits[0]);
  }

  lemma NumberRoundTrip(n: int)
    ensures ParseScalar(Decimal(n)) == ParseScalar(" " + Decimal(n)) == Parsed(Number(n))
  {
    DecimalIsTight(n);
    StrippedTight(Decimal(n));
    LoweredAt(Decimal(n));
    IntRoundTrip(n);
    assert Lowered(Decimal(n))[0] !in "tfn~";
  }

  lemma ParseQuoted(text: string, value: string)
    requires Stripped(text) == value && value != "" && value[0] == '"'
    ensures ParseScalar(text) ==
            if |value| < 2 || value[|value| - 1] != '"' then Unparsed(UnterminatedScalar)
            else match Unescaped(value[1..]) case None => Unparsed(InvalidScalar) case Some(s) => Parsed(Text(s))
  {
    LoweredAt(value);
    assert Lowered(value)[0] !in "tfn~";
  }

  lemma TextRoundTrip(s: string)
    ensures Tight(Quoted(s))
    ensures ParseScalar(Quoted(s)) == ParseScalar(" " + Quoted(s)) == Parsed(Text(s))
  {
    var quoted := Quoted(s);
    StrippedTight(quoted);
    ParseQuoted(quoted, quoted);
    ParseQuoted(" " + quoted, quoted);
    UnescapedEscaped(s);
    assert quoted[1..] == Escaped(s) + "\"";
  }

  /** As the printer writes a value; it has two spellings for a truth value. */
  predicate WrittenAs(value: Value, text: string) {
    && IsScalar(value)
    && (text == YamlScalar(value) || (value.Bool? && text == if value.flag then "true" else "false"))
  }

  lemma LoweredWords()
    ensures Lowered("True") == Lowered("true") == "true"
    ensures Lowered("False") == Lowered("false") == "false"
  {
  }

  lemma ParseWord(text: string, flag: bool)
    requires Stripped(text) != "" && Lowered(Stripped(text)) == if flag then "true" else "false"
    ensures ParseScalar(text) == Parsed(Bool(flag))
  {
  }

  lemma BoolRoundTrip(flag: bool, text: string)
    requires WrittenAs(Bool(flag), text)
    ensures Tight(text) && ParseScalar(text) == ParseScalar(" " + text) == Parsed(Bool(flag))
  {
    LoweredWords();
    StrippedTight(text);
    ParseWord(text, flag);
    ParseWord(" " + text, flag);
  }

  /** Whatever the printer writes for a value, the loader reads as that value. */
  lemma ScalarRoundTrip(value: Value, text: string)
    requires WrittenAs(value, text)
    ensures Tight(text)
    ensures ParseScalar(text) == ParseScalar(" " + text) == Parsed(value)
  {
    match value
    case Number(n) =>
      DecimalIsTight(n);
      NumberRoundTrip(n);
    case Bool(flag) =>
      BoolRoundTrip(flag, text);
    case Text(s) =>
      TextRoundTrip(s);
  }
}
