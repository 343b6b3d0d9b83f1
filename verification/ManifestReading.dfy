/**
  What the manifest loader makes of single lines and scalars that no printer wrote:
  comments, quotation marks, plain words, and lines that are refused.
*/
module ManifestReading {
  import opened ManifestLoader
  import opened ManifestPrinter
  import opened Options
  import opened Scalars

  // ---------- lines ----------

  const BOUNDARIES := "\n\U{0b}\U{0c}\r\U{1c}\U{1d}\U{1e}\U{85}\U{2028}\U{2029}"

  lemma BoundariesAre(c: char)
    ensures IsBreak(c) <==> c in BOUNDARIES
  {
    assert |BOUNDARIES| == 10;
    assert BOUNDARIES[0] == '\n' && BOUNDARIES[1] == '\U{0b}' && BOUNDARIES[2] == '\U{0c}' && BOUNDARIES[3] == '\r';
    assert BOUNDARIES[4] == '\U{1c}' && BOUNDARIES[5] == '\U{1d}' && BOUNDARIES[6] == '\U{1e}';
    assert BOUNDARIES[7] == '\U{85}' && BOUNDARIES[8] == '\U{2028}' && BOUNDARIES[9] == '\U{2029}';
  }

  /** The texts that quoting does not protect: these three boundaries are printed as they are. */
  lemma CleanIff(s: string)
    ensures CleanText(s) <==> '\U{85}' !in s && '\U{2028}' !in s && '\U{2029}' !in s
  {
  }

  /**
    A text is cut at its first boundary, and what follows is cut on its own; a line feed
    behind a carriage return goes with it.
  */
  lemma LineIsCut(line: string, c: char, rest: string)
    requires BreakFree(line) && c in BOUNDARIES
    ensures Lines(line + [c] + rest)
         == [line] + Lines(if c == '\r' && rest != "" && rest[0] == '\n' then rest[1..] else rest)
  {
    BoundariesAre(c);
    var s := line + [c] + rest;
    LineLengthIs(line, [c] + rest);
    assert s == line + ([c] + rest);
    assert s[|line|..] == [c] + rest && s[|line| + 1..] == rest;
    if c == '\r' && rest != "" && rest[0] == '\n' {
      assert "\r\n" <= s[|line|..];
      assert s[|line| + 2..] == rest[1..];
    } else {
      assert !("\r\n" <= s[|line|..]);
    }
  }

  lemma {:induction false} LastLineIsWhole(line: string)
    requires BreakFree(line)
    ensures Lines(line) == if line == "" then [] else [line]
  {
    assert LineLength(line) == |line|;
  }

  // ---------- comments ----------

  /** Text in which no quotation starts and no comment. */
  predicate Unmarked(s: string) {
    forall c :: c in s ==> !IsQuote(c) && c != '#'
  }

  /** A number sign outside quotation marks ends the line, whatever stands behind it. */
  lemma CommentIsDropped(before: string, comment: string)
    requires Unmarked(before) && '\t' !in comment
    ensures ReadLine(before + "#" + comment) == ReadLine(before)
  {
    assert before + "#" + comment == before + ("#" + comment);
    UncommentedPlain(before, "#" + comment);
    UncommentedPlain(before, "");
    assert before + "" == before;
  }

  lemma {:induction false} QuotedStays(quote: char, s: string, rest: string)
    requires IsQuote(quote) && quote !in s && '\\' !in s
    ensures Uncommented(s + [quote] + rest, Quoting(Some(quote), false))
         == s + [quote] + Uncommented(rest, UNQUOTED)
  {
    var text := s + [quote] + rest;
    if s == "" {
      assert text == [quote] + rest && text[1..] == rest;
    } else {
      assert text[1..] == s[1..] + [quote] + rest;
      QuotedStays(quote, s[1..], rest);
    }
  }

  /** Inside quotation marks it is a character like any other, and so is the other mark. */
  lemma QuotationIsKept(before: string, quote: char, s: string, comment: string)
    requires Unmarked(before) && IsQuote(quote) && quote !in s && '\\' !in s
    ensures Uncommented(before + ([quote] + (s + [quote] + ("#" + comment))), UNQUOTED)
         == before + ([quote] + (s + [quote]))
  {
    UncommentedPlain(before, [quote] + (s + [quote] + ("#" + comment)));
    assert ([quote] + (s + [quote] + ("#" + comment)))[1..] == s + [quote] + ("#" + comment);
    QuotedStays(quote, s, "#" + comment);
  }

  // ---------- lines that are refused, and those that are not ----------

  lemma TabIsRefused(line: string)
    requires '\t' in line
    ensures ReadLine(line) == Bad(TabsNotAllowed)
  {
  }

  lemma {:induction false} TightBehindSpaces(n: nat, body: string)
    requires Tight(body)
    ensures RightStripped(Spaces(n) + body) == Spaces(n) + body
    ensures Stripped(Spaces(n) + body) == body
  {
    if n == 0 {
      assert Spaces(0) + body == body;
    } else {
      assert (Spaces(n) + body)[1..] == Spaces(n - 1) + body;
      TightBehindSpaces(n - 1, body);
    }
  }

  /** A line that is nothing but its body, behind any number of spaces. */
  lemma BodyDecides(n: nat, body: string)
    requires Tight(body) && Unmarked(body) && '\t' !in body
    ensures ReadLine(Spaces(n) + body) == Body(n, body)
  {
    var line := Spaces(n) + body;
    UncommentedPlain(line, "");
    assert line + "" == line;
    TightBehindSpaces(n, body);
    IndentIs(n, body);
    assert line[n..] == body;
  }

  /** The key reaches to the first colon, without the white space around it; what is behind the colon is the scalar. */
  lemma EntryIsRead(n: nat, key: string, raw: string)
    requires Tight(key) && ':' !in key && key[0] != '-'
    requires Tight(key + ":" + raw) && Unmarked(key + ":" + raw) && '\t' !in key + ":" + raw
    ensures ReadLine(Spaces(n) + (key + ":" + raw)) == Entry(n, key, raw)
  {
    var body := key + ":" + raw;
    BodyDecides(n, body);
    ColonIs(key, raw);
    assert body[..|key|] == key && body[|key| + 1..] == raw;
    StrippedTight(key);
    assert ':' in body by { assert body[|key|] == ':'; }
    assert body[0] == key[0];
  }

  /** Lists, lines without a colon and lines without a key are refused, each with its own error. */
  lemma BadLines(n: nat, body: string)
    requires Tight(body) && Unmarked(body) && '\t' !in body
    ensures body[0] == '-' ==> ReadLine(Spaces(n) + body) == Bad(SequenceNotSupported)
    ensures body[0] != '-' && ':' !in body ==> ReadLine(Spaces(n) + body) == Bad(KeyValueExpected)
    ensures body[0] == ':' ==> ReadLine(Spaces(n) + body) == Bad(EmptyKey)
  {
    BodyDecides(n, body);
  }

  // ---------- scalars ----------

  /** A text for single quotation marks: each mark in it is written twice. */
  function Doubled(s: string): string {
    if s == "" then "" else (if s[0] == '\'' then "''" else [s[0]]) + Doubled(s[1..])
  }

  lemma {:induction false} UndoubledDoubled(s: string)
    ensures Undoubled(Doubled(s)) == s
  {
    if s != "" {
      var rest := Doubled(s[1..]);
      UndoubledDoubled(s[1..]);
      assert s == [s[0]] + s[1..];
      if s[0] == '\'' {
        assert Doubled(s)[..2] == "''" && Doubled(s)[2..] == rest;
      } else {
        assert Doubled(s)[0] == s[0] && Doubled(s)[1..] == rest;
      }
    }
  }

  /** Between single quotation marks any text is read as itself. */
  lemma SingleQuotedIsText(s: string)
    ensures ParseScalar("'" + Doubled(s) + "'") == Parsed(Text(s))
  {
    var value := "'" + Doubled(s) + "'";
    StrippedTight(value);
    LoweredAt(value);
    UndoubledDoubled(s);
    assert value[1..|value| - 1] == Doubled(s);
    assert Lowered(value)[0] == '\'';
    assert Lowered(value)[0] !in "tfn~";
  }

  /** A quotation mark that is not closed at the end is an error. */
  lemma UnclosedIsRefused(s: string)
    requires Tight(s) && IsQuote(s[0]) && (|s| == 1 || s[|s| - 1] != s[0])
    ensures ParseScalar(s) == Unparsed(UnterminatedScalar)
  {
    StrippedTight(s);
    LoweredAt(s);
    assert Lowered(s)[0] !in "tfn~";
  }

  /** A word that is no truth value and not null is a text, as it stands. */
  lemma PlainWordIsText(s: string)
    requires Tight(s) && ('a' <= s[0] <= 'z' || 'A' <= s[0] <= 'Z')
    requires Lowered(s) != "true" && Lowered(s) != "false" && Lowered(s) != "null"
    ensures ParseScalar(s) == Parsed(Text(s))
  {
    StrippedTight(s);
    assert 'a' <= Lowered(s)[0] <= 'z';
    assert Lowered(s) != "~";
  }

  /** Capital letters make no difference to the words that are values. */
  lemma WordsAreValues(s: string)
    requires Tight(s)
    ensures Lowered(s) == "null" || s == "~" ==> ParseScalar(s) == Parsed(Null)
    ensures Lowered(s) == "true" ==> ParseScalar(s) == Parsed(Bool(true))
    ensures Lowered(s) == "false" ==> ParseScalar(s) == Parsed(Bool(false))
  {
    StrippedTight(s);
    assert s == "~" ==> Lowered(s) == "~";
  }

  lemma CapitalsAreLowered()
    ensures Lowered("NULL") == "null" && Lowered("TRUE") == "true" && Lowered("FALSE") == "false"
    ensures Lowered("aZ-9") == "az-9"
  {
  }

  /** Nothing but white space behind the colon opens a mapping. */
  lemma {:induction false} NothingOpensMapping(s: string)
    requires forall c :: c in s ==> IsSpace(c)
    ensures ParseScalar(s) == Parsed(Mapping([]))
  {
    AllStripped(s);
  }

  lemma {:induction false} AllStripped(s: string)
    requires forall c :: c in s ==> IsSpace(c)
    ensures LeftStripped(s) == ""
  {
    if s != "" {
      assert s[0] in s && forall c :: c in s[1..] ==> c in s;
      AllStripped(s[1..]);
    }
  }

  // ---------- numbers ----------

  predicate AllDigits(s: string) {
    s != "" && forall c :: c in s ==> IsDigit(c)
  }

  function ValueBehind(n: int, digits: string): int
    requires forall c :: c in digits ==> IsDigit(c)
    decreases |digits|
  {
    if digits == "" then n else ValueBehind(n * 10 + (digits[0] as int - '0' as int), digits[1..])
  }

  lemma {:induction false} ParseThrough(digits: string, rest: string, n: int, afterDigit: bool)
    requires AllDigits(digits)
    ensures ParseDigits(digits + rest, n, afterDigit) == ParseDigits(rest, ValueBehind(n, digits), true)
  {
    var text := digits + rest;
    assert text[0] == digits[0] && digits[0] in digits && text[1..] == digits[1..] + rest;
    if |digits| == 1 {
      assert text[1..] == rest;
    } else {
      ParseThrough(digits[1..], rest, n * 10 + (digits[0] as int - '0' as int), true);
    }
  }

  /** Digits are a number, with a sign or without. */
  lemma NumberIsRead(a: string)
    requires AllDigits(a)
    ensures ParseInt(a) == ParseInt("+" + a) == Some(ValueBehind(0, a))
    ensures ParseInt("-" + a) == Some(-ValueBehind(0, a))
  {
    ParseThrough(a, "", 0, false);
    assert a + "" == a && ("+" + a)[1..] == a && ("-" + a)[1..] == a && a[0] in a;
  }

  /** A single underscore between digits is skipped. */
  lemma UnderscoreIsSkipped(a: string, b: string)
    requires AllDigits(a) && AllDigits(b)
    ensures ParseInt(a + "_" + b) == ParseInt(a + b) == Some(ValueBehind(ValueBehind(0, a), b))
  {
    assert a[0] in a;
    ParseThrough(a, b, 0, false);
    ParseThrough(a, "_" + b, 0, false);
    assert a + "_" + b == a + ("_" + b) && ("_" + b)[1..] == b && b + "" == b;
    ParseThrough(b, "", ValueBehind(0, a), false);
    ParseThrough(b, "", ValueBehind(0, a), true);
  }

  /** An underscore anywhere else makes a text of it, and so does a sign without digits. */
  lemma NoNumber(a: string, b: string)
    requires AllDigits(a)
    ensures ParseInt("_" + b) == None && ParseInt(a + "_") == None && ParseInt(a + "__" + b) == None
    ensures ParseInt("") == ParseInt("+") == ParseInt("-") == None
  {
    ParseThrough(a, "_", 0, false);
    ParseThrough(a, "__" + b, 0, false);
    assert a + "__" + b == a + ("__" + b) && a[0] in a;
    assert ("__" + b)[1..] == "_" + b;
  }

  // ---------- escapes ----------

  /** The texts of the seven characters that have an escape of their own. */
  lemma ShortEscapes()
    ensures EscapedChar('"') == "\\\"" && EscapedChar('\\') == "\\\\"
    ensures EscapedChar('\n') == "\\n" && EscapedChar('\r') == "\\r" && EscapedChar('\t') == "\\t"
    ensures EscapedChar('\U{8}') == "\\b" && EscapedChar('\U{c}') == "\\f"
  {
  }

  /** Any other control character is printed by its number, and no other character is escaped. */
  lemma OtherEscapes(c: char)
    requires c !in "\"\\\n\r\t\U{8}\U{c}"
    ensures c >= ' ' ==> EscapedChar(c) == [c]
    ensures c < ' ' ==> exists x, y :: EscapedChar(c) == "\\u00" + [x, y]
                                       && HexValue(x) == Some(c as int / 16) && HexValue(y) == Some(c as int % 16)
  {
  }

  /** A character can be written with four hexadecimal digits, of either case, if it is no surrogate. */
  lemma CodeIsRead(h: string, a: nat, b: nat, c: nat, d: nat, rest: string)
    requires |h| == 4 && HexValue(h[0]) == Some(a) && HexValue(h[1]) == Some(b)
    requires HexValue(h[2]) == Some(c) && HexValue(h[3]) == Some(d)
    ensures var code := 4096 * a + 256 * b + 16 * c + d;
            Unescaped("\\u" + h + rest) ==
            if 0xd800 <= code < 0xe000 then None else Prepend(code as char, Unescaped(rest))
  {
    var s := "\\u" + h + rest;
    assert s[2..6] == h && s[6..] == rest;
  }

  lemma HexIgnoresCase(d: nat)
    requires 10 <= d < 16
    ensures HexValue(('A' as int + d - 10) as char) == HexValue(('a' as int + d - 10) as char) == Some(d)
  {
  }

  lemma SlashIsRead(rest: string)
    ensures Unescaped("\\/" + rest) == Prepend('/', Unescaped(rest))
  {
    var s := "\\/" + rest;
    assert s[0] == '\\' && s[1] == '/' && s[2..] == rest;
    hide CodeUnit;
  }

  /** A text that ends within an escape is refused, and so is one with a control character. */
  lemma BrokenEscapes(s: string)
    requires s != ""
    ensures s[0] < ' ' || (s[0] == '\\' && (|s| == 1 || (s[1] == 'u' && |s| < 6))) ==> Unescaped(s) == None
  {
  }
}
