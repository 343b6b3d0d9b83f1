/**
  The resolved build manifest as text, and what the manifest loader makes of it again.
*/
module ManifestPrinter {
  import opened ManifestLoader
  import opened Options
  import opened PathLists
  import opened Scalars

  // ---------- documents ----------

  /** A value and how it is written, or a nested document. */
  datatype Item = Leaf(value: Value, text: string) | Section(items: Document)

  datatype Document = Nothing | Keyed(key: string, item: Item, rest: Document)

  function Spaces(n: nat): (s: string)
    ensures |s| == n && forall i :: 0 <= i < n ==> s[i] == ' '
  {
    seq(n, _ => ' ')
  }

  /** A key, and its scalar behind it if it has one. */
  function LineOf(depth: nat, key: string, text: string): string {
    Spaces(2 * depth) + BodyOf(key, text)
  }

  function BodyOf(key: string, text: string): string {
    key + ":" + Behind(text)
  }

  function Behind(text: string): string {
    if text == "" then "" else " " + text
  }

  function DocumentLines(doc: Document, depth: nat): seq<string> {
    match doc
    case Nothing => []
    case Keyed(key, Leaf(_, text), rest) => [LineOf(depth, key, text)] + DocumentLines(rest, depth)
    case Keyed(key, Section(items), rest) =>
      [LineOf(depth, key, "")] + DocumentLines(items, depth + 1) + DocumentLines(rest, depth)
  }

  function Meaning(doc: Document): Entries {
    match doc
    case Nothing => []
    case Keyed(key, item, rest) => [(key, ItemMeaning(item))] + Meaning(rest)
  }

  function ItemMeaning(item: Item): Value {
    match item
    case Leaf(value, _) => value
    case Section(items) => Mapping(Meaning(items))
  }

  function DocumentText(doc: Document): string {
    Join(DocumentLines(doc, 0), '\n') + "\n"
  }

  predicate PlainKey(key: string) {
    key != "" && forall c :: c in key ==> 'a' <= c <= 'z' || c == '_'
  }

  predicate HasName(doc: Document, key: string) {
    doc.Keyed? && (doc.key == key || HasName(doc.rest, key))
  }

  predicate WellFormed(doc: Document) {
    doc.Keyed? ==>
      PlainKey(doc.key) && !HasName(doc.rest, doc.key) && WellFormedItem(doc.item) && WellFormed(doc.rest)
  }

  predicate WellFormedItem(item: Item) {
    match item
    case Leaf(value, text) => WrittenAs(value, text)
    case Section(items) => WellFormed(items)
  }

  predicate BreakFree(s: string) {
    forall c :: c in s ==> !IsBreak(c)
  }

  /** No text in it has a line boundary that quoting leaves as it is. */
  predicate Clean(doc: Document) {
    doc.Keyed? ==> CleanItem(doc.item) && Clean(doc.rest)
  }

  predicate CleanItem(item: Item) {
    match item
    case Leaf(value, _) => value.Text? ==> CleanText(value.s)
    case Section(items) => Clean(items)
  }

  predicate CleanText(s: string) {
    forall c :: c in s ==> !IsPlainBreak(c)
  }

  // ---------- lines of a text ----------

  lemma {:induction false} LineLengthIs(line: string, rest: string)
    requires BreakFree(line) && rest != "" && IsBreak(rest[0])
    ensures LineLength(line + rest) == |line|
  {
    var text := line + rest;
    if line == "" {
      assert text == rest;
    } else {
      assert line[0] in line;
      assert text[1..] == line[1..] + rest;
      LineLengthIs(line[1..], rest);
    }
  }

  lemma {:induction false} FirstLine(line: string, rest: string)
    requires BreakFree(line) && rest != "" && IsBreak(rest[0])
    ensures Lines(line + rest) != [] && Lines(line + rest)[0] == line
    ensures rest[0] == '\n' ==> Lines(line + rest) == [line] + Lines(rest[1..])
  {
    var text := line + rest;
    LineLengthIs(line, rest);
    assert text[..|line|] == line && text[|line|..] == rest && text[|line| + 1..] == rest[1..];
  }

  // ---------- one line read back ----------

  lemma {:induction false} UncommentedPlain(plain: string, rest: string)
    requires forall c :: c in plain ==> !IsQuote(c) && c != '#'
    ensures Uncommented(plain + rest, UNQUOTED) == plain + Uncommented(rest, UNQUOTED)
  {
    if plain == "" {
      assert plain + rest == rest;
    } else {
      assert plain[0] in plain;
      assert (plain + rest)[1..] == plain[1..] + rest;
      UncommentedPlain(plain[1..], rest);
    }
  }

  lemma LastIsKept(s: string)
    requires s != "" && !IsSpace(s[|s| - 1])
    ensures RightStripped(s) == s && LeftStripped(s) != "" && Stripped(s) != ""
    decreases |s|
  {
    if IsSpace(s[0]) {
      LastIsKept(s[1..]);
    }
  }

  lemma {:induction false} IndentIs(n: nat, body: string)
    requires body != "" && body[0] != ' '
    ensures Indent(Spaces(n) + body) == n
  {
    var line := Spaces(n) + body;
    if n == 0 {
      assert line == body;
    } else {
      assert line[1..] == Spaces(n - 1) + body;
      IndentIs(n - 1, body);
    }
  }

  lemma {:induction false} ColonIs(key: string, rest: string)
    requires ':' !in key
    ensures Colon(key + ":" + rest) == |key|
  {
    if key != "" {
      assert (key + ":" + rest)[1..] == key[1..] + ":" + rest;
      ColonIs(key[1..], rest);
    }
  }

  lemma PlainKeyIsTight(key: string)
    requires PlainKey(key)
    ensures Tight(key) && ':' !in key && key[0] != '-' && key[0] != ' ' && Stripped(key) == key
  {
    assert key[0] in key && key[|key| - 1] in key;
    StrippedTight(key);
  }

  lemma BodyReadsBack(indent: nat, key: string, text: string)
    requires PlainKey(key)
    ensures Body(indent, BodyOf(key, text)) == Entry(indent, key, Behind(text))
  {
    var body := BodyOf(key, text);
    PlainKeyIsTight(key);
    ColonIs(key, Behind(text));
    assert body[|key|] == ':' && body[0] == key[0];
    assert body[..|key|] == key && body[|key| + 1..] == Behind(text);
  }

  lemma LineEnd(depth: nat, key: string, text: string)
    requires text == "" || !IsSpace(text[|text| - 1])
    ensures var line := LineOf(depth, key, text); line != "" && !IsSpace(line[|line| - 1])
  {
    var line := LineOf(depth, key, text);
    assert line[|line| - 1] == if text == "" then ':' else text[|text| - 1];
  }

  lemma ContentOfLine(depth: nat, key: string, text: string)
    requires PlainKey(key) && (text == "" || !IsSpace(text[|text| - 1]))
    ensures Content(LineOf(depth, key, text)) == Entry(2 * depth, key, Behind(text))
    ensures RightStripped(LineOf(depth, key, text)) == LineOf(depth, key, text)
  {
    PlainKeyIsTight(key);
    LineEnd(depth, key, text);
    LastIsKept(LineOf(depth, key, text));
    BodyBehindSpaces(depth, key, text);
    BodyReadsBack(2 * depth, key, text);
  }

  lemma BodyBehindSpaces(depth: nat, key: string, text: string)
    requires key != "" && key[0] != ' '
    ensures Indent(LineOf(depth, key, text)) == 2 * depth
    ensures LineOf(depth, key, text)[2 * depth..] == BodyOf(key, text)
  {
    assert BodyOf(key, text)[0] == key[0];
    IndentIs(2 * depth, BodyOf(key, text));
  }

  lemma UncommentedBody(key: string, text: string)
    requires PlainKey(key) && Uncommented(text, UNQUOTED) == text
    ensures Uncommented(BodyOf(key, text), UNQUOTED) == BodyOf(key, text)
  {
    UncommentedPlain(key + ":", Behind(text));
    if text != "" {
      UncommentedPlain(" ", text);
    }
  }

  lemma UncommentedLine(depth: nat, key: string, text: string)
    requires PlainKey(key) && Uncommented(text, UNQUOTED) == text && '\t' !in text
    ensures Uncommented(LineOf(depth, key, text), UNQUOTED) == LineOf(depth, key, text)
    ensures '\t' !in LineOf(depth, key, text)
  {
    UncommentedBody(key, text);
    UncommentedPlain(Spaces(2 * depth), BodyOf(key, text));
    assert '\t' !in Spaces(2 * depth) && '\t' !in key;
  }

  lemma {:induction false} ReadLineOf(depth: nat, key: string, text: string)
    requires PlainKey(key) && Uncommented(text, UNQUOTED) == text && '\t' !in text
    requires text == "" || !IsSpace(text[|text| - 1])
    ensures ReadLine(LineOf(depth, key, text)) == Entry(2 * depth, key, Behind(text))
  {
    UncommentedLine(depth, key, text);
    ContentOfLine(depth, key, text);
  }

  // ---------- quoted text in a line ----------

  const QUOTED := Quoting(Some('"'), false)

  lemma {:induction false} UncommentedInQuotes(plain: string, rest: string)
    requires forall i :: 0 <= i < |plain| ==> plain[i] != '"' && plain[i] != '\\'
    ensures Uncommented(plain + rest, QUOTED) == plain + Uncommented(rest, QUOTED)
  {
    if plain == "" {
      assert plain + rest == rest;
    } else {
      assert (plain + rest)[1..] == plain[1..] + rest;
      UncommentedInQuotes(plain[1..], rest);
    }
  }

  lemma UncommentedBehindBackslash(c: char, rest: string)
    ensures Uncommented(['\\', c] + rest, QUOTED) == ['\\', c] + Uncommented(rest, QUOTED)
  {
    var text := ['\\', c] + rest;
    assert text[1..][1..] == rest;
  }

  lemma UncommentedCode(high: char, low: char, rest: string)
    requires high != '"' && high != '\\' && low != '"' && low != '\\'
    ensures Uncommented("\\u00" + [high, low] + rest, QUOTED) == "\\u00" + [high, low] + Uncommented(rest, QUOTED)
  {
    var code := ['0', '0', high, low];
    UncommentedInQuotes(code, rest);
    UncommentedBehindBackslash('u', code + rest);
    assert "\\u00" + [high, low] == ['\\', 'u'] + code;
    assert "\\u00" + [high, low] + rest == ['\\', 'u'] + (code + rest);
  }

  lemma UncommentedChar(c: char, rest: string)
    ensures Uncommented(EscapedChar(c) + rest, QUOTED) == EscapedChar(c) + Uncommented(rest, QUOTED)
  {
    if !NeedsEscape(c) {
      UncommentedInQuotes([c], rest);
    } else if ShortEscape(c).Some? {
      UncommentedBehindBackslash(ShortEscape(c).value, rest);
    } else {
      UncommentedCode(HexDigit(c as int / 16), HexDigit(c as int % 16), rest);
    }
  }

  lemma {:induction false} UncommentedEscaped(s: string, rest: string)
    ensures Uncommented(Escaped(s) + rest, QUOTED) == Escaped(s) + Uncommented(rest, QUOTED)
  {
    if s == "" {
      assert Escaped(s) + rest == rest;
    } else {
      UncommentedEscaped(s[1..], rest);
      UncommentedChar(s[0], Escaped(s[1..]) + rest);
      assert Escaped(s) + rest == EscapedChar(s[0]) + (Escaped(s[1..]) + rest);
    }
  }

  lemma EscapedCharIsPlain(c: char)
    ensures '\t' !in EscapedChar(c)
    ensures !IsPlainBreak(c) ==> BreakFree(EscapedChar(c))
  {
  }

  lemma {:induction false} EscapedIsPlain(s: string)
    ensures '\t' !in Escaped(s)
    ensures CleanText(s) ==> BreakFree(Escaped(s))
  {
    if s != "" {
      assert s[0] in s;
      EscapedCharIsPlain(s[0]);
      EscapedIsPlain(s[1..]);
    }
  }

  lemma UncommentedQuoted(s: string, close: string)
    requires close in ["", "\""]
    ensures Uncommented("\"" + Escaped(s) + close, UNQUOTED) == "\"" + Escaped(s) + close
  {
    UncommentedEscaped(s, close);
    assert ("\"" + Escaped(s) + close)[1..] == Escaped(s) + close;
  }

  lemma TextIsPlain(s: string)
    ensures '\t' !in Quoted(s) && Uncommented(Quoted(s), UNQUOTED) == Quoted(s)
  {
    UncommentedQuoted(s, "\"");
    EscapedIsPlain(s);
  }

  lemma LeafReadsBack(value: Value, text: string)
    requires WrittenAs(value, text)
    ensures text != "" && !IsSpace(text[|text| - 1]) && '\t' !in text && Uncommented(text, UNQUOTED) == text
    ensures ParseScalar(Behind(text)) == Parsed(value)
  {
    ScalarRoundTrip(value, text);
    if value.Text? {
      TextIsPlain(value.s);
    } else {
      NumbersArePlain(value, text);
      UncommentedPlain(text, "");
      assert text + "" == text;
    }
  }

  lemma NumbersArePlain(value: Value, text: string)
    requires WrittenAs(value, text) && !value.Text?
    ensures forall c :: c in text ==> !IsQuote(c) && c != '#' && c != '\t' && !IsBreak(c)
  {
    if value.Number? {
      var digits := Digits(if value.n < 0 then -value.n else value.n);
      assert forall c :: c in digits ==> IsDigit(c);
    }
  }

  // ---------- the open mappings while a document is read ----------

  function Advance(lines: seq<string>, stack: Stack): StepResult
    decreases |lines|
  {
    if lines == [] then Open(stack)
    else
      match TakeLine(stack, lines[0])
      case Broken(reason) => Broken(reason)
      case Open(stack') => Advance(lines[1..], stack')
  }

  lemma {:induction false} RunAdvances(lines: seq<string>, number: nat, stack: Stack)
    requires Advance(lines, stack).Open?
    ensures Run(lines, number, stack) == Loaded(Finished(Advance(lines, stack).stack))
    decreases |lines|
  {
    if lines != [] {
      RunAdvances(lines[1..], number + 1, TakeLine(stack, lines[0]).stack);
    }
  }

  lemma {:induction false} AdvanceConcat(a: seq<string>, b: seq<string>, stack: Stack)
    requires Advance(a, stack).Open?
    ensures Advance(a + b, stack) == Advance(b, Advance(a, stack).stack)
    decreases |a|
  {
    hide TakeLine;
    if a == [] {
      assert a + b == b;
    } else {
      assert (a + b)[1..] == a[1..] + b;
      AdvanceConcat(a[1..], b, TakeLine(stack, a[0]).stack);
    }
  }

  lemma {:induction false} PopFurther(stack: Stack, high: int, low: int)
    requires low <= high
    ensures PopTo(PopTo(stack, high), low) == PopTo(stack, low)
    decreases |stack|
  {
    if stack != [] && high <= Top(stack).indent {
      PopFurther(Pop(stack), high, low);
    }
  }

  /** The uppermost mapping with more entries. */
  function Extended(stack: Stack, entries: Entries): Stack
    requires stack != []
  {
    WithTop(stack, Top(stack).(entries := Top(stack).entries + entries))
  }

  /** Nothing in the document collides with what the mapping already has. */
  predicate Fits(doc: Document, entries: Entries) {
    doc.Keyed? ==> !HasKey(entries, doc.key) && Fits(doc.rest, entries)
  }

  lemma {:induction false} FitsBehind(doc: Document, entries: Entries, key: string, value: Value)
    requires Fits(doc, entries) && !HasName(doc, key)
    ensures Fits(doc, entries + [(key, value)])
  {
    if doc.Keyed? {
      FitsBehind(doc.rest, entries, key, value);
    }
  }

  lemma {:induction false} FitsNothing(doc: Document)
    ensures Fits(doc, [])
  {
    if doc.Keyed? {
      FitsNothing(doc.rest);
    }
  }

  lemma ExtendedTwice(open: Stack, first: Entries, second: Entries)
    requires open != []
    ensures Extended(Extended(open, first), second) == Extended(open, first + second)
  {
    assert Top(open).entries + first + second == Top(open).entries + (first + second);
  }

  /** A scalar's line adds one entry to the mapping it belongs to. */
  lemma LeafAdvances(key: string, value: Value, text: string, depth: nat, stack: Stack)
    requires PlainKey(key) && WrittenAs(value, text)
    requires PopTo(stack, 2 * depth) != [] && !HasKey(Top(PopTo(stack, 2 * depth)).entries, key)
    ensures TakeLine(stack, LineOf(depth, key, text)) == Open(Extended(PopTo(stack, 2 * depth), [(key, value)]))
  {
    LeafReadsBack(value, text);
    ReadLineOf(depth, key, text);
  }

  lemma LeafLineAdvances(key: string, value: Value, text: string, depth: nat, stack: Stack)
    requires PlainKey(key) && WrittenAs(value, text)
    requires PopTo(stack, 2 * depth) != [] && !HasKey(Top(PopTo(stack, 2 * depth)).entries, key)
    ensures var end := Advance([LineOf(depth, key, text)], stack);
            end.Open? && PopTo(end.stack, 2 * depth) == Extended(PopTo(stack, 2 * depth), [(key, value)])
  {
    LeafAdvances(key, value, text, depth, stack);
    PopToStops(stack, 2 * depth);
  }

  /** A section's line opens a mapping on top of the one it belongs to. */
  lemma SectionAdvances(key: string, depth: nat, stack: Stack)
    requires PlainKey(key)
    requires PopTo(stack, 2 * depth) != [] && !HasKey(Top(PopTo(stack, 2 * depth)).entries, key)
    ensures TakeLine(stack, LineOf(depth, key, "")) == Open(PopTo(stack, 2 * depth) + [Frame(2 * depth, key, [])])
  {
    ReadLineOf(depth, key, "");
  }

  lemma {:induction false} PopToStops(stack: Stack, indent: int)
    ensures PopTo(stack, indent) != [] ==> Top(PopTo(stack, indent)).indent < indent
    decreases |stack|
  {
    if stack != [] && indent <= Top(stack).indent {
      PopToStops(Pop(stack), indent);
    }
  }

  /** When a section is complete, it is one entry of the mapping below. */
  lemma SectionCloses(open: Stack, depth: nat, key: string, entries: Entries, stack: Stack)
    requires open != [] && Top(open).indent < 2 * depth
    requires PopTo(stack, 2 * (depth + 1)) == Extended(open + [Frame(2 * depth, key, [])], entries)
    ensures PopTo(stack, 2 * depth) == Extended(open, [(key, Mapping(entries))])
  {
    var inner := Extended(open + [Frame(2 * depth, key, [])], entries);
    PopFurther(stack, 2 * (depth + 1), 2 * depth);
    assert (open + [Frame(2 * depth, key, [])])[..|open|] == open && [] + entries == entries;
    assert inner[..|inner| - 1] == open;
  }

  /** The lines of a section, when those of its items do what they should. */
  lemma SectionLinesAdvance(key: string, items: Document, depth: nat, stack: Stack)
    requires var open := PopTo(stack, 2 * depth);
             && PlainKey(key) && open != [] && !HasKey(Top(open).entries, key)
             && Advances(items, depth + 1, open + [Frame(2 * depth, key, [])])
    ensures var end := Advance([LineOf(depth, key, "")] + DocumentLines(items, depth + 1), stack);
            && end.Open?
            && PopTo(end.stack, 2 * depth) == Extended(PopTo(stack, 2 * depth), [(key, Mapping(Meaning(items)))])
  {
    var open, lines := PopTo(stack, 2 * depth), DocumentLines(items, depth + 1);
    var inner := open + [Frame(2 * depth, key, [])];
    PopToStops(stack, 2 * depth);
    SectionAdvances(key, depth, stack);
    assert ([LineOf(depth, key, "")] + lines)[1..] == lines;
    SectionCloses(open, depth, key, Meaning(items), Advance(lines, inner).stack);
  }

  /** Reading the lines of a document adds its entries to the mapping it belongs to. */
  predicate Advances(doc: Document, depth: nat, stack: Stack) {
    var end, open := Advance(DocumentLines(doc, depth), stack), PopTo(stack, 2 * depth);
    open != [] && end.Open? && PopTo(end.stack, 2 * depth) == Extended(open, Meaning(doc))
  }

  lemma RestAdvances(doc: Document, first: seq<string>, value: Value, depth: nat, stack: Stack)
    requires doc.Keyed? && Advance(first, stack).Open? && PopTo(stack, 2 * depth) != []
    requires DocumentLines(doc, depth) == first + DocumentLines(doc.rest, depth)
    requires Meaning(doc) == [(doc.key, value)] + Meaning(doc.rest)
    requires PopTo(Advance(first, stack).stack, 2 * depth) == Extended(PopTo(stack, 2 * depth), [(doc.key, value)])
    requires Advances(doc.rest, depth, Advance(first, stack).stack)
    ensures Advances(doc, depth, stack)
  {
    AdvanceConcat(first, DocumentLines(doc.rest, depth), stack);
    ExtendedTwice(PopTo(stack, 2 * depth), [(doc.key, value)], Meaning(doc.rest));
  }

  lemma {:induction false} DocumentAdvances(doc: Document, depth: nat, stack: Stack)
    requires WellFormed(doc)
    requires PopTo(stack, 2 * depth) != [] && Fits(doc, Top(PopTo(stack, 2 * depth)).entries)
    ensures Advances(doc, depth, stack)
    decreases doc
  {
    var open := PopTo(stack, 2 * depth);
    if doc.Nothing? {
      assert Top(open).entries + [] == Top(open).entries;
    } else {
      var value, first := EntryAdvances(doc, depth, stack);
      FitsBehind(doc.rest, Top(open).entries, doc.key, value);
      DocumentAdvances(doc.rest, depth, Advance(first, stack).stack);
      RestAdvances(doc, first, value, depth, stack);
    }
  }

  /** The lines of the first entry of a document, and the value they stand for. */
  lemma {:induction false} EntryAdvances(doc: Document, depth: nat, stack: Stack)
    returns (value: Value, first: seq<string>)
    requires WellFormed(doc) && doc.Keyed?
    requires PopTo(stack, 2 * depth) != [] && !HasKey(Top(PopTo(stack, 2 * depth)).entries, doc.key)
    ensures DocumentLines(doc, depth) == first + DocumentLines(doc.rest, depth)
    ensures Meaning(doc) == [(doc.key, value)] + Meaning(doc.rest)
    ensures Advance(first, stack).Open?
    ensures PopTo(Advance(first, stack).stack, 2 * depth) == Extended(PopTo(stack, 2 * depth), [(doc.key, value)])
    decreases doc, 0
  {
    var open := PopTo(stack, 2 * depth);
    PopToStops(stack, 2 * depth);
    match doc.item
    case Leaf(leaf, text) =>
      value, first := leaf, [LineOf(depth, doc.key, text)];
      LeafLineAdvances(doc.key, leaf, text, depth, stack);
    case Section(items) =>
      value, first := Mapping(Meaning(items)), [LineOf(depth, doc.key, "")] + DocumentLines(items, depth + 1);
      var inner := open + [Frame(2 * depth, doc.key, [])];
      FitsNothing(items);
      DocumentAdvances(items, depth + 1, inner);
      SectionLinesAdvance(doc.key, items, depth, stack);
  }
}
