/**
  A printed document loads as what it means exactly when no text in it has a line
  boundary that quoting leaves as it is; otherwise it does not load at all.
*/
module ManifestRoundTrip {
  import opened ManifestLoader
  import opened ManifestPrinter
  import opened PathLists
  import opened Scalars

  // ---------- documents that load ----------

  lemma LineIsBreakFree(depth: nat, key: string, text: string)
    requires PlainKey(key) && BreakFree(text)
    ensures BreakFree(LineOf(depth, key, text))
  {
  }

  lemma LeafIsBreakFree(value: Value, text: string)
    requires WrittenAs(value, text) && (value.Text? ==> CleanText(value.s))
    ensures BreakFree(text)
  {
    if value.Text? {
      EscapedIsPlain(value.s);
    } else {
      NumbersArePlain(value, text);
    }
  }

  lemma {:induction false} LinesAreBreakFree(doc: Document, depth: nat)
    requires WellFormed(doc) && Clean(doc)
    ensures forall line :: line in DocumentLines(doc, depth) ==> BreakFree(line)
    decreases doc
  {
    if doc.Keyed? {
      LinesAreBreakFree(doc.rest, depth);
      match doc.item
      case Leaf(value, text) =>
        LeafIsBreakFree(value, text);
        LineIsBreakFree(depth, doc.key, text);
      case Section(items) =>
        LineIsBreakFree(depth, doc.key, "");
        LinesAreBreakFree(items, depth + 1);
    }
  }

  function Unlines(lines: seq<string>): string {
    if lines == [] then "" else lines[0] + ("\n" + Unlines(lines[1..]))
  }

  lemma {:induction false} JoinIsUnlines(lines: seq<string>)
    requires lines != []
    ensures Join(lines, '\n') + "\n" == Unlines(lines)
  {
    if |lines| == 1 {
      assert Unlines(lines[1..]) == "";
    } else {
      JoinIsUnlines(lines[1..]);
    }
  }

  /** The lines of a text that was put together from lines. */
  lemma {:induction false} LinesOfUnlines(lines: seq<string>)
    requires forall line :: line in lines ==> BreakFree(line)
    ensures Lines(Unlines(lines)) == lines
  {
    if lines != [] {
      var rest := Unlines(lines[1..]);
      LinesOfUnlines(lines[1..]);
      FirstLine(lines[0], "\n" + rest);
      assert ("\n" + rest)[1..] == rest;
    }
  }

  lemma CleanLoads(doc: Document)
    requires doc.Keyed? && WellFormed(doc) && Clean(doc)
    ensures Load(DocumentText(doc)) == Loaded(Mapping(Meaning(doc)))
  {
    var lines := DocumentLines(doc, 0);
    LinesAreBreakFree(doc, 0);
    JoinIsUnlines(lines);
    LinesOfUnlines(lines);
    FitsNothing(doc);
    DocumentAdvances(doc, 0, [ROOT]);
    RunAdvances(lines, 1, [ROOT]);
    assert [] + Meaning(doc) == Meaning(doc);
  }

  // ---------- documents that do not ----------

  /** A line that quotes a text with a line boundary left in it. */
  ghost predicate CutLine(line: string) {
    exists depth: nat, key, s :: line == LineOf(depth, key, Quoted(s)) && PlainKey(key) && !CleanText(s)
  }

  ghost predicate WholeOrCut(line: string) {
    BreakFree(line) || CutLine(line)
  }

  lemma {:induction false} LinesAreWholeOrCut(doc: Document, depth: nat)
    requires WellFormed(doc)
    ensures forall line :: line in DocumentLines(doc, depth) ==> WholeOrCut(line)
    ensures !Clean(doc) ==> exists line :: line in DocumentLines(doc, depth) && CutLine(line)
    decreases doc
  {
    if doc.Keyed? {
      LinesAreWholeOrCut(doc.rest, depth);
      match doc.item
      case Leaf(value, text) =>
        if value.Text? && !CleanText(value.s) {
          assert CutLine(LineOf(depth, doc.key, text));
        } else {
          LeafIsBreakFree(value, text);
          LineIsBreakFree(depth, doc.key, text);
          assert CleanItem(doc.item);
        }
      case Section(items) =>
        LineIsBreakFree(depth, doc.key, "");
        LinesAreWholeOrCut(items, depth + 1);
        assert CleanItem(doc.item) == Clean(items);
    }
  }

  lemma {:induction false} EscapedConcat(a: string, b: string)
    ensures Escaped(a + b) == Escaped(a) + Escaped(b)
  {
    hide EscapedChar;
    if a == "" {
      assert a + b == b;
    } else {
      EscapedConcat(a[1..], b);
      assert (a + b)[1..] == a[1..] + b && (a + b)[0] == a[0];
      Grouped(EscapedChar(a[0]), Escaped(a[1..]), Escaped(b));
    }
  }

  lemma EscapedOne(c: char)
    ensures Escaped([c]) == EscapedChar(c)
  {
    assert Escaped([c][1..]) == "";
  }

  lemma {:induction false} EscapedLast(s: string)
    requires s != ""
    ensures Escaped(s) == Escaped(s[..|s| - 1]) + EscapedChar(s[|s| - 1])
  {
    var front, last := s[..|s| - 1], s[|s| - 1];
    assert s == front + [last];
    EscapedConcat(front, [last]);
    EscapedOne(last);
  }

  predicate StaysAtEnd(c: char) {
    NeedsEscape(c) || !IsSpace(c)
  }

  lemma EscapedEnd(c: char)
    ensures EscapedChar(c) != ""
    ensures StaysAtEnd(c) ==> !IsSpace(EscapedChar(c)[|EscapedChar(c)| - 1])
    ensures !StaysAtEnd(c) ==> EscapedChar(c) == [c]
  {
  }

  function Kept(s: string): (t: string)
    ensures t == "" || StaysAtEnd(t[|t| - 1])
  {
    if s != "" && !StaysAtEnd(s[|s| - 1]) then Kept(s[..|s| - 1]) else s
  }

  /** Stripping an open quotation takes white space of the text itself, and never the quotation mark. */
  lemma {:induction false} StrippedOpenQuotation(start: string, s: string)
    requires start != "" && !IsSpace(start[|start| - 1])
    ensures RightStripped(start + Escaped(s)) == start + Escaped(Kept(s))
    decreases |s|
  {
    if s == "" {
      assert start + Escaped(s) == start;
    } else {
      OpenQuotationEnd(start, s);
      if !StaysAtEnd(s[|s| - 1]) {
        StrippedOpenQuotation(start, s[..|s| - 1]);
      }
    }
  }

  lemma OpenQuotationEnd(start: string, s: string)
    requires s != ""
    ensures RightStripped(start + Escaped(s))
         == if StaysAtEnd(s[|s| - 1]) then start + Escaped(s) else RightStripped(start + Escaped(s[..|s| - 1]))
  {
    EscapedLast(s);
    EscapedEnd(s[|s| - 1]);
    Grouped(start, Escaped(s[..|s| - 1]), EscapedChar(s[|s| - 1]));
    StrippedEnd(start + Escaped(s[..|s| - 1]), EscapedChar(s[|s| - 1]));
  }

  lemma Grouped(a: string, b: string, c: string)
    ensures a + (b + c) == a + b + c
  {
  }

  lemma StrippedEnd(front: string, end: string)
    requires end != ""
    ensures !IsSpace(end[|end| - 1]) ==> RightStripped(front + end) == front + end
    ensures |end| == 1 && IsSpace(end[0]) ==> RightStripped(front + end) == RightStripped(front)
  {
    if |end| == 1 {
      assert (front + end)[..|front|] == front;
    }
  }

  lemma TightBehindMark(text: string)
    requires text == "" || !IsSpace(text[|text| - 1])
    ensures Tight("\"" + text)
  {
  }

  lemma EscapedEndsTight(s: string)
    requires s != "" && StaysAtEnd(s[|s| - 1])
    ensures Escaped(s) != "" && !IsSpace(Escaped(s)[|Escaped(s)| - 1])
  {
    EscapedLast(s);
    EscapedEnd(s[|s| - 1]);
    LastOfConcat(Escaped(s[..|s| - 1]), EscapedChar(s[|s| - 1]));
  }

  lemma {:induction false} OpenQuotationIsTight(s: string)
    requires s == "" || StaysAtEnd(s[|s| - 1])
    ensures Tight("\"" + Escaped(s))
  {
    if s == "" {
      assert Escaped(s) == "";
    } else {
      EscapedEndsTight(s);
    }
    hide Escaped;
    TightBehindMark(Escaped(s));
  }

  lemma LastOfConcat(a: string, b: string)
    requires b != ""
    ensures (a + b)[|a + b| - 1] == b[|b| - 1]
  {
  }

  lemma LineInParts(depth: nat, key: string, front: string, back: string)
    requires front != ""
    ensures LineOf(depth, key, front + back) == LineOf(depth, key, front) + back
  {
  }

  lemma OpenQuotationStripped(depth: nat, key: string, s: string)
    ensures RightStripped(LineOf(depth, key, "\"" + Escaped(s))) == LineOf(depth, key, "\"" + Escaped(Kept(s)))
  {
    LineInParts(depth, key, "\"", Escaped(s));
    LineInParts(depth, key, "\"", Escaped(Kept(s)));
    StrippedOpenQuotation(LineOf(depth, key, "\""), s);
  }

  lemma ReadOpenQuotation(depth: nat, key: string, s: string)
    requires PlainKey(key)
    ensures ReadLine(LineOf(depth, key, "\"" + Escaped(s))) == Entry(2 * depth, key, Behind("\"" + Escaped(Kept(s))))
  {
    UncommentedQuoted(s, "");
    assert "\"" + Escaped(s) + "" == "\"" + Escaped(s);
    EscapedIsPlain(s);
    UncommentedLine(depth, key, "\"" + Escaped(s));
    OpenQuotationStripped(depth, key, s);
    OpenQuotationIsTight(Kept(s));
    ContentOfLine(depth, key, "\"" + Escaped(Kept(s)));
  }

  lemma {:induction false} ParseOpenQuotation(s: string)
    requires s == "" || StaysAtEnd(s[|s| - 1])
    ensures ParseScalar(Behind("\"" + Escaped(s))).Unparsed?
  {
    var open := "\"" + Escaped(s);
    OpenQuotationIsTight(s);
    StrippedTight(open);
    ParseQuoted(Behind(open), open);
    UnescapedUnclosed(s);
    assert open[1..] == Escaped(s);
  }

  lemma UnparsedBreaks(stack: Stack, raw: string, indent: nat, key: string, text: string)
    requires ReadLine(raw) == Entry(indent, key, text) && ParseScalar(text).Unparsed?
    ensures TakeLine(stack, raw).Broken?
  {
  }

  /** A quotation that the line boundary cuts off is an error, wherever it stands. */
  lemma OpenQuotationFails(depth: nat, key: string, s: string, stack: Stack)
    requires PlainKey(key)
    ensures TakeLine(stack, LineOf(depth, key, "\"" + Escaped(s))).Broken?
  {
    var kept := Behind("\"" + Escaped(Kept(s)));
    ReadOpenQuotation(depth, key, s);
    ParseOpenQuotation(Kept(s));
    UnparsedBreaks(stack, LineOf(depth, key, "\"" + Escaped(s)), 2 * depth, key, kept);
  }

  /** The part of a text in front of its first line boundary that quoting leaves as it is. */
  lemma {:induction false} FirstCut(s: string) returns (k: nat)
    requires !CleanText(s)
    ensures k < |s| && CleanText(s[..k]) && IsBreak(s[k]) && !NeedsEscape(s[k])
  {
    k := 0;
    while !IsPlainBreak(s[k])
      invariant k < |s| && CleanText(s[..k])
      invariant !CleanText(s[k..])
      decreases |s| - k
    {
      assert s[..k + 1] == s[..k] + [s[k]];
      assert s[k..] == [s[k]] + s[k + 1..];
      assert s[k + 1..] != "";
      k := k + 1;
    }
  }

  lemma QuotedAt(s: string, k: nat)
    requires k < |s| && !NeedsEscape(s[k])
    ensures Quoted(s) == "\"" + Escaped(s[..k]) + ([s[k]] + Escaped(s[k + 1..]) + "\"")
  {
    EscapedConcat(s[..k], s[k..]);
    assert s == s[..k] + s[k..] && s[k..][1..] == s[k + 1..];
  }

  lemma QuotedLineParts(depth: nat, key: string, s: string, k: nat, rest: string) returns (back: string)
    requires k < |s| && !NeedsEscape(s[k])
    ensures back != "" && back[0] == s[k]
    ensures LineOf(depth, key, Quoted(s)) + rest == LineOf(depth, key, "\"" + Escaped(s[..k])) + back
  {
    var end := [s[k]] + Escaped(s[k + 1..]) + "\"";
    back := end + rest;
    QuotedAt(s, k);
    LineInParts(depth, key, "\"" + Escaped(s[..k]), end);
    Grouped(LineOf(depth, key, "\"" + Escaped(s[..k])), end, rest);
  }

  lemma QuotedLineCut(depth: nat, key: string, s: string, k: nat, rest: string)
    requires PlainKey(key) && k < |s| && CleanText(s[..k]) && IsBreak(s[k]) && !NeedsEscape(s[k])
    ensures var lines := Lines(LineOf(depth, key, Quoted(s)) + rest);
            lines != [] && lines[0] == LineOf(depth, key, "\"" + Escaped(s[..k]))
  {
    var front := "\"" + Escaped(s[..k]);
    var back := QuotedLineParts(depth, key, s, k, rest);
    EscapedIsPlain(s[..k]);
    LineIsBreakFree(depth, key, front);
    FirstLine(LineOf(depth, key, front), back);
  }

  lemma CutLineFails(line: string, rest: string, stack: Stack)
    requires CutLine(line)
    ensures var lines := Lines(line + rest); lines != [] && TakeLine(stack, lines[0]).Broken?
  {
    var depth: nat, key, s :| line == LineOf(depth, key, Quoted(s)) && PlainKey(key) && !CleanText(s);
    var k := FirstCut(s);
    QuotedLineCut(depth, key, s, k, rest);
    OpenQuotationFails(depth, key, s[..k], stack);
  }

  lemma {:induction false} CutLinesFail(lines: seq<string>, number: nat, stack: Stack)
    requires forall line :: line in lines ==> WholeOrCut(line)
    requires exists line :: line in lines && CutLine(line)
    ensures Run(Lines(Unlines(lines)), number, stack).Failed?
    decreases |lines|
  {
    var rest := Unlines(lines[1..]);
    if CutLine(lines[0]) {
      CutLineFails(lines[0], "\n" + rest, stack);
    } else {
      assert WholeOrCut(lines[0]);
      FirstLine(lines[0], "\n" + rest);
      assert ("\n" + rest)[1..] == rest;
      var next := TakeLine(stack, lines[0]);
      if next.Open? {
        CutLinesFail(lines[1..], number + 1, next.stack);
      }
    }
  }

  lemma {:induction false} UncleanFails(doc: Document)
    requires WellFormed(doc) && !Clean(doc)
    ensures Load(DocumentText(doc)).Failed?
  {
    var lines := DocumentLines(doc, 0);
    LinesAreWholeOrCut(doc, 0);
    JoinIsUnlines(lines);
    CutLinesFail(lines, 1, [ROOT]);
  }

  /** The round trip, and exactly when it succeeds. */
  lemma {:induction false} DocumentRoundTrip(doc: Document)
    requires doc.Keyed? && WellFormed(doc)
    ensures Clean(doc) ==> Load(DocumentText(doc)) == Loaded(Mapping(Meaning(doc)))
    ensures !Clean(doc) ==> Load(DocumentText(doc)).Failed?
  {
    if Clean(doc) {
      CleanLoads(doc);
    } else {
      UncleanFails(doc);
    }
  }
}
