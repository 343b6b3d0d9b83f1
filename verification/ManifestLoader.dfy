/**
  The build manifest loader: lines of "key: value" nested by indentation, read with a
  stack of the mappings that are still open.
*/
module ManifestLoader {
  import opened Options
  import opened Scalars

  // ---------- lines ----------

  predicate IsBreak(c: char) {
    '\n' <= c <= '\r' || '\U{1c}' <= c <= '\U{1e}' || IsPlainBreak(c)
  }

  /** A line boundary that stands in a quoted text as it is. */
  predicate IsPlainBreak(c: char) {
    c == '\U{85}' || c == '\U{2028}' || c == '\U{2029}'
  }

  function LineLength(s: string): (n: nat)
    ensures n <= |s| && (n < |s| ==> IsBreak(s[n]))
    ensures forall i :: 0 <= i < n ==> !IsBreak(s[i])
  {
    if s == "" || IsBreak(s[0]) then 0 else 1 + LineLength(s[1..])
  }

  /** The text cut at every line boundary; a carriage return and a line feed are one. */
  function Lines(s: string): seq<string>
    decreases |s|
  {
    if s == "" then []
    else
      var n := LineLength(s);
      if n == |s| then [s]
      else [s[..n]] + Lines(s[if "\r\n" <= s[n..] then n + 2 else n + 1..])
  }

  // ---------- comments ----------

  predicate IsQuote(c: char) {
    c == '\'' || c == '"'
  }

  /** The quotation mark a place in a line is inside of, if any, and whether a backslash stands before it. */
  datatype Quoting = Quoting(quote: Option<char>, escaped: bool) {
    predicate StartsComment(c: char) {
      c == '#' && quote.None? && !escaped
    }

    function After(c: char): Quoting {
      if escaped then Quoting(quote, false)
      else if c == '\\' && quote.Some? then Quoting(quote, true)
      else if IsQuote(c) then
        match quote
        case None => Quoting(Some(c), false)
        case Some(q) => Quoting(if q == c then None else quote, false)
      else this
    }
  }

  const UNQUOTED := Quoting(None, false)

  /** The text up to a comment. */
  function Uncommented(s: string, q: Quoting): string
    decreases |s|
  {
    if s == "" || q.StartsComment(s[0]) then "" else [s[0]] + Uncommented(s[1..], q.After(s[0]))
  }

  method StripComment(text: string) returns (line: string)
    ensures line == RightStripped(Uncommented(text, UNQUOTED))
  {
    var quote: Option<char>, escaped, out := None, false, "";
    var i := 0;
    while i < |text|
      invariant 0 <= i <= |text|
      invariant Uncommented(text, UNQUOTED) == out + Uncommented(text[i..], Quoting(quote, escaped))
    {
      var ch := text[i];
      ghost var before := Quoting(quote, escaped);
      UncommentedNext(out, text, i, before);
      if escaped {
        escaped := false;
      } else if ch == '\\' && quote.Some? {
        escaped := true;
      } else if IsQuote(ch) {
        if quote.None? {
          quote := Some(ch);
        } else if quote == Some(ch) {
          quote := None;
        }
      } else if ch == '#' && quote.None? {
        break;
      }
      assert Quoting(quote, escaped) == before.After(ch);
      out := out + [ch];
      i := i + 1;
    }
    assert out + "" == out;
    line := RightStripped(out);
  }

  lemma UncommentedNext(out: string, text: string, i: nat, q: Quoting)
    requires i < |text|
    ensures out + Uncommented(text[i..], q)
         == if q.StartsComment(text[i]) then out + ""
            else out + [text[i]] + Uncommented(text[i + 1..], q.After(text[i]))
  {
    assert text[i..][0] == text[i] && text[i..][1..] == text[i + 1..];
  }

  // ---------- one line ----------

  datatype LineError = TabsNotAllowed | SequenceNotSupported | KeyValueExpected | EmptyKey

  datatype Line = Blank | Entry(indent: nat, key: string, raw: string) | Bad(lineError: LineError)

  /** How many spaces come first. */
  function Indent(s: string): (n: nat)
    ensures n <= |s|
  {
    if s != "" && s[0] == ' ' then 1 + Indent(s[1..]) else 0
  }

  /** Where the first colon is, or the length. */
  function Colon(s: string): (n: nat)
    ensures n <= |s|
  {
    if s == "" || s[0] == ':' then 0 else 1 + Colon(s[1..])
  }

  function ReadLine(raw: string): Line {
    if '\t' in raw then Bad(TabsNotAllowed) else Content(RightStripped(Uncommented(raw, UNQUOTED)))
  }

  function Content(line: string): Line {
    if Stripped(line) == "" then Blank else Body(Indent(line), line[Indent(line)..])
  }

  function Body(indent: nat, body: string): Line {
    if body != "" && body[0] == '-' then Bad(SequenceNotSupported)
    else if ':' !in body then Bad(KeyValueExpected)
    else
      ColonIsThere(body);
      var key := Stripped(body[..Colon(body)]);
      if key == "" then Bad(EmptyKey) else Entry(indent, key, body[Colon(body) + 1..])
  }

  lemma ColonIsThere(s: string)
    requires ':' in s
    ensures Colon(s) < |s|
  {
  }

  // ---------- the open mappings ----------

  type Entries = seq<(string, Value)>

  /**
    A mapping that is still being filled: the indentation of its key, the key, and the
    entries so far without the one whose mapping is open above it.
  */
  datatype Frame = Frame(indent: int, key: string, entries: Entries)

  type Stack = seq<Frame>

  const ROOT := Frame(-1, "", [])

  datatype LoadError =
    | Malformed(lineError: LineError) | InvalidIndentation | DuplicateKey(key: string) | BadScalar(error: ScalarError)

  datatype LoadResult = Loaded(root: Value) | Failed(line: nat, reason: LoadError)

  datatype StepResult = Open(stack: Stack) | Broken(reason: LoadError)

  predicate HasKey(entries: Entries, key: string) {
    exists i :: 0 <= i < |entries| && entries[i].0 == key
  }

  function Top(stack: Stack): Frame
    requires stack != []
  {
    stack[|stack| - 1]
  }

  function WithTop(stack: Stack, top: Frame): Stack
    requires stack != []
  {
    stack[..|stack| - 1] + [top]
  }

  /** The frame with one more entry. */
  function Add(frame: Frame, key: string, value: Value): Frame {
    frame.(entries := frame.entries + [(key, value)])
  }

  /** The uppermost mapping is complete. */
  function Pop(stack: Stack): Stack
    requires stack != []
  {
    var below := stack[..|stack| - 1];
    if below == [] then [] else WithTop(below, Add(Top(below), Top(stack).key, Mapping(Top(stack).entries)))
  }

  /** What stays open for a line with this indentation. */
  function PopTo(stack: Stack, indent: int): Stack
    decreases |stack|
  {
    if stack == [] || indent > Top(stack).indent then stack else PopTo(Pop(stack), indent)
  }

  function Enter(stack: Stack, indent: nat, key: string, raw: string): StepResult {
    var open := PopTo(stack, indent);
    if open == [] then Broken(InvalidIndentation)
    else if HasKey(Top(open).entries, key) then Broken(DuplicateKey(key))
    else
      match ParseScalar(raw)
      case Unparsed(error) => Broken(BadScalar(error))
      case Parsed(value) =>
        if value.Mapping? then Open(open + [Frame(indent, key, value.entries)])
        else Open(WithTop(open, Add(Top(open), key, value)))
  }

  function TakeLine(stack: Stack, raw: string): StepResult {
    match ReadLine(raw)
    case Blank => Open(stack)
    case Bad(error) => Broken(Malformed(error))
    case Entry(indent, key, text) => Enter(stack, indent, key, text)
  }

  /** The mapping at the bottom with everything above it complete. */
  function Finished(stack: Stack): Value {
    var bottom := PopTo(stack, 0);
    if bottom == [] then Mapping([]) else Mapping(bottom[0].entries)
  }

  function Run(lines: seq<string>, number: nat, stack: Stack): LoadResult
    decreases |lines|
  {
    if lines == [] then Loaded(Finished(stack))
    else
      match TakeLine(stack, lines[0])
      case Broken(reason) => Failed(number, reason)
      case Open(stack') => Run(lines[1..], number + 1, stack')
  }

  function Load(text: string): LoadResult {
    Run(Lines(text), 1, [ROOT])
  }

  method LoadSimpleYaml(text: string) returns (result: LoadResult)
    ensures result == Load(text)
  {
    var lines, stack := Lines(text), [ROOT];
    var i := 0;
    while i < |lines|
      invariant 0 <= i <= |lines|
      invariant Load(text) == Run(lines[i..], i + 1, stack)
    {
      var number, raw := i + 1, lines[i];
      assert lines[i..][0] == raw && lines[i..][1..] == lines[i + 1..];
      i := i + 1;
      if '\t' in raw {
        return Failed(number, Malformed(TabsNotAllowed));
      }
      var line := StripComment(raw);
      var content := Content(line);
      if content.Blank? {
        continue;
      }
      if content.Bad? {
        return Failed(number, Malformed(content.lineError));
      }
      ghost var before := stack;
      while stack != [] && content.indent <= Top(stack).indent
        invariant PopTo(stack, content.indent) == PopTo(before, content.indent)
        decreases |stack|
      {
        stack := Pop(stack);
      }
      if stack == [] {
        return Failed(number, InvalidIndentation);
      }
      if HasKey(Top(stack).entries, content.key) {
        return Failed(number, DuplicateKey(content.key));
      }
      var parsed := ParseScalar(content.raw);
      if parsed.Unparsed? {
        return Failed(number, BadScalar(parsed.error));
      }
      if parsed.value.Mapping? {
        stack := stack + [Frame(content.indent, content.key, parsed.value.entries)];
      } else {
        stack := WithTop(stack, Add(Top(stack), content.key, parsed.value));
      }
    }
    result := Loaded(Finished(stack));
  }

  // ---------- what holds of every text ----------

  /** The root at the bottom, and above it ever deeper indentation. */
  ghost predicate Nested(stack: Stack) {
    && stack != [] && stack[0].indent == -1
    && forall i, j :: 0 <= i < j < |stack| ==> stack[i].indent < stack[j].indent
  }

  lemma {:induction false} PopToKeepsNesting(stack: Stack, indent: nat)
    requires Nested(stack)
    ensures Nested(PopTo(stack, indent)) && Top(PopTo(stack, indent)).indent < indent
    decreases |stack|
  {
    if indent <= Top(stack).indent {
      PopToKeepsNesting(Pop(stack), indent);
    }
  }

  lemma EnterKeepsNesting(stack: Stack, indent: nat, key: string, raw: string)
    requires Nested(stack)
    ensures match Enter(stack, indent, key, raw)
            case Broken(reason) => reason != InvalidIndentation
            case Open(stack') => Nested(stack')
  {
    PopToKeepsNesting(stack, indent);
  }

  /** The stack never empties: no text whatever has invalid indentation. */
  lemma {:induction false} NeverInvalidIndentation(lines: seq<string>, number: nat, stack: Stack)
    requires Nested(stack)
    ensures Run(lines, number, stack).Failed? ==> Run(lines, number, stack).reason != InvalidIndentation
    decreases |lines|
  {
    if lines != [] {
      var line, next := ReadLine(lines[0]), TakeLine(stack, lines[0]);
      if line.Entry? {
        EnterKeepsNesting(stack, line.indent, line.key, line.raw);
      }
      if next.Open? {
        NeverInvalidIndentation(lines[1..], number + 1, next.stack);
      }
    }
  }

  lemma NoTextHasInvalidIndentation(text: string)
    ensures Load(text).Failed? ==> Load(text).reason != InvalidIndentation
  {
    NeverInvalidIndentation(Lines(text), 1, [ROOT]);
  }

  /** No key twice in any mapping, at any depth. */
  ghost predicate KeysDistinct(v: Value) {
    v.Mapping? ==>
      && (forall i, j :: 0 <= i < j < |v.entries| ==> v.entries[i].0 != v.entries[j].0)
      && (forall i :: 0 <= i < |v.entries| ==> KeysDistinct(v.entries[i].1))
  }

  ghost predicate EntriesDistinct(entries: Entries) {
    KeysDistinct(Mapping(entries))
  }

  /** Nor in the mappings still open, counting the keys under which they will be entered. */
  ghost predicate StackDistinct(stack: Stack) {
    && (forall i :: 0 <= i < |stack| ==> EntriesDistinct(stack[i].entries))
    && (forall i :: 0 <= i < |stack| - 1 ==> !HasKey(stack[i].entries, stack[i + 1].key))
  }

  lemma AddKeepsDistinct(frame: Frame, key: string, value: Value)
    requires EntriesDistinct(frame.entries) && !HasKey(frame.entries, key) && KeysDistinct(value)
    ensures EntriesDistinct(Add(frame, key, value).entries)
  {
  }

  lemma {:induction false} PopToKeepsDistinct(stack: Stack, indent: int)
    requires StackDistinct(stack)
    ensures StackDistinct(PopTo(stack, indent))
    decreases |stack|
  {
    if stack != [] && indent <= Top(stack).indent {
      if |stack| > 1 {
        var below, top := stack[..|stack| - 1], Top(stack);
        assert stack[|stack| - 2] == Top(below);
        AddKeepsDistinct(Top(below), top.key, Mapping(top.entries));
        assert forall i :: 0 <= i < |below| - 1 ==> Pop(stack)[i] == stack[i];
      }
      PopToKeepsDistinct(Pop(stack), indent);
    }
  }

  lemma EnterKeepsDistinct(stack: Stack, indent: nat, key: string, raw: string)
    requires StackDistinct(stack)
    ensures var next := Enter(stack, indent, key, raw); next.Open? ==> StackDistinct(next.stack)
  {
    var open, parsed := PopTo(stack, indent), ParseScalar(raw);
    PopToKeepsDistinct(stack, indent);
    if open != [] && !HasKey(Top(open).entries, key) && parsed.Parsed? && !parsed.value.Mapping? {
      AddKeepsDistinct(Top(open), key, parsed.value);
    }
  }

  lemma {:induction false} RunKeepsDistinct(lines: seq<string>, number: nat, stack: Stack)
    requires StackDistinct(stack)
    ensures Run(lines, number, stack).Loaded? ==> KeysDistinct(Run(lines, number, stack).root)
    decreases |lines|
  {
    if lines == [] {
      PopToKeepsDistinct(stack, 0);
    } else {
      var line, next := ReadLine(lines[0]), TakeLine(stack, lines[0]);
      if line.Entry? {
        EnterKeepsDistinct(stack, line.indent, line.key, line.raw);
      }
      if next.Open? {
        RunKeepsDistinct(lines[1..], number + 1, next.stack);
      }
    }
  }

  lemma LoadedKeysAreDistinct(text: string)
    ensures Load(text).Loaded? ==> KeysDistinct(Load(text).root)
  {
    RunKeepsDistinct(Lines(text), 1, [ROOT]);
  }
}
