/** The line tokenizer `toList` and the serializer `toMarkdown`
    (src/parser/markdown-parser.js). */
module MarkdownParser {
  import opened Wrappers
  import opened Strings
  import opened Element
  import Inline
  import CodeBuilder
  import HeadingBuilder
  import TableBuilder
  import ListItemBuilder
  import TaskItemBuilder
  import HrBuilder
  import BlockquoteBuilder
  import ImageBuilder
  import LinkRefBuilder
  import FootnoteBuilder
  import ListStartBuilder
  import ListEndBuilder
  import Definitions

  // ---- Line tests, in the order the tokenizer tries them ----

  /** The trimmed line starts with three backticks. */
  predicate IsFence(line: string) {
    StartsWith(Trim(line), "```")
  }

  /** `^( {4}|\t)` */
  predicate IsIndented(line: string) {
    StartsWith(line, "    ") || StartsWith(line, "\t")
  }

  /** The line with its four-space or tab indentation removed. */
  function StripIndent(line: string): string {
    if StartsWith(line, "    ") then line[4..] else if StartsWith(line, "\t") then line[1..] else line
  }

  /** Some `</` starts at index `j` or later and leaves room for a final character. */
  function CloseTagFrom(s: string, j: nat): (r: bool)
    ensures r <==> exists b :: j <= b && b + 3 <= |s| && s[b] == '<' && s[b + 1] == '/'
    decreases |s| - j
  {
    if j + 3 > |s| then false
    else if s[j] == '<' && s[j + 1] == '/' then true
    else CloseTagFrom(s, j + 1)
  }

  /** `^<.*>.*<\/.*>$`: an opening `<`, a later `>`, a later `</`, and a final `>`,
      on a line free of line terminators. The first `>` after the opening `<`
      is the best choice for the first `>`. */
  predicate IsHtml(line: string) {
    NoLineTerminator(line) && |line| >= 2 && line[0] == '<' && line[|line| - 1] == '>' &&
    var a := IndexOfFrom(line, '>', 1);
    a < |line| && CloseTagFrom(line, a + 1)
  }

  /** The scanner accepts exactly the lines the regular expression describes. */
  lemma IsHtmlMeans(line: string)
    ensures IsHtml(line) <==>
      NoLineTerminator(line) && |line| >= 2 && line[0] == '<' && line[|line| - 1] == '>' &&
      exists a, b :: 1 <= a < b && b + 3 <= |line| && line[a] == '>' && line[b] == '<' && line[b + 1] == '/'
  {
    if |line| >= 2 {
      var a := IndexOfFrom(line, '>', 1);
      if a < |line| && CloseTagFrom(line, a + 1) {
        var b :| a + 1 <= b && b + 3 <= |line| && line[b] == '<' && line[b + 1] == '/';
        assert 1 <= a < b;
      }
      if exists a', b :: 1 <= a' < b && b + 3 <= |line| && line[a'] == '>' && line[b] == '<' && line[b + 1] == '/' {
        var a', b :| 1 <= a' < b && b + 3 <= |line| && line[a'] == '>' && line[b] == '<' && line[b + 1] == '/';
        assert a <= a';
        assert CloseTagFrom(line, a + 1);
      }
    }
  }

  /** `^!\[([^\]]*)\]\(([^)\s]+)(?:\s"([^"]+)")?\)` */
  predicate IsImage(line: string) {
    ImageBuilder.MatchAt(line).Some?
  }

  /** `^\[[^\]]+\]:` */
  predicate IsLinkRef(line: string) {
    Definitions.MatchDefinition(line, "[").Some?
  }

  /** `^\[\^[^\]]+\]:` */
  predicate IsFootnote(line: string) {
    Definitions.MatchDefinition(line, "[^").Some?
  }

  predicate IsTableRow(line: string) {
    StartsWith(line, "|") && EndsWith(line, "|")
  }

  /** The branch of the tokenizer that takes a line. */
  datatype Branch =
    | Fence | FenceBody | IndentedCode | HtmlLine | RuleLine | QuoteLine | ImageLine
    | LinkRefLine | FootnoteLine | TableRow | TableSkip | HeadingLine | TaskLine | ListLine
    | Fallthrough

  /** The tokenizer's state between lines. */
  datatype State = State(
    insideCodeBlock: bool, codeBuffer: seq<string>, codeTag: string,
    inTable: bool, tableBuffer: seq<string>,
    inList: bool, elements: seq<Element>)

  const Start := State(false, [], "", false, [], false, [])

  /** `TableBuilder.parse` on a one-line table reads `split` of `undefined`. */
  datatype ParseError = OneLineTable

  /** What each of the tokenizer's line tests says about one line. */
  datatype LineShape = LineShape(
    fence: bool, indented: bool, html: bool, rule: bool, quote: bool, image: bool,
    linkRef: bool, footnote: bool, tableRow: bool, heading: bool, task: bool, list: bool)

  function ShapeOf(line: string): LineShape {
    LineShape(IsFence(line), IsIndented(line), IsHtml(line), HrBuilder.IsRuleLine(line), StartsWith(line, ">"),
      IsImage(line), IsLinkRef(line), IsFootnote(line), IsTableRow(line), HeadingBuilder.Parse(line).Some?,
      TaskItemBuilder.TaskShape(line), ListItemBuilder.ListShape(line))
  }

  /** The branch that takes a line of this shape; the first test that holds wins. */
  function Classify(sh: LineShape, st: State): Branch {
    if sh.fence then Fence
    else if st.insideCodeBlock then FenceBody
    else if sh.indented && st.insideCodeBlock then IndentedCode
    else if sh.html then HtmlLine
    else if sh.rule then RuleLine
    else if sh.quote then QuoteLine
    else if sh.image then ImageLine
    else if sh.linkRef then LinkRefLine
    else if sh.footnote then FootnoteLine
    else if sh.tableRow then TableRow
    else if st.inTable then TableSkip
    else if sh.heading then HeadingLine
    else if sh.task then TaskLine
    else if sh.list then ListLine
    else Fallthrough
  }

  /** `lines[i + 1]?.trim()` is absent, empty, or does not start with a pipe. */
  predicate TableEnds(lines: seq<string>, i: nat) {
    i + 1 >= |lines| || Trim(lines[i + 1]) == [] || !StartsWith(Trim(lines[i + 1]), "|")
  }

  function Push(st: State, e: Element): State {
    st.(elements := st.elements + [e])
  }

  function PushIf(st: State, o: Option<Element>): State {
    if o.Some? then Push(st, o.value) else st
  }

  /** Emit a list start unless a list is already open. */
  function OpenList(st: State): State {
    if st.inList then st else Push(st, ListStartBuilder.Parse()).(inList := true)
  }

  /** One iteration of the tokenizer's loop over line `i`. */
  function Step(lines: seq<string>, i: nat, st: State): Result<State, ParseError>
    requires i < |lines|
  {
    var line := lines[i];
    match Classify(ShapeOf(line), st)
    case Fence =>
      if st.insideCodeBlock then
        Success(Push(st, CodeBuilder.Parse(Join(st.codeBuffer, "\n"), st.codeTag)).(codeBuffer := [], insideCodeBlock := false))
      else Success(st.(insideCodeBlock := true, codeTag := line))
    case FenceBody => Success(st.(codeBuffer := st.codeBuffer + [line]))
    case IndentedCode => Success(Push(st, CodeBuilder.Parse(StripIndent(line), "    ")))
    case HtmlLine => Success(Push(st, New(Html, Text(line), NoMeta)))
    case RuleLine => Success(Push(st, HrBuilder.Parse(line)))
    case QuoteLine => Success(Push(st, BlockquoteBuilder.Parse(line)))
    case ImageLine => Success(PushIf(st, ImageBuilder.Parse(line)))
    case LinkRefLine => Success(PushIf(st, LinkRefBuilder.Parse(line)))
    case FootnoteLine => Success(PushIf(st, FootnoteBuilder.Parse(line)))
    case TableRow =>
      var buffer := st.tableBuffer + [line];
      if !TableEnds(lines, i) then Success(st.(inTable := true, tableBuffer := buffer))
      else if |buffer| < 2 then Failure(OneLineTable)
      else Success(Push(st, New(Table, TableBody(TableBuilder.Parse(buffer)), NoMeta)).(inTable := false, tableBuffer := []))
    case TableSkip => Success(st)
    case HeadingLine => Success(Push(st, HeadingBuilder.Parse(line).value))
    case TaskLine => Success(PushIf(OpenList(st), TaskItemBuilder.Parse(line)))
    case ListLine => Success(PushIf(OpenList(st), ListItemBuilder.Parse(line)))
    case Fallthrough =>
      var closed :=
        if st.inList && (line == [] || !ListItemBuilder.ListShape(line)) then
          Push(st, ListEndBuilder.Parse()).(inList := false)
        else st;
      if line == [] then Success(Push(closed, New(Break, Text(""), NoMeta)))
      else Success(Push(closed, New(Paragraph, Text(Inline.Parse(line)), NoMeta)))
  }

  /** The loop over lines `i..` from state `st`; the first failure ends it. */
  function Run(lines: seq<string>, i: nat, st: State): Result<State, ParseError>
    requires i <= |lines|
    decreases |lines| - i, 1
  {
    if i == |lines| then Success(st) else Resume(lines, i, Step(lines, i, st))
  }

  /** The rest of the loop once line `i` gave `r`. */
  function Resume(lines: seq<string>, i: nat, r: Result<State, ParseError>): Result<State, ParseError>
    requires i < |lines|
    decreases |lines| - i, 0
  {
    match r
    case Success(next) => Run(lines, i + 1, next)
    case Failure(err) => Failure(err)
  }

  /** Close a list left open at the end of the input; an unterminated fence and
      an unflushed table buffer are dropped. */
  function Finish(st: State): seq<Element> {
    if st.inList then st.elements + [ListEndBuilder.Parse()] else st.elements
  }

  /** `toList(markdown)`: the elements, or the failure of a one-line table. */
  function Tokens(markdown: string): Result<seq<Element>, ParseError> {
    var lines := Split(markdown, '\n');
    match Run(lines, 0, Start)
    case Success(st) => Success(Finish(st))
    case Failure(err) => Failure(err)
  }

  /** The loop of `MarkdownParser.toList`: one pass over the lines, the fence,
      table and list locals gathered in one `State`. */
  method Tokenize(lines: seq<string>) returns (r: Result<State, ParseError>)
    ensures r == Run(lines, 0, Start)
  {
    var st := Start;
    var i := 0;
    while i < |lines|
      invariant i <= |lines|
      invariant Run(lines, 0, Start) == Run(lines, i, st)
    {
      var next := Step(lines, i, st);
      if next.Failure? {
        return Failure(next.error);
      }
      st := next.value;
      i := i + 1;
    }
    r := Success(st);
  }

  /** `MarkdownParser.toList`: split on line feeds, run the loop, and close a
      list still open at the end. */
  method ToList(markdown: string) returns (r: Result<seq<Element>, ParseError>)
    ensures r == Tokens(markdown)
  {
    var lines := Split(markdown, '\n');
    var res := Tokenize(lines);
    if res.Failure? {
      return Failure(res.error);
    }
    var st := res.value;
    var elements := st.elements;
    if st.inList {
      elements := elements + [ListEndBuilder.Parse()];
    }
    r := Success(elements);
  }

  // ---- List bracketing ----

  /** How reading one more tag changes whether a list is open; `None` when a
      marker or an item is out of place. */
  function ScanTag(open: bool, t: Tag): Option<bool> {
    if t == ListStart then (if open then None else Some(true))
    else if t == ListEnd then (if open then Some(false) else None)
    else if t == ListItem || t == TaskItem then (if open then Some(true) else None)
    else Some(open)
  }

  /** Whether a list is open after `els`: list starts and ends alternate,
      beginning with a start, and every item lies between a start and the
      next end. */
  function ListScan(els: seq<Element>): Option<bool> {
    if els == [] then Some(false)
    else match ListScan(els[..|els| - 1])
      case Some(open) => ScanTag(open, els[|els| - 1].tag)
      case None => None
  }

  lemma ListScanSnoc(els: seq<Element>, e: Element)
    ensures ListScan(els + [e]) == if ListScan(els).Some? then ScanTag(ListScan(els).value, e.tag) else None
  {
    assert (els + [e])[..|els|] == els;
  }

  /** The tokenizer's state agrees with the markers it has emitted. */
  predicate Bracketed(st: State) {
    ListScan(st.elements) == Some(st.inList)
  }

  /** Pushing an element that is not a list marker or item keeps the brackets. */
  lemma PushKeepsBrackets(st: State, e: Element)
    requires Bracketed(st) && e.tag !in {ListStart, ListEnd, ListItem, TaskItem}
    ensures Bracketed(Push(st, e))
  {
    ListScanSnoc(st.elements, e);
  }

  lemma PushIfKeepsBrackets(st: State, o: Option<Element>)
    requires Bracketed(st) && (o.Some? ==> o.value.tag !in {ListStart, ListEnd, ListItem, TaskItem})
    ensures Bracketed(PushIf(st, o))
  {
    if o.Some? { PushKeepsBrackets(st, o.value); }
  }

  /** Opening a list, then pushing an item or nothing. */
  lemma ItemKeepsBrackets(st: State, o: Option<Element>)
    requires Bracketed(st) && (o.Some? ==> o.value.tag in {ListItem, TaskItem})
    ensures Bracketed(PushIf(OpenList(st), o)) && PushIf(OpenList(st), o).inList
  {
    if !st.inList {
      ListScanSnoc(st.elements, ListStartBuilder.Parse());
    }
    if o.Some? {
      ListScanSnoc(OpenList(st).elements, o.value);
    }
  }

  /** One line keeps the state and the emitted markers in agreement. */
  lemma StepKeepsBrackets(lines: seq<string>, i: nat, st: State)
    requires i < |lines| && Bracketed(st) && Step(lines, i, st).Success?
    ensures Bracketed(Step(lines, i, st).value)
  {
    var line := lines[i];
    match Classify(ShapeOf(line), st)
    case Fence =>
      if st.insideCodeBlock {
        PushKeepsBrackets(st, CodeBuilder.Parse(Join(st.codeBuffer, "\n"), st.codeTag));
      }
    case FenceBody =>
    case IndentedCode =>
    case HtmlLine => PushKeepsBrackets(st, New(Html, Text(line), NoMeta));
    case RuleLine => PushKeepsBrackets(st, HrBuilder.Parse(line));
    case QuoteLine => PushKeepsBrackets(st, BlockquoteBuilder.Parse(line));
    case ImageLine => PushIfKeepsBrackets(st, ImageBuilder.Parse(line));
    case LinkRefLine => PushIfKeepsBrackets(st, LinkRefBuilder.Parse(line));
    case FootnoteLine => PushIfKeepsBrackets(st, FootnoteBuilder.Parse(line));
    case TableRow =>
      if TableEnds(lines, i) {
        PushKeepsBrackets(st, New(Table, TableBody(TableBuilder.Parse(st.tableBuffer + [line])), NoMeta));
      }
    case TableSkip =>
    case HeadingLine => PushKeepsBrackets(st, HeadingBuilder.Parse(line).value);
    case TaskLine => ItemKeepsBrackets(st, TaskItemBuilder.Parse(line));
    case ListLine => ItemKeepsBrackets(st, ListItemBuilder.Parse(line));
    case Fallthrough =>
      var closed := if st.inList then Push(st, ListEndBuilder.Parse()).(inList := false) else st;
      if st.inList {
        ListScanSnoc(st.elements, ListEndBuilder.Parse());
      }
      if line == [] {
        PushKeepsBrackets(closed, New(Break, Text(""), NoMeta));
      } else {
        PushKeepsBrackets(closed, New(Paragraph, Text(Inline.Parse(line)), NoMeta));
      }
  }

  lemma {:induction false} RunKeepsBrackets(lines: seq<string>, i: nat, st: State)
    requires i <= |lines| && Bracketed(st) && Run(lines, i, st).Success?
    ensures Bracketed(Run(lines, i, st).value)
    decreases |lines| - i, 1
  {
    if i < |lines| {
      StepKeepsBrackets(lines, i, st);
      ResumeKeepsBrackets(lines, i, Step(lines, i, st));
    }
  }

  lemma {:induction false} ResumeKeepsBrackets(lines: seq<string>, i: nat, r: Result<State, ParseError>)
    requires i < |lines| && r.Success? && Bracketed(r.value) && Resume(lines, i, r).Success?
    ensures Bracketed(Resume(lines, i, r).value)
    decreases |lines| - i, 0
  {
    RunKeepsBrackets(lines, i + 1, r.value);
  }

  /** The elements `toList` returns are well bracketed: list starts and ends
      alternate, beginning with a start, every item lies inside a list, and
      no list is left open. */
  lemma TokensBracketed(markdown: string)
    requires Tokens(markdown).Success?
    ensures ListScan(Tokens(markdown).value) == Some(false)
  {
    var lines := Split(markdown, '\n');
    RunKeepsBrackets(lines, 0, Start);
    var st := Run(lines, 0, Start).value;
    if st.inList {
      ListScanSnoc(st.elements, ListEndBuilder.Parse());
    }
  }

  function CountTag(els: seq<Element>, t: Tag): nat {
    if els == [] then 0 else CountTag(els[..|els| - 1], t) + (if els[|els| - 1].tag == t then 1 else 0)
  }

  /** Bracketed elements hold as many list starts as list ends, plus one while a list is open. */
  lemma {:induction false} ScanCounts(els: seq<Element>)
    requires ListScan(els).Some?
    ensures CountTag(els, ListStart) == CountTag(els, ListEnd) + (if ListScan(els).value then 1 else 0)
  {
    if els != [] {
      ScanCounts(els[..|els| - 1]);
    }
  }

  /** Every prefix of bracketed elements is bracketed. */
  lemma {:induction false} ScanPrefix(els: seq<Element>, k: nat)
    requires ListScan(els).Some? && k <= |els|
    ensures ListScan(els[..k]).Some?
    decreases |els| - k
  {
    if k < |els| {
      assert ListScan(els[..|els| - 1]).Some?;
      assert els[..|els| - 1][..k] == els[..k];
      ScanPrefix(els[..|els| - 1], k);
    } else {
      assert els[..k] == els;
    }
  }

  /** A list is open just before every item of bracketed elements. */
  lemma ItemsInsideLists(els: seq<Element>, k: nat)
    requires ListScan(els).Some? && k < |els| && els[k].tag in {ListItem, TaskItem}
    ensures ListScan(els[..k]) == Some(true)
  {
    ScanPrefix(els, k + 1);
    assert els[..k + 1] == els[..k] + [els[k]];
    ListScanSnoc(els[..k], els[k]);
  }

  /** Hence the output of `toList` has equal numbers of list starts and ends. */
  lemma TokensBalanced(markdown: string)
    requires Tokens(markdown).Success?
    ensures CountTag(Tokens(markdown).value, ListStart) == CountTag(Tokens(markdown).value, ListEnd)
  {
    TokensBracketed(markdown);
    ScanCounts(Tokens(markdown).value);
  }

  /** A list is closed only by a line that falls through to the blank-line or
      paragraph branch; HTML, rules, quotes, images, definitions, tables and
      headings leave it open. */
  lemma ListClosedOnlyByFallthrough(lines: seq<string>, i: nat, st: State)
    requires i < |lines| && Step(lines, i, st).Success?
    ensures st.inList && !Step(lines, i, st).value.inList <==>
      st.inList && Classify(ShapeOf(lines[i]), st) == Fallthrough
  {
    if st.inList {
      if Classify(ShapeOf(lines[i]), st) == Fallthrough {
        FallthroughStep(lines, i, st);
      } else {
        OtherLineKeepsList(lines, i, st);
      }
    }
  }

  /** Every kind of line but the fallthrough leaves an open list open. */
  lemma OtherLineKeepsList(lines: seq<string>, i: nat, st: State)
    requires i < |lines| && Step(lines, i, st).Success?
    requires st.inList && Classify(ShapeOf(lines[i]), st) != Fallthrough
    ensures Step(lines, i, st).value.inList
  {
    match Classify(ShapeOf(lines[i]), st)
    case Fence =>
    case FenceBody =>
    case IndentedCode =>
    case HtmlLine =>
    case RuleLine =>
    case QuoteLine =>
    case ImageLine =>
    case LinkRefLine =>
    case FootnoteLine =>
    case TableRow =>
    case TableSkip =>
    case HeadingLine =>
    case TaskLine =>
    case ListLine =>
  }

  // ---- Single lines ----

  predicate AllSpace(line: string) {
    forall k :: 0 <= k < |line| ==> IsSpace(line[k])
  }

  /** None of the block tests matches a line of whitespace only. */
  lemma SpaceLineIsNoBlock(line: string)
    requires AllSpace(line)
    ensures !IsFence(line) && !IsHtml(line) && !HrBuilder.IsRuleLine(line) && !StartsWith(line, ">")
    ensures !IsImage(line) && !IsLinkRef(line) && !IsFootnote(line) && !IsTableRow(line)
  {
    TrimPadded(line, [], []);
    assert line + [] + [] == line;
  }

  /** Nor do the heading and item tests. */
  lemma SpaceLineIsNoItem(line: string)
    requires AllSpace(line)
    ensures HeadingBuilder.Parse(line).None?
    ensures !TaskItemBuilder.TaskShape(line) && !ListItemBuilder.ListShape(line)
  {
    if line != [] {
      assert !HeadingBuilder.AtxShape(line) by {
        assert IsSpace(line[0]);
      }
      HeadingBuilder.MatchAtxMeans(line);
      assert LeadingSpaces(line) == |line|;
      assert ListItemBuilder.MarkerEnd(line, |line|).None?;
    }
  }

  /** Outside fences and tables, a line of whitespace only (or none at all)
      falls through to the blank-line or paragraph branch. */
  lemma SpaceLineFallsThrough(line: string, st: State)
    requires AllSpace(line) && !st.insideCodeBlock && !st.inTable
    ensures Classify(ShapeOf(line), st) == Fallthrough
  {
    SpaceLineIsNoBlock(line);
    SpaceLineIsNoItem(line);
  }

  /** The list end emitted before a fallthrough line when a list is open. */
  function ClosingMarkers(st: State): seq<Element> {
    if st.inList then [ListEndBuilder.Parse()] else []
  }

  /** A fallthrough line closes an open list, then adds a break for the empty
      line or a paragraph holding the line's inline HTML. */
  lemma FallthroughStep(lines: seq<string>, i: nat, st: State)
    requires i < |lines| && Classify(ShapeOf(lines[i]), st) == Fallthrough
    ensures Step(lines, i, st).Success?
    ensures Step(lines, i, st).value == st.(inList := false, elements := st.elements + ClosingMarkers(st) +
      [if lines[i] == [] then New(Break, Text(""), NoMeta) else New(Paragraph, Text(Inline.Parse(lines[i])), NoMeta)])
  {
    if !st.inList {
      assert st.elements + ClosingMarkers(st) == st.elements;
    }
  }

  /** The empty line yields one break, after a list end when a list was open. */
  lemma EmptyLineIsBreak(lines: seq<string>, i: nat, st: State)
    requires i < |lines| && lines[i] == [] && !st.insideCodeBlock && !st.inTable
    ensures Step(lines, i, st).Success?
    ensures Step(lines, i, st).value ==
      st.(inList := false, elements := st.elements + ClosingMarkers(st) + [New(Break, Text(""), NoMeta)])
  {
    SpaceLineFallsThrough(lines[i], st);
    FallthroughStep(lines, i, st);
  }

  /** Whitespace carries no inline markup. */
  lemma SpaceLineUnmarked(line: string)
    requires AllSpace(line)
    ensures Inline.Parse(line) == line
  {
    Inline.ParseWithoutMarkup(line);
  }

  /** A line of whitespace only is a paragraph holding the line as it is, not a break. */
  lemma SpaceLineIsParagraph(lines: seq<string>, i: nat, st: State)
    requires i < |lines| && lines[i] != [] && AllSpace(lines[i]) && !st.insideCodeBlock && !st.inTable
    ensures Step(lines, i, st).Success?
    ensures Step(lines, i, st).value ==
      st.(inList := false, elements := st.elements + ClosingMarkers(st) + [New(Paragraph, Text(lines[i]), NoMeta)])
  {
    SpaceLineFallsThrough(lines[i], st);
    SpaceLineUnmarked(lines[i]);
    FallthroughStep(lines, i, st);
  }

  /** The indented-code branch is never taken: it needs `insideCodeBlock`,
      and the fence-body branch before it takes every such line. */
  lemma IndentedCodeUnreachable(sh: LineShape, st: State)
    ensures Classify(sh, st) != IndentedCode
  {
  }

  /** A footnote line also passes the link-reference test, which comes first. */
  lemma FootnoteIsLinkRef(line: string)
    requires IsFootnote(line)
    ensures IsLinkRef(line)
  {
    Definitions.MatchDefinitionMeans(line, "[^");
    var (id, after) := Definitions.MatchDefinition(line, "[^").value;
    assert line == "[" + ("^" + id) + "]:" + after;
    Definitions.MatchDefinitionOf("[", "^" + id, after);
  }

  /** Hence the footnote branch is never taken. */
  lemma FootnoteBranchUnreachable(line: string, st: State)
    ensures Classify(ShapeOf(line), st) != FootnoteLine
  {
    if IsFootnote(line) {
      FootnoteIsLinkRef(line);
    }
  }

  // ---- Fences ----

  /** Moving the first line of a slice onto the end of a buffer. */
  lemma SnocSlice<T>(buffer: seq<T>, s: seq<T>, i: nat, j: nat)
    requires i < j <= |s|
    ensures buffer + [s[i]] + s[i + 1..j] == buffer + s[i..j]
  {
    assert s[i..j] == [s[i]] + s[i + 1..j];
  }

  /** Inside a fence a line that is not a fence line is buffered. */
  lemma FenceBodyStep(lines: seq<string>, i: nat, st: State)
    requires i < |lines| && st.insideCodeBlock && !IsFence(lines[i])
    ensures Step(lines, i, st) == Success(st.(codeBuffer := st.codeBuffer + [lines[i]]))
  {
  }

  /** Inside a fence, every line before the next fence line is buffered
      without being classified. */
  lemma {:induction false} FenceBodyRun(lines: seq<string>, i: nat, j: nat, st: State)
    requires i <= j <= |lines| && st.insideCodeBlock
    requires forall k :: i <= k < j ==> !IsFence(lines[k])
    ensures Run(lines, i, st) == Run(lines, j, st.(codeBuffer := st.codeBuffer + lines[i..j]))
    decreases j - i
  {
    if i < j {
      var next := st.(codeBuffer := st.codeBuffer + [lines[i]]);
      FenceBodyStep(lines, i, st);
      assert Run(lines, i, st) == Run(lines, i + 1, next);
      FenceBodyRun(lines, i + 1, j, next);
      SnocSlice(st.codeBuffer, lines, i, j);
    } else {
      assert st.codeBuffer + lines[i..j] == st.codeBuffer;
    }
  }

  /** A fenced block becomes one code element: its content is the enclosed
      lines joined by line feeds, its language comes from the opening line,
      and the text of the closing line is ignored. */
  lemma FencedBlock(lines: seq<string>, i: nat, j: nat, st: State)
    requires i < j < |lines| && IsFence(lines[i]) && IsFence(lines[j])
    requires forall k :: i < k < j ==> !IsFence(lines[k])
    requires !st.insideCodeBlock && st.codeBuffer == []
    ensures Run(lines, i, st) ==
      Run(lines, j + 1, st.(codeTag := lines[i], elements := st.elements + [CodeBuilder.Parse(Join(lines[i + 1..j], "\n"), lines[i])]))
  {
    var openFence := st.(insideCodeBlock := true, codeTag := lines[i]);
    assert Step(lines, i, st) == Success(openFence);
    FenceBodyRun(lines, i + 1, j, openFence);
    var full := openFence.(codeBuffer := lines[i + 1..j]);
    assert openFence.codeBuffer + lines[i + 1..j] == lines[i + 1..j];
    assert Step(lines, j, full) ==
      Success(st.(codeTag := lines[i], elements := st.elements + [CodeBuilder.Parse(Join(lines[i + 1..j], "\n"), lines[i])]));
  }

  /** A fence left open at the end of the input buffers the rest of the lines
      and emits nothing for them. */
  lemma UnterminatedFence(lines: seq<string>, i: nat, st: State)
    requires i < |lines| && IsFence(lines[i]) && !st.insideCodeBlock
    requires forall k :: i < k < |lines| ==> !IsFence(lines[k])
    ensures Run(lines, i, st) ==
      Success(st.(insideCodeBlock := true, codeTag := lines[i], codeBuffer := st.codeBuffer + lines[i + 1..]))
    ensures Finish(Run(lines, i, st).value) == Finish(st)
  {
    var openFence := st.(insideCodeBlock := true, codeTag := lines[i]);
    assert Step(lines, i, st) == Success(openFence);
    assert Run(lines, i, st) == Run(lines, i + 1, openFence);
    FenceBodyRun(lines, i + 1, |lines|, openFence);
    assert lines[i + 1..|lines|] == lines[i + 1..];
  }

  // ---- Tables ----

  /** A line that starts with a pipe passes none of the tests before the table test. */
  lemma PipeLineIsNoBlock(line: string)
    requires line != [] && line[0] == '|'
    ensures !IsFence(line) && !IsHtml(line) && !HrBuilder.IsRuleLine(line) && !StartsWith(line, ">")
    ensures !IsImage(line) && !IsLinkRef(line) && !IsFootnote(line)
  {
    TrimKeepsFirst(line);
  }

  /** The next line continues a table run when, trimmed, it starts with a pipe. */
  lemma PipeLineContinues(lines: seq<string>, k: nat)
    requires k + 1 < |lines| && lines[k + 1] != [] && lines[k + 1][0] == '|'
    ensures !TableEnds(lines, k)
  {
    TrimKeepsFirst(lines[k + 1]);
  }

  /** Consecutive rows that start and end with a pipe, up to a line that ends
      the run, become one table element parsed from all of them; the state
      leaves table mode with an empty buffer. */
  lemma {:induction false} TableRun(lines: seq<string>, k: nat, j: nat, st: State)
    requires k < j <= |lines| && !st.insideCodeBlock
    requires forall m :: k <= m < j ==> lines[m] != [] && lines[m][0] == '|' && IsTableRow(lines[m])
    requires TableEnds(lines, j - 1) && |st.tableBuffer| + (j - k) >= 2
    ensures var table := New(Table, TableBody(TableBuilder.Parse(st.tableBuffer + lines[k..j])), NoMeta);
      Run(lines, k, st) == Run(lines, j, st.(inTable := false, tableBuffer := [], elements := st.elements + [table]))
    decreases j - k
  {
    PipeLineIsNoBlock(lines[k]);
    if k + 1 == j {
      assert lines[k..j] == [lines[k]];
    } else {
      PipeLineContinues(lines, k);
      var next := st.(inTable := true, tableBuffer := st.tableBuffer + [lines[k]]);
      assert Step(lines, k, st) == Success(next);
      TableRun(lines, k + 1, j, next);
      SnocSlice(st.tableBuffer, lines, k, j);
    }
  }

  /** A table row that is both the first and the last of its run makes the
      tokenizer fail: `TableBuilder.parse` needs two lines. */
  lemma LoneRowFails(lines: seq<string>, k: nat, st: State)
    requires k < |lines| && !st.insideCodeBlock && st.tableBuffer == []
    requires lines[k] != [] && lines[k][0] == '|' && IsTableRow(lines[k]) && TableEnds(lines, k)
    ensures Run(lines, k, st) == Failure(OneLineTable)
  {
    PipeLineIsNoBlock(lines[k]);
  }

  /** A line starting with a letter or digit passes none of the block tests. */
  lemma PlainLineIsNoBlock(line: string)
    requires line != [] && (IsLower(line[0]) || 'A' <= line[0] <= 'Z' || IsDigit(line[0]))
    ensures !IsFence(line) && !IsHtml(line) && !HrBuilder.IsRuleLine(line) && !StartsWith(line, ">")
    ensures !IsImage(line) && !IsLinkRef(line) && !IsFootnote(line) && !IsTableRow(line)
  {
    TrimKeepsFirst(line);
  }

  /** While a table is open, a line starting with a letter or digit is skipped. */
  lemma OpenTableSkipsLine(line: string, st: State)
    requires st.inTable && !st.insideCodeBlock
    requires line != [] && (IsLower(line[0]) || 'A' <= line[0] <= 'Z' || IsDigit(line[0]))
    ensures Classify(ShapeOf(line), st) == TableSkip
  {
    PlainLineIsNoBlock(line);
  }

  /** While a table is open, a line starting with a letter or digit is dropped. */
  lemma OpenTableDropsLine(lines: seq<string>, k: nat, st: State)
    requires k < |lines| && st.inTable && !st.insideCodeBlock
    requires lines[k] != [] && (IsLower(lines[k][0]) || 'A' <= lines[k][0] <= 'Z' || IsDigit(lines[k][0]))
    ensures Step(lines, k, st) == Success(st)
  {
    OpenTableSkipsLine(lines[k], st);
  }

  /** A document that is a single table row makes `toList` fail. */
  lemma OneLineTableFails()
    ensures Tokens("|a|") == Failure(OneLineTable)
  {
    var lines := ["|a|"];
    SplitJoin(lines, '\n');
    assert Join(lines, "\n") == "|a|";
    LoneRowFails(lines, 0, Start);
  }

  /** A row that does not end its run is buffered and opens table mode. */
  lemma RowContinues(lines: seq<string>, k: nat, st: State)
    requires k < |lines| && !st.insideCodeBlock
    requires lines[k] != [] && lines[k][0] == '|' && IsTableRow(lines[k]) && !TableEnds(lines, k)
    ensures Step(lines, k, st) == Success(st.(inTable := true, tableBuffer := st.tableBuffer + [lines[k]]))
  {
    PipeLineIsNoBlock(lines[k]);
  }

  /** While a table is open, a line that starts but does not end with a pipe is dropped. */
  lemma OpenTableDropsBrokenRow(lines: seq<string>, k: nat, st: State)
    requires k < |lines| && st.inTable && !st.insideCodeBlock
    requires lines[k] != [] && lines[k][0] == '|' && !IsTableRow(lines[k])
    ensures Step(lines, k, st) == Success(st)
  {
    PipeLineIsNoBlock(lines[k]);
  }

  /** One successful step of the fold. */
  lemma RunStep(lines: seq<string>, i: nat, st: State, next: State)
    requires i < |lines| && Step(lines, i, st) == Success(next)
    ensures Run(lines, i, st) == Run(lines, i + 1, next)
  {
  }

  /** A line that starts with a lower-case letter, or starts but does not end with a pipe. */
  predicate DroppedInTable(line: string)
  {
    line != [] && (IsLower(line[0]) || (line[0] == '|' && !IsTableRow(line)))
  }

  /** While a table is open, plain lines and lines that start but do not end
      with a pipe are dropped, up to the end of the input. */
  lemma {:induction false} OpenTableDropsRest(lines: seq<string>, k: nat, st: State)
    requires k <= |lines| && st.inTable && !st.insideCodeBlock
    requires forall j :: k <= j < |lines| ==> DroppedInTable(lines[j])
    ensures Run(lines, k, st) == Success(st)
    decreases |lines| - k
  {
    if k < |lines| {
      if IsLower(lines[k][0]) {
        OpenTableDropsLine(lines, k, st);
      } else {
        OpenTableDropsBrokenRow(lines, k, st);
      }
      RunStep(lines, k, st, st);
      OpenTableDropsRest(lines, k + 1, st);
    }
  }

  /** A row followed by a line that starts but does not end with a pipe leaves
      the table open: that line and every later plain line are dropped, and
      the row is never emitted. */
  lemma BrokenRowOpensTable(lines: seq<string>, st: State)
    requires !st.insideCodeBlock && |lines| >= 2
    requires lines[0] != [] && lines[0][0] == '|' && IsTableRow(lines[0])
    requires lines[1] != [] && lines[1][0] == '|'
    requires forall j :: 1 <= j < |lines| ==> DroppedInTable(lines[j])
    ensures Run(lines, 0, st) == Success(st.(inTable := true, tableBuffer := st.tableBuffer + [lines[0]]))
  {
    var st1 := st.(inTable := true, tableBuffer := st.tableBuffer + [lines[0]]);
    PipeLineContinues(lines, 0);
    RowContinues(lines, 0, st);
    RunStep(lines, 0, st, st1);
    OpenTableDropsRest(lines, 1, st1);
  }

  lemma OpenTableSwallowsRest()
    ensures Tokens("|a|\n|b\nc") == Success([])
  {
    var lines := ["|a|", "|b", "c"];
    SplitJoin(lines, '\n');
    assert Join(lines, "\n") == "|a|\n|b\nc";
    assert lines[1][|lines[1]| - 1] == 'b';
    assert DroppedInTable(lines[1]) && DroppedInTable(lines[2]);
    BrokenRowOpensTable(lines, Start);
  }

  // ---- Serializer ----

  /** The elements `toMarkdown` can render without a TypeError: a paragraph's
      content goes through the inline rewriter, which needs a string, and a
      table's through `TableBuilder.build`, which needs the table payload. */
  predicate Serializable(e: Element) {
    (e.tag == Paragraph ==> e.content.Text?) && (e.tag == Table ==> e.content.TableBody?)
  }

  /** The text one element adds to the output. */
  function Piece(e: Element): string
    requires Serializable(e)
  {
    match e.tag
    case Code => CodeBuilder.Build(e) + "\n"
    case Hr => HrBuilder.Build(e) + "\n"
    case Break => "\n"
    case Blockquote => BlockquoteBuilder.Build(e) + "\n"
    case Image => ImageBuilder.Build(e) + "\n"
    case Paragraph => Inline.Build(e.content.text) + "\n"
    case Html => ContentText(e.content) + "\n"
    case Footnote => FootnoteBuilder.Build(e) + "\n"
    case LinkRef => LinkRefBuilder.Build(e) + "\n"
    case Table => TableBuilder.Build(e.content.table) + "\n"
    case TaskItem => TaskItemBuilder.Build(e) + "\n"
    case ListItem => ListItemBuilder.Build(e) + "\n"
    case ListStart => ""
    case ListEnd => ""
    case Heading => HeadingBuilder.Build(e) + "\n"
  }

  predicate AllSerializable(list: seq<Element>) {
    forall i :: 0 <= i < |list| ==> Serializable(list[i])
  }

  /** The concatenation the loop of `toMarkdown` accumulates. */
  function Render(list: seq<Element>): string
    requires AllSerializable(list)
  {
    if list == [] then "" else Render(list[..|list| - 1]) + Piece(list[|list| - 1])
  }

  /** The flag `toMarkdown` keeps after reading one element; nothing reads it. */
  function ListOpenAfter(t: Tag, inList: bool): bool {
    if t == TaskItem || t == ListItem || t == ListStart then true
    else if t == ListEnd then false
    else inList
  }

  /** One pass of the `switch` in `toMarkdown`. */
  method Emit(el: Element, inList: bool) returns (piece: string, nowInList: bool)
    requires Serializable(el)
    ensures piece == Piece(el) && nowInList == ListOpenAfter(el.tag, inList)
  {
    nowInList := inList;
    match el.tag {
      case Code => piece := CodeBuilder.Build(el) + "\n";
      case Hr => piece := HrBuilder.Build(el) + "\n";
      case Break => piece := "\n";
      case Blockquote => piece := BlockquoteBuilder.Build(el) + "\n";
      case Image => piece := ImageBuilder.Build(el) + "\n";
      case Paragraph => piece := Inline.Build(el.content.text) + "\n";
      case Html => piece := ContentText(el.content) + "\n";
      case Footnote => piece := FootnoteBuilder.Build(el) + "\n";
      case LinkRef => piece := LinkRefBuilder.Build(el) + "\n";
      case Table => piece := TableBuilder.Build(el.content.table) + "\n";
      case TaskItem =>
        if !nowInList {
          nowInList := true;
        }
        piece := TaskItemBuilder.Build(el) + "\n";
      case ListItem =>
        if !nowInList {
          nowInList := true;
        }
        piece := ListItemBuilder.Build(el) + "\n";
      case ListStart =>
        nowInList := true;
        piece := "";
      case ListEnd =>
        nowInList := false;
        piece := "";
      case Heading => piece := HeadingBuilder.Build(el) + "\n";
    }
  }

  /** `MarkdownParser.toMarkdown`: render every element in order, then trim and
      end with one line feed. */
  method ToMarkdown(list: seq<Element>) returns (r: string)
    requires AllSerializable(list)
    ensures r == Trim(Render(list)) + "\n"
  {
    var markdown := "";
    var inList := false;
    for i := 0 to |list|
      invariant markdown == Render(list[..i])
    {
      var piece;
      piece, inList := Emit(list[i], inList);
      assert list[..i + 1][..i] == list[..i];
      markdown := markdown + piece;
    }
    assert list[..|list|] == list;
    r := Trim(markdown) + "\n";
  }

  /** Only the two list markers render as nothing; a break renders as one line
      feed, and every other element as text ending in a line feed. */
  lemma PieceShape(e: Element)
    requires Serializable(e)
    ensures Piece(e) == [] <==> e.tag == ListStart || e.tag == ListEnd
    ensures e.tag == Break ==> Piece(e) == "\n"
    ensures Piece(e) != [] ==> Piece(e)[|Piece(e)| - 1] == '\n'
  {
  }

  lemma SerializableAppend(a: seq<Element>, b: seq<Element>)
    requires AllSerializable(a) && AllSerializable(b)
    ensures AllSerializable(a + b)
  {
    forall i | 0 <= i < |a + b|
      ensures Serializable((a + b)[i])
    {
      if i < |a| { assert (a + b)[i] == a[i]; } else { assert (a + b)[i] == b[i - |a|]; }
    }
  }

  /** Rendering distributes over concatenation. */
  lemma {:induction false} RenderAppend(a: seq<Element>, b: seq<Element>)
    requires AllSerializable(a) && AllSerializable(b)
    ensures AllSerializable(a + b) && Render(a + b) == Render(a) + Render(b)
    decreases |b|
  {
    SerializableAppend(a, b);
    if b == [] {
      assert a + b == a;
    } else {
      var c := a + b;
      var init := b[..|b| - 1];
      assert c[..|c| - 1] == a + init;
      assert c[|c| - 1] == b[|b| - 1];
      RenderAppend(a, init);
      assert Render(c) == Render(a + init) + Piece(b[|b| - 1]);
      assert Render(b) == Render(init) + Piece(b[|b| - 1]);
    }
  }

  lemma MarkerRendersEmpty(m: Element)
    requires m.tag == ListStart || m.tag == ListEnd
    ensures Serializable(m) && Render([m]) == ""
  {
    assert [m][..0] == [];
  }

  /** Removing a list marker from anywhere in the input leaves the output unchanged. */
  lemma MarkerIsInvisible(a: seq<Element>, m: Element, b: seq<Element>)
    requires AllSerializable(a) && AllSerializable(b)
    requires m.tag == ListStart || m.tag == ListEnd
    ensures AllSerializable(a + [m] + b) && Render(a + [m] + b) == Render(a + b)
  {
    var am := a + [m];
    MarkerRendersEmpty(m);
    RenderAppend(a, [m]);
    assert Render(a) + Render([m]) == Render(a);
    RenderAppend(am, b);
    RenderAppend(a, b);
  }

  /** The output is a single line feed, or text that starts and ends with
      a non-whitespace character followed by exactly one line feed. */
  lemma OutputShape(rendered: string)
    ensures var r := Trim(rendered) + "\n";
      r == "\n" || (|r| >= 2 && !IsSpace(r[0]) && !IsSpace(r[|r| - 2]) && r[|r| - 1] == '\n')
  {
  }
}
