/** Blockquotes (src/builders/blockquote-builder.js): one level only. */
module BlockquoteBuilder {
  import opened Wrappers
  import opened Strings
  import opened Element

  /** `line.substring(1).trim()`; the `>` itself is not checked here. */
  function Parse(line: string): (e: Element)
    ensures e.tag == Blockquote && e.content.Text? && NoSpaceAtEnds(e.content.text)
    ensures e == New(Blockquote, e.content, NoMeta)
    ensures line != [] && NoSpaceAtEnds(line[1..]) ==> e.content.text == line[1..]
  {
    New(Blockquote, Text(Trim(if line == [] then [] else line[1..])), NoMeta)
  }

  function Build(e: Element): string {
    "> " + ContentText(e.content)
  }

  /** Trimmed content survives `build` then `parse`. */
  lemma RoundTrip(c: string)
    requires NoSpaceAtEnds(c)
    ensures Parse(Build(New(Blockquote, Text(c), NoMeta))) == New(Blockquote, Text(c), NoMeta)
  {
    var line := Build(New(Blockquote, Text(c), NoMeta));
    assert line[1..] == " " + c;
    TrimPadded(" ", c, []);
    assert " " + c + [] == " " + c;
  }

  /** Nesting is not modelled: `>> x` keeps `> x` as its text and rebuilds as `> > x`. */
  lemma NestedQuoteFlattens()
    ensures Parse(">> x") == New(Blockquote, Text("> x"), NoMeta)
    ensures Build(Parse(">> x")) == "> > x"
  {
    assert ">> x"[1..] == "> x";
  }
}

/** Horizontal rules (src/builders/hr-builder.js). */
module HrBuilder {
  import opened Wrappers
  import opened Strings
  import opened Element

  predicate IsRuleChar(c: char) { c == '-' || c == '*' || c == '_' }

  /** `^[-*_]{3,}$`, the tokenizer's test for a rule. */
  predicate IsRuleLine(line: string) {
    |line| >= 3 && forall i :: 0 <= i < |line| ==> IsRuleChar(line[i])
  }

  function Parse(line: string): (e: Element)
    ensures e.tag == Hr && e.content.Text? && NoSpaceAtEnds(e.content.text)
    ensures e == New(Hr, e.content, NoMeta)
  {
    New(Hr, Text(Trim(line)), NoMeta)
  }

  /** The stored text is written back unchanged. */
  function Build(e: Element): string {
    ContentText(e.content)
  }

  /** A rule line is reproduced exactly. */
  lemma RuleLineRoundTrip(line: string)
    requires IsRuleLine(line)
    ensures Build(Parse(line)) == line
  {
    TrimOfTrimmed(line);
  }

  /** Parsing what was built is idempotent. */
  lemma ParseBuildIdempotent(e: Element)
    ensures Parse(Build(Parse(Build(e)))) == Parse(Build(e))
  {
    TrimOfTrimmed(Trim(Build(e)));
  }
}

/** The synthetic marker opening a run of list items (src/builders/list-start-builder.js). */
module ListStartBuilder {
  import opened Wrappers
  import opened Element

  function Parse(): (e: Element)
    ensures e.tag == ListStart && e.content == Text("LIST_START")
    ensures e.level.None? && e.marker.None? && e.checked.None? && e.lang.None? &&
            e.url.None? && e.title.None? && e.id.None?
  {
    New(ListStart, Text("LIST_START"), NoMeta)
  }

  /** The marker renders no text, whatever the element. */
  function Build(e: Element): (r: string)
    ensures |r| == 0
  {
    ""
  }
}

/** The synthetic marker closing a run of list items (src/builders/list-end-builder.js). */
module ListEndBuilder {
  import opened Wrappers
  import opened Element

  function Parse(): (e: Element)
    ensures e.tag == ListEnd && e.content == Text("LIST_END")
    ensures e.level.None? && e.marker.None? && e.checked.None? && e.lang.None? &&
            e.url.None? && e.title.None? && e.id.None?
  {
    New(ListEnd, Text("LIST_END"), NoMeta)
  }

  /** The marker renders no text, whatever the element. */
  function Build(e: Element): (r: string)
    ensures |r| == 0
  {
    ""
  }
}
