/** The bracketed definition lines shared by link references and footnotes:
    `^\[([^\]]+)\]:` after an opener of `[` or `[^`. */
module Definitions {
  import opened Wrappers
  import opened Strings

  /** The name between the opener and the first `]`, and the text after `]:`. */
  function MatchDefinition(line: string, opener: string): (r: Option<(string, string)>)
    ensures r.Some? ==> |opener| + |r.value.0| + 2 <= |line|
  {
    if !StartsWith(line, opener) then None
    else
      var body := line[|opener|..];
      var k := IndexOf(body, ']');
      if k == 0 || k + 1 >= |body| || body[k + 1] != ':' then None
      else
        assert line == opener + body[..k] + "]:" + body[k + 2..];
        Some((body[..k], body[k + 2..]))
  }

  /** A match splits the line into the opener, a non-empty name free of `]`,
      `]:` and the rest. */
  lemma MatchDefinitionMeans(line: string, opener: string)
    ensures MatchDefinition(line, opener).Some? ==> var (name, after) := MatchDefinition(line, opener).value;
      name != [] && Excludes(name, ']') && line == opener + name + "]:" + after
  {
  }

  /** `\s*(.*)`: skip whitespace, then take the rest of the line. */
  function Rest(after: string): (r: string)
    ensures NoLineTerminator(r)
  {
    UpToLineEnd(TrimStart(after))
  }

  lemma {:induction false} MatchDefinitionOf(opener: string, name: string, after: string)
    requires name != [] && Excludes(name, ']')
    ensures MatchDefinition(opener + name + "]:" + after, opener) == Some((name, after))
  {
    var line := opener + name + "]:" + after;
    assert line[..|opener|] == opener;
    var body := line[|opener|..];
    assert body == name + ("]:" + after);
    IndexOfAppend(name, ']', "]:" + after);
    assert body[..|name|] == name;
    assert body[|name| + 2..] == after;
  }

  /** The text of a definition line written as `name]: value` is `value` again. */
  lemma RestOfWritten(v: string)
    requires NoSpaceAtEnds(v) && NoLineTerminator(v)
    ensures Rest(if v == [] then [] else " " + v) == v
  {
    if v != [] {
      assert LeadingSpaces(" " + v) == 1;
      assert (" " + v)[1..] == v;
      UpToLineEndOfClean(v);
    }
  }
}

/** Footnote definitions (src/builders/footnote-builder.js). */
module FootnoteBuilder {
  import opened Wrappers
  import opened Strings
  import opened Element
  import opened Definitions

  /** `[^id]: text` on the trimmed line. */
  function Parse(line: string): (r: Option<Element>)
    ensures r.Some? <==> MatchDefinition(Trim(line), "[^").Some?
    ensures r.Some? ==>
      (r.value.tag == Footnote && r.value.id.Some? && Excludes(r.value.id.value, ']') &&
       r.value.content.Text? && NoLineTerminator(r.value.content.text))
  {
    MatchDefinitionMeans(Trim(line), "[^");
    match MatchDefinition(Trim(line), "[^")
    case Some((id, after)) => Some(New(Footnote, Text(Rest(after)), NoMeta.(id := Some(id))))
    case None => None
  }

  function Build(e: Element): string {
    "[^" + Show(e.id) + "]: " + ContentText(e.content)
  }

  /** A footnote with an identifier free of `]` and trimmed one-line text survives `build` then `parse`. */
  lemma RoundTrip(id: string, c: string)
    requires id != [] && Excludes(id, ']')
    requires NoSpaceAtEnds(c) && NoLineTerminator(c)
    ensures var e := New(Footnote, Text(c), NoMeta.(id := Some(id)));
      Parse(Build(e)) == Some(e)
  {
    var e := New(Footnote, Text(c), NoMeta.(id := Some(id)));
    var after := if c == [] then [] else " " + c;
    var line := "[^" + id + "]:" + after;
    assert Build(e) == line || Build(e) == line + " ";
    assert NoSpaceAtEnds(line);
    if c == [] {
      TrimPadded([], line, " ");
      assert [] + line + " " == line + " ";
    } else {
      TrimOfTrimmed(line);
    }
    MatchDefinitionOf("[^", id, after);
    RestOfWritten(c);
  }
}

/** Link reference definitions (src/builders/link-ref-builder.js). */
module LinkRefBuilder {
  import opened Wrappers
  import opened Strings
  import opened Element
  import opened Definitions

  /** `[name]: url` on the trimmed line. */
  function Parse(line: string): (r: Option<Element>)
    ensures r.Some? <==> MatchDefinition(Trim(line), "[").Some?
    ensures r.Some? ==>
      (r.value.tag == LinkRef && r.value.content.Text? &&
       r.value.content.text != [] && Excludes(r.value.content.text, ']'))
  {
    MatchDefinitionMeans(Trim(line), "[");
    match MatchDefinition(Trim(line), "[")
    case Some((name, after)) => Some(New(LinkRef, Text(name), NoMeta.(url := Some(Rest(after)))))
    case None => None
  }

  function Build(e: Element): string {
    "[" + ContentText(e.content) + "]: " + Show(e.url)
  }

  /** A name free of `]` with a present trimmed one-line url survives `build` then `parse`. */
  lemma RoundTrip(name: string, u: string)
    requires name != [] && Excludes(name, ']')
    requires u != [] && NoSpaceAtEnds(u) && NoLineTerminator(u)
    ensures var e := New(LinkRef, Text(name), NoMeta.(url := Some(u)));
      Parse(Build(e)) == Some(e)
  {
    var e := New(LinkRef, Text(name), NoMeta.(url := Some(u)));
    var after := " " + u;
    var line := "[" + name + "]:" + after;
    assert Build(e) == line;
    assert line[0] == '[' && line[|line| - 1] == u[|u| - 1];
    TrimOfTrimmed(line);
    MatchDefinitionOf("[", name, after);
    RestOfWritten(u);
  }

  lemma CaretShift(id: string, c: string)
    ensures "[" + ("^" + id) + "]: " + c == "[^" + id + "]: " + c
  {
    assert "[" + ("^" + id) == "[^" + id;
  }

  /** A footnote line also reads as a link reference whose name starts with `^`,
      and that reference is written back as the same line. */
  lemma FootnoteReadsAsLinkRef(id: string, c: string)
    requires id != [] && Excludes(id, ']')
    requires c != [] && NoSpaceAtEnds(c) && NoLineTerminator(c)
    ensures Parse("[^" + id + "]: " + c) == Some(New(LinkRef, Text("^" + id), NoMeta.(url := Some(c))))
    ensures Build(New(LinkRef, Text("^" + id), NoMeta.(url := Some(c)))) == "[^" + id + "]: " + c
  {
    var name := "^" + id;
    var e := New(LinkRef, Text(name), NoMeta.(url := Some(c)));
    assert Excludes(name, ']');
    RoundTrip(name, c);
    assert Build(e) == "[" + name + "]: " + c;
    CaretShift(id, c);
  }
}
