/** Fenced code blocks (src/builders/code-builder.js). */
module CodeBuilder {
  import opened Wrappers
  import opened Strings
  import opened Element

  /** `^```\s*([^\s].*)` on the trimmed fence line: the language tag, or `''`. */
  function LangOf(tag: string): (lang: string)
    ensures NoLineTerminator(lang)
    ensures lang != [] ==> !IsSpace(lang[0])
  {
    var t := Trim(tag);
    if StartsWith(t, "```") then UpToLineEnd(TrimStart(t[3..])) else ""
  }

  /** `CodeBuilder.parse(content, tag)`: the content is kept verbatim; an empty
      language is stored as absent. */
  function Parse(content: string, tag: string): (e: Element)
    ensures e.tag == Code && e.content == Text(content)
    ensures e.lang == (if LangOf(tag) == [] then None else Some(LangOf(tag)))
    ensures e.level.None? && e.marker.None? && e.checked.None? &&
            e.url.None? && e.title.None? && e.id.None?
  {
    New(Code, Text(content), NoMeta.(lang := Some(LangOf(tag))))
  }

  /** The opening fence line `build` writes. */
  function FenceLine(e: Element): string {
    if TruthyString(e.lang) then "```" + e.lang.value else "```"
  }

  function Build(e: Element): (r: string)
    ensures r == FenceLine(e) + "\n" + ContentText(e.content) + "\n```"
  {
    if TruthyString(e.lang) then "```" + e.lang.value + "\n" + ContentText(e.content) + "\n```"
    else "```\n" + ContentText(e.content) + "\n```"
  }

  /** A fence line that does not start with three backticks carries no language. */
  lemma NoFenceNoLang(content: string, tag: string)
    requires !StartsWith(Trim(tag), "```")
    ensures Parse(content, tag).lang.None?
  {
  }

  lemma LangOfFence(lang: string)
    requires NoSpaceAtEnds(lang) && NoLineTerminator(lang)
    ensures LangOf("```" + lang) == lang
  {
    var f := "```" + lang;
    assert NoSpaceAtEnds(f);
    TrimOfTrimmed(f);
    assert StartsWith(f, "```");
    assert f[3..] == lang;
    assert LeadingSpaces(lang) == 0;
    UpToLineEndOfClean(lang);
  }

  /** Re-reading the fence line `build` wrote gives back the element: a language
      without surrounding whitespace or line breaks survives, and so does its absence. */
  lemma RoundTrip(content: string, lang: string)
    requires NoSpaceAtEnds(lang) && NoLineTerminator(lang)
    ensures var e := Parse(content, "```" + lang);
      e == New(Code, Text(content), NoMeta.(lang := Some(lang))) &&
      Parse(content, FenceLine(e)) == e
  {
    LangOfFence(lang);
  }
}
