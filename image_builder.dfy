/** Images (src/builders/image-builder.js). */
module ImageBuilder {
  import opened Wrappers
  import opened Strings
  import opened Element

  /** The parts of an image reference: alt text, url and optional title. */
  datatype ImageParts = ImageParts(alt: string, url: string, title: Option<string>)

  /** End of the `[^)\s]+` run that starts at index `i`. */
  function UrlEnd(s: string, i: nat): (k: nat)
    requires i <= |s|
    ensures i <= k <= |s|
    ensures forall j :: i <= j < k ==> s[j] != ')' && !IsSpace(s[j])
    ensures k < |s| ==> s[k] == ')' || IsSpace(s[k])
    decreases |s| - i
  {
    if i == |s| || s[i] == ')' || IsSpace(s[i]) then i else UrlEnd(s, i + 1)
  }

  /** `(?:\s"([^"]+)")?\)` at index `u`: `None` when it fails, otherwise the
      optional title. */
  function TitleAt(s: string, u: nat): (r: Option<Option<string>>)
    requires u < |s|
    ensures r.Some? && r.value.Some? ==> r.value.value != [] && Excludes(r.value.value, '"')
  {
    if IsSpace(s[u]) then
      if u + 1 < |s| && s[u + 1] == '"' then
        var t := IndexOfFrom(s, '"', u + 2);
        if t > u + 2 && t + 1 < |s| && s[t + 1] == ')' then Some(Some(s[u + 2..t])) else None
      else None
    else if s[u] == ')' then Some(None)
    else None
  }

  /** `!\[([^\]]*)\]\(([^)\s]+)(?:\s"([^"]+)")?\)` anchored at the start of `s`. */
  function MatchAt(s: string): (r: Option<ImageParts>)
    ensures r.Some? ==> Writable(r.value.alt, r.value.url, r.value.title)
  {
    if |s| < 2 || s[0] != '!' || s[1] != '[' then None
    else
      var a := IndexOfFrom(s, ']', 2);
      if a + 1 >= |s| || s[a + 1] != '(' then None
      else
        var u := UrlEnd(s, a + 2);
        if u == a + 2 || u >= |s| then None
        else
          match TitleAt(s, u)
          case Some(title) => Some(ImageParts(s[2..a], s[a + 2..u], title))
          case None => None
  }

  /** The leftmost match in `s`, as an unanchored `match` finds it. */
  function Find(s: string): (r: Option<ImageParts>)
    ensures MatchAt(s).Some? ==> r == MatchAt(s)
    ensures r.Some? ==> Writable(r.value.alt, r.value.url, r.value.title)
  {
    if MatchAt(s).Some? then MatchAt(s) else if s == [] then None else Find(s[1..])
  }

  /** `ImageBuilder.parse(line)`: search the trimmed line. */
  function Parse(line: string): (r: Option<Element>)
    ensures r.Some? <==> Find(Trim(line)).Some?
    ensures r.Some? ==> r.value.tag == Image && r.value.url.Some? && r.value.content.Text?
  {
    match Find(Trim(line))
    case Some(p) => Some(New(Image, Text(p.alt), NoMeta.(url := Some(p.url), title := p.title)))
    case None => None
  }

  function TitleText(e: Element): string {
    if TruthyString(e.title) then " \"" + e.title.value + "\"" else ""
  }

  function Build(e: Element): string {
    "![" + ContentText(e.content) + "](" + Show(e.url) + TitleText(e) + ")"
  }

  /** The fields an image can carry through a round trip. */
  predicate Writable(alt: string, url: string, title: Option<string>) {
    Excludes(alt, ']') && url != [] &&
    (forall i :: 0 <= i < |url| ==> url[i] != ')' && !IsSpace(url[i])) &&
    (title.Some? ==> title.value != [] && Excludes(title.value, '"'))
  }

  lemma {:induction false} UrlEndPast(s: string, i: nat, n: nat)
    requires i + n < |s| && (s[i + n] == ')' || IsSpace(s[i + n]))
    requires forall j :: i <= j < i + n ==> s[j] != ')' && !IsSpace(s[j])
    ensures UrlEnd(s, i) == i + n
    decreases n
  {
    if n > 0 {
      UrlEndPast(s, i + 1, n - 1);
    }
  }

  /** The text `build` writes for the given fields. */
  function Written(alt: string, url: string, title: Option<string>): string {
    "![" + alt + "](" + url + (if title.Some? then " \"" + title.value + "\"" else "") + ")"
  }

  lemma MatchWritten(alt: string, url: string, title: Option<string>)
    requires Writable(alt, url, title)
    ensures MatchAt(Written(alt, url, title)) == Some(ImageParts(alt, url, title))
  {
    TrailingTextIgnored(alt, url, title, []);
    assert Written(alt, url, title) + [] == Written(alt, url, title);
  }

  /** An image whose fields avoid the delimiters survives `build` then `parse`;
      a title that is present is written as ` "title"` and read back. */
  lemma RoundTrip(alt: string, url: string, title: Option<string>)
    requires Writable(alt, url, title)
    ensures var e := New(Image, Text(alt), NoMeta.(url := Some(url), title := title));
      Parse(Build(e)) == Some(e)
  {
    var e := New(Image, Text(alt), NoMeta.(url := Some(url), title := title));
    var s := Written(alt, url, title);
    assert Build(e) == s;
    assert s[0] == '!' && s[|s| - 1] == ')';
    TrimOfTrimmed(s);
    MatchWritten(alt, url, title);
  }

  lemma TitleAtWritten(s: string, u: nat, title: Option<string>, more: string)
    requires title.Some? ==> title.value != [] && Excludes(title.value, '"')
    requires u <= |s| && s[u..] == (if title.Some? then " \"" + title.value + "\"" else "") + ")" + more
    ensures u < |s| && TitleAt(s, u) == Some(title)
  {
    if title.Some? {
      var t := title.value;
      assert s[u] == ' ' && s[u + 1] == '"';
      assert s[u + 2..] == t + ("\"" + ")" + more);
      assert s[u + 2 + |t|] == '"';
      IndexOfFromPast(s, '"', u + 2, |t|);
      assert s[u + 2..u + 2 + |t|] == t;
      assert s[u + 2 + |t| + 1] == ')';
    } else {
      assert s[u] == ')';
    }
  }

  /** Text after the closing parenthesis does not change what is matched. */
  lemma {:induction false} TrailingTextIgnored(alt: string, url: string, title: Option<string>, more: string)
    requires Writable(alt, url, title)
    ensures MatchAt(Written(alt, url, title) + more) == Some(ImageParts(alt, url, title))
  {
    var tail := (if title.Some? then " \"" + title.value + "\"" else "") + ")" + more;
    var s := Written(alt, url, title) + more;
    WrittenLayout(s, alt, url, tail);
    var a := 2 + |alt|;
    var u := a + 2 + |url|;
    IndexOfFromPast(s, ']', 2, |alt|);
    UrlEndPast(s, a + 2, |url|);
    TitleAtWritten(s, u, title, more);
    MatchAtSteps(s, a, u, title);
  }

  lemma WrittenLayout(s: string, alt: string, url: string, tail: string)
    requires s == "![" + alt + "](" + url + tail
    requires Excludes(alt, ']') && |url| > 0 && |tail| > 0 && (tail[0] == ')' || tail[0] == ' ')
    requires forall i :: 0 <= i < |url| ==> url[i] != ')' && !IsSpace(url[i])
    ensures |s| >= 2 && s[0] == '!' && s[1] == '['
    ensures s[2..2 + |alt|] == alt && s[2 + |alt|] == ']' && s[2 + |alt| + 1] == '('
    ensures forall j :: 2 <= j < 2 + |alt| ==> s[j] != ']'
    ensures s[2 + |alt| + 2..2 + |alt| + 2 + |url|] == url
    ensures forall j :: 2 + |alt| + 2 <= j < 2 + |alt| + 2 + |url| ==> s[j] != ')' && !IsSpace(s[j])
    ensures s[2 + |alt| + 2 + |url|..] == tail
    ensures s[2 + |alt| + 2 + |url|] == ')' || IsSpace(s[2 + |alt| + 2 + |url|])
  {
    var a := 2 + |alt|;
    var head := "![" + alt;
    var rest := "](" + url + tail;
    assert s == head + rest;
    assert s[2..a] == head[2..] == alt;
    assert s[a] == rest[0] == ']' && s[a + 1] == rest[1] == '(';
    assert s[a + 2..] == url + tail;
  }

  lemma MatchAtSteps(s: string, a: nat, u: nat, title: Option<string>)
    requires |s| >= 2 && s[0] == '!' && s[1] == '['
    requires a == IndexOfFrom(s, ']', 2) && a + 1 < |s| && s[a + 1] == '('
    requires u == UrlEnd(s, a + 2) && a + 2 < u < |s| && TitleAt(s, u) == Some(title)
    ensures MatchAt(s) == Some(ImageParts(s[2..a], s[a + 2..u], title))
  {
  }
}
