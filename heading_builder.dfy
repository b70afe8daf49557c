/** Headings (src/builders/heading-builder.js): the `#` form, then the
    same-line underline form; rendering always uses the `#` form. */
module HeadingBuilder {
  import opened Wrappers
  import opened Strings
  import opened Element

  /** Number of leading `ch` characters of `s`. */
  function CountLeading(s: string, ch: char): (n: nat)
    ensures n <= |s|
    ensures forall i :: 0 <= i < n ==> s[i] == ch
    ensures n < |s| ==> s[n] != ch
  {
    if s == [] || s[0] != ch then 0 else 1 + CountLeading(s[1..], ch)
  }

  /** Number of trailing `ch` characters of `s`. */
  function CountTrailing(s: string, ch: char): (n: nat)
    ensures n <= |s|
    ensures forall i :: |s| - n <= i < |s| ==> s[i] == ch
    ensures n < |s| ==> s[|s| - 1 - n] != ch
  {
    if s == [] || s[|s| - 1] != ch then 0 else 1 + CountTrailing(s[..|s| - 1], ch)
  }

  /** The line opens with one to six `#` and a whitespace character. */
  ghost predicate AtxShape(line: string) {
    exists n: nat :: 1 <= n <= 6 && n < |line| && IsSpace(line[n]) &&
      forall i :: 0 <= i < n ==> line[i] == '#'
  }

  /** `^(#{1,6})\s(.*)`: the level and the captured rest of the line. */
  function MatchAtx(line: string): (r: Option<(nat, string)>)
    ensures r.Some? ==> 1 <= r.value.0 <= 6 && r.value.0 < |line|
  {
    var n := CountLeading(line, '#');
    if 1 <= n <= 6 && n < |line| && IsSpace(line[n]) then
      Some((n, UpToLineEnd(line[n + 1..])))
    else
      None
  }

  /** A match is exactly an opening run of one to six `#` and a whitespace
      character; the rest is the line after them, up to its end. */
  lemma MatchAtxMeans(line: string)
    ensures MatchAtx(line).Some? <==> AtxShape(line)
    ensures MatchAtx(line).Some? ==> var (n, rest) := MatchAtx(line).value;
      IsSpace(line[n]) && line[..n] == Repeat('#', n) && rest == UpToLineEnd(line[n + 1..])
  {
  }

  /** `^(.*?)\s*([=]+|-+)$`: the level (1 for `=`, 2 for `-`) and the text before
      the final run and the whitespace in front of it. */
  function MatchUnderline(line: string): (r: Option<(nat, string)>)
    ensures r.Some? ==> |line| > 0 && (line[|line| - 1] == '=' || line[|line| - 1] == '-')
    ensures r.Some? ==> r.value.0 == (if line[|line| - 1] == '=' then 1 else 2)
    ensures r.Some? ==> NoLineTerminator(r.value.1) && StartsWith(line, r.value.1)
  {
    if line == [] || (line[|line| - 1] != '=' && line[|line| - 1] != '-') then None
    else
      var ch := line[|line| - 1];
      var rest := line[..|line| - CountTrailing(line, ch)];
      var text := rest[..|rest| - TrailingSpaces(rest)];
      if NoLineTerminator(text) then Some((if ch == '=' then 1 else 2, text)) else None
  }

  function Parse(line: string): (r: Option<Element>)
    ensures r.Some? ==> r.value.tag == Heading && r.value.level.Some? && r.value.content.Text?
    ensures r.Some? ==> NoSpaceAtEnds(r.value.content.text)
    ensures line == [] ==> r.None?
  {
    match MatchAtx(line)
    case Some((n, rest)) => Some(New(Heading, Text(Trim(rest)), LevelMeta(n)))
    case None =>
      match MatchUnderline(line)
      case Some((n, text)) => Some(New(Heading, Text(Trim(text)), LevelMeta(n)))
      case None => None
  }

  /** `'#'.repeat(level) + ' ' + content`, or `'# ' + content` beyond level 6
      (a missing level reads as 0 there). */
  function Build(e: Element): string {
    if LevelOrZero(e) <= 6 then Repeat('#', LevelOrZero(e)) + " " + ContentText(e.content)
    else "# " + ContentText(e.content)
  }

  lemma {:induction false} CountLeadingRepeat(n: nat, ch: char, t: string)
    requires t == [] || t[0] != ch
    ensures CountLeading(Repeat(ch, n) + t, ch) == n
  {
    if n > 0 {
      assert (Repeat(ch, n) + t)[1..] == Repeat(ch, n - 1) + t;
      CountLeadingRepeat(n - 1, ch, t);
    }
  }

  /** A heading of level 1 to 6 with trimmed one-line content survives `build` then `parse`. */
  lemma RoundTrip(n: nat, c: string)
    requires 1 <= n <= 6
    requires NoSpaceAtEnds(c) && NoLineTerminator(c)
    ensures Parse(Build(New(Heading, Text(c), LevelMeta(n)))) == Some(New(Heading, Text(c), LevelMeta(n)))
  {
    var e := New(Heading, Text(c), LevelMeta(n));
    var line := Build(e);
    assert line == Repeat('#', n) + (" " + c);
    CountLeadingRepeat(n, '#', " " + c);
    assert line[n + 1..] == c;
    UpToLineEndOfClean(c);
    TrimOfTrimmed(c);
  }

  /** Levels beyond 6 are rendered as level 1, not clamped to 6. */
  lemma DeepLevelRendersAsLevelOne(c: string, n: nat)
    requires n > 6 && NoSpaceAtEnds(c) && NoLineTerminator(c)
    ensures Parse(Build(New(Heading, Text(c), LevelMeta(n)))) == Some(New(Heading, Text(c), LevelMeta(1)))
  {
    assert Build(New(Heading, Text(c), LevelMeta(n))) == Build(New(Heading, Text(c), LevelMeta(1)));
    RoundTrip(1, c);
  }

  /** Seven or more `#` never form a heading of the `#` kind. */
  lemma SevenHashesAreNotAtx(line: string)
    requires |line| >= 7 && forall i :: 0 <= i < 7 ==> line[i] == '#'
    ensures MatchAtx(line).None?
  {
  }

  /** The underline test runs on the line itself: `--` is a level-2 heading with
      empty text. */
  lemma DoubleDashIsHeading()
    ensures Parse("--") == Some(New(Heading, Text(""), LevelMeta(2)))
  {
    assert CountLeading("--", '#') == 0;
    assert CountTrailing("--", '-') == 2;
    assert MatchUnderline("--") == Some((2, ""));
  }

  /** `x -` is a level-2 heading with text `x`. */
  lemma TrailingDashIsHeading()
    ensures Parse("x -") == Some(New(Heading, Text("x"), LevelMeta(2)))
  {
    assert CountLeading("x -", '#') == 0;
    assert CountTrailing("x -", '-') == 1;
    var rest := "x -"[..2];
    assert rest == "x ";
    assert TrailingSpaces(rest) == 1;
    assert rest[..1] == "x";
    assert MatchUnderline("x -") == Some((2, "x"));
    TrimOfTrimmed("x");
  }
}
