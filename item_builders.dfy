/** Task items (src/builders/task-item-builder.js). */
module TaskItemBuilder {
  import opened Wrappers
  import opened Strings
  import opened Element

  predicate IsBullet(c: char) { c == '-' || c == '*' || c == '+' }

  predicate IsBox(c: char) { c == 'x' || c == 'X' || c == ' ' }

  /** `^(\s*)([-*+])\s\[[x ]\]` with the `i` flag: the tokenizer's test, which
      does not look past the closing bracket. */
  predicate TaskShape(line: string) {
    var w := LeadingSpaces(line);
    w + 5 <= |line| && IsBullet(line[w]) && IsSpace(line[w + 1]) &&
    line[w + 2] == '[' && IsBox(line[w + 3]) && line[w + 4] == ']'
  }

  /** `^(\s*)([-*+])\s\[(x| )\]\s(.*)` with the `i` flag. */
  function Parse(line: string): (r: Option<Element>)
    ensures r.Some? ==> TaskShape(line) && r.value.tag == TaskItem
  {
    var w := LeadingSpaces(line);
    if TaskShape(line) && w + 5 < |line| && IsSpace(line[w + 5]) then
      Some(New(TaskItem, Text(Trim(UpToLineEnd(line[w + 6..]))),
               NoMeta.(level := Some(w / 2), checked := Some(line[w + 3] != ' '))))
    else None
  }

  /** A task line yields trimmed text, a box that is checked iff it holds `x`
      or `X`, and half the indentation as its level; a line that ends right
      after the box yields nothing. */
  lemma ParseMeans(line: string)
    ensures Parse(line).Some? ==> var w := LeadingSpaces(line); var e := Parse(line).value;
      && e.content.Text? && NoSpaceAtEnds(e.content.text)
      && (e.checked == Some(true) <==> line[w + 3] == 'x' || line[w + 3] == 'X')
      && (if w / 2 == 0 then e.level.None? else e.level == Some(w / 2))
      && e.marker.None?
    ensures TaskShape(line) && LeadingSpaces(line) + 5 == |line| ==> Parse(line).None?
  {
  }

  function BoxText(e: Element): string {
    if TruthyBool(e.checked) then "x" else " "
  }

  /** Two spaces per level, always the `-` bullet and a lower-case `x`. */
  function Build(e: Element): (r: string)
    ensures var n := 2 * LevelOrZero(e);
      |r| >= n + 6 && r[..n] == Repeat(' ', n) && r[n..n + 6] == "- [" + BoxText(e) + "] " &&
      (r[n + 3] == 'x' <==> TruthyBool(e.checked)) && r[n + 3] != 'X'
  {
    Repeat(' ', 2 * LevelOrZero(e)) + "- [" + BoxText(e) + "] " + ContentText(e.content)
  }

  lemma Layout(line: string, n: nat, box: string, c: string)
    requires line == Repeat(' ', n) + "- [" + box + "] " + c && |box| == 1
    ensures |line| >= n + 6 && line[n] == '-' && line[n + 1] == ' ' && line[n + 2] == '['
    ensures line[n + 3] == box[0] && line[n + 4] == ']' && line[n + 5] == ' ' && line[n + 6..] == c
    ensures LeadingSpaces(line) == n
  {
    var tail := "- [" + box + "] " + c;
    assert line == Repeat(' ', n) + tail;
    LeadingSpacesAppend(Repeat(' ', n), tail);
    assert line[n..] == tail;
    assert tail[6..] == c;
  }

  /** A task item with trimmed one-line content survives `build` then `parse`. */
  lemma RoundTrip(level: nat, checked: bool, c: string)
    requires NoSpaceAtEnds(c) && NoLineTerminator(c)
    ensures var e := New(TaskItem, Text(c), NoMeta.(level := Some(level), checked := Some(checked)));
      Parse(Build(e)) == Some(e)
  {
    var e := New(TaskItem, Text(c), NoMeta.(level := Some(level), checked := Some(checked)));
    var box := if checked then "x" else " ";
    var n := 2 * level;
    var line := Build(e);
    assert BoxText(e) == box && LevelOrZero(e) == level && ContentText(e.content) == c;
    assert line == Repeat(' ', n) + "- [" + box + "] " + c;
    Layout(line, n, box, c);
    assert TaskShape(line) && n + 5 < |line| && IsSpace(line[n + 5]);
    UpToLineEndOfClean(c);
    TrimOfTrimmed(c);
    assert n / 2 == level && (line[n + 3] != ' ') == checked;
    assert Parse(line) == Some(New(TaskItem, Text(c), NoMeta.(level := Some(n / 2), checked := Some(checked))));
  }

  /** Whatever bullet and box letter a task line uses, it is written back with
      `-`, a lower-case `x` or a space, and an even indentation. */
  lemma CanonicalRebuild(line: string)
    requires Parse(line).Some?
    ensures var w := LeadingSpaces(line);
      Build(Parse(line).value) ==
        Repeat(' ', 2 * (w / 2)) + "- [" + (if line[w + 3] == ' ' then " " else "x") + "] "
        + Trim(UpToLineEnd(line[w + 6..]))
  {
    var w := LeadingSpaces(line);
    var e := Parse(line).value;
    var text := Trim(UpToLineEnd(line[w + 6..]));
    assert e == New(TaskItem, Text(text), NoMeta.(level := Some(w / 2), checked := Some(line[w + 3] != ' ')));
    assert LevelOrZero(e) == w / 2 && ContentText(e.content) == text;
    assert BoxText(e) == (if line[w + 3] == ' ' then " " else "x");
  }
}

/** List items (src/builders/list-item-builder.js). */
module ListItemBuilder {
  import opened Wrappers
  import opened Strings
  import opened Element

  predicate IsBullet(c: char) { c == '-' || c == '*' || c == '+' }

  /** `\d+\.` */
  predicate IsOrdinal(m: string) {
    |m| >= 2 && m[|m| - 1] == '.' && forall i :: 0 <= i < |m| - 1 ==> IsDigit(m[i])
  }

  /** The markers `([-*+]|\d+\.)` accepts. */
  predicate IsMarker(m: string) {
    m == "-" || m == "*" || m == "+" || IsOrdinal(m)
  }

  /** End of the digit run starting at `i`. */
  function DigitsEnd(s: string, i: nat): (k: nat)
    requires i <= |s|
    ensures i <= k <= |s|
    ensures forall j :: i <= j < k ==> IsDigit(s[j])
    ensures k < |s| ==> !IsDigit(s[k])
    decreases |s| - i
  {
    if i == |s| || !IsDigit(s[i]) then i else DigitsEnd(s, i + 1)
  }

  /** The index just after a marker starting at `w`, if there is one. */
  function MarkerEnd(s: string, w: nat): (r: Option<nat>)
    requires w <= |s|
    ensures r.Some? ==> w < r.value <= |s| && IsMarker(s[w..r.value])
  {
    if w < |s| && IsBullet(s[w]) then
      assert s[w..w + 1] == [s[w]];
      Some(w + 1)
    else
      var d := DigitsEnd(s, w);
      if d > w && d < |s| && s[d] == '.' then Some(d + 1) else None
  }

  /** `^(\s*)([-*+]|\d+\.)\s(.*)`: indentation, marker and the rest of the line. */
  function MatchList(line: string): (r: Option<(nat, string, string)>)
    ensures r.Some? ==> var (w, m, rest) := r.value;
      w == LeadingSpaces(line) && IsMarker(m) && w + |m| < |line| &&
      line[w..w + |m|] == m && IsSpace(line[w + |m|]) && rest == line[w + |m| + 1..]
  {
    var w := LeadingSpaces(line);
    match MarkerEnd(line, w)
    case Some(m) => if m < |line| && IsSpace(line[m]) then Some((w, line[w..m], line[m + 1..])) else None
    case None => None
  }

  /** The tokenizer's test `^(\s*)([-*+]|\d+\.)\s`. */
  predicate ListShape(line: string) {
    MatchList(line).Some?
  }

  function Parse(line: string): (r: Option<Element>)
    ensures r.Some? <==> ListShape(line)
    ensures r.Some? ==> r.value.tag == ListItem
  {
    match MatchList(line)
    case Some((w, m, rest)) =>
      Some(New(ListItem, Text(Trim(UpToLineEnd(rest))), NoMeta.(level := Some(w), marker := Some(m))))
    case None => None
  }

  /** An item keeps its marker, trims its text and takes the indentation width
      as its level. */
  lemma ParseMeans(line: string)
    ensures Parse(line).Some? ==> var e := Parse(line).value;
      && e.content.Text? && NoSpaceAtEnds(e.content.text)
      && e.marker.Some? && IsMarker(e.marker.value)
      && (if LeadingSpaces(line) == 0 then e.level.None? else e.level == Some(LeadingSpaces(line)))
  {
  }

  /** One space per level, the marker as stored, a space and the content. */
  function Build(e: Element): string {
    Repeat(' ', LevelOrZero(e)) + Show(e.marker) + " " + ContentText(e.content)
  }

  lemma {:induction false} DigitsEndOrdinal(s: string, w: nat, m: string)
    requires IsOrdinal(m) && w + |m| <= |s| && s[w..w + |m|] == m
    ensures DigitsEnd(s, w) == w + |m| - 1
  {
    var k := w + |m| - 1;
    assert s[k] == m[|m| - 1] == '.';
    assert forall j :: w <= j < k ==> IsDigit(s[j]) by {
      forall j | w <= j < k ensures IsDigit(s[j]) {
        assert s[j] == m[j - w];
      }
    }
    DigitsEndPast(s, w, |m| - 1);
  }

  lemma {:induction false} DigitsEndPast(s: string, i: nat, n: nat)
    requires i + n < |s| && !IsDigit(s[i + n])
    requires forall j :: i <= j < i + n ==> IsDigit(s[j])
    ensures DigitsEnd(s, i) == i + n
    decreases n
  {
    if n > 0 {
      DigitsEndPast(s, i + 1, n - 1);
    }
  }

  lemma Layout(line: string, n: nat, m: string, c: string)
    requires line == Repeat(' ', n) + m + " " + c && IsMarker(m)
    ensures LeadingSpaces(line) == n && line[n..n + |m|] == m
    ensures line[n + |m|] == ' ' && line[n + |m| + 1..] == c
  {
    var tail := m + " " + c;
    assert tail[0] == m[0];
    assert !IsSpace(m[0]) by {
      if IsOrdinal(m) { assert IsDigit(m[0]); }
    }
    assert line == Repeat(' ', n) + tail;
    LeadingSpacesAppend(Repeat(' ', n), tail);
    assert line[n..] == tail;
    assert line[n..n + |m|] == tail[..|m|] == m;
    assert line[n + |m|] == tail[|m|] == ' ';
    assert line[n + |m| + 1..] == tail[|m| + 1..] == c;
  }

  lemma MarkerEndOf(line: string, n: nat, m: string)
    requires IsMarker(m) && n + |m| < |line| && line[n..n + |m|] == m && line[n + |m|] == ' '
    ensures MarkerEnd(line, n) == Some(n + |m|)
  {
    assert line[n] == m[0];
    if !IsBullet(line[n]) {
      DigitsEndOrdinal(line, n, m);
    }
  }

  /** A list item with an accepted marker and trimmed one-line content survives
      `build` then `parse`; the marker is kept verbatim. */
  lemma RoundTrip(level: nat, m: string, c: string)
    requires IsMarker(m) && NoSpaceAtEnds(c) && NoLineTerminator(c)
    ensures var e := New(ListItem, Text(c), NoMeta.(level := Some(level), marker := Some(m)));
      Parse(Build(e)) == Some(e)
  {
    var e := New(ListItem, Text(c), NoMeta.(level := Some(level), marker := Some(m)));
    var line := Build(e);
    assert LevelOrZero(e) == level && Show(e.marker) == m && ContentText(e.content) == c;
    assert line == Repeat(' ', level) + m + " " + c;
    Layout(line, level, m, c);
    MarkerEndOf(line, level, m);
    assert MatchList(line) == Some((level, m, c));
    UpToLineEndOfClean(c);
    TrimOfTrimmed(c);
    assert Parse(line) == Some(New(ListItem, Text(c), NoMeta.(level := Some(level), marker := Some(m))));
  }

  /** Indentation is counted in characters: a tab is one level. */
  lemma TabIsOneLevel(c: string)
    requires NoSpaceAtEnds(c) && NoLineTerminator(c)
    ensures Parse("\t- " + c) == Some(New(ListItem, Text(c), NoMeta.(level := Some(1), marker := Some("-"))))
  {
    var line := "\t- " + c;
    assert line == "\t" + ("- " + c);
    LeadingSpacesAppend("\t", "- " + c);
    assert line[1..2] == "-" && line[2] == ' ' && line[3..] == c;
    assert MarkerEnd(line, 1) == Some(2);
    assert MatchList(line) == Some((1, "-", c));
    UpToLineEndOfClean(c);
    TrimOfTrimmed(c);
  }
}
