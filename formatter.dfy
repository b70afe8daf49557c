/** The README formatter `MarkdownFormatter` (src/utils/formatter.js): a
    pipeline of rewrites over element sequences, each switched on or off by
    an option. */
module Formatter {
  import opened Wrappers
  import opened Strings
  import opened Element
  import ListItemBuilder

  // ---- Options ----

  /** The options after the constructor has spread the caller's overrides
      over the defaults; nothing changes them afterwards. */
  datatype Options = Options(
    maxLineLength: int, consistentListMarkers: bool, consistentSpacing: bool,
    sortSections: bool, addTableOfContents: bool)

  /** The caller's `options` argument; `None` is a key that is not given. */
  datatype Overrides = Overrides(
    maxLineLength: Option<int>, consistentListMarkers: Option<bool>, consistentSpacing: Option<bool>,
    sortSections: Option<bool>, addTableOfContents: Option<bool>)

  const NoOverrides := Overrides(None, None, None, None, None)

  function Pick<T>(given: Option<T>, default: T): T {
    if given.Some? then given.value else default
  }

  /** `new MarkdownFormatter(options)`: a given key wins over its default. */
  function Configure(o: Overrides): (opts: Options)
    ensures o == NoOverrides ==> opts == Options(80, true, true, false, false)
    ensures o.maxLineLength.Some? ==> opts.maxLineLength == o.maxLineLength.value
    ensures o.maxLineLength.None? ==> opts.maxLineLength == 80
    ensures o.consistentListMarkers.Some? ==> opts.consistentListMarkers == o.consistentListMarkers.value
    ensures o.consistentListMarkers.None? ==> opts.consistentListMarkers
    ensures o.consistentSpacing.Some? ==> opts.consistentSpacing == o.consistentSpacing.value
    ensures o.consistentSpacing.None? ==> opts.consistentSpacing
    ensures o.sortSections.Some? ==> opts.sortSections == o.sortSections.value
    ensures o.sortSections.None? ==> !opts.sortSections
    ensures o.addTableOfContents.Some? ==> opts.addTableOfContents == o.addTableOfContents.value
    ensures o.addTableOfContents.None? ==> !opts.addTableOfContents
  {
    Options(
      Pick(o.maxLineLength, 80), Pick(o.consistentListMarkers, true), Pick(o.consistentSpacing, true),
      Pick(o.sortSections, false), Pick(o.addTableOfContents, false))
  }

  // ---- Spacing ----

  predicate IsListEntry(t: Tag) { t == ListItem || t == TaskItem }

  predicate IsListMarker(t: Tag) { t == ListStart || t == ListEnd }

  /** `_shouldNotAddSpacing`: list entries stay together, tables stay
      together, nothing follows a heading, and the list markers are never
      separated from their neighbours. */
  predicate ShouldNotAddSpacing(current: Element, next: Element) {
    (IsListEntry(current.tag) && IsListEntry(next.tag)) ||
    (current.tag == Table && next.tag == Table) ||
    current.tag == Heading ||
    IsListMarker(current.tag) || IsListMarker(next.tag)
  }

  /** The element `new MarkdownElement(BREAK, '')` inserted between blocks. */
  const SpacingBreak := New(Break, Text(""), NoMeta)

  /** What `_normalizeSpacing` pushes after the element at `i`. */
  function GapAfter(els: seq<Element>, i: nat): seq<Element>
    requires i < |els|
  {
    if i + 1 < |els| && !ShouldNotAddSpacing(els[i], els[i + 1]) then [SpacingBreak] else []
  }

  /** The output of `_normalizeSpacing` after its first `n` rounds. */
  function SpacedPrefix(els: seq<Element>, n: nat): seq<Element>
    requires n <= |els|
  {
    if n == 0 then [] else SpacedPrefix(els, n - 1) + [els[n - 1]] + GapAfter(els, n - 1)
  }

  function Spaced(els: seq<Element>): seq<Element> {
    SpacedPrefix(els, |els|)
  }

  /** How many breaks precede the element at `n` in the output. */
  function Inserted(els: seq<Element>, n: nat): nat
    requires n <= |els|
  {
    if n == 0 then 0 else Inserted(els, n - 1) + |GapAfter(els, n - 1)|
  }

  /** `_normalizeSpacing` */
  method NormalizeSpacing(elements: seq<Element>) returns (formatted: seq<Element>)
    ensures formatted == Spaced(elements)
  {
    formatted := [];
    for i := 0 to |elements|
      invariant formatted == SpacedPrefix(elements, i)
    {
      var element := elements[i];
      formatted := formatted + [element];
      if i + 1 < |elements| && !ShouldNotAddSpacing(element, elements[i + 1]) {
        formatted := formatted + [New(Break, Text(""), NoMeta)];
      }
    }
  }

  /** The element at `i` sits after the `Inserted(els, i)` breaks before it,
      and a break follows it when a gap is due. */
  predicate Placed(els: seq<Element>, n: nat, i: nat)
    requires i < n <= |els|
  {
    var s, p := SpacedPrefix(els, n), i + Inserted(els, i);
    p < |s| && s[p] == els[i] && (GapAfter(els, i) != [] ==> p + 1 < |s| && s[p + 1] == SpacingBreak)
  }

  /** Where everything lands in the output of `_normalizeSpacing`. */
  lemma {:induction false} SpacedLayout(els: seq<Element>, n: nat)
    requires n <= |els|
    ensures |SpacedPrefix(els, n)| == n + Inserted(els, n)
    ensures forall i :: 0 <= i < n ==> Placed(els, n, i)
  {
    if n > 0 {
      SpacedLayout(els, n - 1);
      forall i | 0 <= i < n
        ensures Placed(els, n, i)
      {
        PlacedStep(els, n, i);
      }
    }
  }

  lemma PlacedStep(els: seq<Element>, n: nat, i: nat)
    requires i < n <= |els|
    requires |SpacedPrefix(els, n - 1)| == n - 1 + Inserted(els, n - 1)
    requires i < n - 1 ==> Placed(els, n - 1, i)
    ensures Placed(els, n, i)
  {
    var before := SpacedPrefix(els, n - 1);
    var s := SpacedPrefix(els, n);
    assert s == before + [els[n - 1]] + GapAfter(els, n - 1);
    if i < n - 1 {
      var p := i + Inserted(els, i);
      assert s[p] == before[p];
      if GapAfter(els, i) != [] {
        assert s[p + 1] == before[p + 1];
      }
    }
  }

  /** Between two neighbours of the input there is exactly one break when
      `_shouldNotAddSpacing` is false for them, and none when it is true. */
  lemma SpacingBetween(els: seq<Element>, i: nat)
    requires i + 1 < |els|
    ensures var s, p := Spaced(els), i + Inserted(els, i);
      if ShouldNotAddSpacing(els[i], els[i + 1]) then
        p + 1 < |s| && s[p] == els[i] && s[p + 1] == els[i + 1]
      else
        p + 2 < |s| && s[p] == els[i] && s[p + 1] == SpacingBreak && s[p + 2] == els[i + 1]
  {
    PlacedInSpaced(els, i);
    PlacedInSpaced(els, i + 1);
    InsertedStep(els, i);
  }

  /** One more break precedes the next element exactly when a gap is due. */
  lemma InsertedStep(els: seq<Element>, i: nat)
    requires i + 1 < |els|
    ensures Inserted(els, i + 1) == Inserted(els, i) + (if ShouldNotAddSpacing(els[i], els[i + 1]) then 0 else 1)
    ensures GapAfter(els, i) != [] <==> !ShouldNotAddSpacing(els[i], els[i + 1])
  {
  }

  lemma PlacedInSpaced(els: seq<Element>, i: nat)
    requires i < |els|
    ensures Placed(els, |els|, i)
  {
    SpacedLayout(els, |els|);
  }

  /** Nothing is added after the last element, so fewer than twice as many
      elements come out as go in. */
  lemma {:induction false} SpacedEnds(els: seq<Element>)
    requires els != []
    ensures var s := Spaced(els); s != [] && s[|s| - 1] == els[|els| - 1]
    ensures |Spaced(els)| < 2 * |els|
  {
    SpacedLayout(els, |els|);
    assert Placed(els, |els|, |els| - 1);
    InsertedBound(els, |els| - 1);
    assert Inserted(els, |els|) == Inserted(els, |els| - 1);
  }

  lemma {:induction false} InsertedBound(els: seq<Element>, n: nat)
    requires n <= |els|
    ensures Inserted(els, n) <= n
  {
    if n > 0 {
      InsertedBound(els, n - 1);
    }
  }

  // ---- List markers ----

  /** `*` and `+` become `-`; an ordinal marker (`\d+\.`) and every other
      value are kept. */
  function NormalizedMarker(marker: Option<string>): Option<string> {
    var normalized := if marker == Some("*") || marker == Some("+") then Some("-") else marker;
    if marker.Some? && ListItemBuilder.IsOrdinal(marker.value) then marker else normalized
  }

  /** The callback of `_normalizeListMarkers`: a list item is rebuilt from its
      content, level and normalized marker; anything else is returned as is. */
  function NormalizeItem(el: Element): Element {
    if el.tag == ListItem then
      New(ListItem, el.content, NoMeta.(level := el.level, marker := NormalizedMarker(el.marker)))
    else el
  }

  /** `_normalizeListMarkers` */
  function NormalizeListMarkers(els: seq<Element>): (r: seq<Element>)
    ensures |r| == |els|
    ensures forall i :: 0 <= i < |els| ==> r[i] == NormalizeItem(els[i])
  {
    seq(|els|, i requires 0 <= i < |els| => NormalizeItem(els[i]))
  }

  /** Non-list elements pass through; a list item keeps its tag, content and
      level, has `*` and `+` replaced by `-`, and loses every other field. */
  lemma NormalizeItemEffect(el: Element)
    ensures NormalizeItem(el).tag == el.tag
    ensures el.tag != ListItem ==> NormalizeItem(el) == el
    ensures el.tag == ListItem ==>
      var r := NormalizeItem(el);
      r.content == el.content && r.level == OrNullNat(el.level) &&
      r.marker == (if el.marker == Some("*") || el.marker == Some("+") then Some("-") else OrNullString(el.marker)) &&
      r.checked.None? && r.lang.None? && r.url.None? && r.title.None? && r.id.None?
  {
  }

  /** After normalizing, no list item carries `*` or `+`. */
  lemma NoStarOrPlusLeft(els: seq<Element>)
    ensures forall i :: 0 <= i < |els| && NormalizeListMarkers(els)[i].tag == ListItem ==>
      NormalizeListMarkers(els)[i].marker != Some("*") && NormalizeListMarkers(els)[i].marker != Some("+")
  {
  }

  /** Normalizing twice is normalizing once. */
  lemma NormalizeListMarkersIdempotent(els: seq<Element>)
    ensures NormalizeListMarkers(NormalizeListMarkers(els)) == NormalizeListMarkers(els)
  {
    var once := NormalizeListMarkers(els);
    forall i | 0 <= i < |els|
      ensures NormalizeItem(once[i]) == once[i]
    {
      NormalizeItemTwice(els[i]);
    }
  }

  lemma NormalizeItemTwice(el: Element)
    ensures NormalizeItem(NormalizeItem(el)) == NormalizeItem(el)
  {
    if el.tag == ListItem {
      var r := NormalizeItem(el);
      var m := NormalizedMarker(el.marker);
      assert r.marker == OrNullString(m);
      assert NormalizedMarker(r.marker) == r.marker;
    }
  }

  // ---- Wrapping ----

  /** The words of `current` once it is set to `word`: none when the word is empty. */
  function Begin(word: string): seq<string> {
    if word == [] then [] else [word]
  }

  /** What `_wrapText` holds between words: the lines pushed so far and the
      line being filled (`current`), each kept as the list of its words. */
  datatype Packing = Packing(done: seq<seq<string>>, open: seq<string>)

  /** One round of the loop of `_wrapText`. A word joins a non-empty
      `current` when the longer line still fits; otherwise `current` is
      pushed and the word starts the next line. Into an empty `current` the
      word goes whether or not it fits. */
  function Place(p: Packing, word: string, maxLength: int): Packing {
    if p.open == [] then p.(open := Begin(word))
    else if |Join(p.open + [word], " ")| <= maxLength then p.(open := p.open + [word])
    else Packing(p.done + [p.open], Begin(word))
  }

  function Pack(words: seq<string>, maxLength: int): Packing {
    if words == [] then Packing([], [])
    else Place(Pack(words[..|words| - 1], maxLength), words[|words| - 1], maxLength)
  }

  /** The lines of a packing as lists of words; the last one only when it is not empty. */
  function Chunks(p: Packing): seq<seq<string>> {
    if p.open == [] then p.done else p.done + [p.open]
  }

  function JoinEach(chunks: seq<seq<string>>, sep: string): (r: seq<string>)
    ensures |r| == |chunks| && forall i :: 0 <= i < |chunks| ==> r[i] == Join(chunks[i], sep)
  {
    seq(|chunks|, i requires 0 <= i < |chunks| => Join(chunks[i], sep))
  }

  /** The lines `_wrapText` builds from a text that does not fit, as lists of words. */
  function WrapChunks(text: string, maxLength: int): seq<seq<string>> {
    Chunks(Pack(Split(text, ' '), maxLength))
  }

  /** What `_wrapText` returns. */
  function Wrapped(text: string, maxLength: int): string {
    if text == [] || |text| <= maxLength then text
    else Join(JoinEach(WrapChunks(text, maxLength), " "), "\n")
  }

  lemma JoinBegin(word: string)
    ensures Join(Begin(word), " ") == word
  {
  }

  lemma JoinStartsWith(parts: seq<string>, sep: string)
    requires parts != [] && parts[0] != []
    ensures Join(parts, sep) != [] && Join(parts, sep)[0] == parts[0][0]
  {
  }

  lemma JoinEachSnoc(chunks: seq<seq<string>>, c: seq<string>, sep: string)
    ensures JoinEach(chunks + [c], sep) == JoinEach(chunks, sep) + [Join(c, sep)]
  {
  }

  /** `_wrapText` */
  method WrapText(text: string, maxLength: int) returns (r: string)
    ensures r == Wrapped(text, maxLength)
  {
    if text == [] || |text| <= maxLength {
      return text;
    }
    var words := Split(text, ' ');
    var lines: seq<string> := [];
    var current := "";
    ghost var p := Packing([], []);
    for i := 0 to |words|
      invariant p == Pack(words[..i], maxLength)
      invariant p.open == [] || p.open[0] != []
      invariant current == Join(p.open, " ")
      invariant lines == JoinEach(p.done, " ")
    {
      var word := words[i];
      WrapRound(p, current, word, maxLength);
      if |current + (if current != [] then " " else "") + word| <= maxLength {
        current := current + (if current != [] then " " else "") + word;
      } else {
        if current != [] {
          JoinEachSnoc(p.done, p.open, " ");
          lines := lines + [current];
        }
        current := word;
      }
      assert words[..i + 1][..i] == words[..i];
      p := Place(p, word, maxLength);
    }
    if current != [] {
      JoinEachSnoc(p.done, p.open, " ");
      lines := lines + [current];
    }
    assert words[..|words|] == words;
    r := Join(lines, "\n");
  }

  /** The string test of one loop round agrees with `Place`. */
  lemma WrapRound(p: Packing, current: string, word: string, maxLength: int)
    requires p.open == [] || p.open[0] != []
    requires current == Join(p.open, " ")
    ensures current == [] <==> p.open == []
    ensures p.open != [] ==> current + " " + word == Join(p.open + [word], " ")
    ensures Join(Begin(word), " ") == word
  {
    if p.open != [] {
      JoinStartsWith(p.open, " ");
      JoinSnoc(p.open, word, " ");
    }
  }

  /** A line of the wrapped text: it starts with a non-empty word, it fits or
      is a single word, and no word holds a space. */
  predicate GoodChunk(c: seq<string>, maxLength: int) {
    c != [] && c[0] != [] && (|Join(c, " ")| <= maxLength || |c| == 1) &&
    forall j :: 0 <= j < |c| ==> Excludes(c[j], ' ')
  }

  predicate GoodPacking(p: Packing, maxLength: int) {
    (forall k :: 0 <= k < |p.done| ==> GoodChunk(p.done[k], maxLength)) &&
    (p.open == [] || GoodChunk(p.open, maxLength))
  }

  lemma {:induction false} PackIsGood(words: seq<string>, maxLength: int)
    requires forall j :: 0 <= j < |words| ==> Excludes(words[j], ' ')
    ensures GoodPacking(Pack(words, maxLength), maxLength)
  {
    if words != [] {
      var init := words[..|words| - 1];
      var w := words[|words| - 1];
      PackIsGood(init, maxLength);
      var p := Pack(init, maxLength);
      if p.open != [] && |Join(p.open + [w], " ")| <= maxLength {
        var c := p.open + [w];
        assert forall j :: 0 <= j < |c| ==> Excludes(c[j], ' ') by {
          forall j | 0 <= j < |c| ensures Excludes(c[j], ' ') {
            if j < |p.open| { assert c[j] == p.open[j]; }
          }
        }
      }
    }
  }

  /** The line after closed line `k`: the next closed one, or the open one. */
  function After(p: Packing, k: nat): seq<string>
    requires k < |p.done|
  {
    if k + 1 < |p.done| then p.done[k + 1] else p.open
  }

  /** A line is closed only when the first word of the line after it would
      not fit on it; a line closed by an empty word is already full, so no
      word fits after it either. */
  predicate Greedy(p: Packing, maxLength: int) {
    (forall k :: 0 <= k < |p.done| ==> p.done[k] != []) &&
    (forall k :: 0 <= k < |p.done| && After(p, k) != [] ==>
      |Join(p.done[k] + [After(p, k)[0]], " ")| > maxLength) &&
    (p.open == [] && p.done != [] ==> |Join(p.done[|p.done| - 1], " ")| >= maxLength)
  }

  lemma {:induction false} PackIsGreedy(words: seq<string>, maxLength: int)
    ensures Greedy(Pack(words, maxLength), maxLength)
  {
    if words != [] {
      var init := words[..|words| - 1];
      var w := words[|words| - 1];
      PackIsGreedy(init, maxLength);
      var p := Pack(init, maxLength);
      var q := Place(p, w, maxLength);
      assert q == Pack(words, maxLength);
      if p.open == [] {
        if p.done != [] && w != [] {
          JoinSnoc(p.done[|p.done| - 1], w, " ");
          assert After(q, |p.done| - 1) == [w];
        }
        forall k | 0 <= k < |q.done| - 1
          ensures After(q, k) == After(p, k)
        {
        }
      } else if |Join(p.open + [w], " ")| <= maxLength {
        forall k | 0 <= k < |q.done|
          ensures After(q, k) != [] && After(q, k)[0] == After(p, k)[0]
        {
          if k + 1 == |q.done| {
            assert After(q, k) == p.open + [w];
          }
        }
      } else {
        assert q.done == p.done + [p.open];
        forall k | 0 <= k < |q.done|
          ensures After(q, k) != [] ==> |Join(q.done[k] + [After(q, k)[0]], " ")| > maxLength
        {
          if k < |p.done| {
            assert After(q, k) == After(p, k) && q.done[k] == p.done[k];
          } else {
            assert After(q, k) == Begin(w);
          }
        }
        if w == [] {
          JoinSnoc(p.open, w, " ");
        }
      }
    }
  }

  /** The lines of a greedy packing, open line included, keep its property. */
  lemma ChunksGreedy(p: Packing, maxLength: int)
    requires Greedy(p, maxLength)
    ensures var chunks := Chunks(p);
      forall i, j :: 0 <= i && j == i + 1 && j < |chunks| ==>
        chunks[j] != [] && |Join(chunks[i] + [chunks[j][0]], " ")| > maxLength
  {
    var chunks := Chunks(p);
    forall i, j | 0 <= i && j == i + 1 && j < |chunks|
      ensures chunks[j] != [] && |Join(chunks[i] + [chunks[j][0]], " ")| > maxLength
    {
      assert chunks[i] == p.done[i] && chunks[j] == After(p, i);
    }
  }

  /** `_wrapText` is greedy: each line of a wrapped text ends only because the
      first word of the next line would not fit on it. */
  lemma WrapIsGreedy(text: string, maxLength: int)
    ensures var chunks := WrapChunks(text, maxLength);
      forall i, j :: 0 <= i && j == i + 1 && j < |chunks| ==>
        chunks[j] != [] && |Join(chunks[i] + [chunks[j][0]], " ")| > maxLength
  {
    PackIsGreedy(Split(text, ' '), maxLength);
    ChunksGreedy(Pack(Split(text, ' '), maxLength), maxLength);
  }

  /** The concatenation of the lines' word lists. */
  function Flatten(chunks: seq<seq<string>>): seq<string> {
    if chunks == [] then [] else Flatten(chunks[..|chunks| - 1]) + chunks[|chunks| - 1]
  }

  /** The words that are not empty, in order. */
  function NonEmpty(words: seq<string>): seq<string> {
    if words == [] then []
    else NonEmpty(words[..|words| - 1]) + Begin(words[|words| - 1])
  }

  lemma NonEmptySnoc(words: seq<string>, w: string)
    ensures NonEmpty(words + [w]) == NonEmpty(words) + Begin(w)
  {
    assert (words + [w])[..|words|] == words;
  }

  lemma FlattenSnoc(chunks: seq<seq<string>>, c: seq<string>)
    ensures Flatten(chunks + [c]) == Flatten(chunks) + c
  {
    assert (chunks + [c])[..|chunks|] == chunks;
  }

  /** One round adds the word to the end of the flattened lines, or drops it
      when it is empty. */
  lemma PlaceFlatten(p: Packing, w: string, maxLength: int)
    ensures var before, after := Flatten(Chunks(p)), Flatten(Chunks(Place(p, w, maxLength)));
      after == before + [w] || (w == [] && after == before)
  {
    if p.open == [] {
      if w != [] {
        FlattenSnoc(p.done, [w]);
      }
    } else if |Join(p.open + [w], " ")| <= maxLength {
      FlattenSnoc(p.done, p.open + [w]);
      FlattenSnoc(p.done, p.open);
    } else if w != [] {
      FlattenSnoc(p.done + [p.open], [w]);
    }
  }

  /** The empty words that double spaces leave behind may vanish, but every
      other word is kept, in order. */
  lemma {:induction false} PackKeepsWords(words: seq<string>, maxLength: int)
    ensures NonEmpty(Flatten(Chunks(Pack(words, maxLength)))) == NonEmpty(words)
  {
    if words != [] {
      var init := words[..|words| - 1];
      var w := words[|words| - 1];
      PackKeepsWords(init, maxLength);
      var p := Pack(init, maxLength);
      PlaceFlatten(p, w, maxLength);
      NonEmptySnoc(Flatten(Chunks(p)), w);
    }
  }

  /** Every line of a wrapped text is non-empty and fits, or is a single word. */
  lemma WrapLinesBounded(text: string, maxLength: int)
    ensures var lines := JoinEach(WrapChunks(text, maxLength), " ");
      forall k :: 0 <= k < |lines| ==>
        lines[k] != [] && (|lines[k]| <= maxLength || Excludes(lines[k], ' '))
  {
    var words := Split(text, ' ');
    SplitExcludes(text, ' ');
    PackIsGood(words, maxLength);
    var chunks := WrapChunks(text, maxLength);
    var lines := JoinEach(chunks, " ");
    forall k | 0 <= k < |lines|
      ensures lines[k] != [] && (|lines[k]| <= maxLength || Excludes(lines[k], ' '))
    {
      assert GoodChunk(chunks[k], maxLength);
      JoinStartsWith(chunks[k], " ");
    }
  }

  /** `_wrapText`: a text that is empty or fits comes back unchanged; any
      other text comes back as lines joined by line feeds, where every line is
      non-empty and either fits in `maxLength` or is one word with no space,
      and the non-empty words of the text are kept, in order. */
  lemma WrapTextSpec(text: string, maxLength: int)
    ensures text == [] || |text| <= maxLength ==> Wrapped(text, maxLength) == text
    ensures text != [] && |text| > maxLength ==>
      var chunks := WrapChunks(text, maxLength);
      var lines := JoinEach(chunks, " ");
      Wrapped(text, maxLength) == Join(lines, "\n") &&
      (forall k :: 0 <= k < |lines| ==>
        lines[k] != [] && (|lines[k]| <= maxLength || Excludes(lines[k], ' '))) &&
      NonEmpty(Flatten(chunks)) == NonEmpty(Split(text, ' '))
  {
    if text != [] && |text| > maxLength {
      WrapLinesBounded(text, maxLength);
      PackKeepsWords(Split(text, ' '), maxLength);
    }
  }

  // ---- Long lines ----

  /** The callback of `_wrapLongLines`: a paragraph with string content is
      rebuilt around its wrapped text (losing any other field); anything else
      is kept. */
  function WrapElement(el: Element, maxLength: int): Element {
    if el.tag == Paragraph && el.content.Text? then
      New(Paragraph, Text(Wrapped(el.content.text, maxLength)), NoMeta)
    else el
  }

  /** `_wrapLongLines` */
  function WrapLongLines(els: seq<Element>, maxLength: int): (r: seq<Element>)
    ensures |r| == |els|
    ensures forall i :: 0 <= i < |els| ==> r[i] == WrapElement(els[i], maxLength)
  {
    seq(|els|, i requires 0 <= i < |els| => WrapElement(els[i], maxLength))
  }

  /** Every element keeps its tag; only paragraphs with string content change,
      and a paragraph whose text fits keeps its text. */
  lemma WrapLongLinesEffect(els: seq<Element>, maxLength: int, i: nat)
    requires i < |els|
    ensures WrapLongLines(els, maxLength)[i].tag == els[i].tag
    ensures !(els[i].tag == Paragraph && els[i].content.Text?) ==> WrapLongLines(els, maxLength)[i] == els[i]
    ensures els[i].tag == Paragraph && els[i].content.Text? && |els[i].content.text| <= maxLength ==>
      WrapLongLines(els, maxLength)[i].content == els[i].content
  {
  }

  // ---- Sections ----

  /** The section order `_sortSections` prefers. */
  const PreferredOrder: seq<string> :=
    ["title", "description", "installation", "usage", "features", "api", "examples", "contributing", "license"]

  /** `_getSectionName`: the first keyword found in the lower-cased heading
      text names the section. No heading text is ever named `title`. */
  function SectionName(headingText: string): (name: string)
    ensures name == "other" || (name in PreferredOrder && name != "title")
  {
    var text := Lower(headingText);
    if text == [] then "other"
    else if Contains(text, "description") || Contains(text, "about") then "description"
    else if Contains(text, "install") then "installation"
    else if Contains(text, "usage") || Contains(text, "how to use") then "usage"
    else if Contains(text, "feature") then "features"
    else if Contains(text, "api") then "api"
    else if Contains(text, "example") then "examples"
    else if Contains(text, "contribut") then "contributing"
    else if Contains(text, "license") then "license"
    else "other"
  }

  /** One key of the `sections` object and its array, in insertion order. */
  datatype Section = Section(name: string, elems: seq<Element>)

  predicate DistinctNames(sections: seq<Section>) {
    forall i, j :: 0 <= i < j < |sections| ==> sections[i].name != sections[j].name
  }

  function Names(sections: seq<Section>): set<string> {
    set i | 0 <= i < |sections| :: sections[i].name
  }

  /** The elements of all sections, in key order. */
  function AllElems(sections: seq<Section>): seq<Element> {
    if sections == [] then [] else sections[0].elems + AllElems(sections[1..])
  }

  /** `sections[name] = (sections[name] || []).concat(elems)` */
  function Merge(sections: seq<Section>, name: string, elems: seq<Element>): seq<Section> {
    if sections == [] then [Section(name, elems)]
    else if sections[0].name == name then [sections[0].(elems := sections[0].elems + elems)] + sections[1..]
    else [sections[0]] + Merge(sections[1..], name, elems)
  }

  /** The `flush` closure: a non-empty run is added to its section. */
  function Flush(sections: seq<Section>, name: string, current: seq<Element>): seq<Section> {
    if current != [] then Merge(sections, name, current) else sections
  }

  /** The variables of `_groupSections` between elements. */
  datatype Grouping = Grouping(sections: seq<Section>, currentName: string, current: seq<Element>)

  /** A heading flushes the run so far and starts a run under its own name. */
  function GroupStep(g: Grouping, el: Element): Grouping {
    if el.tag == Heading then
      Grouping(Flush(g.sections, g.currentName, g.current), SectionName(ContentText(el.content)), [el])
    else g.(current := g.current + [el])
  }

  function GroupPrefix(els: seq<Element>): Grouping {
    if els == [] then Grouping([], "other", [])
    else GroupStep(GroupPrefix(els[..|els| - 1]), els[|els| - 1])
  }

  function Grouped(els: seq<Element>): seq<Section> {
    var g := GroupPrefix(els);
    Flush(g.sections, g.currentName, g.current)
  }

  /** `_groupSections` */
  method GroupSections(elements: seq<Element>) returns (sections: seq<Section>)
    ensures sections == Grouped(elements)
  {
    sections := [];
    var currentName := "other";
    var current: seq<Element> := [];
    for i := 0 to |elements|
      invariant GroupPrefix(elements[..i]) == Grouping(sections, currentName, current)
    {
      var el := elements[i];
      if el.tag == Heading {
        sections := Flush(sections, currentName, current);
        current := [];
        currentName := SectionName(ContentText(el.content));
        current := current + [el];
      } else {
        current := current + [el];
      }
      assert elements[..i + 1][..i] == elements[..i];
    }
    assert elements[..|elements|] == elements;
    sections := Flush(sections, currentName, current);
  }

  lemma {:induction false} MergeKeeps(sections: seq<Section>, name: string, elems: seq<Element>)
    ensures multiset(AllElems(Merge(sections, name, elems))) == multiset(AllElems(sections)) + multiset(elems)
    decreases |sections|
  {
    var m := Merge(sections, name, elems);
    if sections == [] {
      assert m[1..] == [];
    } else if sections[0].name == name {
      assert m[1..] == sections[1..];
    } else {
      MergeKeeps(sections[1..], name, elems);
      assert m[1..] == Merge(sections[1..], name, elems);
    }
  }

  lemma {:induction false} MergeNames(sections: seq<Section>, name: string, elems: seq<Element>)
    ensures Names(Merge(sections, name, elems)) == Names(sections) + {name}
    ensures DistinctNames(sections) ==> DistinctNames(Merge(sections, name, elems))
    decreases |sections|
  {
    var m := Merge(sections, name, elems);
    if sections == [] {
      assert m == [Section(name, elems)];
      NamesCons(Section(name, elems), []);
    } else if sections[0].name == name {
      assert forall i :: 0 <= i < |m| ==> m[i].name == sections[i].name;
      assert Names(m) == Names(sections);
      assert sections[0].name in Names(sections);
    } else {
      var rest := sections[1..];
      var mr := Merge(rest, name, elems);
      MergeNames(rest, name, elems);
      assert m == [sections[0]] + mr;
      NamesCons(sections[0], mr);
      assert sections == [sections[0]] + rest;
      NamesCons(sections[0], rest);
      if DistinctNames(sections) {
        forall j | 0 <= j < |rest|
          ensures rest[j].name != sections[0].name
        {
          assert sections[j + 1] == rest[j];
        }
        DistinctCons(sections[0], mr);
      }
    }
  }

  lemma NamesCons(s: Section, rest: seq<Section>)
    ensures Names([s] + rest) == {s.name} + Names(rest)
  {
    var all := [s] + rest;
    forall n | n in Names(all) ensures n in {s.name} + Names(rest) {
      var i :| 0 <= i < |all| && all[i].name == n;
      if i > 0 { assert all[i] == rest[i - 1]; }
    }
    forall n | n in Names(rest) ensures n in Names(all) {
      var i :| 0 <= i < |rest| && rest[i].name == n;
      assert all[i + 1] == rest[i];
    }
    assert all[0] == s;
  }

  lemma DistinctCons(s: Section, rest: seq<Section>)
    requires DistinctNames(rest) && s.name !in Names(rest)
    ensures DistinctNames([s] + rest)
  {
    var all := [s] + rest;
    forall i, j | 0 <= i < j < |all| ensures all[i].name != all[j].name {
      assert all[j] == rest[j - 1];
      if i > 0 { assert all[i] == rest[i - 1]; }
    }
  }

  /** The grouping state: what has been flushed and the open run together
      hold exactly the elements read, section names are unique, and no
      section is named `title`. */
  predicate GroupingHolds(g: Grouping, els: seq<Element>) {
    multiset(AllElems(g.sections)) + multiset(g.current) == multiset(els) &&
    DistinctNames(g.sections) && "title" !in Names(g.sections) && g.currentName != "title"
  }

  lemma {:induction false} GroupPrefixHolds(els: seq<Element>)
    ensures GroupingHolds(GroupPrefix(els), els)
  {
    if els != [] {
      var init := els[..|els| - 1];
      GroupPrefixHolds(init);
      var g := GroupPrefix(init);
      var el := els[|els| - 1];
      assert els == init + [el];
      GroupStepHolds(g, el, init);
    }
  }

  lemma GroupStepHolds(g: Grouping, el: Element, init: seq<Element>)
    requires GroupingHolds(g, init)
    ensures GroupingHolds(GroupStep(g, el), init + [el])
  {
    if el.tag != Heading {
      assert multiset(g.current + [el]) == multiset(g.current) + multiset{el};
    } else if g.current != [] {
      MergeKeeps(g.sections, g.currentName, g.current);
      MergeNames(g.sections, g.currentName, g.current);
    }
    var name := SectionName(ContentText(el.content));
    assert name != "title";
  }

  /** `_groupSections` neither loses nor invents elements, gives each name
      one key, and never produces the key `title`. */
  lemma GroupedKeeps(els: seq<Element>)
    ensures multiset(AllElems(Grouped(els))) == multiset(els)
    ensures DistinctNames(Grouped(els)) && "title" !in Names(Grouped(els))
  {
    GroupPrefixHolds(els);
    var g := GroupPrefix(els);
    if g.current != [] {
      MergeKeeps(g.sections, g.currentName, g.current);
      MergeNames(g.sections, g.currentName, g.current);
    }
  }

  /** `sections[name]`: the array under a key, if the key is present. */
  function Lookup(sections: seq<Section>, name: string): Option<seq<Element>> {
    if sections == [] then None
    else if sections[0].name == name then Some(sections[0].elems)
    else Lookup(sections[1..], name)
  }

  /** The first loop of `_sortSections`, over the first names of `order`. */
  function Preferred(sections: seq<Section>, order: seq<string>): seq<Element> {
    if order == [] then []
    else
      var found := Lookup(sections, order[|order| - 1]);
      Preferred(sections, order[..|order| - 1]) + (if found.Some? then found.value else [])
  }

  /** The second loop of `_sortSections`: the sections whose name is not preferred. */
  function Others(sections: seq<Section>): seq<Element> {
    if sections == [] then []
    else (if sections[0].name in PreferredOrder then [] else sections[0].elems) + Others(sections[1..])
  }

  function Sorted(els: seq<Element>): seq<Element> {
    var sections := Grouped(els);
    Preferred(sections, PreferredOrder) + Others(sections)
  }

  /** `_sortSections` */
  method SortSections(elements: seq<Element>) returns (sorted: seq<Element>)
    ensures sorted == Sorted(elements)
  {
    var sections := GroupSections(elements);
    sorted := TakePreferred(sections);
    sorted := TakeOthers(sections, sorted);
  }

  /** The first loop of `_sortSections`: the sections named in the preferred
      order, in that order. */
  method TakePreferred(sections: seq<Section>) returns (sorted: seq<Element>)
    ensures sorted == Preferred(sections, PreferredOrder)
  {
    sorted := [];
    for k := 0 to |PreferredOrder|
      invariant sorted == Preferred(sections, PreferredOrder[..k])
    {
      var name := PreferredOrder[k];
      var found := Lookup(sections, name);
      PreferredStep(sections, PreferredOrder, k);
      if found.Some? {
        sorted := sorted + found.value;
      }
    }
    assert PreferredOrder[..|PreferredOrder|] == PreferredOrder;
  }

  /** The second loop of `_sortSections`: the other sections, in their order. */
  method TakeOthers(sections: seq<Section>, head: seq<Element>) returns (sorted: seq<Element>)
    ensures sorted == head + Others(sections)
  {
    sorted := head;
    for k := 0 to |sections|
      invariant sorted == head + Others(sections[..k])
    {
      OthersSnoc(sections[..k], sections[k]);
      assert sections[..k + 1] == sections[..k] + [sections[k]];
      if sections[k].name !in PreferredOrder {
        sorted := sorted + sections[k].elems;
      }
    }
    assert sections[..|sections|] == sections;
  }

  lemma PreferredStep(sections: seq<Section>, order: seq<string>, k: nat)
    requires k < |order|
    ensures var found := Lookup(sections, order[k]);
      Preferred(sections, order[..k + 1]) ==
      Preferred(sections, order[..k]) + (if found.Some? then found.value else [])
  {
    assert order[..k + 1][..k] == order[..k];
  }

  lemma {:induction false} OthersSnoc(sections: seq<Section>, s: Section)
    ensures Others(sections + [s]) == Others(sections) + (if s.name in PreferredOrder then [] else s.elems)
    decreases |sections|
  {
    if sections == [] {
      assert ([s])[1..] == [];
    } else {
      assert (sections + [s])[1..] == sections[1..] + [s];
      OthersSnoc(sections[1..], s);
    }
  }

  predicate DistinctStrings(order: seq<string>) {
    forall i, j :: 0 <= i < j < |order| ==> order[i] != order[j]
  }

  lemma PreferredOrderDistinct()
    ensures DistinctStrings(PreferredOrder)
  {
  }

  lemma {:induction false} LookupAbsent(sections: seq<Section>, name: string)
    requires name !in Names(sections)
    ensures Lookup(sections, name) == None
    decreases |sections|
  {
    if sections != [] {
      assert sections[0].name in Names(sections);
      assert sections == [sections[0]] + sections[1..];
      NamesCons(sections[0], sections[1..]);
      LookupAbsent(sections[1..], name);
    }
  }

  /** With none of the names of `order` present, the first loop adds nothing. */
  lemma {:induction false} PreferredNone(sections: seq<Section>, order: seq<string>)
    requires forall i :: 0 <= i < |order| ==> Lookup(sections, order[i]) == None
    ensures Preferred(sections, order) == []
    decreases |order|
  {
    if order != [] {
      PreferredNone(sections, order[..|order| - 1]);
    }
  }

  /** Taking the first section out of the picture. */
  lemma {:induction false} PreferredCons(s: Section, rest: seq<Section>, order: seq<string>)
    requires s.name !in Names(rest) && DistinctStrings(order)
    ensures multiset(Preferred([s] + rest, order)) ==
      multiset(Preferred(rest, order)) + (if s.name in order then multiset(s.elems) else multiset{})
    decreases |order|
  {
    if order != [] {
      var init := order[..|order| - 1];
      var o := order[|order| - 1];
      assert order == init + [o];
      PreferredCons(s, rest, init);
      assert ([s] + rest)[1..] == rest;
      if o == s.name {
        LookupAbsent(rest, o);
        assert s.name !in init by {
          forall i | 0 <= i < |init| ensures init[i] != s.name {
            assert init[i] == order[i];
          }
        }
      }
    }
  }

  lemma {:induction false} SortKeeps(sections: seq<Section>)
    requires DistinctNames(sections)
    ensures multiset(Preferred(sections, PreferredOrder)) + multiset(Others(sections)) ==
      multiset(AllElems(sections))
    decreases |sections|
  {
    if sections == [] {
      PreferredNone(sections, PreferredOrder);
    } else {
      var s := sections[0];
      var rest := sections[1..];
      assert sections == [s] + rest;
      assert DistinctNames(rest) by {
        forall i, j | 0 <= i < j < |rest| ensures rest[i].name != rest[j].name {
          assert rest[i] == sections[i + 1] && rest[j] == sections[j + 1];
        }
      }
      forall j | 0 <= j < |rest|
        ensures rest[j].name != s.name
      {
        assert sections[j + 1] == rest[j];
      }
      SortKeeps(rest);
      PreferredOrderDistinct();
      PreferredCons(s, rest, PreferredOrder);
    }
  }

  /** `_sortSections` returns a permutation of its input. */
  lemma SortedPermutes(els: seq<Element>)
    ensures multiset(Sorted(els)) == multiset(els) && |Sorted(els)| == |els|
  {
    GroupedKeeps(els);
    SortKeeps(Grouped(els));
    assert |multiset(Sorted(els))| == |multiset(els)|;
  }

  /** No section is ever keyed `title`, so the first name of the preferred
      order never contributes anything. */
  lemma TitleNeverFound(els: seq<Element>)
    ensures Lookup(Grouped(els), "title") == None
  {
    GroupedKeeps(els);
    LookupAbsent(Grouped(els), "title");
  }

  lemma {:induction false} NoHeadingOneRun(els: seq<Element>)
    requires forall i :: 0 <= i < |els| ==> els[i].tag != Heading
    ensures GroupPrefix(els) == Grouping([], "other", els)
  {
    if els != [] {
      NoHeadingOneRun(els[..|els| - 1]);
      assert els == els[..|els| - 1] + [els[|els| - 1]];
    }
  }

  lemma OtherNotPreferred()
    ensures "other" !in PreferredOrder
  {
  }

  /** A lone section that is not preferred is output as it is. */
  lemma LoneSectionSorted(name: string, elems: seq<Element>)
    requires name !in PreferredOrder
    ensures Preferred([Section(name, elems)], PreferredOrder) + Others([Section(name, elems)]) == elems
  {
    var sections := [Section(name, elems)];
    assert sections[1..] == [];
    forall i | 0 <= i < |PreferredOrder|
      ensures Lookup(sections, PreferredOrder[i]) == None
    {
      assert PreferredOrder[i] != name;
    }
    PreferredNone(sections, PreferredOrder);
  }

  /** Without headings everything stays in one section and in its order. */
  lemma NoHeadingKeepsOrder(els: seq<Element>)
    requires forall i :: 0 <= i < |els| ==> els[i].tag != Heading
    ensures Sorted(els) == els
  {
    NoHeadingOneRun(els);
    if els == [] {
      PreferredNone([], PreferredOrder);
    } else {
      assert Grouped(els) == [Section("other", els)];
      OtherNotPreferred();
      LoneSectionSorted("other", els);
    }
  }

  // ---- Slugs ----

  /** `.replace(/[^\w\s-]/g, '')`: only word characters, whitespace and dashes stay. */
  function DropPunctuation(s: string): (r: string)
    ensures |r| <= |s|
  {
    if s == [] then []
    else (if IsWordChar(s[0]) || IsSpace(s[0]) || s[0] == '-' then [s[0]] else []) + DropPunctuation(s[1..])
  }

  /** The class `[\s_-]`. */
  predicate IsSeparator(c: char) {
    IsSpace(c) || c == '_' || c == '-'
  }

  /** Length of the run of separators that starts `s`. */
  function SeparatorRun(s: string): (n: nat)
    ensures n <= |s|
    ensures forall i :: 0 <= i < n ==> IsSeparator(s[i])
    ensures n < |s| ==> !IsSeparator(s[n])
  {
    if s == [] || !IsSeparator(s[0]) then 0 else 1 + SeparatorRun(s[1..])
  }

  /** `.replace(/[\s_-]+/g, '-')`: every maximal run of separators becomes one dash. */
  function CollapseSeparators(s: string): (r: string)
    ensures s != [] && !IsSeparator(s[0]) ==> r != [] && r[0] == s[0]
    ensures s != [] && IsSeparator(s[0]) ==> r != [] && r[0] == '-'
    decreases |s|
  {
    if s == [] then []
    else if IsSeparator(s[0]) then "-" + CollapseSeparators(s[SeparatorRun(s)..])
    else [s[0]] + CollapseSeparators(s[1..])
  }

  /** Number of dashes that start `s`. */
  function LeadingDashes(s: string): (n: nat)
    ensures n <= |s|
    ensures n < |s| ==> s[n] != '-'
  {
    if s == [] || s[0] != '-' then 0 else 1 + LeadingDashes(s[1..])
  }

  /** Number of dashes that end `s`. */
  function TrailingDashes(s: string): (n: nat)
    ensures n <= |s|
    ensures n < |s| ==> s[|s| - 1 - n] != '-'
  {
    if s == [] || s[|s| - 1] != '-' then 0 else 1 + TrailingDashes(s[..|s| - 1])
  }

  /** `.replace(/^-+|-+$/g, '')` */
  function TrimDashes(s: string): string {
    var t := s[LeadingDashes(s)..];
    t[..|t| - TrailingDashes(t)]
  }

  /** `_slugify` */
  function Slugify(text: string): string {
    TrimDashes(CollapseSeparators(DropPunctuation(Lower(text))))
  }

  predicate SlugChar(c: char) {
    IsLower(c) || IsDigit(c) || c == '-'
  }

  /** Lower-case letters, digits and single dashes, with no dash at either end. */
  predicate IsSlug(s: string) {
    (forall i :: 0 <= i < |s| ==> SlugChar(s[i])) &&
    (forall i :: 0 <= i < |s| - 1 ==> !(s[i] == '-' && s[i + 1] == '-')) &&
    (s == [] || (s[0] != '-' && s[|s| - 1] != '-'))
  }

  /** Characters that survive lower-casing and the first replacement. */
  predicate Kept(c: char) {
    IsLower(c) || IsDigit(c) || IsSeparator(c)
  }

  lemma {:induction false} DropPunctuationKeeps(s: string)
    requires forall i :: 0 <= i < |s| ==> !('A' <= s[i] <= 'Z')
    ensures forall i :: 0 <= i < |DropPunctuation(s)| ==> Kept(DropPunctuation(s)[i])
    decreases |s|
  {
    if s != [] {
      DropPunctuationKeeps(s[1..]);
    }
  }

  /** Letters, digits and single dashes. */
  predicate SingleDashed(r: string) {
    (forall i :: 0 <= i < |r| ==> SlugChar(r[i])) &&
    (forall i :: 0 <= i < |r| - 1 ==> !(r[i] == '-' && r[i + 1] == '-'))
  }

  /** Putting a character in front of a single-dashed text keeps it so,
      unless two dashes meet. */
  lemma ConsSingleDashed(c: char, t: string)
    requires SlugChar(c) && SingleDashed(t)
    requires c == '-' ==> t == [] || t[0] != '-'
    ensures SingleDashed([c] + t)
  {
    var r := [c] + t;
    forall i | 0 <= i < |r| ensures SlugChar(r[i]) {
      if i > 0 { assert r[i] == t[i - 1]; }
    }
    forall i | 0 <= i < |r| - 1 ensures !(r[i] == '-' && r[i + 1] == '-') {
      if i > 0 { assert r[i] == t[i - 1] && r[i + 1] == t[i]; }
    }
  }

  /** Collapsing leaves letters, digits and single dashes. */
  lemma {:induction false} CollapseShape(s: string)
    requires forall i :: 0 <= i < |s| ==> Kept(s[i])
    ensures SingleDashed(CollapseSeparators(s))
    decreases |s|
  {
    if s != [] {
      if IsSeparator(s[0]) {
        var rest := s[SeparatorRun(s)..];
        CollapseShape(rest);
        var t := CollapseSeparators(rest);
        if t != [] {
          assert rest[0] == s[SeparatorRun(s)];
        }
        ConsSingleDashed('-', t);
        assert CollapseSeparators(s) == ['-'] + t;
      } else {
        CollapseShape(s[1..]);
        ConsSingleDashed(s[0], CollapseSeparators(s[1..]));
      }
    }
  }

  lemma TrimDashesShape(s: string)
    requires SingleDashed(s)
    ensures IsSlug(TrimDashes(s))
  {
    var a := LeadingDashes(s);
    var t := s[a..];
    var r := t[..|t| - TrailingDashes(t)];
    assert forall i :: 0 <= i < |r| ==> r[i] == s[a + i];
    if r != [] {
      assert r[0] == t[0];
    }
  }

  /** `_slugify` yields lower-case letters, digits and single dashes, with no
      dash at either end. */
  lemma SlugifyIsSlug(text: string)
    ensures IsSlug(Slugify(text))
  {
    var low := Lower(text);
    DropPunctuationKeeps(low);
    CollapseShape(DropPunctuation(low));
    TrimDashesShape(CollapseSeparators(DropPunctuation(low)));
  }

  lemma {:induction false} LowerOfSlug(s: string)
    requires forall i :: 0 <= i < |s| ==> SlugChar(s[i])
    ensures Lower(s) == s
  {
  }

  lemma {:induction false} DropPunctuationOfSlug(s: string)
    requires forall i :: 0 <= i < |s| ==> SlugChar(s[i])
    ensures DropPunctuation(s) == s
    decreases |s|
  {
    if s != [] {
      DropPunctuationOfSlug(s[1..]);
    }
  }

  lemma {:induction false} CollapseOfSlug(s: string)
    requires forall i :: 0 <= i < |s| ==> SlugChar(s[i])
    requires forall i :: 0 <= i < |s| - 1 ==> !(s[i] == '-' && s[i + 1] == '-')
    ensures CollapseSeparators(s) == s
    decreases |s|
  {
    if s != [] {
      if IsSeparator(s[0]) {
        assert SeparatorRun(s) == 1 by {
          if |s| > 1 { assert !IsSeparator(s[1]); }
        }
      }
      CollapseOfSlug(s[1..]);
    }
  }

  /** A slug is its own slug, so `_slugify` is idempotent. */
  lemma SlugifyOfSlug(s: string)
    requires IsSlug(s)
    ensures Slugify(s) == s
  {
    LowerOfSlug(s);
    DropPunctuationOfSlug(s);
    CollapseOfSlug(s);
    assert LeadingDashes(s) == 0;
    assert TrailingDashes(s) == 0;
  }

  lemma SlugifyIdempotent(text: string)
    ensures Slugify(Slugify(text)) == Slugify(text)
  {
    SlugifyIsSlug(text);
    SlugifyOfSlug(Slugify(text));
  }

  // ---- Table of contents ----

  /** An entry `{ level, text }` of `_generateTableOfContents`. */
  datatype TocEntry = TocEntry(level: nat, text: string)

  /** `el.level || 1` */
  function HeadingLevel(el: Element): (n: nat)
    ensures n >= 1 && (TruthyNat(el.level) ==> n == el.level.value)
  {
    if TruthyNat(el.level) then el.level.value else 1
  }

  /** A heading with string content below the first level gets an entry. */
  predicate InToc(el: Element) {
    el.tag == Heading && el.content.Text? && HeadingLevel(el) > 1
  }

  function EntryOf(el: Element): TocEntry
    requires el.content.Text?
  {
    TocEntry(HeadingLevel(el), el.content.text)
  }

  /** The entries `_generateTableOfContents` collects, in document order. */
  function TocEntries(els: seq<Element>): (toc: seq<TocEntry>)
    ensures |toc| <= |els|
    ensures forall k :: 0 <= k < |toc| ==> toc[k].level > 1
  {
    if els == [] then []
    else
      var el := els[|els| - 1];
      TocEntries(els[..|els| - 1]) + (if InToc(el) then [EntryOf(el)] else [])
  }

  /** `_generateTableOfContents` */
  method GenerateTableOfContents(elements: seq<Element>) returns (toc: seq<TocEntry>)
    ensures toc == TocEntries(elements)
  {
    toc := [];
    for i := 0 to |elements|
      invariant toc == TocEntries(elements[..i])
    {
      var el := elements[i];
      assert elements[..i + 1][..i] == elements[..i];
      if el.tag == Heading && el.content.Text? {
        var level := if TruthyNat(el.level) then el.level.value else 1;
        if level > 1 {
          toc := toc + [TocEntry(level, el.content.text)];
        }
      }
    }
    assert elements[..|elements|] == elements;
  }

  predicate FromHeading(els: seq<Element>, entry: TocEntry) {
    exists i :: 0 <= i < |els| && InToc(els[i]) && entry == EntryOf(els[i])
  }

  /** Every entry comes from a qualifying heading, and every qualifying
      heading has its entry. */
  lemma TocEntriesExact(els: seq<Element>)
    ensures forall k :: 0 <= k < |TocEntries(els)| ==> FromHeading(els, TocEntries(els)[k])
    ensures forall i :: 0 <= i < |els| && InToc(els[i]) ==> EntryOf(els[i]) in TocEntries(els)
  {
    TocEntriesFromHeadings(els);
    TocEntriesCover(els);
  }

  lemma {:induction false} TocEntriesFromHeadings(els: seq<Element>)
    ensures forall k :: 0 <= k < |TocEntries(els)| ==> FromHeading(els, TocEntries(els)[k])
  {
    if els != [] {
      var init := els[..|els| - 1];
      TocEntriesFromHeadings(init);
      var toc := TocEntries(els);
      var last := els[|els| - 1];
      assert toc == TocEntries(init) + (if InToc(last) then [EntryOf(last)] else []);
      forall k | 0 <= k < |toc|
        ensures FromHeading(els, toc[k])
      {
        if k < |TocEntries(init)| {
          assert FromHeading(init, TocEntries(init)[k]);
          var i :| 0 <= i < |init| && InToc(init[i]) && TocEntries(init)[k] == EntryOf(init[i]);
          assert els[i] == init[i];
        } else {
          assert InToc(els[|els| - 1]) && toc[k] == EntryOf(els[|els| - 1]);
        }
      }
    }
  }

  lemma {:induction false} TocEntriesCover(els: seq<Element>)
    ensures forall i :: 0 <= i < |els| && InToc(els[i]) ==> EntryOf(els[i]) in TocEntries(els)
  {
    if els != [] {
      var init := els[..|els| - 1];
      TocEntriesCover(init);
      var toc := TocEntries(els);
      var last := els[|els| - 1];
      assert toc == TocEntries(init) + (if InToc(last) then [EntryOf(last)] else []);
      forall i | 0 <= i < |els| && InToc(els[i])
        ensures EntryOf(els[i]) in toc
      {
        if i < |init| {
          assert els[i] == init[i];
          assert EntryOf(init[i]) in TocEntries(init);
        }
      }
    }
  }

  /** No entries exactly when no heading qualifies. */
  lemma TocEntriesEmpty(els: seq<Element>)
    ensures TocEntries(els) == [] <==> forall i :: 0 <= i < |els| ==> !InToc(els[i])
  {
    TocEntriesExact(els);
    if TocEntries(els) != [] {
      assert TocEntries(els)[0] in TocEntries(els);
    }
  }

  /** The list item that links an entry to its anchor; level 0 is stored as
      an absent level. */
  function TocItem(entry: TocEntry): Element {
    New(ListItem, Text("[" + entry.text + "](#" + Slugify(entry.text) + ")"),
      NoMeta.(level := Some(0), marker := Some("-")))
  }

  function TocItems(toc: seq<TocEntry>): (items: seq<Element>)
    ensures |items| == |toc|
    ensures forall k :: 0 <= k < |toc| ==> items[k] == TocItem(toc[k])
  {
    seq(|toc|, k requires 0 <= k < |toc| => TocItem(toc[k]))
  }

  const TocHeading := New(Heading, Text("Table of Contents"), LevelMeta(2))

  /** A level-1 or level-2 heading at the start stays in front of the table. */
  predicate KeepsTitle(els: seq<Element>) {
    |els| > 0 && els[0].tag == Heading && (els[0].level == Some(1) || els[0].level == Some(2))
  }

  /** What `_addTableOfContents` returns. */
  function WithToc(els: seq<Element>): seq<Element> {
    var toc := TocEntries(els);
    if toc == [] then els else InsertToc(els, TocItems(toc))
  }

  /** The document with the table made of `items` put in front, after the
      title when there is one. */
  function InsertToc(els: seq<Element>, items: seq<Element>): seq<Element> {
    if KeepsTitle(els) then
      [els[0], SpacingBreak, TocHeading, SpacingBreak] + items + [SpacingBreak] + els[1..]
    else
      [TocHeading, SpacingBreak] + items + [SpacingBreak] + els
  }

  /** `_addTableOfContents` */
  method AddTableOfContents(elements: seq<Element>) returns (result: seq<Element>)
    ensures result == WithToc(elements)
  {
    var tocItems := GenerateTableOfContents(elements);
    if tocItems == [] {
      return elements;
    }
    result := [];
    var index := 0;
    if |elements| > 0 && elements[0].tag == Heading && (elements[0].level == Some(1) || elements[0].level == Some(2)) {
      result := result + [elements[0]];
      result := result + [New(Break, Text(""), NoMeta)];
      index := 1;
    }
    result := result + [New(Heading, Text("Table of Contents"), LevelMeta(2))];
    result := result + [New(Break, Text(""), NoMeta)];
    assert result == if KeepsTitle(elements) then [elements[0], SpacingBreak, TocHeading, SpacingBreak]
      else [TocHeading, SpacingBreak];
    result := AppendLinks(result, tocItems);
    result := result + [New(Break, Text(""), NoMeta)];
    result := result + elements[index..];
    assert result == InsertToc(elements, TocItems(tocItems));
  }

  /** The loop of `_addTableOfContents` that pushes one link item per entry. */
  method AppendLinks(head: seq<Element>, tocItems: seq<TocEntry>) returns (result: seq<Element>)
    ensures result == head + TocItems(tocItems)
  {
    result := head;
    for k := 0 to |tocItems|
      invariant result == head + TocItems(tocItems[..k])
    {
      var item := tocItems[k];
      var text := "[" + item.text + "](#" + Slugify(item.text) + ")";
      result := result + [New(ListItem, Text(text), NoMeta.(level := Some(0), marker := Some("-")))];
      TocItemsSnoc(tocItems, k);
    }
    assert tocItems[..|tocItems|] == tocItems;
  }

  lemma TocItemsSnoc(toc: seq<TocEntry>, k: nat)
    requires k < |toc|
    ensures TocItems(toc[..k + 1]) == TocItems(toc[..k]) + [TocItem(toc[k])]
  {
    assert toc[..k + 1] == toc[..k] + [toc[k]];
  }

  /** `_hasTableOfContents`: some heading with string content mentions a
      table of contents, in any letter case. */
  predicate HasTableOfContents(els: seq<Element>) {
    exists i :: 0 <= i < |els| && TocHeadingAt(els, i)
  }

  predicate TocHeadingAt(els: seq<Element>, i: nat)
    requires i < |els|
  {
    els[i].tag == Heading && els[i].content.Text? && Contains(Lower(els[i].content.text), "table of contents")
  }

  /** `_addTableOfContents` leaves a document without qualifying headings alone. */
  lemma NoDeepHeadingNoToc(els: seq<Element>)
    requires forall i :: 0 <= i < |els| ==> !InToc(els[i])
    ensures WithToc(els) == els
  {
    TocEntriesEmpty(els);
  }

  /** Where the table heading, the links and the document land when the
      document does not start with a title. */
  lemma TocLayout(els: seq<Element>, items: seq<Element>)
    requires !KeepsTitle(els)
    ensures var r, n := InsertToc(els, items), |items|;
      |r| == |els| + n + 3 &&
      r[0] == TocHeading && r[1] == SpacingBreak &&
      r[2..2 + n] == items && r[2 + n] == SpacingBreak && r[3 + n..] == els
  {
    ConcatLayout([TocHeading, SpacingBreak], items, SpacingBreak, els);
  }

  /** The same when a level-1 or level-2 heading opens the document: it stays
      first, followed by a break. */
  lemma TocLayoutTitled(els: seq<Element>, items: seq<Element>)
    requires KeepsTitle(els)
    ensures var r, n := InsertToc(els, items), |items|;
      |r| == |els| + n + 4 &&
      r[0] == els[0] && r[1] == SpacingBreak && r[2] == TocHeading && r[3] == SpacingBreak &&
      r[4..4 + n] == items && r[4 + n] == SpacingBreak && r[5 + n..] == els[1..]
  {
    ConcatLayout([els[0], SpacingBreak, TocHeading, SpacingBreak], items, SpacingBreak, els[1..]);
  }

  lemma ConcatLayout<T>(front: seq<T>, mid: seq<T>, x: T, rest: seq<T>)
    ensures var r := front + mid + [x] + rest;
      |r| == |front| + |mid| + 1 + |rest| &&
      (forall k :: 0 <= k < |front| ==> r[k] == front[k]) &&
      r[|front|..|front| + |mid|] == mid &&
      r[|front| + |mid|] == x && r[|front| + |mid| + 1..] == rest
  {
    var r := front + mid + [x] + rest;
    assert r[|front|..|front| + |mid|] == mid;
    assert r[|front| + |mid| + 1..] == rest;
  }

  /** Each link is a top-level `-` item whose anchor is a slug; its level 0
      is stored as an absent level. */
  lemma TocItemShape(entry: TocEntry)
    ensures var item := TocItem(entry);
      item.tag == ListItem && item.marker == Some("-") && item.level.None? &&
      item.content == Text("[" + entry.text + "](#" + Slugify(entry.text) + ")")
    ensures IsSlug(Slugify(entry.text))
  {
    SlugifyIsSlug(entry.text);
  }

  lemma LowerIs(text: string, goal: string)
    requires |text| == |goal| && forall i :: 0 <= i < |text| ==> LowerChar(text[i]) == goal[i]
    ensures Lower(text) == goal
  {
  }

  /** The heading `_addTableOfContents` inserts, lower-cased, is the phrase
      `_hasTableOfContents` looks for. */
  lemma LowerTocTitle(text: string, goal: string)
    requires text == "Table of Contents" && goal == "table of contents"
    ensures Lower(text) == goal
  {
    assert text[0] == 'T' && goal[0] == 't';
    assert text[9] == 'C' && goal[9] == 'c';
    assert forall i :: 0 <= i < |text| && i != 0 && i != 9 ==> text[i] == goal[i] && !('A' <= text[i] <= 'Z');
    LowerIs(text, goal);
  }

  lemma TocTitleMentionsToc(text: string, goal: string)
    requires text == "Table of Contents" && goal == "table of contents"
    ensures Contains(Lower(text), goal)
  {
    LowerTocTitle(text, goal);
    assert StartsWith(goal, goal);
  }

  /** Once a table is inserted, `_hasTableOfContents` sees it. */
  lemma WithTocHasToc(els: seq<Element>)
    requires TocEntries(els) != []
    ensures HasTableOfContents(WithToc(els))
  {
    TocTitleMentionsToc(TocHeading.content.text, "table of contents");
    var r := WithToc(els);
    assert r == InsertToc(els, TocItems(TocEntries(els)));
    if KeepsTitle(els) {
      TocLayoutTitled(els, TocItems(TocEntries(els)));
      assert TocHeadingAt(r, 2);
    } else {
      TocLayout(els, TocItems(TocEntries(els)));
      assert TocHeadingAt(r, 0);
    }
  }

  /** The last stage of `format`: a table is added unless one is present. */
  function TocStep(els: seq<Element>): seq<Element> {
    if HasTableOfContents(els) then els else WithToc(els)
  }

  /** The table-of-contents stage never adds a second table. */
  lemma TocStepIdempotent(els: seq<Element>)
    ensures TocStep(TocStep(els)) == TocStep(els)
  {
    if !HasTableOfContents(els) && TocEntries(els) != [] {
      WithTocHasToc(els);
    }
  }

  /** After the stage there is a table exactly when there was one before or
      some heading below the first level qualifies. */
  lemma TocStepHasToc(els: seq<Element>)
    ensures HasTableOfContents(TocStep(els)) <==>
      HasTableOfContents(els) || exists i :: 0 <= i < |els| && InToc(els[i])
  {
    TocEntriesEmpty(els);
    if !HasTableOfContents(els) && TocEntries(els) != [] {
      WithTocHasToc(els);
    }
  }

  // ---- Statistics ----

  /** The counters `getFormattingStats` returns. */
  datatype Stats = Stats(totalLines: nat, longLines: nat, inconsistentMarkers: nat, missingSpacing: nat)

  /** The lines of a paragraph with string content; nothing for any other element. */
  function ParagraphLines(el: Element): seq<string> {
    if el.tag == Paragraph && el.content.Text? then Split(el.content.text, '\n') else []
  }

  /** How many of `lines` are longer than `maxLength`. */
  function CountLong(lines: seq<string>, maxLength: int): (n: nat)
    ensures n <= |lines|
  {
    if lines == [] then 0
    else CountLong(lines[..|lines| - 1], maxLength) + (if |lines[|lines| - 1]| > maxLength then 1 else 0)
  }

  /** A list item whose marker is neither `-` nor an ordinal (`\d+\.`);
      an absent marker prints as `null` and is counted. */
  predicate InconsistentMarker(el: Element) {
    el.tag == ListItem && el.marker != Some("-") &&
    !(el.marker.Some? && ListItemBuilder.IsOrdinal(el.marker.value))
  }

  /** The element at `i` has a successor, spacing would be added between
      them, and the successor is not a break. */
  predicate MissingGap(els: seq<Element>, i: nat)
    requires i < |els|
  {
    i + 1 < |els| && !ShouldNotAddSpacing(els[i], els[i + 1]) && els[i + 1].tag != Break
  }

  function Bit(b: bool): nat { if b then 1 else 0 }

  /** The lines `getFormattingStats` looks at, element by element. */
  function LinesOf(els: seq<Element>): (r: seq<seq<string>>)
    ensures |r| == |els|
  {
    seq(|els|, i requires 0 <= i < |els| => ParagraphLines(els[i]))
  }

  /** The line and long-line counters after the first `n` elements, over the
      lines of each element. */
  function LinesUpTo(lists: seq<seq<string>>, n: nat): nat
    requires n <= |lists|
  {
    if n == 0 then 0 else LinesUpTo(lists, n - 1) + |lists[n - 1]|
  }

  function LongUpTo(lists: seq<seq<string>>, maxLength: int, n: nat): nat
    requires n <= |lists|
  {
    if n == 0 then 0 else LongUpTo(lists, maxLength, n - 1) + CountLong(lists[n - 1], maxLength)
  }

  /** The other two counters after the first `n` rounds. */
  function MarkersUpTo(els: seq<Element>, n: nat): nat
    requires n <= |els|
  {
    if n == 0 then 0 else MarkersUpTo(els, n - 1) + Bit(InconsistentMarker(els[n - 1]))
  }

  function GapsUpTo(els: seq<Element>, n: nat): nat
    requires n <= |els|
  {
    if n == 0 then 0 else GapsUpTo(els, n - 1) + Bit(MissingGap(els, n - 1))
  }

  function FormattingStats(els: seq<Element>, maxLength: int): Stats {
    var lists := LinesOf(els);
    Stats(LinesUpTo(lists, |els|), LongUpTo(lists, maxLength, |els|), MarkersUpTo(els, |els|), GapsUpTo(els, |els|))
  }

  /** The inner loop of `getFormattingStats` over one paragraph's lines. */
  method CountLongLines(lines: seq<string>, maxLength: int) returns (n: nat)
    ensures n == CountLong(lines, maxLength)
  {
    n := 0;
    for j := 0 to |lines|
      invariant n == CountLong(lines[..j], maxLength)
    {
      assert lines[..j + 1][..j] == lines[..j];
      if |lines[j]| > maxLength {
        n := n + 1;
      }
    }
    assert lines[..|lines|] == lines;
  }

  /** `getFormattingStats`, with the limit taken from the options. */
  method GetFormattingStats(opts: Options, elements: seq<Element>) returns (stats: Stats)
    ensures stats == FormattingStats(elements, opts.maxLineLength)
  {
    ghost var lists := LinesOf(elements);
    var totalLines, longLines, inconsistentMarkers, missingSpacing := 0, 0, 0, 0;
    for i := 0 to |elements|
      invariant totalLines == LinesUpTo(lists, i)
      invariant longLines == LongUpTo(lists, opts.maxLineLength, i)
      invariant inconsistentMarkers == MarkersUpTo(elements, i)
      invariant missingSpacing == GapsUpTo(elements, i)
    {
      var el := elements[i];
      assert lists[i] == ParagraphLines(el);
      assert MarkersUpTo(elements, i + 1) == inconsistentMarkers + Bit(InconsistentMarker(el));
      assert GapsUpTo(elements, i + 1) == missingSpacing + Bit(MissingGap(elements, i));
      if el.tag == Paragraph && el.content.Text? {
        var lines := Split(el.content.text, '\n');
        totalLines := totalLines + |lines|;
        var long := CountLongLines(lines, opts.maxLineLength);
        longLines := longLines + long;
      }
      if el.tag == ListItem {
        if el.marker != Some("-") && !(el.marker.Some? && ListItemBuilder.IsOrdinal(el.marker.value)) {
          inconsistentMarkers := inconsistentMarkers + 1;
        }
      }
      if i + 1 < |elements| && !ShouldNotAddSpacing(el, elements[i + 1]) {
        if elements[i + 1].tag != Break {
          missingSpacing := missingSpacing + 1;
        }
      }
    }
    stats := Stats(totalLines, longLines, inconsistentMarkers, missingSpacing);
  }

  /** Long lines are among the lines. */
  lemma {:induction false} LongAmongLines(lists: seq<seq<string>>, maxLength: int, n: nat)
    requires n <= |lists|
    ensures LongUpTo(lists, maxLength, n) <= LinesUpTo(lists, n)
  {
    if n > 0 {
      LongAmongLines(lists, maxLength, n - 1);
    }
  }

  /** Each element adds at most one inconsistent marker and one missing
      spacing, and the last element has no successor to miss spacing before. */
  lemma {:induction false} CountsBounded(els: seq<Element>, n: nat)
    requires n <= |els|
    ensures MarkersUpTo(els, n) <= n
    ensures GapsUpTo(els, n) <= (if n == |els| && n > 0 then n - 1 else n)
  {
    if n > 0 {
      CountsBounded(els, n - 1);
    }
  }

  lemma StatsBounds(els: seq<Element>, maxLength: int)
    ensures var s := FormattingStats(els, maxLength);
      s.longLines <= s.totalLines && s.inconsistentMarkers <= |els| &&
      (els != [] ==> s.missingSpacing < |els|)
  {
    LongAmongLines(LinesOf(els), maxLength, |els|);
    CountsBounded(els, |els|);
  }

  /** The marker counter is zero exactly when no item is counted. */
  lemma {:induction false} MarkersZero(els: seq<Element>, n: nat)
    requires n <= |els|
    ensures MarkersUpTo(els, n) == 0 <==> forall i :: 0 <= i < n ==> !InconsistentMarker(els[i])
  {
    if n > 0 {
      MarkersZero(els, n - 1);
    }
  }

  /** The spacing counter is zero exactly when no pair is counted. */
  lemma {:induction false} GapsZero(els: seq<Element>, n: nat)
    requires n <= |els|
    ensures GapsUpTo(els, n) == 0 <==> forall i :: 0 <= i < n ==> !MissingGap(els, i)
  {
    if n > 0 {
      GapsZero(els, n - 1);
    }
  }

  /** After `_normalizeListMarkers`, items whose markers the list parser
      accepts are all consistent. */
  lemma NormalizedMarkersConsistent(els: seq<Element>, maxLength: int)
    requires forall i :: 0 <= i < |els| && els[i].tag == ListItem ==>
      els[i].marker.Some? && ListItemBuilder.IsMarker(els[i].marker.value)
    ensures FormattingStats(NormalizeListMarkers(els), maxLength).inconsistentMarkers == 0
  {
    var r := NormalizeListMarkers(els);
    forall i | 0 <= i < |r|
      ensures !InconsistentMarker(r[i])
    {
      if els[i].tag == ListItem {
        var m := els[i].marker.value;
        if ListItemBuilder.IsOrdinal(m) {
          assert r[i].marker == Some(m);
        }
      }
    }
    MarkersZero(r, |r|);
  }

  /** `getFormattingStats` as written counts the spacing break it would itself
      insert: two paragraphs separated by a break still report one missing
      spacing, between the break and the second paragraph. */
  lemma SpacedParagraphsReportGap(p: Element, q: Element, maxLength: int)
    requires p.tag == Paragraph && q.tag == Paragraph
    ensures Spaced([p, q]) == [p, SpacingBreak, q]
    ensures FormattingStats(Spaced([p, q]), maxLength).missingSpacing == 1
  {
    var els := [p, q];
    assert SpacedPrefix(els, 1) == [p, SpacingBreak];
    var s := Spaced(els);
    assert s == [p, SpacingBreak, q];
    assert !MissingGap(s, 0) && MissingGap(s, 1) && !MissingGap(s, 2);
    assert GapsUpTo(s, 1) == 0;
    assert GapsUpTo(s, 2) == 1;
  }

  /** Spacing is missing between `x` and `y` when neither is a break and
      `_normalizeSpacing` would separate them. */
  predicate GapBetween(x: Element, y: Element) {
    x.tag != Break && y.tag != Break && !ShouldNotAddSpacing(x, y)
  }

  predicate NoGaps(s: seq<Element>) {
    forall q :: 0 <= q < |s| - 1 ==> !GapBetween(s[q], s[q + 1])
  }

  /** No break is due after the element at `i`. */
  predicate Adjacent(els: seq<Element>, i: nat)
    requires i < |els|
  {
    i + 1 < |els| ==> ShouldNotAddSpacing(els[i], els[i + 1])
  }

  /** What follows the last element placed so far needs no spacing of its own. */
  predicate OpenEnd(els: seq<Element>, n: nat)
    requires n <= |els|
  {
    var s := SpacedPrefix(els, n);
    n > 0 ==> s != [] && (s[|s| - 1].tag == Break || (s[|s| - 1] == els[n - 1] && Adjacent(els, n - 1)))
  }

  lemma NoGapsSnoc(s: seq<Element>, x: Element)
    requires NoGaps(s) && (s != [] ==> !GapBetween(s[|s| - 1], x))
    ensures NoGaps(s + [x])
  {
    var t := s + [x];
    forall q | 0 <= q < |t| - 1
      ensures !GapBetween(t[q], t[q + 1])
    {
      if q < |s| - 1 {
        assert t[q] == s[q] && t[q + 1] == s[q + 1];
      }
    }
  }

  lemma {:induction false} SpacedPrefixNoGaps(els: seq<Element>, n: nat)
    requires n <= |els|
    ensures NoGaps(SpacedPrefix(els, n)) && OpenEnd(els, n)
  {
    if n > 0 {
      SpacedPrefixNoGaps(els, n - 1);
      var s := SpacedPrefix(els, n - 1);
      var x := els[n - 1];
      NoGapsSnoc(s, x);
      if GapAfter(els, n - 1) != [] {
        NoGapsSnoc(s + [x], SpacingBreak);
        assert SpacedPrefix(els, n) == s + [x] + [SpacingBreak];
      } else {
        assert SpacedPrefix(els, n) == s + [x];
      }
    }
  }

  /** Counting only pairs whose first element is not a break, the output of
      `_normalizeSpacing` has no missing spacing left. */
  lemma SpacedLeavesNoGap(els: seq<Element>)
    ensures NoGaps(Spaced(els))
  {
    SpacedPrefixNoGaps(els, |els|);
  }

  /** The missing-spacing round as intended: the pair at `i` counts only when
      neither element is a break. */
  predicate IntendedGap(els: seq<Element>, i: nat)
    requires i < |els|
  {
    i + 1 < |els| && GapBetween(els[i], els[i + 1])
  }

  function IntendedGapsUpTo(els: seq<Element>, n: nat): nat
    requires n <= |els|
  {
    if n == 0 then 0 else IntendedGapsUpTo(els, n - 1) + Bit(IntendedGap(els, n - 1))
  }

  lemma {:induction false} IntendedGapsZero(els: seq<Element>, n: nat)
    requires n <= |els|
    ensures IntendedGapsUpTo(els, n) == 0 <==> forall i :: 0 <= i < n ==> !IntendedGap(els, i)
  {
    if n > 0 {
      IntendedGapsZero(els, n - 1);
    }
  }

  /** Every intended gap is also counted as written, so the written count
      only over-reports. */
  lemma {:induction false} IntendedWithinReported(els: seq<Element>, n: nat)
    requires n <= |els|
    ensures IntendedGapsUpTo(els, n) <= GapsUpTo(els, n)
  {
    if n > 0 {
      IntendedWithinReported(els, n - 1);
    }
  }

  /** With the intended count, the output of `_normalizeSpacing` reports no
      missing spacing. */
  lemma SpacedReportsNoIntendedGap(els: seq<Element>)
    ensures IntendedGapsUpTo(Spaced(els), |Spaced(els)|) == 0
  {
    var s := Spaced(els);
    SpacedLeavesNoGap(els);
    IntendedGapsZero(s, |s|);
  }

  // ---- The pipeline ----

  /** The first four stages of `format`, each behind its option. */
  function Prepared(els: seq<Element>, opts: Options): seq<Element> {
    var spaced := if opts.consistentSpacing then Spaced(els) else els;
    var marked := if opts.consistentListMarkers then NormalizeListMarkers(spaced) else spaced;
    var wrapped := if opts.maxLineLength > 0 then WrapLongLines(marked, opts.maxLineLength) else marked;
    if opts.sortSections then Sorted(wrapped) else wrapped
  }

  /** What `format` returns. */
  function Formatted(els: seq<Element>, opts: Options): seq<Element> {
    var prepared := Prepared(els, opts);
    if opts.addTableOfContents then TocStep(prepared) else prepared
  }

  /** `format` */
  method Format(opts: Options, elements: seq<Element>) returns (formatted: seq<Element>)
    ensures formatted == Formatted(elements, opts)
  {
    formatted := elements;
    if opts.consistentSpacing {
      formatted := NormalizeSpacing(formatted);
    }
    if opts.consistentListMarkers {
      formatted := NormalizeListMarkers(formatted);
    }
    if opts.maxLineLength > 0 {
      formatted := WrapLongLines(formatted, opts.maxLineLength);
    }
    if opts.sortSections {
      formatted := SortSections(formatted);
    }
    if opts.addTableOfContents && !HasTableOfContents(formatted) {
      formatted := AddTableOfContents(formatted);
    }
  }

  /** With the defaults, `format` spaces the blocks, normalizes the markers
      and wraps at 80 columns, and does nothing else. */
  lemma FormatDefaults(els: seq<Element>)
    ensures Formatted(els, Configure(NoOverrides)) == WrapLongLines(NormalizeListMarkers(Spaced(els)), 80)
  {
  }

  /** Without spacing, marker normalization, wrapping and a table of
      contents, `format` only reorders: the result is a permutation. */
  lemma FormatOnlySorts(els: seq<Element>, opts: Options)
    requires !opts.consistentSpacing && !opts.consistentListMarkers && opts.maxLineLength <= 0
    requires !opts.addTableOfContents
    ensures multiset(Formatted(els, opts)) == multiset(els)
    ensures !opts.sortSections ==> Formatted(els, opts) == els
  {
    if opts.sortSections {
      SortedPermutes(els);
    }
  }

  /** Without spacing and a table of contents, `format` keeps the number of
      elements. */
  lemma FormatKeepsLength(els: seq<Element>, opts: Options)
    requires !opts.consistentSpacing && !opts.addTableOfContents
    ensures |Formatted(els, opts)| == |els|
  {
    var marked := if opts.consistentListMarkers then NormalizeListMarkers(els) else els;
    var wrapped := if opts.maxLineLength > 0 then WrapLongLines(marked, opts.maxLineLength) else marked;
    if opts.sortSections {
      SortedPermutes(wrapped);
    }
  }

  /** With the table option on, the result has a table of contents exactly
      when the prepared document had one or has a heading below the first
      level; formatting such a result again adds no second table. */
  lemma FormatToc(els: seq<Element>, opts: Options)
    requires opts.addTableOfContents
    ensures var prepared := Prepared(els, opts);
      HasTableOfContents(Formatted(els, opts)) <==>
        HasTableOfContents(prepared) || exists i :: 0 <= i < |prepared| && InToc(prepared[i])
    ensures TocStep(Formatted(els, opts)) == Formatted(els, opts)
  {
    TocStepHasToc(Prepared(els, opts));
    TocStepIdempotent(Prepared(els, opts));
  }
}
