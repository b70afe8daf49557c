/** The inline rewriter between markdown spans and HTML tags
    (src/utils/markdown-utils.js). Every substitution is a global, left-to-right,
    non-overlapping regular-expression replacement; each is written here as a
    scanner for its one fixed pattern. */
module Inline {
  import opened Wrappers
  import opened Strings

  /** `open([^stop]+)close` replaced by `newOpen$1newClose`. In every pattern
      used, `close` starts with `stop`, so the body always ends at the first
      `stop` after `open`. */
  datatype Span = Span(open: string, stop: char, close: string, newOpen: string, newClose: string)

  /** `open([^stop1]+)mid([^stop2]+)close` replaced by `newOpen$2newMid$1newClose`;
      both link patterns swap their two groups. */
  datatype Link = Link(
    open: string, stop1: char, mid: string, stop2: char, close: string,
    newOpen: string, newMid: string, newClose: string)

  const CodeToHtml := Span("`", '`', "`", "<code>", "</code>")
  const StrongToHtml := Span("**", '*', "**", "<strong>", "</strong>")
  const EmToHtml := Span("*", '*', "*", "<em>", "</em>")
  const DelToHtml := Span("~~", '~', "~~", "<del>", "</del>")
  const LinkToHtml := Link("[", ']', "](", ')', ")", "<a href=\"", "\">", "</a>")

  const CodeToMarkdown := Span("<code>", '<', "</code>", "`", "`")
  const StrongToMarkdown := Span("<strong>", '<', "</strong>", "**", "**")
  const EmToMarkdown := Span("<em>", '<', "</em>", "*", "*")
  const DelToMarkdown := Span("<del>", '<', "</del>", "~~", "~~")
  const LinkToMarkdown := Link("<a href=\"", '"', "\">", '<', "</a>", "[", "](", ")")

  /** A span pattern as the scanner expects it. */
  predicate WellFormedSpan(p: Span) {
    p.open != [] && p.close != [] && p.close[0] == p.stop
  }

  predicate WellFormedLink(p: Link) {
    p.open != [] && p.mid != [] && p.mid[0] == p.stop1 && p.close != [] && p.close[0] == p.stop2
  }

  /** Where a field that starts at `i` ends: at the first `stop`, provided the
      field is not empty and `after` follows it. */
  function FieldEnd(s: string, i: nat, stop: char, after: string): (r: Option<nat>)
    requires i <= |s|
    ensures r.Some? ==> i < r.value && r.value + |after| <= |s|
  {
    var k := IndexOfFrom(s, stop, i);
    if k > i && StartsWith(s[k..], after) then Some(k) else None
  }

  /** Where the body of a match anchored at the start of `s` ends. */
  function MatchSpan(s: string, p: Span): (r: Option<nat>)
    ensures r.Some? ==> |p.open| < r.value && r.value + |p.close| <= |s|
  {
    if StartsWith(s, p.open) then FieldEnd(s, |p.open|, p.stop, p.close) else None
  }

  /** The replacement of a span match whose body ends at `k`. */
  function SpanOut(s: string, p: Span, k: nat): string
    requires |p.open| <= k <= |s|
  {
    p.newOpen + s[|p.open|..k] + p.newClose
  }

  /** `s.replace(/open([^stop]+)close/g, 'newOpen$1newClose')` */
  function ReplaceSpan(s: string, p: Span): string
    decreases |s|
  {
    if s == [] then []
    else match MatchSpan(s, p)
      case Some(k) => SpanOut(s, p, k) + ReplaceSpan(s[k + |p.close|..], p)
      case None => [s[0]] + ReplaceSpan(s[1..], p)
  }

  /** Where the two fields of a match anchored at the start of `s` end. */
  function MatchLink(s: string, p: Link): (r: Option<(nat, nat)>)
    ensures r.Some? ==> |p.open| < r.value.0 && r.value.0 + |p.mid| < r.value.1 && r.value.1 + |p.close| <= |s|
  {
    if StartsWith(s, p.open) then
      match FieldEnd(s, |p.open|, p.stop1, p.mid)
      case None => None
      case Some(k1) =>
        match FieldEnd(s, k1 + |p.mid|, p.stop2, p.close)
        case None => None
        case Some(k2) => Some((k1, k2))
    else None
  }

  /** The replacement of a link match whose fields end at `k1` and `k2`: the
      two fields trade places. */
  function LinkOut(s: string, p: Link, k1: nat, k2: nat): string
    requires |p.open| <= k1 && k1 + |p.mid| <= k2 <= |s|
  {
    p.newOpen + s[k1 + |p.mid|..k2] + p.newMid + s[|p.open|..k1] + p.newClose
  }

  /** `s.replace(/open([^stop1]+)mid([^stop2]+)close/g, 'newOpen$2newMid$1newClose')` */
  function ReplaceLink(s: string, p: Link): string
    decreases |s|
  {
    if s == [] then []
    else match MatchLink(s, p)
      case Some((k1, k2)) => LinkOut(s, p, k1, k2) + ReplaceLink(s[k2 + |p.close|..], p)
      case None => [s[0]] + ReplaceLink(s[1..], p)
  }

  /** `MarkdownUtils.parse`: code span, strong, emphasis, strikethrough, link, in that order. */
  function Parse(text: string): string {
    ReplaceLink(ReplaceSpan(ReplaceSpan(ReplaceSpan(ReplaceSpan(text, CodeToHtml), StrongToHtml), EmToHtml), DelToHtml), LinkToHtml)
  }

  /** `MarkdownUtils.build`: the inverse substitutions, in the same order. */
  function Build(text: string): string {
    ReplaceLink(ReplaceSpan(ReplaceSpan(ReplaceSpan(ReplaceSpan(text, CodeToMarkdown), StrongToMarkdown), EmToMarkdown), DelToMarkdown), LinkToMarkdown)
  }

  /** The legacy alias `parseInline`. */
  function ParseInline(text: string): (r: string)
    ensures r == Parse(text)
  {
    Parse(text)
  }

  /** The legacy alias `buildInline`. */
  function BuildInline(text: string): (r: string)
    ensures r == Build(text)
  {
    Build(text)
  }

  // ---- Scanning lemmas ----

  /** One round of the span scanner where no match starts. */
  lemma ReplaceSpanMiss(p: Span, s: string)
    requires s != [] && MatchSpan(s, p).None?
    ensures ReplaceSpan(s, p) == [s[0]] + ReplaceSpan(s[1..], p)
  {
  }

  /** Text holding no first character of the pattern is copied through. */
  lemma {:induction false} SpanSkip(p: Span, pre: string, t: string)
    requires p.open != [] && Excludes(pre, p.open[0])
    ensures ReplaceSpan(pre + t, p) == pre + ReplaceSpan(t, p)
    decreases |pre|
  {
    if pre != [] {
      var s := pre + t;
      ConsSplit(pre, t);
      assert MatchSpan(s, p).None?;
      ReplaceSpanMiss(p, s);
      SpanSkip(p, pre[1..], t);
      ConsAssoc(pre, ReplaceSpan(t, p));
    } else {
      assert pre + t == t;
    }
  }

  /** A piece that starts with the pattern's first character but is no match
      is copied through as well. */
  lemma SpanMiss(p: Span, pre: string, t: string)
    requires p.open != [] && pre != [] && Excludes(pre[1..], p.open[0])
    requires MatchSpan(pre + t, p).None?
    ensures ReplaceSpan(pre + t, p) == pre + ReplaceSpan(t, p)
  {
    ConsSplit(pre, t);
    ReplaceSpanMiss(p, pre + t);
    SpanSkip(p, pre[1..], t);
    ConsAssoc(pre, ReplaceSpan(t, p));
  }

  /** One round of the span scanner on a match at the start. */
  lemma ReplaceSpanHit(p: Span, s: string, k: nat)
    requires s != [] && MatchSpan(s, p) == Some(k)
    ensures ReplaceSpan(s, p) == SpanOut(s, p, k) + ReplaceSpan(s[k + |p.close|..], p)
  {
  }

  /** Where a field ends, from what surrounds it. */
  lemma FieldEndAt(s: string, i: nat, stop: char, after: string, k: nat)
    requires i < k && k + |after| <= |s| && Excludes(s[i..k], stop)
    requires StartsWith(s[k..], after) && after != [] && after[0] == stop
    ensures FieldEnd(s, i, stop, after) == Some(k)
  {
    assert s[k] == s[k..][..|after|][0];
    forall j | i <= j < k ensures s[j] != stop {
      assert s[j] == s[i..k][j - i];
    }
    IndexOfFromPast(s, stop, i, k - i);
  }

  /** One round of the span scanner on a well-formed match at the start. */
  lemma SpanHitAt(p: Span, s: string, k: nat, body: string, t: string)
    requires WellFormedSpan(p) && body != [] && Excludes(body, p.stop)
    requires k == |p.open| + |body| && StartsWith(s, p.open) && k + |p.close| <= |s|
    requires s[|p.open|..k] == body && StartsWith(s[k..], p.close) && s[k + |p.close|..] == t
    ensures ReplaceSpan(s, p) == p.newOpen + body + p.newClose + ReplaceSpan(t, p)
  {
    FieldEndAt(s, |p.open|, p.stop, p.close, k);
    ReplaceSpanHit(p, s, k);
  }

  /** A field ends at `k` exactly when it is not empty, holds no `stop`, and
      `after` follows it. */
  lemma FieldEndIff(s: string, i: nat, stop: char, after: string, k: nat)
    requires i <= |s| && after != [] && after[0] == stop
    ensures FieldEnd(s, i, stop, after) == Some(k)
        <==> i < k && k + |after| <= |s| && Excludes(s[i..k], stop) && StartsWith(s[k..], after)
  {
    if FieldEnd(s, i, stop, after) == Some(k) {
      forall j | 0 <= j < k - i ensures s[i..k][j] != stop {
        assert s[i..k][j] == s[i + j];
      }
    }
    if i < k && k + |after| <= |s| && Excludes(s[i..k], stop) && StartsWith(s[k..], after) {
      FieldEndAt(s, i, stop, after, k);
    }
  }

  /** A span match ending its body at `k`: the opener, a non-empty body free
      of the stop character, then the closer. */
  predicate SpanAt(s: string, p: Span, k: nat) {
    |p.open| < k && k + |p.close| <= |s| && StartsWith(s, p.open) &&
    Excludes(s[|p.open|..k], p.stop) && StartsWith(s[k..], p.close)
  }

  lemma MatchSpanIff(s: string, p: Span, k: nat)
    requires WellFormedSpan(p)
    ensures MatchSpan(s, p) == Some(k) <==> SpanAt(s, p, k)
  {
    if StartsWith(s, p.open) {
      FieldEndIff(s, |p.open|, p.stop, p.close, k);
    }
  }

  /** A link match with fields ending at `k1` and `k2`: the opener, a first
      field free of `stop1`, the middle, a second field free of `stop2`, then
      the closer. */
  predicate LinkAt(s: string, p: Link, k1: nat, k2: nat) {
    StartsWith(s, p.open) && |p.open| < k1 && k1 + |p.mid| < k2 && k2 + |p.close| <= |s| &&
    Excludes(s[|p.open|..k1], p.stop1) && StartsWith(s[k1..], p.mid) &&
    Excludes(s[k1 + |p.mid|..k2], p.stop2) && StartsWith(s[k2..], p.close)
  }

  lemma MatchLinkIff(s: string, p: Link, k1: nat, k2: nat)
    requires WellFormedLink(p)
    ensures MatchLink(s, p) == Some((k1, k2)) <==> LinkAt(s, p, k1, k2)
  {
    if StartsWith(s, p.open) {
      FieldEndIff(s, |p.open|, p.stop1, p.mid, k1);
      if k1 + |p.mid| <= |s| {
        FieldEndIff(s, k1 + |p.mid|, p.stop2, p.close, k2);
      }
    }
  }

  /** A well-formed match at the start is replaced; the result is grouped to the left. */
  lemma SpanHitLeft(p: Span, body: string, t: string)
    requires WellFormedSpan(p) && body != [] && Excludes(body, p.stop)
    ensures ReplaceSpan(p.open + (body + (p.close + t)), p) == p.newOpen + body + p.newClose + ReplaceSpan(t, p)
  {
    var s := p.open + (body + (p.close + t));
    Layout3(s, p.open, body, p.close, t);
    SpanHitAt(p, s, |p.open| + |body|, body, t);
  }

  /** A well-formed match at the start is replaced and scanning resumes after it. */
  lemma SpanHit(p: Span, body: string, t: string)
    requires WellFormedSpan(p) && body != [] && Excludes(body, p.stop)
    ensures ReplaceSpan(p.open + (body + (p.close + t)), p)
         == p.newOpen + (body + (p.newClose + ReplaceSpan(t, p)))
  {
    SpanHitLeft(p, body, t);
    var r := ReplaceSpan(t, p);
    Assoc(body, p.newClose, r);
    Assoc(p.newOpen, body, p.newClose + r);
    Assoc(p.newOpen + body, p.newClose, r);
  }

  /** One round of the link scanner where no match starts. */
  lemma ReplaceLinkMiss(p: Link, s: string)
    requires s != [] && MatchLink(s, p).None?
    ensures ReplaceLink(s, p) == [s[0]] + ReplaceLink(s[1..], p)
  {
  }

  /** Text holding no first character of the pattern is copied through. */
  lemma {:induction false} LinkSkip(p: Link, pre: string, t: string)
    requires p.open != [] && Excludes(pre, p.open[0])
    ensures ReplaceLink(pre + t, p) == pre + ReplaceLink(t, p)
    decreases |pre|
  {
    if pre != [] {
      var s := pre + t;
      ConsSplit(pre, t);
      assert MatchLink(s, p).None?;
      ReplaceLinkMiss(p, s);
      LinkSkip(p, pre[1..], t);
      ConsAssoc(pre, ReplaceLink(t, p));
    } else {
      assert pre + t == t;
    }
  }

  /** A piece that starts with the pattern's first character but is no match
      is copied through as well. */
  lemma LinkMiss(p: Link, pre: string, t: string)
    requires p.open != [] && pre != [] && Excludes(pre[1..], p.open[0])
    requires MatchLink(pre + t, p).None?
    ensures ReplaceLink(pre + t, p) == pre + ReplaceLink(t, p)
  {
    ConsSplit(pre, t);
    ReplaceLinkMiss(p, pre + t);
    LinkSkip(p, pre[1..], t);
    ConsAssoc(pre, ReplaceLink(t, p));
  }

  /** The pieces of a link match laid end to end. */
  lemma LinkLayout(p: Link, s: string, f1: string, f2: string, t: string)
    requires s == p.open + (f1 + (p.mid + (f2 + (p.close + t))))
    ensures var k1 := |p.open| + |f1|; var k2 := k1 + |p.mid| + |f2|;
      StartsWith(s, p.open) && k2 + |p.close| <= |s| &&
      s[|p.open|..k1] == f1 && StartsWith(s[k1..], p.mid) &&
      s[k1 + |p.mid|..k2] == f2 && StartsWith(s[k2..], p.close) && s[k2 + |p.close|..] == t
  {
    Layout3(s, p.open, f1, p.mid, f2 + (p.close + t));
    Split2(s, |p.open| + |f1| + |p.mid|, f2, p.close, t);
  }

  /** One round of the link scanner on a well-formed match at the start. */
  lemma LinkHitAt(p: Link, s: string, k1: nat, k2: nat, f1: string, f2: string, t: string)
    requires WellFormedLink(p) && f1 != [] && Excludes(f1, p.stop1) && f2 != [] && Excludes(f2, p.stop2)
    requires k1 == |p.open| + |f1| && k2 == k1 + |p.mid| + |f2|
    requires StartsWith(s, p.open) && k2 + |p.close| <= |s|
    requires s[|p.open|..k1] == f1 && StartsWith(s[k1..], p.mid)
    requires s[k1 + |p.mid|..k2] == f2 && StartsWith(s[k2..], p.close) && s[k2 + |p.close|..] == t
    ensures ReplaceLink(s, p) == p.newOpen + f2 + p.newMid + f1 + p.newClose + ReplaceLink(t, p)
  {
    LinkMatchAt(p, s, k1, k2, f1, f2);
    ReplaceLinkHit(p, s, k1, k2);
  }

  lemma LinkMatchAt(p: Link, s: string, k1: nat, k2: nat, f1: string, f2: string)
    requires WellFormedLink(p) && f1 != [] && Excludes(f1, p.stop1) && f2 != [] && Excludes(f2, p.stop2)
    requires k1 == |p.open| + |f1| && k2 == k1 + |p.mid| + |f2|
    requires StartsWith(s, p.open) && k2 + |p.close| <= |s|
    requires s[|p.open|..k1] == f1 && StartsWith(s[k1..], p.mid)
    requires s[k1 + |p.mid|..k2] == f2 && StartsWith(s[k2..], p.close)
    ensures MatchLink(s, p) == Some((k1, k2))
    ensures LinkOut(s, p, k1, k2) == p.newOpen + f2 + p.newMid + f1 + p.newClose
  {
    FieldEndAt(s, |p.open|, p.stop1, p.mid, k1);
    FieldEndAt(s, k1 + |p.mid|, p.stop2, p.close, k2);
  }

  /** A well-formed link at the start is rewritten and scanning resumes after it. */
  lemma LinkHit(p: Link, f1: string, f2: string, t: string)
    requires WellFormedLink(p) && f1 != [] && Excludes(f1, p.stop1) && f2 != [] && Excludes(f2, p.stop2)
    ensures ReplaceLink(p.open + (f1 + (p.mid + (f2 + (p.close + t)))), p)
         == p.newOpen + f2 + p.newMid + f1 + p.newClose + ReplaceLink(t, p)
  {
    var s := p.open + (f1 + (p.mid + (f2 + (p.close + t))));
    var k1 := |p.open| + |f1|;
    LinkLayout(p, s, f1, f2, t);
    LinkHitAt(p, s, k1, k1 + |p.mid| + |f2|, f1, f2, t);
  }

  /** One round of the link scanner on a match at the start. */
  lemma ReplaceLinkHit(p: Link, s: string, k1: nat, k2: nat)
    requires s != [] && MatchLink(s, p) == Some((k1, k2))
    ensures ReplaceLink(s, p) == LinkOut(s, p, k1, k2) + ReplaceLink(s[k2 + |p.close|..], p)
  {
  }

  lemma SpanUnchanged(p: Span, s: string)
    requires p.open != [] && Excludes(s, p.open[0])
    ensures ReplaceSpan(s, p) == s
  {
    SpanSkip(p, s, []);
    assert s + [] == s;
  }

  lemma LinkUnchanged(p: Link, s: string)
    requires p.open != [] && Excludes(s, p.open[0])
    ensures ReplaceLink(s, p) == s
  {
    LinkSkip(p, s, []);
    assert s + [] == s;
  }

  // ---- Properties of parse and build ----

  /** Text with no backtick, asterisk, tilde or opening bracket is left as it is. */
  lemma ParseWithoutMarkup(s: string)
    requires Excludes(s, '`') && Excludes(s, '*') && Excludes(s, '~') && Excludes(s, '[')
    ensures Parse(s) == s
  {
    SpanUnchanged(CodeToHtml, s);
    SpanUnchanged(StrongToHtml, s);
    SpanUnchanged(EmToHtml, s);
    SpanUnchanged(DelToHtml, s);
    LinkUnchanged(LinkToHtml, s);
  }

  /** Text with no `<` is left as it is. */
  lemma BuildWithoutTags(s: string)
    requires Excludes(s, '<')
    ensures Build(s) == s
  {
    SpanUnchanged(CodeToMarkdown, s);
    SpanUnchanged(StrongToMarkdown, s);
    SpanUnchanged(EmToMarkdown, s);
    SpanUnchanged(DelToMarkdown, s);
    LinkUnchanged(LinkToMarkdown, s);
  }

  /** Characters none of the rewriters react to, on either side. */
  predicate Plain(s: string) {
    Excludes(s, '`') && Excludes(s, '*') && Excludes(s, '~') && Excludes(s, '[') &&
    Excludes(s, ']') && Excludes(s, ')') && Excludes(s, '<') && Excludes(s, '"')
  }

  function LinkMarkdown(t: string, u: string): string { "[" + (t + ("](" + (u + ")"))) }
  function LinkHtml(t: string, u: string): string { "<a href=\"" + (u + ("\">" + (t + "</a>"))) }

  /** A well-formed link that ends the text. */
  lemma LinkHitEnd(p: Link, f1: string, f2: string)
    requires WellFormedLink(p) && f1 != [] && Excludes(f1, p.stop1) && f2 != [] && Excludes(f2, p.stop2)
    ensures ReplaceLink(p.open + (f1 + (p.mid + (f2 + p.close))), p)
         == p.newOpen + (f2 + (p.newMid + (f1 + p.newClose)))
  {
    LinkHit(p, f1, f2, []);
    assert p.close + [] == p.close;
    assert ReplaceLink([], p) == [];
    var r := p.newOpen + f2 + p.newMid + f1 + p.newClose;
    assert r + [] == r;
    Assoc(p.newOpen, f2, p.newMid + (f1 + p.newClose));
    Assoc(p.newOpen + f2, p.newMid, f1 + p.newClose);
    Assoc(p.newOpen + f2 + p.newMid, f1, p.newClose);
  }

  /** `[t](u)` holds no backtick, asterisk or tilde when `t` and `u` do not. */
  lemma LinkMarkdownExcludes(t: string, u: string, c: char)
    requires Excludes(t, c) && Excludes(u, c) && c != '[' && c != ']' && c != '(' && c != ')'
    ensures Excludes(LinkMarkdown(t, u), c)
  {
    ExcludesConcat(u, ")", c);
    ExcludesConcat("](", u + ")", c);
    ExcludesConcat(t, "](" + (u + ")"), c);
    ExcludesConcat("[", t + ("](" + (u + ")")), c);
  }

  /** `[t](u)` becomes an anchor. */
  lemma LinkParses(t: string, u: string)
    requires t != [] && u != [] && Plain(t) && Plain(u)
    ensures Parse(LinkMarkdown(t, u)) == LinkHtml(t, u)
  {
    var md := LinkMarkdown(t, u);
    LinkMarkdownExcludes(t, u, '`');
    LinkMarkdownExcludes(t, u, '*');
    LinkMarkdownExcludes(t, u, '~');
    SpanUnchanged(CodeToHtml, md);
    SpanUnchanged(StrongToHtml, md);
    SpanUnchanged(EmToHtml, md);
    SpanUnchanged(DelToHtml, md);
    LinkHitEnd(LinkToHtml, t, u);
  }

  /** The anchor is written back as `[t](u)`. */
  lemma LinkBuilds(t: string, u: string)
    requires t != [] && u != [] && Excludes(t, '<') && Excludes(u, '<') && Excludes(u, '"')
    ensures Build(LinkHtml(t, u)) == LinkMarkdown(t, u)
  {
    var rest := "a href=\"" + (u + ("\">" + t));
    var head := "<" + rest;
    assert LinkHtml(t, u) == head + "</a>" by {
      assert "<a href=\"" == "<" + "a href=\"";
      Assoc("\">", t, "</a>");
      Assoc(u, "\">" + t, "</a>");
      Assoc("a href=\"", u + ("\">" + t), "</a>");
      Assoc("<", "a href=\"", u + ("\">" + (t + "</a>")));
      Assoc("<", rest, "</a>");
    }
    ExcludesConcat("\">", t, '<');
    ExcludesConcat(u, "\">" + t, '<');
    ExcludesConcat("a href=\"", u + ("\">" + t), '<');
    assert head[1..] == rest;
    AnchorPassesUntouched(head, CodeToMarkdown);
    AnchorPassesUntouched(head, StrongToMarkdown);
    AnchorPassesUntouched(head, EmToMarkdown);
    AnchorPassesUntouched(head, DelToMarkdown);
    LinkHitEnd(LinkToMarkdown, u, t);
  }

  /** A link with plain text and address survives `parse` then `build`. */
  lemma LinkRoundTrip(t: string, u: string)
    requires t != [] && u != [] && Plain(t) && Plain(u)
    ensures Build(Parse(LinkMarkdown(t, u))) == LinkMarkdown(t, u)
  {
    LinkParses(t, u);
    LinkBuilds(t, u);
  }

  /** A piece whose second character already differs from the pattern's
      opening is copied through. */
  lemma TagMiss(p: Span, head: string, t: string)
    requires |p.open| >= 2
    requires |head| >= 2 && head[1] != p.open[1] && Excludes(head[1..], p.open[0])
    ensures ReplaceSpan(head + t, p) == head + ReplaceSpan(t, p)
  {
    assert (head + t)[1] == head[1];
    assert !StartsWith(head + t, p.open);
    SpanMiss(p, head, t);
  }

  lemma TagMissLink(p: Link, head: string, t: string)
    requires |p.open| >= 2 && p.open[0] == '<'
    requires |head| >= 2 && head[0] == '<' && head[1] != p.open[1] && Excludes(head[1..], '<')
    ensures ReplaceLink(head + t, p) == head + ReplaceLink(t, p)
  {
    assert (head + t)[1] == head[1];
    assert !StartsWith(head + t, p.open);
    LinkMiss(p, head, t);
  }

  /** A tag on its own is copied through. */
  lemma TagAlone(p: Span, c: string)
    requires |p.open| >= 2
    requires |c| >= 2 && c[1] != p.open[1] && Excludes(c[1..], p.open[0])
    ensures ReplaceSpan(c, p) == c
  {
    TagMiss(p, c, []);
    assert c + [] == c;
    assert ReplaceSpan([], p) == [];
  }

  lemma TagAloneLink(q: Link, c: string)
    requires |q.open| >= 2 && q.open[0] == '<'
    requires |c| >= 2 && c[0] == '<' && c[1] != q.open[1] && Excludes(c[1..], '<')
    ensures ReplaceLink(c, q) == c
  {
    TagMissLink(q, c, []);
    assert c + [] == c;
    assert ReplaceLink([], q) == [];
  }

  /** A tag followed by text without `<` is copied through. */
  lemma TagTextMiss(p: Span, tag: string, x: string, t: string)
    requires |p.open| >= 2 && p.open[0] == '<'
    requires |tag| >= 2 && tag[0] == '<' && tag[1] != p.open[1] && Excludes(tag[1..], '<') && Excludes(x, '<')
    ensures ReplaceSpan(tag + (x + t), p) == tag + (x + ReplaceSpan(t, p))
  {
    var head := tag + x;
    assert head[1..] == tag[1..] + x;
    ExcludesConcat(tag[1..], x, '<');
    TagMiss(p, head, t);
    Assoc(tag, x, t);
    Assoc(tag, x, ReplaceSpan(t, p));
  }

  /** The anchor's opening tag and text, and its closing tag, are no span. */
  lemma AnchorPassesUntouched(head: string, p: Span)
    requires p == CodeToMarkdown || p == StrongToMarkdown || p == EmToMarkdown || p == DelToMarkdown
    requires |head| >= 2 && head[0] == '<' && head[1] == 'a' && Excludes(head[1..], '<')
    ensures ReplaceSpan(head + "</a>", p) == head + "</a>"
  {
    TagMiss(p, head, "</a>");
    TagMiss(p, "</a>", []);
    assert "</a>" + [] == "</a>";
    assert ReplaceSpan([], p) == [];
  }

  /** An opening tag directly followed by another tag has an empty body and is no match. */
  lemma EmptyBodyMiss(p: Span, t: string)
    requires WellFormedSpan(p) && p.open[0] == p.stop && Excludes(p.open[1..], p.stop)
    requires t != [] && t[0] == p.stop
    ensures ReplaceSpan(p.open + t, p) == p.open + ReplaceSpan(t, p)
  {
    var s := p.open + t;
    assert s[..|p.open|] == p.open;
    assert s[|p.open|] == p.stop;
    IndexOfFromPast(s, p.stop, |p.open|, 0);
    SpanMiss(p, p.open, t);
  }

  // Strong text and a code span on one line: x **b** y `d` z

  function StrongCodeMarkdown(x: string, b: string, y: string, d: string, z: string): string {
    x + ("**" + (b + ("**" + (y + ("`" + (d + ("`" + z)))))))
  }

  function StrongCodeHtml(x: string, b: string, y: string, d: string, z: string): string {
    x + ("<strong>" + (b + ("</strong>" + (y + ("<code>" + (d + ("</code>" + z)))))))
  }

  lemma CodePassParses(x: string, b: string, y: string, d: string, z: string)
    requires Plain(x) && Plain(b) && Plain(y) && Plain(d) && Plain(z) && d != []
    ensures ReplaceSpan(StrongCodeMarkdown(x, b, y, d, z), CodeToHtml)
         == x + ("**" + (b + ("**" + (y + ("<code>" + (d + ("</code>" + z)))))))
  {
    var p := CodeToHtml;
    var t4 := "`" + (d + ("`" + z));
    var t3 := y + t4;
    var t2 := "**" + t3;
    var t1 := b + t2;
    var t0 := "**" + t1;
    assert Excludes("**", '`');
    SpanSkip(p, x, t0);
    SpanSkip(p, "**", t1);
    SpanSkip(p, b, t2);
    SpanSkip(p, "**", t3);
    SpanSkip(p, y, t4);
    SpanHit(p, d, z);
    SpanUnchanged(p, z);
  }

  lemma StrongPassParses(x: string, b: string, tail: string)
    requires Plain(x) && Plain(b) && b != [] && Excludes(tail, '*')
    ensures ReplaceSpan(x + ("**" + (b + ("**" + tail))), StrongToHtml)
         == x + ("<strong>" + (b + ("</strong>" + tail)))
  {
    var q := StrongToHtml;
    SpanSkip(q, x, "**" + (b + ("**" + tail)));
    SpanHit(q, b, tail);
    SpanUnchanged(q, tail);
  }

  lemma StrongCodeParses(x: string, b: string, y: string, d: string, z: string)
    requires Plain(x) && Plain(b) && Plain(y) && Plain(d) && Plain(z) && b != [] && d != []
    ensures Parse(StrongCodeMarkdown(x, b, y, d, z)) == StrongCodeHtml(x, b, y, d, z)
  {
    CodePassParses(x, b, y, d, z);
    var tail := y + ("<code>" + (d + ("</code>" + z)));
    ExcludesConcat(d, "</code>" + z, '*');
    ExcludesConcat("<code>", d + ("</code>" + z), '*');
    ExcludesConcat(y, "<code>" + (d + ("</code>" + z)), '*');
    StrongPassParses(x, b, tail);
    StrongCodeHtmlPlain(x, b, y, d, z);
  }

  lemma StrongCodeHtmlPlain(x: string, b: string, y: string, d: string, z: string)
    requires Plain(x) && Plain(b) && Plain(y) && Plain(d) && Plain(z)
    ensures var s := StrongCodeHtml(x, b, y, d, z);
      ReplaceLink(ReplaceSpan(ReplaceSpan(s, EmToHtml), DelToHtml), LinkToHtml) == s
  {
    var s := StrongCodeHtml(x, b, y, d, z);
    StrongCodeHtmlExcludes(x, b, y, d, z, '*');
    StrongCodeHtmlExcludes(x, b, y, d, z, '~');
    StrongCodeHtmlExcludes(x, b, y, d, z, '[');
    SpanUnchanged(EmToHtml, s);
    SpanUnchanged(DelToHtml, s);
    LinkUnchanged(LinkToHtml, s);
  }

  /** Text, two other tags each followed by text, then a match of `p`: only
      the match is rewritten. */
  lemma SpanAfterTags(p: Span, x: string, o: string, b: string, c: string, y: string, d: string, z: string)
    requires WellFormedSpan(p) && |p.open| >= 2 && p.open[0] == '<'
    requires |o| >= 2 && o[0] == '<' && o[1] != p.open[1] && Excludes(o[1..], '<')
    requires |c| >= 2 && c[0] == '<' && c[1] != p.open[1] && Excludes(c[1..], '<')
    requires Excludes(x, '<') && Excludes(b, '<') && Excludes(y, '<') && Excludes(z, '<')
    requires d != [] && Excludes(d, p.stop)
    ensures ReplaceSpan(x + (o + (b + (c + (y + (p.open + (d + (p.close + z))))))), p)
         == x + (o + (b + (c + (y + (p.newOpen + (d + (p.newClose + z)))))))
  {
    var t1 := c + (y + (p.open + (d + (p.close + z))));
    SpanSkip(p, x, o + (b + t1));
    TagTextMiss(p, o, b, t1);
    TagThenHit(p, c, y, d, z);
  }

  /** An other tag followed by text, then a match of `p`. */
  lemma TagThenHit(p: Span, c: string, y: string, d: string, z: string)
    requires WellFormedSpan(p) && |p.open| >= 2 && p.open[0] == '<'
    requires |c| >= 2 && c[0] == '<' && c[1] != p.open[1] && Excludes(c[1..], '<')
    requires Excludes(y, '<') && Excludes(z, '<') && d != [] && Excludes(d, p.stop)
    ensures ReplaceSpan(c + (y + (p.open + (d + (p.close + z)))), p)
         == c + (y + (p.newOpen + (d + (p.newClose + z))))
  {
    TagTextMiss(p, c, y, p.open + (d + (p.close + z)));
    SpanHit(p, d, z);
    SpanUnchanged(p, z);
  }

  lemma StrongCodeHtmlExcludes(x: string, b: string, y: string, d: string, z: string, c: char)
    requires Excludes(x, c) && Excludes(b, c) && Excludes(y, c) && Excludes(d, c) && Excludes(z, c)
    requires c == '*' || c == '~' || c == '['
    ensures Excludes(StrongCodeHtml(x, b, y, d, z), c)
  {
    ExcludesConcat(d, "</code>" + z, c);
    ExcludesConcat("<code>", d + ("</code>" + z), c);
    ExcludesConcat(y, "<code>" + (d + ("</code>" + z)), c);
    ExcludesConcat("</strong>", y + ("<code>" + (d + ("</code>" + z))), c);
    ExcludesConcat(b, "</strong>" + (y + ("<code>" + (d + ("</code>" + z)))), c);
    ExcludesConcat("<strong>", b + ("</strong>" + (y + ("<code>" + (d + ("</code>" + z))))), c);
    ExcludesConcat(x, "<strong>" + (b + ("</strong>" + (y + ("<code>" + (d + ("</code>" + z)))))), c);
  }

  lemma CodePassBuilds(x: string, b: string, y: string, d: string, z: string)
    requires Plain(x) && Plain(b) && Plain(y) && Plain(d) && Plain(z) && d != []
    ensures ReplaceSpan(StrongCodeHtml(x, b, y, d, z), CodeToMarkdown)
         == x + ("<strong>" + (b + ("</strong>" + (y + ("`" + (d + ("`" + z)))))))
  {
    SpanAfterTags(CodeToMarkdown, x, "<strong>", b, "</strong>", y, d, z);
  }

  lemma StrongPassBuilds(x: string, b: string, rest: string)
    requires Plain(x) && Plain(b) && b != [] && Excludes(rest, '<')
    ensures ReplaceSpan(x + ("<strong>" + (b + ("</strong>" + rest))), StrongToMarkdown)
         == x + ("**" + (b + ("**" + rest)))
  {
    var q := StrongToMarkdown;
    SpanSkip(q, x, "<strong>" + (b + ("</strong>" + rest)));
    SpanHit(q, b, rest);
    SpanUnchanged(q, rest);
  }

  lemma StrongCodeBuilds(x: string, b: string, y: string, d: string, z: string)
    requires Plain(x) && Plain(b) && Plain(y) && Plain(d) && Plain(z) && b != [] && d != []
    ensures Build(StrongCodeHtml(x, b, y, d, z)) == StrongCodeMarkdown(x, b, y, d, z)
  {
    CodePassBuilds(x, b, y, d, z);
    var rest := y + ("`" + (d + ("`" + z)));
    ExcludesConcat(d, "`" + z, '<');
    ExcludesConcat("`", d + ("`" + z), '<');
    ExcludesConcat(y, "`" + (d + ("`" + z)), '<');
    StrongPassBuilds(x, b, rest);
    var t2 := StrongCodeMarkdown(x, b, y, d, z);
    ExcludesConcat("**", rest, '<');
    ExcludesConcat(b, "**" + rest, '<');
    ExcludesConcat("**", b + ("**" + rest), '<');
    ExcludesConcat(x, "**" + (b + ("**" + rest)), '<');
    SpanUnchanged(EmToMarkdown, t2);
    SpanUnchanged(DelToMarkdown, t2);
    LinkUnchanged(LinkToMarkdown, t2);
  }

  /** Strong text and a code span on one line survive `parse` then `build`. */
  lemma StrongAndCodeRoundTrip(x: string, b: string, y: string, d: string, z: string)
    requires Plain(x) && Plain(b) && Plain(y) && Plain(d) && Plain(z) && b != [] && d != []
    ensures Build(Parse(StrongCodeMarkdown(x, b, y, d, z))) == StrongCodeMarkdown(x, b, y, d, z)
  {
    StrongCodeParses(x, b, y, d, z);
    StrongCodeBuilds(x, b, y, d, z);
  }

  lemma Example()
    ensures Build(Parse("a **b** c `d` e")) == "a **b** c `d` e"
  {
    assert "a **b** c `d` e" == StrongCodeMarkdown("a ", "b", " c ", "d", " e");
    StrongAndCodeRoundTrip("a ", "b", " c ", "d", " e");
  }

  // One flat span on a line: x *b* y and x ~~b~~ y

  /** `x`, an opener, `b`, a closer, then `y`. */
  function Around(x: string, open: string, b: string, close: string, y: string): string {
    x + (open + (b + (close + y)))
  }

  /** The markers and tags of emphasis and strike-through avoid the
      characters that start the other passes. */
  lemma MarkersExclude()
    ensures Excludes("*", '`') && Excludes("*", '<')
    ensures Excludes("~~", '`') && Excludes("~~", '*') && Excludes("~~", '<')
    ensures Excludes("<em>", '~') && Excludes("</em>", '~')
    ensures Excludes("<em>", '[') && Excludes("</em>", '[')
    ensures Excludes("<del>", '[') && Excludes("</del>", '[')
  {
  }

  lemma AroundExcludes(x: string, open: string, b: string, close: string, y: string, c: char)
    requires Excludes(x, c) && Excludes(open, c) && Excludes(b, c) && Excludes(close, c) && Excludes(y, c)
    ensures Excludes(Around(x, open, b, close, y), c)
  {
    ExcludesConcat(close, y, c);
    ExcludesConcat(b, close + y, c);
    ExcludesConcat(open, b + (close + y), c);
    ExcludesConcat(x, open + (b + (close + y)), c);
  }

  /** A pass whose pattern is a tag other than `open` and `close` copies
      `x`, the two tags, `b` and `y` through. */
  lemma TagsPassUntouched(p: Span, x: string, open: string, b: string, close: string, y: string)
    requires |p.open| >= 2 && p.open[0] == '<'
    requires |open| >= 2 && open[0] == '<' && open[1] != p.open[1] && Excludes(open[1..], '<')
    requires |close| >= 2 && close[0] == '<' && close[1] != p.open[1] && Excludes(close[1..], '<')
    requires Excludes(x, '<') && Excludes(b, '<') && Excludes(y, '<')
    ensures ReplaceSpan(Around(x, open, b, close, y), p) == Around(x, open, b, close, y)
  {
    SpanSkip(p, x, open + (b + (close + y)));
    TagTextMiss(p, open, b, close + y);
    TagTextMiss(p, close, y, []);
    assert y + [] == y;
    assert ReplaceSpan([], p) == [];
  }

  /** A span pass that meets the one span of the line. */
  lemma SpanPassHits(p: Span, x: string, b: string, y: string)
    requires WellFormedSpan(p) && Excludes(x, p.open[0]) && Excludes(y, p.open[0])
    requires b != [] && Excludes(b, p.stop)
    ensures ReplaceSpan(Around(x, p.open, b, p.close, y), p) == Around(x, p.newOpen, b, p.newClose, y)
  {
    SpanSkip(p, x, p.open + (b + (p.close + y)));
    SpanHit(p, b, y);
    SpanUnchanged(p, y);
  }

  /** The strong pass finds no `**` in `x *b* y`. */
  lemma StrongPassSkipsEm(x: string, b: string, y: string)
    requires Plain(x) && Plain(b) && Plain(y) && b != []
    ensures ReplaceSpan(Around(x, "*", b, "*", y), StrongToHtml) == Around(x, "*", b, "*", y)
  {
    SpanSkip(StrongToHtml, x, "*" + (b + ("*" + y)));
    StarWordMiss(b, "*" + y);
    if y == [] {
      LoneStarMiss();
    } else {
      StarWordMiss(y, []);
      assert y + [] == y;
      assert ReplaceSpan([], StrongToHtml) == [];
    }
  }

  /** A single `*` before a word is no strong match. */
  lemma StarWordMiss(b: string, t: string)
    requires b != [] && Excludes(b, '*')
    ensures ReplaceSpan("*" + (b + t), StrongToHtml) == "*" + (b + ReplaceSpan(t, StrongToHtml))
  {
    var pre := "*" + b;
    assert pre[1..] == b && pre[1] == b[0];
    TagMiss(StrongToHtml, pre, t);
    Assoc("*", b, t);
    Assoc("*", b, ReplaceSpan(t, StrongToHtml));
  }

  lemma LoneStarMiss()
    ensures ReplaceSpan("*", StrongToHtml) == "*"
  {
    assert MatchSpan("*", StrongToHtml).None?;
    ReplaceSpanMiss(StrongToHtml, "*");
    assert ReplaceSpan([], StrongToHtml) == [];
  }

  /** Chains the results of the five passes, each given on its own. */
  lemma Stages(a0: string, a1: string, a2: string, a3: string, a4: string, a5: string,
               p1: Span, p2: Span, p3: Span, p4: Span, q: Link)
    requires ReplaceSpan(a0, p1) == a1 && ReplaceSpan(a1, p2) == a2
    requires ReplaceSpan(a2, p3) == a3 && ReplaceSpan(a3, p4) == a4 && ReplaceLink(a4, q) == a5
    ensures ReplaceLink(ReplaceSpan(ReplaceSpan(ReplaceSpan(ReplaceSpan(a0, p1), p2), p3), p4), q) == a5
  {
  }

  lemma EmParses(x: string, b: string, y: string)
    requires Plain(x) && Plain(b) && Plain(y) && b != []
    ensures Parse(Around(x, "*", b, "*", y)) == Around(x, "<em>", b, "</em>", y)
  {
    MarkersExclude();
    var s := Around(x, "*", b, "*", y);
    var h := Around(x, "<em>", b, "</em>", y);
    AroundExcludes(x, "*", b, "*", y, '`');
    SpanUnchanged(CodeToHtml, s);
    StrongPassSkipsEm(x, b, y);
    SpanPassHits(EmToHtml, x, b, y);
    AroundExcludes(x, "<em>", b, "</em>", y, '~');
    AroundExcludes(x, "<em>", b, "</em>", y, '[');
    SpanUnchanged(DelToHtml, h);
    LinkUnchanged(LinkToHtml, h);
    Stages(s, s, s, h, h, h, CodeToHtml, StrongToHtml, EmToHtml, DelToHtml, LinkToHtml);
  }

  lemma EmBuilds(x: string, b: string, y: string)
    requires Plain(x) && Plain(b) && Plain(y) && b != []
    ensures Build(Around(x, "<em>", b, "</em>", y)) == Around(x, "*", b, "*", y)
  {
    MarkersExclude();
    var s := Around(x, "*", b, "*", y);
    TagsPassUntouched(CodeToMarkdown, x, "<em>", b, "</em>", y);
    TagsPassUntouched(StrongToMarkdown, x, "<em>", b, "</em>", y);
    SpanPassHits(EmToMarkdown, x, b, y);
    AroundExcludes(x, "*", b, "*", y, '<');
    SpanUnchanged(DelToMarkdown, s);
    LinkUnchanged(LinkToMarkdown, s);
  }

  /** Emphasis on plain text survives `parse` then `build`. */
  lemma EmRoundTrip(x: string, b: string, y: string)
    requires Plain(x) && Plain(b) && Plain(y) && b != []
    ensures Build(Parse(x + "*" + b + "*" + y)) == x + "*" + b + "*" + y
  {
    assert x + "*" + b + "*" + y == Around(x, "*", b, "*", y);
    EmParses(x, b, y);
    EmBuilds(x, b, y);
  }

  lemma DelParses(x: string, b: string, y: string)
    requires Plain(x) && Plain(b) && Plain(y) && b != []
    ensures Parse(Around(x, "~~", b, "~~", y)) == Around(x, "<del>", b, "</del>", y)
  {
    MarkersExclude();
    var s := Around(x, "~~", b, "~~", y);
    var h := Around(x, "<del>", b, "</del>", y);
    AroundExcludes(x, "~~", b, "~~", y, '`');
    AroundExcludes(x, "~~", b, "~~", y, '*');
    SpanUnchanged(CodeToHtml, s);
    SpanUnchanged(StrongToHtml, s);
    SpanUnchanged(EmToHtml, s);
    SpanPassHits(DelToHtml, x, b, y);
    AroundExcludes(x, "<del>", b, "</del>", y, '[');
    LinkUnchanged(LinkToHtml, h);
    Stages(s, s, s, s, h, h, CodeToHtml, StrongToHtml, EmToHtml, DelToHtml, LinkToHtml);
  }

  lemma DelBuilds(x: string, b: string, y: string)
    requires Plain(x) && Plain(b) && Plain(y) && b != []
    ensures Build(Around(x, "<del>", b, "</del>", y)) == Around(x, "~~", b, "~~", y)
  {
    MarkersExclude();
    var s := Around(x, "~~", b, "~~", y);
    TagsPassUntouched(CodeToMarkdown, x, "<del>", b, "</del>", y);
    TagsPassUntouched(StrongToMarkdown, x, "<del>", b, "</del>", y);
    TagsPassUntouched(EmToMarkdown, x, "<del>", b, "</del>", y);
    SpanPassHits(DelToMarkdown, x, b, y);
    AroundExcludes(x, "~~", b, "~~", y, '<');
    LinkUnchanged(LinkToMarkdown, s);
  }

  /** Strike-through on plain text survives `parse` then `build`. */
  lemma DelRoundTrip(x: string, b: string, y: string)
    requires Plain(x) && Plain(b) && Plain(y) && b != []
    ensures Build(Parse(x + "~~" + b + "~~" + y)) == x + "~~" + b + "~~" + y
  {
    assert x + "~~" + b + "~~" + y == Around(x, "~~", b, "~~", y);
    DelParses(x, b, y);
    DelBuilds(x, b, y);
  }

  // A code span around emphasis: `*x*`

  function NestedMarkdown(x: string): string { "`" + ("*" + (x + ("*" + "`"))) }
  function NestedHtml(x: string): string { "<code>" + ("<em>" + (x + ("</em>" + "</code>"))) }
  function NestedRebuilt(x: string): string { "<code>" + ("*" + (x + ("*" + "</code>"))) }

  /** Closing tags are copied through by every span pattern. */
  lemma ClosersUntouched(p: Span)
    requires |p.open| >= 2 && p.open[0] == '<' && p.open[1] != '/'
    ensures ReplaceSpan("</code>", p) == "</code>"
    ensures ReplaceSpan("</em>" + "</code>", p) == "</em>" + "</code>"
  {
    CloserTags(p);
    TagMiss(p, "</code>", []);
    assert "</code>" + [] == "</code>";
    assert ReplaceSpan([], p) == [];
    TagMiss(p, "</em>", "</code>");
  }

  /** The closing tags against a pattern whose opening is no closing tag. */
  lemma CloserTags(p: Span)
    requires |p.open| >= 2 && p.open[1] != '/'
    ensures "</code>"[1] != p.open[1] && Excludes("</code>"[1..], '<')
    ensures "</em>"[1] != p.open[1] && Excludes("</em>"[1..], '<')
  {
  }

  lemma NestedCodePass(x: string)
    requires Plain(x) && x != []
    ensures ReplaceSpan(NestedMarkdown(x), CodeToHtml) == NestedRebuilt(x)
  {
    var body := "*" + (x + "*");
    ExcludesConcat(x, "*", '`');
    ExcludesConcat("*", x + "*", '`');
    SpanHit(CodeToHtml, body, []);
    assert ReplaceSpan([], CodeToHtml) == [];
    assert "`" + [] == "`" && "</code>" + [] == "</code>";
    Assoc(x, "*", "`");
    Assoc("*", x + "*", "`");
    Assoc(x, "*", "</code>");
    Assoc("*", x + "*", "</code>");
  }

  lemma NestedStrongPass(x: string)
    requires Plain(x) && x != []
    ensures ReplaceSpan(NestedRebuilt(x), StrongToHtml) == NestedRebuilt(x)
  {
    var q := StrongToHtml;
    SpanSkip(q, "<code>", "*" + (x + ("*" + "</code>")));
    Assoc("*", x, "*" + "</code>");
    var head := "*" + x;
    assert head[1] == x[0] != '*';
    assert head[1..] == x;
    TagMiss(q, head, "*" + "</code>");
    TagMiss(q, "*" + "</code>", []);
    assert "*" + "</code>" + [] == "*" + "</code>";
    assert ReplaceSpan([], q) == [];
  }

  lemma NestedEmPass(x: string)
    requires Plain(x) && x != []
    ensures ReplaceSpan(NestedRebuilt(x), EmToHtml) == NestedHtml(x)
  {
    HitBetweenPlain(EmToHtml, "<code>", x, "</code>");
  }

  /** A match between two pieces the pattern cannot start in. */
  lemma HitBetweenPlain(q: Span, o: string, x: string, c: string)
    requires WellFormedSpan(q) && Excludes(o, q.open[0]) && Excludes(c, q.open[0])
    requires x != [] && Excludes(x, q.stop)
    ensures ReplaceSpan(o + (q.open + (x + (q.close + c))), q) == o + (q.newOpen + (x + (q.newClose + c)))
  {
    SpanSkip(q, o, q.open + (x + (q.close + c)));
    SpanHit(q, x, c);
    SpanUnchanged(q, c);
  }

  /** A match between two other tags. */
  lemma HitBetweenTags(q: Span, o: string, x: string, c: string)
    requires WellFormedSpan(q) && |q.open| >= 2 && q.open[0] == '<'
    requires |o| >= 2 && o[1] != q.open[1] && Excludes(o[1..], '<')
    requires |c| >= 2 && c[1] != q.open[1] && Excludes(c[1..], '<')
    requires x != [] && Excludes(x, q.stop)
    ensures ReplaceSpan(o + (q.open + (x + (q.close + c))), q) == o + (q.newOpen + (x + (q.newClose + c)))
  {
    TagMiss(q, o, q.open + (x + (q.close + c)));
    SpanHit(q, x, c);
    TagAlone(q, c);
  }

  /** Inside a code span, emphasis is still rewritten: `*x*` within backticks
      becomes an `em` tag inside the `code` tag. */
  lemma NestedParses(x: string)
    requires Plain(x) && x != []
    ensures Parse(NestedMarkdown(x)) == NestedHtml(x)
  {
    NestedCodePass(x);
    NestedStrongPass(x);
    NestedEmPass(x);
    var h := NestedHtml(x);
    NestedHtmlExcludes(x, '~');
    NestedHtmlExcludes(x, '[');
    SpanUnchanged(DelToHtml, h);
    LinkUnchanged(LinkToHtml, h);
  }

  lemma NestedHtmlExcludes(x: string, c: char)
    requires Excludes(x, c) && (c == '~' || c == '[')
    ensures Excludes(NestedHtml(x), c)
  {
    ExcludesConcat("</em>", "</code>", c);
    ExcludesConcat(x, "</em>" + "</code>", c);
    ExcludesConcat("<em>", x + ("</em>" + "</code>"), c);
    ExcludesConcat("<code>", "<em>" + (x + ("</em>" + "</code>")), c);
  }

  /** A span pattern other than `<em>` leaves the nested tags alone. */
  lemma NestedHtmlUntouched(x: string, p: Span)
    requires Plain(x) && x != []
    requires p == CodeToMarkdown || p == StrongToMarkdown
    ensures ReplaceSpan(NestedHtml(x), p) == NestedHtml(x)
  {
    var rest := "<em>" + (x + ("</em>" + "</code>"));
    if p == CodeToMarkdown {
      EmptyBodyMiss(p, rest);
    } else {
      TagMiss(p, "<code>", rest);
    }
    TagTextMiss(p, "<em>", x, "</em>" + "</code>");
    ClosersUntouched(p);
  }

  /** `*x*` inside a code tag, with no tag left that del or link would match. */
  lemma NestedRebuiltUntouched(x: string)
    requires Plain(x) && x != []
    ensures ReplaceSpan(NestedRebuilt(x), DelToMarkdown) == NestedRebuilt(x)
    ensures ReplaceLink(NestedRebuilt(x), LinkToMarkdown) == NestedRebuilt(x)
  {
    NestedRebuiltDel(x);
    NestedRebuiltLink(x);
  }

  lemma NestedRebuiltDel(x: string)
    requires Plain(x) && x != []
    ensures ReplaceSpan(NestedRebuilt(x), DelToMarkdown) == NestedRebuilt(x)
  {
    MarkedTagUntouched(DelToMarkdown, "<code>", "*", x, "</code>");
  }

  lemma NestedRebuiltLink(x: string)
    requires Plain(x) && x != []
    ensures ReplaceLink(NestedRebuilt(x), LinkToMarkdown) == NestedRebuilt(x)
  {
    MarkedTagUntouchedByLink(LinkToMarkdown, "<code>", "*", x, "</code>");
  }

  /** Another tag around marked text, where nothing holds a `<`, is no span. */
  lemma MarkedTagUntouched(p: Span, o: string, m: string, x: string, c: string)
    requires |p.open| >= 2 && p.open[0] == '<'
    requires |o| >= 2 && o[1] != p.open[1] && Excludes(o[1..], '<')
    requires |c| >= 2 && c[1] != p.open[1] && Excludes(c[1..], '<')
    requires Excludes(m, '<') && Excludes(x, '<')
    ensures ReplaceSpan(o + (m + (x + (m + c))), p) == o + (m + (x + (m + c)))
  {
    TagAlone(p, c);
    TagMiss(p, o, m + (x + (m + c)));
    SpanSkip(p, m, x + (m + c));
    SpanSkip(p, x, m + c);
    SpanSkip(p, m, c);
  }

  /** Another tag around marked text, where nothing holds a `<`, is no link. */
  lemma MarkedTagUntouchedByLink(q: Link, o: string, m: string, x: string, c: string)
    requires |q.open| >= 2 && q.open[0] == '<'
    requires |o| >= 2 && o[0] == '<' && o[1] != q.open[1] && Excludes(o[1..], '<')
    requires |c| >= 2 && c[0] == '<' && c[1] != q.open[1] && Excludes(c[1..], '<')
    requires Excludes(m, '<') && Excludes(x, '<')
    ensures ReplaceLink(o + (m + (x + (m + c))), q) == o + (m + (x + (m + c)))
  {
    TagAloneLink(q, c);
    TagMissLink(q, o, m + (x + (m + c)));
    LinkSkip(q, m, x + (m + c));
    LinkSkip(q, x, m + c);
    LinkSkip(q, m, c);
  }

  /** ... and `build` only restores the emphasis: tag bodies holding a `<` are
      never matched, so the code tag survives. */
  lemma NestedBuilds(x: string)
    requires Plain(x) && x != []
    ensures Build(NestedHtml(x)) == NestedRebuilt(x)
  {
    NestedHtmlUntouched(x, CodeToMarkdown);
    NestedHtmlUntouched(x, StrongToMarkdown);
    NestedEmBuilds(x);
    NestedRebuiltUntouched(x);
    BuildChain(NestedHtml(x), NestedRebuilt(x));
  }

  lemma NestedEmBuilds(x: string)
    requires Plain(x) && x != []
    ensures ReplaceSpan(NestedHtml(x), EmToMarkdown) == NestedRebuilt(x)
  {
    HitBetweenTags(EmToMarkdown, "<code>", x, "</code>");
  }

  /** `build` when only the emphasis pass changes anything. */
  lemma BuildChain(h: string, r: string)
    requires ReplaceSpan(h, CodeToMarkdown) == h && ReplaceSpan(h, StrongToMarkdown) == h
    requires ReplaceSpan(h, EmToMarkdown) == r
    requires ReplaceSpan(r, DelToMarkdown) == r && ReplaceLink(r, LinkToMarkdown) == r
    ensures Build(h) == r
  {
  }

  /** Nested markup does not survive `parse` then `build`. */
  lemma NestedDoesNotRoundTrip(x: string)
    requires Plain(x) && x != []
    ensures Build(Parse(NestedMarkdown(x))) == NestedRebuilt(x) != NestedMarkdown(x)
  {
    NestedParses(x);
    NestedBuilds(x);
    assert NestedRebuilt(x)[0] == '<' != NestedMarkdown(x)[0];
  }

  lemma NestedExample()
    ensures Parse("`*x*`") == "<code><em>x</em></code>"
    ensures Build("<code><em>x</em></code>") == "<code>*x*</code>"
  {
    assert "`*x*`" == NestedMarkdown("x");
    assert "<code><em>x</em></code>" == NestedHtml("x");
    assert "<code>*x*</code>" == NestedRebuilt("x");
    NestedParses("x");
    NestedBuilds("x");
  }
}
