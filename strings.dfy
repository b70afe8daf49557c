/** The JavaScript string operations the parser relies on (`trim`, `split`,
    `join`, `startsWith`, `repeat`, `toLowerCase`, `includes`), restricted to
    ASCII: whitespace is space, tab, line feed, vertical tab, form feed and
    carriage return, and case folding maps only `A`-`Z`. */
module Strings {

  /** Characters matched by `\s` and removed by `trim`. */
  predicate IsSpace(c: char) {
    c == ' ' || c == '\t' || c == '\n' || c == '\U{0B}' || c == '\U{0C}' || c == '\r'
  }

  /** Characters that `.` in a regular expression does not match. */
  predicate IsLineTerminator(c: char) {
    c == '\n' || c == '\r'
  }

  predicate IsDigit(c: char) {
    '0' <= c <= '9'
  }

  predicate IsLower(c: char) {
    'a' <= c <= 'z'
  }

  /** Characters matched by `\w`. */
  predicate IsWordChar(c: char) {
    'a' <= c <= 'z' || 'A' <= c <= 'Z' || IsDigit(c) || c == '_'
  }

  predicate NoSpaceAtEnds(s: string) {
    s == [] || (!IsSpace(s[0]) && !IsSpace(s[|s| - 1]))
  }

  predicate NoLineTerminator(s: string) {
    forall i :: 0 <= i < |s| ==> !IsLineTerminator(s[i])
  }

  predicate Excludes(s: string, c: char) {
    forall i :: 0 <= i < |s| ==> s[i] != c
  }

  lemma ExcludesConcat(a: string, b: string, c: char)
    ensures Excludes(a + b, c) <==> Excludes(a, c) && Excludes(b, c)
  {
    if Excludes(a, c) && Excludes(b, c) {
      forall i | 0 <= i < |a + b| ensures (a + b)[i] != c {
        if i >= |a| { assert (a + b)[i] == b[i - |a|]; }
      }
    }
    if Excludes(a + b, c) {
      forall i | 0 <= i < |a| ensures a[i] != c {
        assert (a + b)[i] == a[i];
      }
      forall i | 0 <= i < |b| ensures b[i] != c {
        assert (a + b)[|a| + i] == b[i];
      }
    }
  }

  lemma Assoc(a: string, b: string, c: string)
    ensures a + (b + c) == a + b + c
  {
  }

  /** Number of leading characters of `s` that are whitespace. */
  function LeadingSpaces(s: string): (n: nat)
    ensures n <= |s|
    ensures forall i :: 0 <= i < n ==> IsSpace(s[i])
    ensures n < |s| ==> !IsSpace(s[n])
  {
    if s == [] || !IsSpace(s[0]) then 0 else 1 + LeadingSpaces(s[1..])
  }

  /** Number of trailing characters of `s` that are whitespace. */
  function TrailingSpaces(s: string): (n: nat)
    ensures n <= |s|
    ensures forall i :: |s| - n <= i < |s| ==> IsSpace(s[i])
    ensures n < |s| ==> !IsSpace(s[|s| - 1 - n])
  {
    if s == [] || !IsSpace(s[|s| - 1]) then 0 else 1 + TrailingSpaces(s[..|s| - 1])
  }

  function TrimStart(s: string): string {
    s[LeadingSpaces(s)..]
  }

  function TrimEnd(s: string): string {
    s[..|s| - TrailingSpaces(s)]
  }

  /** `String.prototype.trim`: the string without leading and trailing whitespace. */
  function Trim(s: string): (r: string)
    ensures NoSpaceAtEnds(r)
    ensures exists i, j :: 0 <= i <= j <= |s| && r == s[i..j]
  {
    var t := TrimStart(s);
    var r := TrimEnd(t);
    assert r == s[LeadingSpaces(s)..LeadingSpaces(s) + |r|];
    r
  }

  /** `trim` keeps a first character that is not whitespace. */
  lemma TrimKeepsFirst(s: string)
    requires s != [] && !IsSpace(s[0])
    ensures Trim(s) != [] && Trim(s)[0] == s[0]
  {
    assert TrimStart(s) == s;
    assert TrailingSpaces(s) < |s|;
  }

  lemma TrimOfTrimmed(s: string)
    requires NoSpaceAtEnds(s)
    ensures Trim(s) == s
  {
  }

  lemma {:induction false} LeadingSpacesAppend(w: string, s: string)
    requires forall i :: 0 <= i < |w| ==> IsSpace(w[i])
    requires s == [] || !IsSpace(s[0])
    ensures LeadingSpaces(w + s) == |w|
  {
    if w != [] {
      assert (w + s)[1..] == w[1..] + s;
      LeadingSpacesAppend(w[1..], s);
    }
  }

  lemma {:induction false} TrailingSpacesAppend(s: string, w: string)
    requires forall i :: 0 <= i < |w| ==> IsSpace(w[i])
    requires s == [] || !IsSpace(s[|s| - 1])
    ensures TrailingSpaces(s + w) == |w|
  {
    if w != [] {
      assert (s + w)[..|s + w| - 1] == s + w[..|w| - 1];
      TrailingSpacesAppend(s, w[..|w| - 1]);
    }
  }

  /** Whitespace added on either side of a trimmed string is removed by `trim`. */
  lemma TrimPadded(u: string, s: string, v: string)
    requires forall i :: 0 <= i < |u| ==> IsSpace(u[i])
    requires forall i :: 0 <= i < |v| ==> IsSpace(v[i])
    requires NoSpaceAtEnds(s)
    ensures Trim(u + s + v) == s
  {
    if s == [] {
      assert forall i :: 0 <= i < |u + v| ==> IsSpace((u + v)[i]);
      LeadingSpacesAppend(u + v, []);
      assert u + s + v == (u + v) + [];
    } else {
      LeadingSpacesAppend(u, s + v);
      assert u + s + v == u + (s + v);
      assert TrimStart(u + s + v) == s + v;
      TrailingSpacesAppend(s, v);
    }
  }

  function StartsWith(s: string, p: string): bool {
    |p| <= |s| && s[..|p|] == p
  }

  function EndsWith(s: string, p: string): bool {
    |p| <= |s| && s[|s| - |p|..] == p
  }

  /** `String.prototype.includes`. */
  function Contains(s: string, sub: string): bool
    decreases |s|
  {
    StartsWith(s, sub) || (s != [] && Contains(s[1..], sub))
  }

  lemma {:induction false} ContainsPrefix(s: string, sub: string, t: string)
    requires StartsWith(s, sub)
    ensures Contains(s + t, sub)
  {
    assert (s + t)[..|sub|] == s[..|sub|];
  }

  /** The prefix of `s` up to (excluding) its first line terminator: what `(.*)` captures. */
  function UpToLineEnd(s: string): (r: string)
    ensures StartsWith(s, r) && NoLineTerminator(r)
    ensures |r| < |s| ==> IsLineTerminator(s[|r|])
  {
    if s == [] || IsLineTerminator(s[0]) then [] else [s[0]] + UpToLineEnd(s[1..])
  }

  lemma UpToLineEndOfClean(s: string)
    requires NoLineTerminator(s)
    ensures UpToLineEnd(s) == s
  {
    if s != [] {
      UpToLineEndOfClean(s[1..]);
    }
  }

  /** `c.repeat(n)` for a one-character string `c`. */
  function Repeat(c: char, n: nat): (r: string)
    ensures |r| == n && forall i :: 0 <= i < n ==> r[i] == c
  {
    if n == 0 then [] else [c] + Repeat(c, n - 1)
  }

  /** `Array.prototype.join`. */
  function Join(parts: seq<string>, sep: string): string {
    if parts == [] then []
    else if |parts| == 1 then parts[0]
    else parts[0] + sep + Join(parts[1..], sep)
  }

  /** Index of the first `c` in `s`, or `|s|`. */
  function IndexOf(s: string, c: char): (k: nat)
    ensures k <= |s|
    ensures forall i :: 0 <= i < k ==> s[i] != c
    ensures k < |s| ==> s[k] == c
  {
    if s == [] then 0 else if s[0] == c then 0 else 1 + IndexOf(s[1..], c)
  }

  lemma {:induction false} IndexOfAppend(p: string, c: char, t: string)
    requires Excludes(p, c)
    requires t != [] && t[0] == c
    ensures IndexOf(p + t, c) == |p|
  {
    if p != [] {
      assert (p + t)[1..] == p[1..] + t;
      IndexOfAppend(p[1..], c, t);
    }
  }

  /** Index of the first `c` in `s` at or after `i`, or `|s|`. */
  function IndexOfFrom(s: string, c: char, i: nat): (k: nat)
    requires i <= |s|
    ensures i <= k <= |s|
    ensures forall j :: i <= j < k ==> s[j] != c
    ensures k < |s| ==> s[k] == c
    decreases |s| - i
  {
    if i == |s| || s[i] == c then i else IndexOfFrom(s, c, i + 1)
  }

  /** The first `c` at or after `i` is at `i + n` when `n` other characters precede it. */
  lemma {:induction false} IndexOfFromPast(s: string, c: char, i: nat, n: nat)
    requires i + n < |s| && s[i + n] == c
    requires forall j :: i <= j < i + n ==> s[j] != c
    ensures IndexOfFrom(s, c, i) == i + n
    decreases n
  {
    if n > 0 {
      IndexOfFromPast(s, c, i + 1, n - 1);
    }
  }

  /** A string made of `a` then `b` starts with `a` and continues with `b`. */
  lemma Peel0(s: string, a: string, b: string)
    requires s == a + b
    ensures StartsWith(s, a) && s[|a|..] == b
  {
  }

  /** A suffix made of `a` then `b` splits into the two. */
  lemma Peel(s: string, i: nat, a: string, b: string)
    requires i <= |s| && s[i..] == a + b
    ensures i + |a| <= |s| && StartsWith(s[i..], a) && s[i..i + |a|] == a && s[i + |a|..] == b
    ensures a != [] ==> s[i] == a[0]
  {
    assert s[i..i + |a|] == s[i..][..|a|];
    assert s[i + |a|..] == s[i..][|a|..];
    if a != [] {
      assert s[i] == s[i..][0];
    }
  }

  /** The first character of `a + t` is that of `a`, and the rest follows on. */
  lemma ConsSplit(a: string, t: string)
    requires a != []
    ensures (a + t)[0] == a[0] && (a + t)[1..] == a[1..] + t
  {
  }

  /** Putting back the first character of `a`. */
  lemma ConsAssoc(a: string, r: string)
    requires a != []
    ensures [a[0]] + (a[1..] + r) == a + r
  {
    assert [a[0]] + a[1..] == a;
  }

  /** A string made of `a`, `b`, `c` and a rest `y`, read back piece by piece. */
  lemma Layout3(s: string, a: string, b: string, c: string, y: string)
    requires s == a + (b + (c + y))
    ensures |a| + |b| + |c| <= |s| && StartsWith(s, a) && s[|a|..|a| + |b|] == b
    ensures StartsWith(s[|a| + |b|..], c) && s[|a| + |b| + |c|..] == y
  {
    Peel0(s, a, b + (c + y));
    Peel(s, |a|, b, c + y);
    Peel(s, |a| + |b|, c, y);
  }

  /** A suffix made of `b`, `c` and a rest `y`, read back piece by piece. */
  lemma Split2(s: string, j: nat, b: string, c: string, y: string)
    requires j <= |s| && s[j..] == b + (c + y)
    ensures j + |b| + |c| <= |s| && s[j..j + |b|] == b && StartsWith(s[j + |b|..], c) && s[j + |b| + |c|..] == y
  {
    Peel(s, j, b, c + y);
    Peel(s, j + |b|, c, y);
  }

  /** The first `c` at or after `i` ends a field `f` free of `c`. */
  lemma FirstStop(s: string, c: char, i: nat, f: string)
    requires i + |f| < |s| && s[i..i + |f|] == f && Excludes(f, c) && s[i + |f|] == c
    ensures IndexOfFrom(s, c, i) == i + |f|
  {
    forall j | i <= j < i + |f| ensures s[j] != c {
      assert s[j] == s[i..i + |f|][j - i];
    }
    IndexOfFromPast(s, c, i, |f|);
  }

  /** `String.prototype.split` with a one-character separator. */
  function Split(s: string, c: char): (r: seq<string>)
    ensures |r| >= 1
    decreases |s|
  {
    var k := IndexOf(s, c);
    if k == |s| then [s] else [s[..k]] + Split(s[k + 1..], c)
  }

  /** No piece of `split` holds the separator. */
  lemma {:induction false} SplitExcludes(s: string, c: char)
    ensures forall j :: 0 <= j < |Split(s, c)| ==> Excludes(Split(s, c)[j], c)
    decreases |s|
  {
    var k := IndexOf(s, c);
    if k < |s| {
      SplitExcludes(s[k + 1..], c);
      assert Split(s, c) == [s[..k]] + Split(s[k + 1..], c);
    }
  }

  lemma {:induction false} SplitJoin(parts: seq<string>, c: char)
    requires |parts| >= 1
    requires forall j :: 0 <= j < |parts| ==> Excludes(parts[j], c)
    ensures Split(Join(parts, [c]), c) == parts
  {
    var p := parts[0];
    if |parts| == 1 {
      assert IndexOf(p, c) == |p|;
    } else {
      var rest := Join(parts[1..], [c]);
      var s := Join(parts, [c]);
      assert s == p + ([c] + rest);
      IndexOfAppend(p, c, [c] + rest);
      assert s[..|p|] == p && s[|p| + 1..] == rest;
      assert Split(s, c) == [p] + Split(rest, c);
      SplitJoin(parts[1..], c);
      assert parts == [p] + parts[1..];
    }
  }

  /** `split` yields one more piece than there are separators. */
  lemma {:induction false} SplitCount(s: string, c: char)
    ensures |Split(s, c)| == multiset(s)[c] + 1
    decreases |s|
  {
    var k := IndexOf(s, c);
    assert s == s[..k] + s[k..];
    assert multiset(s[..k])[c] == 0 by {
      assert forall i :: 0 <= i < k ==> s[..k][i] != c;
    }
    if k < |s| {
      assert s[k..] == [c] + s[k + 1..];
      SplitCount(s[k + 1..], c);
    }
  }

  /** `Array.prototype.join` with a longer list. */
  lemma {:induction false} JoinSnoc(parts: seq<string>, x: string, sep: string)
    requires parts != []
    ensures Join(parts + [x], sep) == Join(parts, sep) + sep + x
    decreases |parts|
  {
    if |parts| == 1 {
      assert (parts + [x])[1..] == [x];
    } else {
      assert (parts + [x])[1..] == parts[1..] + [x];
      JoinSnoc(parts[1..], x, sep);
    }
  }

  /** ASCII `toLowerCase`. */
  function LowerChar(c: char): (r: char)
    ensures !('A' <= r <= 'Z')
  {
    if 'A' <= c <= 'Z' then (c as int + 32) as char else c
  }

  function Lower(s: string): (r: string)
    ensures |r| == |s| && forall i :: 0 <= i < |s| ==> r[i] == LowerChar(s[i])
  {
    if s == [] then [] else [LowerChar(s[0])] + Lower(s[1..])
  }
}
