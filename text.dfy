/**
 * The handful of Python `str` operations the modelled code relies on:
 * `lower`, `upper`, `capitalize`, `strip`, `split`, `startswith`, `in`,
 * `join`, decimal rendering of integers and the ordering `sorted` uses.
 * Character classes are the ASCII ones (see README, "Left out").
 */
module Text {

  datatype Option<+T> = None | Some(value: T)

  /**
   * The ASCII characters Python counts as whitespace (`str.strip()`,
   * `str.isspace()`, regex `\s`): space, tab, line feed, carriage return,
   * vertical tab, form feed and the four separators U+001C to U+001F.
   */
  const WHITESPACE: set<char> := {' ', '\t', '\n', '\r', '\U{000B}', '\U{000C}',
                                  '\U{001C}', '\U{001D}', '\U{001E}', '\U{001F}'}

  predicate IsSpace(c: char) { c in WHITESPACE }
  predicate IsDigit(c: char) { '0' <= c <= '9' }
  predicate IsUpper(c: char) { 'A' <= c <= 'Z' }
  predicate IsLower(c: char) { 'a' <= c <= 'z' }
  predicate IsAlpha(c: char) { IsUpper(c) || IsLower(c) }
  /** Regex `\w`: letters, digits and underscore. */
  predicate IsWord(c: char) { IsAlpha(c) || IsDigit(c) || c == '_' }

  function Lower(c: char): (r: char)
    ensures IsUpper(c) ==> IsLower(r) && r as int == c as int + 32
    ensures !IsUpper(c) ==> r == c
  {
    if IsUpper(c) then (c as int + 32) as char else c
  }

  function Upper(c: char): (r: char)
    ensures IsLower(c) ==> IsUpper(r) && r as int == c as int - 32
    ensures !IsLower(c) ==> r == c
  {
    if IsLower(c) then (c as int - 32) as char else c
  }

  /** `s.lower()` */
  function LowerStr(s: string): (r: string)
    ensures |r| == |s|
    ensures forall i :: 0 <= i < |s| ==> r[i] == Lower(s[i])
  {
    seq(|s|, i requires 0 <= i < |s| => Lower(s[i]))
  }

  /** `s.upper()` */
  function UpperStr(s: string): (r: string)
    ensures |r| == |s|
    ensures forall i :: 0 <= i < |s| ==> r[i] == Upper(s[i])
  {
    seq(|s|, i requires 0 <= i < |s| => Upper(s[i]))
  }

  /** Lowercasing forgets case: an uppercased text lowercases like the original. */
  lemma LowerOfUpper(s: string)
    ensures LowerStr(UpperStr(s)) == LowerStr(s)
  {
    forall i | 0 <= i < |s| ensures Lower(Upper(s[i])) == Lower(s[i]) {
      if IsLower(s[i]) {
        assert Upper(s[i]) as int == s[i] as int - 32;
      }
    }
  }

  lemma LowerIdempotent(s: string)
    ensures LowerStr(LowerStr(s)) == LowerStr(s)
  {
  }

  /** `s.capitalize()`: first character upper-cased, the rest lower-cased. */
  function Capitalize(s: string): (r: string)
    ensures |r| == |s|
    ensures s != [] ==> r[0] == Upper(s[0]) && r[1..] == LowerStr(s[1..])
  {
    if s == [] then [] else [Upper(s[0])] + LowerStr(s[1..])
  }

  /** Capitalising a word already in lower case only raises its first letter. */
  lemma CapitalizeWord(s: string)
    requires s != [] && forall i :: 0 <= i < |s| ==> IsLower(s[i])
    ensures Capitalize(s) == [Upper(s[0])] + s[1..]
  {
    assert LowerStr(s[1..]) == s[1..];
  }

  /** Python's `sub in s`. */
  predicate Contains(s: string, sub: string) {
    exists i :: 0 <= i <= |s| && StartsWith(s[i..], sub)
  }

  /** `s.startswith(p)` */
  predicate StartsWith(s: string, p: string) {
    |p| <= |s| && s[..|p|] == p
  }

  /** A text starting with a non-empty prefix starts with the prefix's first character. */
  lemma StartsWithHead(s: string, p: string)
    requires StartsWith(s, p) && p != []
    ensures s != [] && s[0] == p[0]
  {
    assert s[..|p|][0] == s[0];
  }

  lemma ContainsAt(s: string, sub: string, i: nat)
    requires i + |sub| <= |s| && s[i..i + |sub|] == sub
    ensures Contains(s, sub)
  {
    assert StartsWith(s[i..], sub);
  }

  lemma ContainsMiddle(a: string, b: string, c: string)
    ensures Contains(a + b + c, b)
  {
    var s := a + b + c;
    assert s[|a|..|a| + |b|] == b;
    ContainsAt(s, b, |a|);
  }

  lemma ContainsChar(s: string, c: char)
    ensures Contains(s, [c]) <==> c in s
  {
    if c in s {
      var i :| 0 <= i < |s| && s[i] == c;
      assert s[i..i + 1] == [c];
      ContainsAt(s, [c], i);
    }
    if Contains(s, [c]) {
      var i :| 0 <= i <= |s| && StartsWith(s[i..], [c]);
      assert s[i] == c;
    }
  }

  /** Drops the leading characters that are in `cs`. */
  function TrimStart(s: string, cs: set<char>): (r: string)
    ensures |r| <= |s| && r == s[|s| - |r|..]
    ensures forall i :: 0 <= i < |s| - |r| ==> s[i] in cs
    ensures r != [] ==> r[0] !in cs
  {
    if s != [] && s[0] in cs then
      var r := TrimStart(s[1..], cs);
      assert forall i :: 1 <= i < |s| - |r| ==> s[i] == s[1..][i - 1];
      r
    else s
  }

  /** Drops the trailing characters that are in `cs`. */
  function TrimEnd(s: string, cs: set<char>): (r: string)
    ensures |r| <= |s| && r == s[..|r|]
    ensures forall i :: |r| <= i < |s| ==> s[i] in cs
    ensures r != [] ==> r[|r| - 1] !in cs
  {
    if s != [] && s[|s| - 1] in cs then
      var r := TrimEnd(s[..|s| - 1], cs);
      assert forall i :: |r| <= i < |s| - 1 ==> s[i] == s[..|s| - 1][i];
      r
    else s
  }

  /** `s.strip(chars)`: both ends. */
  function StripChars(s: string, cs: set<char>): (r: string)
    ensures |r| <= |s|
    ensures Contains(s, r)
    ensures r != [] ==> r[0] !in cs && r[|r| - 1] !in cs
  {
    var t := TrimStart(s, cs);
    var r := TrimEnd(t, cs);
    PrefixOfSuffix(s, t, r);
    r
  }

  /** A prefix of a suffix of `s` occurs in `s`. */
  lemma PrefixOfSuffix(s: string, t: string, r: string)
    requires |t| <= |s| && t == s[|s| - |t|..]
    requires |r| <= |t| && r == t[..|r|]
    ensures Contains(s, r)
  {
    var i := |s| - |t|;
    assert s[i..i + |r|] == r;
    ContainsAt(s, r, i);
  }

  /** `s.strip()` */
  function Strip(s: string): (r: string)
    ensures |r| <= |s|
    ensures r != [] ==> !IsSpace(r[0]) && !IsSpace(r[|r| - 1])
  {
    StripChars(s, WHITESPACE)
  }

  /** A string that neither starts nor ends with whitespace is its own strip. */
  lemma StripNoSpace(s: string)
    requires s != [] ==> !IsSpace(s[0]) && !IsSpace(s[|s| - 1])
    ensures Strip(s) == s
  {
  }

  /** Stripping a string with a trailing newline but no other padding removes the newline. */
  lemma StripTrailingNewline(s: string)
    requires s != [] && !IsSpace(s[0]) && !IsSpace(s[|s| - 1])
    ensures Strip(s + "\n") == s
  {
    var t := s + "\n";
    assert TrimStart(t, WHITESPACE) == t;
    assert t[..|t| - 1] == s;
    assert TrimEnd(t, WHITESPACE) == TrimEnd(s, WHITESPACE);
  }

  lemma StripIdempotent(s: string)
    ensures Strip(Strip(s)) == Strip(s)
  {
    StripNoSpace(Strip(s));
  }

  /** Index of the first `c` in `s` (`s.find(c)` when it is not -1). */
  function Find(s: string, c: char): (r: Option<nat>)
    ensures r.None? <==> c !in s
    ensures r.Some? ==> r.value < |s| && s[r.value] == c && c !in s[..r.value]
  {
    if s == [] then None
    else if s[0] == c then Some(0)
    else match Find(s[1..], c)
      case None => None
      case Some(k) =>
        assert s[..k + 1] == [s[0]] + s[1..][..k];
        Some(k + 1)
  }

  /** `s.split(c, 1)` when `c in s`: the parts before and after the first `c`. */
  function SplitFirst(s: string, c: char): (r: Option<(string, string)>)
    ensures r.None? <==> c !in s
    ensures r.Some? ==> s == r.value.0 + [c] + r.value.1 && c !in r.value.0
  {
    match Find(s, c)
    case None => None
    case Some(k) =>
      assert s == s[..k] + [c] + s[k + 1..];
      Some((s[..k], s[k + 1..]))
  }

  /** `sep.join(parts)` */
  function Join(parts: seq<string>, sep: string): (r: string)
  {
    if |parts| == 0 then ""
    else if |parts| == 1 then parts[0]
    else parts[0] + sep + Join(parts[1..], sep)
  }

  /** Appending a part adds one separator and the part. */
  lemma {:induction false} JoinSnoc(parts: seq<string>, p: string, sep: string)
    requires parts != []
    ensures Join(parts + [p], sep) == Join(parts, sep) + sep + p
  {
    if |parts| > 1 {
      assert (parts + [p])[1..] == parts[1..] + [p];
      JoinSnoc(parts[1..], p, sep);
    }
  }

  /** A character missing from `s` is missing from every piece of it. */
  lemma ContainsExcludes(s: string, sub: string, c: char)
    requires Contains(s, sub) && c !in s
    ensures c !in sub
  {
    var i :| 0 <= i <= |s| && StartsWith(s[i..], sub);
    forall k | 0 <= k < |sub| ensures sub[k] != c {
      assert sub[k] == s[i + k];
    }
  }

  /** A join ends where its last part ends. */
  lemma {:induction false} JoinLast(parts: seq<string>, sep: string)
    requires parts != [] && parts[|parts| - 1] != []
    ensures var j := Join(parts, sep); var p := parts[|parts| - 1]; j != [] && j[|j| - 1] == p[|p| - 1]
  {
    if |parts| > 1 {
      JoinLast(parts[1..], sep);
    }
  }

  /** `[f(x) for x in xs]`, built from the front as a loop appends. */
  function MapSeq<A, B>(xs: seq<A>, f: A -> B): seq<B> {
    if xs == [] then [] else MapSeq(xs[..|xs| - 1], f) + [f(xs[|xs| - 1])]
  }

  /** Mapping one more element of a prefix appends its image. */
  lemma MapSeqStep<A, B>(xs: seq<A>, k: nat, f: A -> B)
    requires k < |xs|
    ensures MapSeq(xs[..k], f) + [f(xs[k])] == MapSeq(xs[..k + 1], f)
  {
    assert xs[..k + 1][..k] == xs[..k];
  }

  lemma {:induction false} MapSeqPointwise<A, B>(xs: seq<A>, f: A -> B)
    ensures |MapSeq(xs, f)| == |xs|
    ensures forall k :: 0 <= k < |xs| ==> MapSeq(xs, f)[k] == f(xs[k])
  {
    if xs != [] {
      MapSeqPointwise(xs[..|xs| - 1], f);
    }
  }

  /** The state after feeding the elements of `xs` to `step` in order, starting from `init`. */
  function Fold<S, A>(init: S, xs: seq<A>, step: (S, A) -> S): S {
    if xs == [] then init else step(Fold(init, xs[..|xs| - 1], step), xs[|xs| - 1])
  }

  /** An element that leaves every state as it is can be dropped from anywhere. */
  lemma {:induction false} FoldSkips<S, A>(init: S, a: seq<A>, x: A, b: seq<A>, step: (S, A) -> S)
    requires forall s :: step(s, x) == s
    ensures Fold(init, a + [x] + b, step) == Fold(init, a + b, step)
    decreases |b|
  {
    if b == [] {
      assert (a + [x] + b)[..|a|] == a && a + b == a;
    } else {
      var front := b[..|b| - 1];
      FoldSkips(init, a, x, front, step);
      assert (a + [x] + b)[..|a| + 1 + |front|] == a + [x] + front;
      assert (a + b)[..|a| + |front|] == a + front;
    }
  }

  /**
   * The last element that writes a part of the state decides that part:
   * `proj` is the part, `xs[k]` writes `v` into it, and later elements keep it.
   */
  lemma {:induction false} FoldLastWrite<S, A, V>(init: S, xs: seq<A>, step: (S, A) -> S, proj: S -> V, k: nat, v: V)
    requires k < |xs|
    requires forall s :: proj(step(s, xs[k])) == v
    requires forall j, s :: k < j < |xs| ==> proj(step(s, xs[j])) == proj(s)
    ensures proj(Fold(init, xs, step)) == v
    decreases |xs|
  {
    if k < |xs| - 1 {
      var front := xs[..|xs| - 1];
      assert forall j :: k < j < |front| ==> front[j] == xs[j];
      FoldLastWrite(init, front, step, proj, k, v);
      assert proj(step(Fold(init, front, step), xs[|xs| - 1])) == proj(Fold(init, front, step));
    }
  }

  /** When no element writes a part of the state, it keeps its initial value. */
  lemma {:induction false} FoldNoWrite<S, A, V>(init: S, xs: seq<A>, step: (S, A) -> S, proj: S -> V)
    requires forall j, s :: 0 <= j < |xs| ==> proj(step(s, xs[j])) == proj(s)
    ensures proj(Fold(init, xs, step)) == proj(init)
  {
    if xs != [] {
      var front := xs[..|xs| - 1];
      assert forall j :: 0 <= j < |front| ==> front[j] == xs[j];
      FoldNoWrite(init, front, step, proj);
      assert proj(step(Fold(init, front, step), xs[|xs| - 1])) == proj(Fold(init, front, step));
    }
  }

  /** The values `f` gives for the elements of `xs` that it accepts, in order. */
  function Collect<A, B>(xs: seq<A>, f: A -> Option<B>): (r: seq<B>)
    ensures |r| <= |xs|
  {
    if xs == [] then []
    else
      var init := Collect(xs[..|xs| - 1], f);
      match f(xs[|xs| - 1])
      case None => init
      case Some(y) => init + [y]
  }

  /** A value is collected exactly when `f` gives it for some element. */
  lemma {:induction false} CollectMembers<A, B>(xs: seq<A>, f: A -> Option<B>, y: B)
    ensures y in Collect(xs, f) <==> exists k :: 0 <= k < |xs| && f(xs[k]) == Some(y)
  {
    if xs != [] {
      var init := xs[..|xs| - 1];
      CollectMembers(init, f, y);
      if y in Collect(xs, f) && y !in Collect(init, f) {
        assert f(xs[|xs| - 1]) == Some(y);
      }
      if exists k :: 0 <= k < |xs| && f(xs[k]) == Some(y) {
        var k :| 0 <= k < |xs| && f(xs[k]) == Some(y);
        if k < |init| {
          assert init[k] == xs[k];
        }
      }
    }
  }

  /** Collecting over a concatenation collects from either part. */
  lemma CollectAppend<A, B>(a: seq<A>, b: seq<A>, f: A -> Option<B>, y: B)
    ensures y in Collect(a + b, f) <==> y in Collect(a, f) || y in Collect(b, f)
  {
    CollectMembers(a + b, f, y);
    CollectMembers(a, f, y);
    CollectMembers(b, f, y);
    if exists k :: 0 <= k < |a + b| && f((a + b)[k]) == Some(y) {
      var k :| 0 <= k < |a + b| && f((a + b)[k]) == Some(y);
      if k >= |a| {
        assert b[k - |a|] == (a + b)[k];
      }
    }
    if exists k :: 0 <= k < |a| && f(a[k]) == Some(y) {
      var k :| 0 <= k < |a| && f(a[k]) == Some(y);
      assert (a + b)[k] == a[k];
    }
    if exists k :: 0 <= k < |b| && f(b[k]) == Some(y) {
      var k :| 0 <= k < |b| && f(b[k]) == Some(y);
      assert (a + b)[|a| + k] == b[k];
    }
  }

  /** `s.split(c)`: the pieces between occurrences of `c`, joining back to `s`. */
  function Split(s: string, c: char): (r: seq<string>)
    ensures |r| >= 1
    ensures forall i :: 0 <= i < |r| ==> c !in r[i]
    ensures Join(r, [c]) == s
    decreases |s|
  {
    match SplitFirst(s, c)
    case None => [s]
    case Some((before, after)) =>
      var rest := Split(after, c);
      assert ([before] + rest)[1..] == rest;
      [before] + rest
  }

  /** `Split` is the only way to cut `s` into `c`-free pieces that join back to `s`. */
  lemma {:induction false} SplitUnique(s: string, c: char, parts: seq<string>)
    requires |parts| >= 1
    requires forall i :: 0 <= i < |parts| ==> c !in parts[i]
    requires Join(parts, [c]) == s
    ensures parts == Split(s, c)
    decreases |s|
  {
    if |parts| == 1 {
      assert c !in s;
    } else {
      var rest := parts[1..];
      assert s == parts[0] + [c] + Join(rest, [c]);
      assert s[|parts[0]|] == c;
      var f := Find(s, c);
      assert s[..|parts[0]|] == parts[0];
      assert f == Some(|parts[0]|);
      assert s[|parts[0]| + 1..] == Join(rest, [c]);
      SplitUnique(Join(rest, [c]), c, rest);
    }
  }

  function DigitChar(d: nat): (r: char)
    requires d < 10
    ensures IsDigit(r)
  {
    ('0' as int + d) as char
  }

  /** `str(n)` for a non-negative integer: decimal digits, no leading zero. */
  function NatToString(n: nat): (r: string)
    ensures r != []
    ensures forall i :: 0 <= i < |r| ==> IsDigit(r[i])
    ensures |r| > 1 ==> r[0] != '0'
  {
    if n < 10 then [DigitChar(n)] else NatToString(n / 10) + [DigitChar(n % 10)]
  }

  /** Reads a string of decimal digits back as a number. */
  function DigitsValue(s: string): nat
    requires forall i :: 0 <= i < |s| ==> IsDigit(s[i])
  {
    if s == [] then 0
    else
      assert IsDigit(s[|s| - 1]);
      10 * DigitsValue(s[..|s| - 1]) + (s[|s| - 1] as int - '0' as int)
  }

  lemma {:induction false} NatToStringRoundTrip(n: nat)
    ensures DigitsValue(NatToString(n)) == n
  {
    if n >= 10 {
      var s := NatToString(n);
      assert s[..|s| - 1] == NatToString(n / 10);
      NatToStringRoundTrip(n / 10);
    }
  }

  lemma NatToStringInjective(m: nat, n: nat)
    requires NatToString(m) == NatToString(n)
    ensures m == n
  {
    NatToStringRoundTrip(m);
    NatToStringRoundTrip(n);
  }

  /** Python's `<` on strings: lexicographic by code point. */
  predicate LexLess(a: string, b: string) {
    if a == [] then b != []
    else if b == [] then false
    else a[0] < b[0] || (a[0] == b[0] && LexLess(a[1..], b[1..]))
  }

  lemma {:induction false} LexLessIrreflexive(a: string)
    ensures !LexLess(a, a)
  {
    if a != [] { LexLessIrreflexive(a[1..]); }
  }

  lemma {:induction false} LexLessTransitive(a: string, b: string, c: string)
    requires LexLess(a, b) && LexLess(b, c)
    ensures LexLess(a, c)
  {
    if a != [] && b != [] && c != [] && a[0] == b[0] == c[0] {
      LexLessTransitive(a[1..], b[1..], c[1..]);
    }
  }

  lemma {:induction false} LexLessTotal(a: string, b: string)
    requires a != b
    ensures LexLess(a, b) || LexLess(b, a)
  {
    if a != [] && b != [] && a[0] == b[0] {
      assert a == [a[0]] + a[1..] && b == [b[0]] + b[1..];
      LexLessTotal(a[1..], b[1..]);
    }
  }

  lemma {:induction false} LexLessAsymmetric(a: string, b: string)
    ensures !(LexLess(a, b) && LexLess(b, a))
  {
    if a != [] && b != [] && a[0] == b[0] {
      LexLessAsymmetric(a[1..], b[1..]);
    }
  }

  /** In ascending order with no repeats: what `sorted(set(...))` produces. */
  ghost predicate StrictlySorted(s: seq<string>) {
    forall i, j :: 0 <= i < j < |s| ==> LexLess(s[i], s[j])
  }

  /** Inserts `x` at its place in a strictly sorted sequence (no-op when present). */
  function InsertSorted(xs: seq<string>, x: string): (r: seq<string>)
    requires StrictlySorted(xs)
    ensures StrictlySorted(r)
    ensures forall y :: y in r <==> y in xs || y == x
  {
    if xs == [] then [x]
    else if x == xs[0] then xs
    else if LexLess(x, xs[0]) then
      assert forall j :: 0 <= j < |xs| ==> LexLess(x, xs[j]) by {
        forall j | 0 <= j < |xs| ensures LexLess(x, xs[j]) {
          if j > 0 { LexLessTransitive(x, xs[0], xs[j]); }
        }
      }
      [x] + xs
    else
      LexLessTotal(x, xs[0]);
      var rest := InsertSorted(xs[1..], x);
      assert forall y :: y in rest ==> LexLess(xs[0], y);
      [xs[0]] + rest
  }

  /** The first element of a strictly sorted sequence is its least. */
  lemma HeadIsLeast(a: seq<string>)
    requires StrictlySorted(a) && a != []
    ensures forall y :: y in a ==> y == a[0] || LexLess(a[0], y)
  {
  }

  /** Two strictly sorted sequences with the same elements are equal. */
  lemma {:induction false} StrictlySortedUnique(a: seq<string>, b: seq<string>)
    requires StrictlySorted(a) && StrictlySorted(b)
    requires forall y :: y in a <==> y in b
    ensures a == b
  {
    assert a == [] <==> b == [] by {
      if a != [] { assert a[0] in b; }
      if b != [] { assert b[0] in a; }
    }
    if a != [] {
      HeadIsLeast(a);
      HeadIsLeast(b);
      assert a[0] in b && b[0] in a;
      LexLessAsymmetric(a[0], b[0]);
      assert a[0] == b[0];
      LexLessIrreflexive(a[0]);
      forall y ensures y in a[1..] <==> y in b[1..] {
        if y in a[1..] {
          var i :| 0 <= i < |a[1..]| && a[1..][i] == y;
          assert LexLess(a[0], a[i + 1]);
          assert y in b && y != b[0];
          var k :| 0 <= k < |b| && b[k] == y;
          assert b[1..][k - 1] == y;
        }
        if y in b[1..] {
          var i :| 0 <= i < |b[1..]| && b[1..][i] == y;
          assert LexLess(b[0], b[i + 1]);
          assert y in a && y != a[0];
          var k :| 0 <= k < |a| && a[k] == y;
          assert a[1..][k - 1] == y;
        }
      }
      StrictlySortedUnique(a[1..], b[1..]);
      assert a == [a[0]] + a[1..] && b == [b[0]] + b[1..];
    }
  }

  /** The strictly sorted sequence of the distinct elements of `xs`. */
  function SortStrings(xs: seq<string>): (r: seq<string>)
    ensures StrictlySorted(r)
    ensures forall y :: y in r <==> y in xs
  {
    if xs == [] then []
    else
      var init := SortStrings(xs[..|xs| - 1]);
      assert forall y :: y in xs <==> y in xs[..|xs| - 1] || y == xs[|xs| - 1] by {
        assert xs == xs[..|xs| - 1] + [xs[|xs| - 1]];
      }
      InsertSorted(init, xs[|xs| - 1])
  }

  /** Lists a set of strings in ascending order. */
  method SortedFromSet(s: set<string>) returns (r: seq<string>)
    ensures StrictlySorted(r)
    ensures forall y :: y in r <==> y in s
  {
    r := [];
    var remaining := s;
    while remaining != {}
      invariant remaining <= s
      invariant StrictlySorted(r)
      invariant forall y :: y in r <==> y in s && y !in remaining
      decreases |remaining|
    {
      var x :| x in remaining;
      r := InsertSorted(r, x);
      remaining := remaining - {x};
    }
  }
}
