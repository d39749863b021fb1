/**
 * The two regular expressions `detect_schedule_conflicts` applies to a line
 * (src/agents/tools.py), written out as matchers. Python's `re.search`
 * returns the leftmost match; for these patterns every greedy quantifier is
 * followed by a character its class excludes, so a match starting at a given
 * position is unique and no backtracking is needed.
 *
 *   time:    (\w+)\s+(\d{1,2}:\d{2}\s+[AP]M)\s*[-:]\s*\d{1,2}:\d{2}\s+[AP]M
 *   verbose: (O-?Level|A-?Level|Level-?[IVX]+)\s+Section\s+([A-Z])   (ignoring case)
 *   compact: \b([OA]\d[A-Z])\b
 */
module Patterns {
  import opened Text

  const UNKNOWN_CLASS := "Unknown Class"

  /** End of the longest run of `inClass` characters starting at `i`. */
  function RunEnd(s: string, i: nat, inClass: char -> bool): (r: nat)
    requires i <= |s|
    ensures i <= r <= |s|
    ensures forall k :: i <= k < r ==> inClass(s[k])
    ensures r == |s| || !inClass(s[r])
    decreases |s| - i
  {
    if i < |s| && inClass(s[i]) then RunEnd(s, i + 1, inClass) else i
  }

  /** A run is determined by its start: any maximal run from `i` ends where `RunEnd` says. */
  lemma RunEndUnique(s: string, i: nat, inClass: char -> bool, e: nat)
    requires i <= e <= |s|
    requires forall k :: i <= k < e ==> inClass(s[k])
    requires e == |s| || !inClass(s[e])
    ensures RunEnd(s, i, inClass) == e
  {
  }

  /** Text of `\d{1,2}:\d{2}`. */
  predicate IsClock(t: string) {
    || (|t| == 4 && IsDigit(t[0]) && t[1] == ':' && IsDigit(t[2]) && IsDigit(t[3]))
    || (|t| == 5 && IsDigit(t[0]) && IsDigit(t[1]) && t[2] == ':' && IsDigit(t[3]) && IsDigit(t[4]))
  }

  /** Text of `\s+[AP]M`. */
  predicate IsMeridiem(t: string) {
    && |t| >= 3
    && (forall k :: 0 <= k < |t| - 2 ==> IsSpace(t[k]))
    && (t[|t| - 2] == 'A' || t[|t| - 2] == 'P')
    && t[|t| - 1] == 'M'
  }

  /** Text of group 2 of the time pattern: `\d{1,2}:\d{2}\s+[AP]M`, the start time only. */
  predicate IsStartTime(t: string) {
    || (|t| >= 4 && IsClock(t[..4]) && IsMeridiem(t[4..]))
    || (|t| >= 5 && IsClock(t[..5]) && IsMeridiem(t[5..]))
  }

  /** `\d{1,2}:\d{2}` at `i`: the end of the one match starting there, if any. */
  function ClockAt(s: string, i: nat): (r: Option<nat>)
    requires i <= |s|
    ensures r.Some? ==> i < r.value <= |s| && IsClock(s[i..r.value])
    ensures forall e :: i <= e <= |s| && IsClock(s[i..e]) ==> r == Some(e)
  {
    if i + 4 <= |s| && IsDigit(s[i]) && s[i + 1] == ':' && IsDigit(s[i + 2]) && IsDigit(s[i + 3]) then
      Some(i + 4)
    else if i + 5 <= |s| && IsDigit(s[i]) && IsDigit(s[i + 1]) && s[i + 2] == ':'
      && IsDigit(s[i + 3]) && IsDigit(s[i + 4]) then
      Some(i + 5)
    else
      None
  }

  /** Where a `\s+[AP]M` text starting at `i` has its space run end. */
  lemma MeridiemShape(s: string, i: nat, e: nat)
    requires i <= e <= |s| && IsMeridiem(s[i..e])
    ensures RunEnd(s, i, IsSpace) == e - 2 > i
    ensures (s[e - 2] == 'A' || s[e - 2] == 'P') && s[e - 1] == 'M'
  {
    var t := s[i..e];
    forall k | i <= k < e - 2 ensures IsSpace(s[k]) { assert t[k - i] == s[k]; }
    assert t[|t| - 2] == s[e - 2];
    RunEndUnique(s, i, IsSpace, e - 2);
  }

  /** `\s+[AP]M` at `i`: the end of the one match starting there, if any. */
  function MeridiemAt(s: string, i: nat): (r: Option<nat>)
    requires i <= |s|
    ensures r.Some? ==> i < r.value <= |s| && IsMeridiem(s[i..r.value])
    ensures forall e :: i <= e <= |s| && IsMeridiem(s[i..e]) ==> r == Some(e)
  {
    var w := RunEnd(s, i, IsSpace);
    assert forall e :: i <= e <= |s| && IsMeridiem(s[i..e]) ==>
      e == w + 2 && w > i && (s[w] == 'A' || s[w] == 'P') && s[w + 1] == 'M' by {
      forall e | i <= e <= |s| && IsMeridiem(s[i..e])
        ensures e == w + 2 && w > i && (s[w] == 'A' || s[w] == 'P') && s[w + 1] == 'M'
      {
        MeridiemShape(s, i, e);
      }
    }
    if w > i && w + 2 <= |s| && (s[w] == 'A' || s[w] == 'P') && s[w + 1] == 'M' then
      Some(w + 2)
    else
      None
  }

  /** `\d{1,2}:\d{2}\s+[AP]M` at `i`: where the start time ends. */
  function StartTimeAt(s: string, i: nat): (r: Option<nat>)
    requires i <= |s|
    ensures r.Some? ==> i < r.value <= |s| && IsStartTime(s[i..r.value])
  {
    match ClockAt(s, i)
    case None => None
    case Some(c) =>
      match MeridiemAt(s, c)
      case None => None
      case Some(m) =>
        var t := s[i..m];
        assert t[..c - i] == s[i..c] && t[c - i..] == s[c..m];
        Some(m)
  }

  /** `\s*[-:]\s*\d{1,2}:\d{2}\s+[AP]M` at `i`: the end time, which is matched and dropped. */
  predicate EndTimeAt(s: string, i: nat)
    requires i <= |s|
  {
    var k := RunEnd(s, i, IsSpace);
    && k < |s| && (s[k] == '-' || s[k] == ':')
    && StartTimeAt(s, RunEnd(s, k + 1, IsSpace)).Some?
  }

  /** What the time pattern captures: the day word and the start time. */
  datatype TimeMatch = TimeMatch(day: string, time: string)

  /** The time pattern anchored at `i`. */
  function TimeAt(s: string, i: nat): (r: Option<TimeMatch>)
    ensures r.Some? ==> i < |s| && StartsWith(s[i..], r.value.day)
    ensures r.Some? ==> r.value.day != [] && forall k :: 0 <= k < |r.value.day| ==> IsWord(r.value.day[k])
    ensures r.Some? ==> IsStartTime(r.value.time) && Contains(s, r.value.time)
  {
    if i > |s| then None
    else
      var w := RunEnd(s, i, IsWord);
      var sp := RunEnd(s, w, IsSpace);
      if w == i || sp == w then None
      else match StartTimeAt(s, sp)
        case None => None
        case Some(m) =>
          if !EndTimeAt(s, m) then None
          else
            TimeMatchFacts(s, i, w, sp, m);
            Some(TimeMatch(s[i..w], s[sp..m]))
  }

  /** The pieces `TimeAt` cuts out lie where the pattern says. */
  lemma TimeMatchFacts(s: string, i: nat, w: nat, sp: nat, m: nat)
    requires i < w <= sp < m <= |s|
    requires forall k :: i <= k < w ==> IsWord(s[k])
    requires IsStartTime(s[sp..m])
    ensures StartsWith(s[i..], s[i..w])
    ensures forall k :: 0 <= k < |s[i..w]| ==> IsWord(s[i..w][k])
    ensures Contains(s, s[sp..m])
  {
    ContainsAt(s, s[sp..m], sp);
    assert s[i..][..w - i] == s[i..w];
  }

  /** `s[j..]` begins with `word`, ignoring the case of `s`. */
  predicate WordAtIgnoringCase(s: string, j: nat, word: string) {
    j + |word| <= |s| && LowerStr(s[j..j + |word|]) == word
  }

  predicate IsRomanDigit(c: char) {
    Lower(c) == 'i' || Lower(c) == 'v' || Lower(c) == 'x'
  }

  /** `O-?Level|A-?Level|Level-?[IVX]+` at `i`, ignoring case: where the level ends. */
  function LevelAt(s: string, i: nat): (r: Option<nat>)
    requires i <= |s|
    ensures r.Some? ==> i < r.value <= |s|
    ensures r.Some? ==> Lower(s[i]) == 'o' || Lower(s[i]) == 'a' || Lower(s[i]) == 'l'
  {
    if i < |s| && (Lower(s[i]) == 'o' || Lower(s[i]) == 'a') then
      var j := if i + 1 < |s| && s[i + 1] == '-' then i + 2 else i + 1;
      if WordAtIgnoringCase(s, j, "level") then Some(j + 5) else None
    else if WordAtIgnoringCase(s, i, "level") then
      assert Lower(s[i]) == LowerStr(s[i..i + 5])[0];
      var j := if i + 5 < |s| && s[i + 5] == '-' then i + 6 else i + 5;
      var e := RunEnd(s, j, IsRomanDigit);
      if e > j then Some(e) else None
    else
      None
  }

  /** The verbose class pattern at `i`: the whole matched text, e.g. `O-Level Section A`. */
  function VerboseLabelAt(s: string, i: nat): (r: Option<string>)
    ensures r.Some? ==> i < |s| && StartsWith(s[i..], r.value)
    ensures r.Some? ==> |r.value| >= 2 && (Lower(r.value[0]) == 'o' || Lower(r.value[0]) == 'a' || Lower(r.value[0]) == 'l')
    ensures r.Some? ==> IsAlpha(r.value[|r.value| - 1])
  {
    if i > |s| then None
    else match LevelAt(s, i)
      case None => None
      case Some(j) =>
        var w1 := RunEnd(s, j, IsSpace);
        if w1 == j || !WordAtIgnoringCase(s, w1, "section") then None
        else
          var w2 := RunEnd(s, w1 + 7, IsSpace);
          if w2 == w1 + 7 || w2 >= |s| || !IsAlpha(s[w2]) then None
          else
            assert s[i..][..w2 + 1 - i] == s[i..w2 + 1];
            Some(s[i..w2 + 1])
  }

  /** The compact class pattern at `i`: a code such as `O1A` standing alone as a word. */
  function CompactLabelAt(s: string, i: nat): (r: Option<string>)
    ensures r.Some? ==> i + 3 <= |s| && r.value == s[i..i + 3]
    ensures r.Some? ==> (i == 0 || !IsWord(s[i - 1])) && (i + 3 == |s| || !IsWord(s[i + 3]))
    ensures r.Some? ==> (r.value[0] == 'O' || r.value[0] == 'A') && IsDigit(r.value[1]) && IsUpper(r.value[2])
  {
    if i + 3 <= |s| && (i == 0 || !IsWord(s[i - 1]))
      && (s[i] == 'O' || s[i] == 'A') && IsDigit(s[i + 1]) && IsUpper(s[i + 2])
      && (i + 3 == |s| || !IsWord(s[i + 3]))
    then Some(s[i..i + 3])
    else None
  }

  /** `re.search`: the match at the leftmost position where the pattern matches. */
  function SearchFrom<T>(s: string, i: nat, at: (string, nat) -> Option<T>): (r: Option<T>)
    ensures r.None? <==> forall j :: i <= j <= |s| ==> at(s, j).None?
    ensures r.Some? ==> exists k :: i <= k <= |s| && at(s, k) == r && forall j :: i <= j < k ==> at(s, j).None?
    decreases |s| + 1 - i
  {
    if i > |s| then None
    else if at(s, i).Some? then at(s, i)
    else SearchFrom(s, i + 1, at)
  }

  function Search<T>(s: string, at: (string, nat) -> Option<T>): Option<T> {
    SearchFrom(s, 0, at)
  }

  /**
   * The class label of a line: the verbose form if it occurs anywhere,
   * else the compact code, else "Unknown Class".
   */
  function ClassLabel(line: string): (r: string)
    ensures r != [] && IsAlpha(r[|r| - 1])
  {
    match Search(line, VerboseLabelAt)
    case Some(verbose) => verbose
    case None =>
      match Search(line, CompactLabelAt)
      case Some(code) => code
      case None =>
        assert UNKNOWN_CLASS[|UNKNOWN_CLASS| - 1] == 's';
        UNKNOWN_CLASS
  }

  /**
   * Precedence of the class patterns: a verbose match wins even when a
   * compact code is also present; the sentinel appears exactly when neither
   * pattern matches anywhere in the line.
   */
  lemma ClassLabelPrecedence(line: string)
    ensures Search(line, VerboseLabelAt).Some? ==> ClassLabel(line) == Search(line, VerboseLabelAt).value
    ensures Search(line, VerboseLabelAt).None? && Search(line, CompactLabelAt).Some? ==>
      ClassLabel(line) == Search(line, CompactLabelAt).value
    ensures ClassLabel(line) == UNKNOWN_CLASS <==>
      Search(line, VerboseLabelAt).None? && Search(line, CompactLabelAt).None?
  {
    var verbose := Search(line, VerboseLabelAt);
    var compact := Search(line, CompactLabelAt);
    if verbose.Some? {
      var k := SearchHit(line, VerboseLabelAt);
      VerboseIsNotSentinel(verbose.value);
    } else if compact.Some? {
      var k := SearchHit(line, CompactLabelAt);
      assert |compact.value| == 3;
    }
  }

  /** Where the search succeeds, the pattern matches at some position. */
  lemma SearchHit<T>(s: string, at: (string, nat) -> Option<T>) returns (k: nat)
    requires Search(s, at).Some?
    ensures k <= |s| && at(s, k) == Search(s, at)
  {
    k :| 0 <= k <= |s| && at(s, k) == Search(s, at) && forall j :: 0 <= j < k ==> at(s, j).None?;
  }

  /** A verbose label starts with a level word, so it is never the sentinel. */
  lemma VerboseIsNotSentinel(v: string)
    requires |v| >= 2 && (Lower(v[0]) == 'o' || Lower(v[0]) == 'a' || Lower(v[0]) == 'l')
    ensures v != UNKNOWN_CLASS
  {
    assert Lower(UNKNOWN_CLASS[0]) == 'u';
  }
}
