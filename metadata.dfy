/**
 * Metadata tagging of ingested documents (`MetadataExtractor`): a document
 * type chosen from the file name or by keyword scores over the content,
 * the grade levels and class sections the text mentions, the academic year,
 * and the merge of those tags into every chunk of a document.
 *
 * The regular-expression engine is left abstract: an `Engine` gives, for a
 * pattern and a text, the list of its non-overlapping matches in the order
 * `re.finditer` yields them. `re.search` is the first of them and
 * `len(re.findall(..))` their number. What is verified is how the extractor
 * combines those answers, not what the patterns match.
 */
module Metadata {
  import opened Text

  /** A pattern as handed to `re`, with whether `re.IGNORECASE` is set. */
  datatype Regex = Regex(pattern: string, ignoreCase: bool)

  /** A match object: the text of groups 1 and 2, `None` for a group that took no part. */
  datatype Match = Match(group1: Option<string>, group2: Option<string>)

  /** All matches of a regex in a text, leftmost first (`re.finditer`). */
  type Engine = (Regex, string) -> seq<Match>

  /** `re.search(..)` is truthy. */
  predicate Matches(engine: Engine, re: Regex, text: string) {
    engine(re, text) != []
  }

  /** `len(re.findall(..))` */
  function CountMatches(engine: Engine, re: Regex, text: string): nat {
    |engine(re, text)|
  }

  /** One entry of a pattern table: a tag and the patterns that signal it. */
  datatype Entry = Entry(tag: string, patterns: seq<string>)

  const DOCUMENT_TYPE_PATTERNS: seq<Entry> := [
    Entry("timetable", ["timetable", "schedule", "class schedule", "teacher roster", @"\d+:\d+\s*[AP]M"]),
    Entry("student_list", [@"student\s+list", @"class\s+roster", "enrollment", @"student\s+roll"]),
    Entry("syllabus", ["syllabus", @"course\s+outline", "curriculum", @"learning\s+objectives"]),
    Entry("exam_schedule", [@"exam\s+schedule", @"examination\s+timetable", @"test\s+schedule", "midterm", @"final\s+exam"]),
    Entry("advisor_assignment", ["advisor", @"advise[sd]", @"guidance\s+counselor"])
  ]

  const GRADE_PATTERNS: seq<Entry> := [
    Entry("O-Level", ["o-level", @"o\s+level", "olevel", @"\bO1\b", @"\bO2\b"]),
    Entry("A-Level", ["a-level", @"a\s+level", "alevel", @"\bA1\b", @"\bA2\b"]),
    Entry("Level-I", [@"level-i\b", @"level\s+i\b", @"level\s+1\b"]),
    Entry("Level-II", [@"level-ii\b", @"level\s+ii\b", @"level\s+2\b"]),
    Entry("Level-III", [@"level-iii\b", @"level\s+iii\b", @"level\s+3\b"])
  ]

  const SECTION_PATTERN: string := @"section\s+([A-Za-z])|(?:^|\s)([A-Za-z])(?:\s+section)"

  const GRADE_SECTION_PATTERNS: seq<string> := [
    @"o-?level\s+section\s+([A-Z])",
    @"a-?level\s+section\s+([A-Z])",
    @"level-?[IVX]+\s+section\s+([A-Z])",
    @"\b[OA]\d([A-Z])\b"
  ]

  const YEAR_PATTERNS: seq<string> := [
    @"academic\s+year\s*:?\s*(\d{4}[-/]\d{4})",
    @"year\s*:?\s*(\d{4}[-/]\d{4})",
    @"(\d{4}[-/]\d{4})\s+academic\s+year",
    @"semester\s+(\d+)\s+(\d{4})"
  ]

  // ---------------------------------------------------------------------------
  // First-match searches
  // ---------------------------------------------------------------------------

  /** Some pattern of the list matches the text. */
  predicate AnyMatches(engine: Engine, patterns: seq<string>, ignoreCase: bool, text: string) {
    exists p :: p in patterns && Matches(engine, Regex(p, ignoreCase), text)
  }

  /** The position of the first pattern, in list order, that matches the text. */
  function FirstHit(engine: Engine, patterns: seq<string>, ignoreCase: bool, text: string): (r: Option<nat>)
    ensures r.None? <==> !AnyMatches(engine, patterns, ignoreCase, text)
    ensures r.Some? ==> r.value < |patterns| && Matches(engine, Regex(patterns[r.value], ignoreCase), text)
    ensures r.Some? ==> forall j :: 0 <= j < r.value ==> !Matches(engine, Regex(patterns[j], ignoreCase), text)
    decreases |patterns|
  {
    if patterns == [] then None
    else if Matches(engine, Regex(patterns[0], ignoreCase), text) then Some(0)
    else
      var rest := FirstHit(engine, patterns[1..], ignoreCase, text);
      assert forall p :: p in patterns ==> p == patterns[0] || p in patterns[1..];
      match rest
      case None => None
      case Some(k) => Some(k + 1)
  }

  /** The position of the first table entry, in table order, one of whose patterns matches. */
  function FirstMatchingEntry(engine: Engine, table: seq<Entry>, ignoreCase: bool, text: string): (r: Option<nat>)
    ensures r.None? <==> forall i :: 0 <= i < |table| ==> !AnyMatches(engine, table[i].patterns, ignoreCase, text)
    ensures r.Some? ==> r.value < |table| && AnyMatches(engine, table[r.value].patterns, ignoreCase, text)
    ensures r.Some? ==> forall j :: 0 <= j < r.value ==> !AnyMatches(engine, table[j].patterns, ignoreCase, text)
    decreases |table|
  {
    if table == [] then None
    else if AnyMatches(engine, table[0].patterns, ignoreCase, text) then Some(0)
    else
      match FirstMatchingEntry(engine, table[1..], ignoreCase, text)
      case None => None
      case Some(k) => Some(k + 1)
  }

  // ---------------------------------------------------------------------------
  // Document type
  // ---------------------------------------------------------------------------

  /** The filename pass: the first type, in table order, with a pattern found in the lower-cased name. */
  function FilenameType(engine: Engine, table: seq<Entry>, filename: string): Option<string> {
    match FirstMatchingEntry(engine, table, false, LowerStr(filename))
    case None => None
    case Some(i) => Some(table[i].tag)
  }

  /** The total number of matches of a type's patterns in the content. */
  function Score(engine: Engine, patterns: seq<string>, text: string): nat {
    if patterns == [] then 0
    else Score(engine, patterns[..|patterns| - 1], text) + CountMatches(engine, Regex(patterns[|patterns| - 1], false), text)
  }

  /** A type scores nothing exactly when none of its patterns is found. */
  lemma {:induction false} ScoreZeroIff(engine: Engine, patterns: seq<string>, text: string)
    ensures Score(engine, patterns, text) == 0 <==> !AnyMatches(engine, patterns, false, text)
  {
    if patterns != [] {
      var init := patterns[..|patterns| - 1];
      var last := patterns[|patterns| - 1];
      ScoreZeroIff(engine, init, text);
      assert patterns == init + [last];
      assert forall p :: p in patterns <==> p in init || p == last;
    }
  }

  /** The score of every entry of the table, in table order. */
  function Scores(engine: Engine, table: seq<Entry>, text: string): (r: seq<nat>)
    ensures |r| == |table|
    ensures forall i :: 0 <= i < |table| ==> r[i] == Score(engine, table[i].patterns, text)
  {
    if table == [] then []
    else Scores(engine, table[..|table| - 1], text) + [Score(engine, table[|table| - 1].patterns, text)]
  }

  /** The `type_scores` dictionary: (type, score) for every type that scored, in table order. */
  function TypeScores(engine: Engine, table: seq<Entry>, text: string): seq<(string, nat)> {
    if table == [] then []
    else
      var init := TypeScores(engine, table[..|table| - 1], text);
      var score := Score(engine, table[|table| - 1].patterns, text);
      if score > 0 then init + [(table[|table| - 1].tag, score)] else init
  }

  /** Python's `max` with a key: the first item whose key is greatest. */
  function FirstMax(items: seq<(string, nat)>): (r: nat)
    requires items != []
    ensures r < |items|
    ensures forall k :: 0 <= k < |items| ==> items[k].1 <= items[r].1
    ensures forall k :: 0 <= k < r ==> items[k].1 < items[r].1
  {
    if |items| == 1 then 0
    else
      var m := FirstMax(items[..|items| - 1]);
      if items[|items| - 1].1 > items[m].1 then |items| - 1 else m
  }

  /** The content pass: the best-scoring type, `None` when no pattern is found. */
  function ContentType(engine: Engine, table: seq<Entry>, text: string): Option<string> {
    var items := TypeScores(engine, table, text);
    if items == [] then None else Some(items[FirstMax(items)].0)
  }

  /**
   * The reference reading of the content pass: the position of the first
   * greatest score, provided it is positive.
   */
  function Best(scores: seq<nat>): (r: Option<nat>)
    ensures r.None? <==> forall k :: 0 <= k < |scores| ==> scores[k] == 0
    ensures r.Some? ==> r.value < |scores| && scores[r.value] > 0
    ensures r.Some? ==> forall k :: 0 <= k < |scores| ==> scores[k] <= scores[r.value]
    ensures r.Some? ==> forall k :: 0 <= k < r.value ==> scores[k] < scores[r.value]
  {
    if scores == [] then None
    else
      var init := scores[..|scores| - 1];
      var last := scores[|scores| - 1];
      var b := Best(init);
      if last > 0 && (b.None? || last > scores[b.value]) then Some(|scores| - 1) else b
  }

  /** The dictionary-and-max computation picks the entry `Best` picks. */
  lemma {:induction false} TypeScoresFollowBest(engine: Engine, table: seq<Entry>, text: string)
    ensures var items := TypeScores(engine, table, text);
            var b := Best(Scores(engine, table, text));
            (items == [] <==> b.None?)
            && (items != [] ==> b.value < |table|
                                && items[FirstMax(items)] == (table[b.value].tag, Scores(engine, table, text)[b.value]))
  {
    if table != [] {
      var init := table[..|table| - 1];
      var e := table[|table| - 1];
      var score := Score(engine, e.patterns, text);
      TypeScoresFollowBest(engine, init, text);
      var scores := Scores(engine, table, text);
      assert scores[..|scores| - 1] == Scores(engine, init, text);
      var items0 := TypeScores(engine, init, text);
      var items := TypeScores(engine, table, text);
      if score > 0 {
        assert items == items0 + [(e.tag, score)];
        if items0 != [] {
          assert items[..|items| - 1] == items0;
        }
      }
    }
  }

  /**
   * The content pass returns the type with the highest total match count,
   * an earlier table entry winning a tie, and `None` when nothing is found.
   */
  lemma ContentTypeWinner(engine: Engine, table: seq<Entry>, text: string)
    ensures ContentType(engine, table, text).None?
            <==> forall i :: 0 <= i < |table| ==> !AnyMatches(engine, table[i].patterns, false, text)
    ensures ContentType(engine, table, text).Some? ==>
              exists i :: 0 <= i < |table| && ContentType(engine, table, text) == Some(table[i].tag)
                          && Score(engine, table[i].patterns, text) > 0
                          && (forall k :: 0 <= k < |table| ==> Score(engine, table[k].patterns, text) <= Score(engine, table[i].patterns, text))
                          && (forall k :: 0 <= k < i ==> Score(engine, table[k].patterns, text) < Score(engine, table[i].patterns, text))
  {
    TypeScoresFollowBest(engine, table, text);
    var scores := Scores(engine, table, text);
    forall i | 0 <= i < |table|
      ensures scores[i] == 0 <==> !AnyMatches(engine, table[i].patterns, false, text)
    {
      ScoreZeroIff(engine, table[i].patterns, text);
    }
    var b := Best(scores);
    if b.Some? {
      assert ContentType(engine, table, text) == Some(table[b.value].tag);
    }
  }

  /** `_extract_document_type`: a matching file name decides; otherwise the content does. */
  function DocumentType(engine: Engine, table: seq<Entry>, content: string, filename: Option<string>): (r: Option<string>)
    ensures r.Some? ==> exists i :: 0 <= i < |table| && r.value == table[i].tag
    ensures r.None? ==> forall i :: 0 <= i < |table| ==> !AnyMatches(engine, table[i].patterns, false, content)
  {
    ContentTypeWinner(engine, table, content);
    if filename.Some? && filename.value != [] && FilenameType(engine, table, filename.value).Some? then
      FilenameType(engine, table, filename.value)
    else
      ContentType(engine, table, content)
  }

  /**
   * When a file name is given and some pattern is found in it, the first
   * type in table order wins and the content plays no part.
   */
  lemma FilenameWins(engine: Engine, table: seq<Entry>, content: string, other: string, filename: string, i: nat)
    requires filename != [] && i < |table|
    requires AnyMatches(engine, table[i].patterns, false, LowerStr(filename))
    requires forall j :: 0 <= j < i ==> !AnyMatches(engine, table[j].patterns, false, LowerStr(filename))
    ensures DocumentType(engine, table, content, Some(filename)) == Some(table[i].tag)
    ensures DocumentType(engine, table, content, Some(filename)) == DocumentType(engine, table, other, Some(filename))
  {
    var r := FirstMatchingEntry(engine, table, false, LowerStr(filename));
    assert r.Some?;
    assert r.value == i;
  }

  /** Without a file name, or when no pattern is found in it, the content pass decides. */
  lemma ContentDecidesOtherwise(engine: Engine, table: seq<Entry>, content: string, filename: Option<string>)
    requires filename.Some? ==> forall i :: 0 <= i < |table| ==> !AnyMatches(engine, table[i].patterns, false, LowerStr(filename.value))
    ensures DocumentType(engine, table, content, filename) == ContentType(engine, table, content)
  {
  }

  /** `score += len(re.findall(pattern, content))` over one type's patterns. */
  method ScorePatterns(engine: Engine, patterns: seq<string>, content: string) returns (score: nat)
    ensures score == Score(engine, patterns, content)
  {
    score := 0;
    var j := 0;
    while j < |patterns|
      invariant 0 <= j <= |patterns|
      invariant score == Score(engine, patterns[..j], content)
    {
      assert patterns[..j + 1][..j] == patterns[..j];
      score := score + CountMatches(engine, Regex(patterns[j], false), content);
      j := j + 1;
    }
    assert patterns[..j] == patterns;
  }

  /** Builds `type_scores` and returns the key of its maximal item. */
  method ScoreContent(engine: Engine, table: seq<Entry>, content: string) returns (r: Option<string>)
    ensures r == ContentType(engine, table, content)
  {
    var typeScores: seq<(string, nat)> := [];
    var i := 0;
    while i < |table|
      invariant 0 <= i <= |table|
      invariant typeScores == TypeScores(engine, table[..i], content)
    {
      assert table[..i + 1][..i] == table[..i];
      var score := ScorePatterns(engine, table[i].patterns, content);
      if score > 0 {
        typeScores := typeScores + [(table[i].tag, score)];
      }
      i := i + 1;
    }
    assert table[..i] == table;
    if typeScores != [] {
      r := Some(typeScores[FirstMax(typeScores)].0);
    } else {
      r := None;
    }
  }

  /** `_extract_document_type` */
  method ExtractDocumentType(engine: Engine, table: seq<Entry>, content: string, filename: Option<string>)
    returns (r: Option<string>)
    ensures r == DocumentType(engine, table, content, filename)
  {
    if filename.Some? && filename.value != [] {
      var byName := FilenameType(engine, table, filename.value);
      if byName.Some? {
        return byName;
      }
    }
    r := ScoreContent(engine, table, content);
  }

  // ---------------------------------------------------------------------------
  // Grade levels
  // ---------------------------------------------------------------------------

  /** The labels, in table order, of the grades with a pattern found ignoring case. */
  function GradesFound(engine: Engine, table: seq<Entry>, text: string): seq<string> {
    if table == [] then []
    else
      var init := GradesFound(engine, table[..|table| - 1], text);
      var e := table[|table| - 1];
      if AnyMatches(engine, e.patterns, true, text) then init + [e.tag] else init
  }

  /** A tag is found exactly when one of its table entries has a pattern that matches. */
  lemma {:induction false} GradesFoundMembers(engine: Engine, table: seq<Entry>, text: string, g: string)
    ensures g in GradesFound(engine, table, text)
            <==> exists i :: 0 <= i < |table| && table[i].tag == g && AnyMatches(engine, table[i].patterns, true, text)
  {
    if table != [] {
      var init := table[..|table| - 1];
      GradesFoundMembers(engine, init, text, g);
      if exists i :: 0 <= i < |table| && table[i].tag == g && AnyMatches(engine, table[i].patterns, true, text) {
        var i :| 0 <= i < |table| && table[i].tag == g && AnyMatches(engine, table[i].patterns, true, text);
        if i < |init| {
          assert init[i] == table[i];
        }
      }
    }
  }

  /** `_extract_grade_levels` as a value: the found labels, sorted and without repeats. */
  function GradeLevels(engine: Engine, table: seq<Entry>, text: string): (grades: seq<string>)
    ensures StrictlySorted(grades)
    ensures forall g :: g in grades <==> g in GradesFound(engine, table, text)
  {
    SortStrings(GradesFound(engine, table, text))
  }

  /**
   * The grade levels are strictly ascending (so free of duplicates), and a
   * tag is listed exactly when one of its patterns matches.
   */
  lemma GradeLevelsCharacterised(engine: Engine, table: seq<Entry>, text: string, g: string)
    ensures StrictlySorted(GradeLevels(engine, table, text))
    ensures g in GradeLevels(engine, table, text)
            <==> exists i :: 0 <= i < |table| && table[i].tag == g && AnyMatches(engine, table[i].patterns, true, text)
  {
    GradesFoundMembers(engine, table, text, g);
  }

  /** Every grade level is one of the labels of `GRADE_PATTERNS`. */
  lemma GradeLevelsAreLabels(engine: Engine, text: string, g: string)
    requires g in GradeLevels(engine, GRADE_PATTERNS, text)
    ensures g == "O-Level" || g == "A-Level" || g == "Level-I" || g == "Level-II" || g == "Level-III"
  {
    GradesFoundMembers(engine, GRADE_PATTERNS, text, g);
  }

  /** The inner loop: the patterns are tried in order until one matches. */
  method SearchAny(engine: Engine, patterns: seq<string>, ignoreCase: bool, text: string) returns (found: bool)
    ensures found <==> AnyMatches(engine, patterns, ignoreCase, text)
  {
    found := false;
    var j := 0;
    while j < |patterns|
      invariant 0 <= j <= |patterns|
      invariant forall k :: 0 <= k < j ==> !Matches(engine, Regex(patterns[k], ignoreCase), text)
    {
      if Matches(engine, Regex(patterns[j], ignoreCase), text) {
        found := true;
        break;
      }
      j := j + 1;
    }
  }

  /** `_extract_grade_levels`: a set of labels, then `sorted`. */
  method ExtractGradeLevels(engine: Engine, table: seq<Entry>, content: string) returns (levels: seq<string>)
    ensures levels == GradeLevels(engine, table, content)
  {
    var found: set<string> := {};
    var i := 0;
    while i < |table|
      invariant 0 <= i <= |table|
      invariant forall g :: g in found <==> g in GradesFound(engine, table[..i], content)
    {
      assert table[..i + 1][..i] == table[..i];
      var hit := SearchAny(engine, table[i].patterns, true, content);
      if hit {
        found := found + {table[i].tag};
      }
      i := i + 1;
    }
    assert table[..i] == table;
    levels := SortedFromSet(found);
    StrictlySortedUnique(levels, GradeLevels(engine, table, content));
  }

  // ---------------------------------------------------------------------------
  // Sections
  // ---------------------------------------------------------------------------

  /** `match.group(1) or match.group(2)` (empty when neither took part). */
  function EitherGroup(m: Match): string {
    if m.group1.Some? && m.group1.value != [] then m.group1.value
    else if m.group2.Some? then m.group2.value
    else []
  }

  /** `match.group(1)` (empty when it took no part). */
  function FirstGroup(m: Match): string {
    if m.group1.Some? then m.group1.value else []
  }

  /** The section a captured text names: its upper-case form, when that is a single letter. */
  function SectionLetter(text: string): (r: Option<string>)
    ensures r.Some? ==> |r.value| == 1 && IsUpper(r.value[0])
    ensures r.Some? <==> |text| == 1 && IsAlpha(text[0])
  {
    var u := UpperStr(text);
    if |u| == 1 && IsAlpha(u[0]) then Some(u) else None
  }

  /** The texts captured by the grade-section patterns, pattern by pattern. */
  function PatternCaptures(engine: Engine, patterns: seq<string>, text: string): seq<string> {
    if patterns == [] then []
    else
      PatternCaptures(engine, patterns[..|patterns| - 1], text)
      + MapSeq(engine(Regex(patterns[|patterns| - 1], true), text), FirstGroup)
  }

  /** Every captured text, in the order `_extract_sections` visits them. */
  function SectionCaptures(engine: Engine, sectionPattern: string, patterns: seq<string>, text: string): seq<string> {
    MapSeq(engine(Regex(sectionPattern, true), text), EitherGroup) + PatternCaptures(engine, patterns, text)
  }

  /** `_extract_sections` as a value: the single-letter captures, upper-cased, sorted, without repeats. */
  function Sections(engine: Engine, sectionPattern: string, patterns: seq<string>, text: string): (sections: seq<string>)
    ensures StrictlySorted(sections)
    ensures forall s :: s in sections <==> s in Collect(SectionCaptures(engine, sectionPattern, patterns, text), SectionLetter)
  {
    SortStrings(Collect(SectionCaptures(engine, sectionPattern, patterns, text), SectionLetter))
  }

  /**
   * Sections are strictly ascending and each is one upper-case letter; a
   * section is listed exactly when some capture is that letter in either case.
   */
  lemma SectionsCharacterised(engine: Engine, sectionPattern: string, patterns: seq<string>, text: string, s: string)
    ensures StrictlySorted(Sections(engine, sectionPattern, patterns, text))
    ensures s in Sections(engine, sectionPattern, patterns, text) ==> |s| == 1 && IsUpper(s[0])
    ensures s in Sections(engine, sectionPattern, patterns, text)
            <==> exists t :: t in SectionCaptures(engine, sectionPattern, patterns, text) && SectionLetter(t) == Some(s)
  {
    var captures := SectionCaptures(engine, sectionPattern, patterns, text);
    CollectMembers(captures, SectionLetter, s);
    if exists t :: t in captures && SectionLetter(t) == Some(s) {
      var t :| t in captures && SectionLetter(t) == Some(s);
      var k :| 0 <= k < |captures| && captures[k] == t;
    }
  }

  /** Adds the section letter of each match's captured text. */
  method AddSections(acc: set<string>, matches: seq<Match>, group: Match -> string) returns (r: set<string>)
    ensures forall s :: s in r <==> s in acc || s in Collect(MapSeq(matches, group), SectionLetter)
  {
    r := acc;
    var i := 0;
    while i < |matches|
      invariant 0 <= i <= |matches|
      invariant forall s :: s in r <==> s in acc || s in Collect(MapSeq(matches[..i], group), SectionLetter)
    {
      assert matches[..i + 1][..i] == matches[..i];
      var section := SectionLetter(group(matches[i]));
      if section.Some? {
        r := r + {section.value};
      }
      i := i + 1;
    }
    assert matches[..i] == matches;
  }

  /** `found` holds exactly the section letters of `captures`. */
  ghost predicate Gathered(found: set<string>, captures: seq<string>) {
    forall s :: s in found <==> s in Collect(captures, SectionLetter)
  }

  /** Adding the letters of more captures gathers the letters of the longer capture list. */
  lemma GatherStep(found: set<string>, captures: seq<string>, added: seq<string>, r: set<string>)
    requires Gathered(found, captures)
    requires forall s :: s in r <==> s in found || s in Collect(added, SectionLetter)
    ensures Gathered(r, captures + added)
  {
    forall s ensures s in r <==> s in Collect(captures + added, SectionLetter) {
      CollectAppend(captures, added, SectionLetter, s);
    }
  }

  /** The captures of one more pattern follow those of the patterns before it. */
  lemma CapturesStep(engine: Engine, patterns: seq<string>, i: nat, text: string)
    requires i < |patterns|
    ensures PatternCaptures(engine, patterns[..i + 1], text)
         == PatternCaptures(engine, patterns[..i], text) + MapSeq(engine(Regex(patterns[i], true), text), FirstGroup)
  {
    assert patterns[..i + 1][..i] == patterns[..i];
  }

  /** `_extract_sections`: a set of letters from both pattern families, then `sorted`. */
  method ExtractSections(engine: Engine, sectionPattern: string, patterns: seq<string>, content: string)
    returns (sections: seq<string>)
    ensures sections == Sections(engine, sectionPattern, patterns, content)
  {
    ghost var head := MapSeq(engine(Regex(sectionPattern, true), content), EitherGroup);
    var found := AddSections({}, engine(Regex(sectionPattern, true), content), EitherGroup);
    var i := 0;
    assert head + PatternCaptures(engine, patterns[..i], content) == head;
    while i < |patterns|
      invariant 0 <= i <= |patterns|
      invariant Gathered(found, head + PatternCaptures(engine, patterns[..i], content))
    {
      ghost var before := head + PatternCaptures(engine, patterns[..i], content);
      ghost var added := MapSeq(engine(Regex(patterns[i], true), content), FirstGroup);
      var next := AddSections(found, engine(Regex(patterns[i], true), content), FirstGroup);
      GatherStep(found, before, added, next);
      CapturesStep(engine, patterns, i, content);
      assert head + PatternCaptures(engine, patterns[..i + 1], content) == before + added;
      found := next;
      i := i + 1;
    }
    assert patterns[..i] == patterns;
    sections := SortedFromSet(found);
    StrictlySortedUnique(sections, Sections(engine, sectionPattern, patterns, content));
  }

  // ---------------------------------------------------------------------------
  // Academic year
  // ---------------------------------------------------------------------------

  /** `_extract_academic_year`: group 1 of the first pattern, in list order, that matches. */
  function AcademicYear(engine: Engine, patterns: seq<string>, text: string): (year: Option<string>)
    ensures year.Some? ==> exists i :: 0 <= i < |patterns| && Matches(engine, Regex(patterns[i], true), text)
    ensures !AnyMatches(engine, patterns, true, text) ==> year.None?
  {
    match FirstHit(engine, patterns, true, text)
    case None => None
    case Some(i) => engine(Regex(patterns[i], true), text)[0].group1
  }

  /** The first pattern that matches decides, whatever later patterns would give. */
  lemma AcademicYearFirstMatch(engine: Engine, patterns: seq<string>, text: string, k: nat)
    requires k < |patterns| && Matches(engine, Regex(patterns[k], true), text)
    requires forall j :: 0 <= j < k ==> !Matches(engine, Regex(patterns[j], true), text)
    ensures AcademicYear(engine, patterns, text) == engine(Regex(patterns[k], true), text)[0].group1
  {
    var r := FirstHit(engine, patterns, true, text);
    assert r.Some?;
    assert r.value == k;
  }

  /** No year is reported when no pattern matches. */
  lemma AcademicYearNone(engine: Engine, patterns: seq<string>, text: string)
    requires forall j :: 0 <= j < |patterns| ==> !Matches(engine, Regex(patterns[j], true), text)
    ensures AcademicYear(engine, patterns, text).None?
  {
  }

  // ---------------------------------------------------------------------------
  // Putting it together
  // ---------------------------------------------------------------------------

  /** A chunk of a document: its text and its metadata dictionary. */
  datatype Document = Document(pageContent: string, metadata: map<string, string>)

  /**
   * The tag dictionary: a key only for a non-empty answer, lists joined
   * with ",", and no key besides the four.
   */
  function Tags(docType: Option<string>, grades: seq<string>, sections: seq<string>, year: Option<string>)
    : (m: map<string, string>)
    ensures "document_type" in m <==> docType.Some? && docType.value != []
    ensures "grade_levels" in m <==> grades != []
    ensures "sections" in m <==> sections != []
    ensures "academic_year" in m <==> year.Some? && year.value != []
    ensures forall key :: key in m ==> key == "document_type" || key == "grade_levels" || key == "sections" || key == "academic_year"
    ensures "document_type" in m ==> m["document_type"] == docType.value
    ensures "grade_levels" in m ==> m["grade_levels"] == Join(grades, ",")
    ensures "sections" in m ==> m["sections"] == Join(sections, ",")
    ensures "academic_year" in m ==> m["academic_year"] == year.value
  {
    var m1: map<string, string> := if docType.Some? && docType.value != [] then map["document_type" := docType.value] else map[];
    var m2 := if grades != [] then m1["grade_levels" := Join(grades, ",")] else m1;
    var m3 := if sections != [] then m2["sections" := Join(sections, ",")] else m2;
    if year.Some? && year.value != [] then m3["academic_year" := year.value] else m3
  }

  /** `extract_metadata` as a value, over the lower-cased page content. */
  function Metadata(engine: Engine, document: Document, filename: Option<string>): (m: map<string, string>)
    ensures forall key :: key in m ==> key == "document_type" || key == "grade_levels" || key == "sections" || key == "academic_year"
    ensures "document_type" in m ==> exists i :: 0 <= i < |DOCUMENT_TYPE_PATTERNS| && m["document_type"] == DOCUMENT_TYPE_PATTERNS[i].tag
  {
    var content := LowerStr(document.pageContent);
    Tags(DocumentType(engine, DOCUMENT_TYPE_PATTERNS, content, filename),
         GradeLevels(engine, GRADE_PATTERNS, content),
         Sections(engine, SECTION_PATTERN, GRADE_SECTION_PATTERNS, content),
         AcademicYear(engine, YEAR_PATTERNS, content))
  }

  /** Fills the dictionary key by key, skipping empty answers. */
  method AssembleTags(docType: Option<string>, grades: seq<string>, sections: seq<string>, year: Option<string>)
    returns (metadata: map<string, string>)
    ensures metadata == Tags(docType, grades, sections, year)
  {
    metadata := map[];
    if docType.Some? && docType.value != [] {
      metadata := metadata["document_type" := docType.value];
    }
    if grades != [] {
      metadata := metadata["grade_levels" := Join(grades, ",")];
    }
    if sections != [] {
      metadata := metadata["sections" := Join(sections, ",")];
    }
    if year.Some? && year.value != [] {
      metadata := metadata["academic_year" := year.value];
    }
  }

  /** `extract_metadata`: the four extractors over the lower-cased text, then the dictionary. */
  method ExtractMetadata(engine: Engine, document: Document, filename: Option<string>)
    returns (metadata: map<string, string>)
    ensures metadata == Metadata(engine, document, filename)
  {
    var content := LowerStr(document.pageContent);
    var docType := ExtractDocumentType(engine, DOCUMENT_TYPE_PATTERNS, content, filename);
    var grades := ExtractGradeLevels(engine, GRADE_PATTERNS, content);
    var sections := ExtractSections(engine, SECTION_PATTERN, GRADE_SECTION_PATTERNS, content);
    var year := AcademicYear(engine, YEAR_PATTERNS, content);
    metadata := AssembleTags(docType, grades, sections, year);
  }

  /**
   * One chunk after enrichment: the text is kept, extracted tags override
   * the chunk's own, its other keys stay, and `source` records the file name.
   */
  function Enriched(doc: Document, extracted: map<string, string>, filename: Option<string>): (r: Document)
    ensures r.pageContent == doc.pageContent
    ensures forall key :: key in r.metadata
              <==> key in doc.metadata || key in extracted || (key == "source" && filename.Some? && filename.value != [])
    ensures filename.Some? && filename.value != [] ==> r.metadata["source"] == filename.value
    ensures forall key :: key in extracted && (key != "source" || filename.None? || filename.value == [])
              ==> r.metadata[key] == extracted[key]
    ensures forall key :: key in doc.metadata && key !in extracted && (key != "source" || filename.None? || filename.value == [])
              ==> r.metadata[key] == doc.metadata[key]
  {
    var merged := doc.metadata + extracted;
    Document(doc.pageContent,
             if filename.Some? && filename.value != [] then merged["source" := filename.value] else merged)
  }

  /** The loop of `enrich_documents`: every chunk merged with the same extracted tags. */
  method MergeTags(documents: seq<Document>, extracted: map<string, string>, filename: Option<string>)
    returns (enriched: seq<Document>)
    ensures |enriched| == |documents|
    ensures forall k :: 0 <= k < |documents| ==> enriched[k] == Enriched(documents[k], extracted, filename)
  {
    enriched := [];
    var i := 0;
    while i < |documents|
      invariant 0 <= i <= |documents|
      invariant |enriched| == i
      invariant forall k :: 0 <= k < i ==> enriched[k] == Enriched(documents[k], extracted, filename)
    {
      var merged := documents[i].metadata + extracted;
      if filename.Some? && filename.value != [] {
        merged := merged["source" := filename.value];
      }
      enriched := enriched + [Document(documents[i].pageContent, merged)];
      i := i + 1;
    }
  }

  /** `enrich_documents`: tags extracted from the first chunk, merged into every chunk. */
  method EnrichDocuments(engine: Engine, documents: seq<Document>, filename: Option<string>)
    returns (enriched: seq<Document>)
    ensures documents == [] ==> enriched == documents
    ensures documents != [] ==>
              |enriched| == |documents|
              && forall k :: 0 <= k < |documents| ==>
                   enriched[k] == Enriched(documents[k], Metadata(engine, documents[0], filename), filename)
  {
    if documents == [] {
      return documents;
    }
    var extracted := ExtractMetadata(engine, documents[0], filename);
    enriched := MergeTags(documents, extracted, filename);
  }

  /** Every chunk receives the tags of the first chunk, whatever its own text says. */
  lemma TagsComeFromFirstChunk(engine: Engine, documents: seq<Document>, filename: Option<string>, k: nat, key: string)
    requires 0 < k < |documents|
    requires key in Metadata(engine, documents[0], filename)
    ensures Enriched(documents[k], Metadata(engine, documents[0], filename), filename).metadata[key]
            == Metadata(engine, documents[0], filename)[key]
  {
  }
}
