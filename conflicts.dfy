/**
 * The schedule conflict detector of the agent (`detect_schedule_conflicts`
 * in src/agents/tools.py). The lines of the context that mention the teacher
 * and carry a time range become schedule entries; every pair of entries on
 * the same day and start time is a conflict, described once; the answer is
 * one of three texts.
 */
module Conflicts {
  import opened Text
  import opened Patterns

  const NO_SCHEDULE := "No schedule information found for "
  const NO_CONFLICTS := "No scheduling conflicts found for "

  /** One line of the teacher's schedule: the captured day and start time, the class, the stripped line. */
  datatype ScheduleEntry = ScheduleEntry(day: string, time: string, classLabel: string, line: string)

  /** `teacher_name.lower() in line.lower()` */
  predicate Mentions(teacher: string, line: string) {
    Contains(LowerStr(line), LowerStr(teacher))
  }

  /** The entry a line contributes, if it mentions the teacher and the time pattern occurs in it. */
  function EntryOf(teacher: string, line: string): (r: Option<ScheduleEntry>)
    ensures r.None? <==> !Mentions(teacher, line) || Search(line, TimeAt).None?
    ensures r.Some? ==> r.value.day != [] && forall k :: 0 <= k < |r.value.day| ==> IsWord(r.value.day[k])
    ensures r.Some? ==> IsStartTime(r.value.time) && Contains(line, r.value.time)
    ensures r.Some? ==> r.value.classLabel == ClassLabel(line) && r.value.line == Strip(line)
  {
    if !Mentions(teacher, line) then None
    else match Search(line, TimeAt)
      case None => None
      case Some(m) => Some(ScheduleEntry(m.day, m.time, ClassLabel(line), Strip(line)))
  }

  /** The schedule entries of `lines`, in line order. */
  function Entries(teacher: string, lines: seq<string>): seq<ScheduleEntry> {
    Collect(lines, line => EntryOf(teacher, line))
  }

  /** An entry is in the schedule exactly when some line of the context contributes it. */
  lemma EntriesFromLines(teacher: string, lines: seq<string>, e: ScheduleEntry)
    ensures e in Entries(teacher, lines) <==> exists k :: 0 <= k < |lines| && EntryOf(teacher, lines[k]) == Some(e)
  {
    CollectMembers(lines, line => EntryOf(teacher, line), e);
  }

  predicate SameSlot(a: ScheduleEntry, b: ScheduleEntry) {
    a.day == b.day && a.time == b.time
  }

  /** The description of two overlapping entries, the first one's day and time and both classes. */
  function Describe(a: ScheduleEntry, b: ScheduleEntry): string {
    a.day + " " + a.time + ": Teaching both " + a.classLabel + " and " + b.classLabel
  }

  /** Descriptions of the pairs `(i, k)` with `i < k < j` that `related` accepts, in order of `k`. */
  function RowMatches<T>(xs: seq<T>, i: nat, j: nat, related: (T, T) -> bool, describe: (T, T) -> string): seq<string>
    requires i < |xs| && j <= |xs|
  {
    if j <= i + 1 then []
    else
      RowMatches(xs, i, j - 1, related, describe)
      + if related(xs[i], xs[j - 1]) then [describe(xs[i], xs[j - 1])] else []
  }

  /** Descriptions of the accepted pairs whose first element comes before `i`, in the order the pairs are visited. */
  function PairMatches<T>(xs: seq<T>, i: nat, related: (T, T) -> bool, describe: (T, T) -> string): seq<string>
    requires i <= |xs|
  {
    if i == 0 then [] else PairMatches(xs, i - 1, related, describe) + RowMatches(xs, i - 1, |xs|, related, describe)
  }

  lemma {:induction false} RowMatchesMembers<T>(xs: seq<T>, i: nat, j: nat, related: (T, T) -> bool, describe: (T, T) -> string, d: string)
    requires i < |xs| && j <= |xs|
    ensures d in RowMatches(xs, i, j, related, describe) <==>
      exists k :: i < k < j && related(xs[i], xs[k]) && d == describe(xs[i], xs[k])
    decreases j
  {
    if j > i + 1 {
      RowMatchesMembers(xs, i, j - 1, related, describe, d);
    }
  }

  /** Every visited pair was accepted, with its first element before `i`: the pair is returned. */
  lemma {:induction false} PairMatchesSound<T>(xs: seq<T>, i: nat, related: (T, T) -> bool, describe: (T, T) -> string, d: string)
    returns (a: nat, b: nat)
    requires i <= |xs|
    requires d in PairMatches(xs, i, related, describe)
    ensures a < i && a < b < |xs| && related(xs[a], xs[b]) && d == describe(xs[a], xs[b])
  {
    if i == 0 {
      assert false;
    }
    var prev := PairMatches(xs, i - 1, related, describe);
    var row := RowMatches(xs, i - 1, |xs|, related, describe);
    assert PairMatches(xs, i, related, describe) == prev + row;
    if d in prev {
      a, b := PairMatchesSound(xs, i - 1, related, describe, d);
    } else {
      RowMatchesMembers(xs, i - 1, |xs|, related, describe, d);
      a := i - 1;
      b :| i - 1 < b < |xs| && related(xs[i - 1], xs[b]) && d == describe(xs[i - 1], xs[b]);
    }
  }

  /** Every accepted pair with its first element before `i` is visited. */
  lemma {:induction false} PairMatchesComplete<T>(xs: seq<T>, i: nat, related: (T, T) -> bool, describe: (T, T) -> string, a: nat, b: nat)
    requires i <= |xs| && a < i && a < b < |xs| && related(xs[a], xs[b])
    ensures describe(xs[a], xs[b]) in PairMatches(xs, i, related, describe)
  {
    var prev := PairMatches(xs, i - 1, related, describe);
    var row := RowMatches(xs, i - 1, |xs|, related, describe);
    assert PairMatches(xs, i, related, describe) == prev + row;
    if a == i - 1 {
      RowMatchesMembers(xs, i - 1, |xs|, related, describe, describe(xs[a], xs[b]));
    } else {
      PairMatchesComplete(xs, i - 1, related, describe, a, b);
    }
  }

  /** The visited pairs are exactly the accepted pairs `a < b` with `a` before `i`. */
  lemma PairMatchesMembers<T>(xs: seq<T>, i: nat, related: (T, T) -> bool, describe: (T, T) -> string, d: string)
    requires i <= |xs|
    ensures d in PairMatches(xs, i, related, describe) <==>
      exists a, b :: 0 <= a < i && a < b < |xs| && related(xs[a], xs[b]) && d == describe(xs[a], xs[b])
  {
    if d in PairMatches(xs, i, related, describe) {
      var a, b := PairMatchesSound(xs, i, related, describe, d);
    }
    if exists a, b :: 0 <= a < i && a < b < |xs| && related(xs[a], xs[b]) && d == describe(xs[a], xs[b]) {
      var a, b :| 0 <= a < i && a < b < |xs| && related(xs[a], xs[b]) && d == describe(xs[a], xs[b]);
      PairMatchesComplete(xs, i, related, describe, a, b);
    }
  }

  predicate Distinct(xs: seq<string>) {
    forall i, j :: 0 <= i < j < |xs| ==> xs[i] != xs[j]
  }

  /** The list the `not in` test builds: each text at its first occurrence. */
  function Dedup(xs: seq<string>): (r: seq<string>)
    ensures forall x :: x in r <==> x in xs
    ensures Distinct(r)
  {
    if xs == [] then []
    else
      var init := Dedup(xs[..|xs| - 1]);
      assert xs == xs[..|xs| - 1] + [xs[|xs| - 1]];
      if xs[|xs| - 1] in init then init else init + [xs[|xs| - 1]]
  }

  lemma DedupSnoc(xs: seq<string>, x: string)
    ensures Dedup(xs + [x]) == if x in Dedup(xs) then Dedup(xs) else Dedup(xs) + [x]
  {
    assert (xs + [x])[..|xs|] == xs;
  }

  /** A list with no repeats is left as it is. */
  lemma {:induction false} DedupDistinct(xs: seq<string>)
    requires Distinct(xs)
    ensures Dedup(xs) == xs
  {
    if xs != [] {
      var init := xs[..|xs| - 1];
      DedupDistinct(init);
      assert xs == init + [xs[|xs| - 1]];
    }
  }

  /** "Found n scheduling conflict(s) for teacher:" and a line break. */
  function Header(n: nat, teacher: string): (r: string)
    ensures r != [] && r[0] == 'F'
  {
    "Found " + NatToString(n) + " scheduling conflict(s) for " + teacher + ":\n"
  }

  /** `"{i}. {conflict}"`: the number, a dot and a space, then the conflict. */
  function Item(n: nat, c: string): (r: string)
    ensures c != [] ==> r != [] && r[|r| - 1] == c[|c| - 1]
  {
    NatToString(n) + ". " + c
  }

  /** The items for every conflict, numbered from 1. */
  function Items(cs: seq<string>): (r: seq<string>)
    ensures |r| == |cs|
  {
    seq(|cs|, k requires 0 <= k < |cs| => Item(k + 1, cs[k]))
  }

  /** The numbered lines as the loop appends them, each followed by a line break. */
  function Listing(cs: seq<string>): string {
    if cs == [] then ""
    else Listing(cs[..|cs| - 1]) + Item(|cs|, cs[|cs| - 1]) + "\n"
  }

  /** The teacher's schedule in the context. */
  function Schedule(teacher: string, context: string): seq<ScheduleEntry> {
    Entries(teacher, Split(context, '\n'))
  }

  /** The conflicts reported for a schedule, each description once, in the order first met. */
  function Overlaps(schedule: seq<ScheduleEntry>): seq<string> {
    Dedup(PairMatches(schedule, |schedule|, SameSlot, Describe))
  }

  /** What `detect_schedule_conflicts(teacher, context)` answers. */
  function ConflictReport(teacher: string, context: string): (r: string)
    ensures Schedule(teacher, context) == [] ==> r == NO_SCHEDULE + teacher
    ensures var es := Schedule(teacher, context);
      es != [] && (forall a, b :: 0 <= a < b < |es| ==> !SameSlot(es[a], es[b])) ==> r == NO_CONFLICTS + teacher
  {
    var es := Schedule(teacher, context);
    NoOverlapsIff(es);
    if es == [] then NO_SCHEDULE + teacher
    else
      var cs := Overlaps(es);
      if cs == [] then NO_CONFLICTS + teacher
      else Strip(Header(|cs|, teacher) + Listing(cs))
  }

  /**
   * The reported conflicts are exactly the descriptions of the pairs of
   * entries, earlier first, that share day and start time; none is repeated.
   */
  lemma OverlapsAreSharedSlots(schedule: seq<ScheduleEntry>, d: string)
    ensures d in Overlaps(schedule) <==>
      exists a, b :: 0 <= a < b < |schedule| && SameSlot(schedule[a], schedule[b]) && d == Describe(schedule[a], schedule[b])
    ensures Distinct(Overlaps(schedule))
  {
    PairMatchesMembers(schedule, |schedule|, SameSlot, Describe, d);
  }

  /** There is nothing to report exactly when no two entries share day and start time. */
  lemma NoOverlapsIff(schedule: seq<ScheduleEntry>)
    ensures Overlaps(schedule) == [] <==>
      forall a, b :: 0 <= a < b < |schedule| ==> !SameSlot(schedule[a], schedule[b])
  {
    if Overlaps(schedule) == [] {
      forall a, b | 0 <= a < b < |schedule| ensures !SameSlot(schedule[a], schedule[b]) {
        OverlapsAreSharedSlots(schedule, Describe(schedule[a], schedule[b]));
      }
    } else {
      OverlapsAreSharedSlots(schedule, Overlaps(schedule)[0]);
    }
  }

  /** The appended lines are the numbered items, one per line. */
  lemma {:induction false} ListingIsJoin(cs: seq<string>)
    requires cs != []
    ensures Listing(cs) == Join(Items(cs), "\n") + "\n"
  {
    var init := cs[..|cs| - 1];
    var item := Item(|cs|, cs[|cs| - 1]);
    if init == [] {
      assert Items(cs) == [item];
    } else {
      ListingIsJoin(init);
      ItemsSnoc(cs);
      JoinSnoc(Items(init), item, "\n");
      var j := Join(Items(init), "\n");
      assert Listing(cs) == (j + "\n") + item + "\n";
      assert Join(Items(cs), "\n") == j + "\n" + item;
    }
  }

  /** Appending the next numbered line to the text built so far gives the listing of a longer prefix. */
  lemma ListingStep(prefix: string, cs: seq<string>, k: nat)
    requires k < |cs|
    ensures prefix + Listing(cs[..k]) + (Item(k + 1, cs[k]) + "\n") == prefix + Listing(cs[..k + 1])
  {
    assert cs[..k + 1][..k] == cs[..k];
  }

  /** Numbering one more conflict adds one item at the end. */
  lemma ItemsSnoc(cs: seq<string>)
    requires cs != []
    ensures Items(cs) == Items(cs[..|cs| - 1]) + [Item(|cs|, cs[|cs| - 1])]
  {
    var init := cs[..|cs| - 1];
    forall k | 0 <= k < |init| ensures Items(cs)[k] == Items(init)[k] {
      assert init[k] == cs[k];
    }
  }

  /** Every entry's class label is non-empty and ends in a letter. */
  predicate LabelsEndInLetters(schedule: seq<ScheduleEntry>) {
    forall k :: 0 <= k < |schedule| ==>
      schedule[k].classLabel != [] && IsAlpha(schedule[k].classLabel[|schedule[k].classLabel| - 1])
  }

  lemma ScheduleLabels(teacher: string, context: string)
    ensures LabelsEndInLetters(Schedule(teacher, context))
  {
    var lines := Split(context, '\n');
    var es := Schedule(teacher, context);
    forall k | 0 <= k < |es|
      ensures es[k].classLabel != [] && IsAlpha(es[k].classLabel[|es[k].classLabel| - 1])
    {
      EntriesFromLines(teacher, lines, es[k]);
    }
  }

  /** A description ends where the second class label ends. */
  lemma DescribeEnd(a: ScheduleEntry, b: ScheduleEntry)
    requires b.classLabel != []
    ensures var d := Describe(a, b); d[|d| - 1] == b.classLabel[|b.classLabel| - 1]
  {
    var prefix := a.day + " " + a.time + ": Teaching both " + a.classLabel + " and ";
    assert Describe(a, b) == prefix + b.classLabel;
  }

  /** The last reported conflict ends in a letter, the last letter of a class label. */
  lemma LastOverlapEndsInLetter(schedule: seq<ScheduleEntry>)
    requires LabelsEndInLetters(schedule) && Overlaps(schedule) != []
    ensures var cs := Overlaps(schedule); var last := cs[|cs| - 1];
      last != [] && IsAlpha(last[|last| - 1])
  {
    var cs := Overlaps(schedule);
    var last := cs[|cs| - 1];
    OverlapsAreSharedSlots(schedule, last);
    var a, b :| 0 <= a < b < |schedule| && SameSlot(schedule[a], schedule[b]) && last == Describe(schedule[a], schedule[b]);
    DescribeEnd(schedule[a], schedule[b]);
  }

  /** The numbered block ends where its last conflict ends. */
  lemma NumberedEnd(cs: seq<string>)
    requires cs != [] && cs[|cs| - 1] != [] && IsAlpha(cs[|cs| - 1][|cs[|cs| - 1]| - 1])
    ensures var j := Join(Items(cs), "\n"); j != [] && !IsSpace(j[|j| - 1])
  {
    var items := Items(cs);
    assert items[|items| - 1] == Item(|cs|, cs[|cs| - 1]);
    JoinLast(items, "\n");
  }

  /** Stripping the built text drops only the line break after the last conflict. */
  lemma StripListing(header: string, cs: seq<string>)
    requires header != [] && header[0] == 'F'
    requires cs != [] && cs[|cs| - 1] != [] && IsAlpha(cs[|cs| - 1][|cs[|cs| - 1]| - 1])
    ensures Strip(header + Listing(cs)) == header + Join(Items(cs), "\n")
  {
    NumberedEnd(cs);
    ListingIsJoin(cs);
    StripBeforeNewline(header, Join(Items(cs), "\n"), Listing(cs));
  }

  lemma StripBeforeNewline(header: string, block: string, listing: string)
    requires header != [] && !IsSpace(header[0])
    requires block != [] && !IsSpace(block[|block| - 1])
    requires listing == block + "\n"
    ensures Strip(header + listing) == header + block
  {
    assert header + listing == (header + block) + "\n";
    StripTrailingNewline(header + block);
  }

  /**
   * When conflicts exist the answer is the header and the numbered
   * conflicts, one per line: the final `strip` only drops the last line break.
   */
  lemma FoundReport(teacher: string, context: string)
    requires Overlaps(Schedule(teacher, context)) != []
    ensures var cs := Overlaps(Schedule(teacher, context));
      ConflictReport(teacher, context) == Header(|cs|, teacher) + Join(Items(cs), "\n")
  {
    var es := Schedule(teacher, context);
    var cs := Overlaps(es);
    ReportBeforeStrip(teacher, context);
    ScheduleLabels(teacher, context);
    LastOverlapEndsInLetter(es);
    StripListing(Header(|cs|, teacher), cs);
  }

  /** With conflicts found, the answer is the stripped header and listing. */
  lemma ReportBeforeStrip(teacher: string, context: string)
    requires Overlaps(Schedule(teacher, context)) != []
    ensures var cs := Overlaps(Schedule(teacher, context));
      ConflictReport(teacher, context) == Strip(Header(|cs|, teacher) + Listing(cs))
  {
    assert Schedule(teacher, context) != [] by {
      assert Overlaps([]) == [];
    }
  }

  /** The three kinds of answer never coincide. */
  lemma AnswersDiffer(teacher: string, n: nat)
    ensures NO_SCHEDULE + teacher != NO_CONFLICTS + teacher
    ensures Header(n, teacher)[0] != (NO_SCHEDULE + teacher)[0]
    ensures Header(n, teacher)[0] != (NO_CONFLICTS + teacher)[0]
  {
    assert NO_SCHEDULE[10] == 'e' && NO_CONFLICTS[10] == 'i';
    assert (NO_SCHEDULE + teacher)[10] != (NO_CONFLICTS + teacher)[10];
  }

  /** The loop over the lines of the context. */
  method CollectSchedule(teacher: string, lines: seq<string>) returns (schedule: seq<ScheduleEntry>)
    ensures schedule == Entries(teacher, lines)
  {
    schedule := [];
    var n := 0;
    while n < |lines|
      invariant n <= |lines|
      invariant schedule == Entries(teacher, lines[..n])
    {
      assert lines[..n + 1][..n] == lines[..n];
      var entry := EntryOf(teacher, lines[n]);
      if entry.Some? {
        schedule := schedule + [entry.value];
      }
      n := n + 1;
    }
    assert lines[..|lines|] == lines;
  }

  /** The descriptions of the overlapping pairs `(i, k)` with `i < k < j`. */
  function RowOverlaps(schedule: seq<ScheduleEntry>, i: nat, j: nat): seq<string>
    requires i < |schedule| && j <= |schedule|
  {
    RowMatches(schedule, i, j, SameSlot, Describe)
  }

  /** The descriptions of the overlapping pairs whose first entry comes before `i`. */
  function Visited(schedule: seq<ScheduleEntry>, i: nat): seq<string>
    requires i <= |schedule|
  {
    PairMatches(schedule, i, SameSlot, Describe)
  }

  /** One more step of the inner loop: the pair `(i, j)` adds its description if new. */
  lemma DedupRowStep(schedule: seq<ScheduleEntry>, visited: seq<string>, i: nat, j: nat)
    requires i < j < |schedule|
    ensures var before := Dedup(visited + RowOverlaps(schedule, i, j));
      var desc := Describe(schedule[i], schedule[j]);
      Dedup(visited + RowOverlaps(schedule, i, j + 1)) ==
        if SameSlot(schedule[i], schedule[j]) && desc !in before then before + [desc] else before
  {
    var row := RowOverlaps(schedule, i, j);
    if SameSlot(schedule[i], schedule[j]) {
      var desc := Describe(schedule[i], schedule[j]);
      assert visited + RowOverlaps(schedule, i, j + 1) == (visited + row) + [desc];
      DedupSnoc(visited + row, desc);
    } else {
      assert visited + RowOverlaps(schedule, i, j + 1) == visited + row;
    }
  }

  /** One more step of the outer loop: entry `i`'s row follows the rows before it. */
  lemma VisitedStep(schedule: seq<ScheduleEntry>, i: nat)
    requires i < |schedule|
    ensures Visited(schedule, i + 1) == Visited(schedule, i) + RowOverlaps(schedule, i, |schedule|)
  {
  }

  /** The inner loop: the pairs of entry `i` with each later entry, keeping each description once. */
  method ScanRow(schedule: seq<ScheduleEntry>, i: nat, ghost visited: seq<string>, start: seq<string>)
    returns (conflicts: seq<string>)
    requires i < |schedule|
    requires start == Dedup(visited)
    ensures conflicts == Dedup(visited + RowOverlaps(schedule, i, |schedule|))
  {
    conflicts := start;
    var j := i + 1;
    assert visited + RowOverlaps(schedule, i, j) == visited;
    while j < |schedule|
      invariant i + 1 <= j <= |schedule|
      invariant conflicts == Dedup(visited + RowOverlaps(schedule, i, j))
    {
      DedupRowStep(schedule, visited, i, j);
      if SameSlot(schedule[i], schedule[j]) {
        var desc := Describe(schedule[i], schedule[j]);
        if desc !in conflicts {
          conflicts := conflicts + [desc];
        }
      }
      j := j + 1;
    }
  }

  /** The nested loop over the pairs of entries, keeping each description once. */
  method FindConflicts(schedule: seq<ScheduleEntry>) returns (conflicts: seq<string>)
    ensures conflicts == Overlaps(schedule)
  {
    conflicts := [];
    var i := 0;
    while i < |schedule|
      invariant i <= |schedule|
      invariant conflicts == Dedup(Visited(schedule, i))
    {
      conflicts := ScanRow(schedule, i, Visited(schedule, i), conflicts);
      VisitedStep(schedule, i);
      i := i + 1;
    }
  }

  /** The loop that numbers the conflicts, appending one line per conflict to `prefix`. */
  method AppendListing(prefix: string, conflicts: seq<string>) returns (result: string)
    ensures result == prefix + Listing(conflicts)
  {
    result := prefix;
    var k := 0;
    while k < |conflicts|
      invariant k <= |conflicts|
      invariant result == prefix + Listing(conflicts[..k])
    {
      ListingStep(prefix, conflicts, k);
      result := result + (Item(k + 1, conflicts[k]) + "\n");
      k := k + 1;
    }
    assert conflicts[..|conflicts|] == conflicts;
  }

  /** The header, then the numbered conflicts. */
  method ListConflicts(teacher: string, conflicts: seq<string>) returns (result: string)
    ensures result == Header(|conflicts|, teacher) + Listing(conflicts)
  {
    result := AppendListing(Header(|conflicts|, teacher), conflicts);
  }

  method DetectScheduleConflicts(teacher: string, context: string) returns (r: string)
    ensures r == ConflictReport(teacher, context)
  {
    var schedule := CollectSchedule(teacher, Split(context, '\n'));
    assert schedule == Schedule(teacher, context);
    if schedule == [] {
      return NO_SCHEDULE + teacher;
    }
    var conflicts := FindConflicts(schedule);
    if conflicts == [] {
      return NO_CONFLICTS + teacher;
    }
    var result := ListConflicts(teacher, conflicts);
    r := Strip(result);
  }
}
