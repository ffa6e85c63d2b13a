/**
 * `check_faculty_schedule_conflicts` (`src/schedules/utils.py:5-107`): the
 * existing class sections of a faculty member that share a day with a
 * proposed schedule and whose time range overlaps the proposed one.
 *
 * The database is a sequence of section records in queryset order; the
 * three ORM queries of the source become filters over it.
 */
module Conflicts {
  import opened Wrappers
  import opened Text
  import opened Clock
  import opened Schedule

  /** The fields of a stored `ClassSection` that the detector reads; `courseCode` is `section.course.course_code`. */
  datatype Section = Section(id: int, facultyId: Option<int>, courseCode: string, section: string, room: string, schedule: string)

  /** One conflict dictionary of lines 93-100; `kind` is its `"type"` entry. */
  datatype Conflict = Conflict(kind: string, course: string, section: string, schedule: string, room: string, conflictDay: string)

  /** Python truthiness of an optional string: `None` and `""` are false. */
  predicate Present(s: Option<string>) {
    s.Some? && s.value != []
  }

  /** Python truthiness of an optional id: `None` and `0` are false. */
  predicate Truthy(n: Option<int>) {
    n.Some? && n.value != 0
  }

  /** A range that starts strictly before it ends. */
  ghost predicate Proper(r: TimeRange) {
    r.start < r.end
  }

  /**
   * Lines 85-90, with `proposed` the range being checked and `booked` the
   * stored section's. For proper ranges this is the usual test that two
   * half-open intervals intersect; one direction holds for any ranges.
   */
  function Overlaps(proposed: TimeRange, booked: TimeRange): (r: bool)
    ensures proposed.start < booked.end && booked.start < proposed.end ==> r
    ensures Proper(proposed) && Proper(booked) && r ==> proposed.start < booked.end && booked.start < proposed.end
  {
    || (proposed.start <= booked.start < proposed.end)
    || (proposed.start < booked.end <= proposed.end)
    || (booked.start <= proposed.start < booked.end)
    || (booked.start < proposed.end <= booked.end)
  }

  // ---------------------------------------------------------------------
  // The queries of lines 47, 51 and 56, as order-preserving filters.

  /** `ClassSection.objects.filter(faculty_id=facultyId)` over `secs`. */
  function OfFaculty(secs: seq<Section>, facultyId: int): (r: seq<Section>)
    ensures |r| <= |secs|
    ensures forall s :: s in r <==> s in secs && s.facultyId == Some(facultyId)
    decreases |secs|
  {
    if secs == [] then []
    else
      var init, last := secs[..|secs| - 1], secs[|secs| - 1];
      assert secs == init + [last];
      var rest := OfFaculty(init, facultyId);
      if last.facultyId == Some(facultyId) then rest + [last] else rest
  }

  /** `.exclude(id=id)` over `secs`. */
  function ExcludingId(secs: seq<Section>, id: int): (r: seq<Section>)
    ensures |r| <= |secs|
    ensures forall s :: s in r <==> s in secs && s.id != id
    decreases |secs|
  {
    if secs == [] then []
    else
      var init, last := secs[..|secs| - 1], secs[|secs| - 1];
      assert secs == init + [last];
      var rest := ExcludingId(init, id);
      if last.id != id then rest + [last] else rest
  }

  /** `.filter(schedule__contains=day)` over `secs`. */
  function MentioningDay(secs: seq<Section>, day: string): (r: seq<Section>)
    ensures |r| <= |secs|
    ensures forall s :: s in r <==> s in secs && Contains(s.schedule, day)
    decreases |secs|
  {
    if secs == [] then []
    else
      var init, last := secs[..|secs| - 1], secs[|secs| - 1];
      assert secs == init + [last];
      var rest := MentioningDay(init, day);
      if Contains(last.schedule, day) then rest + [last] else rest
  }

  /** A section the detector looks at: taught by `facultyId` and not excluded (lines 47-51). */
  ghost predicate Eligible(s: Section, facultyId: int, exclude: Option<int>) {
    s.facultyId == Some(facultyId) && !(Truthy(exclude) && s.id == exclude.value)
  }

  /** Lines 47-51: the faculty member's sections, without the excluded one when an id is given. */
  function Candidates(sections: seq<Section>, facultyId: int, exclude: Option<int>): (r: seq<Section>)
    ensures forall s :: s in r <==> s in sections && Eligible(s, facultyId, exclude)
  {
    var mine := OfFaculty(sections, facultyId);
    if Truthy(exclude) then ExcludingId(mine, exclude.value) else mine
  }

  // ---------------------------------------------------------------------
  // One section against one day of the proposal (lines 60-90).

  /**
   * The section yields a conflict on `day`: its schedule splits into two
   * parts, `day` is one of the tokens of its day part, its time part parses
   * and that range overlaps `proposed`.
   */
  predicate Clashes(sec: Section, day: string, proposed: TimeRange) {
    match SplitSchedule(sec.schedule)
    case None => false
    case Some(parts) =>
      day in Words(parts.days) &&
      match ParseTimeRange(parts.time)
      case None => false
      case Some(booked) => Overlaps(proposed, booked)
  }

  /**
   * A section that clashes on `day` has `day` as a substring of its stored
   * schedule: `day` is a token of the stripped text before the `|`.
   */
  lemma ClashMentionsDay(sec: Section, day: string, proposed: TimeRange)
    requires Clashes(sec, day, proposed)
    ensures Contains(sec.schedule, day)
  {
    var sched := sec.schedule;
    var pieces := SplitOn(sched, '|');
    var k := Find(sched, '|', 0);
    assert pieces[0] == sched[0..k];
    WordsAreSubstrings(Strip(pieces[0]), day);
    StripSubstring(pieces[0], day);
    ContainsSlice(sched, 0, k, day);
  }

  /** Lines 93-100. */
  function ConflictRecord(sec: Section, day: string): Conflict {
    Conflict("faculty", sec.courseCode, sec.section, sec.schedule, sec.room, day)
  }

  /** The (section, course) pair compared at lines 103-104. */
  predicate SameKey(a: Conflict, b: Conflict) {
    a.section == b.section && a.course == b.course
  }

  predicate HasKey(cs: seq<Conflict>, c: Conflict) {
    exists k | 0 <= k < |cs| :: SameKey(cs[k], c)
  }

  predicate NoDuplicateKeys(cs: seq<Conflict>) {
    forall i, j | 0 <= i < j < |cs| :: !SameKey(cs[i], cs[j])
  }

  // ---------------------------------------------------------------------
  // The scan of lines 54-105 as a fold: input days in order, and for each
  // day the sections the pre-filter lets through, in queryset order.

  /** One iteration of the inner loop (lines 58-105) on the list built so far. */
  function Step(acc: seq<Conflict>, sec: Section, day: string, proposed: TimeRange): seq<Conflict> {
    if Clashes(sec, day, proposed) && !HasKey(acc, ConflictRecord(sec, day))
    then acc + [ConflictRecord(sec, day)]
    else acc
  }

  /** The inner loop over `secs` for one input day, starting from `acc`. */
  function ScanDay(acc: seq<Conflict>, secs: seq<Section>, day: string, proposed: TimeRange): seq<Conflict>
    decreases |secs|
  {
    if secs == [] then acc
    else Step(ScanDay(acc, secs[..|secs| - 1], day, proposed), secs[|secs| - 1], day, proposed)
  }

  /** The outer loop of lines 54-105 over `days`, against the candidate sections `pool`. */
  function ScanDays(days: seq<string>, pool: seq<Section>, proposed: TimeRange): seq<Conflict>
    decreases |days|
  {
    if days == [] then []
    else
      var day := days[|days| - 1];
      ScanDay(ScanDays(days[..|days| - 1], pool, proposed), MentioningDay(pool, day), day, proposed)
  }

  /** What `check_faculty_schedule_conflicts(day, time, faculty_id, exclude_section_id)` returns. */
  function FacultyConflicts(day: Option<string>, time: Option<string>, facultyId: Option<int>,
                            exclude: Option<int>, sections: seq<Section>): seq<Conflict>
  {
    if !(Present(day) && Present(time) && Truthy(facultyId)) then []
    else if Words(day.value) == [] then []
    else
      match ParseTimeRange(time.value)
      case None => []
      case Some(proposed) => ScanDays(Words(day.value), Candidates(sections, facultyId.value, exclude), proposed)
  }

  /**
   * `c` is backed by a stored section: eligible, clashing on `c.conflictDay`,
   * which is a token of `day`, with the proposal `time`, and `c` is that
   * section's conflict record.
   */
  ghost predicate Warranted(c: Conflict, day: string, time: string, facultyId: int,
                            exclude: Option<int>, sections: seq<Section>) {
    match ParseTimeRange(time)
    case None => false
    case Some(proposed) =>
      c.conflictDay in Words(day) &&
      exists k | 0 <= k < |sections| ::
        Eligible(sections[k], facultyId, exclude) && c == ConflictRecord(sections[k], c.conflictDay)
        && Clashes(sections[k], c.conflictDay, proposed)
  }

  /** `c` comes from a section of `pool` that clashes with the proposal on `c.conflictDay`, one of `days`. */
  ghost predicate FromPool(c: Conflict, days: seq<string>, pool: seq<Section>, proposed: TimeRange) {
    c.conflictDay in days &&
    exists s | s in pool :: c == ConflictRecord(s, c.conflictDay) && Clashes(s, c.conflictDay, proposed)
  }

  /** A conflict drawn from the candidate sections is warranted. */
  lemma FromCandidatesWarranted(c: Conflict, day: string, time: string, facultyId: int,
                                exclude: Option<int>, sections: seq<Section>, proposed: TimeRange)
    requires ParseTimeRange(time) == Some(proposed)
    requires FromPool(c, Words(day), Candidates(sections, facultyId, exclude), proposed)
    ensures Warranted(c, day, time, facultyId, exclude, sections)
  {
    var s :| s in Candidates(sections, facultyId, exclude) && c == ConflictRecord(s, c.conflictDay)
      && Clashes(s, c.conflictDay, proposed);
    var k :| 0 <= k < |sections| && sections[k] == s;
  }

  /** One more section of the inner loop is one more `Step`. */
  lemma ScanDayNext(acc: seq<Conflict>, secs: seq<Section>, j: nat, day: string, proposed: TimeRange)
    requires j < |secs|
    ensures ScanDay(acc, secs[..j + 1], day, proposed) == Step(ScanDay(acc, secs[..j], day, proposed), secs[j], day, proposed)
  {
    assert secs[..j + 1][..j] == secs[..j];
  }

  /** Appending a conflict whose pair is not yet reported keeps the pairs distinct. */
  lemma AppendNewKey(cs: seq<Conflict>, c: Conflict)
    requires NoDuplicateKeys(cs) && !HasKey(cs, c)
    ensures NoDuplicateKeys(cs + [c])
  {
    var ds := cs + [c];
    forall i, j | 0 <= i < j < |ds| ensures !SameKey(ds[i], ds[j]) {
      if j == |cs| {
        assert ds[i] == cs[i];
      }
    }
  }

  /** Every entry of `cs` is a faculty conflict drawn from `pool`. */
  ghost predicate AllFromPool(cs: seq<Conflict>, days: seq<string>, pool: seq<Section>, proposed: TimeRange) {
    forall c | c in cs :: c.kind == "faculty" && FromPool(c, days, pool, proposed)
  }

  /** Appending the record of a clashing section of `pool` on one of `days` keeps every entry drawn from `pool`. */
  lemma RecordFromPool(cs: seq<Conflict>, s: Section, day: string, days: seq<string>, pool: seq<Section>, proposed: TimeRange)
    requires AllFromPool(cs, days, pool, proposed)
    requires s in pool && day in days && Clashes(s, day, proposed)
    ensures AllFromPool(cs + [ConflictRecord(s, day)], days, pool, proposed)
  {
    var rec := ConflictRecord(s, day);
    assert rec.kind == "faculty" && FromPool(rec, days, pool, proposed);
    forall c | c in cs + [rec] ensures c.kind == "faculty" && FromPool(c, days, pool, proposed) {
      if c !in cs {
        assert c == rec;
      }
    }
  }

  // ---------------------------------------------------------------------
  // The detector itself.

  /** Lines 103-104: `any(c["section"] == ... and c["course"] == ... for c in conflicts)`. */
  method AlreadyReported(conflicts: seq<Conflict>, conflict: Conflict) returns (found: bool)
    ensures found == HasKey(conflicts, conflict)
  {
    found := false;
    var k := 0;
    while k < |conflicts| && !found
      invariant 0 <= k <= |conflicts|
      invariant found == exists m | 0 <= m < k :: SameKey(conflicts[m], conflict)
    {
      found := SameKey(conflicts[k], conflict);
      k := k + 1;
    }
  }

  /**
   * Lines 60-90 for one section and one input day: split the stored
   * schedule, look for the day among its tokens, parse its time and test
   * the overlap, giving up on the section at the first step that fails.
   */
  method SectionClashes(section: Section, inputDay: string, proposed: TimeRange) returns (clash: bool)
    ensures clash == Clashes(section, inputDay, proposed)
    ensures clash ==> Contains(section.schedule, inputDay)
    ensures SplitSchedule(section.schedule).None? ==> !clash
    ensures var parts := SplitSchedule(section.schedule);
      parts.Some? && ParseTimeRange(parts.value.time).None? ==> !clash
    ensures var parts := SplitSchedule(section.schedule);
      parts.Some? && ParseTimeRange(parts.value.time).Some? ==>
        var booked := ParseTimeRange(parts.value.time).value;
        Proper(proposed) && Proper(booked) ==>
          (clash <==> inputDay in Words(parts.value.days) && proposed.start < booked.end && booked.start < proposed.end)
  {
    clash := false;
    var parts := SplitSchedule(section.schedule);
    if parts.None? {
      return;
    }
    var sectionDayList := Words(parts.value.days);
    if inputDay !in sectionDayList {
      return;
    }
    var booked := ParseTimeRange(parts.value.time);
    if booked.None? {
      return;
    }
    clash := Overlaps(proposed, booked.value);
    if clash {
      ClashMentionsDay(section, inputDay, proposed);
    }
  }

  /**
   * The inner loop (lines 58-105) for one input day, appending to `acc`
   * the conflict record of each clashing section whose (course, section)
   * pair is not yet reported.
   */
  method ScanSections(acc: seq<Conflict>, daySections: seq<Section>, inputDay: string, proposed: TimeRange,
                      ghost days: seq<string>, ghost pool: seq<Section>)
    returns (conflicts: seq<Conflict>)
    requires inputDay in days && forall s | s in daySections :: s in pool
    requires NoDuplicateKeys(acc)
    requires AllFromPool(acc, days, pool, proposed)
    ensures conflicts == ScanDay(acc, daySections, inputDay, proposed)
    ensures NoDuplicateKeys(conflicts)
    ensures AllFromPool(conflicts, days, pool, proposed)
  {
    conflicts := acc;
    var j := 0;
    while j < |daySections|
      invariant 0 <= j <= |daySections|
      invariant conflicts == ScanDay(acc, daySections[..j], inputDay, proposed)
      invariant NoDuplicateKeys(conflicts)
      invariant AllFromPool(conflicts, days, pool, proposed)
    {
      var section := daySections[j];
      ScanDayNext(acc, daySections, j, inputDay, proposed);
      var clash := SectionClashes(section, inputDay, proposed);
      if clash {
        var conflict := ConflictRecord(section, inputDay);
        var found := AlreadyReported(conflicts, conflict);
        if !found {
          AppendNewKey(conflicts, conflict);
          RecordFromPool(conflicts, section, inputDay, days, pool, proposed);
          conflicts := conflicts + [conflict];
        }
      }
      j := j + 1;
    }
    assert daySections[..j] == daySections;
  }

  /** The outer loop (lines 54-105): each input day of the proposal in turn, against the candidate sections. */
  method ScanForConflicts(inputDays: seq<string>, proposed: TimeRange, facultySections: seq<Section>)
    returns (conflicts: seq<Conflict>)
    ensures conflicts == ScanDays(inputDays, facultySections, proposed)
    ensures NoDuplicateKeys(conflicts)
    ensures AllFromPool(conflicts, inputDays, facultySections, proposed)
  {
    conflicts := [];
    var i := 0;
    while i < |inputDays|
      invariant 0 <= i <= |inputDays|
      invariant conflicts == ScanDays(inputDays[..i], facultySections, proposed)
      invariant NoDuplicateKeys(conflicts)
      invariant AllFromPool(conflicts, inputDays, facultySections, proposed)
    {
      var inputDay := inputDays[i];
      var daySections := MentioningDay(facultySections, inputDay);
      conflicts := ScanSections(conflicts, daySections, inputDay, proposed, inputDays, facultySections);
      assert inputDays[..i + 1][..i] == inputDays[..i];
      i := i + 1;
    }
    assert inputDays[..i] == inputDays;
  }

  /** `check_faculty_schedule_conflicts` (lines 5-107). */
  method CheckFacultyScheduleConflicts(day: Option<string>, time: Option<string>, facultyId: Option<int>,
                                       excludeSectionId: Option<int>, sections: seq<Section>)
    returns (conflicts: seq<Conflict>)
    ensures conflicts == FacultyConflicts(day, time, facultyId, excludeSectionId, sections)
    ensures NoDuplicateKeys(conflicts)
    ensures forall c | c in conflicts ::
      && c.kind == "faculty" && day.Some? && time.Some? && facultyId.Some?
      && Warranted(c, day.value, time.value, facultyId.value, excludeSectionId, sections)
  {
    conflicts := [];
    if !(Present(day) && Present(time) && Truthy(facultyId)) {
      return;
    }
    var inputDays := Words(day.value);
    if inputDays == [] {
      return;
    }
    var parsed := ParseTimeRange(time.value);
    if parsed.None? {
      return;
    }
    var proposed := parsed.value;

    var facultySections := OfFaculty(sections, facultyId.value);
    if Truthy(excludeSectionId) {
      facultySections := ExcludingId(facultySections, excludeSectionId.value);
    }
    assert facultySections == Candidates(sections, facultyId.value, excludeSectionId);

    conflicts := ScanForConflicts(inputDays, proposed, facultySections);
    forall c | c in conflicts
      ensures Warranted(c, day.value, time.value, facultyId.value, excludeSectionId, sections)
    {
      FromCandidatesWarranted(c, day.value, time.value, facultyId.value, excludeSectionId, sections, proposed);
    }
  }
}
