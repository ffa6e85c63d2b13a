/**
 * What the conflict detector of `src/schedules/utils.py:5-107` promises,
 * proved on `FacultyConflicts`, the function that the method
 * `CheckFacultyScheduleConflicts` is proved to compute.
 */
module ConflictProperties {
  import opened Wrappers
  import opened Text
  import opened Clock
  import opened Schedule
  import opened Conflicts

  // ---------------------------------------------------------------------
  // The overlap test of lines 85-90.

  /** The four clauses swap in pairs when the ranges swap, so the test is symmetric for any two ranges. */
  lemma OverlapsSymmetric(a: TimeRange, b: TimeRange)
    ensures Overlaps(a, b) == Overlaps(b, a)
  {
  }

  /** A proper range overlaps itself. */
  lemma IdenticalRangesOverlap(r: TimeRange)
    requires Proper(r)
    ensures Overlaps(r, r)
  {
  }

  /** A proper range inside another overlaps it, whichever of the two is the proposal. */
  lemma ContainedRangeOverlaps(outer: TimeRange, inner: TimeRange)
    requires Proper(inner) && outer.start <= inner.start && inner.end <= outer.end
    ensures Overlaps(outer, inner) && Overlaps(inner, outer)
  {
  }

  /** Ranges that only touch, one ending when the other starts, do not overlap. */
  lemma TouchingRangesDoNotOverlap(first: TimeRange, second: TimeRange)
    requires Proper(first) && Proper(second) && first.end == second.start
    ensures !Overlaps(first, second) && !Overlaps(second, first)
  {
  }

  /**
   * For ranges that are not proper the test is not the interval test: an
   * empty booked range at the proposal's start counts as an overlap.
   */
  lemma EmptyBookedRangeAtStartOverlaps(proposed: TimeRange, t: int)
    requires proposed.start == t < proposed.end
    ensures Overlaps(proposed, TimeRange(t, t))
    ensures !(proposed.start < t && t < proposed.end)
  {
  }

  // ---------------------------------------------------------------------
  // The queries of lines 47-56 over a concatenated table.

  lemma {:induction false} OfFacultyAppend(a: seq<Section>, b: seq<Section>, facultyId: int)
    ensures OfFaculty(a + b, facultyId) == OfFaculty(a, facultyId) + OfFaculty(b, facultyId)
    decreases |b|
  {
    if b == [] {
      assert a + b == a;
    } else {
      var init := b[..|b| - 1];
      assert (a + b)[..|a + b| - 1] == a + init;
      OfFacultyAppend(a, init, facultyId);
    }
  }

  lemma {:induction false} ExcludingIdAppend(a: seq<Section>, b: seq<Section>, id: int)
    ensures ExcludingId(a + b, id) == ExcludingId(a, id) + ExcludingId(b, id)
    decreases |b|
  {
    if b == [] {
      assert a + b == a;
    } else {
      var init := b[..|b| - 1];
      assert (a + b)[..|a + b| - 1] == a + init;
      ExcludingIdAppend(a, init, id);
    }
  }

  /** The candidate sections of a concatenated table are those of each part, in order. */
  lemma CandidatesAppend(a: seq<Section>, b: seq<Section>, facultyId: int, exclude: Option<int>)
    ensures Candidates(a + b, facultyId, exclude) == Candidates(a, facultyId, exclude) + Candidates(b, facultyId, exclude)
  {
    OfFacultyAppend(a, b, facultyId);
    if Truthy(exclude) {
      ExcludingIdAppend(OfFaculty(a, facultyId), OfFaculty(b, facultyId), exclude.value);
    }
  }

  lemma CandidatesSplit(before: seq<Section>, sec: Section, after: seq<Section>, facultyId: int, exclude: Option<int>)
    ensures var a, one, b := Candidates(before, facultyId, exclude), Candidates([sec], facultyId, exclude), Candidates(after, facultyId, exclude);
      Candidates(before + [sec] + after, facultyId, exclude) == a + one + b && Candidates(before + after, facultyId, exclude) == a + b
  {
    CandidatesAppend(before + [sec], after, facultyId, exclude);
    CandidatesAppend(before, [sec], facultyId, exclude);
    CandidatesAppend(before, after, facultyId, exclude);
  }

  /** A single section is a candidate exactly when it is eligible. */
  lemma CandidatesOfOne(s: Section, facultyId: int, exclude: Option<int>)
    ensures Candidates([s], facultyId, exclude) == if Eligible(s, facultyId, exclude) then [s] else []
  {
    assert [s][..0] == [];
  }

  /** The two queries of lines 47 and 51 commute. */
  lemma {:induction false} ExcludingOfFaculty(secs: seq<Section>, facultyId: int, id: int)
    ensures ExcludingId(OfFaculty(secs, facultyId), id) == OfFaculty(ExcludingId(secs, id), facultyId)
    decreases |secs|
  {
    if secs != [] {
      var init, last := secs[..|secs| - 1], secs[|secs| - 1];
      ExcludingOfFaculty(init, facultyId, id);
      ExcludingIdAppend(OfFaculty(init, facultyId), if last.facultyId == Some(facultyId) then [last] else [], id);
      OfFacultyAppend(ExcludingId(init, id), if last.id != id then [last] else [], facultyId);
      assert [last][..0] == [];
    }
  }

  // ---------------------------------------------------------------------
  // The inner loop as a fold.

  lemma {:induction false} ScanDayAppend(acc: seq<Conflict>, a: seq<Section>, b: seq<Section>, day: string, proposed: TimeRange)
    ensures ScanDay(acc, a + b, day, proposed) == ScanDay(ScanDay(acc, a, day, proposed), b, day, proposed)
    decreases |b|
  {
    if b == [] {
      assert a + b == a;
    } else {
      var init := b[..|b| - 1];
      assert (a + b)[..|a + b| - 1] == a + init;
      assert (a + b)[|a + b| - 1] == b[|b| - 1];
      ScanDayAppend(acc, a, init, day, proposed);
    }
  }

  /** The inner loop only appends: what was reported stays reported, in place. */
  lemma {:induction false} ScanDayExtends(acc: seq<Conflict>, secs: seq<Section>, day: string, proposed: TimeRange)
    ensures acc <= ScanDay(acc, secs, day, proposed)
    decreases |secs|
  {
    if secs != [] {
      ScanDayExtends(acc, secs[..|secs| - 1], day, proposed);
    }
  }

  lemma HasKeyPrefix(a: seq<Conflict>, b: seq<Conflict>, c: Conflict)
    requires a <= b && HasKey(a, c)
    ensures HasKey(b, c)
  {
    var k :| 0 <= k < |a| && SameKey(a[k], c);
    assert b[k] == a[k];
  }

  /** One step of the inner loop only appends. */
  lemma StepExtends(acc: seq<Conflict>, sec: Section, day: string, proposed: TimeRange)
    ensures acc <= Step(acc, sec, day, proposed)
  {
  }

  /** After the inner loop over `secs`, the pair of every section that clashes on `day` is reported. */
  lemma {:induction false} ScanDayFinds(acc: seq<Conflict>, secs: seq<Section>, i: nat, day: string, proposed: TimeRange)
    requires i < |secs| && Clashes(secs[i], day, proposed)
    ensures HasKey(ScanDay(acc, secs, day, proposed), ConflictRecord(secs[i], day))
    decreases |secs|
  {
    var init, last := secs[..|secs| - 1], secs[|secs| - 1];
    var before := ScanDay(acc, init, day, proposed);
    var rec := ConflictRecord(secs[i], day);
    if i == |secs| - 1 {
      if !HasKey(before, rec) {
        assert SameKey((before + [rec])[|before|], rec);
      }
    } else {
      assert init[i] == secs[i];
      ScanDayFinds(acc, init, i, day, proposed);
      StepExtends(before, last, day, proposed);
      HasKeyPrefix(before, Step(before, last, day, proposed), rec);
    }
  }

  /** A section skipped on `day` leaves the inner loop's result unchanged. */
  lemma ScanDaySkip(acc: seq<Conflict>, a: seq<Section>, s: Section, b: seq<Section>, day: string, proposed: TimeRange)
    requires !Clashes(s, day, proposed)
    ensures ScanDay(acc, a + [s] + b, day, proposed) == ScanDay(acc, a + b, day, proposed)
  {
    ScanDayAppend(acc, a + [s], b, day, proposed);
    ScanDayAppend(acc, a, [s], day, proposed);
    ScanDayAppend(acc, a, b, day, proposed);
    assert [s][..0] == [];
  }

  /** How `Clashes` reads a section once its schedule is split and its time parsed. */
  lemma ClashesOfParts(sec: Section, day: string, proposed: TimeRange, parts: Parts, booked: TimeRange)
    requires SplitSchedule(sec.schedule) == Some(parts) && ParseTimeRange(parts.time) == Some(booked)
    ensures Clashes(sec, day, proposed) == (day in Words(parts.days) && Overlaps(proposed, booked))
  {
  }

  /**
   * The substring pre-filter of line 56 drops only sections the token test
   * of line 68 would skip: the inner loop gives the same over the filtered
   * and the unfiltered sections.
   */
  lemma {:induction false} PrefilterIsNoOp(acc: seq<Conflict>, pool: seq<Section>, day: string, proposed: TimeRange)
    ensures ScanDay(acc, MentioningDay(pool, day), day, proposed) == ScanDay(acc, pool, day, proposed)
    decreases |pool|
  {
    if pool != [] {
      var init, last := pool[..|pool| - 1], pool[|pool| - 1];
      PrefilterIsNoOp(acc, init, day, proposed);
      if !Contains(last.schedule, day) {
        if Clashes(last, day, proposed) {
          ClashMentionsDay(last, day, proposed);
        }
      } else {
        assert (MentioningDay(init, day) + [last])[..|MentioningDay(init, day)|] == MentioningDay(init, day);
      }
    }
  }

  /** The sections of `secs` that `keep` admits, in order: any order-preserving filter. */
  ghost function KeepIf(secs: seq<Section>, keep: Section -> bool): seq<Section>
    decreases |secs|
  {
    if secs == [] then []
    else
      var init, last := secs[..|secs| - 1], secs[|secs| - 1];
      if keep(last) then KeepIf(init, keep) + [last] else KeepIf(init, keep)
  }

  /**
   * Any pre-filter that admits every section whose schedule contains `day`
   * as a substring (a case-insensitive `LIKE`, say) gives the inner loop the
   * same result as no pre-filter at all.
   */
  lemma {:induction false} LoosePrefilterIsNoOp(acc: seq<Conflict>, pool: seq<Section>, keep: Section -> bool,
                                                day: string, proposed: TimeRange)
    requires forall s | s in pool && Contains(s.schedule, day) :: keep(s)
    ensures ScanDay(acc, KeepIf(pool, keep), day, proposed) == ScanDay(acc, pool, day, proposed)
    decreases |pool|
  {
    if pool != [] {
      var init, last := pool[..|pool| - 1], pool[|pool| - 1];
      assert forall s | s in init :: s in pool;
      LoosePrefilterIsNoOp(acc, init, keep, day, proposed);
      var kept := KeepIf(init, keep);
      if !keep(last) {
        if Clashes(last, day, proposed) {
          ClashMentionsDay(last, day, proposed);
        }
      } else {
        assert (kept + [last])[..|kept|] == kept;
      }
    }
  }

  // ---------------------------------------------------------------------
  // The outer loop.

  /** After the outer loop, the pair of every candidate that clashes on one of the days is reported. */
  lemma {:induction false} ScanDaysFinds(days: seq<string>, j: nat, pool: seq<Section>, i: nat, proposed: TimeRange)
    requires j < |days| && i < |pool| && Clashes(pool[i], days[j], proposed)
    ensures HasKey(ScanDays(days, pool, proposed), ConflictRecord(pool[i], days[j]))
    decreases |days|
  {
    var init, last := days[..|days| - 1], days[|days| - 1];
    var before := ScanDays(init, pool, proposed);
    PrefilterIsNoOp(before, pool, last, proposed);
    if j == |days| - 1 {
      ScanDayFinds(before, pool, i, last, proposed);
    } else {
      assert init[j] == days[j];
      ScanDaysFinds(init, j, pool, i, proposed);
      ScanDayExtends(before, pool, last, proposed);
      HasKeyPrefix(before, ScanDay(before, pool, last, proposed), ConflictRecord(pool[i], days[j]));
    }
  }

  lemma ClashInPoolReported(days: seq<string>, pool: seq<Section>, s: Section, day: string, proposed: TimeRange)
    requires day in days && s in pool && Clashes(s, day, proposed)
    ensures HasKey(ScanDays(days, pool, proposed), ConflictRecord(s, day))
  {
    var i :| 0 <= i < |pool| && pool[i] == s;
    var j :| 0 <= j < |days| && days[j] == day;
    ScanDaysFinds(days, j, pool, i, proposed);
  }

  lemma {:induction false} ScanDayFromPool(acc: seq<Conflict>, secs: seq<Section>, day: string,
                                           days: seq<string>, pool: seq<Section>, proposed: TimeRange)
    requires day in days && (forall s | s in secs :: s in pool) && AllFromPool(acc, days, pool, proposed)
    ensures AllFromPool(ScanDay(acc, secs, day, proposed), days, pool, proposed)
    decreases |secs|
  {
    if secs != [] {
      var init, last := secs[..|secs| - 1], secs[|secs| - 1];
      ScanDayFromPool(acc, init, day, days, pool, proposed);
      var before := ScanDay(acc, init, day, proposed);
      if Clashes(last, day, proposed) {
        RecordFromPool(before, last, day, days, pool, proposed);
      }
    }
  }

  /** Every conflict the outer loop reports is drawn from `pool`, on one of `all`, the days of the proposal. */
  lemma {:induction false} ScanDaysFromPool(days: seq<string>, all: seq<string>, pool: seq<Section>, proposed: TimeRange)
    requires forall d | d in days :: d in all
    ensures AllFromPool(ScanDays(days, pool, proposed), all, pool, proposed)
    decreases |days|
  {
    if days != [] {
      var init, last := days[..|days| - 1], days[|days| - 1];
      ScanDaysFromPool(init, all, pool, proposed);
      ScanDayFromPool(ScanDays(init, pool, proposed), MentioningDay(pool, last), last, all, pool, proposed);
    }
  }

  /** A candidate that clashes on none of the days leaves the outer loop's result unchanged. */
  lemma {:induction false} ScanDaysSkip(days: seq<string>, a: seq<Section>, s: Section, b: seq<Section>, proposed: TimeRange)
    requires forall d | d in days :: !Clashes(s, d, proposed)
    ensures ScanDays(days, a + [s] + b, proposed) == ScanDays(days, a + b, proposed)
    decreases |days|
  {
    if days != [] {
      var init, last := days[..|days| - 1], days[|days| - 1];
      ScanDaysSkip(init, a, s, b, proposed);
      var before := ScanDays(init, a + b, proposed);
      PrefilterIsNoOp(before, a + [s] + b, last, proposed);
      PrefilterIsNoOp(before, a + b, last, proposed);
      ScanDaySkip(before, a, s, b, last, proposed);
    }
  }

  // ---------------------------------------------------------------------
  // The detector.

  /** Lines 19-25: a falsy day, time or faculty id, or a day of only whitespace, gives no conflicts. */
  lemma NoConflictsWithoutInput(day: Option<string>, time: Option<string>, facultyId: Option<int>,
                                exclude: Option<int>, sections: seq<Section>)
    requires !(Present(day) && Present(time) && Truthy(facultyId)) || (day.Some? && AllSpace(day.value))
    ensures FacultyConflicts(day, time, facultyId, exclude, sections) == []
  {
    if day.Some? {
      WordsEmptyIffBlank(day.value);
    }
  }

  /** Lines 29-42: a proposed time that does not parse gives no conflicts rather than an error. */
  lemma NoConflictsForUnparseableTime(day: Option<string>, time: Option<string>, facultyId: Option<int>,
                                      exclude: Option<int>, sections: seq<Section>)
    requires time.Some? && ParseTimeRange(time.value) == None
    ensures FacultyConflicts(day, time, facultyId, exclude, sections) == []
  {
  }

  /** With valid inputs the detector is the outer loop over the tokens of `day` and the candidate sections. */
  lemma ConflictsOfPool(day: Option<string>, time: Option<string>, facultyId: Option<int>,
                        exclude: Option<int>, sections: seq<Section>, proposed: TimeRange)
    requires Present(day) && Present(time) && Truthy(facultyId) && ParseTimeRange(time.value) == Some(proposed)
    ensures FacultyConflicts(day, time, facultyId, exclude, sections)
         == ScanDays(Words(day.value), Candidates(sections, facultyId.value, exclude), proposed)
  {
  }

  /** Some eligible section clashes with the proposal on some token of `day`. */
  ghost predicate SomeClash(day: string, proposed: TimeRange, facultyId: int, exclude: Option<int>, sections: seq<Section>) {
    exists k, d | 0 <= k < |sections| && d in Words(day) ::
      Eligible(sections[k], facultyId, exclude) && Clashes(sections[k], d, proposed)
  }

  /**
   * Completeness: when the inputs are valid, every eligible section that
   * clashes with the proposal on one of its day tokens has its pair reported.
   */
  lemma EveryClashReported(day: Option<string>, time: Option<string>, facultyId: Option<int>,
                           exclude: Option<int>, sections: seq<Section>, k: nat, d: string, proposed: TimeRange)
    requires Present(day) && Present(time) && Truthy(facultyId)
    requires ParseTimeRange(time.value) == Some(proposed)
    requires k < |sections| && Eligible(sections[k], facultyId.value, exclude)
    requires d in Words(day.value) && Clashes(sections[k], d, proposed)
    ensures HasKey(FacultyConflicts(day, time, facultyId, exclude, sections), ConflictRecord(sections[k], d))
  {
    ClashInPoolReported(Words(day.value), Candidates(sections, facultyId.value, exclude), sections[k], d, proposed);
    ConflictsOfPool(day, time, facultyId, exclude, sections, proposed);
  }

  /**
   * Soundness and completeness together: the detector reports something
   * exactly when the inputs are valid and some eligible section clashes with
   * the proposal on a shared day token.
   */
  lemma ConflictsIffClash(day: Option<string>, time: Option<string>, facultyId: Option<int>,
                          exclude: Option<int>, sections: seq<Section>)
    ensures FacultyConflicts(day, time, facultyId, exclude, sections) != [] <==>
      && Present(day) && Present(time) && Truthy(facultyId)
      && ParseTimeRange(time.value).Some?
      && SomeClash(day.value, ParseTimeRange(time.value).value, facultyId.value, exclude, sections)
  {
    var result := FacultyConflicts(day, time, facultyId, exclude, sections);
    if Present(day) && Present(time) && Truthy(facultyId) && ParseTimeRange(time.value).Some? {
      var proposed := ParseTimeRange(time.value).value;
      var days, pool := Words(day.value), Candidates(sections, facultyId.value, exclude);
      if result != [] {
        ScanDaysFromPool(days, days, pool, proposed);
        var c := result[0];
        assert FromPool(c, days, pool, proposed);
        var s :| s in pool && c == ConflictRecord(s, c.conflictDay) && Clashes(s, c.conflictDay, proposed);
        var k :| 0 <= k < |sections| && sections[k] == s;
        assert Eligible(sections[k], facultyId.value, exclude) && Clashes(sections[k], c.conflictDay, proposed);
      }
      if SomeClash(day.value, proposed, facultyId.value, exclude, sections) {
        var k, d :| 0 <= k < |sections| && d in days
          && Eligible(sections[k], facultyId.value, exclude) && Clashes(sections[k], d, proposed);
        EveryClashReported(day, time, facultyId, exclude, sections, k, d, proposed);
      }
    }
  }

  /** A truthy excluded id acts as if the sections with that id were not stored (lines 50-51). */
  lemma ExclusionRemovesSections(day: Option<string>, time: Option<string>, facultyId: Option<int>,
                                 exclude: Option<int>, sections: seq<Section>)
    requires Truthy(exclude)
    ensures FacultyConflicts(day, time, facultyId, exclude, sections)
         == FacultyConflicts(day, time, facultyId, None, ExcludingId(sections, exclude.value))
  {
    if Truthy(facultyId) {
      ExcludingOfFaculty(sections, facultyId.value, exclude.value);
    }
  }

  /** An excluded id of 0 or `None` excludes nothing (line 50). */
  lemma FalsyExclusionIgnored(day: Option<string>, time: Option<string>, facultyId: Option<int>,
                              exclude: Option<int>, sections: seq<Section>)
    requires !Truthy(exclude)
    ensures FacultyConflicts(day, time, facultyId, exclude, sections)
         == FacultyConflicts(day, time, facultyId, None, sections)
  {
  }

  /** The section produces no conflict on any token of `day` with the range `time` parses to. */
  ghost predicate Silent(sec: Section, day: string, time: string) {
    match ParseTimeRange(time)
    case None => true
    case Some(proposed) => forall d | d in Words(day) :: !Clashes(sec, d, proposed)
  }

  lemma ScanDaysSkipOne(days: seq<string>, a: seq<Section>, one: seq<Section>, b: seq<Section>, sec: Section, proposed: TimeRange)
    requires one == [] || (one == [sec] && forall d | d in days :: !Clashes(sec, d, proposed))
    ensures ScanDays(days, a + one + b, proposed) == ScanDays(days, a + b, proposed)
  {
    if one == [] {
      assert a + one == a;
    } else {
      ScanDaysSkip(days, a, sec, b, proposed);
    }
  }

  /** A stored section that is skipped on every input day could as well not be stored: the scan carries on past it. */
  lemma SilentSectionIgnored(day: Option<string>, time: Option<string>, facultyId: Option<int>, exclude: Option<int>,
                             before: seq<Section>, sec: Section, after: seq<Section>)
    requires day.Some? && time.Some? ==> Silent(sec, day.value, time.value)
    ensures FacultyConflicts(day, time, facultyId, exclude, before + [sec] + after)
         == FacultyConflicts(day, time, facultyId, exclude, before + after)
  {
    if Present(day) && Present(time) && Truthy(facultyId) && ParseTimeRange(time.value).Some? {
      var f, proposed := facultyId.value, ParseTimeRange(time.value).value;
      var days := Words(day.value);
      var a, one, b := Candidates(before, f, exclude), Candidates([sec], f, exclude), Candidates(after, f, exclude);
      CandidatesSplit(before, sec, after, f, exclude);
      CandidatesOfOne(sec, f, exclude);
      ConflictsOfPool(day, time, facultyId, exclude, before + [sec] + after, proposed);
      ConflictsOfPool(day, time, facultyId, exclude, before + after, proposed);
      assert forall d | d in days :: !Clashes(sec, d, proposed);
      ScanDaysSkipOne(days, a, one, b, sec, proposed);
    }
  }

  /** Lines 60-62: a section whose schedule does not split into two parts on `|` is skipped. */
  lemma UnsplittableSectionIgnored(day: Option<string>, time: Option<string>, facultyId: Option<int>, exclude: Option<int>,
                                   before: seq<Section>, sec: Section, after: seq<Section>)
    requires SplitSchedule(sec.schedule) == None
    ensures FacultyConflicts(day, time, facultyId, exclude, before + [sec] + after)
         == FacultyConflicts(day, time, facultyId, exclude, before + after)
  {
    SilentSectionIgnored(day, time, facultyId, exclude, before, sec, after);
  }

  /** Line 68: a section none of whose day tokens is an input day is skipped, whatever substrings its schedule holds. */
  lemma OtherDaySectionIgnored(day: Option<string>, time: Option<string>, facultyId: Option<int>, exclude: Option<int>,
                               before: seq<Section>, sec: Section, after: seq<Section>, parts: Parts)
    requires SplitSchedule(sec.schedule) == Some(parts)
    requires day.Some? ==> forall d | d in Words(day.value) :: d !in Words(parts.days)
    ensures FacultyConflicts(day, time, facultyId, exclude, before + [sec] + after)
         == FacultyConflicts(day, time, facultyId, exclude, before + after)
  {
    SilentSectionIgnored(day, time, facultyId, exclude, before, sec, after);
  }

  /** Lines 72-82: a section whose time part does not parse is skipped. */
  lemma UnparseableSectionIgnored(day: Option<string>, time: Option<string>, facultyId: Option<int>, exclude: Option<int>,
                                  before: seq<Section>, sec: Section, after: seq<Section>, parts: Parts)
    requires SplitSchedule(sec.schedule) == Some(parts) && ParseTimeRange(parts.time) == None
    ensures FacultyConflicts(day, time, facultyId, exclude, before + [sec] + after)
         == FacultyConflicts(day, time, facultyId, exclude, before + after)
  {
    SilentSectionIgnored(day, time, facultyId, exclude, before, sec, after);
  }

  // ---------------------------------------------------------------------
  // Round trip with the serializer (`src/schedules/serializers.py:31`).

  /**
   * A section stored as `f"{day} | {time}"` clashes with the proposal
   * `(day, time)` itself on every token of `day`, when `time` parses to a
   * proper range.
   */
  lemma StoredProposalClashes(day: string, time: string, sec: Section, d: string, r: TimeRange)
    requires '|' !in day && '|' !in time && sec.schedule == FormatSchedule(day, time)
    requires ParseTimeRange(time) == Some(r) && Proper(r) && d in Words(day)
    ensures Clashes(sec, d, r)
  {
    SplitOfFormat(day, time);
    WordsOfStrip(day);
    ParseOfStrip(time);
  }

  /**
   * `split('|')` keeps the space the serializer writes after the bar, so the
   * time part of a stored schedule parses only because line 64 strips it.
   */
  lemma StoredTimeNeedsStrip(day: string, time: string)
    requires '|' !in day && '|' !in time && ParseTimeRange(time).Some?
    ensures var pieces := SplitOn(FormatSchedule(day, time), '|');
      |pieces| == 2 && ParseTimeRange(pieces[1]) == None && ParseTimeRange(Strip(pieces[1])) == ParseTimeRange(time)
  {
    PiecesOfFormat(day, time);
    var right := [' '] + time;
    LeadingSpaceRejected(right);
    assert Strip(right) == Strip(time) by {
      StripPrependSpace(time);
    }
    ParseOfStrip(time);
  }

  /** Saving the same day and time again for the same faculty member is reported as a conflict on its first day. */
  lemma ResavedScheduleReported(day: Option<string>, time: Option<string>, facultyId: Option<int>,
                                exclude: Option<int>, sections: seq<Section>, k: nat, r: TimeRange)
    requires Present(day) && Present(time) && Truthy(facultyId) && Words(day.value) != []
    requires '|' !in day.value && '|' !in time.value
    requires ParseTimeRange(time.value) == Some(r) && Proper(r)
    requires k < |sections| && Eligible(sections[k], facultyId.value, exclude)
    requires sections[k].schedule == FormatSchedule(day.value, time.value)
    ensures HasKey(FacultyConflicts(day, time, facultyId, exclude, sections), ConflictRecord(sections[k], Words(day.value)[0]))
  {
    var d := Words(day.value)[0];
    StoredProposalClashes(day.value, time.value, sections[k], d, r);
    EveryClashReported(day, time, facultyId, exclude, sections, k, d, r);
  }
}
