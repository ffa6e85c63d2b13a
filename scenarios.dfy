/**
 * The cases of `src/schedules/tests/test_schedule_conflicts.py:29-69`, and
 * a few more edge cases of the same detector, as facts about the model.
 */
module Scenarios {
  import opened Wrappers
  import opened Text
  import opened Clock
  import opened Schedule
  import opened Conflicts
  import opened ConflictProperties


  /** The faculty member of the test set-up and their one section, CS101 A on Monday, 10:00 to 11:30. */
  const FacultyId := 1
  const BookedTime := "10:00 AM - 11:30 AM"
  const BookedRange := TimeRange(600, 690)
  const Booked := Section(1, Some(FacultyId), "CS101", "A", "Room 101", "M | 10:00 AM - 11:30 AM")

  /** Two more sections of the same faculty member at the same time: one on Thursday, one on Monday and Thursday. */
  const Thursday := Section(2, Some(FacultyId), "CS102", "B", "Room 102", "TH | 10:00 AM - 11:30 AM")
  const MondayThursday := Section(3, Some(FacultyId), "CS103", "C", "Room 103", "M TH | 10:00 AM - 11:30 AM")

  /** A section of the same faculty member on Monday from 10:50 to 12:30. */
  const LateMorning := Section(4, Some(FacultyId), "CS104", "D", "Room 104", "M | 10:50 AM - 12:30 PM")
  const LateMorningTime := "10:50 AM - 12:30 PM"
  const LateMorningRange := TimeRange(650, 750)

  // ---------------------------------------------------------------------
  // Facts about the literals of the cases, each proved on its own.

  /** A single word is its own `split()`. */
  lemma WordsOfWord(w: string)
    requires IsWord(w)
    ensures Words(w) == [w]
  {
    WordsOfJoin([w]);
  }

  lemma MondayIsWord()
    ensures IsWord("M")
  {
  }

  lemma MondayPipeFree()
    ensures '|' !in "M"
  {
  }

  lemma MondayFacts()
    ensures Words("M") == ["M"]
  {
    MondayIsWord();
    WordsOfWord("M");
  }

  lemma TuesdayIsWord()
    ensures IsWord("T")
  {
  }

  lemma ThursdayIsWord()
    ensures IsWord("TH")
  {
  }

  lemma ThursdayFacts()
    ensures '|' !in "TH" && Words("TH") == ["TH"]
  {
    ThursdayIsWord();
    WordsOfWord("TH");
  }

  lemma MondayThursdayWords()
    ensures "M TH" != [] && '|' !in "M TH" && Words("M TH") == ["M", "TH"]
  {
    assert JoinWith(["M", "TH"], ' ') == "M TH";
    WordsOfJoin(["M", "TH"]);
  }

  lemma BookedTimeFormat()
    ensures FormatTimeRange(BookedRange) == BookedTime
  {
  }

  lemma BookedTimeParses()
    ensures ParseTimeRange(BookedTime) == Some(BookedRange)
  {
    BookedTimeFormat();
    ParseOfFormat(BookedRange);
  }

  lemma BookedTimeStripped()
    ensures '|' !in BookedTime && Strip(BookedTime) == BookedTime
  {
    StripUnchanged(BookedTime);
  }

  /** The stored schedules of the set-up are what the serializer writes for their days and `10:00 AM - 11:30 AM`. */
  lemma BookedSchedule()
    ensures Booked.schedule == FormatSchedule("M", BookedTime)
  {
  }

  lemma ThursdaySchedule()
    ensures Thursday.schedule == FormatSchedule("TH", BookedTime)
  {
  }

  lemma ThursdayMentionsTuesday()
    ensures Contains(Thursday.schedule, "T")
  {
    assert OccursAt(Thursday.schedule, "T", 0);
  }

  lemma MondayThursdaySchedule()
    ensures MondayThursday.schedule == FormatSchedule("M TH", BookedTime)
  {
  }

  lemma OverlappingFormat()
    ensures FormatTimeRange(TimeRange(630, 720)) == "10:30 AM - 12:00 PM"
  {
  }

  lemma OverlappingParses()
    ensures ParseTimeRange("10:30 AM - 12:00 PM") == Some(TimeRange(630, 720))
  {
    OverlappingFormat();
    ParseOfFormat(TimeRange(630, 720));
  }

  lemma ContainedFormat()
    ensures FormatTimeRange(TimeRange(615, 675)) == "10:15 AM - 11:15 AM"
  {
  }

  lemma ContainedParses()
    ensures ParseTimeRange("10:15 AM - 11:15 AM") == Some(TimeRange(615, 675))
  {
    ContainedFormat();
    ParseOfFormat(TimeRange(615, 675));
  }

  lemma TouchingFormat()
    ensures FormatTimeRange(TimeRange(690, 780)) == "11:30 AM - 1:00 PM"
  {
  }

  lemma TouchingParses()
    ensures ParseTimeRange("11:30 AM - 1:00 PM") == Some(TimeRange(690, 780))
  {
    TouchingFormat();
    ParseOfFormat(TimeRange(690, 780));
  }

  lemma ReversedFormat()
    ensures FormatTimeRange(TimeRange(690, 600)) == "11:30 AM - 10:00 AM"
  {
  }

  lemma ReversedParses()
    ensures ParseTimeRange("11:30 AM - 10:00 AM") == Some(TimeRange(690, 600))
  {
    ReversedFormat();
    ParseOfFormat(TimeRange(690, 600));
  }

  lemma ReversedInsideFormat()
    ensures FormatTimeRange(TimeRange(700, 600)) == "11:40 AM - 10:00 AM"
  {
  }

  lemma ReversedInsideParses()
    ensures ParseTimeRange("11:40 AM - 10:00 AM") == Some(TimeRange(700, 600))
  {
    ReversedInsideFormat();
    ParseOfFormat(TimeRange(700, 600));
  }

  lemma LateMorningFormat()
    ensures FormatTimeRange(LateMorningRange) == LateMorningTime
  {
  }

  lemma LateMorningParses()
    ensures ParseTimeRange(LateMorningTime) == Some(LateMorningRange)
  {
    LateMorningFormat();
    ParseOfFormat(LateMorningRange);
  }

  lemma LateMorningStripped()
    ensures '|' !in LateMorningTime && Strip(LateMorningTime) == LateMorningTime
  {
    StripUnchanged(LateMorningTime);
  }

  lemma LateMorningSchedule()
    ensures LateMorning.schedule == FormatSchedule("M", LateMorningTime)
  {
  }

  // ---------------------------------------------------------------------
  // The detector on one or two sections.

  /**
   * A section stored as `"<days> | <t>"`, with `t` already stripped and
   * parsing to `booked`, clashes on the tokens of `days` exactly where the
   * ranges overlap.
   */
  lemma StoredAtClashes(sec: Section, days: string, t: string, booked: TimeRange, d: string, proposed: TimeRange)
    requires '|' !in days && '|' !in t && sec.schedule == FormatSchedule(days, t)
    requires Strip(t) == t && ParseTimeRange(t) == Some(booked)
    ensures Clashes(sec, d, proposed) == (d in Words(days) && Overlaps(proposed, booked))
  {
    SplitOfFormat(days, t);
    WordsOfStrip(days);
    ClashesOfParts(sec, d, proposed, Parts(Strip(days), t), booked);
  }

  lemma ScanDayOfOne(acc: seq<Conflict>, sec: Section, d: string, proposed: TimeRange)
    ensures ScanDay(acc, [sec], d, proposed) == Step(acc, sec, d, proposed)
  {
    assert [sec][..0] == [];
  }

  lemma StepAppends(acc: seq<Conflict>, sec: Section, d: string, proposed: TimeRange)
    requires Clashes(sec, d, proposed) && !HasKey(acc, ConflictRecord(sec, d))
    ensures Step(acc, sec, d, proposed) == acc + [ConflictRecord(sec, d)]
  {
  }

  lemma StepKeeps(acc: seq<Conflict>, sec: Section, d: string, proposed: TimeRange)
    requires HasKey(acc, ConflictRecord(sec, d))
    ensures Step(acc, sec, d, proposed) == acc
  {
  }

  /** The outer loop for one more day, without the pre-filter. */
  lemma ScanDaysOfNext(days: seq<string>, d: string, pool: seq<Section>, proposed: TimeRange)
    ensures ScanDays(days + [d], pool, proposed) == ScanDay(ScanDays(days, pool, proposed), pool, d, proposed)
  {
    assert (days + [d])[..|days|] == days;
    PrefilterIsNoOp(ScanDays(days, pool, proposed), pool, d, proposed);
  }

  /** With valid inputs and one section of the faculty member, the detector is the outer loop over that section. */
  lemma OneSectionPool(day: string, time: string, proposed: TimeRange, sec: Section)
    requires day != [] && ParseTimeRange(time) == Some(proposed) && sec.facultyId == Some(FacultyId)
    ensures FacultyConflicts(Some(day), Some(time), Some(FacultyId), None, [sec]) == ScanDays(Words(day), [sec], proposed)
  {
    CandidatesOfOne(sec, FacultyId, None);
    ConflictsOfPool(Some(day), Some(time), Some(FacultyId), None, [sec], proposed);
  }

  /** With one input day and one section of the faculty member, the result is that section's record or nothing. */
  lemma OneDayOneSection(d: string, time: string, proposed: TimeRange, sec: Section)
    requires IsWord(d) && ParseTimeRange(time) == Some(proposed) && sec.facultyId == Some(FacultyId)
    ensures FacultyConflicts(Some(d), Some(time), Some(FacultyId), None, [sec])
         == if Clashes(sec, d, proposed) then [ConflictRecord(sec, d)] else []
  {
    WordsOfWord(d);
    OneSectionPool(d, time, proposed, sec);
    ScanDaysOfNext([], d, [sec], proposed);
    ScanDayOfOne([], sec, d, proposed);
    assert [] + [d] == [d];
  }

  /** The section of the test set-up clashes on the tokens of `M` wherever the ranges overlap. */
  lemma BookedStoredAt(d: string, proposed: TimeRange)
    ensures Clashes(Booked, d, proposed) == (d in Words("M") && Overlaps(proposed, BookedRange))
  {
    MondayPipeFree();
    BookedTimeParses();
    BookedTimeStripped();
    BookedSchedule();
    StoredAtClashes(Booked, "M", BookedTime, BookedRange, d, proposed);
  }

  /** The section of the test set-up clashes on Monday wherever the ranges overlap, and on no other day. */
  lemma BookedClashes(d: string, proposed: TimeRange)
    ensures Clashes(Booked, d, proposed) == (d == "M" && Overlaps(proposed, BookedRange))
  {
    BookedStoredAt(d, proposed);
    MondayFacts();
  }

  /** The section of the test set-up against a proposal `time` on the one day `d`. */
  lemma BookedVerdict(d: string, time: string, proposed: TimeRange)
    requires IsWord(d) && ParseTimeRange(time) == Some(proposed)
    ensures FacultyConflicts(Some(d), Some(time), Some(FacultyId), None, [Booked])
         == if d == "M" && Overlaps(proposed, BookedRange) then [ConflictRecord(Booked, "M")] else []
  {
    BookedClashes(d, proposed);
    OneDayOneSection(d, time, proposed, Booked);
  }

  /** Test lines 32-37: the same time on the same day is one conflict. */
  lemma SameRangeSameDayReported()
    ensures FacultyConflicts(Some("M"), Some(BookedTime), Some(FacultyId), None, [Booked])
         == [Conflict("faculty", "CS101", "A", "M | 10:00 AM - 11:30 AM", "Room 101", "M")]
  {
    MondayIsWord();
    BookedTimeParses();
    BookedVerdict("M", BookedTime, BookedRange);
  }

  /** Test lines 40-45: `10:30 AM - 12:00 PM` overlaps the stored range. */
  lemma OverlappingRangeReported()
    ensures FacultyConflicts(Some("M"), Some("10:30 AM - 12:00 PM"), Some(FacultyId), None, [Booked])
         == [ConflictRecord(Booked, "M")]
  {
    MondayIsWord();
    OverlappingParses();
    BookedVerdict("M", "10:30 AM - 12:00 PM", TimeRange(630, 720));
  }

  /** Test lines 48-53: `10:15 AM - 11:15 AM` lies inside the stored range. */
  lemma ContainedRangeReported()
    ensures FacultyConflicts(Some("M"), Some("10:15 AM - 11:15 AM"), Some(FacultyId), None, [Booked])
         == [ConflictRecord(Booked, "M")]
  {
    MondayIsWord();
    ContainedParses();
    BookedVerdict("M", "10:15 AM - 11:15 AM", TimeRange(615, 675));
  }

  /** Test lines 56-61: the same time on Tuesday is no conflict. */
  lemma OtherDayNotReported()
    ensures FacultyConflicts(Some("T"), Some(BookedTime), Some(FacultyId), None, [Booked]) == []
  {
    TuesdayIsWord();
    BookedTimeParses();
    BookedVerdict("T", BookedTime, BookedRange);
  }

  /** Test lines 64-69: `11:30 AM - 1:00 PM` starts when the stored range ends. */
  lemma TouchingRangeNotReported()
    ensures FacultyConflicts(Some("M"), Some("11:30 AM - 1:00 PM"), Some(FacultyId), None, [Booked]) == []
  {
    MondayIsWord();
    TouchingParses();
    BookedVerdict("M", "11:30 AM - 1:00 PM", TimeRange(690, 780));
  }

  /** A range that ends before it starts is accepted as it is; this one misses the section of the test set-up. */
  lemma ReversedProposalNotRejected()
    ensures ParseTimeRange("11:30 AM - 10:00 AM") == Some(TimeRange(690, 600))
    ensures FacultyConflicts(Some("M"), Some("11:30 AM - 10:00 AM"), Some(FacultyId), None, [Booked]) == []
  {
    MondayIsWord();
    ReversedParses();
    BookedVerdict("M", "11:30 AM - 10:00 AM", TimeRange(690, 600));
  }

  /** The 10:50 to 12:30 section clashes on Monday wherever the ranges overlap, and on no other day. */
  lemma LateMorningClashes(d: string, proposed: TimeRange)
    ensures Clashes(LateMorning, d, proposed) == (d == "M" && Overlaps(proposed, LateMorningRange))
  {
    MondayPipeFree();
    LateMorningParses();
    LateMorningStripped();
    LateMorningSchedule();
    StoredAtClashes(LateMorning, "M", LateMorningTime, LateMorningRange, d, proposed);
    MondayFacts();
  }

  /**
   * A reversed range can still conflict: `11:40 AM - 10:00 AM` is accepted, and
   * against a section stored from 10:50 to 12:30 the third clause of the
   * overlap test (`section_start <= start_time < section_end`) holds.
   */
  lemma ReversedProposalCanConflict()
    ensures ParseTimeRange("11:40 AM - 10:00 AM") == Some(TimeRange(700, 600))
    ensures FacultyConflicts(Some("M"), Some("11:40 AM - 10:00 AM"), Some(FacultyId), None, [LateMorning])
         == [ConflictRecord(LateMorning, "M")]
  {
    MondayIsWord();
    ReversedInsideParses();
    LateMorningClashes("M", TimeRange(700, 600));
    OneDayOneSection("M", "11:40 AM - 10:00 AM", TimeRange(700, 600), LateMorning);
  }

  /**
   * A Thursday section passes the substring pre-filter for `T` (its
   * schedule contains `T`) and is then skipped by the token test.
   */
  lemma TuesdayDoesNotMatchThursday()
    ensures Contains(Thursday.schedule, "T")
    ensures FacultyConflicts(Some("T"), Some(BookedTime), Some(FacultyId), None, [Thursday]) == []
  {
    ThursdayMentionsTuesday();
    TuesdayIsWord();
    ThursdayFacts();
    BookedTimeParses();
    BookedTimeStripped();
    ThursdaySchedule();
    StoredAtClashes(Thursday, "TH", BookedTime, BookedRange, "T", BookedRange);
    OneDayOneSection("T", BookedTime, BookedRange, Thursday);
  }

  /** Two input days, both clashing with the one section: the pair is reported once, on the first day. */
  lemma TwoDaysBothClash(day: string, d1: string, d2: string, time: string, proposed: TimeRange, sec: Section)
    requires day != [] && Words(day) == [d1, d2] && ParseTimeRange(time) == Some(proposed)
    requires sec.facultyId == Some(FacultyId) && Clashes(sec, d1, proposed) && Clashes(sec, d2, proposed)
    ensures FacultyConflicts(Some(day), Some(time), Some(FacultyId), None, [sec]) == [ConflictRecord(sec, d1)]
  {
    OneSectionPool(day, time, proposed, sec);
    FirstDayReported(d1, proposed, sec);
    SecondDayRepeats(d1, d2, proposed, sec);
  }

  lemma FirstDayReported(d1: string, proposed: TimeRange, sec: Section)
    requires Clashes(sec, d1, proposed)
    ensures ScanDays([d1], [sec], proposed) == [ConflictRecord(sec, d1)]
  {
    ScanDaysOfNext([], d1, [sec], proposed);
    ScanDayOfOne([], sec, d1, proposed);
    assert [] + [d1] == [d1];
    StepAppends([], sec, d1, proposed);
  }

  lemma SecondDayRepeats(d1: string, d2: string, proposed: TimeRange, sec: Section)
    requires ScanDays([d1], [sec], proposed) == [ConflictRecord(sec, d1)]
    ensures ScanDays([d1, d2], [sec], proposed) == [ConflictRecord(sec, d1)]
  {
    var rec := ConflictRecord(sec, d1);
    ScanDaysOfNext([d1], d2, [sec], proposed);
    ScanDayOfOne([rec], sec, d2, proposed);
    assert [d1] + [d2] == [d1, d2];
    assert SameKey([rec][0], ConflictRecord(sec, d2));
    StepKeeps([rec], sec, d2, proposed);
  }

  /** A proposal on `M TH` against a section on `M TH` is reported once, on Monday: the pair is not repeated for Thursday. */
  lemma SectionReportedOncePerPair()
    ensures FacultyConflicts(Some("M TH"), Some(BookedTime), Some(FacultyId), None, [MondayThursday])
         == [ConflictRecord(MondayThursday, "M")]
  {
    MondayThursdayWords();
    BookedTimeParses();
    BookedTimeStripped();
    MondayThursdaySchedule();
    StoredAtClashes(MondayThursday, "M TH", BookedTime, BookedRange, "M", BookedRange);
    StoredAtClashes(MondayThursday, "M TH", BookedTime, BookedRange, "TH", BookedRange);
    TwoDaysBothClash("M TH", "M", "TH", BookedTime, BookedRange, MondayThursday);
  }


  // ---------------------------------------------------------------------
  // The time parser.

  /** `re.match` finds the first clock at `s[..e1]`; a first clock `strptime` rejects makes the whole range rejected. */
  lemma FirstClockRejected(s: string, e1: nat)
    requires ClockPatternEnd(s, 0) == Some(e1) && StrpClock(Strip(s[..e1])) == None
    ensures ParseTimeRange(s) == None
  {
    MatchTimePatternOf(s, e1);
  }

  const NoSpaceTime := "10:00AM - 11:30 AM"

  lemma NoSpaceFirstClock()
    ensures ClockPatternEnd(NoSpaceTime, 0) == Some(7)
  {
    DigitEndIs(NoSpaceTime, 0, 2);
    DigitEndIs(NoSpaceTime, 3, 5);
    SpaceEndIs(NoSpaceTime, 5, 5);
  }

  lemma NoSpacePrefix()
    ensures NoSpaceTime[..7] == "10:00AM"
  {
  }

  lemma NoSpaceClockRejected()
    ensures StrpClock(Strip("10:00AM")) == None
  {
    StripUnchanged("10:00AM");
    StrpClockNeedsSpace("10:00AM");
  }

  /** `10:00AM` fits the pattern, whose `\s*` allows no space, but not `%I:%M %p`, so the range is rejected. */
  lemma NoSpaceBeforeMarkerRejected()
    ensures ParseTimeRange(NoSpaceTime) == None
  {
    NoSpaceFirstClock();
    NoSpacePrefix();
    NoSpaceClockRejected();
    FirstClockRejected(NoSpaceTime, 7);
  }

  /** `%I` takes hours 1 to 12 and `%M` minutes 0 to 59. */
  lemma HourThirteenRejected()
    ensures StrpClock("13:00 PM") == None
  {
  }

  lemma HourZeroRejected()
    ensures StrpClock("0:30 AM") == None
  {
  }

  lemma MinuteSixtyRejected()
    ensures StrpClock("10:60 AM") == None
  {
  }

  lemma MidnightText()
    ensures ClockText(12, 0, false) == "12:00 AM"
  {
  }

  lemma NoonText()
    ensures ClockText(12, 0, true) == "12:00 PM"
  {
  }

  /** On the 12-hour clock, 12 AM is midnight and 12 PM is noon. */
  lemma TwelveOClock()
    ensures StrpClock("12:00 AM") == Some(0) && StrpClock("12:00 PM") == Some(720)
  {
    MidnightText();
    NoonText();
    StrpClockOfText(12, 0, false);
    StrpClockOfText(12, 0, true);
  }

  /** Text after the range is ignored. */
  lemma TrailingNoteIgnored()
    ensures ParseTimeRange(BookedTime + " (lab)") == Some(BookedRange)
  {
    BookedTimeParses();
    TrailingTextIgnored(BookedTime, " (lab)");
  }
}
