# Faculty schedule-conflict detector

This project models the faculty schedule-conflict detector of a class-scheduling
service, `check_faculty_schedule_conflicts` in `src/schedules/utils.py`, and proves
properties of the model.

The inputs are:

- a proposed day string such as `"M TH"`;
- a time range such as `"11:00 AM - 12:00 PM"`;
- a faculty id;
- an optional id of a section to leave out, namely the section being edited.

The detector returns one conflict record for each stored class section of that faculty member
that shares a day with the proposal and whose stored time range overlaps it. It reports a
(course, section) pair at most once.

The project has these modules:

- `Wrappers` (`wrappers.dfy`): `Option`.
- `Text` (`text.dfy`): the parts of Python's `str` the detector uses.
  - `str.isspace` whitespace.
  - `split()`, `split('|')` and `strip()`.
  - Substring containment.
- `Clock` (`clock.dfy`): the time-range parser of lines 29-42 and 72-82.
  - It models `re.match` of `(\d+:\d+\s*[AP]M)\s*-\s*(\d+:\d+\s*[AP]M)` on the shapes that pattern accepts.
  - It models `datetime.strptime(..., "%I:%M %p")` as minutes after midnight, `(h mod 12 + (PM ? 12 : 0)) * 60 + m`.
  - It includes a formatter, `FormatTimeRange`, used to state the parse/format round trip.
- `Schedule` (`schedule.dfy`): how the stored schedule `"<days> | <time>"` is written.
  - The serializer writes it at `src/schedules/serializers.py:31`.
  - The detector splits it apart at lines 60-65.
- `Conflicts` (`conflicts.dfy`): the detector.
  - The overlap test, and the three ORM queries, as order-preserving filters over a sequence of section records.
  - A functional specification of the scan as a fold (`FacultyConflicts`).
  - The imperative detector, `CheckFacultyScheduleConflicts`: a method with the nested loops of the source and its linear "already reported?" search. Its contract ties the method to the fold, and its loop invariants carry two properties:
    - no duplicate (course, section) pairs;
    - every entry comes from a stored section that really clashes.
- `ConflictProperties` (`properties.dfy`): lemmas about the fold. They cover:
  - the early returns;
  - soundness and completeness;
  - exclusion;
  - skipped sections;
  - the pre-filter;
  - the round trip with the serializer.
- `Scenarios` (`scenarios.dfy`): the cases of `src/schedules/tests/test_schedule_conflicts.py:29-69`, plus further edge cases, as facts about the model.

The database holds the section records, and the model takes them as a sequence in queryset order.
The result order is input-day order, then the order of that sequence.

## Model

| member | source | states |
|---|---|---|
| `Conflicts.Overlaps` | src/schedules/utils.py:85-90 | Any two ranges with `proposed.start < booked.end` and `booked.start < proposed.end` overlap. For proper ranges (start before end), overlapping also implies those two inequalities, so the four-clause test is the usual half-open intersection test. |
| `ConflictProperties.OverlapsSymmetric` | src/schedules/utils.py:85-90 | For any two ranges, swapping proposal and stored range gives the same overlap verdict. |
| `ConflictProperties.IdenticalRangesOverlap` | src/schedules/utils.py:85-90 | A proper range overlaps itself. |
| `ConflictProperties.ContainedRangeOverlaps` | src/schedules/utils.py:85-90 | A proper range inside another overlaps it, whichever of the two is the proposal. |
| `ConflictProperties.TouchingRangesDoNotOverlap` | src/schedules/utils.py:85-90 | Proper ranges where one ends exactly when the other starts do not overlap, in either order. |
| `ConflictProperties.EmptyBookedRangeAtStartOverlaps` | src/schedules/utils.py:85-90 | An empty stored range at the proposal's start is reported as overlapping, although no minute of the proposal lies strictly inside it. |
| `Clock.HourField` | src/schedules/utils.py:39 | `%I` accepts an hour text exactly when it is one or two decimal digits denoting 1 to 12 (so `13`..`19`, `0`, `00` and three digits are rejected), and the hour it reads is the number those digits denote (`09` and `9` both read as 9). |
| `Clock.FieldsOfText` | src/schedules/utils.py:39 | `%I` and `%M` read back the hour and the minute the 12-hour spelling writes. |
| `Clock.MinuteField` | src/schedules/utils.py:39 | `%M` accepts a minute text exactly when it is one or two decimal digits denoting 0 to 59 (so `60`..`99` are rejected), and the minute it reads is the number those digits denote (`05` and `5` both read as 5). |
| `Clock.StrpClock` | src/schedules/utils.py:39-42 | A clock that `strptime("%I:%M %p")` accepts is a minute of the day, 0 to 1439. |
| `Clock.ClockPatternEnd` | src/schedules/utils.py:29 | A match of `\d+:\d+\s*[AP]M` starts with a digit, ends with `M` and is non-empty. |
| `Clock.MatchTimePattern` | src/schedules/utils.py:29-30 | A match of the time pattern starts at position 0 and ends with `M`. |
| `Clock.MatchAfterFirst` | src/schedules/utils.py:29 | The `\s*-\s*` part and the second clock end after the first clock, on an `M`. |
| `Clock.ParseTimeRange` | src/schedules/utils.py:29-42 | Both ends of a parsed range are minutes of the day. |
| `Clock.StrpClockOfText` | src/schedules/utils.py:39 | `strptime` reads `H:MM AM`/`H:MM PM` as `(H mod 12 + (PM ? 12 : 0)) * 60 + MM`. |
| `Clock.StrpClockOfFormat` | src/schedules/utils.py:39 | `strptime` reads back every minute of the day from its 12-hour spelling. |
| `Clock.ClockPatternOfText` | src/schedules/utils.py:29 | The clock pattern matches a 12-hour spelling, wherever it stands, as a whole. |
| `Clock.MatchTimePatternAt` | src/schedules/utils.py:29-35 | `re.match` on two clock matches joined by ` - ` matches the whole string, and the two clocks are its groups. |
| `Clock.MatchOfFormat` | src/schedules/utils.py:29-35 | The canonical spelling of any in-day range is matched as a whole, and its two clocks are the groups. |
| `Clock.ParseOfFormat` | src/schedules/utils.py:29-42 | Round trip: the canonical spelling of any in-day range parses back to that range. |
| `Clock.TrailingTextIgnored` | src/schedules/utils.py:30 | `re.match` anchors only at the start, so text after a parseable range leaves the result unchanged. |
| `Clock.ParseOfSameMatch` | src/schedules/utils.py:35-42 | The parse depends only on the match groups. |
| `Clock.MatchOfStrip` | src/schedules/utils.py:64-72 | Stripping whitespace from a matched string does not change the match. |
| `Clock.ParseOfStrip` | src/schedules/utils.py:64-82 | When a time text already parses, stripping it does not change the result. A part with leading whitespace does not parse before the strip (`LeadingSpaceRejected`, `StoredTimeNeedsStrip`). |
| `Clock.LeadingSpaceRejected` | src/schedules/utils.py:30-33 | A time string that begins with whitespace is rejected. |
| `Clock.StrpClockFieldsInRange` | src/schedules/utils.py:39-42 | Every clock `strptime` accepts has, before its first `:`, a one- or two-digit hour from 1 to 12, and after it a one- or two-digit minute from 0 to 59. Any other hour or minute text is rejected. |
| `Clock.StrpClockNeedsSpace` | src/schedules/utils.py:39-42 | A clock that holds no whitespace, such as `10:00AM`, is rejected by `strptime`, whose format needs whitespace before AM/PM. |
| `Schedule.SplitSchedule` | src/schedules/utils.py:60-64 | Neither half of an accepted split contains the bar. |
| `Schedule.SplitAcceptsOneBar` | src/schedules/utils.py:60-62 | The split accepts a stored schedule exactly when it holds exactly one bar. |
| `Schedule.SplitOfFormat` | src/schedules/serializers.py:31 | Round trip: a schedule the serializer writes from a day and a time, neither containing the bar, splits back into that day and that time, stripped. |
| `Schedule.PiecesOfFormat` | src/schedules/utils.py:60 | Before the strip, splitting a serializer-written schedule on the bar gives the day followed by a space and the time preceded by a space. |
| `Schedule.FormatOfSplit` | src/schedules/utils.py:60-64 | The parts of any accepted split, written back by the serializer, split into the same parts. |
| `Text.IsSpace` | src/schedules/utils.py:23 | The `str.isspace` characters, the whitespace set that `split()`, `strip()` and the pattern's `\s` use. |
| `Text.Contains` | src/schedules/utils.py:56 | `schedule__contains`: the day occurs in the schedule as a contiguous substring. |
| `Text.TrimLeft` | src/schedules/utils.py:64 | `lstrip()`: the string after its leading run of whitespace. |
| `Text.TrimRight` | src/schedules/utils.py:64 | `rstrip()`: the longest prefix that does not end in whitespace; every character dropped is whitespace. |
| `Text.Strip` | src/schedules/utils.py:39-40 | `strip()` as `rstrip(lstrip(s))`. `StripEnds` and `StripIdempotent` state its properties. |
| `Text.StripEnds` | src/schedules/utils.py:64 | A stripped string is empty, or begins and ends with a non-whitespace character. |
| `Clock.MeridiemField` | src/schedules/utils.py:39 | `%p` in the C locale, ignoring case: `AM` gives morning and `PM` gives afternoon. `StrpClockOfText` states the value it contributes. |
| `Schedule.FormatSchedule` | src/schedules/serializers.py:31 | The serializer's format string: the day, a space, the bar, a space and the time. `SplitOfFormat` and `FormatOfSplit` state the round trip. |
| `Text.Words` | src/schedules/utils.py:23 | Every token of `split()` is non-empty and free of whitespace. |
| `Text.SplitOn` | src/schedules/utils.py:60 | Splitting on a character gives at least one piece, and no piece contains that character. |
| `Text.WordsEmptyIffBlank` | src/schedules/utils.py:23-25 | `split()` is empty exactly when the string is empty or only whitespace. |
| `Text.WordsOfStrip` | src/schedules/utils.py:64-65 | Stripping before `split()` does not change the tokens. |
| `Text.WordsAreSubstrings` | src/schedules/utils.py:56-68 | Every token of `split()` is a substring of the string. |
| `Text.SplitOnCount` | src/schedules/utils.py:60-61 | Splitting on a character gives `n + 1` pieces for `n` occurrences of it. |
| `Text.JoinOfSplit` | src/schedules/utils.py:60 | Joining the pieces of a split with the separator gives the string back. |
| `Text.SplitOfJoin` | src/schedules/utils.py:60 | Pieces free of a separator, joined by it, split back into themselves. |
| `Text.StripIdempotent` | src/schedules/utils.py:64 | `strip()` applied twice is `strip()` applied once. |
| `Conflicts.OfFaculty` | src/schedules/utils.py:47 | `filter(faculty_id=...)` keeps exactly the sections of that faculty member, and no more than were given. |
| `Conflicts.ExcludingId` | src/schedules/utils.py:51 | `exclude(id=...)` keeps exactly the sections with another id. |
| `Conflicts.MentioningDay` | src/schedules/utils.py:56 | `filter(schedule__contains=day)` keeps exactly the sections whose schedule contains the day as a substring. |
| `Conflicts.Candidates` | src/schedules/utils.py:47-51 | The candidate sections are exactly those of the faculty member, less the excluded id when that id is truthy. |
| `Conflicts.Present` | src/schedules/utils.py:19 | Python truthiness of the day and time arguments: `None` and the empty string are false. |
| `Conflicts.Truthy` | src/schedules/utils.py:19-20 | Python truthiness of an id, used for the faculty id (line 19) and the excluded id (line 50): `None` and `0` are false. |
| `Conflicts.Clashes` | src/schedules/utils.py:60-90 | A section yields a conflict on a day when all of these hold: its schedule splits into two parts on the bar; the day is a token of the stripped day part; the stripped time part parses; and the parsed range overlaps the proposal. `ClashesOfParts`, `ClashMentionsDay` and `SectionClashes` state its properties. |
| `Conflicts.ConflictRecord` | src/schedules/utils.py:93-100 | The conflict dictionary: type `faculty`, course code, section label, raw schedule, room and the input day. |
| `Conflicts.Step` | src/schedules/utils.py:58-105 | One iteration of the inner loop: append the section's record when it clashes and its (section, course) pair is not yet reported, otherwise keep the list. `StepExtends` states that it only appends. |
| `Conflicts.ScanDay` | src/schedules/utils.py:58-105 | The inner loop as a fold of `Step` over the sections, in order. `ScanDayExtends`, `ScanDayFinds` and `ScanDaySkip` state its properties. |
| `Conflicts.ScanDays` | src/schedules/utils.py:54-105 | The outer loop: `ScanDay` for each input day in turn, over the candidates that pass the pre-filter for that day. `ScanDaysFinds` and `ScanDaysFromPool` state its properties. |
| `Conflicts.FacultyConflicts` | src/schedules/utils.py:5-107 | The value `check_faculty_schedule_conflicts` returns. It is empty for falsy or blank inputs and for an unparseable time; otherwise it is the outer loop over the day tokens and the candidate sections. `ConflictsIffClash`, `EveryClashReported` and the contract of `CheckFacultyScheduleConflicts` state what it means. |
| `ConflictProperties.ExcludingOfFaculty` | src/schedules/utils.py:47-51 | The faculty filter and the exclusion commute. |
| `ConflictProperties.CandidatesAppend` | src/schedules/utils.py:47-51 | The candidates of a concatenated table are the candidates of each part, in order. |
| `Conflicts.AlreadyReported` | src/schedules/utils.py:103-104 | The linear search answers whether some earlier conflict has the same (section, course) pair. |
| `Conflicts.SectionClashes` | src/schedules/utils.py:60-90 | The per-section tests agree with `Clashes`. A clash implies the input day occurs in the stored schedule, so the pre-filter cannot drop it. An unsplittable schedule or an unparseable time never clashes. When both ranges are proper, a clash holds exactly when the day is a token of the day part and the two ranges intersect (`proposed.start < booked.end` and `booked.start < proposed.end`). |
| `Conflicts.ScanSections` | src/schedules/utils.py:58-105 | For one input day, the inner loop computes the specified fold. It keeps (course, section) pairs distinct, and every entry is a faculty conflict drawn from a clashing candidate. |
| `Conflicts.ScanForConflicts` | src/schedules/utils.py:54-105 | The outer loop, over input days in order, computes the specified fold. It keeps pairs distinct, and every conflict's day is an input day. |
| `Conflicts.CheckFacultyScheduleConflicts` | src/schedules/utils.py:5-107 | The detector returns exactly `FacultyConflicts`. No two results share a (course, section) pair. Each result has type `faculty` and is the record of an eligible stored section that clashes on that result's `conflict_day`, which is a token of the input day. |
| `Conflicts.RecordFromPool` | src/schedules/utils.py:92-105 | Appending the record of a clashing candidate keeps every entry drawn from the candidates. |
| `Conflicts.AppendNewKey` | src/schedules/utils.py:102-105 | Appending a conflict whose pair is not yet reported keeps the pairs distinct. |
| `Conflicts.FromCandidatesWarranted` | src/schedules/utils.py:47-100 | A conflict drawn from the candidates is backed by an eligible stored section. |
| `ConflictProperties.NoConflictsWithoutInput` | src/schedules/utils.py:19-25 | A falsy day, time or faculty id, or a day of only whitespace, gives no conflicts. |
| `ConflictProperties.NoConflictsForUnparseableTime` | src/schedules/utils.py:29-42 | A proposed time that fails the pattern or `strptime` gives no conflicts rather than an error. |
| `ConflictProperties.ConflictsOfPool` | src/schedules/utils.py:19-54 | With valid inputs, the result is the scan over the tokens of the day and the candidate sections. |
| `ConflictProperties.ScanDayExtends` | src/schedules/utils.py:102-105 | The inner loop only appends, so what was reported stays reported, in place. |
| `ConflictProperties.ScanDayFinds` | src/schedules/utils.py:58-105 | After the inner loop, the pair of every section that clashes on that day is reported. |
| `ConflictProperties.ScanDaysFinds` | src/schedules/utils.py:54-105 | After the outer loop, the pair of every candidate that clashes on any input day is reported. |
| `ConflictProperties.ScanDaysFromPool` | src/schedules/utils.py:54-105 | Every conflict of the outer loop is a faculty conflict of a clashing candidate on an input day. |
| `Conflicts.ClashMentionsDay` | src/schedules/utils.py:56-68 | A section that clashes on a day contains that day as a substring, so it passes the pre-filter. |
| `ConflictProperties.PrefilterIsNoOp` | src/schedules/utils.py:56-68 | Dropping the substring pre-filter leaves the result of the inner loop unchanged. |
| `ConflictProperties.LoosePrefilterIsNoOp` | src/schedules/utils.py:56-68 | Any order-preserving pre-filter that admits at least the sections containing the day as a substring (a case-insensitive `LIKE`, for example) gives the inner loop the same result as no pre-filter. |
| `ConflictProperties.ClashesOfParts` | src/schedules/utils.py:60-90 | Once the split and the parse succeed, a section clashes exactly when the day is one of its tokens and the ranges overlap. |
| `ConflictProperties.EveryClashReported` | src/schedules/utils.py:54-105 | Completeness: every eligible section that clashes on an input day has its (course, section) pair reported. |
| `ConflictProperties.ConflictsIffClash` | src/schedules/utils.py:19-105 | The result is non-empty exactly when the inputs are valid, the time parses, and some eligible section clashes on some input day. |
| `ConflictProperties.ExclusionRemovesSections` | src/schedules/utils.py:50-51 | A truthy excluded id gives the same result as removing every section with that id from the table. |
| `ConflictProperties.FalsyExclusionIgnored` | src/schedules/utils.py:50 | An excluded id of 0 or `None` excludes nothing. |
| `ConflictProperties.SilentSectionIgnored` | src/schedules/utils.py:58-90 | A section that clashes on no input day could as well not be stored, and the scan carries on past it. |
| `ConflictProperties.UnsplittableSectionIgnored` | src/schedules/utils.py:60-62 | A section whose schedule does not split into exactly two parts on the bar is skipped. |
| `ConflictProperties.OtherDaySectionIgnored` | src/schedules/utils.py:65-69 | A section none of whose day tokens is an input day is skipped, whatever substrings its schedule contains. |
| `ConflictProperties.UnparseableSectionIgnored` | src/schedules/utils.py:72-82 | A section whose time part fails to parse is skipped. |
| `ConflictProperties.StoredProposalClashes` | src/schedules/serializers.py:31 | A section stored by the serializer from a day and a proper time clashes with that same time on each of its day tokens. |
| `ConflictProperties.StoredTimeNeedsStrip` | src/schedules/utils.py:60-72 | The time piece that splitting on the bar gives for a serializer-written schedule starts with a space, so it does not parse as it is. Once line 64 strips it, it parses to what the time the serializer was given parses to. |
| `ConflictProperties.ResavedScheduleReported` | src/schedules/utils.py:54-105 | Proposing the stored day and proper time again for the same faculty member reports that section on the first input day. |
| `Scenarios.OneDayOneSection` | src/schedules/utils.py:54-105 | With one input day and one section of the faculty member, the result is that section's record when it clashes, and nothing otherwise. |
| `Scenarios.TwoDaysBothClash` | src/schedules/utils.py:102-105 | A section that clashes on both of two input days is reported once, on the first day. |
| `Scenarios.BookedVerdict` | src/schedules/tests/test_schedule_conflicts.py:20-27 | The section of the test set-up conflicts with a proposal on a single day exactly when the day is `M` and the ranges overlap. |
| `Scenarios.SameRangeSameDayReported` | src/schedules/tests/test_schedule_conflicts.py:32-37 | The same day and time as the stored section give exactly one conflict, its record. |
| `Scenarios.OverlappingRangeReported` | src/schedules/tests/test_schedule_conflicts.py:40-45 | `10:30 AM - 12:00 PM` on `M` gives one conflict. |
| `Scenarios.ContainedRangeReported` | src/schedules/tests/test_schedule_conflicts.py:48-53 | `10:15 AM - 11:15 AM` on `M` gives one conflict. |
| `Scenarios.OtherDayNotReported` | src/schedules/tests/test_schedule_conflicts.py:56-61 | The same time on `T` gives none. |
| `Scenarios.TouchingRangeNotReported` | src/schedules/tests/test_schedule_conflicts.py:64-69 | `11:30 AM - 1:00 PM`, starting when the stored range ends, gives none. |
| `Scenarios.TuesdayDoesNotMatchThursday` | src/schedules/utils.py:56-69 | A `TH` section passes the substring pre-filter for `T` but gives no conflict on `T`. |
| `Scenarios.SectionReportedOncePerPair` | src/schedules/utils.py:102-105 | `M TH` against a section on `M TH` is reported once, on `M`. |
| `Scenarios.ReversedProposalNotRejected` | src/schedules/utils.py:29-42 | `11:30 AM - 10:00 AM`, a range that ends before it starts, is accepted by the parser as (690, 600) and gives no conflict with the 10:00-11:30 Monday section of the test set-up. |
| `Scenarios.ReversedProposalCanConflict` | src/schedules/utils.py:85-90 | A reversed range can still conflict: `11:40 AM - 10:00 AM` (700, 600) is reported against a Monday section stored as `10:50 AM - 12:30 PM`, because the third clause, `section_start <= start_time < section_end`, holds. |
| `Scenarios.NoSpaceBeforeMarkerRejected` | src/schedules/utils.py:38-42 | `10:00AM - 11:30 AM` fits the pattern but not `%I:%M %p`, so the whole range is rejected. |
| `Scenarios.HourThirteenRejected` | src/schedules/utils.py:39-42 | `13:00 PM` is rejected by `%I`. |
| `Scenarios.HourZeroRejected` | src/schedules/utils.py:39-42 | `0:30 AM` is rejected by `%I`. |
| `Scenarios.MinuteSixtyRejected` | src/schedules/utils.py:39-42 | `10:60 AM` is rejected by `%M`. |
| `Scenarios.TwelveOClock` | src/schedules/utils.py:39 | `12:00 AM` is minute 0 and `12:00 PM` is minute 720. |
| `Scenarios.TrailingNoteIgnored` | src/schedules/utils.py:30 | `10:00 AM - 11:30 AM (lab)` parses as `10:00 AM - 11:30 AM`. |

## Left out

- The Django ORM. `ClassSection.objects.filter/exclude` and the `schedule__contains` lookup become filters over a sequence of records.
  - Database collation is not modelled; `MentioningDay` models `schedule__contains` as a case-sensitive substring test. `PrefilterIsNoOp` shows that this filter does not affect the result. `LoosePrefilterIsNoOp` shows the same for any order-preserving filter that keeps at least those sections, and a case-insensitive `LIKE` is such a filter.
  - The `Section` record holds only the fields the detector reads. `courseCode` stands for `section.course.course_code`.
  - `Section.room` is a string, as in the `CharField` of `src/schedules/models.py`. Migration `0006_room_alter_classsection_room.py` turns `ClassSection.room` into a foreign key to `Room`, so the `"room"` entry of a conflict (utils.py line 98) actually holds a `Room` object. The model copies the field as it is and does not model the `Room` record.
- `datetime.strptime` and the `re` engine. They are modelled only as the string-to-minutes parser for the shapes the pattern and the format accept. The locale is taken to be C (`AM`/`PM`).
- Digits are ASCII only. Python's `\d`, and the digit classes of `strptime`, also accept other Unicode decimal digits.
- `src/schedules/views.py`, `src/schedules/urls.py`, `src/schedules/admin.py`, `src/schedules/models.py` and the migration. These are request handling, routing and schema. The serializer appears only through its one formatting line, `src/schedules/serializers.py:31`.
- The room-based conflict check and the conflict view that `src/schedules/urls.py` routes to. Their source is not part of this model.
- The seeding commands, `test_api.py` and `src/ai/lib/nlp.py`. They hold no detector logic.
- Concurrency. The check-then-act race between two requests that both pass the check is a transaction concern.
- Where this model follows the code rather than the prose description of the system:
  - minutes may be written with one digit (`%M` accepts `\d`);
  - any whitespace, or none, is accepted around `-`;
  - `AM`/`PM` must be upper case in the pattern, which makes the case-insensitive `%p` irrelevant;
  - a range that ends before it starts is accepted and then goes through the four overlap clauses as written. It misses the 10:00-11:30 section of the test set-up (`ReversedProposalNotRejected`), but it can still conflict with another section (`ReversedProposalCanConflict`);
  - the conflict record carries no section id, as in lines 93-100;
  - the faculty id is required;
  - `models.py` as shown declares no faculty field on `ClassSection`, although the detector filters on `faculty_id`; the model gives each section an optional faculty id.
