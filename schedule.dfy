/**
 * The stored schedule string of a class section, `"<days> | <time>"`: how the
 * serializer writes it (`src/schedules/serializers.py:31`) and how the
 * conflict detector takes it apart again (`src/schedules/utils.py:60-65`).
 */
module Schedule {
  import opened Wrappers
  import opened Text

  /** The two halves of a stored schedule, each stripped of surrounding whitespace. */
  datatype Parts = Parts(days: string, time: string)

  /**
   * Lines 60-64: `schedule.split('|')`, `None` unless that gives exactly two
   * pieces, and otherwise both pieces stripped.
   */
  function SplitSchedule(schedule: string): (r: Option<Parts>)
    ensures r.Some? ==> '|' !in r.value.days && '|' !in r.value.time
  {
    var pieces := SplitOn(schedule, '|');
    if |pieces| != 2 then None
    else
      StripKeepsOut(pieces[0], '|');
      StripKeepsOut(pieces[1], '|');
      Some(Parts(Strip(pieces[0]), Strip(pieces[1])))
  }

  /** `src/schedules/serializers.py:31`: `f"{day} | {time}"`. */
  function FormatSchedule(day: string, time: string): string {
    day + " | " + time
  }

  /** The split accepts a schedule exactly when it holds one `|`. */
  lemma SplitAcceptsOneBar(schedule: string)
    ensures SplitSchedule(schedule).Some? <==> multiset(schedule)['|'] == 1
  {
    SplitOnCount(schedule, '|');
  }

  /**
   * Round trip with the serializer: a schedule written from a day and a
   * time that hold no `|` splits back into that day and that time, stripped.
   */
  lemma SplitOfFormat(day: string, time: string)
    requires '|' !in day && '|' !in time
    ensures SplitSchedule(FormatSchedule(day, time)) == Some(Parts(Strip(day), Strip(time)))
  {
    PiecesOfFormat(day, time);
    StripAppendSpace(day);
    StripPrependSpace(time);
  }

  /** Before the strip, `split('|')` keeps the spaces the serializer writes around the bar. */
  lemma PiecesOfFormat(day: string, time: string)
    requires '|' !in day && '|' !in time
    ensures SplitOn(FormatSchedule(day, time), '|') == [day + [' '], [' '] + time]
  {
    var left, right := day + [' '], [' '] + time;
    assert FormatSchedule(day, time) == JoinWith([left, right], '|');
    SplitOfJoin([left, right], '|');
  }

  /** The parts the split gives are written back by the serializer into a schedule with the same parts. */
  lemma FormatOfSplit(schedule: string)
    requires SplitSchedule(schedule).Some?
    ensures var p := SplitSchedule(schedule).value;
      SplitSchedule(FormatSchedule(p.days, p.time)) == Some(p)
  {
    var p := SplitSchedule(schedule).value;
    SplitOfFormat(p.days, p.time);
    var pieces := SplitOn(schedule, '|');
    StripIdempotent(pieces[0]);
    StripIdempotent(pieces[1]);
  }
}
