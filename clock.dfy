/**
 * The time-range parsing of the conflict detector: `re.match` of the pattern
 * `(\d+:\d+\s*[AP]M)\s*-\s*(\d+:\d+\s*[AP]M)` followed by
 * `datetime.strptime(group.strip(), "%I:%M %p")` on each group.
 *
 * Every `\d+` and `\s*` of the pattern is followed by a character class it
 * cannot match (`:`, `\s`, `[AP]`, `-`, `\d`), so each of them takes its
 * maximal run and the match is found without backtracking; `SpaceEnd` and
 * `DigitEnd` scan each run. A parsed time is a number of minutes after midnight: `strptime` puts
 * both ends on the same dummy date, so comparing the `datetime` values is
 * comparing these numbers.
 */
module Clock {
  import opened Wrappers
  import opened Text

  const MinutesPerDay := 1440

  /** A start and an end, in minutes after midnight. No order between them is enforced. */
  datatype TimeRange = TimeRange(start: int, end: int)

  /** The groups of a successful `re.match` of the time pattern and the match's end. */
  datatype TimeMatch = TimeMatch(first: string, second: string, end: nat)

  /** One or two decimal digits: the only texts `%I` and `%M` can read. */
  ghost predicate ShortNumeral(s: string) {
    (|s| == 1 && IsDigit(s[0])) || (|s| == 2 && IsDigit(s[0]) && IsDigit(s[1]))
  }

  /** The number a one- or two-digit numeral denotes; a leading zero adds nothing. */
  ghost function NumeralValue(s: string): int
    requires ShortNumeral(s)
  {
    if |s| == 1 then DigitValue(s[0]) else 10 * DigitValue(s[0]) + DigitValue(s[1])
  }

  /** `%I`: the hour on a 12-hour clock, written `1`..`9`, `01`..`09` or `10`..`12`. */
  function HourField(h: string): (r: Option<int>)
    ensures r.Some? <==> ShortNumeral(h) && 1 <= NumeralValue(h) <= 12
    ensures r.Some? ==> r.value == NumeralValue(h)
  {
    if |h| == 1 && '1' <= h[0] <= '9' then Some(DigitValue(h[0]))
    else if |h| == 2 && ((h[0] == '0' && '1' <= h[1] <= '9') || (h[0] == '1' && '0' <= h[1] <= '2'))
    then Some(10 * DigitValue(h[0]) + DigitValue(h[1]))
    else None
  }

  /** `%M`: the minute, written with one digit or as `00`..`59`. */
  function MinuteField(m: string): (r: Option<int>)
    ensures r.Some? <==> ShortNumeral(m) && NumeralValue(m) < 60
    ensures r.Some? ==> r.value == NumeralValue(m)
  {
    if |m| == 1 && IsDigit(m[0]) then Some(DigitValue(m[0]))
    else if |m| == 2 && '0' <= m[0] <= '5' && IsDigit(m[1]) then Some(10 * DigitValue(m[0]) + DigitValue(m[1]))
    else None
  }

  /** `%p` in the C locale, matched ignoring case: `Some(true)` for PM, `Some(false)` for AM. */
  function MeridiemField(p: string): Option<bool> {
    if |p| != 2 || !(p[1] == 'm' || p[1] == 'M') then None
    else if p[0] == 'a' || p[0] == 'A' then Some(false)
    else if p[0] == 'p' || p[0] == 'P' then Some(true)
    else None
  }

  /**
   * `datetime.strptime(g, "%I:%M %p")` as minutes after midnight, or `None`
   * where it raises `ValueError`. The hour is the text before the first `:`,
   * the minute the text after it up to the first whitespace; the format's
   * space needs at least one whitespace character; the AM/PM marker must end
   * the string. On the 12-hour clock 12 AM is hour 0 and 12 PM is hour 12.
   */
  function StrpClock(g: string): (t: Option<int>)
    ensures t.Some? ==> 0 <= t.value < MinutesPerDay
  {
    var colon := Find(g, ':', 0);
    if colon == |g| then None
    else
      var gap := WordEnd(g, colon + 1);
      if gap == |g| then None
      else
        var marker := SpaceEnd(g, gap);
        match (HourField(g[..colon]), MinuteField(g[colon + 1..gap]), MeridiemField(g[marker..]))
        case (Some(h), Some(m), Some(pm)) => Some((h % 12 + (if pm then 12 else 0)) * 60 + m)
        case _ => None
  }

  /** Where a match of `\d+:\d+\s*[AP]M` that starts at `i` ends, if there is one. */
  function ClockPatternEnd(s: string, i: nat): (e: Option<nat>)
    requires i <= |s|
    ensures e.Some? ==> i < e.value <= |s| && IsDigit(s[i]) && s[e.value - 1] == 'M'
  {
    var hourEnd := DigitEnd(s, i);
    if hourEnd == i || hourEnd == |s| || s[hourEnd] != ':' then None
    else
      var minuteEnd := DigitEnd(s, hourEnd + 1);
      if minuteEnd == hourEnd + 1 then None
      else
        var marker := SpaceEnd(s, minuteEnd);
        if marker + 1 < |s| && (s[marker] == 'A' || s[marker] == 'P') && s[marker + 1] == 'M'
        then Some(marker + 2)
        else None
  }

  /** `re.match(time_pattern, s)`: anchored at the start of `s`, not at its end. */
  function MatchTimePattern(s: string): (m: Option<TimeMatch>)
    ensures m.Some? ==> 0 < m.value.end <= |s| && IsDigit(s[0]) && s[m.value.end - 1] == 'M'
  {
    match ClockPatternEnd(s, 0)
    case None => None
    case Some(firstEnd) => MatchAfterFirst(s, firstEnd)
  }

  /** The rest of the match once `\d+:\d+\s*[AP]M` has matched `s[..firstEnd]`: `\s*-\s*` and the second clock. */
  function MatchAfterFirst(s: string, firstEnd: nat): (m: Option<TimeMatch>)
    requires 0 < firstEnd <= |s|
    ensures m.Some? ==> firstEnd < m.value.end <= |s| && s[m.value.end - 1] == 'M'
  {
    var dash := SpaceEnd(s, firstEnd);
    if dash == |s| || s[dash] != '-' then None
    else
      var secondStart := SpaceEnd(s, dash + 1);
      match ClockPatternEnd(s, secondStart)
      case None => None
      case Some(secondEnd) => Some(TimeMatch(s[..firstEnd], s[secondStart..secondEnd], secondEnd))
  }

  /**
   * Lines 29-42 (and 72-82 for a stored section): the range a time string
   * denotes, or `None` where the function gives up on it.
   */
  function ParseTimeRange(s: string): (r: Option<TimeRange>)
    ensures r.Some? ==> 0 <= r.value.start < MinutesPerDay && 0 <= r.value.end < MinutesPerDay
  {
    match MatchTimePattern(s)
    case None => None
    case Some(m) =>
      match (StrpClock(Strip(m.first)), StrpClock(Strip(m.second)))
      case (Some(a), Some(b)) => Some(TimeRange(a, b))
      case _ => None
  }

  // ---------------------------------------------------------------------
  // The canonical spelling of a time, `H:MM AM`, and of a range, `H:MM AM - H:MM PM`.

  function DigitChar(n: int): (c: char)
    requires 0 <= n < 10
    ensures IsDigit(c) && DigitValue(c) == n
  {
    ('0' as int + n) as char
  }

  /** The hour as `%I` reads it, without a leading zero. */
  function HourText(h: int): (r: string)
    requires 1 <= h <= 12
    ensures (|r| == 1 || |r| == 2) && (forall j | 0 <= j < |r| :: IsDigit(r[j]))
  {
    if h < 10 then [DigitChar(h)] else ['1', DigitChar(h - 10)]
  }

  /** The minute in two digits, as `%M` reads it. */
  function MinuteText(m: int): (r: string)
    requires 0 <= m < 60
    ensures |r| == 2 && IsDigit(r[0]) && IsDigit(r[1])
  {
    [DigitChar(m / 10), DigitChar(m % 10)]
  }

  /** `%I` and `%M` read back the fields `HourText` and `MinuteText` write. */
  lemma FieldsOfText(h: int, m: int)
    requires 1 <= h <= 12 && 0 <= m < 60
    ensures HourField(HourText(h)) == Some(h) && MinuteField(MinuteText(m)) == Some(m)
  {
  }

  /** `H:MM AM` or `H:MM PM` from the fields of a 12-hour clock. */
  function ClockText(h12: int, m: int, pm: bool): string
    requires 1 <= h12 <= 12 && 0 <= m < 60
  {
    HourText(h12) + [':'] + MinuteText(m) + [' ', if pm then 'P' else 'A', 'M']
  }

  /** The hour on the 12-hour clock that `%I` would write for minute `t` of the day. */
  function Hour12(t: int): (h: int)
    requires 0 <= t < MinutesPerDay
    ensures 1 <= h <= 12
    ensures (h % 12 + (if t >= 720 then 12 else 0)) * 60 + t % 60 == t
  {
    var h24 := t / 60;
    if h24 % 12 == 0 then 12 else h24 % 12
  }

  function FormatClock(t: int): string
    requires 0 <= t < MinutesPerDay
  {
    ClockText(Hour12(t), t % 60, t >= 720)
  }

  ghost predicate InDay(r: TimeRange) {
    0 <= r.start < MinutesPerDay && 0 <= r.end < MinutesPerDay
  }

  function FormatTimeRange(r: TimeRange): string
    requires InDay(r)
  {
    FormatClock(r.start) + " - " + FormatClock(r.end)
  }

  /** How `StrpClock` combines the three fields once the separators are located. */
  lemma StrpClockOfFields(g: string, colon: nat, gap: nat, h: int, m: int, pm: bool)
    requires colon < gap < |g|
    requires Find(g, ':', 0) == colon && WordEnd(g, colon + 1) == gap
    requires HourField(g[..colon]) == Some(h) && MinuteField(g[colon + 1..gap]) == Some(m)
    requires MeridiemField(g[SpaceEnd(g, gap)..]) == Some(pm)
    ensures StrpClock(g) == Some((h % 12 + (if pm then 12 else 0)) * 60 + m)
  {
  }

  /** Where the separators of `ClockText(h12, m, pm)` stand, and what lies between them. */
  lemma ClockTextLayout(h12: int, m: int, pm: bool) returns (n: nat)
    requires 1 <= h12 <= 12 && 0 <= m < 60
    ensures var g := ClockText(h12, m, pm);
      && |g| == n + 6 && (n == 1 || n == 2)
      && (forall j | 0 <= j < n :: IsDigit(g[j]))
      && g[n] == ':' && IsDigit(g[n + 1]) && IsDigit(g[n + 2]) && g[n + 3] == ' '
      && g[n + 4] == (if pm then 'P' else 'A') && g[n + 5] == 'M'
      && g[..n] == HourText(h12) && g[n + 1..n + 3] == MinuteText(m)
      && g[n + 4..] == [if pm then 'P' else 'A', 'M']
  {
    var hh, mm := HourText(h12), MinuteText(m);
    n := |hh|;
    var g := ClockText(h12, m, pm);
    assert g == hh + [':', mm[0], mm[1], ' ', if pm then 'P' else 'A', 'M'];
    assert g[..n] == hh;
    assert g[n + 1..n + 3] == mm;
  }

  /** `strptime` reads back the fields `ClockText` writes. */
  lemma StrpClockOfText(h12: int, m: int, pm: bool)
    requires 1 <= h12 <= 12 && 0 <= m < 60
    ensures StrpClock(ClockText(h12, m, pm)) == Some((h12 % 12 + (if pm then 12 else 0)) * 60 + m)
  {
    var g := ClockText(h12, m, pm);
    var n := ClockTextLayout(h12, m, pm);
    forall j | 0 <= j < n ensures OtherAt(g, j, ':') {
      assert IsDigit(g[j]);
    }
    FindIs(g, ':', 0, n);
    WordEndIs(g, n + 1, n + 3);
    SpaceEndIs(g, n + 3, n + 4);
    FieldsOfText(h12, m);
    StrpClockOfFields(g, n, n + 3, h12, m, pm);
  }

  /** `strptime` reads back the time `FormatClock` writes. */
  lemma StrpClockOfFormat(t: int)
    requires 0 <= t < MinutesPerDay
    ensures StrpClock(FormatClock(t)) == Some(t)
  {
    StrpClockOfText(Hour12(t), t % 60, t >= 720);
  }

  /** `\d+:\d+\s*[AP]M` on `n` hour digits, a colon, two minute digits, one space and a marker. */
  lemma ClockPatternAt(s: string, i: nat, n: nat)
    requires i + n + 6 <= |s| && n >= 1
    requires forall j | i <= j < i + n :: IsDigit(s[j])
    requires s[i + n] == ':' && IsDigit(s[i + n + 1]) && IsDigit(s[i + n + 2]) && s[i + n + 3] == ' '
    requires (s[i + n + 4] == 'A' || s[i + n + 4] == 'P') && s[i + n + 5] == 'M'
    ensures ClockPatternEnd(s, i) == Some(i + n + 6)
  {
    DigitEndIs(s, i, i + n);
    DigitEndIs(s, i + n + 1, i + n + 3);
    SpaceEndIs(s, i + n + 3, i + n + 4);
  }

  /** The time pattern matches a formatted time wherever it stands, and ends with it. */
  lemma ClockPatternOfText(s: string, i: nat, h12: int, m: int, pm: bool)
    requires 1 <= h12 <= 12 && 0 <= m < 60
    requires i + |ClockText(h12, m, pm)| <= |s| && s[i..i + |ClockText(h12, m, pm)|] == ClockText(h12, m, pm)
    ensures ClockPatternEnd(s, i) == Some(i + |ClockText(h12, m, pm)|)
  {
    var f := ClockText(h12, m, pm);
    var n := ClockTextLayout(h12, m, pm);
    forall j | 0 <= j < |f| ensures s[i + j] == f[j] {
      assert s[i..i + |f|][j] == s[i + j];
    }
    assert forall j | i <= j < i + n :: s[j] == f[j - i];
    ClockPatternAt(s, i, n);
  }

  /** `\s*-\s*` and the second clock, stated through the run boundaries. */
  lemma MatchAfterFirstAt(s: string, e1: nat, dash: nat, secondStart: nat, e2: nat)
    requires 0 < e1 <= |s| && SpaceEnd(s, e1) == dash && dash < |s| && s[dash] == '-'
    requires SpaceEnd(s, dash + 1) == secondStart && ClockPatternEnd(s, secondStart) == Some(e2)
    ensures MatchAfterFirst(s, e1) == Some(TimeMatch(s[..e1], s[secondStart..e2], e2))
  {
  }

  lemma MatchTimePatternOf(s: string, e1: nat)
    requires ClockPatternEnd(s, 0) == Some(e1)
    ensures MatchTimePattern(s) == MatchAfterFirst(s, e1)
  {
  }

  /** `re.match` on two clock matches joined by ` - `. */
  lemma MatchTimePatternAt(s: string, e1: nat)
    requires e1 + 3 <= |s| && ClockPatternEnd(s, 0) == Some(e1)
    requires s[e1] == ' ' && s[e1 + 1] == '-' && s[e1 + 2] == ' '
    requires ClockPatternEnd(s, e1 + 3) == Some(|s|)
    ensures MatchTimePattern(s) == Some(TimeMatch(s[..e1], s[e1 + 3..], |s|))
  {
    assert SpaceEnd(s, e1) == e1 + 1 by {
      SpaceEndIs(s, e1, e1 + 1);
    }
    assert SpaceEnd(s, e1 + 2) == e1 + 3 by {
      SpaceEndIs(s, e1 + 2, e1 + 3);
    }
    MatchAfterFirstAt(s, e1, e1 + 1, e1 + 3, |s|);
    MatchTimePatternOf(s, e1);
    assert s[e1 + 3..|s|] == s[e1 + 3..];
  }

  /** The full spelling `FormatTimeRange(r)` is matched as a whole, with the two clocks as groups. */
  lemma MatchOfFormat(r: TimeRange)
    requires InDay(r)
    ensures MatchTimePattern(FormatTimeRange(r))
         == Some(TimeMatch(FormatClock(r.start), FormatClock(r.end), |FormatTimeRange(r)|))
  {
    var f1, f2 := FormatClock(r.start), FormatClock(r.end);
    var s := FormatTimeRange(r);
    var e1 := |f1|;
    assert s == f1 + [' ', '-', ' '] + f2;
    assert s[0..e1] == f1;
    ClockPatternOfText(s, 0, Hour12(r.start), r.start % 60, r.start >= 720);
    assert s[e1 + 3..e1 + 3 + |f2|] == f2;
    ClockPatternOfText(s, e1 + 3, Hour12(r.end), r.end % 60, r.end >= 720);
    MatchTimePatternAt(s, e1);
    assert s[..e1] == f1;
    assert s[e1 + 3..] == f2;
  }

  /** A formatted time is its own `strip()`. */
  lemma StripOfFormat(t: int)
    requires 0 <= t < MinutesPerDay
    ensures Strip(FormatClock(t)) == FormatClock(t)
  {
    var n := ClockTextLayout(Hour12(t), t % 60, t >= 720);
    StripUnchanged(FormatClock(t));
  }

  /** Round trip: the canonical spelling of a range parses back to that range. */
  lemma ParseOfFormat(r: TimeRange)
    requires InDay(r)
    ensures ParseTimeRange(FormatTimeRange(r)) == Some(r)
  {
    MatchOfFormat(r);
    StripOfFormat(r.start);
    StripOfFormat(r.end);
    StrpClockOfFormat(r.start);
    StrpClockOfFormat(r.end);
  }

  // ---------------------------------------------------------------------
  // What the parse depends on: `re.match` reads `s` only up to the end of the match.

  ghost predicate AgreeBelow(s: string, t: string, e: nat) {
    e <= |s| && e <= |t| && forall j | 0 <= j < e :: s[j] == t[j]
  }

  lemma SpaceEndStable(s: string, t: string, i: nat, e: nat)
    requires i <= |s| && SpaceEnd(s, i) < e && AgreeBelow(s, t, e)
    ensures SpaceEnd(t, i) == SpaceEnd(s, i)
  {
    forall j | i <= j < SpaceEnd(s, i) ensures SpaceAt(t, j) {
      assert SpaceAt(s, j);
    }
    SpaceEndIs(t, i, SpaceEnd(s, i));
  }

  lemma DigitEndStable(s: string, t: string, i: nat, e: nat)
    requires i <= |s| && DigitEnd(s, i) < e && AgreeBelow(s, t, e)
    ensures DigitEnd(t, i) == DigitEnd(s, i)
  {
    forall j | i <= j < DigitEnd(s, i) ensures DigitAt(t, j) {
      assert DigitAt(s, j);
    }
    DigitEndIs(t, i, DigitEnd(s, i));
  }

  lemma ClockPatternStable(s: string, t: string, i: nat, e: nat)
    requires i <= |s| && ClockPatternEnd(s, i) == Some(e) && AgreeBelow(s, t, e)
    ensures ClockPatternEnd(t, i) == Some(e)
  {
    var hourEnd := DigitEnd(s, i);
    DigitEndStable(s, t, i, e);
    var minuteEnd := DigitEnd(s, hourEnd + 1);
    DigitEndStable(s, t, hourEnd + 1, e);
    SpaceEndStable(s, t, minuteEnd, e);
  }

  lemma MatchAfterFirstStable(s: string, t: string, e1: nat)
    requires 0 < e1 <= |s| && MatchAfterFirst(s, e1).Some?
    requires AgreeBelow(s, t, MatchAfterFirst(s, e1).value.end)
    ensures MatchAfterFirst(t, e1) == MatchAfterFirst(s, e1)
  {
    var e := MatchAfterFirst(s, e1).value.end;
    var dash := SpaceEnd(s, e1);
    var secondStart := SpaceEnd(s, dash + 1);
    assert ClockPatternEnd(s, secondStart) == Some(e);
    MatchAfterFirstAt(s, e1, dash, secondStart, e);
    assert SpaceEnd(t, e1) == dash by {
      SpaceEndStable(s, t, e1, e);
    }
    assert SpaceEnd(t, dash + 1) == secondStart by {
      SpaceEndStable(s, t, dash + 1, e);
    }
    assert ClockPatternEnd(t, secondStart) == Some(e) by {
      ClockPatternStable(s, t, secondStart, e);
    }
    MatchAfterFirstAt(t, e1, dash, secondStart, e);
    assert s[..e1] == t[..e1];
    assert s[secondStart..e] == t[secondStart..e];
  }

  lemma MatchStable(s: string, t: string)
    requires MatchTimePattern(s).Some? && AgreeBelow(s, t, MatchTimePattern(s).value.end)
    ensures MatchTimePattern(t) == MatchTimePattern(s)
  {
    var e1 := ClockPatternEnd(s, 0).value;
    ClockPatternStable(s, t, 0, e1);
    MatchAfterFirstStable(s, t, e1);
  }

  /** Text after a parseable range is ignored (`re.match` is anchored at the start only). */
  lemma TrailingTextIgnored(s: string, rest: string)
    requires ParseTimeRange(s).Some?
    ensures ParseTimeRange(s + rest) == ParseTimeRange(s)
  {
    MatchStable(s, s + rest);
  }

  /** The parse depends on the string only through the match. */
  lemma ParseOfSameMatch(s: string, t: string)
    requires MatchTimePattern(s) == MatchTimePattern(t)
    ensures ParseTimeRange(s) == ParseTimeRange(t)
  {
  }

  /** A string the pattern matches begins with a digit and has the match's last `M` before any trailing whitespace. */
  lemma MatchOfStrip(s: string)
    requires MatchTimePattern(s).Some?
    ensures MatchTimePattern(Strip(s)) == MatchTimePattern(s)
  {
    var e := MatchTimePattern(s).value.end;
    assert Strip(s) == TrimRight(s) by {
      SpaceEndIs(s, 0, 0);
    }
    var r := TrimRight(s);
    assert AgreeBelow(s, r, e) by {
      assert !IsSpace(s[e - 1]);
    }
    MatchStable(s, r);
  }

  /** Stripping a parseable range does not change what it parses to (lines 64 and 72-82). */
  lemma ParseOfStrip(s: string)
    requires ParseTimeRange(s).Some?
    ensures ParseTimeRange(Strip(s)) == ParseTimeRange(s)
  {
    MatchOfStrip(s);
    ParseOfSameMatch(Strip(s), s);
  }

  /** `re.match` anchors at the start: a time string that begins with whitespace is rejected. */
  lemma LeadingSpaceRejected(s: string)
    requires |s| > 0 && IsSpace(s[0])
    ensures ParseTimeRange(s) == None
  {
  }

  /**
   * `strptime` accepts a clock only when the hour before the first `:` is a
   * one- or two-digit numeral from 1 to 12 and the minute after it is one
   * from 0 to 59; any other hour or minute text is rejected.
   */
  lemma StrpClockFieldsInRange(g: string)
    ensures StrpClock(g).Some? ==>
      var colon := Find(g, ':', 0);
      colon < |g| && ShortNumeral(g[..colon]) && 1 <= NumeralValue(g[..colon]) <= 12 &&
      var gap := WordEnd(g, colon + 1);
      ShortNumeral(g[colon + 1..gap]) && NumeralValue(g[colon + 1..gap]) < 60
  {
  }

  /** The format's space needs whitespace before AM/PM: `10:00AM` is rejected by `strptime`. */
  lemma StrpClockNeedsSpace(g: string)
    requires forall j | 0 <= j < |g| :: NotSpace(g[j])
    ensures StrpClock(g) == None
  {
  }
}
