/**
 * The parts of Python's `str` that the conflict detector relies on: the
 * whitespace class (`str.isspace`, which is also what `\s` matches in a `str`
 * pattern and what `split()` and `strip()` without arguments remove),
 * `str.split()`, `str.split(sep)`, `str.strip()` and the `in` test on
 * substrings. `Find` is not a call of the detector: it is the scan for a
 * character behind `split(sep)` and behind `strptime`'s search for the `:`.
 */
module Text {

  /** `c.isspace()`: the characters of bidirectional class WS, B or S, or of category Zs. */
  predicate IsSpace(c: char) {
    || c == ' '
    || ('\t' <= c <= '\r')
    || ('\U{1c}' <= c <= '\U{1f}')
    || c == '\U{85}' || c == '\U{a0}' || c == '\U{1680}'
    || ('\U{2000}' <= c <= '\U{200a}')
    || c == '\U{2028}' || c == '\U{2029}' || c == '\U{202f}' || c == '\U{205f}' || c == '\U{3000}'
  }

  predicate NotSpace(c: char) { !IsSpace(c) }

  /** An ASCII decimal digit. */
  predicate IsDigit(c: char) { '0' <= c <= '9' }

  function DigitValue(c: char): (v: int)
    requires IsDigit(c)
    ensures 0 <= v < 10
  {
    c as int - '0' as int
  }

  // Position predicates: the run functions state their runs through these, so
  // that the facts about a run are used only where a proof asks about them.
  ghost predicate SpaceAt(s: string, j: int) {
    0 <= j < |s| && IsSpace(s[j])
  }

  ghost predicate NonSpaceAt(s: string, j: int) {
    0 <= j < |s| && NotSpace(s[j])
  }

  ghost predicate DigitAt(s: string, j: int) {
    0 <= j < |s| && IsDigit(s[j])
  }

  ghost predicate OtherAt(s: string, j: int, c: char) {
    0 <= j < |s| && s[j] != c
  }

  /** The end of the run of whitespace that starts at `i` (what `\s*` consumes there). */
  function SpaceEnd(s: string, i: nat): (k: nat)
    requires i <= |s|
    ensures i <= k <= |s|
    ensures forall j | i <= j < k :: SpaceAt(s, j)
    ensures k == |s| || NotSpace(s[k])
    decreases |s| - i
  {
    if i == |s| || NotSpace(s[i]) then i else SpaceEnd(s, i + 1)
  }

  /** The end of the run of non-whitespace characters that starts at `i`. */
  function WordEnd(s: string, i: nat): (k: nat)
    requires i <= |s|
    ensures i <= k <= |s|
    ensures forall j | i <= j < k :: NonSpaceAt(s, j)
    ensures k == |s| || IsSpace(s[k])
    decreases |s| - i
  {
    if i == |s| || IsSpace(s[i]) then i else WordEnd(s, i + 1)
  }

  /** The end of the run of digits that starts at `i` (what `\d+` consumes there). */
  function DigitEnd(s: string, i: nat): (k: nat)
    requires i <= |s|
    ensures i <= k <= |s|
    ensures forall j | i <= j < k :: DigitAt(s, j)
    ensures k == |s| || !IsDigit(s[k])
    decreases |s| - i
  {
    if i == |s| || !IsDigit(s[i]) then i else DigitEnd(s, i + 1)
  }

  /** The position of the first `c` at or after `i`, or `|s|` when there is none. */
  function Find(s: string, c: char, i: nat): (k: nat)
    requires i <= |s|
    ensures i <= k <= |s|
    ensures forall j | i <= j < k :: OtherAt(s, j, c)
    ensures k == |s| || s[k] == c
    decreases |s| - i
  {
    if i == |s| || s[i] == c then i else Find(s, c, i + 1)
  }

  /** Each run boundary is unique: any `k` with the properties of the result is the result. */
  lemma {:induction false} SpaceEndIs(s: string, i: nat, k: nat)
    requires i <= k <= |s|
    requires forall j | i <= j < k :: SpaceAt(s, j)
    requires k == |s| || NotSpace(s[k])
    ensures SpaceEnd(s, i) == k
    decreases k - i
  {
    if i < k {
      assert SpaceAt(s, i);
      SpaceEndIs(s, i + 1, k);
    }
  }

  lemma {:induction false} WordEndIs(s: string, i: nat, k: nat)
    requires i <= k <= |s|
    requires forall j | i <= j < k :: NonSpaceAt(s, j)
    requires k == |s| || IsSpace(s[k])
    ensures WordEnd(s, i) == k
    decreases k - i
  {
    if i < k {
      assert NonSpaceAt(s, i);
      WordEndIs(s, i + 1, k);
    }
  }

  lemma {:induction false} DigitEndIs(s: string, i: nat, k: nat)
    requires i <= k <= |s|
    requires forall j | i <= j < k :: DigitAt(s, j)
    requires k == |s| || !IsDigit(s[k])
    ensures DigitEnd(s, i) == k
    decreases k - i
  {
    if i < k {
      assert DigitAt(s, i);
      DigitEndIs(s, i + 1, k);
    }
  }

  lemma {:induction false} FindIs(s: string, c: char, i: nat, k: nat)
    requires i <= k <= |s|
    requires forall j | i <= j < k :: OtherAt(s, j, c)
    requires k == |s| || s[k] == c
    ensures Find(s, c, i) == k
    decreases k - i
  {
    if i < k {
      assert OtherAt(s, i, c);
      FindIs(s, c, i + 1, k);
    }
  }

  /** `s.lstrip()`: the longest suffix of `s` that does not start with whitespace. */
  function TrimLeft(s: string): string {
    s[SpaceEnd(s, 0)..]
  }

  /** `s.rstrip()`: the longest prefix of `s` that does not end in whitespace. */
  function TrimRight(s: string): (r: string)
    ensures |r| <= |s| && r == s[..|r|]
    ensures r == [] || !IsSpace(r[|r| - 1])
    ensures forall j | |r| <= j < |s| :: IsSpace(s[j])
    decreases |s|
  {
    if s != [] && IsSpace(s[|s| - 1]) then TrimRight(s[..|s| - 1]) else s
  }

  /** `s.strip()` */
  function Strip(s: string): string {
    TrimRight(TrimLeft(s))
  }

  /** `s` is empty or only whitespace. */
  ghost predicate AllSpace(s: string) {
    forall j | 0 <= j < |s| :: IsSpace(s[j])
  }

  /** A word of `split()`: non-empty and without whitespace. */
  ghost predicate IsWord(w: string) {
    w != [] && forall j | 0 <= j < |w| :: NotSpace(w[j])
  }

  /** `s.split()`: the maximal runs of non-whitespace characters, in order. */
  function Words(s: string): (ws: seq<string>)
    ensures forall w | w in ws :: IsWord(w)
    decreases |s|
  {
    if s == [] then []
    else if IsSpace(s[0]) then Words(s[1..])
    else
      var k := WordEnd(s, 0);
      assert IsWord(s[..k]) by {
        forall j | 0 <= j < k ensures NotSpace(s[..k][j]) {
          assert NonSpaceAt(s, j);
        }
      }
      [s[..k]] + Words(s[k..])
  }

  /** `s.split(c)` for a one-character separator: the pieces between the occurrences of `c`. */
  function SplitOn(s: string, c: char): (parts: seq<string>)
    ensures |parts| >= 1
    ensures forall part | part in parts :: c !in part
    decreases |s|
  {
    var k := Find(s, c, 0);
    assert c !in s[..k] by {
      forall j | 0 <= j < k ensures s[..k][j] != c {
        assert OtherAt(s, j, c);
      }
    }
    if k == |s| then assert s[..k] == s; [s]
    else [s[..k]] + SplitOn(s[k + 1..], c)
  }

  /** `c.join(parts)`, the inverse of `SplitOn`. */
  function JoinWith(parts: seq<string>, c: char): string
    requires |parts| >= 1
    decreases |parts|
  {
    if |parts| == 1 then parts[0] else parts[0] + [c] + JoinWith(parts[1..], c)
  }

  /** `w` occurs in `s` starting at position `i`. */
  predicate OccursAt(s: string, w: string, i: nat) {
    i + |w| <= |s| && s[i..i + |w|] == w
  }

  /** `w in s` on strings: `w` occurs in `s` as a contiguous substring. */
  predicate Contains(s: string, w: string) {
    exists i: nat | i <= |s| :: OccursAt(s, w, i)
  }

  /** `s.split()` is empty exactly when `s` is empty or only whitespace. */
  lemma {:induction false} WordsEmptyIffBlank(s: string)
    ensures Words(s) == [] <==> AllSpace(s)
    decreases |s|
  {
    if s != [] {
      WordsEmptyIffBlank(s[1..]);
      if IsSpace(s[0]) {
        assert forall j | 1 <= j < |s| :: s[j] == s[1..][j - 1];
      }
    }
  }

  /** Leading whitespace does not change `split()`. */
  lemma {:induction false} WordsDropSpaces(s: string, i: nat)
    requires i <= |s| && AllSpace(s[..i])
    ensures Words(s[i..]) == Words(s)
    decreases i
  {
    if i > 0 {
      assert IsSpace(s[..i][0]);
      assert s[1..][..i - 1] == s[..i][1..];
      assert s[1..][i - 1..] == s[i..];
      WordsDropSpaces(s[1..], i - 1);
    }
  }

  /** Trailing whitespace does not change `split()`. */
  lemma {:induction false} WordsAppendSpaces(s: string, t: string)
    requires AllSpace(t)
    ensures Words(s + t) == Words(s)
    decreases |s|
  {
    if s == [] {
      assert s + t == t;
      WordsEmptyIffBlank(t);
    } else if IsSpace(s[0]) {
      assert (s + t)[1..] == s[1..] + t;
      WordsAppendSpaces(s[1..], t);
    } else {
      var k := WordEnd(s, 0);
      assert k < |s| ==> !NotSpace((s + t)[k]);
      assert k == |s| && t != [] ==> (s + t)[k] == t[0];
      forall j | 0 <= j < k ensures NonSpaceAt(s + t, j) {
        assert NonSpaceAt(s, j);
      }
      WordEndIs(s + t, 0, k);
      assert (s + t)[..k] == s[..k];
      assert (s + t)[k..] == s[k..] + t;
      WordsAppendSpaces(s[k..], t);
    }
  }

  /** `s.strip().split() == s.split()` */
  lemma WordsOfStrip(s: string)
    ensures Words(Strip(s)) == Words(s)
  {
    var a := SpaceEnd(s, 0);
    forall j | 0 <= j < a ensures IsSpace(s[..a][j]) {
      assert SpaceAt(s, j);
    }
    WordsDropSpaces(s, a);
    var u := TrimLeft(s);
    var r := TrimRight(u);
    assert u == r + u[|r|..];
    WordsAppendSpaces(r, u[|r|..]);
  }

  /** `" ".join(ws).split() == ws` for words without whitespace: `Words` has `JoinWith` as inverse. */
  lemma {:induction false} WordsOfJoin(ws: seq<string>)
    requires |ws| >= 1 && forall k | 0 <= k < |ws| :: IsWord(ws[k])
    ensures Words(JoinWith(ws, ' ')) == ws
    decreases |ws|
  {
    var w := ws[0];
    var s := JoinWith(ws, ' ');
    WordEndIs(w, 0, |w|);
    if |ws| == 1 {
      assert w[..|w|] == w && w[|w|..] == [];
    } else {
      var rest := JoinWith(ws[1..], ' ');
      assert s == w + [' '] + rest;
      WordEndIs(s, 0, |w|);
      assert s[..|w|] == w;
      assert s[|w|..] == [' '] + rest;
      assert ([' '] + rest)[1..] == rest;
      WordsOfJoin(ws[1..]);
    }
  }

  lemma ContainsSlice(s: string, lo: nat, hi: nat, w: string)
    requires lo <= hi <= |s| && Contains(s[lo..hi], w)
    ensures Contains(s, w)
  {
    var t := s[lo..hi];
    var i: nat :| i <= |t| && OccursAt(t, w, i);
    forall j | 0 <= j < |w| ensures w[j] == s[lo + i + j] {
      assert w[j] == t[i..i + |w|][j] == t[i + j];
    }
    assert OccursAt(s, w, lo + i);
  }

  lemma ContainsSuffix(s: string, lo: nat, w: string)
    requires lo <= |s| && Contains(s[lo..], w)
    ensures Contains(s, w)
  {
    assert s[lo..] == s[lo..|s|];
    ContainsSlice(s, lo, |s|, w);
  }

  /** Every word of `s.split()` is a substring of `s`. */
  lemma {:induction false} WordsAreSubstrings(s: string, w: string)
    requires w in Words(s)
    ensures Contains(s, w)
    decreases |s|
  {
    if IsSpace(s[0]) {
      WordsAreSubstrings(s[1..], w);
      ContainsSuffix(s, 1, w);
    } else {
      var k := WordEnd(s, 0);
      if w == s[..k] {
        assert OccursAt(s, w, 0);
      } else {
        WordsAreSubstrings(s[k..], w);
        ContainsSuffix(s, k, w);
      }
    }
  }

  /** A substring of `s.strip()` is a substring of `s`. */
  lemma StripSubstring(s: string, w: string)
    requires Contains(Strip(s), w)
    ensures Contains(s, w)
  {
    var a := SpaceEnd(s, 0);
    var u := TrimLeft(s);
    var r := TrimRight(u);
    assert r == u[0..|r|];
    ContainsSlice(u, 0, |r|, w);
    ContainsSuffix(s, a, w);
  }

  /** A string with no whitespace at either end is its own `strip()`. */
  lemma StripUnchanged(s: string)
    requires s == [] || (NotSpace(s[0]) && NotSpace(s[|s| - 1]))
    ensures Strip(s) == s
  {
    if s != [] {
      SpaceEndIs(s, 0, 0);
    }
  }

  /** `(s + " ").strip() == s.strip()` */
  lemma StripAppendSpace(s: string)
    ensures Strip(s + [' ']) == Strip(s)
  {
    var t := s + [' '];
    var a := SpaceEnd(s, 0);
    forall j | 0 <= j < a ensures SpaceAt(t, j) {
      assert SpaceAt(s, j);
    }
    if a == |s| {
      SpaceEndIs(t, 0, |t|);
    } else {
      SpaceEndIs(t, 0, a);
      assert TrimLeft(t) == TrimLeft(s) + [' '];
      assert (TrimLeft(s) + [' '])[..|TrimLeft(s)|] == TrimLeft(s);
    }
  }

  /** `(" " + s).strip() == s.strip()` */
  lemma StripPrependSpace(s: string)
    ensures Strip([' '] + s) == Strip(s)
  {
    var t := [' '] + s;
    var a := SpaceEnd(s, 0);
    forall j | 1 <= j < a + 1 ensures SpaceAt(t, j) {
      assert SpaceAt(s, j - 1);
    }
    SpaceEndIs(t, 0, a + 1);
    assert t[a + 1..] == s[a..];
  }

  /** `s.split(c)` has one piece more than `s` has occurrences of `c`. */
  lemma {:induction false} SplitOnCount(s: string, c: char)
    ensures |SplitOn(s, c)| == multiset(s)[c] + 1
    decreases |s|
  {
    var k := Find(s, c, 0);
    assert c !in s[..k] by {
      forall j | 0 <= j < k ensures s[..k][j] != c {
        assert OtherAt(s, j, c);
      }
    }
    assert multiset(s[..k])[c] == 0;
    if k == |s| {
      assert s[..k] == s;
    } else {
      SplitOnCount(s[k + 1..], c);
      assert s == s[..k] + [s[k]] + s[k + 1..];
      assert multiset(s) == multiset(s[..k]) + multiset([s[k]]) + multiset(s[k + 1..]);
    }
  }

  /** Joining the pieces of `s.split(c)` with `c` gives back `s`. */
  lemma {:induction false} JoinOfSplit(s: string, c: char)
    ensures JoinWith(SplitOn(s, c), c) == s
    decreases |s|
  {
    var k := Find(s, c, 0);
    if k < |s| {
      JoinOfSplit(s[k + 1..], c);
      assert SplitOn(s, c)[1..] == SplitOn(s[k + 1..], c);
      assert s == s[..k] + [c] + s[k + 1..];
    }
  }

  /** Splitting a join of `c`-free pieces on `c` gives back the pieces. */
  lemma {:induction false} SplitOfJoin(parts: seq<string>, c: char)
    requires |parts| >= 1 && forall k | 0 <= k < |parts| :: c !in parts[k]
    ensures SplitOn(JoinWith(parts, c), c) == parts
    decreases |parts|
  {
    var s := JoinWith(parts, c);
    var p := parts[0];
    if |parts| == 1 {
      forall j | 0 <= j < |s| ensures OtherAt(s, j, c) {
        assert s[j] in p;
      }
      FindIs(s, c, 0, |s|);
    } else {
      var rest := JoinWith(parts[1..], c);
      assert s == p + [c] + rest;
      forall j | 0 <= j < |p| ensures OtherAt(s, j, c) {
        assert s[j] == p[j] && p[j] in p;
      }
      FindIs(s, c, 0, |p|);
      assert s[..|p|] == p;
      assert s[|p| + 1..] == rest;
      SplitOfJoin(parts[1..], c);
    }
  }

  /** `strip()` adds no character: what is not in `s` is not in `s.strip()`. */
  lemma StripKeepsOut(s: string, c: char)
    requires c !in s
    ensures c !in Strip(s)
  {
  }

  /** `s.strip()` begins and ends with a non-whitespace character, unless it is empty. */
  lemma StripEnds(s: string)
    ensures var r := Strip(s); r == [] || (NotSpace(r[0]) && NotSpace(r[|r| - 1]))
  {
    var u := TrimLeft(s);
    var r := TrimRight(u);
    if r != [] {
      assert r[0] == u[0];
    }
  }

  /** `s.strip().strip() == s.strip()` */
  lemma StripIdempotent(s: string)
    ensures Strip(Strip(s)) == Strip(s)
  {
    StripEnds(s);
    StripUnchanged(Strip(s));
  }
}
