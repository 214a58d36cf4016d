/**
 * The interval logic of `core/condenser.py`: every subtitle's time span,
 * padded on both sides, sorted by start and merged where spans overlap, so
 * that the audio of the merged spans can be cut out and joined.
 *
 * Times are whole milliseconds.  A span is half-open, `[start, end)`, as the
 * audio slice `audio[start:end]` takes it.
 */
module Condenser {
  import opened Wrappers
  import Transcriber

  /** The time fields of a `pysrt.SubRipTime`. */
  datatype SubRipTime = SubRipTime(hours: int, minutes: int, seconds: int, milliseconds: int)

  /** One subtitle of the file: its start and end. */
  datatype SubRip = SubRip(start: SubRipTime, end: SubRipTime)

  /** `srt_time_to_ms`. */
  function SrtTimeToMs(t: SubRipTime): (ms: int)
    ensures ms == Transcriber.ClockMs(t.hours, t.minutes, t.seconds, t.milliseconds)
  {
    (t.hours * 3600 + t.minutes * 60 + t.seconds) * 1000 + t.milliseconds
  }

  /** Fields in their usual ranges come back out of the milliseconds. */
  lemma {:induction false} SrtTimeToMsFields(t: SubRipTime)
    requires t.hours >= 0 && 0 <= t.minutes < 60 && 0 <= t.seconds < 60 && 0 <= t.milliseconds < 1000
    ensures var ms := SrtTimeToMs(t);
      && ms % 1000 == t.milliseconds && ms / 1000 % 60 == t.seconds
      && ms / 60000 % 60 == t.minutes && ms / 3600000 == t.hours
  {
    var ms := SrtTimeToMs(t);
    var secs := t.hours * 3600 + t.minutes * 60 + t.seconds;
    assert ms == secs * 1000 + t.milliseconds;
    assert ms / 1000 == secs;
    var mins := t.hours * 60 + t.minutes;
    assert secs == mins * 60 + t.seconds;
    assert ms / 60000 == mins by {
      assert ms == mins * 60000 + (t.seconds * 1000 + t.milliseconds);
    }
    assert ms / 3600000 == t.hours by {
      assert ms == t.hours * 3600000 + (t.minutes * 60000 + t.seconds * 1000 + t.milliseconds);
    }
  }

  /** A span of audio, `[start, end)`. */
  datatype Interval = Interval(start: int, end: int)

  predicate Covers(iv: Interval, x: int) {
    iv.start <= x < iv.end
  }

  /** The span of one subtitle widened by `padding` on both sides; the start
      is clamped at the beginning of the audio. */
  function Padded(sub: SubRip, padding: int): (iv: Interval)
    ensures iv.start >= 0 && iv.start >= SrtTimeToMs(sub.start) - padding
    ensures iv.start == 0 || iv.start == SrtTimeToMs(sub.start) - padding
    ensures iv.end == SrtTimeToMs(sub.end) + padding
  {
    var start, end := SrtTimeToMs(sub.start), SrtTimeToMs(sub.end);
    Interval(if start - padding > 0 then start - padding else 0, end + padding)
  }

  /** The padded spans of `subs`, in file order. */
  function PaddedAll(subs: seq<SubRip>, padding: int): (r: seq<Interval>)
    ensures |r| == |subs| && forall i :: 0 <= i < |subs| ==> r[i] == Padded(subs[i], padding)
  {
    seq(|subs|, i requires 0 <= i < |subs| => Padded(subs[i], padding))
  }

  // --------------------------------------------------------------- sorting

  predicate SortedByStart(xs: seq<Interval>) {
    forall i, j :: 0 <= i < j < |xs| ==> xs[i].start <= xs[j].start
  }

  /** `xs` with `x` put after every span that does not start later. */
  function InsertByStart(xs: seq<Interval>, x: Interval): (r: seq<Interval>)
    ensures |r| == |xs| + 1
  {
    if xs == [] || xs[|xs| - 1].start <= x.start then xs + [x]
    else InsertByStart(xs[..|xs| - 1], x) + [xs[|xs| - 1]]
  }

  /** Inserting adds just `x`. */
  lemma {:induction false} InsertByStartMultiset(xs: seq<Interval>, x: Interval)
    ensures multiset(InsertByStart(xs, x)) == multiset(xs) + multiset{x}
  {
    if !(xs == [] || xs[|xs| - 1].start <= x.start) {
      var init, last := xs[..|xs| - 1], xs[|xs| - 1];
      assert xs == init + [last];
      InsertByStartMultiset(init, x);
    }
  }

  /** Inserting into a sorted sequence keeps it sorted. */
  lemma {:induction false} InsertByStartSorted(xs: seq<Interval>, x: Interval)
    requires SortedByStart(xs)
    ensures SortedByStart(InsertByStart(xs, x))
  {
    if !(xs == [] || xs[|xs| - 1].start <= x.start) {
      var init, last := xs[..|xs| - 1], xs[|xs| - 1];
      assert SortedByStart(init);
      InsertByStartSorted(init, x);
      InsertByStartMultiset(init, x);
      var r0 := InsertByStart(init, x);
      forall i | 0 <= i < |r0|
        ensures r0[i].start <= last.start
      {
        assert r0[i] in multiset(r0);
        if r0[i] != x {
          assert r0[i] in multiset(init);
          var k :| 0 <= k < |init| && init[k] == r0[i];
          assert xs[k] == init[k];
        }
      }
    }
  }

  /** `intervals.sort(key=lambda x: x[0])`: a stable sort by start, written
      as an insertion sort. */
  function SortByStart(xs: seq<Interval>): (r: seq<Interval>)
    ensures |r| == |xs|
  {
    if xs == [] then [] else InsertByStart(SortByStart(xs[..|xs| - 1]), xs[|xs| - 1])
  }

  /** The sort orders by start and keeps every span, as often as it occurs. */
  lemma {:induction false} SortByStartFacts(xs: seq<Interval>)
    ensures SortedByStart(SortByStart(xs)) && multiset(SortByStart(xs)) == multiset(xs)
  {
    if xs != [] {
      var init, last := xs[..|xs| - 1], xs[|xs| - 1];
      assert xs == init + [last];
      SortByStartFacts(init);
      InsertByStartSorted(SortByStart(init), last);
      InsertByStartMultiset(SortByStart(init), last);
    }
  }

  // --------------------------------------------------------------- merging

  /** One step of the merge loop: a span that starts strictly before the end
      of the last merged one extends it; any other span opens a new one. */
  function MergeStep(merged: seq<Interval>, cur: Interval): (r: seq<Interval>)
    requires merged != []
  {
    var last := merged[|merged| - 1];
    if cur.start < last.end then
      merged[..|merged| - 1] + [Interval(last.start, if cur.end > last.end then cur.end else last.end)]
    else
      merged + [cur]
  }

  /** What the merge loop leaves in `merged_intervals` after `xs`. */
  function Merged(xs: seq<Interval>): (r: seq<Interval>)
    requires xs != []
    ensures 1 <= |r| <= |xs|
  {
    if |xs| == 1 then [xs[0]] else MergeStep(Merged(xs[..|xs| - 1]), xs[|xs| - 1])
  }

  /** Consecutive merged spans: starts ascend and each starts at or after the
      end of the one before, so touching spans stay apart. */
  predicate Separated(ms: seq<Interval>) {
    forall j, k :: 0 <= j < |ms| && 0 <= k < |ms| && k == j + 1 ==> ms[j].end <= ms[k].start && ms[j].start <= ms[k].start
  }

  /** Some span of `ms` covers `x`. */
  predicate Covered(ms: seq<Interval>, x: int) {
    exists k :: 0 <= k < |ms| && Covers(ms[k], x)
  }

  /** Every span of `xs` lies inside some span of `ms`. */
  predicate Contains(ms: seq<Interval>, xs: seq<Interval>) {
    forall i :: 0 <= i < |xs| ==>
      exists k :: 0 <= k < |ms| && ms[k].start <= xs[i].start && xs[i].end <= ms[k].end
  }

  /** A merge step keeps the merged spans separated, given a span that
      starts no earlier than the last of them. */
  lemma {:induction false} MergeStepSeparated(merged: seq<Interval>, cur: Interval)
    requires merged != [] && Separated(merged) && merged[|merged| - 1].start <= cur.start
    ensures var ms := MergeStep(merged, cur);
      Separated(ms) && ms[0].start == merged[0].start && ms[|ms| - 1].start <= cur.start
  {
    var ms, n := MergeStep(merged, cur), |merged| - 1;
    forall k | 0 <= k < |ms| - 1
      ensures ms[k].end <= ms[k + 1].start && ms[k].start <= ms[k + 1].start
    {
      if k < n {
        assert ms[k] == merged[k];
        assert ms[k + 1].start == merged[k + 1].start;
      }
    }
  }

  /** A merge step widens no span away: span `k` of the merged ones keeps
      its start and does not shrink, and the last span holds `cur`. */
  lemma {:induction false} MergeStepKeeps(merged: seq<Interval>, cur: Interval, k: nat)
    requires merged != [] && merged[|merged| - 1].start <= cur.start && k < |merged|
    ensures var ms := MergeStep(merged, cur);
      && k < |ms| && ms[k].start == merged[k].start && ms[k].end >= merged[k].end
      && ms[|ms| - 1].start <= cur.start && cur.end <= ms[|ms| - 1].end
  {
    var n, last := |merged| - 1, merged[|merged| - 1];
    if cur.start < last.end {
      var widened := Interval(last.start, if cur.end > last.end then cur.end else last.end);
      var ms := merged[..n] + [widened];
      assert |ms| == |merged| && ms[n] == widened;
      if k < n {
        assert ms[k] == merged[..n][k] == merged[k];
      }
    } else {
      var ms := merged + [cur];
      assert ms[k] == merged[k] && ms[|ms| - 1] == cur;
    }
  }

  /** A merge step keeps every span the merged ones held, and holds `cur`. */
  lemma {:induction false} MergeStepContains(merged: seq<Interval>, cur: Interval, xs: seq<Interval>)
    requires merged != [] && Contains(merged, xs) && merged[|merged| - 1].start <= cur.start
    ensures Contains(MergeStep(merged, cur), xs + [cur])
  {
    var ms, ys := MergeStep(merged, cur), xs + [cur];
    forall i | 0 <= i < |ys|
      ensures exists k :: 0 <= k < |ms| && ms[k].start <= ys[i].start && ys[i].end <= ms[k].end
    {
      if i == |xs| {
        MergeStepKeeps(merged, cur, 0);
        assert ys[i] == cur;
        assert ms[|ms| - 1].start <= ys[i].start && ys[i].end <= ms[|ms| - 1].end;
      } else {
        assert ys[i] == xs[i];
        var k :| 0 <= k < |merged| && merged[k].start <= xs[i].start && xs[i].end <= merged[k].end;
        MergeStepKeeps(merged, cur, k);
        assert ms[k].start <= ys[i].start && ys[i].end <= ms[k].end;
      }
    }
  }

  /** The merge of spans sorted by start: its first span starts where the
      input does, and its last starts no later than the last input span. */
  lemma {:induction false} MergedEnds(xs: seq<Interval>)
    requires xs != [] && SortedByStart(xs)
    ensures var ms := Merged(xs);
      ms[0].start == xs[0].start && ms[|ms| - 1].start <= xs[|xs| - 1].start
  {
    if |xs| > 1 {
      var init, cur := xs[..|xs| - 1], xs[|xs| - 1];
      var m0 := Merged(init);
      assert m0[0].start == xs[0].start && m0[|m0| - 1].start <= cur.start by {
        assert SortedByStart(init);
        MergedEnds(init);
        assert init[0] == xs[0] && init[|init| - 1] == xs[|xs| - 2];
      }
      assert Merged(xs) == MergeStep(m0, cur);
    }
  }

  /** The merge of spans sorted by start keeps its spans separated. */
  lemma {:induction false} MergedSeparated(xs: seq<Interval>)
    requires xs != [] && SortedByStart(xs)
    ensures Separated(Merged(xs))
  {
    if |xs| > 1 {
      var init, cur := xs[..|xs| - 1], xs[|xs| - 1];
      var m0 := Merged(init);
      assert Separated(m0) && m0[|m0| - 1].start <= cur.start by {
        assert SortedByStart(init);
        MergedSeparated(init);
        MergedEnds(init);
        assert init[|init| - 1] == xs[|xs| - 2];
      }
      assert Merged(xs) == MergeStep(m0, cur);
      MergeStepSeparated(m0, cur);
    }
  }

  /** The merge of spans sorted by start holds every input span. */
  lemma {:induction false} MergedContains(xs: seq<Interval>)
    requires xs != [] && SortedByStart(xs)
    ensures Contains(Merged(xs), xs)
  {
    if |xs| > 1 {
      var init, cur := xs[..|xs| - 1], xs[|xs| - 1];
      var m0 := Merged(init);
      assert Contains(m0, init) && m0[|m0| - 1].start <= cur.start by {
        assert SortedByStart(init);
        MergedContains(init);
        MergedEnds(init);
        assert init[|init| - 1] == xs[|xs| - 2];
      }
      assert Merged(xs) == MergeStep(m0, cur);
      MergeStepContains(m0, cur, init);
      assert init + [cur] == xs;
    } else {
      var ms := Merged(xs);
      assert ms == [xs[0]];
      assert ms[0].start <= xs[0].start && xs[0].end <= ms[0].end;
    }
  }

  /** The merge of spans sorted by start: its spans are separated, the first
      starts where the input does, and it holds every input span. */
  lemma MergedFacts(xs: seq<Interval>)
    requires xs != [] && SortedByStart(xs)
    ensures var ms := Merged(xs);
      && Separated(ms) && Contains(ms, xs)
      && ms[0].start == xs[0].start
      && ms[|ms| - 1].start <= xs[|xs| - 1].start
  {
    MergedEnds(xs);
    MergedSeparated(xs);
    MergedContains(xs);
  }

  /** The merge covers exactly the points the input spans cover. */
  lemma {:induction false} MergedCovers(xs: seq<Interval>, x: int)
    requires xs != [] && SortedByStart(xs)
    ensures Covered(Merged(xs), x) <==> Covered(xs, x)
  {
    var ms := Merged(xs);
    MergedFacts(xs);
    if Covered(xs, x) {
      var i :| 0 <= i < |xs| && Covers(xs[i], x);
      var k :| 0 <= k < |ms| && ms[k].start <= xs[i].start && xs[i].end <= ms[k].end;
      assert Covers(ms[k], x);
    }
    if Covered(ms, x) {
      MergedSound(xs, x);
    }
  }

  /** A point one merge step covers was covered before it or lies in the
      new span. */
  lemma {:induction false} MergeStepSound(merged: seq<Interval>, cur: Interval, x: int)
    requires merged != [] && Covered(MergeStep(merged, cur), x)
    ensures Covered(merged, x) || Covers(cur, x)
  {
    var ms, n := MergeStep(merged, cur), |merged| - 1;
    var last := merged[n];
    var k :| 0 <= k < |ms| && Covers(ms[k], x);
    if k < n {
      assert ms[k] == merged[k];
    } else if k == n && cur.start < last.end {
      if x < last.end {
        assert Covers(merged[n], x);
      }
    } else if k == n {
      assert ms[k] == merged[n];
    } else {
      assert ms[k] == cur;
    }
  }

  /** A point the merge covers is covered by some input span. */
  lemma {:induction false} MergedSound(xs: seq<Interval>, x: int)
    requires xs != [] && Covered(Merged(xs), x)
    ensures Covered(xs, x)
  {
    if |xs| == 1 {
      assert Covers(xs[0], x);
    } else {
      var init, cur := xs[..|xs| - 1], xs[|xs| - 1];
      MergeStepSound(Merged(init), cur, x);
      if Covered(Merged(init), x) {
        MergedSound(init, x);
        var i :| 0 <= i < |init| && Covers(init[i], x);
        assert xs[i] == init[i];
      } else {
        assert Covers(xs[|xs| - 1], x);
      }
    }
  }

  /** Spans that only touch are not merged. */
  lemma {:induction false} TouchingStaysApart()
    ensures Merged([Interval(0, 10), Interval(10, 20)]) == [Interval(0, 10), Interval(10, 20)]
    ensures Merged([Interval(0, 10), Interval(9, 20)]) == [Interval(0, 20)]
  {
    assert [Interval(0, 10), Interval(10, 20)][..1] == [Interval(0, 10)];
    assert [Interval(0, 10), Interval(9, 20)][..1] == [Interval(0, 10)];
  }

  // ------------------------------------------------------------ condensing

  /** Why `condense` stops: `CONDENSED_AUDIO_DIR` unset or empty, or no
      subtitles. */
  datatype Stop = NoOutputDir | NoSubtitles

  /** The merge loop of `condense`: the first span, then each later span
      either extends the last merged one or is appended. */
  method MergeIntervals(intervals: seq<Interval>) returns (merged: seq<Interval>)
    requires intervals != []
    ensures merged == Merged(intervals)
  {
    merged := [intervals[0]];
    assert intervals[..1] == [intervals[0]];
    for i := 1 to |intervals|
      invariant merged == Merged(intervals[..i])
    {
      var cur := intervals[i];
      var lastEnd := merged[|merged| - 1].end;
      ghost var before := merged;
      if cur.start < lastEnd {
        var last := merged[|merged| - 1];
        merged := merged[..|merged| - 1] + [Interval(last.start, if cur.end > lastEnd then cur.end else lastEnd)];
      } else {
        merged := merged + [cur];
      }
      assert merged == MergeStep(before, cur);
      MergedSnoc(intervals, i);
    }
    assert intervals[..|intervals|] == intervals;
  }

  /** The merge of one more span is one more merge step. */
  lemma MergedSnoc(xs: seq<Interval>, i: nat)
    requires 1 <= i < |xs|
    ensures Merged(xs[..i + 1]) == MergeStep(Merged(xs[..i]), xs[i])
  {
    assert xs[..i + 1][..i] == xs[..i];
  }

  /** The interval part of `condense`: check the output directory (`None`
      when the variable is unset; an empty value is falsy too) and the
      subtitles, pad every span, sort by start, merge.  The spans to cut. */
  method Condense(outputDir: Option<string>, subs: seq<SubRip>, padding: int) returns (r: Result<seq<Interval>, Stop>)
    ensures (outputDir.None? || outputDir.value == []) ==> r == Err(NoOutputDir)
    ensures outputDir.Some? && outputDir.value != [] && subs == [] ==> r == Err(NoSubtitles)
    ensures outputDir.Some? && outputDir.value != [] && subs != [] ==>
      r == Ok(Merged(SortByStart(PaddedAll(subs, padding))))
  {
    if outputDir.None? || outputDir.value == [] {
      return Err(NoOutputDir);
    }
    if subs == [] {
      return Err(NoSubtitles);
    }
    var intervals: seq<Interval> := [];
    for i := 0 to |subs|
      invariant intervals == PaddedAll(subs[..i], padding)
    {
      intervals := intervals + [Padded(subs[i], padding)];
    }
    assert subs[..|subs|] == subs;
    intervals := SortByStart(intervals);
    var merged := MergeIntervals(intervals);
    return Ok(merged);
  }

  /** Reordering spans changes neither the points they cover nor which
      spans a merge holds. */
  lemma {:induction false} ReorderedCovers(a: seq<Interval>, b: seq<Interval>, x: int)
    requires multiset(a) == multiset(b) && Covered(a, x)
    ensures Covered(b, x)
  {
    var i :| 0 <= i < |a| && Covers(a[i], x);
    assert a[i] in multiset(b);
    var j :| 0 <= j < |b| && b[j] == a[i];
  }

  lemma {:induction false} ReorderedContains(ms: seq<Interval>, a: seq<Interval>, b: seq<Interval>)
    requires multiset(a) == multiset(b) && Contains(ms, a)
    ensures Contains(ms, b)
  {
    forall i | 0 <= i < |b|
      ensures exists k :: 0 <= k < |ms| && ms[k].start <= b[i].start && b[i].end <= ms[k].end
    {
      assert b[i] in multiset(a);
      var j :| 0 <= j < |a| && a[j] == b[i];
      var k :| 0 <= k < |ms| && ms[k].start <= a[j].start && a[j].end <= ms[k].end;
      assert ms[k].start <= b[i].start && b[i].end <= ms[k].end;
    }
    assert forall i :: 0 <= i < |b| ==> exists k :: 0 <= k < |ms| && ms[k].start <= b[i].start && b[i].end <= ms[k].end;
  }

  /** Every merged span of padded subtitle spans starts inside the audio. */
  lemma {:induction false} MergedInsideAudio(xs: seq<Interval>)
    requires xs != [] && forall i :: 0 <= i < |xs| ==> xs[i].start >= 0
    ensures forall k :: 0 <= k < |Merged(xs)| ==> Merged(xs)[k].start >= 0
  {
    forall k | 0 <= k < |Merged(xs)|
      ensures Merged(xs)[k].start >= 0
    {
      MergedStarts(xs, k);
    }
  }

  /** What `condense` cuts: non-empty, no more spans than subtitles,
      separated, holding every padded subtitle span and covering exactly
      the points those spans cover, all inside the audio. */
  lemma {:induction false} CondensedSpans(subs: seq<SubRip>, padding: int)
    requires subs != []
    ensures var padded := PaddedAll(subs, padding);
      var ms := Merged(SortByStart(padded));
      && 1 <= |ms| <= |subs| && Separated(ms) && Contains(ms, padded)
      && (forall x :: Covered(ms, x) <==> Covered(padded, x))
      && (forall k :: 0 <= k < |ms| ==> ms[k].start >= 0)
  {
    var padded := PaddedAll(subs, padding);
    var sorted := SortByStart(padded);
    SortByStartFacts(padded);
    var ms := Merged(sorted);
    MergedFacts(sorted);
    ReorderedContains(ms, sorted, padded);
    CondensedCovers(sorted, padded);
    ReorderedStarts(padded, sorted);
    MergedInsideAudio(sorted);
  }

  /** The merge of the sorted spans covers what the unsorted spans cover. */
  lemma {:induction false} CondensedCovers(sorted: seq<Interval>, padded: seq<Interval>)
    requires sorted != [] && SortedByStart(sorted) && multiset(sorted) == multiset(padded)
    ensures forall x :: Covered(Merged(sorted), x) <==> Covered(padded, x)
  {
    forall x
      ensures Covered(Merged(sorted), x) <==> Covered(padded, x)
    {
      MergedCovers(sorted, x);
      if Covered(sorted, x) {
        ReorderedCovers(sorted, padded, x);
      }
      if Covered(padded, x) {
        ReorderedCovers(padded, sorted, x);
      }
    }
  }

  /** Reordering keeps every start inside the audio. */
  lemma {:induction false} ReorderedStarts(a: seq<Interval>, b: seq<Interval>)
    requires multiset(a) == multiset(b) && forall i :: 0 <= i < |a| ==> a[i].start >= 0
    ensures forall i :: 0 <= i < |b| ==> b[i].start >= 0
  {
    forall i | 0 <= i < |b|
      ensures b[i].start >= 0
    {
      assert b[i] in multiset(a);
      var j :| 0 <= j < |a| && a[j] == b[i];
    }
  }

  /** Every merged span starts where some input span starts. */
  lemma {:induction false} MergedStarts(xs: seq<Interval>, k: nat)
    requires xs != [] && k < |Merged(xs)|
    ensures exists j :: 0 <= j < |xs| && xs[j].start == Merged(xs)[k].start
  {
    if |xs| == 1 {
      assert xs[0].start == Merged(xs)[k].start;
    } else {
      var init, cur := xs[..|xs| - 1], xs[|xs| - 1];
      var m0 := Merged(init);
      if k < |m0| {
        MergedStarts(init, k);
        var j :| 0 <= j < |init| && init[j].start == m0[k].start;
        assert xs[j] == init[j];
      } else {
        assert Merged(xs)[k] == cur;
      }
    }
  }
}
