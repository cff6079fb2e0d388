/**
 * The sentence-aware chunker of `splitTextAndProcess`: a cursor walks the
 * normalised text and every window of `ChunkSize` characters is cut just after
 * its last period. `NextEnd` is one pass of the loop body's boundary
 * computation, `PlanFrom` the whole walk, and the lemmas state what the walk
 * guarantees: progress, coverage, cut positions and the abort condition.
 */
module Chunker {
  import opened Types
  import opened Text

  /** The character budget of one synthesis request. */
  const ChunkSize: nat := 4000

  /** `s.lastIndexOf(c, from)`: the last position at or before `from` holding `c`, or -1. */
  function LastIndexOf(s: string, c: char, from: int): (r: int)
    ensures -1 <= r < |s| && r <= (if from < 0 then 0 else from)
    ensures r >= 0 ==> s[r] == c
    ensures forall k :: r < k <= from && k < |s| ==> s[k] != c
  {
    var i := if from < 0 then 0 else from;
    LastAtOrBefore(s, c, if i >= |s| then |s| - 1 else i)
  }

  function LastAtOrBefore(s: string, c: char, i: int): (r: int)
    requires -1 <= i < |s|
    ensures -1 <= r <= i
    ensures r >= 0 ==> s[r] == c
    ensures forall k :: r < k <= i ==> s[k] != c
    decreases i + 1
  {
    if i < 0 then -1
    else if s[i] == c then i
    else LastAtOrBefore(s, c, i - 1)
  }

  /** `s.indexOf(c, from)`: the first position at or after `from` holding `c`, or -1. */
  function IndexOf(s: string, c: char, from: int): (r: int)
    ensures r == -1 || (0 <= r < |s| && from <= r && s[r] == c)
    ensures forall k :: 0 <= k < |s| && from <= k && (r == -1 || k < r) ==> s[k] != c
    decreases |s| - from
  {
    if from < 0 then IndexOf(s, c, 0)
    else if from >= |s| then -1
    else if s[from] == c then from
    else IndexOf(s, c, from + 1)
  }

  /**
   * `s.slice(a, b)` for the non-negative bounds the loop passes (the cursor and
   * the end it computed): both clamped to the length, empty when they cross.
   */
  function Slice(s: string, a: nat, b: nat): (r: string)
    ensures a <= b <= |s| ==> r == s[a..b]
    ensures a <= |s| <= b ==> r == s[a..]
  {
    var lo := if a > |s| then |s| else a;
    var hi := if b > |s| then |s| else b;
    if lo < hi then s[lo..hi] else []
  }

  /** The window `(cur, cur + ChunkSize]` lies inside the text and holds no period. */
  ghost predicate WindowLacksPeriod(data: string, cur: nat) {
    cur + ChunkSize < |data| && forall k :: cur < k <= cur + ChunkSize ==> data[k] != '.'
  }

  /**
   * The value of `endIndex` after the boundary computation of one loop pass
   * starting at cursor `cur`, or None when the pass takes the error exit.
   */
  function NextEnd(data: string, cur: nat): (r: Option<int>)
    requires cur < |data|
    ensures r.Some? ==> r.value > cur
    ensures cur + ChunkSize >= |data| ==> r == Some(cur + ChunkSize)
    ensures cur + ChunkSize < |data| && r.Some? ==>
              cur + 2 <= r.value <= cur + ChunkSize + 1 && data[r.value - 1] == '.'
    ensures cur + ChunkSize < |data| && r.Some? ==>
              forall k :: r.value <= k <= cur + ChunkSize ==> data[k] != '.'
    ensures r.None? <==> WindowLacksPeriod(data, cur)
  {
    var endIndex := cur + ChunkSize;
    if endIndex < |data| then
      var periodIndex := LastIndexOf(data, '.', endIndex);
      if periodIndex > cur then Some(periodIndex + 1)
      else
        var nextPeriodIndex := IndexOf(data, '.', endIndex);
        if nextPeriodIndex == -1 || nextPeriodIndex - cur > ChunkSize then None
        else Some(nextPeriodIndex + 1)
    else Some(endIndex)
  }

  /**
   * In the fallback branch the forward search starts at a position the backward
   * search already rejected, so any period it finds is too far: the branch
   * always takes the error exit.
   */
  lemma ForwardSearchNeverFits(data: string, cur: nat)
    requires cur + ChunkSize < |data|
    requires LastIndexOf(data, '.', cur + ChunkSize) <= cur
    ensures var q := IndexOf(data, '.', cur + ChunkSize); q == -1 || q - cur > ChunkSize
  {
  }

  /** The successive values of `endIndex`, and whether the walk took the error exit. */
  datatype Plan = Plan(ends: seq<nat>, aborted: bool)

  /** The walk of the loop starting with `currentIndex == cur`. */
  function PlanFrom(data: string, cur: nat): Plan
    decreases |data| - cur
  {
    if cur >= |data| then Plan([], false)
    else match NextEnd(data, cur)
      case None => Plan([], true)
      case Some(e) =>
        var rest := PlanFrom(data, e);
        Plan([e] + rest.ends, rest.aborted)
  }

  /** Where span `k` of a walk from `cur` begins: `cur`, then the previous end. */
  function StartOf(cur: nat, ends: seq<nat>, k: nat): nat
    requires k <= |ends|
  {
    if k == 0 then cur else ends[k - 1]
  }

  /** The untrimmed spans `data.slice(start, end)` of a walk, concatenated. */
  function Covered(data: string, cur: nat, ends: seq<nat>): string
    decreases |ends|
  {
    if ends == [] then [] else Slice(data, cur, ends[0]) + Covered(data, ends[0], ends[1..])
  }

  /** `f` applied to every untrimmed span of a walk from 0. */
  function MapSpans(f: string -> string, data: string, ends: seq<nat>): (r: seq<string>)
    ensures |r| == |ends|
  {
    seq(|ends|, k requires 0 <= k < |ends| => f(Slice(data, StartOf(0, ends, k), ends[k])))
  }

  /** The requests of a walk from 0: span `k` of the walk, trimmed. */
  function ChunkTexts(data: string, ends: seq<nat>): (r: seq<string>)
    ensures |r| == |ends|
  {
    MapSpans(Trim, data, ends)
  }

  lemma MapSpansSnoc(f: string -> string, data: string, ends: seq<nat>, e: nat)
    ensures MapSpans(f, data, ends + [e]) == MapSpans(f, data, ends) + [f(Slice(data, StartOf(0, ends, |ends|), e))]
  {
    var all := ends + [e];
    forall k | 0 <= k < |ends| ensures StartOf(0, all, k) == StartOf(0, ends, k) && all[k] == ends[k] {
    }
    assert StartOf(0, all, |ends|) == StartOf(0, ends, |ends|);
  }

  /** One more pass adds the trimmed span from the last end (or 0) to the new end. */
  lemma ChunkTextsSnoc(data: string, ends: seq<nat>, e: nat)
    ensures ChunkTexts(data, ends + [e]) == ChunkTexts(data, ends) + [Trim(Slice(data, StartOf(0, ends, |ends|), e))]
  {
    MapSpansSnoc(Trim, data, ends, e);
  }

  /** A walk that takes the error exit never passes the end of the text. */
  lemma {:induction false} PlanAbortedInside(data: string, cur: nat)
    requires PlanFrom(data, cur).aborted
    ensures cur < |data|
    ensures forall k :: 0 <= k < |PlanFrom(data, cur).ends| ==> PlanFrom(data, cur).ends[k] < |data|
    decreases |data| - cur
  {
    match NextEnd(data, cur)
    case None =>
    case Some(e) =>
      PlanAbortedInside(data, e);
      var ends := PlanFrom(data, cur).ends;
      assert ends == [e] + PlanFrom(data, e).ends;
  }

  // ---------------------------------------------------------------------
  // Properties of the walk

  /** Each end lies beyond the start of its own span. */
  ghost predicate Advances(cur: nat, ends: seq<nat>) {
    forall k {:trigger StartOf(cur, ends, k)} :: 0 <= k < |ends| ==> StartOf(cur, ends, k) < ends[k]
  }

  /** Every end but the last lies inside the text. */
  ghost predicate InsideBeforeLast(data: string, ends: seq<nat>) {
    forall k :: 0 <= k < |ends| - 1 ==> ends[k] < |data|
  }

  /**
   * The two kinds of span the loop produces: a tail span, whose window reaches
   * the end of the text and which takes the rest of it (at most `ChunkSize`
   * characters), or a cut span, which ends just after the last period lying in
   * its window `(start, start + ChunkSize]` and so holds 2 to `ChunkSize + 1`
   * characters.
   */
  ghost predicate WellCut(data: string, start: nat, end: nat) {
    if start + ChunkSize >= |data| then
      end == start + ChunkSize && |Slice(data, start, end)| <= ChunkSize
    else
      start + 2 <= end <= start + ChunkSize + 1 && end <= |data| && data[end - 1] == '.' &&
      forall k :: end <= k <= start + ChunkSize ==> data[k] != '.'
  }

  /** One pass that does not abort puts its end in front of the rest of the walk. */
  lemma PlanStep(data: string, cur: nat)
    requires cur < |data| && NextEnd(data, cur).Some?
    ensures var e := NextEnd(data, cur).value;
      PlanFrom(data, cur) == Plan([e] + PlanFrom(data, e).ends, PlanFrom(data, e).aborted)
  {
  }

  /** Span `k + 1` of a walk started at `cur` is span `k` of the walk started at its first end. */
  lemma StartOfCons(cur: nat, e: nat, rest: seq<nat>, k: nat)
    requires k <= |rest|
    ensures StartOf(cur, [e] + rest, k + 1) == StartOf(e, rest, k)
  {
  }

  lemma AdvancesCons(cur: nat, e: nat, rest: seq<nat>)
    requires cur < e && Advances(e, rest)
    ensures Advances(cur, [e] + rest)
  {
    var ends := [e] + rest;
    forall k | 0 <= k < |ends| ensures StartOf(cur, ends, k) < ends[k] {
      if k > 0 {
        StartOfCons(cur, e, rest, k - 1);
        assert ends[k] == rest[k - 1];
      }
    }
  }

  lemma InsideCons(data: string, e: nat, rest: seq<nat>)
    requires rest != [] ==> e < |data|
    requires InsideBeforeLast(data, rest)
    ensures InsideBeforeLast(data, [e] + rest)
  {
    var ends := [e] + rest;
    forall k | 0 <= k < |ends| - 1 ensures ends[k] < |data| {
      if k > 0 {
        assert ends[k] == rest[k - 1];
      }
    }
  }

  /** A walk that continues after an end continued from inside the text. */
  lemma PlanContinues(data: string, e: nat)
    requires PlanFrom(data, e).ends != []
    ensures e < |data|
  {
  }

  /** Every pass moves the cursor strictly forward; only the last end may pass the text. */
  lemma {:induction false} PlanIncreasing(data: string, cur: nat)
    ensures Advances(cur, PlanFrom(data, cur).ends)
    ensures InsideBeforeLast(data, PlanFrom(data, cur).ends)
    decreases |data| - cur
  {
    if cur < |data| && NextEnd(data, cur).Some? {
      var e := NextEnd(data, cur).value;
      var rest := PlanFrom(data, e).ends;
      PlanIncreasing(data, e);
      PlanStep(data, cur);
      AdvancesCons(cur, e, rest);
      if rest != [] {
        PlanContinues(data, e);
      }
      InsideCons(data, e, rest);
    }
  }

  /** `P` holds of every span `(start, end)` of a walk from `cur` with these ends. */
  ghost predicate EverySpan(P: (nat, nat) -> bool, cur: nat, ends: seq<nat>) {
    forall k :: 0 <= k < |ends| ==> P(StartOf(cur, ends, k), ends[k])
  }

  lemma EverySpanCons(P: (nat, nat) -> bool, cur: nat, e: nat, rest: seq<nat>)
    requires P(cur, e) && EverySpan(P, e, rest)
    ensures EverySpan(P, cur, [e] + rest)
  {
    var ends := [e] + rest;
    forall k | 0 <= k < |ends| ensures P(StartOf(cur, ends, k), ends[k]) {
      if k > 0 {
        StartOfCons(cur, e, rest, k - 1);
        assert ends[k] == rest[k - 1];
      }
    }
  }

  /** Every span of a walk from `cur` with these ends is a tail span or a cut span. */
  ghost predicate AllWellCut(data: string, cur: nat, ends: seq<nat>) {
    EverySpan((start: nat, end: nat) => WellCut(data, start, end), cur, ends)
  }

  /** The span of one pass is a tail span or a cut span. */
  lemma FirstSpanWellCut(data: string, cur: nat)
    requires cur < |data| && NextEnd(data, cur).Some?
    ensures WellCut(data, cur, NextEnd(data, cur).value)
  {
  }

  lemma AllWellCutCons(data: string, cur: nat, e: nat, rest: seq<nat>)
    requires WellCut(data, cur, e) && AllWellCut(data, e, rest)
    ensures AllWellCut(data, cur, [e] + rest)
  {
    EverySpanCons((start: nat, end: nat) => WellCut(data, start, end), cur, e, rest);
  }

  /** Every span of a walk is a tail span or a cut span. */
  lemma {:induction false} PlanCutsAtPeriods(data: string, cur: nat)
    ensures AllWellCut(data, cur, PlanFrom(data, cur).ends)
    decreases |data| - cur
  {
    if cur < |data| && NextEnd(data, cur).Some? {
      var e := NextEnd(data, cur).value;
      PlanCutsAtPeriods(data, e);
      PlanStep(data, cur);
      FirstSpanWellCut(data, cur);
      AllWellCutCons(data, cur, e, PlanFrom(data, e).ends);
    }
  }

  /** A walk that does not abort and starts inside the text ends past it. */
  lemma {:induction false} PlanEndsPastText(data: string, cur: nat)
    requires cur < |data|
    requires !PlanFrom(data, cur).aborted
    ensures var p := PlanFrom(data, cur); |p.ends| > 0 && p.ends[|p.ends| - 1] >= |data|
    decreases |data| - cur
  {
    var e := NextEnd(data, cur).value;
    PlanStep(data, cur);
    var rest := PlanFrom(data, e).ends;
    if e < |data| {
      PlanEndsPastText(data, e);
      assert ([e] + rest)[|rest|] == rest[|rest| - 1];
    } else {
      assert rest == [];
    }
  }

  lemma CoveredCons(data: string, cur: nat, e: nat, rest: seq<nat>)
    requires cur <= e <= |data|
    requires Covered(data, e, rest) == data[e..]
    ensures Covered(data, cur, [e] + rest) == data[cur..]
  {
    var ends := [e] + rest;
    assert ends[0] == e && ends[1..] == rest;
    assert data[cur..e] + data[e..] == data[cur..];
  }

  /**
   * The untrimmed spans of a walk that does not abort concatenate to exactly
   * the text from the cursor on.
   */
  lemma {:induction false} PlanCovers(data: string, cur: nat)
    requires cur <= |data|
    requires !PlanFrom(data, cur).aborted
    ensures Covered(data, cur, PlanFrom(data, cur).ends) == data[cur..]
    decreases |data| - cur
  {
    if cur < |data| {
      var e := NextEnd(data, cur).value;
      PlanStep(data, cur);
      var rest := PlanFrom(data, e).ends;
      if e >= |data| {
        assert rest == [];
        assert Slice(data, cur, e) == data[cur..];
        assert Covered(data, cur, [e]) == Slice(data, cur, e) + Covered(data, e, []);
      } else {
        PlanCovers(data, e);
        CoveredCons(data, cur, e, rest);
      }
    }
  }

  /**
   * The walk takes the error exit exactly when one of the cursors it visits
   * opens a window inside the text that holds no period.
   */
  lemma {:induction false} PlanAbortIff(data: string, cur: nat)
    ensures var p := PlanFrom(data, cur);
      p.aborted <==> exists i :: 0 <= i <= |p.ends| && WindowLacksPeriod(data, StartOf(cur, p.ends, i))
    decreases |data| - cur
  {
    var p := PlanFrom(data, cur);
    if cur >= |data| {
      assert !WindowLacksPeriod(data, StartOf(cur, p.ends, 0));
    } else if NextEnd(data, cur).None? {
      assert WindowLacksPeriod(data, StartOf(cur, p.ends, 0));
    } else {
      var e := NextEnd(data, cur).value;
      PlanAbortIff(data, e);
      PlanStep(data, cur);
      var rest := PlanFrom(data, e);
      AbortIffCons(data, cur, e, rest.ends, rest.aborted);
    }
  }

  lemma AbortIffCons(data: string, cur: nat, e: nat, rest: seq<nat>, aborted: bool)
    requires !WindowLacksPeriod(data, cur)
    requires aborted <==> exists i :: 0 <= i <= |rest| && WindowLacksPeriod(data, StartOf(e, rest, i))
    ensures var ends := [e] + rest;
      aborted <==> exists i :: 0 <= i <= |ends| && WindowLacksPeriod(data, StartOf(cur, ends, i))
  {
    var ends := [e] + rest;
    if aborted {
      var i :| 0 <= i <= |rest| && WindowLacksPeriod(data, StartOf(e, rest, i));
      StartOfCons(cur, e, rest, i);
      assert WindowLacksPeriod(data, StartOf(cur, ends, i + 1));
    } else {
      forall i | 0 <= i <= |ends| ensures !WindowLacksPeriod(data, StartOf(cur, ends, i)) {
        if i > 0 {
          StartOfCons(cur, e, rest, i - 1);
          assert !WindowLacksPeriod(data, StartOf(e, rest, i - 1));
        }
      }
    }
  }

  /**
   * A 9000-character text whose only periods are at 3950, 4100 and 8980: the
   * first span ends after the period at 3950, the second after the one at 4100
   * (the backward search from 7951 finds it), and the window after 4101 holds
   * no period, so the third pass takes the error exit.
   */
  lemma PeriodsExample(data: string)
    requires |data| == 9000
    requires forall k :: 0 <= k < |data| ==> (data[k] == '.' <==> k == 3950 || k == 4100 || k == 8980)
    ensures PlanFrom(data, 0) == Plan([3951, 4101], true)
  {
    assert data[3950] == '.' && data[4100] == '.';
    assert NextEnd(data, 0) == Some(3951);
    assert NextEnd(data, 3951) == Some(4101);
    assert WindowLacksPeriod(data, 4101);
    PlanStep(data, 0);
    PlanStep(data, 3951);
  }

  // ---------------------------------------------------------------------
  // Progress reporting

  /** `Math.min(100, Math.floor((cursor / total) * 100))`, in exact arithmetic. */
  function Percent(cursor: nat, total: nat): (r: int)
    requires total > 0
    ensures 0 <= r <= 100
    ensures r == 100 <==> cursor >= total
  {
    PercentBelow(cursor, total);
    var p := (cursor * 100) / total;
    if p < 100 then p else 100
  }

  /** The uncapped percentage is below 100 exactly while the cursor is inside the text. */
  lemma PercentBelow(cursor: nat, total: nat)
    requires total > 0
    ensures 0 <= (cursor * 100) / total
    ensures (cursor * 100) / total < 100 <==> cursor < total
  {
    var p := (cursor * 100) / total;
    assert p * total <= cursor * 100 < (p + 1) * total;
    if cursor < total {
      MulMonotone(cursor, total - 1, 100);
      assert (total - 1) * 100 < 100 * total;
      MulCancelStrict(p, 100, total);
    } else {
      MulMonotone(total, cursor, 100);
      assert 100 * total <= cursor * 100;
      MulCancelStrict(99, p + 1, total);
    }
  }

  lemma PercentMonotone(a: nat, b: nat, total: nat)
    requires total > 0 && a <= b
    ensures Percent(a, total) <= Percent(b, total)
  {
    MulMonotone(a, b, 100);
    DivMonotone(a * 100, b * 100, total);
  }

  lemma MulCancelStrict(a: int, b: int, d: nat)
    requires d > 0 && a * d < b * d
    ensures a < b
  {
    if a >= b {
      MulMonotone(b, a, d);
    }
  }

  lemma DivMonotone(x: nat, y: nat, d: nat)
    requires d > 0 && x <= y
    ensures x / d <= y / d
  {
    var qx, qy := x / d, y / d;
    assert qx * d <= x;
    assert y < (qy + 1) * d;
    MulCancelStrict(qx, qy + 1, d);
  }

  /** The values passed to `setProgress` inside the loop, one per pass. */
  function ProgressTrace(data: string, ends: seq<nat>): (r: seq<int>)
    requires |data| > 0
    ensures |r| == |ends|
  {
    seq(|ends|, k requires 0 <= k < |ends| => Percent(ends[k], |data|))
  }

  lemma ProgressTraceSnoc(data: string, ends: seq<nat>, e: nat)
    requires |data| > 0
    ensures ProgressTrace(data, ends + [e]) == ProgressTrace(data, ends) + [Percent(e, |data|)]
  {
  }

  /** The progress reported along ends that advance never decreases. */
  lemma ProgressMonotone(data: string, ends: seq<nat>)
    requires |data| > 0 && Advances(0, ends)
    ensures var t := ProgressTrace(data, ends);
      forall i, j :: 0 <= i <= j < |t| ==> t[i] <= t[j]
  {
    StrictlyIncreasing(0, ends);
    var t := ProgressTrace(data, ends);
    forall i, j | 0 <= i <= j < |t| ensures t[i] <= t[j] {
      PercentMonotone(ends[i], ends[j], |data|);
    }
  }

  /**
   * Along a walk the reported progress stays in [0, 100], never decreases,
   * and its last value is 100 when the walk does not abort.
   */
  lemma ProgressOfPlan(data: string)
    requires |data| > 0
    ensures var p := PlanFrom(data, 0); var t := ProgressTrace(data, p.ends);
      (forall k :: 0 <= k < |t| ==> 0 <= t[k] <= 100) &&
      (forall i, j :: 0 <= i <= j < |t| ==> t[i] <= t[j]) &&
      (!p.aborted ==> |t| > 0 && t[|t| - 1] == 100)
  {
    var p := PlanFrom(data, 0);
    PlanIncreasing(data, 0);
    ProgressMonotone(data, p.ends);
    if !p.aborted {
      PlanEndsPastText(data, 0);
    }
  }

  /** Ends that each pass their own start form a strictly increasing sequence. */
  lemma StrictlyIncreasing(cur: nat, ends: seq<nat>)
    requires Advances(cur, ends)
    ensures forall i, j :: 0 <= i < j < |ends| ==> ends[i] < ends[j]
  {
    forall i, j | 0 <= i < j < |ends| ensures ends[i] < ends[j] {
      AdvancesChain(cur, ends, i, j);
    }
  }

  lemma {:induction false} AdvancesChain(cur: nat, ends: seq<nat>, i: nat, j: nat)
    requires Advances(cur, ends)
    requires i < j < |ends|
    ensures ends[i] < ends[j]
    decreases j - i
  {
    assert StartOf(cur, ends, j) == ends[j - 1];
    if i < j - 1 {
      AdvancesChain(cur, ends, i, j - 1);
    }
  }
}
