/**
 * Highlight extraction of the single-video pipeline: a left-to-right scan
 * over the segments keeps at most one open highlight, opens it on a
 * qualifying segment, stretches it over following qualifying segments and
 * closes it on a non-qualifying one. Segments without an analysis are
 * skipped and do not close an open highlight.
 *
 * `FindHighlights` is the scan; `RunHighlights` is an independent
 * description by maximal runs of qualifying segments, and
 * `FindHighlightsByRuns` proves the two equal.
 */
module Highlights {
  import opened Wrappers
  import opened Types
  import opened Segments

  const CaptionSeparator: string := " → "

  /** A highlight opened on segment `s` with analysis `a`. */
  function Seed(s: Segment, a: Analysis): Highlight {
    Highlight(s.start, s.end, a.caption, a.interaction, a.emotion)
  }

  /** The open highlight stretched over one more qualifying segment; its caption only grows when it is not empty. */
  function Absorb(h: Highlight, s: Segment, a: Analysis): Highlight {
    h.(end := s.end, caption := if h.caption != "" then h.caption + CaptionSeparator + a.caption else h.caption)
  }

  function Flush(open: Option<Highlight>): seq<Highlight> {
    if open.Some? then [open.value] else []
  }

  /** The scan over the remaining segments with the currently open highlight. */
  function Scan(segs: seq<Segment>, open: Option<Highlight>): seq<Highlight>
    decreases |segs|
  {
    if |segs| == 0 then Flush(open)
    else
      var s := segs[0];
      match s.analysis
      case None => Scan(segs[1..], open)
      case Some(a) =>
        if Qualifies(a) then
          Scan(segs[1..], Some(if open.None? then Seed(s, a) else Absorb(open.value, s, a)))
        else
          Flush(open) + Scan(segs[1..], None)
  }

  // ---------------------------------------------------------------------
  // Reference description by maximal runs
  // ---------------------------------------------------------------------

  /** The segments that carry an analysis, in their original order. */
  function Analyzed(segs: seq<Segment>): (r: seq<Segment>)
    ensures |r| <= |segs|
    ensures forall k :: 0 <= k < |r| ==> r[k].analysis.Some?
    ensures forall s :: s in r ==> s in segs
  {
    if |segs| == 0 then []
    else if segs[0].analysis.None? then Analyzed(segs[1..])
    else [segs[0]] + Analyzed(segs[1..])
  }

  ghost predicate AllAnalyzed(A: seq<Segment>) {
    forall k :: 0 <= k < |A| ==> A[k].analysis.Some?
  }

  predicate QualifiesAt(A: seq<Segment>, i: int) {
    0 <= i < |A| && A[i].analysis.Some? && Qualifies(A[i].analysis.value)
  }

  /** The end of the run of qualifying segments that starts at `i`. */
  function QualEnd(A: seq<Segment>, i: nat): (e: nat)
    requires i <= |A|
    decreases |A| - i
    ensures i <= e <= |A|
    ensures forall k :: i <= k < e ==> QualifiesAt(A, k)
    ensures e == |A| || !QualifiesAt(A, e)
  {
    if i < |A| && QualifiesAt(A, i) then QualEnd(A, i + 1) else i
  }

  /** A run of segments [lo, hi). */
  datatype Run = Run(lo: nat, hi: nat)

  /** The maximal runs of qualifying segments of `A` from position `i` on, in order. */
  function RunsFrom(A: seq<Segment>, i: nat): seq<Run>
    requires i <= |A|
    decreases |A| - i
  {
    if i == |A| then []
    else if !QualifiesAt(A, i) then RunsFrom(A, i + 1)
    else
      var e := QualEnd(A, i);
      [Run(i, e)] + RunsFrom(A, e)
  }

  /** Every run lies in A at or after `from`, is non-empty and qualifies throughout. */
  ghost predicate RunsQualify(A: seq<Segment>, runs: seq<Run>, from: nat) {
    && (forall k :: 0 <= k < |runs| ==> from <= runs[k].lo < runs[k].hi <= |A|)
    && (forall k, p :: 0 <= k < |runs| && runs[k].lo <= p < runs[k].hi ==> QualifiesAt(A, p))
  }

  /** No run can be extended to the left (without going before `from`). */
  ghost predicate RunsStartMaximal(A: seq<Segment>, runs: seq<Run>, from: nat) {
    forall k :: 0 <= k < |runs| ==> runs[k].lo == from || !QualifiesAt(A, runs[k].lo - 1)
  }

  /** No run can be extended to the right. */
  ghost predicate RunsEndMaximal(A: seq<Segment>, runs: seq<Run>) {
    forall k :: 0 <= k < |runs| ==> runs[k].hi == |A| || !QualifiesAt(A, runs[k].hi)
  }

  /** Runs come in order with a gap between consecutive ones. */
  ghost predicate RunsSeparated(runs: seq<Run>) {
    forall k :: 0 <= k < |runs| - 1 ==> runs[k].hi < runs[k + 1].lo
  }

  ghost predicate RunsMaximal(A: seq<Segment>, runs: seq<Run>, from: nat) {
    RunsStartMaximal(A, runs, from) && RunsEndMaximal(A, runs) && RunsSeparated(runs)
  }

  /** Every qualifying position at or after `from` lies in some run. */
  ghost predicate RunsCover(A: seq<Segment>, runs: seq<Run>, from: nat) {
    forall p :: from <= p < |A| && QualifiesAt(A, p) ==> exists k :: 0 <= k < |runs| && runs[k].lo <= p < runs[k].hi
  }

  /**
   * `runs` lists, in order, exactly the maximal runs of qualifying segments
   * of A at or after position `from`.
   */
  ghost predicate MaximalRuns(A: seq<Segment>, runs: seq<Run>, from: nat) {
    RunsQualify(A, runs, from) && RunsMaximal(A, runs, from) && RunsCover(A, runs, from)
  }

  lemma {:induction false} RunsFromQualify(A: seq<Segment>, i: nat)
    requires i <= |A|
    decreases |A| - i
    ensures RunsQualify(A, RunsFrom(A, i), i)
  {
    if i < |A| {
      if !QualifiesAt(A, i) {
        RunsFromQualify(A, i + 1);
      } else {
        var e := QualEnd(A, i);
        RunsFromQualify(A, e);
        var runs := RunsFrom(A, i);
        assert forall k :: 0 < k < |runs| ==> runs[k] == RunsFrom(A, e)[k - 1];
      }
    }
  }

  lemma {:induction false} RunsFromStartMaximal(A: seq<Segment>, i: nat)
    requires i <= |A|
    decreases |A| - i
    ensures RunsStartMaximal(A, RunsFrom(A, i), i)
  {
    if i < |A| {
      var runs := RunsFrom(A, i);
      if !QualifiesAt(A, i) {
        RunsFromStartMaximal(A, i + 1);
        assert runs == RunsFrom(A, i + 1);
      } else {
        var e := QualEnd(A, i);
        var rest := RunsFrom(A, e);
        RunsFromStartMaximal(A, e);
        RunsFromQualify(A, e);
        assert runs == [Run(i, e)] + rest;
        forall k | 0 < k < |runs|
          ensures !QualifiesAt(A, runs[k].lo - 1)
        {
          assert runs[k] == rest[k - 1];
          assert QualifiesAt(A, rest[k - 1].lo);
        }
      }
    }
  }

  lemma {:induction false} RunsFromEndMaximal(A: seq<Segment>, i: nat)
    requires i <= |A|
    decreases |A| - i
    ensures RunsEndMaximal(A, RunsFrom(A, i))
  {
    if i < |A| {
      var runs := RunsFrom(A, i);
      if !QualifiesAt(A, i) {
        RunsFromEndMaximal(A, i + 1);
      } else {
        var e := QualEnd(A, i);
        RunsFromEndMaximal(A, e);
        assert runs == [Run(i, e)] + RunsFrom(A, e);
      }
    }
  }

  lemma {:induction false} RunsFromSeparated(A: seq<Segment>, i: nat)
    requires i <= |A|
    decreases |A| - i
    ensures RunsSeparated(RunsFrom(A, i))
  {
    if i < |A| {
      var runs := RunsFrom(A, i);
      if !QualifiesAt(A, i) {
        RunsFromSeparated(A, i + 1);
      } else {
        var e := QualEnd(A, i);
        var rest := RunsFrom(A, e);
        RunsFromSeparated(A, e);
        RunsFromQualify(A, e);
        assert runs == [Run(i, e)] + rest;
        if |rest| > 0 {
          assert QualifiesAt(A, rest[0].lo);
        }
        forall k | 0 <= k < |runs| - 1
          ensures runs[k].hi < runs[k + 1].lo
        {
          if k > 0 {
            assert runs[k] == rest[k - 1] && runs[k + 1] == rest[(k - 1) + 1];
          }
        }
      }
    }
  }

  lemma {:induction false} RunsFromCover(A: seq<Segment>, i: nat)
    requires i <= |A|
    decreases |A| - i
    ensures RunsCover(A, RunsFrom(A, i), i)
  {
    if i < |A| {
      var runs := RunsFrom(A, i);
      if !QualifiesAt(A, i) {
        RunsFromCover(A, i + 1);
      } else {
        var e := QualEnd(A, i);
        var rest := RunsFrom(A, e);
        RunsFromCover(A, e);
        forall p | i <= p < |A| && QualifiesAt(A, p)
          ensures exists k :: 0 <= k < |runs| && runs[k].lo <= p < runs[k].hi
        {
          if p < e {
            assert runs[0].lo <= p < runs[0].hi;
          } else {
            var k :| 0 <= k < |rest| && rest[k].lo <= p < rest[k].hi;
            assert runs[k + 1] == rest[k];
          }
        }
      }
    }
  }

  lemma RunsFromAreMaximal(A: seq<Segment>, i: nat)
    requires i <= |A|
    ensures MaximalRuns(A, RunsFrom(A, i), i)
  {
    RunsFromQualify(A, i);
    RunsFromStartMaximal(A, i);
    RunsFromEndMaximal(A, i);
    RunsFromSeparated(A, i);
    RunsFromCover(A, i);
  }

  /** The caption of a run: the seed caption followed by the later ones, joined by the separator. */
  function JoinCaptions(A: seq<Segment>, lo: nat, hi: nat): string
    requires lo < hi <= |A| && AllAnalyzed(A)
    decreases hi
  {
    if hi == lo + 1 then A[lo].analysis.value.caption
    else JoinCaptions(A, lo, hi - 1) + CaptionSeparator + A[hi - 1].analysis.value.caption
  }

  lemma {:induction false} JoinCaptionsStartsWithSeed(A: seq<Segment>, lo: nat, hi: nat)
    requires lo < hi <= |A| && AllAnalyzed(A)
    decreases hi
    ensures |JoinCaptions(A, lo, hi)| >= |A[lo].analysis.value.caption|
    ensures A[lo].analysis.value.caption <= JoinCaptions(A, lo, hi)
  {
    if hi > lo + 1 {
      JoinCaptionsStartsWithSeed(A, lo, hi - 1);
      var prev := JoinCaptions(A, lo, hi - 1);
      assert JoinCaptions(A, lo, hi) == prev + (CaptionSeparator + A[hi - 1].analysis.value.caption);
    }
  }

  /**
   * The highlight a run [lo, hi) stands for: from the first segment's start
   * to the last segment's end, with the seed's interaction and emotion, and
   * all captions joined only when the seed caption is not empty.
   */
  function RunHighlight(A: seq<Segment>, r: Run): Highlight
    requires r.lo < r.hi <= |A| && AllAnalyzed(A)
  {
    var seed := A[r.lo].analysis.value;
    Highlight(
      A[r.lo].start,
      A[r.hi - 1].end,
      if seed.caption == "" then "" else JoinCaptions(A, r.lo, r.hi),
      seed.interaction,
      seed.emotion)
  }

  ghost predicate RunsInRange(A: seq<Segment>, runs: seq<Run>) {
    forall k :: 0 <= k < |runs| ==> runs[k].lo < runs[k].hi <= |A|
  }

  /** One highlight per run, in the order of the runs. */
  function RunHighlights(A: seq<Segment>, runs: seq<Run>): (r: seq<Highlight>)
    requires AllAnalyzed(A) && RunsInRange(A, runs)
    ensures |r| == |runs|
    ensures forall k :: 0 <= k < |runs| ==> r[k] == RunHighlight(A, runs[k])
  {
    if |runs| == 0 then [] else [RunHighlight(A, runs[0])] + RunHighlights(A, runs[1..])
  }

  // ---------------------------------------------------------------------
  // The scan computes the run description
  // ---------------------------------------------------------------------

  lemma {:induction false} ScanSkipsUnanalyzed(segs: seq<Segment>, open: Option<Highlight>)
    decreases |segs|
    ensures Scan(segs, open) == Scan(Analyzed(segs), open)
  {
    if |segs| > 0 {
      ScanSkipsUnanalyzed(segs[1..], open);
      ScanSkipsUnanalyzed(segs[1..], None);
      if segs[0].analysis.Some? {
        var A := Analyzed(segs);
        assert A[0] == segs[0] && A[1..] == Analyzed(segs[1..]);
        var a := segs[0].analysis.value;
        if Qualifies(a) {
          var next := Some(if open.None? then Seed(segs[0], a) else Absorb(open.value, segs[0], a));
          ScanSkipsUnanalyzed(segs[1..], next);
        }
      }
    }
  }

  lemma RunsFromInRange(A: seq<Segment>, i: nat)
    requires i <= |A|
    ensures RunsInRange(A, RunsFrom(A, i))
  {
    RunsFromAreMaximal(A, i);
  }

  /**
   * On analysed segments, the scan from position i equals the run
   * description from i; with a highlight open over the qualifying run
   * [lo, i) it equals that run extended to its maximal end, followed by
   * the runs after it.
   */
  lemma {:induction false} ScanMatchesRuns(A: seq<Segment>, i: nat, lo: nat, isOpen: bool)
    requires AllAnalyzed(A) && i <= |A|
    requires isOpen ==> lo < i && forall k :: lo <= k < i ==> QualifiesAt(A, k)
    decreases |A| - i
    ensures !isOpen ==>
      RunsFromInRangeFact(A, i) &&
      Scan(A[i..], None) == RunHighlights(A, RunsFrom(A, i))
    ensures isOpen ==>
      RunsFromInRangeFact(A, QualEnd(A, i)) &&
      Scan(A[i..], Some(RunHighlight(A, Run(lo, i))))
        == [RunHighlight(A, Run(lo, QualEnd(A, i)))] + RunHighlights(A, RunsFrom(A, QualEnd(A, i)))
  {
    RunsFromInRange(A, i);
    if i < |A| {
      RunsFromInRange(A, i + 1);
      RunsFromInRange(A, QualEnd(A, i));
      assert A[i..][0] == A[i] && A[i..][1..] == A[i + 1..];
      var a := A[i].analysis.value;
      if !isOpen {
        if Qualifies(a) {
          var e := QualEnd(A, i);
          assert QualEnd(A, i + 1) == e;
          assert Seed(A[i], a) == RunHighlight(A, Run(i, i + 1));
          ScanMatchesRuns(A, i + 1, i, true);
          var runs := RunsFrom(A, i);
          assert runs == [Run(i, e)] + RunsFrom(A, e);
          assert runs[1..] == RunsFrom(A, e);
        } else {
          ScanMatchesRuns(A, i + 1, 0, false);
        }
      } else {
        var h := RunHighlight(A, Run(lo, i));
        if Qualifies(a) {
          JoinCaptionsStartsWithSeed(A, lo, i);
          assert Absorb(h, A[i], a) == RunHighlight(A, Run(lo, i + 1));
          assert QualEnd(A, i + 1) == QualEnd(A, i);
          ScanMatchesRuns(A, i + 1, lo, true);
        } else {
          ScanMatchesRuns(A, i + 1, 0, false);
          assert RunsFrom(A, i) == RunsFrom(A, i + 1);
        }
      }
    } else {
      assert A[i..] == [];
    }
  }

  /** Proof-carrying helper: the runs from `i` stay inside A (needed to state ScanMatchesRuns). */
  ghost predicate RunsFromInRangeFact(A: seq<Segment>, i: nat)
    requires i <= |A|
  {
    RunsInRange(A, RunsFrom(A, i))
  }

  // ---------------------------------------------------------------------
  // Properties of the extracted highlights
  // ---------------------------------------------------------------------

  /** The highlights of a job's segments, computed by the scan. */
  function FindHighlights(segs: seq<Segment>): seq<Highlight> {
    Scan(segs, None)
  }

  /**
   * The scan emits exactly one highlight per maximal run of qualifying
   * segments among the analysed ones, in order, each spanning its run.
   */
  lemma FindHighlightsByRuns(segs: seq<Segment>)
    ensures var A := Analyzed(segs);
      && MaximalRuns(A, RunsFrom(A, 0), 0)
      && RunsInRange(A, RunsFrom(A, 0))
      && Scan(segs, None) == RunHighlights(A, RunsFrom(A, 0))
  {
    var A := Analyzed(segs);
    ScanSkipsUnanalyzed(segs, None);
    RunsFromAreMaximal(A, 0);
    ScanMatchesRuns(A, 0, 0, false);
    assert A[0..] == A;
  }

  lemma {:induction false} AnalyzedKeepsOrder(segs: seq<Segment>)
    requires Ordered(segs) && PositiveSpans(segs)
    decreases |segs|
    ensures Ordered(Analyzed(segs)) && PositiveSpans(Analyzed(segs))
  {
    if |segs| > 0 {
      var rest := segs[1..];
      assert Ordered(rest) && PositiveSpans(rest);
      AnalyzedKeepsOrder(rest);
      var A := Analyzed(segs);
      if segs[0].analysis.Some? {
        var B := Analyzed(rest);
        assert A == [segs[0]] + B;
        forall j | 0 < j < |A|
          ensures segs[0].end <= A[j].start
        {
          assert A[j] == B[j - 1] && A[j] in rest;
          var m :| 0 <= m < |rest| && rest[m] == A[j];
          assert segs[m + 1] == A[j];
        }
        forall i, j | 0 <= i < j < |A|
          ensures A[i].end <= A[j].start
        {
          if i > 0 {
            assert A[i] == B[i - 1] && A[j] == B[j - 1];
          }
        }
      }
    }
  }

  lemma {:induction false} SeparatedRunsOrdered(A: seq<Segment>, runs: seq<Run>, k: nat, l: nat)
    requires RunsSeparated(runs) && RunsInRange(A, runs)
    requires k < l < |runs|
    decreases l - k
    ensures runs[k].hi < runs[l].lo
  {
    if l > k + 1 {
      SeparatedRunsOrdered(A, runs, k, l - 1);
    }
  }

  lemma RunHighlightSpan(A: seq<Segment>, run: Run)
    requires AllAnalyzed(A) && Ordered(A) && PositiveSpans(A)
    requires run.lo < run.hi <= |A|
    ensures RunHighlight(A, run).start < RunHighlight(A, run).end
  {
    if run.lo < run.hi - 1 {
      assert A[run.lo].end <= A[run.hi - 1].start;
    }
  }

  lemma RunHighlightsApart(A: seq<Segment>, r1: Run, r2: Run)
    requires AllAnalyzed(A) && Ordered(A) && PositiveSpans(A)
    requires r1.lo < r1.hi < r2.lo < r2.hi <= |A|
    ensures RunHighlight(A, r1).end < RunHighlight(A, r2).start
  {
    var h := r1.hi;
    assert A[h - 1].end <= A[h].start < A[h].end;
    if h < r2.lo {
      assert A[h].end <= A[r2.lo].start;
    }
  }

  /**
   * On segments in time order with positive spans (as the segment builder
   * produces them), every highlight has a positive span and highlights are
   * disjoint and in time order, with a gap between consecutive ones.
   */
  lemma HighlightsDisjointAndOrdered(segs: seq<Segment>)
    requires Ordered(segs) && PositiveSpans(segs)
    ensures var r := FindHighlights(segs);
      && (forall k :: 0 <= k < |r| ==> r[k].start < r[k].end)
      && (forall k, l :: 0 <= k < l < |r| ==> r[k].end < r[l].start)
  {
    var A := Analyzed(segs);
    var runs := RunsFrom(A, 0);
    FindHighlightsByRuns(segs);
    AnalyzedKeepsOrder(segs);
    RunsFromSeparated(A, 0);
    RunsFromInRange(A, 0);
    var r := FindHighlights(segs);
    assert r == RunHighlights(A, runs);
    forall k | 0 <= k < |r|
      ensures r[k].start < r[k].end
    {
      RunHighlightSpan(A, runs[k]);
    }
    forall k, l | 0 <= k < l < |r|
      ensures r[k].end < r[l].start
    {
      SeparatedRunsOrdered(A, runs, k, l);
      RunHighlightsApart(A, runs[k], runs[l]);
    }
  }
}
