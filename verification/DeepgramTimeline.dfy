/**
 Making a provider's utterances a timeline (`normalize`, `normalize_utterance_overlaps` and
 `normalize_end` in crates/voicetext-providers/src/deepgram/timeline.rs).
 */
module DeepgramTimeline {
  import opened Base
  import opened Spans
  import opened BatchResults
  import opened WordMerge

  const TIMESTAMP_TOLERANCE_MILLIS: nat := 250
  const TIMESTAMP_RELATIVE_TOLERANCE_DIVISOR: nat := 200
  const MAX_UTTERANCE_OVERLAP_MILLIS: nat := 10_000

  // ---- clamping ------------------------------------------------------------------------------

  function MaximumProviderEnd(duration: nat): nat {
    Min(duration + Max(TIMESTAMP_TOLERANCE_MILLIS, duration / TIMESTAMP_RELATIVE_TOLERANCE_DIVISOR), U64_MAX)
  }

  /**
   A non-empty interval that begins inside the recording and ends at most a quarter of a second, or half
   a percent of the recording, after it.
   */
  predicate Acceptable(span: Span, duration: nat) {
    && span.start < duration && span.start < span.end <= U64_MAX
    && (span.end <= duration + 250 || (span.end - duration) * 200 <= duration)
  }

  lemma {:induction false} MaximumIff(span: Span, duration: nat)
    ensures Acceptable(span, duration) <==> span.start < duration && span.start < span.end <= MaximumProviderEnd(duration)
  {
  }

  function Clamp(span: Span, duration: nat): Span {
    Span(span.start, Min(span.end, duration))
  }

  function Clamped(spans: seq<Span>, duration: nat): (r: seq<Span>)
    ensures |r| == |spans|
  {
    seq(|spans|, i requires 0 <= i < |spans| => Clamp(spans[i], duration))
  }

  /** Non-empty intervals inside the recording, in any order. */
  predicate Bounded(spans: seq<Span>, duration: nat) {
    forall i :: 0 <= i < |spans| ==> spans[i].start < spans[i].end <= duration
  }

  method ClampEnds(spans: seq<Span>, duration: nat) returns (r: Option<seq<Span>>)
    ensures r.Some? <==> forall i :: 0 <= i < |spans| ==> Acceptable(spans[i], duration)
    ensures r.Some? ==> r.value == Clamped(spans, duration) && Bounded(r.value, duration)
  {
    var clamped := spans;
    for i := 0 to |spans|
      invariant |clamped| == |spans|
      invariant forall k :: 0 <= k < i ==> Acceptable(spans[k], duration) && clamped[k] == Clamp(spans[k], duration)
      invariant forall k :: i <= k < |spans| ==> clamped[k] == spans[k]
    {
      MaximumIff(spans[i], duration);
      if spans[i].start >= duration || spans[i].end > MaximumProviderEnd(duration) || spans[i].end <= spans[i].start {
        return None;
      }
      clamped := clamped[i := Span(spans[i].start, Min(spans[i].end, duration))];
    }
    r := Some(clamped);
  }

  // ---- what overlap removal does to times ------------------------------------------------------

  function FurthestEnd(spans: seq<Span>): nat {
    if spans == [] then 0 else Max(FurthestEnd(spans[..|spans| - 1]), spans[|spans| - 1].end)
  }

  /** Each interval keeps what lies after the furthest end before it; intervals with nothing left vanish. */
  function Trimmed(spans: seq<Span>): seq<Span> {
    if spans == [] then []
    else
      var before, last := spans[..|spans| - 1], spans[|spans| - 1];
      var end := FurthestEnd(before);
      Trimmed(before) + if last.end > end then [Span(Max(last.start, end), last.end)] else []
  }

  ghost predicate Covered(spans: seq<Span>, t: nat) {
    exists i :: 0 <= i < |spans| && spans[i].Covers(t)
  }

  /** An interval that reaches back before an earlier end only re-covers what was already covered. */
  ghost predicate NoBackfillAt(spans: seq<Span>, t: nat) {
    forall i :: 0 <= i < |spans| && spans[i].Covers(t) && t < FurthestEnd(spans[..i]) ==> Covered(spans[..i], t)
  }

  ghost predicate StartSorted(spans: seq<Span>) {
    forall i, j :: 0 <= i < j < |spans| ==> spans[i].start <= spans[j].start
  }

  lemma {:induction false} TrimmedIsTimeline(spans: seq<Span>, duration: nat)
    requires Bounded(spans, duration)
    ensures Timeline(Trimmed(spans), duration)
    ensures LastEnd(Trimmed(spans)) == FurthestEnd(spans)
    decreases |spans|
  {
    if spans != [] {
      var before, last := spans[..|spans| - 1], spans[|spans| - 1];
      TrimmedIsTimeline(before, duration);
      if last.end > FurthestEnd(before) {
        ExtendTimeline(Trimmed(before), Span(Max(last.start, FurthestEnd(before)), last.end), duration);
      }
    }
  }

  lemma {:induction false} FurthestEndBounds(spans: seq<Span>)
    ensures forall i :: 0 <= i < |spans| ==> spans[i].end <= FurthestEnd(spans)
    ensures FurthestEnd(spans) > 0 ==> exists i :: 0 <= i < |spans| && spans[i].end == FurthestEnd(spans)
    decreases |spans|
  {
    if spans != [] {
      var before := spans[..|spans| - 1];
      FurthestEndBounds(before);
      forall i | 0 <= i < |spans| - 1 ensures spans[i].end <= FurthestEnd(before) {
        assert before[i] == spans[i];
      }
      if FurthestEnd(spans) == FurthestEnd(before) > 0 {
        var i :| 0 <= i < |before| && before[i].end == FurthestEnd(before);
        assert spans[i].end == FurthestEnd(spans);
      }
    }
  }

  lemma {:induction false} CoveredAppend(spans: seq<Span>, more: seq<Span>, t: nat)
    ensures Covered(spans + more, t) <==> Covered(spans, t) || Covered(more, t)
  {
    var all := spans + more;
    if Covered(spans, t) {
      var i :| 0 <= i < |spans| && spans[i].Covers(t);
      assert all[i].Covers(t);
    }
    if Covered(more, t) {
      var i :| 0 <= i < |more| && more[i].Covers(t);
      assert all[|spans| + i].Covers(t);
    }
  }

  lemma {:induction false} CoveredSplit(spans: seq<Span>, t: nat)
    requires spans != []
    ensures Covered(spans, t) <==> Covered(spans[..|spans| - 1], t) || spans[|spans| - 1].Covers(t)
  {
  }

  lemma {:induction false} BackfillSplit(spans: seq<Span>, t: nat)
    requires spans != []
    ensures var before, last := spans[..|spans| - 1], spans[|spans| - 1];
            NoBackfillAt(spans, t)
            <==> NoBackfillAt(before, t) && (last.Covers(t) && t < FurthestEnd(before) ==> Covered(before, t))
  {
    var before := spans[..|spans| - 1];
    forall i | 0 <= i < |before| ensures before[..i] == spans[..i] && before[i] == spans[i] {
    }
  }

  /** Nothing at or after the furthest end is covered. */
  lemma {:induction false} UncoveredAfterEnd(spans: seq<Span>, t: nat)
    requires t >= FurthestEnd(spans)
    ensures !Covered(spans, t)
  {
    FurthestEndBounds(spans);
  }

  lemma {:induction false} TrimmedCovers(spans: seq<Span>, t: nat)
    ensures Covered(Trimmed(spans), t) ==> Covered(spans, t)
    ensures (Covered(spans, t) ==> Covered(Trimmed(spans), t)) <==> NoBackfillAt(spans, t)
    decreases |spans|
  {
    if spans != [] {
      var before, last := spans[..|spans| - 1], spans[|spans| - 1];
      var end := FurthestEnd(before);
      var piece := if last.end > end then [Span(Max(last.start, end), last.end)] else [];
      TrimmedCovers(before, t);
      CoveredSplit(spans, t);
      BackfillSplit(spans, t);
      CoveredAppend(Trimmed(before), piece, t);
      assert Covered(piece, t) <==> last.Covers(t) && t >= end by {
        if last.Covers(t) && t >= end {
          assert piece[0].Covers(t);
        }
      }
      if t >= end {
        UncoveredAfterEnd(before, t);
      }
    }
  }

  /** Covered time is conserved exactly when no interval reaches back into an uncovered gap. */
  lemma {:induction false} CoverageConservedIff(spans: seq<Span>)
    ensures (forall t: nat :: Covered(Trimmed(spans), t) <==> Covered(spans, t))
       <==> (forall t: nat :: NoBackfillAt(spans, t))
  {
    forall t: nat
      ensures Covered(Trimmed(spans), t) ==> Covered(spans, t)
      ensures (Covered(spans, t) ==> Covered(Trimmed(spans), t)) <==> NoBackfillAt(spans, t)
    {
      TrimmedCovers(spans, t);
    }
  }

  lemma {:induction false} SortedNeverBackfills(spans: seq<Span>, t: nat)
    requires StartSorted(spans)
    ensures NoBackfillAt(spans, t)
  {
    forall i | 0 <= i < |spans| && spans[i].Covers(t) && t < FurthestEnd(spans[..i])
      ensures Covered(spans[..i], t)
    {
      FurthestEndBounds(spans[..i]);
      var j :| 0 <= j < i && spans[..i][j].end == FurthestEnd(spans[..i]);
      assert spans[..i][j].Covers(t);
    }
  }

  /** Utterances listed by start time keep exactly the time they cover. */
  lemma {:induction false} SortedCoverageConserved(spans: seq<Span>, t: nat)
    requires StartSorted(spans)
    ensures Covered(Trimmed(spans), t) <==> Covered(spans, t)
  {
    SortedNeverBackfills(spans, t);
    TrimmedCovers(spans, t);
  }

  /** Out of order, a contained utterance can take its time with it. */
  lemma {:induction false} UnsortedCanLoseTime()
    ensures var spans := [Span(10, 20), Span(0, 5)];
            Bounded(spans, 20) && Covered(spans, 3) && !Covered(Trimmed(spans), 3)
  {
    var spans := [Span(10, 20), Span(0, 5)];
    assert spans[1].Covers(3);
    assert spans[..0] == [] && FurthestEnd([]) == 0 && Trimmed([]) == [];
    TrimStep(spans, 0);
    TrimStep(spans, 1);
    assert spans[..2] == spans;
    assert Trimmed(spans) == [Span(10, 20)];
  }

  // ---- the loop --------------------------------------------------------------------------------

  /** The interval starts more than the permitted overlap before the furthest end so far. */
  predicate OverlapsTooFar(spans: seq<Span>, i: nat)
    requires i < |spans|
  {
    FurthestEnd(spans[..i]) > spans[i].start + 10_000
  }

  predicate OverlapsEarlier(spans: seq<Span>, i: nat)
    requires i < |spans|
  {
    FurthestEnd(spans[..i]) > spans[i].start
  }

  predicate AddsTime(spans: seq<Span>, i: nat)
    requires i < |spans|
  {
    FurthestEnd(spans[..i]) < spans[i].end
  }

  /**
   The utterance's words live on, in the segment that ends where the utterances so far end; an
   utterance that adds time gives that segment its confidence and speaker.
   */
  ghost predicate HeldBy(t: Tables, segments: seq<Segment>, i: nat, held: Segment) {
    && i < |segments|
    && held.span.end == FurthestEnd(SegmentSpans(segments)[..i + 1])
    && Retained(t, segments[i].text, held.text)
    && (AddsTime(SegmentSpans(segments), i) ==> held.confidence == segments[i].confidence && held.speaker == segments[i].speaker)
  }

  ghost predicate AllHeld(t: Tables, segments: seq<Segment>, count: nat, normalized: seq<Segment>) {
    forall i :: 0 <= i < count ==> Held(t, segments, i, normalized)
  }

  ghost predicate Held(t: Tables, segments: seq<Segment>, i: nat, normalized: seq<Segment>) {
    exists j :: 0 <= j < |normalized| && HeldBy(t, segments, i, normalized[j])
  }

  /** Every segment was opened by one of the first `count` utterances, whose end, confidence and speaker it has. */
  ghost predicate AllOpened(segments: seq<Segment>, count: nat, normalized: seq<Segment>) {
    forall j :: 0 <= j < |normalized| ==> Opened(segments, count, normalized[j])
  }

  ghost predicate Opened(segments: seq<Segment>, count: nat, segment: Segment) {
    exists i :: 0 <= i < count && i < |segments| && segment == segments[i].(span := Span(segment.span.start, segments[i].span.end), text := segment.text)
  }

  lemma {:induction false} Opens(segments: seq<Segment>, i: nat, pushed: Segment)
    requires i < |segments| && pushed == segments[i].(span := Span(pushed.span.start, segments[i].span.end))
    ensures Opened(segments, i + 1, pushed)
  {
  }

  lemma {:induction false} AllOpenedLater(segments: seq<Segment>, i: nat, normalized: seq<Segment>, text: string)
    requires AllOpened(segments, i, normalized)
    ensures AllOpened(segments, i + 1, normalized)
    ensures normalized != [] ==>
              AllOpened(segments, i + 1, normalized[|normalized| - 1 := normalized[|normalized| - 1].(text := text)])
  {
  }

  datatype Untangled = Untangled(segments: seq<Segment>, changed: bool)

  /** What one utterance adds to the trimmed timeline and to the furthest end. */
  lemma {:induction false} TrimStep(spans: seq<Span>, i: nat)
    requires i < |spans|
    ensures FurthestEnd(spans[..i + 1]) == Max(FurthestEnd(spans[..i]), spans[i].end)
    ensures Trimmed(spans[..i + 1]) == Trimmed(spans[..i]) +
              if AddsTime(spans, i) then [Span(Max(spans[i].start, FurthestEnd(spans[..i])), spans[i].end)] else []
  {
    assert spans[..i + 1][..i] == spans[..i];
  }

  lemma {:induction false} HeldAfterPush(t: Tables, segments: seq<Segment>, i: nat, normalized: seq<Segment>, pushed: Segment)
    requires i < |segments| && AllHeld(t, segments, i, normalized)
    requires pushed == segments[i].(span := pushed.span)
    requires pushed.span.end == FurthestEnd(SegmentSpans(segments)[..i + 1])
    ensures AllHeld(t, segments, i + 1, normalized + [pushed])
  {
    var all := normalized + [pushed];
    forall k | 0 <= k < i + 1 ensures Held(t, segments, k, all) {
      if k == i {
        WithinItself(FoldedWords(t, pushed.text));
        assert HeldBy(t, segments, i, all[|normalized|]);
      } else {
        assert Held(t, segments, k, normalized);
        var j :| 0 <= j < |normalized| && HeldBy(t, segments, k, normalized[j]);
        assert HeldBy(t, segments, k, all[j]);
      }
    }
  }

  lemma {:induction false} HeldAfterMerge(t: Tables, segments: seq<Segment>, i: nat, normalized: seq<Segment>, text: string)
    requires i < |segments| && normalized != [] && AllHeld(t, segments, i, normalized) && !AddsTime(SegmentSpans(segments), i)
    requires Retained(t, normalized[|normalized| - 1].text, text) && Retained(t, segments[i].text, text)
    requires normalized[|normalized| - 1].span.end == FurthestEnd(SegmentSpans(segments)[..i + 1])
    ensures AllHeld(t, segments, i + 1,
                    normalized[|normalized| - 1 := normalized[|normalized| - 1].(text := text)])
  {
    var last := |normalized| - 1;
    var all := normalized[last := normalized[last].(text := text)];
    forall k | 0 <= k < i + 1 ensures Held(t, segments, k, all) {
      if k == i {
        assert HeldBy(t, segments, i, all[last]);
      } else {
        assert Held(t, segments, k, normalized);
        var j :| 0 <= j < |normalized| && HeldBy(t, segments, k, normalized[j]);
        if j == last {
          WithinTransitive(FoldedWords(t, segments[k].text), FoldedWords(t, normalized[last].text), FoldedWords(t, text));
        }
        assert HeldBy(t, segments, k, all[j]);
      }
    }
  }

  /** What the loop knows after `i` utterances. */
  ghost predicate Progress(t: Tables, segments: seq<Segment>, i: nat, normalized: seq<Segment>, changed: bool)
    requires i <= |segments|
  {
    && SegmentSpans(normalized) == Trimmed(SegmentSpans(segments)[..i])
    && AllHeld(t, segments, i, normalized) && AllOpened(segments, i, normalized)
    && Scanned(SegmentSpans(segments), i, changed)
    && (!changed ==> normalized == segments[..i])
  }

  ghost predicate Scanned(spans: seq<Span>, i: nat, changed: bool)
    requires i <= |spans|
  {
    && (changed <==> exists k :: 0 <= k < i && OverlapsEarlier(spans, k))
    && (forall k :: 0 <= k < i ==> !OverlapsTooFar(spans, k))
  }

  lemma {:induction false} ScanStep(spans: seq<Span>, i: nat, changed: bool)
    requires i < |spans| && Scanned(spans, i, changed) && !OverlapsTooFar(spans, i)
    ensures Scanned(spans, i + 1, changed || OverlapsEarlier(spans, i))
  {
  }

  lemma {:induction false} PushProgress(t: Tables, segments: seq<Segment>, i: nat, normalized: seq<Segment>, changed: bool, pushed: Segment)
    requires i < |segments| && Progress(t, segments, i, normalized, changed)
    requires !OverlapsTooFar(SegmentSpans(segments), i) && AddsTime(SegmentSpans(segments), i)
    requires var end := FurthestEnd(SegmentSpans(segments)[..i]);
             pushed == segments[i].(span := Span(Max(segments[i].span.start, end), segments[i].span.end))
    ensures Progress(t, segments, i + 1, normalized + [pushed], changed || OverlapsEarlier(SegmentSpans(segments), i))
  {
    hide AllHeld, Scanned, FurthestEnd, Opened;
    TrimStep(SegmentSpans(segments), i);
    ScanStep(SegmentSpans(segments), i, changed);
    HeldAfterPush(t, segments, i, normalized, pushed);
    AllOpenedLater(segments, i, normalized, "");
    Opens(segments, i, pushed);
    assert SegmentSpans(normalized + [pushed]) == SegmentSpans(normalized) + [pushed.span];
  }

  lemma {:induction false} MergeProgress(t: Tables, segments: seq<Segment>, i: nat, normalized: seq<Segment>, changed: bool, text: string)
    requires i < |segments| && Bounded(SegmentSpans(segments), U64_MAX) && normalized != []
    requires Progress(t, segments, i, normalized, changed)
    requires !OverlapsTooFar(SegmentSpans(segments), i) && !AddsTime(SegmentSpans(segments), i)
    requires Retained(t, normalized[|normalized| - 1].text, text) && Retained(t, segments[i].text, text)
    ensures Progress(t, segments, i + 1, normalized[|normalized| - 1 := normalized[|normalized| - 1].(text := text)], true)
  {
    hide AllHeld, AllOpened, Retained, Scanned, FurthestEnd;
    var spans := SegmentSpans(segments);
    var merged := normalized[|normalized| - 1 := normalized[|normalized| - 1].(text := text)];
    TrimStep(spans, i);
    PreviousEnd(segments, i, normalized);
    HeldAfterMerge(t, segments, i, normalized, text);
    AllOpenedLater(segments, i, normalized, text);
    assert SegmentSpans(merged) == SegmentSpans(normalized);
    assert spans[i].start < spans[i].end;
    assert OverlapsEarlier(spans, i);
    ScanStep(spans, i, changed);
  }

  /** The last normalized segment ends where the utterances so far end. */
  lemma {:induction false} PreviousEnd(segments: seq<Segment>, i: nat, normalized: seq<Segment>)
    requires i <= |segments| && Bounded(SegmentSpans(segments), U64_MAX)
    requires SegmentSpans(normalized) == Trimmed(SegmentSpans(segments)[..i])
    ensures normalized == [] ==> FurthestEnd(SegmentSpans(segments)[..i]) == 0
    ensures normalized != [] ==> normalized[|normalized| - 1].span.end == FurthestEnd(SegmentSpans(segments)[..i])
  {
    TrimmedIsTimeline(SegmentSpans(segments)[..i], U64_MAX);
    assert |SegmentSpans(normalized)| == |normalized|;
  }

  /**
   The times become the trimmed timeline, no utterance's words are lost, and only an overlap of more
   than ten seconds is refused.
   */
  method NormalizeUtteranceOverlaps(t: Tables, segments: seq<Segment>) returns (r: Option<Untangled>)
    requires t.Lawful() && Bounded(SegmentSpans(segments), U64_MAX)
    ensures r.None? <==> exists i :: 0 <= i < |segments| && OverlapsTooFar(SegmentSpans(segments), i)
    ensures r.Some? ==> SegmentSpans(r.value.segments) == Trimmed(SegmentSpans(segments))
    ensures r.Some? ==> AllHeld(t, segments, |segments|, r.value.segments) && AllOpened(segments, |segments|, r.value.segments)
    ensures r.Some? ==> (r.value.changed <==> exists i :: 0 <= i < |segments| && OverlapsEarlier(SegmentSpans(segments), i))
    ensures r.Some? && !r.value.changed ==> r.value.segments == segments
  {
    hide AllHeld, AllOpened, Retained, Trimmed;
    var normalized: seq<Segment>, changed := [], false;
    ghost var spans := SegmentSpans(segments);
    EmptyProgress(t, segments);
    for i := 0 to |segments|
      invariant Progress(t, segments, i, normalized, changed)
    {
      var segment := segments[i];
      PreviousEnd(segments, i, normalized);
      if normalized == [] || segment.span.start >= normalized[|normalized| - 1].span.end {
        PushProgress(t, segments, i, normalized, changed, segment);
        normalized := normalized + [segment];
      } else {
        var previous := normalized[|normalized| - 1];
        if previous.span.end - segment.span.start > MAX_UTTERANCE_OVERLAP_MILLIS {
          assert OverlapsTooFar(spans, i);
          return None;
        }
        if segment.span.end <= previous.span.end {
          var text := MergeContainedText(t, previous.text, segment.text);
          MergeProgress(t, segments, i, normalized, changed, text);
          normalized := normalized[|normalized| - 1 := previous.(text := text)];
        } else {
          segment := segment.(span := Span(previous.span.end, segment.span.end));
          PushProgress(t, segments, i, normalized, changed, segment);
          normalized := normalized + [segment];
        }
        changed := true;
      }
    }
    assert spans[..|segments|] == spans && segments[..|segments|] == segments;
    r := Some(Untangled(normalized, changed));
  }

  lemma {:induction false} EmptyProgress(t: Tables, segments: seq<Segment>)
    ensures Progress(t, segments, 0, [], false)
  {
  }
}
