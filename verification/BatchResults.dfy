/**
 Provider-neutral recognition results and the bounds a result must meet before it is durable
 (`valid_result` in crates/voicetext-speech/src/application/batch_models.rs).
 */
module BatchResults {
  import opened Base
  import opened Spans
  import opened BatchDomain

  const MAX_SEGMENTS: nat := 10_000
  const MAX_TRANSCRIPT_BYTES: nat := 4 * 1024 * 1024
  const MAX_READABLE_REFERENCES: nat := 100_000

  datatype Segment = Segment(span: Span, text: string, confidence: Option<real>, speaker: Option<string>)

  datatype ReadableSegment = ReadableSegment(span: Span, text: string, sources: seq<nat>)

  datatype RecognitionResult = RecognitionResult(
    profile: Profile,
    text: string,
    durationMillis: nat,
    providerDurationMillis: Option<nat>,
    segments: seq<Segment>,
    readable: Option<seq<ReadableSegment>>,
    providerReference: Option<string>)

  function SegmentSpans(segments: seq<Segment>): (spans: seq<Span>) {
    seq(|segments|, i requires 0 <= i < |segments| => segments[i].span)
  }

  function ReadableSpans(segments: seq<ReadableSegment>): (spans: seq<Span>) {
    seq(|segments|, i requires 0 <= i < |segments| => segments[i].span)
  }

  function SegmentBytes(segment: Segment): nat {
    Utf8Length(segment.text) + (if segment.speaker.Some? then Utf8Length(segment.speaker.value) else 0)
  }

  function SegmentsBytes(segments: seq<Segment>): nat {
    if segments == [] then 0
    else SegmentsBytes(segments[..|segments| - 1]) + SegmentBytes(segments[|segments| - 1])
  }

  function ReadableBytes(segments: seq<ReadableSegment>): nat {
    if segments == [] then 0
    else ReadableBytes(segments[..|segments| - 1]) + Utf8Length(segments[|segments| - 1].text)
  }

  function References(segments: seq<ReadableSegment>): nat {
    if segments == [] then 0
    else References(segments[..|segments| - 1]) + |segments[|segments| - 1].sources|
  }

  predicate ConfidenceInRange(confidence: Option<real>) {
    confidence.Some? ==> 0.0 <= confidence.value <= 1.0
  }

  /** Source references name existing segments, each once, in order. */
  predicate SourcesValid(sources: seq<nat>, segmentCount: nat) {
    && sources != []
    && (forall i :: 0 <= i < |sources| ==> sources[i] < segmentCount)
    && (forall i, j :: 0 <= i < j < |sources| ==> sources[i] < sources[j])
  }

  predicate SegmentsValid(segments: seq<Segment>, duration: nat, textBytes: nat) {
    && Timeline(SegmentSpans(segments), duration)
    && (forall i :: 0 <= i < |segments| ==> segments[i].text != "" && ConfidenceInRange(segments[i].confidence))
    && textBytes + SegmentsBytes(segments) <= MAX_TRANSCRIPT_BYTES
  }

  predicate ReadableValid(segments: seq<ReadableSegment>, duration: nat, sourceCount: nat, textBytes: nat) {
    && Timeline(ReadableSpans(segments), duration)
    && (forall i :: 0 <= i < |segments| ==> segments[i].text != "" && SourcesValid(segments[i].sources, sourceCount))
    && References(segments) <= MAX_READABLE_REFERENCES
    && textBytes + ReadableBytes(segments) <= MAX_TRANSCRIPT_BYTES
  }

  /** The whole condition, with totals instead of running sums and all pairs instead of neighbours. */
  predicate ValidResult(profile: Profile, duration: nat, result: RecognitionResult) {
    && result.profile == profile
    && result.durationMillis == duration
    && |result.segments| <= MAX_SEGMENTS
    && SegmentsValid(result.segments, duration, Utf8Length(result.text))
    && (result.readable.Some? ==>
          && |result.readable.value| <= MAX_SEGMENTS
          && ReadableValid(result.readable.value, duration, |result.segments|,
                           Utf8Length(result.text) + SegmentsBytes(result.segments)))
  }

  lemma {:induction false} SegmentsStep(segments: seq<Segment>, n: nat)
    requires n < |segments|
    ensures SegmentsBytes(segments[..n + 1]) == SegmentsBytes(segments[..n]) + SegmentBytes(segments[n])
    ensures SegmentSpans(segments[..n + 1]) == SegmentSpans(segments[..n]) + [segments[n].span]
    ensures LastEnd(SegmentSpans(segments[..n + 1])) == segments[n].span.end
  {
    assert segments[..n + 1][..n] == segments[..n];
  }

  lemma {:induction false} SegmentsBytesGrow(segments: seq<Segment>, n: nat)
    requires n <= |segments|
    ensures SegmentsBytes(segments[..n]) <= SegmentsBytes(segments)
    decreases |segments| - n
  {
    if n == |segments| {
      assert segments[..n] == segments;
    } else {
      SegmentsStep(segments, n);
      SegmentsBytesGrow(segments, n + 1);
    }
  }

  lemma {:induction false} SegmentsPrefix(segments: seq<Segment>, n: nat, duration: nat, textBytes: nat)
    requires n <= |segments|
    ensures SegmentsValid(segments, duration, textBytes) ==> SegmentsValid(segments[..n], duration, textBytes)
  {
    hide SegmentsBytes;
    assert SegmentSpans(segments[..n]) == SegmentSpans(segments)[..n];
    SegmentsBytesGrow(segments, n);
  }

  lemma {:induction false} ReadableStep(segments: seq<ReadableSegment>, n: nat)
    requires n < |segments|
    ensures ReadableBytes(segments[..n + 1]) == ReadableBytes(segments[..n]) + Utf8Length(segments[n].text)
    ensures References(segments[..n + 1]) == References(segments[..n]) + |segments[n].sources|
    ensures ReadableSpans(segments[..n + 1]) == ReadableSpans(segments[..n]) + [segments[n].span]
    ensures LastEnd(ReadableSpans(segments[..n + 1])) == segments[n].span.end
  {
    assert segments[..n + 1][..n] == segments[..n];
  }

  lemma {:induction false} ReadableTotalsGrow(segments: seq<ReadableSegment>, n: nat)
    requires n <= |segments|
    ensures ReadableBytes(segments[..n]) <= ReadableBytes(segments) && References(segments[..n]) <= References(segments)
    decreases |segments| - n
  {
    if n == |segments| {
      assert segments[..n] == segments;
    } else {
      ReadableStep(segments, n);
      ReadableTotalsGrow(segments, n + 1);
    }
  }

  lemma {:induction false} ReadablePrefix(segments: seq<ReadableSegment>, n: nat, duration: nat, count: nat, textBytes: nat)
    requires n <= |segments|
    ensures ReadableValid(segments, duration, count, textBytes) ==> ReadableValid(segments[..n], duration, count, textBytes)
  {
    hide ReadableBytes, References, SourcesValid;
    assert ReadableSpans(segments[..n]) == ReadableSpans(segments)[..n];
    ReadableTotalsGrow(segments, n);
  }

  /** Neighbours increasing and the last index in range, as the source scans them. */
  method CheckSources(sources: seq<nat>, segmentCount: nat) returns (ok: bool)
    ensures ok <==> SourcesValid(sources, segmentCount)
  {
    if |sources| == 0 {
      return false;
    }
    for i := 1 to |sources|
      invariant forall a, b :: 0 <= a < b < i ==> sources[a] < sources[b]
    {
      if sources[i - 1] >= sources[i] {
        return false;
      }
    }
    ok := sources[|sources| - 1] < segmentCount;
  }

  method CheckSegments(segments: seq<Segment>, duration: nat, textBytes: nat) returns (ok: bool, total: nat)
    requires textBytes <= MAX_TRANSCRIPT_BYTES
    ensures ok <==> SegmentsValid(segments, duration, textBytes)
    ensures ok ==> total == textBytes + SegmentsBytes(segments)
  {
    var previousEnd := 0;
    total := textBytes;
    for i := 0 to |segments|
      invariant SegmentsValid(segments[..i], duration, textBytes)
      invariant previousEnd == LastEnd(SegmentSpans(segments[..i]))
      invariant total == textBytes + SegmentsBytes(segments[..i])
    {
      var segment := segments[i];
      var next := total + SegmentBytes(segment);
      SegmentsStep(segments, i);
      SegmentsPrefix(segments, i + 1, duration, textBytes);
      ExtendTimeline(SegmentSpans(segments[..i]), segment.span, duration);
      if || !Extends(previousEnd, segment.span, duration)
         || segment.text == ""
         || next > MAX_TRANSCRIPT_BYTES
         || !ConfidenceInRange(segment.confidence)
      {
        return false, total;
      }
      total := next;
      previousEnd := segment.span.end;
    }
    assert segments[..|segments|] == segments;
    ok := true;
  }

  method CheckReadable(segments: seq<ReadableSegment>, duration: nat, sourceCount: nat, textBytes: nat)
    returns (ok: bool)
    requires textBytes <= MAX_TRANSCRIPT_BYTES
    ensures ok <==> ReadableValid(segments, duration, sourceCount, textBytes)
  {
    var previousEnd, references, total := 0, 0, textBytes;
    for i := 0 to |segments|
      invariant ReadableValid(segments[..i], duration, sourceCount, textBytes)
      invariant previousEnd == LastEnd(ReadableSpans(segments[..i]))
      invariant references == References(segments[..i])
      invariant total == textBytes + ReadableBytes(segments[..i])
    {
      var segment := segments[i];
      var sourcesValid := CheckSources(segment.sources, sourceCount);
      ReadableStep(segments, i);
      ReadablePrefix(segments, i + 1, duration, sourceCount, textBytes);
      ExtendTimeline(ReadableSpans(segments[..i]), segment.span, duration);
      references := references + |segment.sources|;
      total := total + Utf8Length(segment.text);
      if || !Extends(previousEnd, segment.span, duration)
         || segment.text == ""
         || references > MAX_READABLE_REFERENCES
         || total > MAX_TRANSCRIPT_BYTES
         || !sourcesValid
      {
        return false;
      }
      previousEnd := segment.span.end;
    }
    assert segments[..|segments|] == segments;
    ok := true;
  }

  /** The gateway's scan decides exactly the declarative condition. */
  method CheckResult(profile: Profile, duration: nat, result: RecognitionResult) returns (ok: bool)
    ensures ok <==> ValidResult(profile, duration, result)
  {
    if || result.profile != profile
       || result.durationMillis != duration
       || Utf8Length(result.text) > MAX_TRANSCRIPT_BYTES
       || |result.segments| > MAX_SEGMENTS
    {
      return false;
    }
    var total;
    ok, total := CheckSegments(result.segments, duration, Utf8Length(result.text));
    if ok && result.readable.Some? {
      if |result.readable.value| > MAX_SEGMENTS {
        return false;
      }
      ok := CheckReadable(result.readable.value, duration, |result.segments|, total);
    }
  }
}
