/**
 From a decoded provider response to a recognition result (crates/voicetext-providers/src/deepgram/dto.rs,
 `normalize` in timeline.rs and `project_result` in batch.rs).

 JSON decoding is outside the model: a response holds the fields the parsers read. A response whose
 paragraphs are missing or misshapen has no sentences.
 */
module DeepgramBatch {
  import opened Base
  import opened Spans
  import opened Seconds
  import opened SpacedText
  import opened BatchDomain
  import opened BatchResults
  import opened WordMerge
  import opened DeepgramTimeline

  const MAX_READABLE_SEGMENTS: nat := 10_000
  const MAX_READABLE_SEGMENT_TEXT_BYTES: nat := 64 * 1024
  const MAX_SOURCE_SEGMENTS: nat := 4_096
  const MAX_SOURCE_REFERENCES: nat := 100_000

  datatype Utterance = Utterance(start: real, end: real, text: string, confidence: Option<real>, speaker: Option<string>)

  datatype Sentence = Sentence(start: real, end: real, text: string)

  datatype Response = Response(
    duration: real,
    transcript: string,
    utterances: seq<Utterance>,
    sentences: Option<seq<Sentence>>,
    requestId: Option<string>)

  datatype Parsed = Parsed(
    text: string,
    providerDuration: nat,
    segments: seq<Segment>,
    readable: seq<ReadableSegment>,
    requestId: Option<string>)

  datatype Code = MalformedResponse | InvalidTiming

  datatype Outcome<T> = Success(value: T) | Failure(code: Code, reference: Option<string>)

  // ---- utterances --------------------------------------------------------------------------------

  predicate WellFormedUtterance(u: Utterance) {
    0.0 <= u.start <= u.end && SecondsToMillis(u.end).Some?
  }

  function ParseUtterance(u: Utterance): (r: Option<Segment>)
    ensures r.Some? <==> WellFormedUtterance(u)
  {
    if u.start < 0.0 || u.end < u.start then None
    else
      RoundingIsMonotone(u.start, u.end);
      var start, end := SecondsToMillis(u.start), SecondsToMillis(u.end);
      if start.None? || end.None? then None
      else Some(Segment(Span(start.value, end.value), u.text,
                        if ConfidenceInRange(u.confidence) then u.confidence else None, u.speaker))
  }

  function ParseUtterances(utterances: seq<Utterance>): (r: Option<seq<Segment>>)
    ensures r.Some? <==> forall i :: 0 <= i < |utterances| ==> WellFormedUtterance(utterances[i])
    ensures r.Some? ==> |r.value| == |utterances|
    ensures r.Some? ==> forall i :: 0 <= i < |utterances| ==> Some(r.value[i]) == ParseUtterance(utterances[i])
  {
    if utterances == [] then Some([])
    else
      var first, rest := ParseUtterance(utterances[0]), ParseUtterances(utterances[1..]);
      if first.None? || rest.None? then None else Some([first.value] + rest.value)
  }

  // ---- readable sentences ------------------------------------------------------------------------

  predicate Overlapping(u: Utterance, s: Sentence) {
    u.start < s.end && s.start < u.end
  }

  /** The utterances that overlap the sentence, each once, in order. */
  function SourceIndices(utterances: seq<Utterance>, s: Sentence): (r: seq<nat>)
    ensures forall k :: 0 <= k < |r| ==> r[k] < |utterances|
    ensures forall j, k :: 0 <= j < k < |r| ==> r[j] < r[k]
    ensures forall i :: i in r <==> 0 <= i < |utterances| && Overlapping(utterances[i], s)
  {
    if utterances == [] then []
    else
      var last := |utterances| - 1;
      SourceIndices(utterances[..last], s) + if Overlapping(utterances[last], s) then [last] else []
  }

  predicate WellFormedSentence(s: Sentence, duration: real) {
    && 0.0 <= s.start < s.end <= duration && SecondsToMillis(s.end).Some?
    && s.text != "" && Utf8Length(s.text) <= MAX_READABLE_SEGMENT_TEXT_BYTES
  }

  function Readable(s: Sentence, utterances: seq<Utterance>): ReadableSegment
    requires 0.0 <= s.start < s.end
  {
    ReadableSegment(Span(Rounded(s.start), Rounded(s.end)), s.text, SourceIndices(utterances, s))
  }

  predicate TimedSentences(sentences: seq<Sentence>, duration: real) {
    && (forall i :: 0 <= i < |sentences| ==> WellFormedSentence(sentences[i], duration))
    && (forall i, j :: 0 <= i < j < |sentences| ==> sentences[i].end <= sentences[j].start)
  }

  function AllReadable(sentences: seq<Sentence>, utterances: seq<Utterance>, duration: real): (r: seq<ReadableSegment>)
    requires TimedSentences(sentences, duration)
    ensures |r| == |sentences|
  {
    seq(|sentences|, i requires 0 <= i < |sentences| => Readable(sentences[i], utterances))
  }

  function Texts(sentences: seq<Sentence>): seq<string> {
    seq(|sentences|, i requires 0 <= i < |sentences| => sentences[i].text)
  }

  function ReferenceCount(sentences: seq<Sentence>, utterances: seq<Utterance>): nat {
    if sentences == [] then 0
    else
      var last := |sentences| - 1;
      ReferenceCount(sentences[..last], utterances) + |SourceIndices(utterances, sentences[last])|
  }

  /** The part of the projection's condition that the loop over sentences checks. */
  predicate Traceable(sentences: seq<Sentence>, utterances: seq<Utterance>, duration: real) {
    && TimedSentences(sentences, duration)
    && (forall i :: 0 <= i < |sentences| ==> SourceIndices(utterances, sentences[i]) != [])
    && ReferenceCount(sentences, utterances) <= MAX_SOURCE_REFERENCES
  }

  /** When the sentences can stand beside the utterances, stated on all of them at once. */
  predicate Projectable(space: char -> bool, sentences: seq<Sentence>, utterances: seq<Utterance>, duration: real, transcript: string) {
    && |sentences| <= MAX_READABLE_SEGMENTS && |utterances| <= MAX_SOURCE_SEGMENTS
    && Traceable(sentences, utterances, duration)
    && SplitAll(space, Texts(sentences)) == Split(space, transcript)
  }

  /** What the loop checks of one sentence, given those before it. */
  predicate Follows(sentences: seq<Sentence>, utterances: seq<Utterance>, duration: real, i: nat)
    requires i < |sentences|
  {
    && WellFormedSentence(sentences[i], duration)
    && (i > 0 ==> sentences[i - 1].end <= sentences[i].start)
    && SourceIndices(utterances, sentences[i]) != []
    && ReferenceCount(sentences[..i], utterances) + |SourceIndices(utterances, sentences[i])| <= MAX_SOURCE_REFERENCES
  }

  lemma {:induction false} CountStep(sentences: seq<Sentence>, utterances: seq<Utterance>, i: nat)
    requires i < |sentences|
    ensures ReferenceCount(sentences[..i + 1], utterances)
         == ReferenceCount(sentences[..i], utterances) + |SourceIndices(utterances, sentences[i])|
  {
    assert sentences[..i + 1][..i] == sentences[..i];
  }

  lemma {:induction false} CountMonotone(sentences: seq<Sentence>, utterances: seq<Utterance>, n: nat)
    requires n <= |sentences|
    ensures ReferenceCount(sentences[..n], utterances) <= ReferenceCount(sentences, utterances)
    decreases |sentences| - n
  {
    if n < |sentences| {
      CountStep(sentences, utterances, n);
      CountMonotone(sentences, utterances, n + 1);
    } else {
      assert sentences[..n] == sentences;
    }
  }

  lemma {:induction false} TraceableStep(sentences: seq<Sentence>, utterances: seq<Utterance>, duration: real, i: nat)
    requires i < |sentences| && Traceable(sentences[..i], utterances, duration) && Follows(sentences, utterances, duration, i)
    ensures Traceable(sentences[..i + 1], utterances, duration)
  {
    hide ReferenceCount, SourceIndices;
    var now, next := sentences[..i], sentences[..i + 1];
    CountStep(sentences, utterances, i);
    assert next == now + [sentences[i]];
    forall j, k | 0 <= j < k < |next| ensures next[j].end <= next[k].start {
      if k == i && j < i - 1 {
        assert now[j].end <= now[i - 1].start;
        assert WellFormedSentence(now[i - 1], duration);
      } else if k < i {
        assert now[j].end <= now[k].start;
      }
    }
  }

  lemma {:induction false} TraceableFollows(sentences: seq<Sentence>, utterances: seq<Utterance>, duration: real, i: nat)
    requires i < |sentences| && Traceable(sentences, utterances, duration)
    ensures Follows(sentences, utterances, duration, i)
  {
    hide ReferenceCount, SourceIndices;
    CountStep(sentences, utterances, i);
    CountMonotone(sentences, utterances, i + 1);
  }

  lemma {:induction false} TextsMatch(space: char -> bool, sentences: seq<Sentence>, transcript: string)
    requires space(' ')
    ensures NormalizeText(space, Join(Texts(sentences))) == NormalizeText(space, transcript)
       <==> SplitAll(space, Texts(sentences)) == Split(space, transcript)
  {
    SplitJoin(space, Texts(sentences));
    NormalizedAlike(space, Join(Texts(sentences)), transcript);
  }

  /** The running checks decide exactly the condition on the whole list. */
  method ParseReadableSegments(space: char -> bool, sentences: seq<Sentence>, utterances: seq<Utterance>, duration: real, transcript: string)
    returns (r: Option<seq<ReadableSegment>>)
    requires space(' ')
    ensures r.Some? <==> Projectable(space, sentences, utterances, duration, transcript)
    ensures r.Some? ==> r.value == AllReadable(sentences, utterances, duration)
  {
    hide Traceable, ReferenceCount, SourceIndices;
    if |sentences| > MAX_READABLE_SEGMENTS || |utterances| > MAX_SOURCE_SEGMENTS {
      return None;
    }
    var result: seq<ReadableSegment>, references := [], 0;
    assert sentences[..0] == [];
    EmptyTraceable(utterances, duration);
    for i := 0 to |sentences|
      invariant Traceable(sentences[..i], utterances, duration)
      invariant references == ReferenceCount(sentences[..i], utterances)
      invariant |result| == i
      invariant forall k :: 0 <= k < i ==> 0.0 <= sentences[k].start < sentences[k].end && result[k] == Readable(sentences[k], utterances)
    {
      if Traceable(sentences, utterances, duration) {
        TraceableFollows(sentences, utterances, duration, i);
      }
      var s := sentences[i];
      if !WellFormedSentence(s, duration) || (i > 0 && s.start < sentences[i - 1].end) {
        return None;
      }
      var sources := SourceIndices(utterances, s);
      if sources == [] || references + |sources| > MAX_SOURCE_REFERENCES {
        return None;
      }
      TraceableStep(sentences, utterances, duration, i);
      CountStep(sentences, utterances, i);
      result := result + [Readable(s, utterances)];
      references := references + |sources|;
    }
    assert sentences[..|sentences|] == sentences;
    TraceableTimed(sentences, utterances, duration);
    TextsMatch(space, sentences, transcript);
    r := if NormalizeText(space, Join(Texts(sentences))) == NormalizeText(space, transcript) then Some(result) else None;
  }

  lemma {:induction false} TraceableTimed(sentences: seq<Sentence>, utterances: seq<Utterance>, duration: real)
    requires Traceable(sentences, utterances, duration)
    ensures TimedSentences(sentences, duration)
  {
  }

  lemma {:induction false} EmptyTraceable(utterances: seq<Utterance>, duration: real)
    ensures Traceable([], utterances, duration) && ReferenceCount([], utterances) == 0
  {
  }

  // ---- the result --------------------------------------------------------------------------------

  /** `duration` negative or beyond the millisecond clock is malformed, as is any misshapen utterance. */
  predicate WellFormed(response: Response) {
    && SecondsToMillis(response.duration).Some?
    && forall i :: 0 <= i < |response.utterances| ==> WellFormedUtterance(response.utterances[i])
  }

  method ParseResponse(t: Tables, response: Response) returns (r: Outcome<Parsed>)
    requires t.Lawful()
    ensures r.Success? <==> WellFormed(response)
    ensures !r.Success? ==> r == Failure(MalformedResponse, response.requestId)
    ensures r.Success? ==>
              && r.value.text == response.transcript && r.value.requestId == response.requestId
              && Some(r.value.segments) == ParseUtterances(response.utterances)
              && r.value.providerDuration == Rounded(response.duration)
              && ReadableWellFormed(r.value)
    ensures r.Success? ==> (r.value.readable != [] <==>
              && response.sentences.Some? && response.sentences.value != []
              && Projectable(t.space, response.sentences.value, response.utterances, response.duration, response.transcript))
    ensures r.Success? && r.value.readable != [] ==>
              r.value.readable == AllReadable(response.sentences.value, response.utterances, response.duration)
  {
    hide Projectable;
    var duration, segments := SecondsToMillis(response.duration), ParseUtterances(response.utterances);
    if duration.None? || segments.None? {
      return Failure(MalformedResponse, response.requestId);
    }
    var readable: seq<ReadableSegment> := [];
    if response.sentences.Some? {
      var projected := ParseReadableSegments(t.space, response.sentences.value, response.utterances, response.duration, response.transcript);
      if projected.Some? {
        ReadableFromSentences(t.space, response);
        readable := projected.value;
      }
    }
    r := Success(Parsed(response.transcript, duration.value, segments.value, readable, response.requestId));
  }

  /** Rounding can make a sentence's interval empty but never makes two overlap. */
  predicate Ordered(spans: seq<Span>) {
    && (forall i :: 0 <= i < |spans| ==> spans[i].start <= spans[i].end)
    && (forall i, j :: 0 <= i < j < |spans| ==> spans[i].end <= spans[j].start)
  }

  /** What normalization may rely on of the readable segments. */
  predicate ReadableWellFormed(parsed: Parsed) {
    && |parsed.readable| <= MAX_READABLE_SEGMENTS
    && Ordered(ReadableSpans(parsed.readable))
    && (forall i :: 0 <= i < |parsed.readable| ==>
          parsed.readable[i].text != "" && SourcesValid(parsed.readable[i].sources, |parsed.segments|))
    && References(parsed.readable) <= MAX_SOURCE_REFERENCES
  }

  lemma {:induction false} ReferencesCounted(sentences: seq<Sentence>, utterances: seq<Utterance>, duration: real)
    requires TimedSentences(sentences, duration)
    ensures References(AllReadable(sentences, utterances, duration)) == ReferenceCount(sentences, utterances)
    decreases |sentences|
  {
    if sentences != [] {
      var last := |sentences| - 1;
      ReferencesCounted(sentences[..last], utterances, duration);
      assert AllReadable(sentences, utterances, duration)[..last] == AllReadable(sentences[..last], utterances, duration);
    }
  }

  lemma {:induction false} RoundedOrder(sentences: seq<Sentence>, utterances: seq<Utterance>, duration: real)
    requires TimedSentences(sentences, duration)
    ensures Ordered(ReadableSpans(AllReadable(sentences, utterances, duration)))
  {
  }

  lemma {:induction false} ReadableFromSentences(space: char -> bool, response: Response)
    requires WellFormed(response) && response.sentences.Some?
    requires Projectable(space, response.sentences.value, response.utterances, response.duration, response.transcript)
    ensures var readable := AllReadable(response.sentences.value, response.utterances, response.duration);
            forall parsed: Parsed :: parsed.readable == readable && |parsed.segments| == |response.utterances| ==> ReadableWellFormed(parsed)
  {
    hide SourceIndices;
    RoundedOrder(response.sentences.value, response.utterances, response.duration);
    ReferencesCounted(response.sentences.value, response.utterances, response.duration);
  }

  function WithSpans(segments: seq<Segment>, spans: seq<Span>): (r: seq<Segment>)
    requires |segments| == |spans|
    ensures |r| == |segments| && SegmentSpans(r) == spans
  {
    seq(|segments|, i requires 0 <= i < |segments| => segments[i].(span := spans[i]))
  }

  function WithReadableSpans(segments: seq<ReadableSegment>, spans: seq<Span>): (r: seq<ReadableSegment>)
    requires |segments| == |spans|
    ensures |r| == |segments| && ReadableSpans(r) == spans
  {
    seq(|segments|, i requires 0 <= i < |segments| => segments[i].(span := spans[i]))
  }

  /** Every interval is acceptable, and no utterance overlaps what came before by more than ten seconds. */
  predicate Repairable(parsed: Parsed, duration: nat) {
    var spans := SegmentSpans(parsed.segments);
    && (forall i :: 0 <= i < |spans| ==> Acceptable(spans[i], duration))
    && (forall i :: 0 <= i < |parsed.readable| ==> Acceptable(ReadableSpans(parsed.readable)[i], duration))
    && (forall i :: 0 <= i < |spans| ==> !OverlapsTooFar(Clamped(spans, duration), i))
  }

  /** The repaired utterances: trimmed times, every utterance's words kept. */
  ghost predicate Repaired(t: Tables, parsed: Parsed, duration: nat, segments: seq<Segment>) {
    var spans := Clamped(SegmentSpans(parsed.segments), duration);
    && SegmentSpans(segments) == Trimmed(spans)
    && AllHeld(t, WithSpans(parsed.segments, spans), |parsed.segments|, segments)
    && AllOpened(WithSpans(parsed.segments, spans), |parsed.segments|, segments)
  }

  method Normalize(t: Tables, parsed: Parsed, duration: nat) returns (r: Outcome<Parsed>)
    requires t.Lawful() && duration <= U64_MAX
    ensures r.Success? <==> Repairable(parsed, duration)
    ensures !r.Success? ==> r == Failure(InvalidTiming, parsed.requestId)
    ensures r.Success? ==>
              && Repaired(t, parsed, duration, r.value.segments)
              && r.value == parsed.(segments := r.value.segments, readable := r.value.readable)
              && (r.value.readable == []
                  || (r.value.readable == WithReadableSpans(parsed.readable, Clamped(ReadableSpans(parsed.readable), duration))
                      && |r.value.segments| == |parsed.segments|))
              && (parsed.readable == [] ==> r.value.readable == [])
    ensures r.Success? && parsed.readable != [] ==>
              (r.value.readable == [] <==>
                 exists i :: 0 <= i < |parsed.segments| && OverlapsEarlier(Clamped(SegmentSpans(parsed.segments), duration), i))
  {
    hide Acceptable, Clamp, Trimmed, AllHeld, AllOpened, OverlapsTooFar, OverlapsEarlier;
    var spans := ClampEnds(SegmentSpans(parsed.segments), duration);
    if spans.None? {
      return Failure(InvalidTiming, parsed.requestId);
    }
    var readableSpans := ClampEnds(ReadableSpans(parsed.readable), duration);
    if readableSpans.None? {
      return Failure(InvalidTiming, parsed.requestId);
    }
    var segments := WithSpans(parsed.segments, spans.value);
    var readable := WithReadableSpans(parsed.readable, readableSpans.value);
    var untangled := NormalizeUtteranceOverlaps(t, segments);
    if untangled.None? {
      return Failure(InvalidTiming, parsed.requestId);
    }
    r := Success(parsed.(segments := untangled.value.segments, readable := if untangled.value.changed then [] else readable));
  }

  /** What is left to the result validator once the timing is repaired: sizes and empty texts. */
  predicate Fits(result: RecognitionResult) {
    && |result.segments| <= MAX_SEGMENTS
    && (forall i :: 0 <= i < |result.segments| ==> result.segments[i].text != "")
    && result.readable.Some?
    && Utf8Length(result.text) + SegmentsBytes(result.segments) + ReadableBytes(result.readable.value) <= MAX_TRANSCRIPT_BYTES
  }

  lemma {:induction false} RepairedTimeline(parsed: Parsed, duration: nat, spans: seq<Span>)
    requires Repairable(parsed, duration) && spans == Trimmed(Clamped(SegmentSpans(parsed.segments), duration))
    ensures Timeline(spans, duration)
  {
    TrimmedIsTimeline(Clamped(SegmentSpans(parsed.segments), duration), duration);
  }

  lemma {:induction false} ClampedTimeline(spans: seq<Span>, duration: nat)
    requires Ordered(spans) && forall i :: 0 <= i < |spans| ==> Acceptable(spans[i], duration)
    ensures Timeline(Clamped(spans, duration), duration)
  {
  }

  lemma {:induction false} ConfidenceKept(segments: seq<Segment>, repaired: seq<Segment>)
    requires forall i :: 0 <= i < |segments| ==> ConfidenceInRange(segments[i].confidence)
    requires AllOpened(segments, |segments|, repaired)
    ensures forall j :: 0 <= j < |repaired| ==> ConfidenceInRange(repaired[j].confidence)
  {
  }

  /** Clamping leaves references, texts and their totals alone. */
  lemma {:induction false} TotalsKept(segments: seq<ReadableSegment>, spans: seq<Span>)
    requires |segments| == |spans|
    ensures References(WithReadableSpans(segments, spans)) == References(segments)
    decreases |segments|
  {
    if segments != [] {
      var last := |segments| - 1;
      TotalsKept(segments[..last], spans[..last]);
      assert WithReadableSpans(segments, spans)[..last] == WithReadableSpans(segments[..last], spans[..last]);
    }
  }

  lemma {:induction false} ReadableStaysValid(before: Parsed, after: Parsed, duration: nat, textBytes: nat)
    requires ReadableWellFormed(before) && Repairable(before, duration)
    requires after.readable == []
             || (after.readable == WithReadableSpans(before.readable, Clamped(ReadableSpans(before.readable), duration))
                 && |after.segments| == |before.segments|)
    ensures |after.readable| <= MAX_SEGMENTS
    ensures ReadableValid(after.readable, duration, |after.segments|, textBytes)
       <==> textBytes + ReadableBytes(after.readable) <= MAX_TRANSCRIPT_BYTES
  {
    hide Clamped, Acceptable;
    if after.readable != [] {
      ClampedTimeline(ReadableSpans(before.readable), duration);
      TotalsKept(before.readable, Clamped(ReadableSpans(before.readable), duration));
    }
  }

  // ---- what the result says of the response ------------------------------------------------------

  /** The utterances' times in milliseconds. */
  function SpokenSpans(utterances: seq<Utterance>): (r: seq<Span>)
    ensures |r| == |utterances|
  {
    seq(|utterances|, i requires 0 <= i < |utterances| => Spoken(utterances[i]))
  }

  function Spoken(u: Utterance): Span {
    if 0.0 <= u.start && 0.0 <= u.end then Span(Rounded(u.start), Rounded(u.end)) else Span(0, 0)
  }

  /** The response has sentences that can stand beside its utterances. */
  predicate HasSentences(space: char -> bool, response: Response) {
    && response.sentences.Some? && response.sentences.value != []
    && Projectable(space, response.sentences.value, response.utterances, response.duration, response.transcript)
  }

  /** Every time fits the recording, and no utterance reaches back more than ten seconds. */
  predicate Timely(space: char -> bool, response: Response, duration: nat) {
    var spans := SpokenSpans(response.utterances);
    && (forall i :: 0 <= i < |spans| ==> Acceptable(spans[i], duration))
    && (forall i :: 0 <= i < |spans| ==> !OverlapsTooFar(Clamped(spans, duration), i))
    && (HasSentences(space, response) ==>
          forall k :: 0 <= k < |response.sentences.value| ==>
            var sentence := response.sentences.value[k];
            0.0 <= sentence.start < sentence.end && Acceptable(Span(Rounded(sentence.start), Rounded(sentence.end)), duration))
  }

  /** The segment has the utterance's words, and, if the utterance opened it, its times, confidence and speaker. */
  ghost predicate Carries(t: Tables, utterances: seq<Utterance>, i: nat, duration: nat, segment: Segment)
    requires i < |utterances|
  {
    var u, spans := utterances[i], Clamped(SpokenSpans(utterances), duration);
    && Retained(t, u.text, segment.text)
    && segment.span.end == FurthestEnd(spans[..i + 1])
    && (AddsTime(spans, i) ==>
          segment.speaker == u.speaker && segment.confidence == if ConfidenceInRange(u.confidence) then u.confidence else None)
  }

  ghost predicate Carried(t: Tables, utterances: seq<Utterance>, i: nat, duration: nat, segments: seq<Segment>)
    requires i < |utterances|
  {
    exists j :: 0 <= j < |segments| && Carries(t, utterances, i, duration, segments[j])
  }

  /** The readable segment is the sentence, within the recording, with exactly the utterances it overlaps. */
  ghost predicate ReadsAs(sentence: Sentence, utterances: seq<Utterance>, duration: nat, readable: ReadableSegment) {
    && readable.text == sentence.text
    && 0.0 <= sentence.start < sentence.end
    && readable.span.start == Rounded(sentence.start) && readable.span.end == Min(Rounded(sentence.end), duration)
    && (forall i :: i in readable.sources <==> 0 <= i < |utterances| && utterances[i].start < sentence.end && sentence.start < utterances[i].end)
  }

  /** The sentences are there exactly if they could be placed and no utterance had to give way. */
  ghost predicate ReadableTells(space: char -> bool, response: Response, duration: nat, readable: seq<ReadableSegment>) {
    if HasSentences(space, response)
       && forall i :: 0 <= i < |response.utterances| ==> !OverlapsEarlier(Clamped(SpokenSpans(response.utterances), duration), i)
    then
      && |readable| == |response.sentences.value|
      && forall k :: 0 <= k < |readable| ==> ReadsAs(response.sentences.value[k], response.utterances, duration, readable[k])
    else readable == []
  }

  lemma {:induction false} ParsedSpans(utterances: seq<Utterance>, segments: seq<Segment>)
    requires Some(segments) == ParseUtterances(utterances)
    ensures SegmentSpans(segments) == SpokenSpans(utterances)
  {
    hide Rounded;
    forall i | 0 <= i < |utterances| ensures segments[i].span == Spoken(utterances[i]) {
      assert Some(segments[i]) == ParseUtterance(utterances[i]);
    }
  }

  lemma {:induction false} UtteranceCarried(t: Tables, before: Parsed, after: Parsed, utterances: seq<Utterance>, duration: nat, i: nat)
    requires Repaired(t, before, duration, after.segments) && i < |utterances|
    requires Some(before.segments) == ParseUtterances(utterances)
    ensures Carried(t, utterances, i, duration, after.segments)
  {
    hide Retained, Trimmed, Clamped, FurthestEnd, ConfidenceInRange, Rounded;
    var segments := WithSpans(before.segments, Clamped(SegmentSpans(before.segments), duration));
    ParsedSpans(utterances, before.segments);
    assert Some(before.segments[i]) == ParseUtterance(utterances[i]);
    assert Held(t, segments, i, after.segments);
    var j :| 0 <= j < |after.segments| && HeldBy(t, segments, i, after.segments[j]);
    assert Carries(t, utterances, i, duration, after.segments[j]);
  }

  lemma {:induction false} RepairableIsTimely(space: char -> bool, response: Response, before: Parsed, duration: nat)
    requires WellFormed(response) && Some(before.segments) == ParseUtterances(response.utterances)
    requires before.readable != [] <==> HasSentences(space, response)
    requires before.readable != [] ==> before.readable == AllReadable(response.sentences.value, response.utterances, response.duration)
    ensures Repairable(before, duration) <==> Timely(space, response, duration)
  {
    hide Rounded, Acceptable, OverlapsTooFar, Clamped, ParseUtterances, SourceIndices, ReferenceCount;
    ParsedSpans(response.utterances, before.segments);
    if before.readable != [] {
      forall k | 0 <= k < |before.readable|
        ensures var sentence := response.sentences.value[k];
                0.0 <= sentence.start < sentence.end
                && ReadableSpans(before.readable)[k] == Span(Rounded(sentence.start), Rounded(sentence.end))
      {
        assert WellFormedSentence(response.sentences.value[k], response.duration);
      }
    }
  }

  lemma {:induction false} ReadableIsTold(space: char -> bool, response: Response, before: Parsed, after: Parsed, duration: nat)
    requires Some(before.segments) == ParseUtterances(response.utterances)
    requires before.readable != [] <==> HasSentences(space, response)
    requires before.readable != [] ==> before.readable == AllReadable(response.sentences.value, response.utterances, response.duration)
    requires after.readable == []
             || after.readable == WithReadableSpans(before.readable, Clamped(ReadableSpans(before.readable), duration))
    requires before.readable != [] ==>
               (after.readable == [] <==>
                  exists i :: 0 <= i < |before.segments| && OverlapsEarlier(Clamped(SegmentSpans(before.segments), duration), i))
    requires before.readable == [] ==> after.readable == []
    ensures ReadableTells(space, response, duration, after.readable)
  {
    hide Rounded, OverlapsEarlier, ParseUtterances, ReferenceCount;
    ParsedSpans(response.utterances, before.segments);
    if after.readable != [] {
      forall k | 0 <= k < |after.readable| ensures ReadsAs(response.sentences.value[k], response.utterances, duration, after.readable[k]) {
        SentenceReads(response, before, duration, k);
      }
    }
  }

  lemma {:induction false} SentenceReads(response: Response, before: Parsed, duration: nat, k: nat)
    requires response.sentences.Some? && TimedSentences(response.sentences.value, response.duration) && k < |response.sentences.value|
    requires before.readable == AllReadable(response.sentences.value, response.utterances, response.duration)
    ensures ReadsAs(response.sentences.value[k], response.utterances, duration,
                    WithReadableSpans(before.readable, Clamped(ReadableSpans(before.readable), duration))[k])
  {
    hide Rounded;
    assert WellFormedSentence(response.sentences.value[k], response.duration);
  }

  function ProjectResult(profile: Profile, duration: nat, parsed: Parsed): RecognitionResult {
    RecognitionResult(profile, parsed.text, duration, Some(parsed.providerDuration), parsed.segments,
                      Some(parsed.readable), parsed.requestId)
  }

  /**
   A recognized response always meets the timing, ordering, confidence and source-reference
   conditions of the result validator: only sizes and empty texts can still refuse it.
   */
  method Recognize(t: Tables, profile: Profile, response: Response, duration: nat) returns (r: Outcome<RecognitionResult>)
    requires t.Lawful() && duration <= U64_MAX
    ensures r.Success? <==> WellFormed(response) && Timely(t.space, response, duration)
    ensures r.Failure? ==> r.reference == response.requestId && (r.code.MalformedResponse? <==> !WellFormed(response))
    ensures r.Success? ==>
              && r.value.text == response.transcript && r.value.providerReference == response.requestId
              && r.value.providerDurationMillis == Some(Rounded(response.duration))
              && SegmentSpans(r.value.segments) == Trimmed(Clamped(SpokenSpans(response.utterances), duration))
              && (forall i :: 0 <= i < |response.utterances| ==> Carried(t, response.utterances, i, duration, r.value.segments))
              && r.value.readable.Some? && ReadableTells(t.space, response, duration, r.value.readable.value)
    ensures r.Success? ==> (ValidResult(profile, duration, r.value) <==> Fits(r.value))
  {
    hide Repairable, Repaired, Projectable, ReadableWellFormed, ValidResult, Fits, Carried, AllReadable, ParseUtterances, Timely;
    hide OverlapsEarlier, Clamped, Trimmed, Rounded, ReadableTells;
    var parsed := ParseResponse(t, response);
    if parsed.Failure? {
      return Failure(parsed.code, parsed.reference);
    }
    RepairableIsTimely(t.space, response, parsed.value, duration);
    var normalized := Normalize(t, parsed.value, duration);
    if normalized.Failure? {
      return Failure(normalized.code, normalized.reference);
    }
    r := Success(ProjectResult(profile, duration, normalized.value));
    ProjectedIsValid(t, profile, parsed.value, normalized.value, response.utterances, duration);
    TimesTold(t, parsed.value, normalized.value, response.utterances, duration);
    ReadableIsTold(t.space, response, parsed.value, normalized.value, duration);
    forall i | 0 <= i < |response.utterances| ensures Carried(t, response.utterances, i, duration, r.value.segments) {
      UtteranceCarried(t, parsed.value, normalized.value, response.utterances, duration, i);
    }
  }

  lemma {:induction false} TimesTold(t: Tables, before: Parsed, after: Parsed, utterances: seq<Utterance>, duration: nat)
    requires Repaired(t, before, duration, after.segments) && Some(before.segments) == ParseUtterances(utterances)
    ensures SegmentSpans(after.segments) == Trimmed(Clamped(SpokenSpans(utterances), duration))
  {
    hide Trimmed, Clamped;
    ParsedSpans(utterances, before.segments);
  }

  lemma {:induction false} ProjectedIsValid(t: Tables, profile: Profile, before: Parsed, after: Parsed, utterances: seq<Utterance>, duration: nat)
    requires Repairable(before, duration) && Repaired(t, before, duration, after.segments) && ReadableWellFormed(before)
    requires after.readable == []
             || (after.readable == WithReadableSpans(before.readable, Clamped(ReadableSpans(before.readable), duration))
                 && |after.segments| == |before.segments|)
    requires Some(before.segments) == ParseUtterances(utterances)
    ensures var result := ProjectResult(profile, duration, after); ValidResult(profile, duration, result) <==> Fits(result)
  {
    hide Repairable, Repaired, ReadableWellFormed, ReadableValid, Timeline, ConfidenceInRange, ParseUtterances;
    RepairedIsValid(t, before, after, utterances, duration);
    ReadableStaysValid(before, after, duration, Utf8Length(after.text) + SegmentsBytes(after.segments));
  }

  lemma {:induction false} RepairedIsValid(t: Tables, before: Parsed, after: Parsed, utterances: seq<Utterance>, duration: nat)
    requires Repairable(before, duration) && Repaired(t, before, duration, after.segments)
    requires Some(before.segments) == ParseUtterances(utterances)
    ensures Timeline(SegmentSpans(after.segments), duration)
    ensures forall j :: 0 <= j < |after.segments| ==> ConfidenceInRange(after.segments[j].confidence)
  {
    hide Repairable, AllHeld, AllOpened, Trimmed, Clamped, Timeline;
    RepairedTimeline(before, duration, SegmentSpans(after.segments));
    var spans := Clamped(SegmentSpans(before.segments), duration);
    forall i | 0 <= i < |before.segments| ensures ConfidenceInRange(before.segments[i].confidence) {
      assert Some(before.segments[i]) == ParseUtterance(utterances[i]);
    }
    ConfidenceKept(WithSpans(before.segments, spans), after.segments);
  }
}
