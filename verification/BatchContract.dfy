/**
 The public batch response: what the server may emit
 (crates/voicetext-gateway/src/contracts/batch_outbound.rs and batch_projection.rs) and what a client
 accepts (crates/voicetext-gateway/src/contracts/batch.rs).

 JSON text is outside the model: a body is the object it denotes, and `size` tells how many bytes
 its text has. Seconds are exact thousandths. White space is a table.
 */
module BatchContract {
  import opened Base
  import opened Spans
  import opened LiveText
  import opened BatchDomain
  import opened BatchResults
  import opened Keyterms

  const MAX_ERROR_CODE_CHARS: nat := 128
  const MAX_PROVIDER_REQUEST_ID_CHARS: nat := 256
  const MAX_TRANSCRIPT_CHARS: nat := 1_000_000
  const MAX_RETRY_AFTER_MS: nat := 3_600_000
  const MAX_SAFE_INTEGER: nat := 9_007_199_254_740_991
  const MAX_BODY_BYTES: nat := 2 * 1_024 * 1_024

  /** The two frozen profiles. */
  datatype Contract = DeepgramV2 | ElevenLabsV3 {
    function Version(): nat { if DeepgramV2? then 2 else 3 }

    function Provider(): string { if DeepgramV2? then "deepgram" else "elevenlabs" }

    function Model(): string { if DeepgramV2? then "nova-3" else "scribe_v2" }

    function Language(): string { "multi" }
  }

  function ContractOf(profile: Profile): Option<Contract> {
    if profile == Profile(2, "deepgram", "nova-3", "multi") then Some(DeepgramV2)
    else if profile == Profile(3, "elevenlabs", "scribe_v2", "multi") then Some(ElevenLabsV3)
    else None
  }

  datatype HttpStatus = AcceptedStatus | OkStatus

  datatype NextAction = Poll | Retry

  datatype Wire = Wire(alphabet: Alphabet, size: Body -> nat) {
    /** The bodies the server emits without a transcript have only bounded fields and fit. */
    ghost predicate Lawful() {
      forall c: Contract, response: Outbound :: !response.Success? && ResponseOk(this, c, response) ==>
        size(BodyOf(c, response)) <= MAX_BODY_BYTES
    }

    predicate Blank(text: string) { Trim(alphabet, text) == "" }
  }

  // ---- the server's side -------------------------------------------------------------------------

  datatype Transcription = Transcription(
    text: string,
    durationMillis: nat,
    segments: seq<Segment>,
    readable: seq<ReadableSegment>,
    providerRequestId: Option<string>)

  datatype Outbound =
    | Pending(id: JobId, nextAction: NextAction, retryAfterMillis: nat)
    | Failure(id: JobId, errorCode: string)
    | Success(id: JobId, transcription: Transcription)

  function WithoutSpeakers(segments: seq<Segment>): (r: seq<Segment>)
    ensures |r| == |segments| && SegmentSpans(r) == SegmentSpans(segments)
  {
    seq(|segments|, i requires 0 <= i < |segments| => segments[i].(speaker := None))
  }

  /** The one projection used before a result is stored and when it is served. */
  function CompletedResponse(c: Contract, id: JobId, result: RecognitionResult): Outbound {
    Success(id, Transcription(
      result.text, result.durationMillis, WithoutSpeakers(result.segments),
      if result.readable.Some? then result.readable.value else [],
      if c.ElevenLabsV3? then result.providerReference else None))
  }

  predicate CodeCharacter(c: char) {
    'A' <= c <= 'Z' || '0' <= c <= '9' || c == '_'
  }

  predicate ErrorCodeOk(code: string) {
    code != "" && |Utf16(code)| <= MAX_ERROR_CODE_CHARS && forall i :: 0 <= i < |code| ==> CodeCharacter(code[i])
  }

  predicate ProviderRequestOk(id: Option<string>) {
    id.Some? ==>
      && id.value != "" && |Utf16(id.value)| <= MAX_PROVIDER_REQUEST_ID_CHARS
      && forall i :: 0 <= i < |id.value| ==> ' ' <= id.value[i] <= '~'
  }

  predicate TextOk(wire: Wire, text: string, allowEmpty: bool) {
    |Utf16(text)| <= MAX_TRANSCRIPT_CHARS && (allowEmpty || !wire.Blank(text))
  }

  predicate SegmentOk(wire: Wire, segment: Segment) {
    TextOk(wire, segment.text, false) && ConfidenceInRange(segment.confidence)
  }

  predicate OutboundSegmentsOk(wire: Wire, segments: seq<Segment>, duration: nat) {
    Timeline(SegmentSpans(segments), duration) && forall i :: 0 <= i < |segments| ==> SegmentOk(wire, segments[i])
  }

  function Characters(segments: seq<ReadableSegment>): nat {
    if segments == [] then 0 else Characters(segments[..|segments| - 1]) + |Utf16(segments[|segments| - 1].text)|
  }

  predicate ReadableOk(wire: Wire, segment: ReadableSegment, duration: nat, count: nat) {
    && segment.span.start < segment.span.end <= duration
    && !wire.Blank(segment.text) && SourcesValid(segment.sources, count)
  }

  predicate OutboundReadableOk(wire: Wire, segments: seq<ReadableSegment>, duration: nat, count: nat) {
    && |segments| <= MAX_SEGMENTS
    && (forall i :: 0 <= i < |segments| ==> ReadableOk(wire, segments[i], duration, count))
    && References(segments) <= MAX_READABLE_REFERENCES && Characters(segments) <= MAX_TRANSCRIPT_CHARS
  }

  predicate ProfileFieldsOk(wire: Wire, c: Contract, t: Transcription) {
    if c.ElevenLabsV3? then
      && (t.text == "" <==> t.segments == [])
      && (t.text == "" || !wire.Blank(t.text))
      && t.readable == []
    else t.providerRequestId.None?
  }

  predicate TranscriptionOk(wire: Wire, c: Contract, t: Transcription) {
    && t.durationMillis <= MAX_SAFE_INTEGER
    && TextOk(wire, t.text, true)
    && |t.segments| <= MAX_SEGMENTS
    && ProfileFieldsOk(wire, c, t)
    && OutboundSegmentsOk(wire, t.segments, t.durationMillis)
    && ProviderRequestOk(t.providerRequestId)
    && OutboundReadableOk(wire, t.readable, t.durationMillis, |t.segments|)
  }

  lemma {:induction false} CharactersStep(segments: seq<ReadableSegment>, n: nat)
    requires n < |segments|
    ensures Characters(segments[..n + 1]) == Characters(segments[..n]) + |Utf16(segments[n].text)|
    ensures References(segments[..n + 1]) == References(segments[..n]) + |segments[n].sources|
  {
    assert segments[..n + 1][..n] == segments[..n];
  }

  lemma {:induction false} OutboundPrefix(wire: Wire, segments: seq<Segment>, duration: nat, n: nat)
    requires n <= |segments|
    ensures OutboundSegmentsOk(wire, segments, duration) ==> OutboundSegmentsOk(wire, segments[..n], duration)
  {
    hide SegmentOk;
    assert SegmentSpans(segments[..n]) == SegmentSpans(segments)[..n];
  }

  /** The outbound scan over segments decides the condition on the whole list. */
  method CheckOutboundSegments(wire: Wire, segments: seq<Segment>, duration: nat) returns (ok: bool)
    ensures ok <==> OutboundSegmentsOk(wire, segments, duration)
  {
    hide SegmentOk;
    var previousEnd := 0;
    for i := 0 to |segments|
      invariant OutboundSegmentsOk(wire, segments[..i], duration)
      invariant previousEnd == LastEnd(SegmentSpans(segments[..i]))
    {
      SegmentsStep(segments, i);
      OutboundPrefix(wire, segments, duration, i + 1);
      ExtendTimeline(SegmentSpans(segments[..i]), segments[i].span, duration);
      if !Extends(previousEnd, segments[i].span, duration) || !SegmentOk(wire, segments[i]) {
        return false;
      }
      previousEnd := segments[i].span.end;
    }
    assert segments[..|segments|] == segments;
    ok := true;
  }

  method CheckOutboundReadable(wire: Wire, segments: seq<ReadableSegment>, duration: nat, count: nat) returns (ok: bool)
    ensures ok <==> OutboundReadableOk(wire, segments, duration, count)
  {
    hide SourcesValid, Timeline;
    if |segments| > MAX_SEGMENTS {
      return false;
    }
    var references, characters := 0, 0;
    for i := 0 to |segments|
      invariant forall k :: 0 <= k < i ==> ReadableOk(wire, segments[k], duration, count)
      invariant references == References(segments[..i]) && characters == Characters(segments[..i])
    {
      var segment := segments[i];
      if segment.span.end <= segment.span.start || segment.span.end > duration || wire.Blank(segment.text) {
        return false;
      }
      var sourced := CheckSources(segment.sources, count);
      if !sourced {
        return false;
      }
      CharactersStep(segments, i);
      references := references + |segment.sources|;
      characters := characters + |Utf16(segment.text)|;
    }
    assert segments[..|segments|] == segments;
    ok := references <= MAX_READABLE_REFERENCES && characters <= MAX_TRANSCRIPT_CHARS;
  }

  /** The outbound validator decides exactly which transcriptions may be emitted. */
  method CheckTranscription(wire: Wire, c: Contract, t: Transcription) returns (ok: bool)
    ensures ok <==> TranscriptionOk(wire, c, t)
  {
    hide OutboundSegmentsOk, OutboundReadableOk, ProfileFieldsOk, ProviderRequestOk;
    if t.durationMillis > MAX_SAFE_INTEGER || |Utf16(t.text)| > MAX_TRANSCRIPT_CHARS || |t.segments| > MAX_SEGMENTS {
      return false;
    }
    if !ProfileFieldsOk(wire, c, t) {
      return false;
    }
    ok := CheckOutboundSegments(wire, t.segments, t.durationMillis);
    if !ok || !ProviderRequestOk(t.providerRequestId) {
      return false;
    }
    ok := CheckOutboundReadable(wire, t.readable, t.durationMillis, |t.segments|);
  }

  // ---- bodies ------------------------------------------------------------------------------------

  datatype UtteranceBody = UtteranceBody(start: real, end: real, transcript: string, confidence: Option<real>)

  datatype ReadableBody = ReadableBody(start: real, end: real, transcript: string, sources: seq<nat>)

  datatype SegmentBody = SegmentBody(index: nat, startMillis: nat, endMillis: nat, text: string, confidence: Option<real>)

  datatype ResultV2 = ResultV2(
    provider: string, model: string, language: string, text: string, durationSeconds: real,
    utterances: seq<UtteranceBody>, readable: seq<ReadableBody>)

  datatype ResultV3 = ResultV3(
    resultId: JobId, provider: string, model: string, language: string, text: string, durationMillis: nat,
    segments: seq<SegmentBody>, providerRequest: Option<string>)

  /** The objects on the wire; absent fields are None. */
  datatype Body =
    | PendingV2(success: bool, status: string, id: JobId, nextAction: NextAction, retryAfterMillis: nat)
    | FinalV2(success: bool, status: string, id: JobId, retryable: Option<bool>, errorCode: Option<string>, resultV2: Option<ResultV2>)
    | EnvelopeV3(
        version: nat, provider: string, model: string, language: string, success: bool, status: string, id: JobId,
        next: Option<NextAction>, retryAfter: Option<nat>, retryable: Option<bool>, errorCode: Option<string>, resultV3: Option<ResultV3>)

  function Thousandths(millis: nat): real {
    millis as real / 1000.0
  }

  function UtterancesOf(segments: seq<Segment>): (r: seq<UtteranceBody>)
    ensures |r| == |segments|
  {
    seq(|segments|, i requires 0 <= i < |segments| =>
      UtteranceBody(Thousandths(segments[i].span.start), Thousandths(segments[i].span.end), segments[i].text, segments[i].confidence))
  }

  function ReadablesOf(segments: seq<ReadableSegment>): (r: seq<ReadableBody>)
    ensures |r| == |segments|
  {
    seq(|segments|, i requires 0 <= i < |segments| =>
      ReadableBody(Thousandths(segments[i].span.start), Thousandths(segments[i].span.end), segments[i].text, segments[i].sources))
  }

  function SegmentBodies(segments: seq<Segment>): (r: seq<SegmentBody>)
    ensures |r| == |segments|
  {
    seq(|segments|, i requires 0 <= i < |segments| =>
      SegmentBody(i, segments[i].span.start, segments[i].span.end, segments[i].text, segments[i].confidence))
  }

  function ResponseOk(wire: Wire, c: Contract, response: Outbound): bool {
    match response
    case Pending(_, _, retryAfterMillis) => retryAfterMillis <= MAX_RETRY_AFTER_MS
    case Failure(_, code) => ErrorCodeOk(code)
    case Success(_, t) => TranscriptionOk(wire, c, t)
  }

  function BodyOf(c: Contract, response: Outbound): Body {
    match response
    case Pending(id, next, retryAfter) =>
      if c.DeepgramV2? then PendingV2(true, "running", id, next, retryAfter)
      else EnvelopeV3(c.Version(), c.Provider(), c.Model(), c.Language(), true, "running", id, Some(next), Some(retryAfter), None, None, None)
    case Failure(id, code) =>
      if c.DeepgramV2? then FinalV2(false, "failed", id, Some(false), Some(code), None)
      else EnvelopeV3(c.Version(), c.Provider(), c.Model(), c.Language(), false, "failed", id, None, None, Some(false), Some(code), None)
    case Success(id, t) =>
      if c.DeepgramV2? then
        FinalV2(true, "completed", id, None, None,
                Some(ResultV2(c.Provider(), c.Model(), c.Language(), t.text, Thousandths(t.durationMillis),
                              UtterancesOf(t.segments), ReadablesOf(t.readable))))
      else
        EnvelopeV3(c.Version(), c.Provider(), c.Model(), c.Language(), true, "completed", id, None, None, None, None,
                   Some(ResultV3(id, c.Provider(), c.Model(), c.Language(), t.text, t.durationMillis,
                                 SegmentBodies(t.segments), t.providerRequestId)))
  }

  datatype Served = Served(status: HttpStatus, body: Body)

  function Serialize(wire: Wire, c: Contract, response: Outbound): Option<Served> {
    if !ResponseOk(wire, c, response) || wire.size(BodyOf(c, response)) > MAX_BODY_BYTES then None
    else Some(Served(if response.Pending? then AcceptedStatus else OkStatus, BodyOf(c, response)))
  }

  // ---- the client's side -------------------------------------------------------------------------

  datatype ClientTranscription = ClientTranscription(
    durationSeconds: real,
    utterances: seq<UtteranceBody>,
    readable: seq<ReadableBody>,
    providerRequestId: Option<string>)

  datatype TaskResult =
    | TaskPending(id: JobId, nextAction: NextAction, retryAfterMillis: nat)
    | TaskFailed(id: JobId, errorCode: string)
    | TaskCompleted(id: JobId, transcription: ClientTranscription)

  predicate UtteranceAccepted(wire: Wire, u: UtteranceBody) {
    0.0 <= u.start <= u.end && TextOk(wire, u.transcript, true) && ConfidenceInRange(u.confidence)
  }

  function BodyReferences(segments: seq<ReadableBody>): nat {
    if segments == [] then 0 else BodyReferences(segments[..|segments| - 1]) + |segments[|segments| - 1].sources|
  }

  function BodyCharacters(segments: seq<ReadableBody>): nat {
    if segments == [] then 0 else BodyCharacters(segments[..|segments| - 1]) + |Utf16(segments[|segments| - 1].transcript)|
  }

  predicate ReadableAccepted(wire: Wire, segments: seq<ReadableBody>, duration: real, count: nat) {
    && |segments| <= MAX_SEGMENTS
    && (forall i :: 0 <= i < |segments| ==>
          && TextOk(wire, segments[i].transcript, false)
          && 0.0 <= segments[i].start < segments[i].end <= duration
          && SourcesValid(segments[i].sources, count))
    && BodyReferences(segments) <= MAX_READABLE_REFERENCES && BodyCharacters(segments) <= MAX_TRANSCRIPT_CHARS
  }

  function ParseResultV2(wire: Wire, c: Contract, result: ResultV2): Option<ClientTranscription> {
    if || result.provider != c.Provider() || result.model != c.Model() || result.language != c.Language()
       || !TextOk(wire, result.text, true) || result.durationSeconds < 0.0 || |result.utterances| > MAX_SEGMENTS
       || !(forall i :: 0 <= i < |result.utterances| ==> UtteranceAccepted(wire, result.utterances[i]))
       || !ReadableAccepted(wire, result.readable, result.durationSeconds, |result.utterances|)
    then None
    else Some(ClientTranscription(result.durationSeconds, result.utterances, result.readable, None))
  }

  predicate SegmentBodyOk(wire: Wire, segment: SegmentBody) {
    TextOk(wire, segment.text, false) && ConfidenceInRange(segment.confidence)
  }

  function BodySpans(segments: seq<SegmentBody>): (r: seq<Span>) {
    seq(|segments|, i requires 0 <= i < |segments| => Span(segments[i].startMillis, segments[i].endMillis))
  }

  predicate SegmentsAccepted(wire: Wire, segments: seq<SegmentBody>, duration: nat) {
    && Timeline(BodySpans(segments), duration)
    && forall i :: 0 <= i < |segments| ==> segments[i].index == i && SegmentBodyOk(wire, segments[i])
  }

  function ClientUtterances(segments: seq<SegmentBody>): (r: seq<UtteranceBody>)
    ensures |r| == |segments|
  {
    seq(|segments|, i requires 0 <= i < |segments| =>
      UtteranceBody(Thousandths(segments[i].startMillis), Thousandths(segments[i].endMillis), segments[i].text, segments[i].confidence))
  }

  lemma {:induction false} BodyStep(segments: seq<SegmentBody>, n: nat)
    requires n < |segments|
    ensures BodySpans(segments[..n + 1]) == BodySpans(segments[..n]) + [Span(segments[n].startMillis, segments[n].endMillis)]
    ensures LastEnd(BodySpans(segments[..n + 1])) == segments[n].endMillis
    ensures ClientUtterances(segments[..n + 1]) == ClientUtterances(segments[..n]) + [ClientUtterances(segments)[n]]
  {
  }

  lemma {:induction false} AcceptedPrefix(wire: Wire, segments: seq<SegmentBody>, duration: nat, n: nat)
    requires n <= |segments|
    ensures SegmentsAccepted(wire, segments, duration) ==> SegmentsAccepted(wire, segments[..n], duration)
  {
    hide SegmentBodyOk;
    assert BodySpans(segments[..n]) == BodySpans(segments)[..n];
  }

  /** The client's scan over version 3 segments. */
  method AcceptSegments(wire: Wire, segments: seq<SegmentBody>, duration: nat) returns (r: Option<seq<UtteranceBody>>)
    ensures r == if SegmentsAccepted(wire, segments, duration) then Some(ClientUtterances(segments)) else None
  {
    hide SegmentBodyOk;
    var previousEnd, utterances: seq<UtteranceBody> := 0, [];
    for i := 0 to |segments|
      invariant SegmentsAccepted(wire, segments[..i], duration)
      invariant previousEnd == LastEnd(BodySpans(segments[..i]))
      invariant utterances == ClientUtterances(segments[..i])
    {
      var segment := segments[i];
      var span := Span(segment.startMillis, segment.endMillis);
      BodyStep(segments, i);
      AcceptedPrefix(wire, segments, duration, i + 1);
      ExtendTimeline(BodySpans(segments[..i]), span, duration);
      if segment.index != i || !Extends(previousEnd, span, duration) || !SegmentBodyOk(wire, segment) {
        return None;
      }
      previousEnd := segment.endMillis;
      utterances := utterances + [UtteranceBody(Thousandths(segment.startMillis), Thousandths(segment.endMillis), segment.text, segment.confidence)];
    }
    assert segments[..|segments|] == segments;
    r := Some(utterances);
  }

  function ParseResultV3(wire: Wire, c: Contract, result: ResultV3): Option<ClientTranscription> {
    if || result.provider != c.Provider() || result.model != c.Model() || result.language != c.Language()
       || !TextOk(wire, result.text, true) || (result.text != "" && wire.Blank(result.text))
       || result.durationMillis > MAX_SAFE_INTEGER || |result.segments| > MAX_SEGMENTS
       || (result.text == "") != (result.segments == [])
       || !SegmentsAccepted(wire, result.segments, result.durationMillis)
       || !ProviderRequestOk(result.providerRequest)
    then None
    else Some(ClientTranscription(Thousandths(result.durationMillis), ClientUtterances(result.segments), [], result.providerRequest))
  }

  function ParseV2(wire: Wire, c: Contract, served: Served): Option<TaskResult> {
    var body := served.body;
    if served.status.AcceptedStatus? then
      if body.PendingV2? && body.success && body.status == "running" && body.retryAfterMillis <= MAX_RETRY_AFTER_MS
      then Some(TaskPending(body.id, body.nextAction, body.retryAfterMillis)) else None
    else if !body.FinalV2? then None
    else if !body.success && body.status == "failed" && body.retryable == Some(false) then
      if body.errorCode.Some? && body.resultV2.None? && ErrorCodeOk(body.errorCode.value)
      then Some(TaskFailed(body.id, body.errorCode.value)) else None
    else if body.success && body.status == "completed" && body.retryable.None? && body.errorCode.None? && body.resultV2.Some? then
      var t := ParseResultV2(wire, c, body.resultV2.value);
      if t.None? then None else Some(TaskCompleted(body.id, t.value))
    else None
  }

  function ParseV3(wire: Wire, c: Contract, served: Served): Option<TaskResult> {
    var body := served.body;
    if || !body.EnvelopeV3? || body.version != c.Version()
       || body.provider != c.Provider() || body.model != c.Model() || body.language != c.Language()
    then None
    else if served.status.AcceptedStatus? then
      if && body.success && body.status == "running" && body.retryable.None? && body.errorCode.None? && body.resultV3.None?
         && body.retryAfter.Some? && body.retryAfter.value <= MAX_RETRY_AFTER_MS && body.next.Some?
      then Some(TaskPending(body.id, body.next.value, body.retryAfter.value)) else None
    else if body.next.Some? || body.retryAfter.Some? then None
    else if !body.success && body.status == "failed" && body.retryable == Some(false) then
      if body.resultV3.None? && body.errorCode.Some? && ErrorCodeOk(body.errorCode.value)
      then Some(TaskFailed(body.id, body.errorCode.value)) else None
    else if && body.success && body.status == "completed" && body.retryable.None? && body.errorCode.None?
            && body.resultV3.Some? && body.resultV3.value.resultId == body.id then
      var t := ParseResultV3(wire, c, body.resultV3.value);
      if t.None? then None else Some(TaskCompleted(body.id, t.value))
    else None
  }

  function Parse(wire: Wire, c: Contract, served: Served): Option<TaskResult> {
    if wire.size(served.body) > MAX_BODY_BYTES then None
    else if c.DeepgramV2? then ParseV2(wire, c, served)
    else ParseV3(wire, c, served)
  }

  // ---- everything emitted is understood ------------------------------------------------------------

  /** What a client should learn from a response. */
  function Meaning(response: Outbound): TaskResult {
    match response
    case Pending(id, next, retryAfter) => TaskPending(id, next, retryAfter)
    case Failure(id, code) => TaskFailed(id, code)
    case Success(id, t) =>
      TaskCompleted(id, ClientTranscription(Thousandths(t.durationMillis), UtterancesOf(t.segments), ReadablesOf(t.readable), t.providerRequestId))
  }

  lemma {:induction false} TotalsCarryOver(segments: seq<ReadableSegment>)
    ensures BodyReferences(ReadablesOf(segments)) == References(segments)
    ensures BodyCharacters(ReadablesOf(segments)) == Characters(segments)
    decreases |segments|
  {
    if segments != [] {
      var n := |segments| - 1;
      TotalsCarryOver(segments[..n]);
      assert ReadablesOf(segments)[..n] == ReadablesOf(segments[..n]);
    }
  }

  lemma {:induction false} OneText(segments: seq<ReadableSegment>, i: nat)
    requires i < |segments|
    ensures |Utf16(segments[i].text)| <= Characters(segments)
    decreases |segments|
  {
    if i < |segments| - 1 {
      OneText(segments[..|segments| - 1], i);
    }
  }

  lemma {:induction false} ReadableUnderstood(wire: Wire, segments: seq<ReadableSegment>, duration: nat, count: nat)
    requires OutboundReadableOk(wire, segments, duration, count)
    ensures ReadableAccepted(wire, ReadablesOf(segments), Thousandths(duration), count)
  {
    hide Utf16, SourcesValid;
    TotalsCarryOver(segments);
    forall i | 0 <= i < |segments|
      ensures TextOk(wire, segments[i].text, false) && SourcesValid(segments[i].sources, count)
      ensures 0.0 <= Thousandths(segments[i].span.start) < Thousandths(segments[i].span.end) <= Thousandths(duration)
    {
      assert ReadableOk(wire, segments[i], duration, count);
      OneText(segments, i);
    }
  }

  lemma {:induction false} ResultV2Understood(wire: Wire, c: Contract, id: JobId, t: Transcription)
    requires c.DeepgramV2? && TranscriptionOk(wire, c, t)
    ensures ParseResultV2(wire, c, BodyOf(c, Success(id, t)).resultV2.value) == Some(Meaning(Success(id, t)).transcription)
  {
    hide Utf16, ReadableAccepted, OutboundReadableOk, Timeline;
    ReadableUnderstood(wire, t.readable, t.durationMillis, |t.segments|);
    var utterances := UtterancesOf(t.segments);
    forall i | 0 <= i < |utterances| ensures UtteranceAccepted(wire, utterances[i]) {
      assert SegmentOk(wire, t.segments[i]);
      Ascends(t.segments, t.durationMillis, i);
    }
  }

  lemma {:induction false} Ascends(segments: seq<Segment>, duration: nat, i: nat)
    requires i < |segments| && Timeline(SegmentSpans(segments), duration)
    ensures segments[i].span.start < segments[i].span.end
  {
    assert SegmentSpans(segments)[i] == segments[i].span;
  }

  lemma {:induction false} ResultV3Understood(wire: Wire, c: Contract, id: JobId, t: Transcription)
    requires c.ElevenLabsV3? && TranscriptionOk(wire, c, t)
    ensures ParseResultV3(wire, c, BodyOf(c, Success(id, t)).resultV3.value) == Some(Meaning(Success(id, t)).transcription)
  {
    hide Utf16, Timeline, ProviderRequestOk;
    var bodies := SegmentBodies(t.segments);
    assert BodySpans(bodies) == SegmentSpans(t.segments);
    assert ClientUtterances(bodies) == UtterancesOf(t.segments);
    forall i | 0 <= i < |bodies| ensures SegmentBodyOk(wire, bodies[i]) {
      assert SegmentOk(wire, t.segments[i]);
    }
    assert ReadablesOf(t.readable) == [];
  }

  /** The client accepts every response the server emits and learns exactly what it means. */
  lemma {:induction false} EmittedIsUnderstood(wire: Wire, c: Contract, response: Outbound)
    requires Serialize(wire, c, response).Some?
    ensures Parse(wire, c, Serialize(wire, c, response).value) == Some(Meaning(response))
  {
    hide TranscriptionOk, ParseResultV2, ParseResultV3, UtterancesOf, ReadablesOf, SegmentBodies;
    match response
    case Success(id, t) =>
      if c.DeepgramV2? {
        ResultV2Understood(wire, c, id, t);
      } else {
        ResultV3Understood(wire, c, id, t);
      }
    case Pending(_, _, _) =>
    case Failure(_, _) =>
  }
}
