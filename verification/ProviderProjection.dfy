/**
 Which paid recognitions end as completed jobs: a result is stored as completed exactly if it passes
 the result validator and the public projection (`apply_recognition_outcome` in
 crates/voicetext-speech/src/application/batch_models.rs). The two were written apart from each other
 and from the providers; here is what lies between them.
 */
module ProviderProjection {
  import opened Base
  import opened Spans
  import opened LiveText
  import opened BatchDomain
  import opened BatchResults
  import opened BatchContract
  import opened BatchServing
  import opened BatchLedger
  import opened BatchProtocol
  import opened BatchInvariant
  import opened BatchOutcomes
  import opened Keyterms
  import Merge = WordMerge
  import Deepgram = DeepgramBatch
  import ElevenLabs = ElevenLabsBatch
  import Seconds
  import T = BatchTheorems
  import WordGroups

  const DEEPGRAM: Profile := Profile(2, "deepgram", "nova-3", "multi")
  const ELEVENLABS: Profile := Profile(3, "elevenlabs", "scribe_v2", "multi")

  /** What the coordinator asks of a result before it stores the job as completed. */
  predicate Completes(wire: Wire, id: JobId, profile: Profile, duration: nat, result: RecognitionResult) {
    ValidResult(profile, duration, result) && ProjectionAccepts(wire, id, result)
  }

  /** A recognition recorded from a claim that is still the ledger's row completes the job exactly if it does, with that result. */
  lemma {:induction false} RecordedCompletesIff(env: Env, wire: Wire, w: World, p: nat, fault: Fault)
    requires Inv(env, w) && WorkerAt(w, p).Answered? && WorkerAt(w, p).answer.Recognized? && !fault.BeforeCommit?
    requires WorkerAt(w, p).id in w.ledger && w.ledger[WorkerAt(w, p).id] == WorkerAt(w, p).row
    requires forall job, result :: env.projects(job, result) == ProjectionAccepts(wire, job, result)
    ensures var Answered(id, row, answer) := WorkerAt(w, p);
            var next := Apply(env, w, Record(p, fault)).ledger;
            && id in next
            && (next[id].state.Completed? <==> Completes(wire, id, row.identity.profile, row.identity.durationMillis, answer.result))
            && next[id].result == (if next[id].state.Completed? then Some(answer.result) else None)
            && (!next[id].state.Completed? ==> next[id].state.Failed?)
  {
    hide Apply, ValidResult, ProjectionAccepts;
    RecordTells(env, w, p, fault);
    StepRows(env, w, p, fault);
  }

  lemma {:induction false} StepRows(env: Env, w: World, p: nat, fault: Fault)
    requires Inv(env, w)
    ensures forall id :: id in Apply(env, w, Record(p, fault)).ledger ==>
              (Apply(env, w, Record(p, fault)).ledger[id].result.Some? <==> Apply(env, w, Record(p, fault)).ledger[id].state.Completed?)
  {
    hide Apply, HistoryOk, VerdictsOk, WorkersOk, HeldOnce, ValidResult;
    T.StepKeeps(env, w, Record(p, fault));
    assert forall id :: id in Apply(env, w, Record(p, fault)).ledger ==> RowOk(id, Apply(env, w, Record(p, fault)).ledger[id]);
  }

  predicate BodyFits(wire: Wire, c: Contract, id: JobId, result: RecognitionResult) {
    wire.size(BodyOf(c, CompletedResponse(c, id, result))) <= MAX_BODY_BYTES
  }

  /** Bounds on texts and durations that the public response has and the result validator has not. */
  predicate TextsShown(wire: Wire, result: RecognitionResult) {
    && result.durationMillis <= MAX_SAFE_INTEGER
    && |Utf16(result.text)| <= MAX_TRANSCRIPT_CHARS
    && forall i :: 0 <= i < |result.segments| ==> TextOk(wire, result.segments[i].text, false)
  }

  predicate NoneBlank(wire: Wire, readable: seq<ReadableSegment>) {
    forall i :: 0 <= i < |readable| ==> !wire.Blank(readable[i].text)
  }

  /** What keeps a valid version 2 result from being shown: blank or overlong texts, a huge duration, a huge body. */
  predicate ShownV2(wire: Wire, id: JobId, result: RecognitionResult) {
    var readable := if result.readable.Some? then result.readable.value else [];
    && TextsShown(wire, result)
    && NoneBlank(wire, readable)
    && Characters(readable) <= MAX_TRANSCRIPT_CHARS
    && BodyFits(wire, DeepgramV2, id, result)
  }

  /** For version 3 also text without segments or the reverse, readable segments and the provider's own id. */
  predicate ShownV3(wire: Wire, id: JobId, result: RecognitionResult) {
    && TextsShown(wire, result)
    && (result.text == "" <==> result.segments == []) && (result.text == "" || !wire.Blank(result.text))
    && (result.readable.Some? ==> result.readable.value == [])
    && ProviderRequestOk(result.providerReference)
    && BodyFits(wire, ElevenLabsV3, id, result)
  }

  lemma {:induction false} SegmentsShown(wire: Wire, result: RecognitionResult, duration: nat, textBytes: nat)
    requires SegmentsValid(result.segments, duration, textBytes)
    ensures OutboundSegmentsOk(wire, WithoutSpeakers(result.segments), duration)
       <==> forall i :: 0 <= i < |result.segments| ==> TextOk(wire, result.segments[i].text, false)
  {
    hide TextOk, SegmentsBytes, Timeline;
    var shown := WithoutSpeakers(result.segments);
    forall i | 0 <= i < |shown|
      ensures shown[i].text == result.segments[i].text
      ensures SegmentOk(wire, shown[i]) <==> TextOk(wire, result.segments[i].text, false)
    {
    }
    if OutboundSegmentsOk(wire, shown, duration) {
      forall i | 0 <= i < |result.segments| ensures TextOk(wire, result.segments[i].text, false) {
        assert SegmentOk(wire, shown[i]);
      }
    }
  }

  lemma {:induction false} ReadableShown(wire: Wire, readable: seq<ReadableSegment>, duration: nat, count: nat, textBytes: nat)
    requires ReadableValid(readable, duration, count, textBytes) && |readable| <= MAX_SEGMENTS
    ensures OutboundReadableOk(wire, readable, duration, count)
       <==> NoneBlank(wire, readable) && Characters(readable) <= MAX_TRANSCRIPT_CHARS
  {
    hide SourcesValid, ReadableBytes, References, Characters;
    forall i | 0 <= i < |readable|
      ensures ReadableOk(wire, readable[i], duration, count) <==> !wire.Blank(readable[i].text)
    {
      assert ReadableSpans(readable)[i] == readable[i].span;
    }
  }

  /** A valid result of the frozen version 2 profile is projectable exactly if it can be shown. */
  lemma {:induction false} ValidV2ProjectsIff(wire: Wire, id: JobId, duration: nat, result: RecognitionResult)
    requires ValidResult(DEEPGRAM, duration, result)
    ensures ProjectionAccepts(wire, id, result) <==> ShownV2(wire, id, result)
  {
    hide SegmentsValid, ReadableValid, OutboundSegmentsOk, OutboundReadableOk, TextOk, Utf16, BodyOf, NoneBlank, Characters;
    SegmentsShown(wire, result, duration, Utf8Length(result.text));
    if result.readable.Some? {
      ReadableShown(wire, result.readable.value, duration, |result.segments|,
                    Utf8Length(result.text) + SegmentsBytes(result.segments));
    } else {
      NothingReadable(wire, duration, |result.segments|);
    }
    TextBound(wire, result.text);
  }

  lemma {:induction false} TextBound(wire: Wire, text: string)
    ensures TextOk(wire, text, true) <==> |Utf16(text)| <= MAX_TRANSCRIPT_CHARS
  {
  }

  lemma {:induction false} NothingReadable(wire: Wire, duration: nat, count: nat)
    ensures OutboundReadableOk(wire, [], duration, count) && Characters([]) == 0 && NoneBlank(wire, [])
  {
  }

  /** The same for the frozen version 3 profile. */
  lemma {:induction false} ValidV3ProjectsIff(wire: Wire, id: JobId, duration: nat, result: RecognitionResult)
    requires ValidResult(ELEVENLABS, duration, result)
    ensures ProjectionAccepts(wire, id, result) <==> ShownV3(wire, id, result)
  {
    hide SegmentsValid, ReadableValid, OutboundSegmentsOk, OutboundReadableOk, TextOk, Utf16, BodyOf, ProviderRequestOk;
    SegmentsShown(wire, result, duration, Utf8Length(result.text));
    NothingReadable(wire, duration, |result.segments|);
    TextBound(wire, result.text);
  }

  /**
   A Deepgram recognition completes exactly if its sizes fit the validator and the result can be
   shown: timing, order, confidences and references never stand in the way.
   */
  method RecognizeDeepgram(t: Merge.Tables, wire: Wire, id: JobId, response: Deepgram.Response, duration: nat)
    returns (r: Deepgram.Outcome<RecognitionResult>)
    requires t.Lawful() && duration <= U64_MAX
    ensures r.Success? ==>
              (Completes(wire, id, DEEPGRAM, duration, r.value) <==> Deepgram.Fits(r.value) && ShownV2(wire, id, r.value))
  {
    hide ValidResult, ProjectionAccepts, ShownV2, Deepgram.Fits;
    r := Deepgram.Recognize(t, DEEPGRAM, response, duration);
    if r.Success? && ValidResult(DEEPGRAM, duration, r.value) {
      ValidV2ProjectsIff(wire, id, duration, r.value);
    }
  }

  /** What an accepted ElevenLabs response must still meet; blank segments and readable ones cannot occur. */
  predicate ShownElevenLabs(wire: Wire, id: JobId, result: RecognitionResult) {
    && result.durationMillis <= MAX_SAFE_INTEGER
    && |Utf16(result.text)| <= MAX_TRANSCRIPT_CHARS
    && (forall i :: 0 <= i < |result.segments| ==> |Utf16(result.segments[i].text)| <= MAX_TRANSCRIPT_CHARS)
    && (result.text == "" || !wire.Blank(result.text))
    && ProviderRequestOk(result.providerReference)
    && BodyFits(wire, ElevenLabsV3, id, result)
  }

  lemma {:induction false} AcceptedIsShown(s: WordGroups.Setting, wire: Wire, id: JobId, r: ElevenLabs.Response, result: RecognitionResult)
    requires ElevenLabs.Acceptable(s, r) && wire.alphabet == s.alphabet
    requires result.segments == ElevenLabs.SegmentsOf(s, WordGroups.Grouped(s, r.words))
    requires result.text == r.text && result.readable.None?
    ensures ShownV3(wire, id, result) <==> ShownElevenLabs(wire, id, result)
  {
    hide WordGroups.Grouped, WordGroups.WordsEnd, WordGroups.Text, ElevenLabs.TokensOk, ElevenLabs.BuilderOf;
    hide Seconds.Rounded, Utf16, BodyFits, ProviderRequestOk, ElevenLabs.EnvelopeOk, Trim;
    var groups := WordGroups.Grouped(s, r.words);
    forall i | 0 <= i < |result.segments| ensures !wire.Blank(result.segments[i].text) {
      assert WordGroups.GroupOk(s, groups[i]) && ElevenLabs.Presentable(s, groups[i]);
    }
    BlankEmpty(wire);
  }

  lemma {:induction false} BlankEmpty(wire: Wire)
    ensures wire.Blank("")
  {
  }

  /**
   An ElevenLabs recognition completes exactly if the whole fits the validator's size and the response
   can be shown; what the splitting rules guarantee never stands in the way.
   */
  method RecognizeElevenLabs(alphabet: Alphabet, probability: real -> real, wire: Wire, id: JobId, r: ElevenLabs.Response, duration: nat)
    returns (result: Option<RecognitionResult>)
    requires ElevenLabs.SettingOf(alphabet, probability, duration).Lawful() && duration <= U64_MAX
    requires wire.alphabet == alphabet
    ensures result.Some? ==>
              (Completes(wire, id, ELEVENLABS, duration, result.value)
               <==> Utf8Length(result.value.text) + SegmentsBytes(result.value.segments) <= MAX_TRANSCRIPT_BYTES
                    && ShownElevenLabs(wire, id, result.value))
  {
    hide ValidResult, ProjectionAccepts, ShownV3, ShownElevenLabs, ElevenLabs.Acceptable, SegmentsBytes;
    result := ElevenLabs.Recognize(alphabet, probability, ELEVENLABS, r, duration);
    if result.Some? {
      var s := ElevenLabs.SettingOf(alphabet, probability, duration);
      AcceptedIsShown(s, wire, id, r, result.value);
      if ValidResult(ELEVENLABS, duration, result.value) {
        ValidV3ProjectsIff(wire, id, duration, result.value);
      }
    }
  }

  /** A paid recognition can be valid and still not be shown: one utterance that is a single space. */
  lemma {:induction false} BlankUtteranceFails(wire: Wire, id: JobId)
    requires wire.alphabet.space(' ')
    ensures var result := RecognitionResult(DEEPGRAM, " ", 1000, Some(1000), [Segment(Span(0, 1000), " ", None, None)], Some([]), None);
            ValidResult(DEEPGRAM, 1000, result) && !ProjectionAccepts(wire, id, result)
  {
    var segments := [Segment(Span(0, 1000), " ", None, None)];
    var result := RecognitionResult(DEEPGRAM, " ", 1000, Some(1000), segments, Some([]), None);
    assert segments[..0] == [] && SegmentsBytes(segments) == SegmentsBytes([]) + SegmentBytes(segments[0]);
    assert Utf8Length(" ") == 1 + Utf8Length("");
    assert " "[1..] == "";
    assert TrimStart(wire.alphabet, " ") == TrimStart(wire.alphabet, "") == "";
    assert wire.Blank(" ");
    ValidV2ProjectsIff(wire, id, 1000, result);
    assert !TextOk(wire, result.segments[0].text, false);
  }
}
