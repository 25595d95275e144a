/**
 What a live session has written, heard and handed out, as a list, and what every event in it must be.

 The ElevenLabs adapter (crates/voicetext-providers/src/elevenlabs/live_state.rs) keeps only cursors,
 flags and short queues. Here each of them is read off the whole history, and the event that a message
 leads to is said in terms of that history alone.
 */
module LiveLog {
  import opened Base
  import opened LiveText
  import opened LiveTimeline

  const BYTES_PER_SAMPLE: nat := 2
  const MAX_RECENT_TEXTS: nat := 8
  const MAX_PENDING_EVENTS: nat := 4

  datatype LiveEvent =
    | TranscriptEvent(transcript: Transcript)
    | UtteranceEnd(lastWordEndMillis: nat)
    | FinalizeResultObserved

  datatype Message =
    | SessionStarted(reference: Option<string>)
    | TranscriptMessage(kind: Stability, text: string, confidence: Option<real>)
    | TerminalError
    | Ignore

  datatype Entry =
    | AudioWritten(byteLength: nat)
    | FinalizeAsked
    | FinalizeDropped
    | Heard(message: Message, event: Option<LiveEvent>)
    | Evidence

  type Recent = seq<(nat, string)>

  predicate Contains(recent: Recent, boundary: nat, key: string) {
    (boundary, key) in recent
  }

  function Remember(recent: Recent, boundary: nat, key: string): Recent {
    (if |recent| == MAX_RECENT_TEXTS then recent[1..] else recent) + [(boundary, key)]
  }

  // ---- reading the log ---------------------------------------------------------------------------

  /** The words of a final; partials and evidence carry none. */
  function FinalWords(a: Alphabet, event: Option<LiveEvent>): seq<string> {
    if event.Some? && event.value.TranscriptEvent? && !event.value.transcript.stability.Partial?
    then Words(a, event.value.transcript.text) else []
  }

  function EntryWords(a: Alphabet, entry: Entry): seq<string> {
    if entry.Heard? then FinalWords(a, entry.event) else []
  }

  /** The words of all finals, one after the other. */
  function FinalsOf(a: Alphabet, log: seq<Entry>): seq<string> {
    if log == [] then [] else FinalsOf(a, log[..|log| - 1]) + EntryWords(a, log[|log| - 1])
  }

  predicate ShowsTranscript(entry: Entry) {
    entry.Heard? && entry.event.Some? && entry.event.value.TranscriptEvent?
  }

  /** The transcripts emitted, in order. */
  function TranscriptsOf(log: seq<Entry>): seq<Transcript> {
    if log == [] then []
    else TranscriptsOf(log[..|log| - 1]) + if ShowsTranscript(log[|log| - 1]) then [log[|log| - 1].event.value.transcript] else []
  }

  predicate IsTranscript(entry: Entry, kind: Stability) {
    entry.Heard? && entry.message.TranscriptMessage? && entry.message.kind == kind
  }

  predicate IsCommit(entry: Entry) {
    IsTranscript(entry, UtteranceFinal)
  }

  /** The words of the finals since the last commit. */
  function SinceCommit(a: Alphabet, log: seq<Entry>): seq<string> {
    if log == [] || IsCommit(log[|log| - 1]) then []
    else SinceCommit(a, log[..|log| - 1]) + EntryWords(a, log[|log| - 1])
  }

  /** How many frames have been written: what a text is remembered against. */
  function BoundaryOf(log: seq<Entry>): nat {
    if log == [] then 0
    else if log[|log| - 1].AudioWritten? then Min(BoundaryOf(log[..|log| - 1]) + 1, U64_MAX)
    else BoundaryOf(log[..|log| - 1])
  }

  function BytesOf(log: seq<Entry>): nat {
    if log == [] then 0
    else if log[|log| - 1].AudioWritten? then Min(BytesOf(log[..|log| - 1]) + log[|log| - 1].byteLength, U64_MAX)
    else BytesOf(log[..|log| - 1])
  }

  function UserAudioMillis(bytes: nat, sampleRateHz: nat): nat {
    if sampleRateHz == 0 then 0 else Min(bytes * 1000, U64_MAX) / (sampleRateHz * BYTES_PER_SAMPLE)
  }

  function Latest(all: Recent): Recent {
    if |all| <= MAX_RECENT_TEXTS then all else all[|all| - MAX_RECENT_TEXTS..]
  }

  /** Every commit that had words, with the boundary it came at. */
  function Commits(a: Alphabet, log: seq<Entry>): Recent {
    if log == [] then []
    else
      var before, last := log[..|log| - 1], log[|log| - 1];
      Commits(a, before)
      + if IsCommit(last) && Normalize(a, last.message.text) != "" then [(BoundaryOf(before), Normalize(a, last.message.text))]
        else []
  }

  /** Every segment final that had words and was no echo, with the boundary it came at. */
  function Stables(a: Alphabet, log: seq<Entry>): Recent
    decreases |log|, 0
  {
    if log == [] then []
    else
      var before, last := log[..|log| - 1], log[|log| - 1];
      Stables(a, before) + if IsNewSegment(a, before, last) then [(BoundaryOf(before), Normalize(a, last.message.text))] else []
  }

  predicate IsNewSegment(a: Alphabet, before: seq<Entry>, entry: Entry)
    decreases |before|, 2
  {
    IsTranscript(entry, SegmentFinal) && Normalize(a, entry.message.text) != "" && !IsEcho(a, before, entry.message.text)
  }

  /** One of the last eight new segment finals said the same at the same audio boundary. */
  predicate IsEcho(a: Alphabet, before: seq<Entry>, text: string)
    decreases |before|, 1
  {
    Contains(Latest(Stables(a, before)), BoundaryOf(before), Normalize(a, text))
  }

  /** One of the last eight commits with words said the same at the same audio boundary. */
  predicate IsSeen(a: Alphabet, before: seq<Entry>, text: string) {
    Contains(Latest(Commits(a, before)), BoundaryOf(before), Normalize(a, text))
  }

  /** The audio clock at the last new segment final or commit. */
  function CursorOf(a: Alphabet, rate: nat, log: seq<Entry>): nat {
    if log == [] then 0
    else
      var before, last := log[..|log| - 1], log[|log| - 1];
      if IsCommit(last) || IsNewSegment(a, before, last) then UserAudioMillis(BytesOf(before), rate) else CursorOf(a, rate, before)
  }

  /** A finalize was asked for, with audio to flush, and no commit has come since. */
  predicate FinalizingIn(log: seq<Entry>) {
    log != [] &&
    var before, last := log[..|log| - 1], log[|log| - 1];
    if last.FinalizeAsked? then BytesOf(before) != 0
    else !last.FinalizeDropped? && !IsCommit(last) && FinalizingIn(before)
  }

  /** Evidence that waits behind the transcript of the commit it came with. */
  function PendingIn(log: seq<Entry>): nat {
    if log == [] then 0
    else
      var before, last := log[..|log| - 1], log[|log| - 1];
      var pending := PendingIn(before);
      if last.Evidence? then (if pending == 0 then 0 else pending - 1)
      else if IsCommit(last) && FinalizingIn(before) && ShowsTranscript(last) then Min(pending + 1, MAX_PENDING_EVENTS)
      else pending
  }

  predicate IsEvidence(entry: Entry) {
    entry.Evidence? || (entry.Heard? && entry.event == Some(FinalizeResultObserved))
  }

  /** The finalize result has been seen. */
  predicate Observed(log: seq<Entry>) {
    log != [] && (IsEvidence(log[|log| - 1]) || Observed(log[..|log| - 1]))
  }

  function EvidenceCount(log: seq<Entry>): nat {
    if log == [] then 0 else EvidenceCount(log[..|log| - 1]) + if IsEvidence(log[|log| - 1]) then 1 else 0
  }

  // ---- what every event must be ----------------------------------------------------------------------

  /** What of the history a message is read against. */
  datatype Memory = Memory(
    emitted: seq<string>,
    boundary: nat,
    stable: Recent,
    committed: Recent,
    bytes: nat,
    cursor: nat,
    finalizing: bool,
    pending: nat)

  function MemoryOf(a: Alphabet, rate: nat, log: seq<Entry>): Memory {
    Memory(SinceCommit(a, log), BoundaryOf(log), Latest(Stables(a, log)), Latest(Commits(a, log)),
           BytesOf(log), CursorOf(a, rate, log), FinalizingIn(log), PendingIn(log))
  }

  /** The transcript of the message, from the cursor to the audio clock. */
  predicate Shows(event: Option<LiveEvent>, message: Message, start: nat, end: nat)
    requires message.TranscriptMessage?
  {
    && event.Some? && event.value.TranscriptEvent?
    && event.value.transcript.startMillis == start && EndOf(event.value.transcript) == end
    && event.value.transcript.confidence == message.confidence && event.value.transcript.stability == message.kind
  }

  /** What the finals of one utterance must add up to when its commit arrives. */
  function UtteranceWords(stable: seq<string>, committed: seq<string>, seen: bool): seq<string> {
    if !seen && stable <= committed then committed else stable
  }

  /** The event a message leads to, exactly, but for the wording of what a commit adds to stable words. */
  predicate Reacts(a: Alphabet, rate: nat, m: Memory, message: Message, event: Option<LiveEvent>) {
    if !message.TranscriptMessage? then event.None?
    else
      var words, key := Words(a, message.text), Normalize(a, message.text);
      var clock := UserAudioMillis(m.bytes, rate);
      match message.kind
      case Partial =>
        if words == [] then event.None?
        else Shows(event, message, m.cursor, clock) && event.value.transcript.text == message.text
      case SegmentFinal =>
        if words == [] || Contains(m.stable, m.boundary, key) then event.None?
        else Shows(event, message, m.cursor, clock) && event.value.transcript.text == message.text
      case UtteranceFinal =>
        if !Contains(m.committed, m.boundary, key) && m.emitted < words then
          && Shows(event, message, m.cursor, clock)
          && Words(a, event.value.transcript.text) == words[|m.emitted|..]
          && (m.emitted == [] ==> event.value.transcript.text == message.text)
        else event == if m.finalizing then Some(FinalizeResultObserved) else None
  }

  /** The memory after a message. */
  ghost predicate Takes(a: Alphabet, rate: nat, m: Memory, message: Message, event: Option<LiveEvent>, next: Memory) {
    if !message.TranscriptMessage? then next == m
    else
      var key, clock := Normalize(a, message.text), UserAudioMillis(m.bytes, rate);
      match message.kind
      case Partial => next == m
      case SegmentFinal =>
        if key == "" || Contains(m.stable, m.boundary, key) then next == m
        else
          next == m.(emitted := m.emitted + FinalWords(a, event), stable := Remember(m.stable, m.boundary, key), cursor := clock)
      case UtteranceFinal =>
        next == m.(emitted := [], cursor := clock, finalizing := false,
                   committed := if key != "" then Remember(m.committed, m.boundary, key) else m.committed,
                   pending := if m.finalizing && event.Some? && event.value.TranscriptEvent?
                              then Min(m.pending + 1, MAX_PENDING_EVENTS) else m.pending)
  }

  /** A commit's event and memory, from what it still has to say. */
  lemma {:induction false} CommitReacts(a: Alphabet, rate: nat, m: Memory, message: Message, rest: Option<string>, end: nat,
                                        event: Option<LiveEvent>, next: Memory)
    requires message.TranscriptMessage? && message.kind.UtteranceFinal?
    requires var words, key := Words(a, message.text), Normalize(a, message.text);
             && (rest.Some? <==> !Contains(m.committed, m.boundary, key) && m.emitted < words)
             && (rest.Some? ==> Words(a, rest.value) == words[|m.emitted|..] && (m.emitted == [] ==> rest.value == message.text))
             && next == m.(emitted := [], cursor := end, finalizing := false,
                           committed := if key != "" then Remember(m.committed, m.boundary, key) else m.committed,
                           pending := if m.finalizing && rest.Some? then Min(m.pending + 1, MAX_PENDING_EVENTS) else m.pending)
    requires m.cursor <= end && end == UserAudioMillis(m.bytes, rate)
    requires event == if rest.Some? then Some(TranscriptEvent(Transcript(rest.value, m.cursor, end - m.cursor, message.confidence, UtteranceFinal)))
                      else if m.finalizing then Some(FinalizeResultObserved) else None
    ensures Reacts(a, rate, m, message, event) && Takes(a, rate, m, message, event, next)
  {
    hide Words, Normalize, Contains, Remember, UserAudioMillis;
  }

  predicate EntryOk(a: Alphabet, rate: nat, before: seq<Entry>, entry: Entry) {
    && (entry.Heard? ==> Reacts(a, rate, MemoryOf(a, rate, before), entry.message, entry.event))
    && (entry.Evidence? ==> PendingIn(before) > 0)
  }

  /** Every event is the one its history calls for. */
  predicate LogOk(a: Alphabet, rate: nat, log: seq<Entry>) {
    forall j :: 0 <= j < |log| ==> EntryOk(a, rate, log[..j], log[j])
  }

  /** Queued evidence is handed out before the next message is read. */
  predicate TurnsOk(log: seq<Entry>) {
    forall j :: 0 <= j < |log| && log[j].Heard? ==> PendingIn(log[..j]) == 0
  }

  /** The fields of the adapter are what the log says. */
  ghost predicate Recorded(a: Alphabet, rate: nat, log: seq<Entry>, m: Memory) {
    LogOk(a, rate, log) && m == MemoryOf(a, rate, log)
  }

  // ---- one more entry ----------------------------------------------------------------------------------

  lemma {:induction false} LatestRemembers(all: Recent, boundary: nat, key: string)
    ensures Latest(all + [(boundary, key)]) == Remember(Latest(all), boundary, key)
  {
  }

  lemma {:induction false} LogStep(a: Alphabet, rate: nat, log: seq<Entry>, entry: Entry)
    requires LogOk(a, rate, log) && EntryOk(a, rate, log, entry)
    ensures LogOk(a, rate, log + [entry])
  {
    hide EntryOk;
    var all := log + [entry];
    forall j | 0 <= j < |all| ensures EntryOk(a, rate, all[..j], all[j]) {
      assert all[..j] == log[..j];
      if j == |log| {
        assert log[..j] == log;
      }
    }
  }

  lemma {:induction false} TurnStep(log: seq<Entry>, entry: Entry)
    requires TurnsOk(log) && (entry.Heard? ==> PendingIn(log) == 0)
    ensures TurnsOk(log + [entry])
  {
    hide PendingIn;
    var all := log + [entry];
    forall j | 0 <= j < |all| && all[j].Heard? ensures PendingIn(all[..j]) == 0 {
      assert all[..j] == log[..j];
      if j == |log| {
        assert log[..j] == log;
      }
    }
  }

  lemma {:induction false} TallyStep(log: seq<Entry>, entry: Entry)
    ensures EvidenceCount(log + [entry]) == EvidenceCount(log) + if IsEvidence(entry) then 1 else 0
    ensures Observed(log + [entry]) <==> Observed(log) || IsEvidence(entry)
    ensures TranscriptsOf(log + [entry]) ==
              if ShowsTranscript(entry) then TranscriptsOf(log) + [entry.event.value.transcript] else TranscriptsOf(log)
  {
    assert (log + [entry])[..|log|] == log;
  }

  lemma {:induction false} ObservedCounts(log: seq<Entry>)
    ensures Observed(log) <==> EvidenceCount(log) > 0
    decreases |log|
  {
    if log != [] {
      ObservedCounts(log[..|log| - 1]);
    }
  }

  /** What each kind of entry does to what is read off the log. */
  lemma {:induction false} CounterStep(a: Alphabet, rate: nat, log: seq<Entry>, entry: Entry)
    ensures SinceCommit(a, log + [entry]) == if IsCommit(entry) then [] else SinceCommit(a, log) + EntryWords(a, entry)
    ensures BoundaryOf(log + [entry]) == if entry.AudioWritten? then Min(BoundaryOf(log) + 1, U64_MAX) else BoundaryOf(log)
    ensures BytesOf(log + [entry]) == if entry.AudioWritten? then Min(BytesOf(log) + entry.byteLength, U64_MAX) else BytesOf(log)
    ensures CursorOf(a, rate, log + [entry]) ==
              if IsCommit(entry) || IsNewSegment(a, log, entry) then UserAudioMillis(BytesOf(log), rate) else CursorOf(a, rate, log)
    ensures FinalizingIn(log + [entry]) <==>
              if entry.FinalizeAsked? then BytesOf(log) != 0 else !entry.FinalizeDropped? && !IsCommit(entry) && FinalizingIn(log)
    ensures PendingIn(log + [entry]) ==
              if entry.Evidence? then (if PendingIn(log) == 0 then 0 else PendingIn(log) - 1)
              else if IsCommit(entry) && FinalizingIn(log) && ShowsTranscript(entry) then Min(PendingIn(log) + 1, MAX_PENDING_EVENTS)
              else PendingIn(log)
  {
    hide UserAudioMillis, EntryWords, IsNewSegment;
    assert (log + [entry])[..|log|] == log;
  }

  /** The adapter's two queues are the latest of what the log says. */
  lemma {:induction false} MemoryStep(a: Alphabet, log: seq<Entry>, entry: Entry)
    ensures Latest(Commits(a, log + [entry])) ==
              if IsCommit(entry) && Normalize(a, entry.message.text) != ""
              then Remember(Latest(Commits(a, log)), BoundaryOf(log), Normalize(a, entry.message.text))
              else Latest(Commits(a, log))
    ensures Latest(Stables(a, log + [entry])) ==
              if IsNewSegment(a, log, entry)
              then Remember(Latest(Stables(a, log)), BoundaryOf(log), Normalize(a, entry.message.text))
              else Latest(Stables(a, log))
  {
    hide Latest, Remember, Normalize, Contains;
    assert (log + [entry])[..|log|] == log;
    if entry.Heard? && entry.message.TranscriptMessage? {
      var key := Normalize(a, entry.message.text);
      LatestRemembers(Commits(a, log), BoundaryOf(log), key);
      LatestRemembers(Stables(a, log), BoundaryOf(log), key);
    }
    assert Commits(a, log) + [] == Commits(a, log) && Stables(a, log) + [] == Stables(a, log);
  }

  lemma {:induction false} AudioRecorded(a: Alphabet, rate: nat, log: seq<Entry>, m: Memory, byteLength: nat)
    requires Recorded(a, rate, log, m)
    ensures Recorded(a, rate, log + [AudioWritten(byteLength)],
                     m.(boundary := Min(m.boundary + 1, U64_MAX), bytes := Min(m.bytes + byteLength, U64_MAX)))
  {
    OtherStep(a, rate, log, AudioWritten(byteLength));
  }

  lemma {:induction false} FinalizeRecorded(a: Alphabet, rate: nat, log: seq<Entry>, m: Memory)
    requires Recorded(a, rate, log, m)
    ensures Recorded(a, rate, log + [FinalizeAsked], m.(finalizing := m.bytes != 0))
    ensures Recorded(a, rate, log + [FinalizeDropped], m.(finalizing := false))
  {
    OtherStep(a, rate, log, FinalizeAsked);
    OtherStep(a, rate, log, FinalizeDropped);
  }

  lemma {:induction false} EvidenceRecorded(a: Alphabet, rate: nat, log: seq<Entry>, m: Memory)
    requires Recorded(a, rate, log, m) && m.pending > 0
    ensures Recorded(a, rate, log + [Evidence], m.(pending := m.pending - 1))
  {
    OtherStep(a, rate, log, Evidence);
  }

  /** An entry that is no message. */
  lemma {:induction false} OtherStep(a: Alphabet, rate: nat, log: seq<Entry>, entry: Entry)
    requires LogOk(a, rate, log) && !entry.Heard? && (entry.Evidence? ==> PendingIn(log) > 0)
    ensures LogOk(a, rate, log + [entry])
    ensures MemoryOf(a, rate, log + [entry]) ==
              MemoryOf(a, rate, log).(
                boundary := if entry.AudioWritten? then Min(BoundaryOf(log) + 1, U64_MAX) else BoundaryOf(log),
                bytes := if entry.AudioWritten? then Min(BytesOf(log) + entry.byteLength, U64_MAX) else BytesOf(log),
                finalizing := if entry.FinalizeAsked? then BytesOf(log) != 0 else !entry.FinalizeDropped? && FinalizingIn(log),
                pending := if entry.Evidence? then PendingIn(log) - 1 else PendingIn(log))
  {
    hide LogOk, SinceCommit, BoundaryOf, BytesOf, CursorOf, FinalizingIn, PendingIn, Latest, Commits, Stables;
    LogStep(a, rate, log, entry);
    CounterStep(a, rate, log, entry);
    MemoryStep(a, log, entry);
    assert SinceCommit(a, log) + [] == SinceCommit(a, log);
  }

  lemma {:induction false} MessageRecorded(a: Alphabet, rate: nat, log: seq<Entry>, m: Memory, message: Message, event: Option<LiveEvent>, next: Memory)
    requires a.Lawful() && Recorded(a, rate, log, m) && Reacts(a, rate, m, message, event) && Takes(a, rate, m, message, event, next)
    ensures Recorded(a, rate, log + [Heard(message, event)], next)
  {
    hide LogOk, Reacts, Words, Normalize, Contains, Remember, Latest, Commits, Stables, UserAudioMillis;
    hide SinceCommit, BoundaryOf, BytesOf, CursorOf, FinalizingIn, PendingIn;
    LogStep(a, rate, log, Heard(message, event));
    CounterStep(a, rate, log, Heard(message, event));
    MemoryStep(a, log, Heard(message, event));
    SaysNothing(a, rate, m, message, event);
    if message.TranscriptMessage? {
      assert IsEcho(a, log, message.text) <==> Contains(m.stable, m.boundary, Normalize(a, message.text));
    }
    assert SinceCommit(a, log) + [] == SinceCommit(a, log);
  }

  /** Only a new segment final or a commit adds final words. */
  lemma {:induction false} SaysNothing(a: Alphabet, rate: nat, m: Memory, message: Message, event: Option<LiveEvent>)
    requires Reacts(a, rate, m, message, event)
    ensures !message.TranscriptMessage? || message.kind.Partial? ==> FinalWords(a, event) == []
    ensures message.TranscriptMessage? && message.kind.SegmentFinal? && Contains(m.stable, m.boundary, Normalize(a, message.text)) ==>
              FinalWords(a, event) == []
    ensures message.TranscriptMessage? && message.kind.SegmentFinal? && Normalize(a, message.text) == "" && a.Lawful() ==>
              FinalWords(a, event) == []
  {
    hide Normalize, Words, Contains;
    if message.TranscriptMessage? && a.Lawful() {
      NormalizeIsJoinedWords(a, message.text);
    }
  }

  // ---- whole utterances ------------------------------------------------------------------------------

  /** From just after one commit, or from the start, up to the next commit. */
  predicate IsUtterance(log: seq<Entry>, i: nat, j: nat) {
    && i <= j < |log| && IsCommit(log[j])
    && (i == 0 || IsCommit(log[i - 1]))
    && forall k :: i <= k < j ==> !IsCommit(log[k])
  }

  lemma {:induction false} FinalsStep(a: Alphabet, log: seq<Entry>, i: nat, j: nat)
    requires i <= j < |log|
    ensures FinalsOf(a, log[i..j + 1]) == FinalsOf(a, log[i..j]) + EntryWords(a, log[j])
  {
    assert log[i..j + 1][..j - i] == log[i..j];
  }

  lemma {:induction false} SinceCommitIsFinals(a: Alphabet, log: seq<Entry>, i: nat, j: nat)
    requires i <= j <= |log| && (i == 0 || IsCommit(log[i - 1])) && forall k :: i <= k < j ==> !IsCommit(log[k])
    ensures SinceCommit(a, log[..j]) == FinalsOf(a, log[i..j])
    decreases j
  {
    hide EntryWords, IsCommit, FinalsOf;
    var before := log[..j];
    if i < j {
      SinceCommitIsFinals(a, log, i, j - 1);
      FinalsStep(a, log, i, j - 1);
      assert before[..j - 1] == log[..j - 1] && before[j - 1] == log[j - 1];
    } else {
      NoFinals(a);
      assert log[i..j] == [];
      assert i > 0 ==> before[j - 1] == log[i - 1];
    }
  }

  lemma {:induction false} NoFinals(a: Alphabet)
    ensures FinalsOf(a, []) == []
  {
  }

  /** What a commit adds makes the utterance complete. */
  lemma {:induction false} CommitAdds(a: Alphabet, rate: nat, m: Memory, message: Message, event: Option<LiveEvent>)
    requires Reacts(a, rate, m, message, event) && message.TranscriptMessage? && message.kind.UtteranceFinal?
    ensures m.emitted + FinalWords(a, event)
         == UtteranceWords(m.emitted, Words(a, message.text), Contains(m.committed, m.boundary, Normalize(a, message.text)))
  {
    hide Words, Normalize, Contains, UserAudioMillis;
    var words := Words(a, message.text);
    if m.emitted < words {
      assert m.emitted + words[|m.emitted|..] == words;
    }
  }

  /**
   In every session the words of all finals from one commit to the next concatenate to exactly the
   committed words, if the stable ones are a prefix of them and the commit is new; otherwise to exactly
   the stable ones.
   */
  lemma {:induction false} UtteranceSettled(a: Alphabet, rate: nat, log: seq<Entry>, i: nat, j: nat)
    requires LogOk(a, rate, log) && IsUtterance(log, i, j)
    ensures var stable, committed := FinalsOf(a, log[i..j]), Words(a, log[j].message.text);
            FinalsOf(a, log[i..j + 1])
            == if !IsSeen(a, log[..j], log[j].message.text) && stable <= committed then committed else stable
  {
    hide Words, SinceCommit, FinalsOf, Reacts, Normalize, Contains, Latest, Commits, Stables, CursorOf;
    SinceCommitIsFinals(a, log, i, j);
    FinalsStep(a, log, i, j);
    assert EntryOk(a, rate, log[..j], log[j]);
    CommitAdds(a, rate, MemoryOf(a, rate, log[..j]), log[j].message, log[j].event);
  }

  /** A commit counts as seen only if an earlier one had the same words run together, with no audio between. */
  lemma {:induction false} SeenWasSaid(a: Alphabet, log: seq<Entry>, boundary: nat, key: string)
    requires Contains(Commits(a, log), boundary, key)
    ensures exists k :: 0 <= k < |log| && IsCommit(log[k]) && Normalize(a, log[k].message.text) == key && BoundaryOf(log[..k]) == boundary
    decreases |log|
  {
    hide Normalize;
    var n := |log| - 1;
    if Contains(Commits(a, log[..n]), boundary, key) {
      SeenWasSaid(a, log[..n], boundary, key);
      var k :| 0 <= k < n && IsCommit(log[..n][k]) && Normalize(a, log[..n][k].message.text) == key && BoundaryOf(log[..n][..k]) == boundary;
      assert log[..n][..k] == log[..k];
      assert IsCommit(log[k]);
    } else {
      assert IsCommit(log[n]) && BoundaryOf(log[..n]) == boundary;
    }
  }

  // ---- the finalize result ---------------------------------------------------------------------------

  /** One finalize request, with audio to flush, and after it only provider turns. */
  predicate AsksOnce(log: seq<Entry>, f: nat) {
    && f < |log| && log[f].FinalizeAsked? && BytesOf(log[..f]) != 0
    && (forall k :: 0 <= k < |log| && k != f ==> !log[k].FinalizeAsked? && !log[k].FinalizeDropped?)
    && (forall k :: f < k < |log| ==> log[k].Heard? || log[k].Evidence?)
  }

  /** No finalize has been asked for. */
  predicate Unasked(log: seq<Entry>) {
    forall k :: 0 <= k < |log| ==> !log[k].FinalizeAsked? && !log[k].FinalizeDropped?
  }

  lemma {:induction false} AskingOnce(log: seq<Entry>)
    requires Unasked(log) && BytesOf(log) != 0
    ensures AsksOnce(log + [FinalizeAsked], |log|)
  {
    assert (log + [FinalizeAsked])[..|log|] == log;
  }

  lemma {:induction false} StillAsksOnce(log: seq<Entry>, f: nat, entry: Entry)
    requires AsksOnce(log, f) && (entry.Heard? || entry.Evidence?)
    ensures AsksOnce(log + [entry], f)
  {
    assert (log + [entry])[..f] == log[..f];
  }

  /** An entry read while nothing is asked for or owed is no evidence, and leaves it so unless it asks. */
  lemma {:induction false} NoEvidenceYet(a: Alphabet, rate: nat, log: seq<Entry>, k: nat)
    requires LogOk(a, rate, log) && k < |log| && PendingIn(log[..k]) == 0 && (FinalizingIn(log[..k]) ==> !IsCommit(log[k]))
    ensures !IsEvidence(log[k]) && PendingIn(log[..k + 1]) == 0
    ensures Observed(log[..k + 1]) <==> Observed(log[..k])
    ensures FinalizingIn(log[..k + 1]) <==>
              if log[k].FinalizeAsked? then BytesOf(log[..k]) != 0 else !log[k].FinalizeDropped? && !IsCommit(log[k]) && FinalizingIn(log[..k])
  {
    hide Words, Normalize, Contains, Latest, UserAudioMillis;
    assert EntryOk(a, rate, log[..k], log[k]);
    assert log[..k + 1] == log[..k] + [log[k]];
    CounterStep(a, rate, log[..k], log[k]);
    TallyStep(log[..k], log[k]);
  }

  lemma {:induction false} BeforeAsking(a: Alphabet, rate: nat, log: seq<Entry>, f: nat, k: nat)
    requires LogOk(a, rate, log) && AsksOnce(log, f) && k <= f
    ensures !FinalizingIn(log[..k]) && PendingIn(log[..k]) == 0 && !Observed(log[..k])
    decreases k
  {
    hide LogOk, BytesOf;
    if k > 0 {
      BeforeAsking(a, rate, log, f, k - 1);
      NoEvidenceYet(a, rate, log, k - 1);
    }
  }

  lemma {:induction false} WhileWaiting(a: Alphabet, rate: nat, log: seq<Entry>, f: nat, k: nat)
    requires LogOk(a, rate, log) && AsksOnce(log, f) && f < k <= |log| && forall j :: f < j < k ==> !IsCommit(log[j])
    ensures FinalizingIn(log[..k]) && PendingIn(log[..k]) == 0 && !Observed(log[..k])
    decreases k
  {
    hide LogOk, FinalizingIn, PendingIn, Observed, BytesOf;
    if k == f + 1 {
      BeforeAsking(a, rate, log, f, f);
    } else {
      WhileWaiting(a, rate, log, f, k - 1);
    }
    NoEvidenceYet(a, rate, log, k - 1);
  }

  lemma {:induction false} ObservedStays(log: seq<Entry>, k: nat)
    requires k <= |log| && Observed(log[..k])
    ensures Observed(log)
    decreases |log| - k
  {
    if k < |log| {
      assert log[..k + 1][..k] == log[..k];
      ObservedStays(log, k + 1);
    } else {
      assert log[..k] == log;
    }
  }

  /** The first commit after the request brings the evidence, at once or with the provider turn that follows. */
  lemma {:induction false} FirstCommitAnswers(a: Alphabet, rate: nat, log: seq<Entry>, f: nat, j: nat)
    requires LogOk(a, rate, log) && TurnsOk(log) && AsksOnce(log, f)
    requires f < j < |log| && IsCommit(log[j]) && forall k :: f < k < j ==> !IsCommit(log[k])
    ensures Observed(log) <==> !ShowsTranscript(log[j]) || j + 1 < |log|
  {
    hide LogOk, FinalizingIn, PendingIn, Observed, BytesOf;
    WhileWaiting(a, rate, log, f, j);
    CommitAnswers(a, rate, log, j);
    if j + 1 == |log| {
      assert log[..j + 1] == log;
    } else {
      assert log[..j + 2] == log[..j + 1] + [log[j + 1]];
      TallyStep(log[..j + 1], log[j + 1]);
      ObservedStays(log, j + 2);
    }
  }

  /** A commit while finalizing is evidence itself, or owes it. */
  lemma {:induction false} CommitAnswers(a: Alphabet, rate: nat, log: seq<Entry>, j: nat)
    requires LogOk(a, rate, log) && j < |log| && IsCommit(log[j]) && FinalizingIn(log[..j]) && PendingIn(log[..j]) == 0
    ensures IsEvidence(log[j]) <==> !ShowsTranscript(log[j])
    ensures PendingIn(log[..j + 1]) == if ShowsTranscript(log[j]) then 1 else 0
    ensures Observed(log[..j + 1]) <==> Observed(log[..j]) || IsEvidence(log[j])
  {
    hide Words, Normalize, Contains, Latest, UserAudioMillis, FinalizingIn, PendingIn, Observed;
    assert EntryOk(a, rate, log[..j], log[j]);
    assert log[..j + 1] == log[..j] + [log[j]];
    CounterStep(a, rate, log[..j], log[j]);
    TallyStep(log[..j], log[j]);
  }

  /**
   The finalize result is seen exactly if a commit came after the request and, should that commit still
   have had something to say, the provider was turned to once more.
   */
  lemma {:induction false} ObservedIff(a: Alphabet, rate: nat, log: seq<Entry>, f: nat)
    requires LogOk(a, rate, log) && TurnsOk(log) && AsksOnce(log, f)
    ensures Observed(log) <==> exists j :: f < j < |log| && IsCommit(log[j]) && (ShowsTranscript(log[j]) ==> j + 1 < |log|)
  {
    hide LogOk, TurnsOk, Observed;
    if exists j :: f < j < |log| && IsCommit(log[j]) {
      var some :| f < some < |log| && IsCommit(log[some]);
      var j := FirstCommit(log, f + 1, some);
      FirstCommitAnswers(a, rate, log, f, j);
    } else {
      WhileWaiting(a, rate, log, f, |log|);
      assert log[..|log|] == log;
    }
  }

  lemma {:induction false} FirstCommit(log: seq<Entry>, i: nat, some: nat) returns (j: nat)
    requires i <= some < |log| && IsCommit(log[some])
    ensures i <= j <= some && IsCommit(log[j]) && forall k :: i <= k < j ==> !IsCommit(log[k])
    decreases some - i
  {
    j := i;
    if !IsCommit(log[i]) {
      j := FirstCommit(log, i + 1, some);
    }
  }
}
