/**
 From a decoded provider response to a recognition result (`parse_response`, `SegmentBuilder` and
 `push_segment` in crates/voicetext-providers/src/elevenlabs/dto.rs, `project_result` in batch.rs).

 JSON decoding is outside the model: a response holds the fields the parser reads.
 */
module ElevenLabsBatch {
  import opened Base
  import opened Spans
  import opened Seconds
  import opened LiveText
  import opened SpacedText
  import opened BatchDomain
  import opened BatchResults
  import opened WordGroups

  const MAX_WORDS: nat := 100_000
  const MAX_TOKEN_BYTES: nat := 64 * 1_024
  const TIMESTAMP_TOLERANCE_SECONDS: real := 0.250
  const TIMESTAMP_RELATIVE_TOLERANCE: real := 0.005

  datatype Response = Response(
    language: string,
    languageProbability: real,
    text: string,
    words: seq<WordGroups.Token>,
    audioDuration: Option<real>,
    reference: Option<string>)

  // ---- the segment under construction ------------------------------------------------------------

  datatype Builder = Builder(text: string, start: real, end: real, confidenceSum: real, confidenceCount: nat, wordCount: nat) {
    function PushWord(word: string, wordEnd: real, confidence: Option<real>): Builder {
      this.(text := text + word,
            end := wordEnd,
            wordCount := wordCount + 1,
            confidenceSum := confidenceSum + (if confidence.Some? then confidence.value else 0.0),
            confidenceCount := confidenceCount + (if confidence.Some? then 1 else 0))
    }

    function PushSpacing(spacing: string): Builder {
      this.(text := text + spacing)
    }

    /** A confidence only if every word has one. */
    function Confidence(): Option<real> {
      if confidenceCount == wordCount && wordCount > 0 then Some(confidenceSum / wordCount as real) else None
    }
  }

  function NewBuilder(start: real, end: real, text: string, confidence: Option<real>): Builder {
    Builder(text, start, end, if confidence.Some? then confidence.value else 0.0, if confidence.Some? then 1 else 0, 1)
  }

  function ConfidenceOf(s: Setting, token: WordGroups.Token): Option<real> {
    if token.logprob.Some? then Some(s.probability(token.logprob.value)) else None
  }

  /** `finish` and the checks of `push_segment`. */
  function PushSegment(s: Setting, segments: seq<Segment>, b: Builder): (r: Option<seq<Segment>>)
  {
    if Trim(s.alphabet, b.text) == "" || |segments| == MAX_SEGMENTS then None
    else
      var start, end := SecondsToMillis(b.start), SecondsToMillis(b.end);
      if start.None? || end.None? || end.value <= start.value then None
      else if segments != [] && start.value < segments[|segments| - 1].span.end then None
      else Some(segments + [Segment(Span(start.value, end.value), b.text, b.Confidence(), None)])
  }

  // ---- what the builder has become -----------------------------------------------------------------

  /** Sum and number of the confidences of a group's words. */
  function ConfidenceSum(s: Setting, tokens: seq<WordGroups.Token>): real {
    if tokens == [] then 0.0
    else
      var last := tokens[|tokens| - 1];
      ConfidenceSum(s, tokens[..|tokens| - 1])
      + if last.kind.Word? && last.logprob.Some? then s.probability(last.logprob.value) else 0.0
  }

  function ConfidenceCount(tokens: seq<WordGroups.Token>): nat {
    if tokens == [] then 0
    else
      var last := tokens[|tokens| - 1];
      ConfidenceCount(tokens[..|tokens| - 1]) + if last.kind.Word? && last.logprob.Some? then 1 else 0
  }

  function BuilderOf(s: Setting, group: seq<WordGroups.Token>): Builder
    requires group != []
  {
    Builder(Text(group), s.Start(group[0]), WordsEnd(s, group), ConfidenceSum(s, group), ConfidenceCount(group), WordCount(group))
  }

  lemma {:induction false} BuilderOpens(s: Setting, word: WordGroups.Token)
    requires word.kind.Word?
    ensures BuilderOf(s, [word]) == NewBuilder(s.Start(word), s.End(word), word.text, ConfidenceOf(s, word))
  {
    assert [word][..0] == [];
    TextAlone(word);
    var group := [word];
    assert group[|group| - 1] == word;
    assert WordCount(group) == 1;
    assert WordsEnd(s, group) == s.End(word);
    assert ConfidenceSum(s, [word]) == ConfidenceSum(s, []) + if word.logprob.Some? then s.probability(word.logprob.value) else 0.0;
    assert ConfidenceCount([word]) == ConfidenceCount([]) + if word.logprob.Some? then 1 else 0;
  }

  lemma {:induction false} BuilderGrows(s: Setting, group: seq<WordGroups.Token>, token: WordGroups.Token)
    requires group != []
    ensures token.kind.Word? ==>
              BuilderOf(s, group + [token]) == BuilderOf(s, group).PushWord(token.text, s.End(token), ConfidenceOf(s, token))
    ensures token.kind.Spacing? ==> BuilderOf(s, group + [token]) == BuilderOf(s, group).PushSpacing(token.text)
  {
  }

  /** The segment a finished group becomes. */
  function SegmentOf(s: Setting, group: seq<WordGroups.Token>): Segment
    requires GroupOk(s, group)
  {
    Segment(Span(Rounded(s.Start(group[0])), Rounded(WordsEnd(s, group))), Text(group), BuilderOf(s, group).Confidence(), None)
  }

  function SegmentsOf(s: Setting, groups: seq<seq<WordGroups.Token>>): (r: seq<Segment>)
    requires GroupsOk(s, groups)
    ensures |r| == |groups|
  {
    seq(|groups|, k requires 0 <= k < |groups| => SegmentOf(s, groups[k]))
  }

  /**
   What a segment says of its group: the text of its tokens, from the start of its first to the end of
   its last word, and the mean probability of its words if every one has one.
   */
  ghost predicate TellsGroup(s: Setting, group: seq<WordGroups.Token>, segment: Segment)
    requires GroupOk(s, group)
  {
    && segment.text == Text(group) && segment.speaker.None?
    && segment.span.start == Rounded(s.Start(group[0]))
    && (exists l: nat :: LastWord(group, l) && s.End(group[l]) >= 0.0 && segment.span.end == Rounded(s.End(group[l])))
    && (segment.confidence.Some? <==> forall i :: 0 <= i < |group| && group[i].kind.Word? ==> group[i].logprob.Some?)
    && (segment.confidence.Some? ==> segment.confidence.value * WordCount(group) as real == ConfidenceSum(s, group))
  }

  lemma {:induction false} CountsAgree(group: seq<WordGroups.Token>)
    ensures ConfidenceCount(group) <= WordCount(group)
    ensures ConfidenceCount(group) == WordCount(group)
       <==> forall i :: 0 <= i < |group| && group[i].kind.Word? ==> group[i].logprob.Some?
    decreases |group|
  {
    if group != [] {
      var n := |group| - 1;
      CountsAgree(group[..n]);
      if forall i :: 0 <= i < n && group[..n][i].kind.Word? ==> group[..n][i].logprob.Some? {
        assert forall i :: 0 <= i < n && group[i].kind.Word? ==> group[i].logprob.Some? by {
          assert forall i :: 0 <= i < n ==> group[..n][i] == group[i];
        }
      } else {
        var i :| 0 <= i < n && group[..n][i].kind.Word? && group[..n][i].logprob.None?;
        assert group[i].kind.Word? && group[i].logprob.None?;
      }
    }
  }

  lemma {:induction false} SegmentTells(s: Setting, group: seq<WordGroups.Token>)
    requires GroupOk(s, group)
    ensures TellsGroup(s, group, SegmentOf(s, group))
  {
    hide Rounded, Text, ConfidenceSum, ConfidenceCount;
    CountsAgree(group);
    var l := SomeLastWord(group);
    WordsEndIsLast(s, group, l);
    WordCounted(group, 0);
    var b := BuilderOf(s, group);
    if b.Confidence().Some? {
      MeanTimesCount(b.confidenceSum, b.wordCount as real);
    }
  }

  lemma {:induction false} MeanTimesCount(sum: real, count: real)
    requires count > 0.0
    ensures sum / count * count == sum
  {
  }

  lemma {:induction false} WordCounted(group: seq<WordGroups.Token>, i: nat)
    requires i < |group| && group[i].kind.Word?
    ensures WordCount(group) > 0
    decreases |group|
  {
    if i < |group| - 1 {
      WordCounted(group[..|group| - 1], i);
    }
  }

  /** Words can be shown, and still take time once rounded. */
  predicate Presentable(s: Setting, group: seq<WordGroups.Token>)
    requires GroupOk(s, group)
  {
    Trim(s.alphabet, Text(group)) != "" && Rounded(s.Start(group[0])) < Rounded(WordsEnd(s, group))
  }

  /** Neither the order of segments nor the clock can make `push_segment` refuse. */
  lemma {:induction false} PushesSegment(s: Setting, groups: seq<seq<WordGroups.Token>>, k: nat)
    requires GroupsOk(s, groups) && k < |groups| && k <= MAX_SEGMENTS && s.seconds >= 0.0 && Rounded(s.seconds) <= U64_MAX
    ensures PushSegment(s, SegmentsOf(s, groups)[..k], BuilderOf(s, groups[k])) ==
              if Presentable(s, groups[k]) && k < MAX_SEGMENTS then Some(SegmentsOf(s, groups)[..k + 1]) else None
  {
    hide WordsEnd, Text, WordCount, Rounded, ConfidenceSum, ConfidenceCount, Trim;
    var group, segments := groups[k], SegmentsOf(s, groups);
    assert GroupOk(s, group);
    assert segments[..k + 1] == segments[..k] + [SegmentOf(s, group)];
    RoundingIsMonotone(s.Start(group[0]), WordsEnd(s, group));
    RoundingIsMonotone(WordsEnd(s, group), s.seconds);
    if k > 0 {
      assert GroupOk(s, groups[k - 1]);
      assert segments[..k][k - 1] == SegmentOf(s, groups[k - 1]);
      RoundingIsMonotone(WordsEnd(s, groups[k - 1]), s.Start(group[0]));
    }
  }

  // ---- acceptance ------------------------------------------------------------------------------------

  /** The timestamp of a word, clamped to the recording, unless it lies too far outside. */
  function BoundedTimestamp(s: Setting, time: Option<real>): Option<real> {
    var relative := s.seconds * TIMESTAMP_RELATIVE_TOLERANCE;
    var tolerance := if relative > TIMESTAMP_TOLERANCE_SECONDS then relative else TIMESTAMP_TOLERANCE_SECONDS;
    if time.None? || time.value < 0.0 || time.value > s.seconds + tolerance then None
    else Some(if time.value < s.seconds then time.value else s.seconds)
  }

  /** Not before the recording, and at most a quarter of a second or half a percent after it. */
  predicate InBounds(s: Setting, time: Option<real>) {
    time.Some? && 0.0 <= time.value && (time.value <= s.seconds + 0.25 || time.value <= s.seconds * 1.005)
  }

  lemma {:induction false} BoundedIff(s: Setting, time: Option<real>)
    requires s.seconds >= 0.0
    ensures BoundedTimestamp(s, time) == if InBounds(s, time) then Some(s.Clamp(time)) else None
  {
  }

  predicate TokenOk(s: Setting, before: seq<WordGroups.Token>, token: WordGroups.Token) {
    && Utf8Length(token.text) <= MAX_TOKEN_BYTES
    && !token.kind.Unknown?
    && (token.kind.Word? ==>
          && token.text != "" && InBounds(s, token.start) && InBounds(s, token.end)
          && WordOk(s, before, token)
          && (token.logprob.Some? ==> token.logprob.value <= 0.0))
  }

  predicate TokensOk(s: Setting, tokens: seq<WordGroups.Token>) {
    forall i :: 0 <= i < |tokens| ==> TokenOk(s, tokens[..i], tokens[i])
  }

  lemma {:induction false} TokensAreWordsOk(s: Setting, tokens: seq<WordGroups.Token>)
    requires TokensOk(s, tokens)
    ensures WordsOk(s, tokens)
  {
  }

  predicate EnvelopeOk(s: Setting, r: Response) {
    && |r.words| <= MAX_WORDS && Trim(s.alphabet, r.language) != ""
    && 0.0 <= r.languageProbability <= 1.0
  }

  predicate GroupsPresentable(s: Setting, groups: seq<seq<WordGroups.Token>>) {
    && GroupsOk(s, groups) && |groups| <= MAX_SEGMENTS
    && forall k :: 0 <= k < |groups| ==> Presentable(s, groups[k])
  }

  /** When a response is accepted, said of the whole of it. */
  predicate Acceptable(s: Setting, r: Response) {
    && EnvelopeOk(s, r)
    && TokensOk(s, r.words)
    && GroupsPresentable(s, Grouped(s, r.words))
    && Utf8Length(Text(r.words)) <= MAX_TRANSCRIPT_BYTES
    && Consistent(s, r)
    && (r.audioDuration.Some? ==> SecondsToMillis(r.audioDuration.value).Some?)
  }

  /** The tokens and the text have the same words, and segments are missing only from a blank text. */
  predicate Consistent(s: Setting, r: Response) {
    && Split(s.alphabet.space, Text(r.words)) == Split(s.alphabet.space, r.text)
    && Utf8Length(r.text) <= MAX_TRANSCRIPT_BYTES
    && (Trim(s.alphabet, r.text) == "" <==> Grouped(s, r.words) == [])
  }

  // ---- the loop --------------------------------------------------------------------------------------

  /** What the loop holds after some tokens: every closed group as a segment, and the last as a builder. */
  ghost predicate Progress(s: Setting, groups: seq<seq<WordGroups.Token>>, segments: seq<Segment>, current: Option<Builder>) {
    && GroupsOk(s, groups)
    && |groups| <= MAX_SEGMENTS + 1
    && (groups == [] ==> segments == [] && current.None?)
    && (groups != [] ==>
          && segments == SegmentsOf(s, groups)[..|groups| - 1]
          && current == Some(BuilderOf(s, groups[|groups| - 1]))
          && forall k :: 0 <= k < |groups| - 1 ==> Presentable(s, groups[k]))
  }

  lemma {:induction false} SegmentsPrefix(s: Setting, groups: seq<seq<WordGroups.Token>>, more: seq<seq<WordGroups.Token>>, n: nat)
    requires GroupsOk(s, groups) && GroupsOk(s, more) && n <= |groups| && n <= |more| && groups[..n] == more[..n]
    ensures SegmentsOf(s, groups)[..n] == SegmentsOf(s, more)[..n]
  {
  }

  lemma {:induction false} OpensGroup(s: Setting, groups: seq<seq<WordGroups.Token>>, segments: seq<Segment>, current: Option<Builder>, word: WordGroups.Token)
    requires Progress(s, groups, segments, current) && word.kind.Word? && GroupsOk(s, groups + [[word]])
    requires groups != [] ==> |groups| <= MAX_SEGMENTS && Presentable(s, groups[|groups| - 1])
    ensures Progress(s, groups + [[word]], SegmentsOf(s, groups), Some(NewBuilder(s.Start(word), s.End(word), word.text, ConfidenceOf(s, word))))
  {
    hide GroupOk, BuilderOf, NewBuilder, SegmentOf, Presentable;
    BuilderOpens(s, word);
    assert (groups + [[word]])[..|groups|] == groups[..|groups|];
    SegmentsPrefix(s, groups, groups + [[word]], |groups|);
  }

  lemma {:induction false} GrowsGroup(s: Setting, groups: seq<seq<WordGroups.Token>>, segments: seq<Segment>, current: Option<Builder>, token: WordGroups.Token)
    requires Progress(s, groups, segments, current) && groups != []
    requires GroupsOk(s, groups[|groups| - 1 := groups[|groups| - 1] + [token]])
    ensures var grown := groups[|groups| - 1 := groups[|groups| - 1] + [token]];
            && groups[|groups| - 1] != []
            && Progress(s, grown, segments, Some(BuilderOf(s, groups[|groups| - 1] + [token])))
  {
  }

  /** A refused segment refuses the response. */
  lemma {:induction false} RefusedForGood(s: Setting, tokens: seq<WordGroups.Token>, i: nat)
    requires i <= |tokens| && GroupsPresentable(s, Grouped(s, tokens)) && |Grouped(s, tokens[..i])| > 1
    requires GroupsOk(s, Grouped(s, tokens[..i]))
    ensures |Grouped(s, tokens[..i])| <= MAX_SEGMENTS
    ensures Presentable(s, Grouped(s, tokens[..i])[|Grouped(s, tokens[..i])| - 2])
  {
    hide Presentable, GroupOk;
    ClosedStay(s, tokens, i, |Grouped(s, tokens[..i])| - 2);
  }

  /**
   Accepted exactly when the whole response is acceptable; the segments are then the groups of its
   tokens.
   */
  method ParseResponse(s: Setting, r: Response) returns (segments: Option<seq<Segment>>)
    requires s.Lawful() && Rounded(s.seconds) <= U64_MAX
    ensures segments.Some? <==> Acceptable(s, r)
    ensures segments.Some? ==> segments.value == SegmentsOf(s, Grouped(s, r.words))
    ensures IsSegmentation(s, r.words, Grouped(s, r.words))
  {
    hide TokensOk, GroupsOk, Grouped, Text, WordsEnd, WordCount, Progress, GroupsPresentable, Consistent, BuilderOf, SegmentOf, Place, WordOk, InBounds, BoundedTimestamp, IsSegmentation;
    GroupedIsSegmentation(s, r.words);
    if !EnvelopeOk(s, r) {
      return None;
    }
    var reconstructed: string, done: seq<Segment>, current: Option<Builder> := "", [], None;
    var previousWordEnd: Option<real> := None;
    EmptyProgress(s, r.words);
    for i := 0 to |r.words|
      invariant TokensOk(s, r.words[..i])
      invariant reconstructed == Text(r.words[..i]) && Utf8Length(reconstructed) <= MAX_TRANSCRIPT_BYTES
      invariant Remembers(s, r.words[..i], previousWordEnd)
      invariant Progress(s, Grouped(s, r.words[..i]), done, current)
    {
      var token := r.words[i];
      TokensStep(s, r.words, i);
      GroupedStep(s, r.words, i);
      TextGrows(r.words, i + 1);
      if Utf8Length(token.text) > MAX_TOKEN_BYTES {
        return None;
      }
      match token.kind {
        case AudioEvent =>
          Dropped(s, r.words, i);
        case Unknown =>
          return None;
        case Spacing =>
          Spaces(s, r.words, i, done, current);
          reconstructed := reconstructed + token.text;
          if current.Some? {
            current := Some(current.value.PushSpacing(token.text));
          }
        case Word =>
          Timed(s, r.words[..i], token, previousWordEnd);
          BoundedIff(s, token.start);
          BoundedIff(s, token.end);
          if token.text == "" {
            return None;
          }
          var first, last := BoundedTimestamp(s, token.start), BoundedTimestamp(s, token.end);
          if first.None? || last.None? {
            return None;
          }
          var start, end := first.value, last.value;
          if end <= start || (previousWordEnd.Some? && start < previousWordEnd.value) {
            return None;
          }
          if token.logprob.Some? && token.logprob.value > 0.0 {
            return None;
          }
          Speaks(s, r.words, i, done, current, previousWordEnd);
          if ShouldSplit(s, current, previousWordEnd, start, end) {
            var pushed := PushSegment(s, done, current.value);
            if pushed.None? {
              return None;
            }
            done, current := pushed.value, None;
          }
          current := Some(if current.Some? then current.value.PushWord(token.text, end, ConfidenceOf(s, token))
                          else NewBuilder(start, end, token.text, ConfidenceOf(s, token)));
          previousWordEnd := Some(end);
          reconstructed := reconstructed + token.text;
      }
      if Utf8Length(reconstructed) > MAX_TRANSCRIPT_BYTES {
        return None;
      }
    }
    assert r.words[..|r.words|] == r.words;
    Closes(s, r.words, done, current);
    if current.Some? {
      var pushed := PushSegment(s, done, current.value);
      if pushed.None? {
        return None;
      }
      done := pushed.value;
    }
    Compares(s, r, |done|);
    if NormalizeText(s.alphabet.space, reconstructed) != NormalizeText(s.alphabet.space, r.text)
       || Utf8Length(r.text) > MAX_TRANSCRIPT_BYTES
       || ((Trim(s.alphabet, r.text) == "") != (done == []))
    {
      return None;
    }
    if r.audioDuration.Some? && SecondsToMillis(r.audioDuration.value).None? {
      return None;
    }
    segments := Some(done);
  }

  ghost predicate Remembers(s: Setting, tokens: seq<WordGroups.Token>, previousWordEnd: Option<real>) {
    previousWordEnd == if WordCount(tokens) == 0 then None else Some(WordsEnd(s, tokens))
  }

  lemma {:induction false} EmptyProgress(s: Setting, tokens: seq<WordGroups.Token>)
    ensures tokens[..0] == [] && TokensOk(s, []) && Text([]) == "" && Utf8Length("") == 0
    ensures Remembers(s, [], None) && Progress(s, Grouped(s, []), [], None)
  {
  }

  lemma {:induction false} TokensStep(s: Setting, tokens: seq<WordGroups.Token>, i: nat)
    requires i < |tokens| && TokensOk(s, tokens[..i])
    ensures TokensOk(s, tokens[..i + 1]) <==> TokenOk(s, tokens[..i], tokens[i])
    ensures TokensOk(s, tokens) ==> TokenOk(s, tokens[..i], tokens[i])
  {
    hide TokenOk;
    var now, next := tokens[..i], tokens[..i + 1];
    assert next[..i] == now && next[i] == tokens[i];
    forall k | 0 <= k < i ensures next[..k] == now[..k] && next[k] == now[k] {
    }
  }

  /** The groups after one more well-timed token. */
  lemma {:induction false} StillGrouped(s: Setting, tokens: seq<WordGroups.Token>, i: nat)
    requires i < |tokens| && TokensOk(s, tokens[..i + 1])
    ensures GroupsOk(s, Grouped(s, tokens[..i + 1])) && EndsWith(s, Grouped(s, tokens[..i + 1]), tokens[..i + 1])
    ensures GroupsOk(s, Grouped(s, tokens[..i])) && EndsWith(s, Grouped(s, tokens[..i]), tokens[..i])
  {
    hide TokenOk, WordOk, GroupsOk, EndsWith, Grouped;
    TokensAreWordsOk(s, tokens[..i + 1]);
    GroupedOk(s, tokens[..i + 1]);
    forall k | 0 <= k < i && tokens[..i][k].kind.Word? ensures WordOk(s, tokens[..i][..k], tokens[..i][k]) {
      assert tokens[..i][..k] == tokens[..i + 1][..k] && tokens[..i][k] == tokens[..i + 1][k];
    }
    GroupedOk(s, tokens[..i]);
  }

  lemma {:induction false} Dropped(s: Setting, tokens: seq<WordGroups.Token>, i: nat)
    requires i < |tokens| && tokens[i].kind.AudioEvent?
    ensures Grouped(s, tokens[..i + 1]) == Grouped(s, tokens[..i])
    ensures forall previous :: Remembers(s, tokens[..i], previous) ==> Remembers(s, tokens[..i + 1], previous)
  {
    GroupedStep(s, tokens, i);
  }

  predicate ShouldSplit(s: Setting, current: Option<Builder>, previousWordEnd: Option<real>, start: real, end: real) {
    && current.Some?
    && (|| (previousWordEnd.Some? && start - previousWordEnd.value >= PAUSE_SPLIT_SECONDS)
        || end - current.value.start > HARD_SPLIT_SECONDS
        || (start - current.value.start >= PUNCTUATION_SPLIT_SECONDS && EndsSentence(s, current.value.text)))
  }

  lemma {:induction false} NoWordsYet(s: Setting, tokens: seq<WordGroups.Token>)
    requires WordCount(tokens) == 0
    ensures WordsEnd(s, tokens) == 0.0
    decreases |tokens|
  {
    if tokens != [] {
      NoWordsYet(s, tokens[..|tokens| - 1]);
    }
  }

  /** Remembering the previous word's end is enough to check a word against all words before it. */
  lemma {:induction false} Timed(s: Setting, before: seq<WordGroups.Token>, word: WordGroups.Token, previousWordEnd: Option<real>)
    requires s.seconds >= 0.0 && Remembers(s, before, previousWordEnd)
    ensures InBounds(s, word.start) && InBounds(s, word.end) ==>
              var start, end := s.Clamp(word.start), s.Clamp(word.end);
              WordOk(s, before, word) <==> start < end && (previousWordEnd.None? || previousWordEnd.value <= start)
  {
    if WordCount(before) == 0 {
      NoWordsYet(s, before);
    }
  }

  lemma {:induction false} Spaces(s: Setting, tokens: seq<WordGroups.Token>, i: nat, done: seq<Segment>, current: Option<Builder>)
    requires i < |tokens| && tokens[i].kind.Spacing? && TokensOk(s, tokens[..i + 1])
    requires Progress(s, Grouped(s, tokens[..i]), done, current)
    ensures Progress(s, Grouped(s, tokens[..i + 1]), done,
                     if current.Some? then Some(current.value.PushSpacing(tokens[i].text)) else None)
    ensures forall previous :: Remembers(s, tokens[..i], previous) ==> Remembers(s, tokens[..i + 1], previous)
  {
    hide TokensOk, GroupOk, BuilderOf, SegmentOf, Presentable, WordsEnd, Text;
    var groups := Grouped(s, tokens[..i]);
    GroupedStep(s, tokens, i);
    StillGrouped(s, tokens, i);
    if groups != [] {
      GrowsGroup(s, groups, done, current, tokens[i]);
      BuilderGrows(s, groups[|groups| - 1], tokens[i]);
    }
  }

  /** The closure in the loop decides the splitting rule. */
  lemma {:induction false} DecidesSplit(s: Setting, groups: seq<seq<WordGroups.Token>>, before: seq<WordGroups.Token>, done: seq<Segment>,
                                        current: Option<Builder>, previousWordEnd: Option<real>, word: WordGroups.Token)
    requires Progress(s, groups, done, current) && EndsWith(s, groups, before) && Remembers(s, before, previousWordEnd)
    ensures current.Some? <==> groups != []
    ensures groups != [] ==> groups[|groups| - 1] != []
    ensures ShouldSplit(s, current, previousWordEnd, s.Start(word), s.End(word))
       <==> groups != [] && SplitsBefore(s, groups[|groups| - 1], word)
  {
  }

  lemma {:induction false} Speaks(s: Setting, tokens: seq<WordGroups.Token>, i: nat, done: seq<Segment>, current: Option<Builder>, previousWordEnd: Option<real>)
    requires i < |tokens| && tokens[i].kind.Word? && TokensOk(s, tokens[..i + 1]) && s.seconds >= 0.0 && Rounded(s.seconds) <= U64_MAX
    requires Progress(s, Grouped(s, tokens[..i]), done, current) && Remembers(s, tokens[..i], previousWordEnd)
    ensures var word := tokens[i];
            var begun := NewBuilder(s.Start(word), s.End(word), word.text, ConfidenceOf(s, word));
            var next := Grouped(s, tokens[..i + 1]);
            if !ShouldSplit(s, current, previousWordEnd, s.Start(word), s.End(word)) then
              Progress(s, next, done, Some(if current.Some? then current.value.PushWord(word.text, s.End(word), ConfidenceOf(s, word)) else begun))
            else
              var pushed := PushSegment(s, done, current.value);
              if pushed.None? then !GroupsPresentable(s, Grouped(s, tokens)) else Progress(s, next, pushed.value, Some(begun))
    ensures Remembers(s, tokens[..i + 1], Some(s.End(tokens[i])))
  {
    hide TokensOk, GroupOk, BuilderOf, NewBuilder, SegmentOf, Presentable, WordsEnd, Text, SplitsBefore, ShouldSplit, PushSegment, Progress, GroupsOk, EndsWith;
    var groups, word := Grouped(s, tokens[..i]), tokens[i];
    GroupedStep(s, tokens, i);
    StillGrouped(s, tokens, i);
    DecidesSplit(s, groups, tokens[..i], done, current, previousWordEnd, word);
    if groups == [] {
      EmptySegments(s, done, current);
      OpensGroup(s, [], done, current, word);
    } else if ShouldSplit(s, current, previousWordEnd, s.Start(word), s.End(word)) {
      SplitsOff(s, tokens, i, done, current);
    } else {
      GrowsGroup(s, groups, done, current, word);
      BuilderGrows(s, groups[|groups| - 1], word);
      CurrentIs(s, groups, done, current);
    }
  }

  lemma {:induction false} EmptySegments(s: Setting, done: seq<Segment>, current: Option<Builder>)
    requires Progress(s, [], done, current)
    ensures done == [] && current.None? && GroupsOk(s, []) && SegmentsOf(s, []) == []
  {
  }

  lemma {:induction false} CurrentIs(s: Setting, groups: seq<seq<WordGroups.Token>>, done: seq<Segment>, current: Option<Builder>)
    requires Progress(s, groups, done, current) && groups != []
    ensures groups[|groups| - 1] != [] && current == Some(BuilderOf(s, groups[|groups| - 1]))
  {
  }

  /** The push that closes a group. */
  lemma {:induction false} Pushes(s: Setting, groups: seq<seq<WordGroups.Token>>, done: seq<Segment>, current: Option<Builder>)
    requires Progress(s, groups, done, current) && groups != [] && s.seconds >= 0.0 && Rounded(s.seconds) <= U64_MAX
    ensures current.Some? && GroupsOk(s, groups) && GroupOk(s, groups[|groups| - 1])
    ensures PushSegment(s, done, current.value) ==
              if Presentable(s, groups[|groups| - 1]) && |groups| <= MAX_SEGMENTS then Some(SegmentsOf(s, groups)) else None
  {
    hide BuilderOf, SegmentOf, Presentable, GroupOk, PushSegment;
    var n := |groups| - 1;
    assert GroupOk(s, groups[n]);
    PushesSegment(s, groups, n);
    assert SegmentsOf(s, groups)[..n + 1] == SegmentsOf(s, groups);
  }

  lemma {:induction false} SplitsOff(s: Setting, tokens: seq<WordGroups.Token>, i: nat, done: seq<Segment>, current: Option<Builder>)
    requires i < |tokens| && tokens[i].kind.Word? && s.seconds >= 0.0 && Rounded(s.seconds) <= U64_MAX
    requires var groups := Grouped(s, tokens[..i]);
             && groups != [] && Progress(s, groups, done, current)
             && Grouped(s, tokens[..i + 1]) == groups + [[tokens[i]]]
    requires GroupsOk(s, Grouped(s, tokens[..i + 1]))
    ensures current.Some?
    ensures var word, pushed := tokens[i], PushSegment(s, done, current.value);
            if pushed.None? then !GroupsPresentable(s, Grouped(s, tokens))
            else Progress(s, Grouped(s, tokens[..i + 1]), pushed.value,
                          Some(NewBuilder(s.Start(word), s.End(word), word.text, ConfidenceOf(s, word))))
  {
    hide BuilderOf, NewBuilder, SegmentOf, Presentable, GroupOk, PushSegment, GroupsPresentable, GroupsOk, Progress, Grouped;
    var groups := Grouped(s, tokens[..i]);
    Pushes(s, groups, done, current);
    if PushSegment(s, done, current.value).Some? {
      OpensGroup(s, groups, done, current, tokens[i]);
    } else if GroupsPresentable(s, Grouped(s, tokens)) {
      RefusedForGood(s, tokens, i + 1);
    }
  }

  lemma {:induction false} Closes(s: Setting, tokens: seq<WordGroups.Token>, done: seq<Segment>, current: Option<Builder>)
    requires Progress(s, Grouped(s, tokens), done, current) && s.seconds >= 0.0 && Rounded(s.seconds) <= U64_MAX
    ensures GroupsOk(s, Grouped(s, tokens))
    ensures current.None? ==>
              GroupsPresentable(s, Grouped(s, tokens)) && done == SegmentsOf(s, Grouped(s, tokens))
    ensures current.Some? ==>
              PushSegment(s, done, current.value) ==
                if GroupsPresentable(s, Grouped(s, tokens)) then Some(SegmentsOf(s, Grouped(s, tokens))) else None
  {
    hide BuilderOf, SegmentOf, Presentable, GroupOk, PushSegment, Grouped;
    var groups := Grouped(s, tokens);
    if groups != [] {
      Pushes(s, groups, done, current);
    }
  }

  lemma {:induction false} Compares(s: Setting, r: Response, segments: nat)
    requires s.alphabet.space(' ') && segments == |Grouped(s, r.words)|
    ensures Consistent(s, r) <==>
              && NormalizeText(s.alphabet.space, Text(r.words)) == NormalizeText(s.alphabet.space, r.text)
              && Utf8Length(r.text) <= MAX_TRANSCRIPT_BYTES
              && ((Trim(s.alphabet, r.text) == "") == (segments == 0))
  {
    hide Grouped, Text, Trim;
    NormalizedAlike(s.alphabet.space, Text(r.words), r.text);
  }

  // ---- the result ------------------------------------------------------------------------------------

  /** The recording as the parser sees it. */
  function SettingOf(alphabet: Alphabet, probability: real -> real, duration: nat): (s: Setting)
    ensures s.seconds >= 0.0 && Rounded(s.seconds) == duration
  {
    RoundingIsExact(duration);
    Setting(duration as real / 1000.0, alphabet, probability)
  }

  lemma {:induction false} SegmentsTimeline(s: Setting, groups: seq<seq<WordGroups.Token>>)
    requires GroupsPresentable(s, groups) && s.seconds >= 0.0
    ensures Timeline(SegmentSpans(SegmentsOf(s, groups)), Rounded(s.seconds))
  {
  }

  predicate LogprobsOk(tokens: seq<WordGroups.Token>) {
    forall i :: 0 <= i < |tokens| && tokens[i].kind.Word? && tokens[i].logprob.Some? ==> tokens[i].logprob.value <= 0.0
  }

  lemma {:induction false} SumBounded(s: Setting, group: seq<WordGroups.Token>)
    requires s.Lawful() && LogprobsOk(group)
    ensures 0.0 <= ConfidenceSum(s, group) <= ConfidenceCount(group) as real
    decreases |group|
  {
    if group != [] {
      SumBounded(s, group[..|group| - 1]);
    }
  }

  lemma {:induction false} ConfidenceBounded(s: Setting, group: seq<WordGroups.Token>)
    requires s.Lawful() && LogprobsOk(group) && group != []
    ensures ConfidenceInRange(BuilderOf(s, group).Confidence())
  {
    SumBounded(s, group);
    var b := BuilderOf(s, group);
    if b.Confidence().Some? {
      QuotientBounded(b.confidenceSum, b.wordCount as real);
    }
  }

  lemma {:induction false} QuotientBounded(sum: real, count: real)
    requires 0.0 <= sum <= count && count > 0.0
    ensures 0.0 <= sum / count <= 1.0
  {
  }

  /** The log-probabilities of a group are those of its tokens. */
  lemma {:induction false} GroupLogprobs(s: Setting, tokens: seq<WordGroups.Token>, k: nat)
    requires LogprobsOk(tokens) && k < |Grouped(s, tokens)|
    ensures LogprobsOk(Grouped(s, tokens)[k])
    decreases |tokens|
  {
    hide SplitsBefore;
    if tokens != [] {
      var n := |tokens| - 1;
      var before := Grouped(s, tokens[..n]);
      if k < |before| {
        GroupLogprobs(s, tokens[..n], k);
      }
    }
  }

  lemma {:induction false} ResultIsValid(s: Setting, profile: Profile, r: Response, result: RecognitionResult)
    requires s.Lawful() && Acceptable(s, r) && result.profile == profile && result.durationMillis == Rounded(s.seconds)
    requires result.segments == SegmentsOf(s, Grouped(s, r.words)) && result.readable.None?
    ensures ValidResult(profile, Rounded(s.seconds), result)
       <==> Utf8Length(result.text) + SegmentsBytes(result.segments) <= MAX_TRANSCRIPT_BYTES
  {
    hide Grouped, TokensOk, WordsEnd, Rounded, ConfidenceInRange, BuilderOf, SegmentsBytes, Timeline, Text, Consistent;
    var groups := Grouped(s, r.words);
    SegmentsTimeline(s, groups);
    AllLogprobs(s, r.words);
    forall k | 0 <= k < |groups| ensures result.segments[k].text != "" && ConfidenceInRange(result.segments[k].confidence) {
      assert GroupOk(s, groups[k]) && Presentable(s, groups[k]);
      GroupLogprobs(s, r.words, k);
      ConfidenceBounded(s, groups[k]);
    }
  }

  lemma {:induction false} AllLogprobs(s: Setting, tokens: seq<WordGroups.Token>)
    requires TokensOk(s, tokens)
    ensures LogprobsOk(tokens)
  {
  }

  function TextsOf(segments: seq<Segment>): string {
    if segments == [] then "" else TextsOf(segments[..|segments| - 1]) + segments[|segments| - 1].text
  }

  lemma {:induction false} TextsAreSpelled(s: Setting, groups: seq<seq<WordGroups.Token>>)
    requires GroupsOk(s, groups)
    ensures TextsOf(SegmentsOf(s, groups)) == Spelled(groups)
    decreases |groups|
  {
    hide GroupOk, WordsEnd, Text, Rounded, BuilderOf;
    if groups != [] {
      var n := |groups| - 1;
      assert SegmentsOf(s, groups)[..n] == SegmentsOf(s, groups[..n]);
      TextsAreSpelled(s, groups[..n]);
    }
  }

  /**
   Every accepted response becomes segments that lie in order and apart within the recording, spell
   every token from the first word on, and meet every condition of the result validator except,
   possibly, the total size.
   */
  method Recognize(alphabet: Alphabet, probability: real -> real, profile: Profile, r: Response, duration: nat)
    returns (result: Option<RecognitionResult>)
    requires SettingOf(alphabet, probability, duration).Lawful() && duration <= U64_MAX
    ensures result.Some? <==> Acceptable(SettingOf(alphabet, probability, duration), r)
    ensures result.Some? ==>
              && result.value.text == r.text && result.value.providerReference == r.reference
              && result.value.profile == profile && result.value.durationMillis == duration && result.value.readable.None?
              && result.value.segments
                 == SegmentsOf(SettingOf(alphabet, probability, duration), Grouped(SettingOf(alphabet, probability, duration), r.words))
    ensures result.Some? ==>
              var s := SettingOf(alphabet, probability, duration);
              var groups := Grouped(s, r.words);
              && IsSegmentation(s, r.words, groups) && |result.value.segments| == |groups|
              && forall k :: 0 <= k < |groups| ==> TellsGroup(s, groups[k], result.value.segments[k])
    ensures result.Some? ==>
              && Timeline(SegmentSpans(result.value.segments), duration)
              && TextsOf(result.value.segments) == Text(FromFirstWord(r.words))
              && (ValidResult(profile, duration, result.value)
                  <==> Utf8Length(r.text) + SegmentsBytes(result.value.segments) <= MAX_TRANSCRIPT_BYTES)
  {
    hide GroupsPresentable, Grouped, ValidResult, Timeline, SegmentOf, SegmentsBytes, TokensOk, Consistent, EnvelopeOk, Text;
    hide IsSegmentation, TellsGroup;
    var s := SettingOf(alphabet, probability, duration);
    var segments := ParseResponse(s, r);
    if segments.None? {
      return None;
    }
    var value := RecognitionResult(
      profile, r.text, duration, if r.audioDuration.Some? then SecondsToMillis(r.audioDuration.value) else None,
      segments.value, None, r.reference);
    Ordered(s, Grouped(s, r.words));
    SegmentsTimeline(s, Grouped(s, r.words));
    TextsAreSpelled(s, Grouped(s, r.words));
    NothingLost(s, r.words);
    ResultIsValid(s, profile, r, value);
    AllTell(s, Grouped(s, r.words));
    result := Some(value);
  }

  lemma {:induction false} AllTell(s: Setting, groups: seq<seq<WordGroups.Token>>)
    requires GroupsOk(s, groups)
    ensures forall k :: 0 <= k < |groups| ==> GroupOk(s, groups[k]) && TellsGroup(s, groups[k], SegmentsOf(s, groups)[k])
  {
    hide TellsGroup, SegmentOf;
    forall k | 0 <= k < |groups| ensures GroupOk(s, groups[k]) && TellsGroup(s, groups[k], SegmentsOf(s, groups)[k]) {
      SegmentTells(s, groups[k]);
    }
  }

  lemma {:induction false} Ordered(s: Setting, groups: seq<seq<WordGroups.Token>>)
    requires GroupsPresentable(s, groups)
    ensures GroupsOk(s, groups)
  {
  }
}
