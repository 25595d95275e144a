/**
 How a provider's word tokens are grouped into segments (the splitting rules of `parse_response` and
 `SegmentBuilder` in crates/voicetext-providers/src/elevenlabs/dto.rs), as a function of the tokens
 and with the properties the segments are promised.
 */
module WordGroups {
  import opened Base
  import opened LiveText

  const PAUSE_SPLIT_SECONDS: real := 0.8
  const PUNCTUATION_SPLIT_SECONDS: real := 12.0
  const HARD_SPLIT_SECONDS: real := 20.0

  datatype Kind = Word | Spacing | AudioEvent | Unknown

  datatype Token = Token(kind: Kind, text: string, start: Option<real>, end: Option<real>, logprob: Option<real>)

  /** The recording: its length, white space, and the exponential the confidences use. */
  datatype Setting = Setting(seconds: real, alphabet: Alphabet, probability: real -> real) {
    ghost predicate Lawful() {
      && seconds >= 0.0 && alphabet.space(' ')
      && forall x: real :: x <= 0.0 ==> 0.0 <= probability(x) <= 1.0
    }

    /** A timestamp, clamped to the recording. */
    function Clamp(time: Option<real>): real {
      if time.None? then 0.0 else if time.value > seconds then seconds else time.value
    }

    function Start(token: Token): real { Clamp(token.start) }

    function End(token: Token): real { Clamp(token.end) }
  }

  // ---- groups ----------------------------------------------------------------------------------

  /** The end of the last word, or zero. */
  function WordsEnd(s: Setting, tokens: seq<Token>): real {
    if tokens == [] then 0.0
    else
      var last := tokens[|tokens| - 1];
      if last.kind.Word? then s.End(last) else WordsEnd(s, tokens[..|tokens| - 1])
  }

  function WordCount(tokens: seq<Token>): nat {
    if tokens == [] then 0
    else WordCount(tokens[..|tokens| - 1]) + (if tokens[|tokens| - 1].kind.Word? then 1 else 0)
  }

  /** The text the words and the spacing between them spell. */
  function Text(tokens: seq<Token>): string {
    if tokens == [] then ""
    else
      var last := tokens[|tokens| - 1];
      Text(tokens[..|tokens| - 1]) + if last.kind.Word? || last.kind.Spacing? then last.text else ""
  }

  function EndsSentence(s: Setting, text: string): bool {
    var trimmed := TrimEnd(s.alphabet, text);
    trimmed != "" && trimmed[|trimmed| - 1] in {'.', '!', '?', '\U{3002}', '\U{FF01}', '\U{FF1F}'}
  }

  /** Whether a word begins a new segment after the group. */
  predicate SplitsBefore(s: Setting, group: seq<Token>, word: Token)
    requires group != []
  {
    || s.Start(word) - WordsEnd(s, group) >= PAUSE_SPLIT_SECONDS
    || s.End(word) - s.Start(group[0]) > HARD_SPLIT_SECONDS
    || (s.Start(word) - s.Start(group[0]) >= PUNCTUATION_SPLIT_SECONDS && EndsSentence(s, Text(group)))
  }

  /** One more token: it joins the last group, opens a new one, or is dropped. */
  function Place(s: Setting, groups: seq<seq<Token>>, token: Token): seq<seq<Token>> {
    if token.kind.Word? then
      if groups == [] || groups[|groups| - 1] == [] || SplitsBefore(s, groups[|groups| - 1], token) then groups + [[token]]
      else groups[|groups| - 1 := groups[|groups| - 1] + [token]]
    else if token.kind.Spacing? && groups != [] then groups[|groups| - 1 := groups[|groups| - 1] + [token]]
    else groups
  }

  function Grouped(s: Setting, tokens: seq<Token>): seq<seq<Token>> {
    if tokens == [] then [] else Place(s, Grouped(s, tokens[..|tokens| - 1]), tokens[|tokens| - 1])
  }

  lemma {:induction false} GroupedStep(s: Setting, tokens: seq<Token>, i: nat)
    requires i < |tokens|
    ensures Grouped(s, tokens[..i + 1]) == Place(s, Grouped(s, tokens[..i]), tokens[i])
    ensures Text(tokens[..i + 1]) == Text(tokens[..i]) + if tokens[i].kind.Word? || tokens[i].kind.Spacing? then tokens[i].text else ""
    ensures WordsEnd(s, tokens[..i + 1]) == if tokens[i].kind.Word? then s.End(tokens[i]) else WordsEnd(s, tokens[..i])
    ensures WordCount(tokens[..i + 1]) == WordCount(tokens[..i]) + if tokens[i].kind.Word? then 1 else 0
  {
    assert tokens[..i + 1][..i] == tokens[..i];
  }

  // ---- what a group is -------------------------------------------------------------------------

  /** A word with its times in order, starting no earlier than the words before it end. */
  predicate WordOk(s: Setting, before: seq<Token>, word: Token) {
    && 0.0 <= s.Start(word) < s.End(word) <= s.seconds
    && WordsEnd(s, before) <= s.Start(word)
  }

  predicate WordsOk(s: Setting, tokens: seq<Token>) {
    forall i :: 0 <= i < |tokens| && tokens[i].kind.Word? ==> WordOk(s, tokens[..i], tokens[i])
  }

  /** Opens with a word, spans at most twenty seconds unless it is that word alone, and has no long pause inside. */
  predicate GroupOk(s: Setting, group: seq<Token>) {
    && group != [] && group[0].kind.Word?
    && 0.0 <= s.Start(group[0]) < WordsEnd(s, group) <= s.seconds
    && (WordCount(group) > 1 ==> WordsEnd(s, group) - s.Start(group[0]) <= HARD_SPLIT_SECONDS)
    && (forall j :: 0 < j < |group| && group[j].kind.Word? ==>
          0.0 <= s.Start(group[j]) - WordsEnd(s, group[..j]) < PAUSE_SPLIT_SECONDS)
  }

  predicate GroupsOk(s: Setting, groups: seq<seq<Token>>) {
    && (forall k :: 0 <= k < |groups| ==> GroupOk(s, groups[k]))
    && (forall k, l :: 0 <= k < l < |groups| ==> WordsEnd(s, groups[k]) <= s.Start(groups[l][0]))
  }

  lemma {:induction false} Alone(s: Setting, word: Token)
    requires word.kind.Word? && 0.0 <= s.Start(word) < s.End(word) <= s.seconds
    ensures GroupOk(s, [word]) && WordsEnd(s, [word]) == s.End(word)
  {
    assert [word][..0] == [];
    assert WordCount([word]) == 1;
  }

  lemma {:induction false} Joins(s: Setting, group: seq<Token>, token: Token)
    requires GroupOk(s, group)
    requires token.kind.Spacing?
             || (token.kind.Word? && !SplitsBefore(s, group, token)
                 && WordsEnd(s, group) <= s.Start(token) < s.End(token) <= s.seconds)
    ensures GroupOk(s, group + [token])
    ensures WordsEnd(s, group + [token]) == if token.kind.Word? then s.End(token) else WordsEnd(s, group)
  {
    var longer := group + [token];
    assert longer[..|group|] == group;
    forall j | 0 < j < |longer| && longer[j].kind.Word?
      ensures 0.0 <= s.Start(longer[j]) - WordsEnd(s, longer[..j]) < PAUSE_SPLIT_SECONDS
    {
      assert longer[..j] == group[..j];
      if j == |group| {
        assert group[..j] == group;
      }
    }
  }

  /** The last group ends where the words so far end. */
  predicate EndsWith(s: Setting, groups: seq<seq<Token>>, tokens: seq<Token>) {
    (groups == [] <==> WordCount(tokens) == 0) && (groups != [] ==> WordsEnd(s, groups[|groups| - 1]) == WordsEnd(s, tokens))
  }

  lemma {:induction false} PlaceKeeps(s: Setting, groups: seq<seq<Token>>, token: Token)
    requires GroupsOk(s, groups)
    requires token.kind.Word? ==>
               && 0.0 <= s.Start(token) < s.End(token) <= s.seconds
               && (groups != [] ==> WordsEnd(s, groups[|groups| - 1]) <= s.Start(token))
    ensures GroupsOk(s, Place(s, groups, token))
    ensures Place(s, groups, token) != [] <==> groups != [] || token.kind.Word?
    ensures var placed := Place(s, groups, token);
            placed != [] ==>
              WordsEnd(s, placed[|placed| - 1]) == if token.kind.Word? then s.End(token) else WordsEnd(s, groups[|groups| - 1])
  {
    hide GroupOk, SplitsBefore, WordsEnd;
    var placed, last := Place(s, groups, token), |groups| - 1;
    if groups != [] {
      Shape(s, groups[last]);
    }
    if token.kind.Word? && (groups == [] || SplitsBefore(s, groups[last], token)) {
      Alone(s, token);
      assert placed == groups + [[token]];
      forall k | 0 <= k < |groups| ensures groups[k] != [] {
        Shape(s, groups[k]);
      }
      forall k, l | 0 <= k < l < |placed| ensures WordsEnd(s, placed[k]) <= s.Start(placed[l][0]) {
        if l == |groups| && k < last {
          assert WordsEnd(s, groups[k]) <= s.Start(groups[last][0]);
        }
      }
    } else if groups != [] && (token.kind.Word? || token.kind.Spacing?) {
      Joins(s, groups[last], token);
    }
  }

  lemma {:induction false} Shape(s: Setting, group: seq<Token>)
    requires GroupOk(s, group)
    ensures group != [] && group[0].kind.Word? && s.Start(group[0]) < WordsEnd(s, group)
  {
  }

  /** Every group of a well-timed token list is a proper segment, and the groups are in order. */
  lemma {:induction false} GroupedOk(s: Setting, tokens: seq<Token>)
    requires WordsOk(s, tokens)
    ensures GroupsOk(s, Grouped(s, tokens)) && EndsWith(s, Grouped(s, tokens), tokens)
    decreases |tokens|
  {
    if tokens != [] {
      var n := |tokens| - 1;
      forall i | 0 <= i < n && tokens[..n][i].kind.Word? ensures WordOk(s, tokens[..n][..i], tokens[..n][i]) {
        assert tokens[..n][..i] == tokens[..i];
      }
      GroupedOk(s, tokens[..n]);
      PlaceKeeps(s, Grouped(s, tokens[..n]), tokens[n]);
    }
  }

  // ---- nothing is lost -------------------------------------------------------------------------

  function Spelled(groups: seq<seq<Token>>): string {
    if groups == [] then "" else Spelled(groups[..|groups| - 1]) + Text(groups[|groups| - 1])
  }

  /** The tokens from the first word on. */
  function FromFirstWord(tokens: seq<Token>): seq<Token> {
    if tokens == [] || tokens[0].kind.Word? then tokens else FromFirstWord(tokens[1..])
  }

  lemma {:induction false} FromFirstWordStep(tokens: seq<Token>, token: Token)
    ensures FromFirstWord(tokens + [token]) ==
              if FromFirstWord(tokens) == [] && !token.kind.Word? then [] else FromFirstWord(tokens) + [token]
    decreases |tokens|
  {
    var all := tokens + [token];
    if tokens == [] {
      assert all == [token] && all[1..] == [];
    } else if !tokens[0].kind.Word? {
      assert all[1..] == tokens[1..] + [token];
      FromFirstWordStep(tokens[1..], token);
    }
  }

  lemma {:induction false} SpelledStep(groups: seq<seq<Token>>, group: seq<Token>, token: Token)
    ensures Spelled(groups + [group]) == Spelled(groups) + Text(group)
    ensures token.kind.Word? || token.kind.Spacing? ==> Text(group + [token]) == Text(group) + token.text
  {
  }

  /** The segments spell exactly the tokens, save the spacing before the first word. */
  lemma {:induction false} NothingLost(s: Setting, tokens: seq<Token>)
    ensures Spelled(Grouped(s, tokens)) == Text(FromFirstWord(tokens))
    ensures Grouped(s, tokens) == [] <==> FromFirstWord(tokens) == []
    decreases |tokens|
  {
    if tokens != [] {
      var n := |tokens| - 1;
      var before, token, groups := tokens[..n], tokens[n], Grouped(s, tokens[..n]);
      assert tokens == before + [token];
      NothingLost(s, before);
      FromFirstWordStep(before, token);
      var spoken := FromFirstWord(before);
      assert (spoken + [token])[..|spoken|] == spoken;
      PlaceSpells(s, groups, token);
    }
  }

  lemma {:induction false} PlaceSpells(s: Setting, groups: seq<seq<Token>>, token: Token)
    ensures Spelled(Place(s, groups, token)) ==
              Spelled(groups) + if token.kind.Word? || (token.kind.Spacing? && groups != []) then token.text else ""
    ensures Place(s, groups, token) == [] <==> groups == [] && !token.kind.Word?
  {
    hide SplitsBefore, Text, Spelled;
    var placed, n := Place(s, groups, token), |groups| - 1;
    if groups != [] && placed == groups[n := groups[n] + [token]] && (token.kind.Word? || token.kind.Spacing?) {
      var head, last := groups[..n], groups[n];
      assert groups == head + [last] && placed == head + [last + [token]];
      SpelledStep(head, last, token);
      SpelledStep(head, last + [token], token);
      assert Spelled(head) + (Text(last) + token.text) == Spelled(head) + Text(last) + token.text;
    } else if token.kind.Word? {
      assert placed == groups + [[token]];
      SpelledStep(groups, [token], token);
      TextAlone(token);
    } else {
      assert placed == groups;
    }
  }

  lemma {:induction false} TextAlone(token: Token)
    requires token.kind.Word?
    ensures Text([token]) == token.text
  {
  }

  // ---- closed groups stay as they are ------------------------------------------------------------

  /** All groups but the last are final. */
  lemma {:induction false} ClosedStay(s: Setting, tokens: seq<Token>, i: nat, k: nat)
    requires i <= |tokens| && k + 1 < |Grouped(s, tokens[..i])|
    ensures k + 1 < |Grouped(s, tokens)| && Grouped(s, tokens)[k] == Grouped(s, tokens[..i])[k]
    ensures |Grouped(s, tokens[..i])| <= |Grouped(s, tokens)|
    decreases |tokens| - i
  {
    if i == |tokens| {
      assert tokens[..i] == tokens;
    } else {
      GroupedStep(s, tokens, i);
      ClosedStay(s, tokens, i + 1, k);
    }
  }

  lemma {:induction false} TextGrows(tokens: seq<Token>, i: nat)
    requires i <= |tokens|
    ensures Utf8Length(Text(tokens[..i])) <= Utf8Length(Text(tokens))
    decreases |tokens| - i
  {
    if i == |tokens| {
      assert tokens[..i] == tokens;
    } else {
      assert tokens[..i + 1][..i] == tokens[..i];
      var more := if tokens[i].kind.Word? || tokens[i].kind.Spacing? then tokens[i].text else "";
      Utf8Concat(Text(tokens[..i]), more);
      assert Text(tokens[..i + 1]) == Text(tokens[..i]) + more;
      TextGrows(tokens, i + 1);
    }
  }

  // ---- the segmentation, by its reasons ------------------------------------------------------------

  predicate LastWord(group: seq<Token>, l: nat) {
    && l < |group| && group[l].kind.Word?
    && forall j :: l < j < |group| ==> !group[j].kind.Word?
  }

  /** Sentence punctuation, and nothing but white space after it. */
  ghost predicate ClosesSentence(s: Setting, text: string) {
    exists k :: 0 <= k < |text| && !s.alphabet.space(text[k])
      && text[k] in ['.', '!', '?', '\U{3002}', '\U{FF01}', '\U{FF1F}']
      && forall j :: k < j < |text| ==> s.alphabet.space(text[j])
  }

  /** A pause of 0.8 s, more than 20 s in all, or 12 s and the end of a sentence. */
  ghost predicate HasReason(s: Setting, group: seq<Token>, word: Token) {
    && group != []
    && (|| (exists l: nat :: LastWord(group, l) && s.Start(word) - s.End(group[l]) >= 0.8)
        || s.End(word) - s.Start(group[0]) > 20.0
        || (s.Start(word) - s.Start(group[0]) >= 12.0 && ClosesSentence(s, Text(group))))
  }

  function Flat(groups: seq<seq<Token>>): seq<Token> {
    if groups == [] then [] else groups[0] + Flat(groups[1..])
  }

  /** Words and spacing; audio events are not spoken. */
  function Kept(tokens: seq<Token>): seq<Token> {
    if tokens == [] then []
    else
      var last := tokens[|tokens| - 1];
      Kept(tokens[..|tokens| - 1]) + if last.kind.Word? || last.kind.Spacing? then [last] else []
  }

  /** Split exactly where there is a reason. */
  ghost predicate SplitByReason(s: Setting, groups: seq<seq<Token>>) {
    && (forall k :: 0 <= k < |groups| ==> groups[k] != [] && groups[k][0].kind.Word?)
    && (forall k, j :: 0 <= k < |groups| && 0 < j < |groups[k]| && groups[k][j].kind.Word? ==> !HasReason(s, groups[k][..j], groups[k][j]))
    && (forall k :: 0 < k < |groups| ==> HasReason(s, groups[k - 1], groups[k][0]))
  }

  /** The groups are the tokens from the first word on, split exactly where there is a reason. */
  ghost predicate IsSegmentation(s: Setting, tokens: seq<Token>, groups: seq<seq<Token>>) {
    Flat(groups) == Kept(FromFirstWord(tokens)) && SplitByReason(s, groups)
  }

  lemma {:induction false} WordsEndIsLast(s: Setting, group: seq<Token>, l: nat)
    requires LastWord(group, l)
    ensures WordsEnd(s, group) == s.End(group[l])
    decreases |group|
  {
    if l < |group| - 1 {
      WordsEndIsLast(s, group[..|group| - 1], l);
    }
  }

  lemma {:induction false} SomeLastWord(group: seq<Token>) returns (l: nat)
    requires group != [] && group[0].kind.Word?
    ensures LastWord(group, l)
    decreases |group|
  {
    l := |group| - 1;
    if !group[l].kind.Word? {
      var n := l;
      l := SomeLastWord(group[..n]);
      assert forall j :: l < j < n ==> group[..n][j] == group[j];
    }
  }

  lemma {:induction false} EndsSentenceIff(s: Setting, text: string)
    ensures EndsSentence(s, text) <==> ClosesSentence(s, text)
    decreases |text|
  {
    if text != "" {
      var n := |text| - 1;
      if s.alphabet.space(text[n]) {
        EndsSentenceIff(s, text[..n]);
        assert TrimEnd(s.alphabet, text) == TrimEnd(s.alphabet, text[..n]);
        if ClosesSentence(s, text[..n]) {
          var k :| 0 <= k < n && !s.alphabet.space(text[..n][k])
            && text[..n][k] in ['.', '!', '?', '\U{3002}', '\U{FF01}', '\U{FF1F}']
            && forall j :: k < j < n ==> s.alphabet.space(text[..n][j]);
          assert forall j :: k < j < |text| ==> s.alphabet.space(text[j]) by {
            assert forall j :: k < j < n ==> text[..n][j] == text[j];
          }
        }
      }
    }
  }

  /** The loop's rule is the three reasons. */
  lemma {:induction false} SplitsIffReason(s: Setting, group: seq<Token>, word: Token)
    requires group != [] && group[0].kind.Word?
    ensures SplitsBefore(s, group, word) <==> HasReason(s, group, word)
  {
    hide WordsEnd, Text, EndsSentence, ClosesSentence;
    EndsSentenceIff(s, Text(group));
    var l := SomeLastWord(group);
    WordsEndIsLast(s, group, l);
    forall m: nat | LastWord(group, m) ensures m == l {
    }
  }

  lemma {:induction false} FlatAppend(groups: seq<seq<Token>>, more: seq<seq<Token>>)
    ensures Flat(groups + more) == Flat(groups) + Flat(more)
  {
    if groups == [] {
      assert groups + more == more;
    } else {
      FlatAppend(groups[1..], more);
      assert (groups + more)[1..] == groups[1..] + more;
    }
  }

  lemma {:induction false} PlaceFlat(s: Setting, groups: seq<seq<Token>>, token: Token)
    ensures Flat(Place(s, groups, token)) ==
              if token.kind.Word? || (token.kind.Spacing? && groups != []) then Flat(groups) + [token] else Flat(groups)
  {
    hide SplitsBefore;
    var placed, n := Place(s, groups, token), |groups| - 1;
    if groups != [] && placed == groups[n := groups[n] + [token]] && (token.kind.Word? || token.kind.Spacing?) {
      var head, last := groups[..n], groups[n];
      assert groups == head + [last] && placed == head + [last + [token]];
      FlatAppend(head, [last]);
      FlatAppend(head, [last + [token]]);
      FlatOne(last);
      FlatOne(last + [token]);
      assert Flat(head) + (last + [token]) == Flat(head) + last + [token];
    } else if token.kind.Word? {
      assert placed == groups + [[token]];
      FlatAppend(groups, [[token]]);
      FlatOne([token]);
    }
  }

  lemma {:induction false} FlatOne(group: seq<Token>)
    ensures Flat([group]) == group
  {
    assert [group][1..] == [];
    assert group + [] == group;
  }

  lemma {:induction false} PlaceByReason(s: Setting, groups: seq<seq<Token>>, token: Token)
    requires SplitByReason(s, groups)
    ensures SplitByReason(s, Place(s, groups, token))
  {
    hide SplitsBefore, HasReason;
    var placed: seq<seq<Token>> := Place(s, groups, token);
    var n := |groups| - 1;
    if groups != [] {
      SplitsIffReason(s, groups[n], token);
    }
    if groups != [] && placed == groups[n := groups[n] + [token]] {
      forall j: nat | 0 < j < |placed[n]| && placed[n][j].kind.Word? ensures !HasReason(s, placed[n][..j], placed[n][j]) {
        assert placed[n][..j] == groups[n][..j];
        if j == |groups[n]| {
          assert groups[n][..j] == groups[n];
        }
      }
    }
  }

  lemma {:induction false} KeptStep(tokens: seq<Token>, token: Token)
    ensures Kept(tokens + [token]) == if token.kind.Word? || token.kind.Spacing? then Kept(tokens) + [token] else Kept(tokens)
  {
    assert (tokens + [token])[..|tokens|] == tokens;
  }

  /** The segments are split exactly for the three reasons. */
  lemma {:induction false} GroupedIsSegmentation(s: Setting, tokens: seq<Token>)
    ensures IsSegmentation(s, tokens, Grouped(s, tokens))
    decreases |tokens|
  {
    hide SplitByReason, Place;
    if tokens == [] {
      NoGroups(s);
    } else {
      var n := |tokens| - 1;
      var before, token, groups := tokens[..n], tokens[n], Grouped(s, tokens[..n]);
      assert tokens == before + [token];
      GroupedIsSegmentation(s, before);
      NothingLost(s, before);
      FromFirstWordStep(before, token);
      KeptStep(FromFirstWord(before), token);
      PlaceFlat(s, groups, token);
      PlaceByReason(s, groups, token);
    }
  }

  lemma {:induction false} NoGroups(s: Setting)
    ensures SplitByReason(s, [])
  {
  }

  /** There is only one way to split for the three reasons. */
  lemma {:induction false} SegmentationUnique(s: Setting, left: seq<seq<Token>>, right: seq<seq<Token>>)
    requires SplitByReason(s, left) && SplitByReason(s, right) && Flat(left) == Flat(right)
    ensures left == right
    decreases |left|
  {
    hide HasReason;
    if left != [] && right != [] {
      FirstNotShorter(s, left, right);
      FirstNotShorter(s, right, left);
      assert left[0] == Flat(left)[..|left[0]|] && right[0] == Flat(right)[..|right[0]|];
      assert Flat(left[1..]) == Flat(left)[|left[0]|..] && Flat(right[1..]) == Flat(right)[|right[0]|..];
      RestByReason(s, left);
      RestByReason(s, right);
      SegmentationUnique(s, left[1..], right[1..]);
      assert left == [left[0]] + left[1..] && right == [right[0]] + right[1..];
    }
  }

  lemma {:induction false} RestByReason(s: Setting, groups: seq<seq<Token>>)
    requires SplitByReason(s, groups) && groups != []
    ensures SplitByReason(s, groups[1..])
  {
    hide HasReason;
    var rest := groups[1..];
    forall k | 0 <= k < |rest| ensures rest[k] == groups[k + 1] {
    }
    forall k | 0 < k < |rest| ensures HasReason(s, rest[k - 1], rest[k][0]) {
      assert HasReason(s, groups[k], groups[k + 1][0]);
    }
  }

  /** A word that has a reason to open a new segment after the tokens before it. */
  ghost predicate CutAt(s: Setting, tokens: seq<Token>, n: nat) {
    n < |tokens| && tokens[n].kind.Word? && HasReason(s, tokens[..n], tokens[n])
  }

  /** The first segment ends at the first such word, or takes all. */
  lemma {:induction false} FirstGroup(s: Setting, groups: seq<seq<Token>>)
    requires SplitByReason(s, groups) && groups != []
    ensures var n, flat := |groups[0]|, Flat(groups);
            && 0 < n <= |flat| && groups[0] == flat[..n] && (n == |flat| || CutAt(s, flat, n))
            && forall j: nat :: 0 < j < n ==> !CutAt(s, flat, j)
  {
    hide HasReason;
    var n, flat := |groups[0]|, Flat(groups);
    assert flat[..n] == groups[0];
    if |groups| == 1 {
      assert groups[1..] == [];
    } else {
      assert groups[1..][0] == groups[1];
      assert flat[n] == groups[1][0] && HasReason(s, groups[0], groups[1][0]);
    }
    forall j: nat | 0 < j < n ensures !CutAt(s, flat, j) {
      assert flat[j] == groups[0][j] && flat[..j] == groups[0][..j];
    }
  }

  lemma {:induction false} FirstNotShorter(s: Setting, left: seq<seq<Token>>, right: seq<seq<Token>>)
    requires SplitByReason(s, left) && SplitByReason(s, right) && Flat(left) == Flat(right) && left != [] && right != []
    ensures |left[0]| >= |right[0]|
  {
    hide CutAt, SplitByReason;
    FirstGroup(s, left);
    FirstGroup(s, right);
  }
}
