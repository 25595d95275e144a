/**
 Merging the text of an utterance contained in the previous one (`merge_contained_text`,
 `contains_words` and `words_equal` in crates/voicetext-providers/src/deepgram/timeline.rs).

 White space and lower-casing of a word are tables.
 */
module WordMerge {
  import opened Base
  import opened SpacedText

  datatype Tables = Tables(space: char -> bool, lowercase: string -> string) {
    predicate Lawful() {
      space(' ')
    }
  }

  /** Words up to case. */
  function Fold(t: Tables, words: seq<string>): (r: seq<string>)
    ensures |r| == |words|
  {
    seq(|words|, i requires 0 <= i < |words| => t.lowercase(words[i]))
  }

  function FoldedWords(t: Tables, text: string): seq<string> {
    Fold(t, Split(t.space, text))
  }

  lemma {:induction false} FoldConcat(t: Tables, left: seq<string>, right: seq<string>)
    ensures Fold(t, left + right) == Fold(t, left) + Fold(t, right)
  {
  }

  lemma {:induction false} FoldSlice(t: Tables, words: seq<string>, i: nat, j: nat)
    requires i <= j <= |words|
    ensures Fold(t, words[i..j]) == Fold(t, words)[i..j]
  {
  }

  predicate InfixAt(needle: seq<string>, haystack: seq<string>, k: nat) {
    k + |needle| <= |haystack| && haystack[k..k + |needle|] == needle
  }

  /** The needle's words occur in the haystack next to each other and in order. */
  ghost predicate Within(needle: seq<string>, haystack: seq<string>) {
    exists k: nat :: InfixAt(needle, haystack, k)
  }

  /** All words of the text occur, up to case and in one piece, in the other. */
  ghost predicate Retained(t: Tables, text: string, result: string) {
    Within(FoldedWords(t, text), FoldedWords(t, result))
  }

  lemma {:induction false} WithinTransitive(a: seq<string>, b: seq<string>, c: seq<string>)
    requires Within(a, b) && Within(b, c)
    ensures Within(a, c)
  {
    var i: nat :| InfixAt(a, b, i);
    var j: nat :| InfixAt(b, c, j);
    forall k | 0 <= k < |a| ensures c[i + j + k] == a[k] {
      assert b[i + k] == a[k] && c[j + (i + k)] == c[j..j + |b|][i + k];
      assert b[i..i + |a|][k] == b[i + k];
    }
    assert InfixAt(a, c, i + j);
  }

  lemma {:induction false} WithinParts(left: seq<string>, middle: seq<string>, right: seq<string>)
    ensures Within(middle, left + middle + right)
  {
    assert InfixAt(middle, left + middle + right, |left|);
  }

  lemma {:induction false} WithinItself(words: seq<string>)
    ensures Within(words, words)
  {
    assert InfixAt(words, words, 0);
  }

  predicate WordsEqual(t: Tables, left: seq<string>, right: seq<string>)
    requires |left| == |right|
  {
    forall i :: 0 <= i < |left| ==> t.lowercase(left[i]) == t.lowercase(right[i])
  }

  predicate WindowEqual(t: Tables, haystack: seq<string>, needle: seq<string>, k: nat) {
    k + |needle| <= |haystack| && WordsEqual(t, haystack[k..k + |needle|], needle)
  }

  predicate ContainsWords(t: Tables, haystack: seq<string>, needle: seq<string>) {
    && needle != []
    && |needle| <= |haystack|
    && exists k: nat :: k <= |haystack| && WindowEqual(t, haystack, needle, k)
  }

  lemma {:induction false} EqualIsFoldedEqual(t: Tables, left: seq<string>, right: seq<string>)
    requires |left| == |right|
    ensures WordsEqual(t, left, right) <==> Fold(t, left) == Fold(t, right)
  {
    if Fold(t, left) == Fold(t, right) {
      forall i | 0 <= i < |left| ensures t.lowercase(left[i]) == t.lowercase(right[i]) {
        assert Fold(t, left)[i] == Fold(t, right)[i];
      }
    }
  }

  /** The window search decides containment of a non-empty word list. */
  lemma {:induction false} ContainsIsWithin(t: Tables, haystack: seq<string>, needle: seq<string>)
    ensures ContainsWords(t, haystack, needle) <==> needle != [] && Within(Fold(t, needle), Fold(t, haystack))
  {
    forall k: nat | k + |needle| <= |haystack|
      ensures WindowEqual(t, haystack, needle, k) <==> InfixAt(Fold(t, needle), Fold(t, haystack), k)
    {
      EqualIsFoldedEqual(t, haystack[k..k + |needle|], needle);
      FoldSlice(t, haystack, k, k + |needle|);
    }
    if needle != [] && Within(Fold(t, needle), Fold(t, haystack)) {
      var k: nat :| InfixAt(Fold(t, needle), Fold(t, haystack), k);
      assert WindowEqual(t, haystack, needle, k);
    }
  }

  /** The last `shared` words of the one are the first of the other, up to case. */
  predicate Overlap(t: Tables, previous: seq<string>, current: seq<string>, shared: nat) {
    && shared <= |previous| && shared <= |current|
    && Fold(t, previous[|previous| - shared..]) == Fold(t, current[..shared])
  }

  predicate LongestOverlap(t: Tables, previous: seq<string>, current: seq<string>, shared: nat) {
    && Overlap(t, previous, current, shared)
    && forall longer: nat :: shared < longer <= Min(|previous|, |current|) ==> !Overlap(t, previous, current, longer)
  }

  /** Appending what follows an overlap keeps both word lists in one piece. */
  lemma {:induction false} OverlapRetains(t: Tables, previous: seq<string>, current: seq<string>, shared: nat)
    requires Overlap(t, previous, current, shared)
    ensures Within(Fold(t, previous), Fold(t, previous + current[shared..]))
    ensures Within(Fold(t, current), Fold(t, previous + current[shared..]))
  {
    var head, rest := previous[..|previous| - shared], current[shared..];
    FoldConcat(t, previous, rest);
    WithinParts([], Fold(t, previous), Fold(t, rest));
    assert [] + Fold(t, previous) + Fold(t, rest) == Fold(t, previous) + Fold(t, rest);
    assert previous == head + previous[|previous| - shared..] && current == current[..shared] + rest;
    FoldConcat(t, head, previous[|previous| - shared..]);
    FoldConcat(t, current[..shared], rest);
    WithinParts(Fold(t, head), Fold(t, current), []);
    assert Fold(t, head) + Fold(t, current) + [] == Fold(t, previous) + Fold(t, rest);
  }

  lemma {:induction false} JoinedOverlap(t: Tables, previous: string, current: string, shared: nat)
    requires t.Lawful()
    ensures var p, c := Split(t.space, previous), Split(t.space, current);
            shared <= |c| ==> Split(t.space, Join(p + c[shared..])) == p + c[shared..]
  {
    var p, c := Split(t.space, previous), Split(t.space, current);
    if shared <= |c| {
      SplitIsSolid(t.space, previous);
      SplitIsSolid(t.space, current);
      SplitOfJoined(t.space, p + c[shared..]);
    }
  }

  /**
   Neither text loses a word. If one already contains the other it is returned untouched; if not,
   the words are the previous ones followed by what the current text adds beyond the longest overlap.
   */
  method MergeContainedText(t: Tables, previous: string, current: string) returns (text: string)
    requires t.Lawful()
    ensures Retained(t, previous, text) && Retained(t, current, text)
    ensures var p, c := Split(t.space, previous), Split(t.space, current);
            if c != [] && Retained(t, current, previous) then text == previous
            else if p != [] && Retained(t, previous, current) then text == current
            else exists shared: nat :: LongestOverlap(t, p, c, shared) && Split(t.space, text) == p + c[shared..]
  {
    var p, c := Split(t.space, previous), Split(t.space, current);
    ContainsIsWithin(t, p, c);
    ContainsIsWithin(t, c, p);
    WithinItself(Fold(t, p));
    WithinItself(Fold(t, c));
    if ContainsWords(t, p, c) {
      return previous;
    }
    if ContainsWords(t, c, p) {
      return current;
    }
    var shared := Min(|p|, |c|);
    while shared >= 1
      invariant shared <= Min(|p|, |c|)
      invariant forall longer: nat :: shared < longer <= Min(|p|, |c|) ==> !Overlap(t, p, c, longer)
    {
      EqualIsFoldedEqual(t, p[|p| - shared..], c[..shared]);
      if WordsEqual(t, p[|p| - shared..], c[..shared]) {
        JoinedOverlap(t, previous, current, shared);
        OverlapRetains(t, p, c, shared);
        assert LongestOverlap(t, p, c, shared);
        return Join(p + c[shared..]);
      }
      shared := shared - 1;
    }
    SplitAcross(t.space, previous, current);
    assert p + c[0..] == p + c;
    OverlapRetains(t, p, c, 0);
    assert LongestOverlap(t, p, c, 0);
    text := previous + [' '] + current;
  }
}
