/**
 Splitting a text at white space and joining words with single spaces, as the batch providers do
 (`split_whitespace().collect().join(" ")`). White space is a table, as for live text.
 */
module SpacedText {
  import opened LiveText

  /** Every character that is not white space belongs to a word, as it is. */
  function Plain(space: char -> bool): Alphabet {
    Alphabet((c: char) => !space(c), (c: char) => [c], space)
  }

  function Split(space: char -> bool, text: string): seq<string> {
    Words(Plain(space), text)
  }

  function Join(texts: seq<string>): string {
    if texts == [] then ""
    else if |texts| == 1 then texts[0]
    else texts[0] + [' '] + Join(texts[1..])
  }

  function SplitAll(space: char -> bool, texts: seq<string>): seq<string> {
    if texts == [] then [] else Split(space, texts[0]) + SplitAll(space, texts[1..])
  }

  /** `normalize_text` of both providers. */
  function NormalizeText(space: char -> bool, text: string): string {
    Join(Split(space, text))
  }

  /** A word: not empty and without white space. */
  predicate Solid(space: char -> bool, word: string) {
    word != "" && forall i :: 0 <= i < |word| ==> !space(word[i])
  }

  lemma {:induction false} SplitAcross(space: char -> bool, left: string, right: string)
    requires space(' ')
    ensures Split(space, left + [' '] + right) == Split(space, left) + Split(space, right)
  {
    LexAcross(Plain(space), left, ' ', right, "");
  }

  /** Joining texts joins their words. */
  lemma {:induction false} SplitJoin(space: char -> bool, texts: seq<string>)
    requires space(' ')
    ensures Split(space, Join(texts)) == SplitAll(space, texts)
  {
    if |texts| == 1 {
      assert SplitAll(space, texts[1..]) == [];
    } else if |texts| > 1 {
      SplitAcross(space, texts[0], Join(texts[1..]));
      SplitJoin(space, texts[1..]);
    }
  }

  lemma {:induction false} LexSolid(space: char -> bool, text: string, current: string)
    requires current == "" || Solid(space, current)
    ensures forall k :: 0 <= k < |Lex(Plain(space), text, current)| ==> Solid(space, Lex(Plain(space), text, current)[k])
    decreases |text|
  {
    if text != "" {
      LexSolid(space, text[1..], if space(text[0]) then "" else current + [text[0]]);
    }
  }

  lemma {:induction false} SplitSolid(space: char -> bool, word: string, current: string)
    requires forall i :: 0 <= i < |word| ==> !space(word[i])
    ensures Lex(Plain(space), word, current) == Finished(current + word)
    decreases |word|
  {
    if word == "" {
      assert current + word == current;
    } else {
      SplitSolid(space, word[1..], current + [word[0]]);
      assert current + [word[0]] + word[1..] == current + word;
    }
  }

  lemma {:induction false} SplitAllSolid(space: char -> bool, words: seq<string>)
    requires forall k :: 0 <= k < |words| ==> Solid(space, words[k])
    ensures SplitAll(space, words) == words
  {
    if words != [] {
      SplitSolid(space, words[0], "");
      assert "" + words[0] == words[0];
      SplitAllSolid(space, words[1..]);
    }
  }

  /** Words joined by single spaces split back into the same words. */
  lemma {:induction false} SplitOfJoined(space: char -> bool, words: seq<string>)
    requires space(' ')
    requires forall k :: 0 <= k < |words| ==> Solid(space, words[k])
    ensures Split(space, Join(words)) == words
  {
    SplitJoin(space, words);
    SplitAllSolid(space, words);
  }

  lemma {:induction false} SplitIsSolid(space: char -> bool, text: string)
    ensures forall k :: 0 <= k < |Split(space, text)| ==> Solid(space, Split(space, text)[k])
  {
    LexSolid(space, text, "");
  }

  /** Two texts normalize alike exactly when they have the same words. */
  lemma {:induction false} NormalizedAlike(space: char -> bool, left: string, right: string)
    requires space(' ')
    ensures NormalizeText(space, left) == NormalizeText(space, right) <==> Split(space, left) == Split(space, right)
  {
    SplitIsSolid(space, left);
    SplitIsSolid(space, right);
    SplitOfJoined(space, Split(space, left));
    SplitOfJoined(space, Split(space, right));
  }
}
