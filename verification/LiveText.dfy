/**
 Lexical tokens of live transcripts (`lexical_tokens`, `normalize`, `append_stable` and
 `committed_suffix_after_stable_prefix` in
 crates/voicetext-providers/src/elevenlabs/live_state.rs).

 The Unicode tables are a parameter. All that is used of them: a letter or digit is not white
 space, and its lower case is not empty.
 */
module LiveText {
  import opened Base

  datatype Alphabet = Alphabet(alphanumeric: char -> bool, lower: char -> string, space: char -> bool) {
    ghost predicate Lawful() {
      && (forall c :: alphanumeric(c) ==> !space(c) && lower(c) != "")
      && space(' ') && !alphanumeric(' ')
    }
  }

  datatype Token = Token(word: string, start: nat)

  /** The words of a text, given the unfinished word before it. */
  function Lex(a: Alphabet, text: string, current: string): seq<string> {
    if text == "" then Finished(current)
    else if a.alphanumeric(text[0]) then Lex(a, text[1..], current + a.lower(text[0]))
    else Finished(current) + Lex(a, text[1..], "")
  }

  function Finished(current: string): seq<string> {
    if current == "" then [] else [current]
  }

  function Words(a: Alphabet, text: string): seq<string> {
    Lex(a, text, "")
  }

  function Normalize(a: Alphabet, text: string): string {
    if text == "" then ""
    else (if a.alphanumeric(text[0]) then a.lower(text[0]) else "") + Normalize(a, text[1..])
  }

  function Joined(words: seq<string>): string {
    if words == [] then "" else words[0] + Joined(words[1..])
  }

  function TrimStart(a: Alphabet, text: string): string {
    if text != "" && a.space(text[0]) then TrimStart(a, text[1..]) else text
  }

  function TrimEnd(a: Alphabet, text: string): string {
    if text != "" && a.space(text[|text| - 1]) then TrimEnd(a, text[..|text| - 1]) else text
  }

  function Trim(a: Alphabet, text: string): string {
    TrimEnd(a, TrimStart(a, text))
  }

  function AppendStable(a: Alphabet, stable: string, text: string): string {
    (if stable == "" then "" else stable + " ") + Trim(a, text)
  }

  // ---- words of composed texts ---------------------------------------------------------------

  /** A separator ends the words before it and starts afresh after it. */
  lemma {:induction false} LexAcross(a: Alphabet, text: string, separator: char, rest: string, current: string)
    requires !a.alphanumeric(separator)
    ensures Lex(a, text + [separator] + rest, current) == Lex(a, text, current) + Words(a, rest)
    decreases |text|
  {
    var whole := text + [separator] + rest;
    if text == "" {
      assert whole[1..] == rest;
    } else {
      assert whole[0] == text[0] && whole[1..] == text[1..] + [separator] + rest;
      var next := if a.alphanumeric(text[0]) then current + a.lower(text[0]) else "";
      LexAcross(a, text[1..], separator, rest, next);
    }
  }

  /** Characters that are not part of a word add nothing at either end. */
  lemma {:induction false} LexTrimEnd(a: Alphabet, text: string, current: string)
    requires a.Lawful()
    ensures Lex(a, TrimEnd(a, text), current) == Lex(a, text, current)
    decreases |text|
  {
    if text != "" && a.space(text[|text| - 1]) {
      var init, last := text[..|text| - 1], text[|text| - 1];
      LexTrimEnd(a, init, current);
      LexAcross(a, init, last, "", current);
      assert init + [last] + "" == text;
    }
  }

  lemma {:induction false} WordsTrimStart(a: Alphabet, text: string)
    requires a.Lawful()
    ensures Words(a, TrimStart(a, text)) == Words(a, text)
    decreases |text|
  {
    if text != "" && a.space(text[0]) {
      WordsTrimStart(a, text[1..]);
    }
  }

  lemma {:induction false} WordsTrim(a: Alphabet, text: string)
    requires a.Lawful()
    ensures Words(a, Trim(a, text)) == Words(a, text)
  {
    LexTrimEnd(a, TrimStart(a, text), "");
    WordsTrimStart(a, text);
  }

  /** Appending a final to the stable text appends its words. */
  lemma {:induction false} WordsAppendStable(a: Alphabet, stable: string, text: string)
    requires a.Lawful()
    ensures Words(a, AppendStable(a, stable, text)) == Words(a, stable) + Words(a, text)
  {
    WordsTrim(a, text);
    if stable != "" {
      LexAcross(a, stable, ' ', Trim(a, text), "");
      assert stable + " " + Trim(a, text) == stable + [' '] + Trim(a, text);
    } else {
      assert AppendStable(a, stable, text) == Trim(a, text);
    }
  }

  lemma {:induction false} JoinedConcat(left: seq<string>, right: seq<string>)
    ensures Joined(left + right) == Joined(left) + Joined(right)
  {
    if left == [] {
      assert left + right == right;
    } else {
      JoinedConcat(left[1..], right);
      assert (left + right)[1..] == left[1..] + right;
      assert left[0] + (Joined(left[1..]) + Joined(right)) == left[0] + Joined(left[1..]) + Joined(right);
    }
  }

  lemma {:induction false} NormalizeLex(a: Alphabet, text: string, current: string)
    ensures current + Normalize(a, text) == Joined(Lex(a, text, current))
    decreases |text|
  {
    if text != "" {
      if a.alphanumeric(text[0]) {
        NormalizeLex(a, text[1..], current + a.lower(text[0]));
        assert current + (a.lower(text[0]) + Normalize(a, text[1..])) == current + a.lower(text[0]) + Normalize(a, text[1..]);
      } else {
        NormalizeLex(a, text[1..], "");
        JoinedConcat(Finished(current), Lex(a, text[1..], ""));
        assert Joined(Finished(current)) == current;
      }
    }
  }

  lemma {:induction false} LexWordsNonEmpty(a: Alphabet, text: string, current: string)
    requires a.Lawful()
    ensures forall i :: 0 <= i < |Lex(a, text, current)| ==> Lex(a, text, current)[i] != ""
    decreases |text|
  {
    if text != "" {
      LexWordsNonEmpty(a, text[1..], if a.alphanumeric(text[0]) then current + a.lower(text[0]) else "");
    }
  }

  /** The echo-suppression key is the words run together; it is empty exactly when there is no word. */
  lemma {:induction false} NormalizeIsJoinedWords(a: Alphabet, text: string)
    requires a.Lawful()
    ensures Normalize(a, text) == Joined(Words(a, text))
    ensures Normalize(a, text) == "" <==> Words(a, text) == []
  {
    NormalizeLex(a, text, "");
    LexWordsNonEmpty(a, text, "");
    if Words(a, text) != [] {
      assert Words(a, text)[0] != "";
    }
  }

  lemma {:induction false} TrimEndKeepsFirst(a: Alphabet, text: string)
    requires text != "" && !a.space(text[0])
    ensures TrimEnd(a, text) != "" && |TrimEnd(a, text)| <= |text|
    decreases |text|
  {
    if a.space(text[|text| - 1]) {
      TrimEndKeepsFirst(a, text[..|text| - 1]);
    }
  }

  lemma {:induction false} Utf8Concat(left: string, right: string)
    ensures Utf8Length(left + right) == Utf8Length(left) + Utf8Length(right)
  {
    if left == "" {
      assert left + right == right;
    } else {
      Utf8Concat(left[1..], right);
      assert (left + right)[1..] == left[1..] + right;
    }
  }

  /** A part of a text has no more bytes than the text. */
  lemma {:induction false} Utf8Part(text: string, i: nat, j: nat)
    requires i <= j <= |text|
    ensures Utf8Length(text[i..j]) <= Utf8Length(text)
  {
    assert text == text[..i] + (text[i..j] + text[j..]);
    Utf8Concat(text[..i], text[i..j] + text[j..]);
    Utf8Concat(text[i..j], text[j..]);
  }

  lemma {:induction false} TrimStartIsPart(a: Alphabet, text: string) returns (i: nat)
    ensures i <= |text| && TrimStart(a, text) == text[i..]
    decreases |text|
  {
    i := 0;
    if text != "" && a.space(text[0]) {
      var k := TrimStartIsPart(a, text[1..]);
      i := k + 1;
    }
  }

  lemma {:induction false} TrimEndIsPart(a: Alphabet, text: string) returns (j: nat)
    ensures j <= |text| && TrimEnd(a, text) == text[..j]
    decreases |text|
  {
    j := |text|;
    if text != "" && a.space(text[|text| - 1]) {
      j := TrimEndIsPart(a, text[..|text| - 1]);
    }
  }

  lemma {:induction false} TrimBytes(a: Alphabet, text: string)
    ensures Utf8Length(Trim(a, text)) <= Utf8Length(text)
  {
    var i := TrimStartIsPart(a, text);
    var rest := text[i..];
    var j := TrimEndIsPart(a, rest);
    assert rest[..j] == rest[0..j] && text[i..] == text[i..|text|];
    Utf8Part(rest, 0, j);
    Utf8Part(text, i, |text|);
  }

  // ---- scanning --------------------------------------------------------------------------------

  function WordsOf(tokens: seq<Token>): (words: seq<string>)
    ensures |words| == |tokens| && forall i :: 0 <= i < |tokens| ==> words[i] == tokens[i].word
  {
    seq(|tokens|, i requires 0 <= i < |tokens| => tokens[i].word)
  }

  /** From this position on exactly the words from the k-th remain. */
  ghost predicate WordStartsAt(a: Alphabet, text: string, k: nat, start: nat) {
    && start < |text| && a.alphanumeric(text[start])
    && k <= |Words(a, text)| && Words(a, text[start..]) == Words(a, text)[k..]
  }

  ghost predicate Scanned(a: Alphabet, text: string, index: nat, tokens: seq<Token>, current: string, start: nat) {
    && index <= |text|
    && WordsOf(tokens) + Lex(a, text[index..], current) == Words(a, text)
    && (forall k :: 0 <= k < |tokens| ==> WordStartsAt(a, text, k, tokens[k].start))
    && (current != "" ==> WordStartsAt(a, text, |tokens|, start))
  }

  lemma {:induction false} ScanStart(a: Alphabet, text: string)
    ensures Scanned(a, text, 0, [], "", 0)
  {
  }

  lemma {:induction false} ScanEnd(a: Alphabet, text: string, tokens: seq<Token>, current: string, start: nat)
    requires Scanned(a, text, |text|, tokens, current, start)
    ensures var all := if current == "" then tokens else tokens + [Token(current, start)];
            && WordsOf(all) == Words(a, text)
            && forall k :: 0 <= k < |all| ==> WordStartsAt(a, text, k, all[k].start)
  {
  }

  lemma {:induction false} ScanLetter(a: Alphabet, text: string, index: nat, tokens: seq<Token>, current: string, start: nat)
    requires a.Lawful() && index < |text| && a.alphanumeric(text[index])
    requires Scanned(a, text, index, tokens, current, start)
    ensures Scanned(a, text, index + 1, tokens, current + a.lower(text[index]), if current == "" then index else start)
  {
  }

  lemma {:induction false} ScanSeparator(a: Alphabet, text: string, index: nat, tokens: seq<Token>, current: string, start: nat)
    requires index < |text| && !a.alphanumeric(text[index])
    requires Scanned(a, text, index, tokens, current, start)
    ensures Scanned(a, text, index + 1, if current == "" then tokens else tokens + [Token(current, start)], "", start)
  {
    assert text[index..][1..] == text[index + 1..];
    assert WordsOf(tokens + [Token(current, start)]) == WordsOf(tokens) + [current];
  }

  /** The scan finds the words, and each recorded start is where the remaining words begin. */
  method LexicalTokens(a: Alphabet, text: string) returns (tokens: seq<Token>)
    requires a.Lawful()
    ensures WordsOf(tokens) == Words(a, text)
    ensures forall k :: 0 <= k < |tokens| ==> WordStartsAt(a, text, k, tokens[k].start)
  {
    hide Scanned, Words, WordStartsAt;
    tokens := [];
    var current, start := "", 0;
    ScanStart(a, text);
    for index := 0 to |text|
      invariant Scanned(a, text, index, tokens, current, start)
    {
      if a.alphanumeric(text[index]) {
        ScanLetter(a, text, index, tokens, current, start);
        if current == "" {
          start := index;
        }
        current := current + a.lower(text[index]);
      } else {
        ScanSeparator(a, text, index, tokens, current, start);
        if current != "" {
          tokens := tokens + [Token(current, start)];
          current := "";
        }
      }
    }
    ScanEnd(a, text, tokens, current, start);
    if current != "" {
      tokens := tokens + [Token(current, start)];
    }
  }

  /**
   What a commit adds to the stable text: nothing to say unless the stable words are a non-empty
   prefix of the committed ones, and then exactly the words that follow them.
   */
  method CommittedSuffix(a: Alphabet, committed: string, stable: string) returns (suffix: Option<string>)
    requires a.Lawful()
    ensures suffix.Some? <==> Words(a, stable) != [] && Words(a, stable) <= Words(a, committed)
    ensures suffix.Some? ==> Words(a, stable) + Words(a, suffix.value) == Words(a, committed)
    ensures suffix.Some? ==> (suffix.value == "" <==> Words(a, stable) == Words(a, committed))
    ensures suffix.Some? ==> Utf8Length(suffix.value) <= Utf8Length(committed)
  {
    var stableTokens := LexicalTokens(a, stable);
    if |stableTokens| == 0 {
      return None;
    }
    var committedTokens := LexicalTokens(a, committed);
    ghost var s, c := Words(a, stable), Words(a, committed);
    if |stableTokens| > |committedTokens| {
      return None;
    }
    for i := 0 to |stableTokens|
      invariant forall k :: 0 <= k < i ==> s[k] == c[k]
    {
      if stableTokens[i].word != committedTokens[i].word {
        assert s[i] != c[i];
        return None;
      }
    }
    assert s <= c;
    if |stableTokens| == |committedTokens| {
      assert s == c;
      return Some("");
    }
    var rest := committed[committedTokens[|stableTokens|].start..];
    assert TrimStart(a, rest) == rest;
    TrimEndKeepsFirst(a, rest);
    WordsTrim(a, rest);
    TrimBytes(a, rest);
    assert rest == committed[committedTokens[|stableTokens|].start..|committed|];
    Utf8Part(committed, committedTokens[|stableTokens|].start, |committed|);
    assert s + c[|s|..] == c;
    suffix := Some(Trim(a, rest));
  }
}
