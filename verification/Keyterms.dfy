/**
 Canonical keyterm lists (`canonicalize_keyterms`, `validate_keyterms` and `compare_utf16` in
 crates/voicetext-gateway/src/identity.rs). White space and control characters are tables.
 */
module Keyterms {
  import opened Base
  import opened LiveText

  const MAX_KEYTERMS: nat := 100
  const MAX_KEYTERM_BYTES: nat := 200

  datatype Error = TooManyKeyterms | InvalidKeyterm | KeytermTooLong | NonCanonicalKeyterms

  datatype Result<T> = Ok(value: T) | Err(error: Error)

  datatype Tables = Tables(alphabet: Alphabet, control: char -> bool)

  // ---- the UTF-16 order ------------------------------------------------------------------------

  function Units(c: char): (r: seq<nat>)
    ensures 1 <= |r| <= 2
  {
    var n := c as int;
    if n < 0x10000 then [n] else [0xD800 + (n - 0x10000) / 0x400, 0xDC00 + (n - 0x10000) % 0x400]
  }

  function Utf16(text: string): seq<nat> {
    if text == "" then [] else Units(text[0]) + Utf16(text[1..])
  }

  lemma {:induction false} UnitsWithinBytes(text: string)
    ensures |Utf16(text)| <= Utf8Length(text)
  {
    if text != "" {
      UnitsWithinBytes(text[1..]);
    }
  }

  /** Strictly before, unit by unit. */
  predicate Before(left: seq<nat>, right: seq<nat>) {
    right != [] && (left == [] || left[0] < right[0] || (left[0] == right[0] && Before(left[1..], right[1..])))
  }

  predicate Less(left: string, right: string) {
    Before(Utf16(left), Utf16(right))
  }

  lemma {:induction false} BeforeTransitive(a: seq<nat>, b: seq<nat>, c: seq<nat>)
    requires Before(a, b) && Before(b, c)
    ensures Before(a, c)
    decreases |a|
  {
    if a != [] && a[0] == b[0] && b[0] == c[0] {
      BeforeTransitive(a[1..], b[1..], c[1..]);
    }
  }

  lemma {:induction false} BeforeIrreflexive(a: seq<nat>)
    ensures !Before(a, a)
  {
    if a != [] {
      BeforeIrreflexive(a[1..]);
    }
  }

  lemma {:induction false} BeforeTotal(a: seq<nat>, b: seq<nat>)
    ensures a == b || Before(a, b) || Before(b, a)
  {
    if a != [] && b != [] && a[0] == b[0] {
      BeforeTotal(a[1..], b[1..]);
      assert a == [a[0]] + a[1..] && b == [b[0]] + b[1..];
    }
  }

  lemma {:induction false} UnitsPrefixFree(c: char, d: char, x: seq<nat>, y: seq<nat>)
    requires Units(c) + x == Units(d) + y
    ensures c == d && x == y
  {
    var all := Units(c) + x;
    assert all[0] == Units(c)[0] == Units(d)[0];
    assert |Units(c)| == |Units(d)|;
    if |Units(c)| == 2 {
      assert all[1] == Units(c)[1] == Units(d)[1];
    }
    assert all[|Units(c)|..] == x && all[|Units(d)|..] == y;
  }

  /** Different texts have different units, so the order is total on texts. */
  lemma {:induction false} Utf16Injective(left: string, right: string)
    requires Utf16(left) == Utf16(right)
    ensures left == right
  {
    if left != "" && right != "" {
      UnitsPrefixFree(left[0], right[0], Utf16(left[1..]), Utf16(right[1..]));
      Utf16Injective(left[1..], right[1..]);
    }
  }

  lemma {:induction false} LessTotal(left: string, right: string)
    ensures left == right || Less(left, right) || Less(right, left)
  {
    BeforeTotal(Utf16(left), Utf16(right));
    if Utf16(left) == Utf16(right) {
      Utf16Injective(left, right);
    }
  }

  // ---- canonical lists -------------------------------------------------------------------------

  predicate ValidKeyterm(t: Tables, term: string) {
    && term != "" && (forall i :: 0 <= i < |term| ==> !t.control(term[i]))
    && Utf8Length(term) <= MAX_KEYTERM_BYTES
  }

  function ValidateKeyterm(t: Tables, term: string): (r: Option<Error>)
    ensures r.None? <==> ValidKeyterm(t, term)
    ensures r.Some? ==> r.value.InvalidKeyterm? || r.value.KeytermTooLong?
  {
    if term == "" || (exists i :: 0 <= i < |term| && t.control(term[i])) then Some(InvalidKeyterm)
    else if Utf8Length(term) > MAX_KEYTERM_BYTES then Some(KeytermTooLong)
    else None
  }

  predicate StrictlySorted(terms: seq<string>) {
    forall i, j :: 0 <= i < j < |terms| ==> Less(terms[i], terms[j])
  }

  /** No neighbour is before its predecessor, as a sort leaves them. */
  predicate Ascending(terms: seq<string>) {
    forall i, j :: 0 <= i < j < |terms| ==> !Less(terms[j], terms[i])
  }

  /** What a canonical list is. */
  predicate Canonical(t: Tables, terms: seq<string>) {
    && |terms| <= MAX_KEYTERMS && StrictlySorted(terms)
    && forall i :: 0 <= i < |terms| ==> ValidKeyterm(t, terms[i]) && Trim(t.alphabet, terms[i]) == terms[i]
  }

  function Members(terms: seq<string>): set<string> {
    set i | 0 <= i < |terms| :: terms[i]
  }

  function TrimmedSet(t: Tables, terms: seq<string>): set<string> {
    set i | 0 <= i < |terms| :: Trim(t.alphabet, terms[i])
  }

  /** A strictly sorted list is determined by its members. */
  lemma {:induction false} SortedUnique(left: seq<string>, right: seq<string>)
    requires StrictlySorted(left) && StrictlySorted(right) && Members(left) == Members(right)
    ensures left == right
    decreases |left|
  {
    NonEmptyMembers(left);
    NonEmptyMembers(right);
    if left != [] {
      Least(left, right);
      Least(right, left);
      BothWays(left[0], right[0]);
      RestMembers(left);
      RestMembers(right);
      SortedUnique(left[1..], right[1..]);
      assert left == [left[0]] + left[1..] && right == [right[0]] + right[1..];
    }
  }

  lemma {:induction false} NonEmptyMembers(terms: seq<string>)
    ensures terms == [] <==> Members(terms) == {}
  {
    if terms != [] {
      assert terms[0] in Members(terms);
    }
  }

  lemma {:induction false} BothWays(left: string, right: string)
    requires !Less(left, right) && !Less(right, left)
    ensures left == right
  {
    LessTotal(left, right);
  }

  lemma {:induction false} Least(left: seq<string>, right: seq<string>)
    requires StrictlySorted(left) && left != [] && right != [] && Members(left) == Members(right)
    ensures !Less(right[0], left[0])
  {
    assert right[0] in Members(right);
    var i :| 0 <= i < |left| && left[i] == right[0];
    if Less(right[0], left[0]) {
      BeforeIrreflexive(Utf16(left[0]));
      if i > 0 {
        BeforeTransitive(Utf16(left[0]), Utf16(left[i]), Utf16(left[0]));
      }
    }
  }

  lemma {:induction false} RestMembers(terms: seq<string>)
    requires StrictlySorted(terms) && terms != []
    ensures Members(terms[1..]) == Members(terms) - {terms[0]}
  {
    forall i | 0 < i < |terms| ensures terms[i] != terms[0] {
      BeforeIrreflexive(Utf16(terms[0]));
    }
    forall term ensures term in Members(terms[1..]) <==> term in Members(terms) - {terms[0]} {
      if term in Members(terms[1..]) {
        var i :| 0 <= i < |terms[1..]| && terms[1..][i] == term;
        assert terms[i + 1] == term;
      }
      if term in Members(terms) - {terms[0]} {
        var i :| 0 <= i < |terms| && terms[i] == term;
        assert terms[1..][i - 1] == term;
      }
    }
  }

  // ---- sorting and dropping repetitions --------------------------------------------------------

  function Insert(terms: seq<string>, term: string): (r: seq<string>)
    ensures |r| == |terms| + 1
  {
    if terms == [] || Less(term, terms[0]) then [term] + terms else [terms[0]] + Insert(terms[1..], term)
  }

  function Sort(terms: seq<string>): (r: seq<string>)
    ensures |r| == |terms|
  {
    if terms == [] then [] else Insert(Sort(terms[..|terms| - 1]), terms[|terms| - 1])
  }

  /** `dedup`: of equal neighbours only the first stays. */
  function Dedup(terms: seq<string>): (r: seq<string>)
    ensures |r| <= |terms|
  {
    if |terms| < 2 then terms
    else if terms[0] == terms[1] then Dedup(terms[1..])
    else [terms[0]] + Dedup(terms[1..])
  }

  lemma {:induction false} MembersPrepend(head: string, terms: seq<string>)
    ensures Members([head] + terms) == {head} + Members(terms)
  {
    var all := [head] + terms;
    forall term ensures term in Members(all) <==> term == head || term in Members(terms) {
      if term in Members(terms) {
        var i :| 0 <= i < |terms| && terms[i] == term;
        assert all[i + 1] == term;
      }
      if term == head {
        assert all[0] == term;
      }
    }
  }

  lemma {:induction false} InsertSorts(terms: seq<string>, term: string)
    requires Ascending(terms)
    ensures Ascending(Insert(terms, term)) && Members(Insert(terms, term)) == Members(terms) + {term}
  {
    hide Less, Members, Ascending;
    MembersPrepend(term, terms);
    if terms == [] {
      AscendsAlone(term);
      assert [term] + terms == [term];
    } else if Less(term, terms[0]) {
      PrependAscends(term, terms);
    } else {
      var rest := terms[1..];
      RestAscends(terms);
      InsertSorts(rest, term);
      MembersPrepend(terms[0], rest);
      MembersPrepend(terms[0], Insert(rest, term));
      assert terms == [terms[0]] + rest;
      assert Insert(terms, term) == [terms[0]] + Insert(rest, term);
      AscendsFrom(terms[0], Insert(rest, term));
    }
  }

  lemma {:induction false} AscendsAlone(term: string)
    ensures Ascending([term])
  {
  }

  lemma {:induction false} RestAscends(terms: seq<string>)
    requires Ascending(terms) && terms != []
    ensures Ascending(terms[1..]) && forall x :: x in Members(terms[1..]) ==> !Less(x, terms[0])
  {
  }

  lemma {:induction false} AscendsFrom(head: string, terms: seq<string>)
    requires Ascending(terms) && forall x :: x in Members(terms) ==> !Less(x, head)
    ensures Ascending([head] + terms)
  {
  }

  lemma {:induction false} PrependAscends(term: string, terms: seq<string>)
    requires Ascending(terms) && terms != [] && Less(term, terms[0])
    ensures Ascending([term] + terms)
  {
    forall i | 0 <= i < |terms| ensures !Less(terms[i], term) {
      if Less(terms[i], term) {
        BeforeTransitive(Utf16(terms[i]), Utf16(term), Utf16(terms[0]));
        BeforeIrreflexive(Utf16(terms[0]));
      }
    }
  }

  lemma {:induction false} SortSorts(terms: seq<string>)
    ensures Ascending(Sort(terms)) && Members(Sort(terms)) == Members(terms)
    decreases |terms|
  {
    if terms != [] {
      var init, last := terms[..|terms| - 1], terms[|terms| - 1];
      SortSorts(init);
      InsertSorts(Sort(init), last);
      assert Members(terms) == Members(init) + {last} by {
        forall x ensures x in Members(terms) <==> x in Members(init) + {last} {
          if x in Members(init) {
            var i :| 0 <= i < |init| && init[i] == x;
            assert terms[i] == x;
          }
          if x in Members(terms) {
            var i :| 0 <= i < |terms| && terms[i] == x;
            assert i < |init| ==> init[i] == x;
          }
        }
      }
    }
  }

  lemma {:induction false} DedupStrict(terms: seq<string>)
    requires Ascending(terms)
    ensures StrictlySorted(Dedup(terms)) && Members(Dedup(terms)) == Members(terms)
    decreases |terms|
  {
    if |terms| >= 2 {
      var rest := terms[1..];
      DedupStrict(rest);
      MembersPrepend(terms[0], rest);
      assert terms == [terms[0]] + rest;
      if terms[0] == terms[1] {
        assert rest[0] in Members(rest);
      } else {
        MembersPrepend(terms[0], Dedup(rest));
        forall x | x in Members(rest) ensures Less(terms[0], x) {
          var i :| 0 <= i < |rest| && rest[i] == x;
          assert terms[i + 1] == x;
          LessTotal(terms[0], terms[1]);
          assert !Less(terms[1], terms[0]);
          if i > 0 {
            assert !Less(terms[i + 1], terms[1]);
            LessTotal(terms[1], terms[i + 1]);
            if Less(terms[1], terms[i + 1]) {
              BeforeTransitive(Utf16(terms[0]), Utf16(terms[1]), Utf16(terms[i + 1]));
            }
          }
        }
        StrictFrom(terms[0], Dedup(rest));
      }
    }
  }

  lemma {:induction false} StrictFrom(head: string, terms: seq<string>)
    requires StrictlySorted(terms) && forall x :: x in Members(terms) ==> Less(head, x)
    ensures StrictlySorted([head] + terms)
  {
  }

  // ---- the operations --------------------------------------------------------------------------

  function TrimAll(t: Tables, terms: seq<string>): (r: seq<string>)
    ensures |r| == |terms|
  {
    seq(|terms|, i requires 0 <= i < |terms| => Trim(t.alphabet, terms[i]))
  }

  lemma {:induction false} TrimAllMembers(t: Tables, terms: seq<string>)
    ensures Members(TrimAll(t, terms)) == TrimmedSet(t, terms)
  {
    forall x ensures x in Members(TrimAll(t, terms)) <==> x in TrimmedSet(t, terms) {
      if x in Members(TrimAll(t, terms)) {
        var i :| 0 <= i < |terms| && TrimAll(t, terms)[i] == x;
        assert Trim(t.alphabet, terms[i]) == x;
      }
      if x in TrimmedSet(t, terms) {
        var i :| 0 <= i < |terms| && Trim(t.alphabet, terms[i]) == x;
        assert TrimAll(t, terms)[i] == x;
      }
    }
  }

  lemma {:induction false} TrimEndKeepsStart(a: Alphabet, text: string)
    ensures TrimEnd(a, text) <= text
    ensures TrimEnd(a, text) == "" || !a.space(TrimEnd(a, text)[|TrimEnd(a, text)| - 1])
    decreases |text|
  {
    if text != "" && a.space(text[|text| - 1]) {
      TrimEndKeepsStart(a, text[..|text| - 1]);
    }
  }

  lemma {:induction false} TrimStartStarts(a: Alphabet, text: string)
    ensures TrimStart(a, text) == "" || !a.space(TrimStart(a, text)[0])
    decreases |text|
  {
    if text != "" && a.space(text[0]) {
      TrimStartStarts(a, text[1..]);
    }
  }

  lemma {:induction false} TrimIdempotent(a: Alphabet, text: string)
    ensures Trim(a, Trim(a, text)) == Trim(a, text)
  {
    TrimStartStarts(a, text);
    TrimEndKeepsStart(a, TrimStart(a, text));
    var trimmed := Trim(a, text);
    assert trimmed != "" ==> trimmed[0] == TrimStart(a, text)[0];
    assert TrimStart(a, trimmed) == trimmed;
  }

  /** Exactly the requests within bounds are accepted, and then the list holds each trimmed term once, in order. */
  method CanonicalizeKeyterms(t: Tables, terms: seq<string>) returns (r: Result<seq<string>>)
    ensures r.Ok? <==> |terms| <= MAX_KEYTERMS && forall i :: 0 <= i < |terms| ==> ValidKeyterm(t, Trim(t.alphabet, terms[i]))
    ensures r.Ok? ==> Canonical(t, r.value) && Members(r.value) == TrimmedSet(t, terms)
    ensures r == Err(TooManyKeyterms) <==> |terms| > MAX_KEYTERMS
  {
    hide ValidKeyterm, Trim, Sort, Dedup, StrictlySorted;
    if |terms| > MAX_KEYTERMS {
      return Err(TooManyKeyterms);
    }
    var canonical := TrimAll(t, terms);
    for i := 0 to |canonical|
      invariant forall k :: 0 <= k < i ==> ValidKeyterm(t, Trim(t.alphabet, terms[k]))
    {
      assert canonical[i] == Trim(t.alphabet, terms[i]);
      var error := ValidateKeyterm(t, canonical[i]);
      if error.Some? {
        return Err(error.value);
      }
    }
    TrimAllMembers(t, terms);
    SortSorts(canonical);
    DedupStrict(Sort(canonical));
    canonical := Dedup(Sort(canonical));
    forall i | 0 <= i < |canonical|
      ensures ValidKeyterm(t, canonical[i]) && Trim(t.alphabet, canonical[i]) == canonical[i]
    {
      assert canonical[i] in Members(canonical);
      var k :| 0 <= k < |terms| && Trim(t.alphabet, terms[k]) == canonical[i];
      TrimIdempotent(t.alphabet, terms[k]);
    }
    r := Ok(canonical);
  }

  /** The neighbour-by-neighbour check accepts exactly the canonical lists. */
  method ValidateKeyterms(t: Tables, terms: seq<string>) returns (error: Option<Error>)
    ensures error.None? <==> Canonical(t, terms)
  {
    hide ValidKeyterm, Trim, Less;
    if |terms| > MAX_KEYTERMS {
      return Some(TooManyKeyterms);
    }
    var previous: Option<string> := None;
    for i := 0 to |terms|
      invariant forall k :: 0 <= k < i ==> ValidKeyterm(t, terms[k]) && Trim(t.alphabet, terms[k]) == terms[k]
      invariant forall j, k :: 0 <= j < k < i ==> Less(terms[j], terms[k])
      invariant previous == if i == 0 then None else Some(terms[i - 1])
    {
      var invalid := ValidateKeyterm(t, terms[i]);
      if invalid.Some? {
        return invalid;
      }
      if Trim(t.alphabet, terms[i]) != terms[i] {
        return Some(InvalidKeyterm);
      }
      if previous.Some? && !Less(previous.value, terms[i]) {
        return Some(NonCanonicalKeyterms);
      }
      forall j | 0 <= j < i ensures Less(terms[j], terms[i]) {
        if j < i - 1 {
          LessTransitive(terms[j], terms[i - 1], terms[i]);
        }
      }
      previous := Some(terms[i]);
    }
    error := None;
  }

  lemma {:induction false} LessTransitive(a: string, b: string, c: string)
    requires Less(a, b) && Less(b, c)
    ensures Less(a, c)
  {
    BeforeTransitive(Utf16(a), Utf16(b), Utf16(c));
  }

  /** The canonical list depends on nothing but the set of trimmed terms. */
  lemma {:induction false} CanonicalDependsOnSet(t: Tables, left: seq<string>, right: seq<string>)
    requires Canonical(t, left) && Canonical(t, right) && Members(left) == Members(right)
    ensures left == right
  {
    SortedUnique(left, right);
  }

  /** A canonical list is already its own canonical form. */
  lemma {:induction false} CanonicalIsFixed(t: Tables, terms: seq<string>, again: seq<string>)
    requires Canonical(t, terms)
    requires Canonical(t, again) && Members(again) == TrimmedSet(t, terms)
    ensures again == terms
  {
    TrimAllMembers(t, terms);
    assert TrimAll(t, terms) == terms;
    SortedUnique(again, terms);
  }
}
