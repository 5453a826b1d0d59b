/** The texts of the validators' error messages, and the fact that each
    message names exactly one key when the keys carry no single quote. */
module Messages {
  import opened JsonValue
  import opened Schemas

  /** The report for a required key that is absent. */
  function MissingMessage(key: string): string {
    "Missing required key: " + key
  }

  /** The opening every type-mismatch message for `key` shares. */
  function MismatchPrefix(key: string): string {
    "Key '" + key + "' must be "
  }

  /** The report for a key whose value has the wrong kind; `expected` is the
      wording of the kind ("a list (array)", "a list" or "a string"). */
  function MismatchMessage(key: string, expected: string, found: Value): string {
    MismatchPrefix(key) + expected + ", found " + TypeName(found)
  }

  /** A message reporting a type mismatch for `key`. */
  predicate IsMismatchFor(message: string, key: string) {
    MismatchPrefix(key) <= message
  }

  /** A message reporting either kind of problem with `key`. */
  predicate About(message: string, key: string) {
    message == MissingMessage(key) || IsMismatchFor(message, key)
  }

  /** Where the key sits inside a mismatch prefix. */
  lemma {:induction false} MismatchPrefixLayout(key: string)
    ensures |MismatchPrefix(key)| == |key| + 15
    ensures MismatchPrefix(key)[0] == 'K'
    ensures MismatchPrefix(key)[5..5 + |key|] == key
    ensures MismatchPrefix(key)[5 + |key|] == '\''
  {
  }

  /** A mismatch message is a mismatch for its own key and for no missing-key report. */
  lemma {:induction false} MismatchMessageShape(key: string, expected: string, found: Value, other: string)
    ensures IsMismatchFor(MismatchMessage(key, expected, found), key)
    ensures MismatchMessage(key, expected, found) != MissingMessage(other)
  {
    var p := MismatchPrefix(key);
    var m := MismatchMessage(key, expected, found);
    assert m == p + (expected + ", found " + TypeName(found));
    assert m[..|p|] == p;
    MismatchPrefixLayout(key);
    assert m[0] == 'K';
    assert MissingMessage(other)[0] == 'M';
  }

  /** A missing-key report is never read as a mismatch report. */
  lemma {:induction false} MissingIsNoMismatch(key: string, other: string)
    ensures !IsMismatchFor(MissingMessage(key), other)
  {
    MismatchPrefixLayout(other);
    var m := MissingMessage(key);
    assert m[0] == 'M';
  }

  /** Two missing-key reports are equal only for the same key. */
  lemma {:induction false} MissingMessageInjective(k1: string, k2: string)
    ensures MissingMessage(k1) == MissingMessage(k2) <==> k1 == k2
  {
    var head := "Missing required key: ";
    assert |head| == 22;
    assert MissingMessage(k1)[22..] == k1;
    assert MissingMessage(k2)[22..] == k2;
  }

  /** A message is about at most one quote-free key: the key is the text
      between the opening and the closing quote. */
  lemma {:induction false} AboutDeterminesKey(message: string, k1: string, k2: string)
    requires QuoteFree(k1) && QuoteFree(k2)
    requires About(message, k1) && About(message, k2)
    ensures k1 == k2
  {
    MissingMessageInjective(k1, k2);
    if message == MissingMessage(k1) {
      MissingIsNoMismatch(k1, k2);
    } else if message == MissingMessage(k2) {
      MissingIsNoMismatch(k2, k1);
    } else {
      var p1, p2 := MismatchPrefix(k1), MismatchPrefix(k2);
      MismatchPrefixLayout(k1);
      MismatchPrefixLayout(k2);
      assert k1 == p1[5..5 + |k1|] == message[5..5 + |k1|];
      assert k2 == p2[5..5 + |k2|] == message[5..5 + |k2|];
    }
  }
}
