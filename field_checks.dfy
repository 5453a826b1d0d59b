/** What checking one required key, and then a list of required keys in
    order, contributes to an error report; and the accounting facts that
    hold of any such report. */
module FieldChecks {
  import opened JsonValue
  import opened Schemas
  import opened Messages

  /** The kinds of value a required key may be asked to hold. */
  datatype Kind = ListKind | StringKind

  /** The isinstance test for a kind. */
  predicate HasKind(v: Value, kind: Kind) {
    match kind
    case ListKind => v.List?
    case StringKind => v.Str?
  }

  /** What a check demands of a key, and how its mismatch message words it. */
  datatype Rule = Rule(kind: Kind, expected: string)

  /** The global validator's own check: a list, worded "a list (array)". */
  const GLOBAL_LIST_RULE := Rule(ListKind, "a list (array)")

  /** The list-field helper's check: a list, worded "a list". */
  const LIST_RULE := Rule(ListKind, "a list")

  /** The string-field helper's check: a string, worded "a string". */
  const STRING_RULE := Rule(StringKind, "a string")

  /** The messages one check of `key` adds to a report. */
  function FieldMessages(obj: Document, key: string, rule: Rule): seq<string> {
    if key !in obj then [MissingMessage(key)]
    else if !HasKind(obj[key], rule.kind) then [MismatchMessage(key, rule.expected, obj[key])]
    else []
  }

  /** The messages that checking every key of `keys`, in order, adds to a report. */
  function CheckedMessages(obj: Document, keys: seq<string>, rule: Rule): seq<string> {
    if keys == [] then []
    else CheckedMessages(obj, keys[..|keys| - 1], rule) + FieldMessages(obj, keys[|keys| - 1], rule)
  }

  /** How many messages of `errors` report a type mismatch for `key`. */
  function MismatchCount(errors: seq<string>, key: string): nat {
    if errors == [] then 0
    else MismatchCount(errors[..|errors| - 1], key) + (if IsMismatchFor(errors[|errors| - 1], key) then 1 else 0)
  }

  /** The message is about some key of `keys`. */
  predicate AboutSome(message: string, keys: seq<string>) {
    exists p :: 0 <= p < |keys| && About(message, keys[p])
  }

  /** Every message of `errors` is about some key of `keys`. */
  predicate Covered(errors: seq<string>, keys: seq<string>) {
    forall i :: 0 <= i < |errors| ==> AboutSome(errors[i], keys)
  }

  /** Messages follow the order of the keys they are about, one key at a time. */
  predicate OrderedBy(errors: seq<string>, keys: seq<string>) {
    forall i, j, p, q ::
      (0 <= i < j < |errors| && 0 <= p < |keys| && 0 <= q < |keys| &&
       About(errors[i], keys[p]) && About(errors[j], keys[q]))
      ==> p < q
  }

  /** One check adds at most one message, and what it adds is about its key. */
  lemma {:induction false} FieldMessagesShape(obj: Document, key: string, rule: Rule)
    ensures |FieldMessages(obj, key, rule)| <= 1
    ensures forall m :: m in FieldMessages(obj, key, rule) ==> About(m, key)
    ensures FieldMessages(obj, key, rule) == [] <==> key in obj && HasKind(obj[key], rule.kind)
  {
    if key in obj && !HasKind(obj[key], rule.kind) {
      MismatchMessageShape(key, rule.expected, obj[key], key);
    }
  }

  /** Per-key accounting for one check: it reports `key` missing exactly when
      it checks `key` and `key` is absent, and reports a mismatch for `key`
      exactly when it checks `key` and its value has the wrong kind. */
  lemma {:induction false} FieldAccounting(obj: Document, checked: string, rule: Rule, key: string)
    requires QuoteFree(checked) && QuoteFree(key)
    ensures multiset(FieldMessages(obj, checked, rule))[MissingMessage(key)]
         == if checked == key && key !in obj then 1 else 0
    ensures MismatchCount(FieldMessages(obj, checked, rule), key)
         == if checked == key && key in obj && !HasKind(obj[key], rule.kind) then 1 else 0
  {
    var f := FieldMessages(obj, checked, rule);
    MissingMessageInjective(checked, key);
    if checked !in obj {
      MissingIsNoMismatch(checked, key);
      assert f[..0] == [];
    } else if !HasKind(obj[checked], rule.kind) {
      var m := MismatchMessage(checked, rule.expected, obj[checked]);
      MismatchMessageShape(checked, rule.expected, obj[checked], key);
      if IsMismatchFor(m, key) {
        AboutDeterminesKey(m, checked, key);
      }
      assert f[..0] == [];
    }
  }

  /** Mismatch counts add up over concatenated reports. */
  lemma {:induction false} MismatchCountAppend(a: seq<string>, b: seq<string>, key: string)
    ensures MismatchCount(a + b, key) == MismatchCount(a, key) + MismatchCount(b, key)
    decreases |b|
  {
    if b == [] {
      assert a + b == a;
    } else {
      var init := b[..|b| - 1];
      assert (a + b)[..|a + b| - 1] == a + init;
      MismatchCountAppend(a, init, key);
    }
  }

  /** A report has no mismatch for `key` exactly when none of its messages is one. */
  lemma {:induction false} MismatchCountZero(errors: seq<string>, key: string)
    ensures MismatchCount(errors, key) == 0 <==> forall m :: m in errors ==> !IsMismatchFor(m, key)
    decreases |errors|
  {
    if errors != [] {
      var init := errors[..|errors| - 1];
      assert errors == init + [errors[|errors| - 1]];
      MismatchCountZero(init, key);
    }
  }

  /** The keys before the last one are well formed too. */
  lemma {:induction false} InitWellFormed(keys: seq<string>)
    requires keys != [] && WellFormedKeys(keys)
    ensures WellFormedKeys(keys[..|keys| - 1])
    ensures keys[|keys| - 1] !in keys[..|keys| - 1]
    ensures forall k :: k in keys <==> k in keys[..|keys| - 1] || k == keys[|keys| - 1]
  {
    var init := keys[..|keys| - 1];
    assert keys == init + [keys[|keys| - 1]];
    forall k | k in init ensures QuoteFree(k) {
      assert k in keys;
    }
  }

  /** Per-key accounting for a whole walk over distinct, quote-free keys:
      a key of the list that is absent is reported missing exactly once and
      never as a mismatch; a key of the list that is present with the wrong
      kind is reported as a mismatch exactly once and never as missing; a
      key that is present with the right kind, or not in the list at all,
      is not reported. */
  lemma {:induction false} CheckedAccounting(obj: Document, keys: seq<string>, rule: Rule, key: string)
    requires WellFormedKeys(keys) && QuoteFree(key)
    ensures multiset(CheckedMessages(obj, keys, rule))[MissingMessage(key)]
         == if key in keys && key !in obj then 1 else 0
    ensures MismatchCount(CheckedMessages(obj, keys, rule), key)
         == if key in keys && key in obj && !HasKind(obj[key], rule.kind) then 1 else 0
    ensures key in keys && key in obj && !HasKind(obj[key], rule.kind) ==>
              MismatchMessage(key, rule.expected, obj[key]) in CheckedMessages(obj, keys, rule)
    decreases |keys|
  {
    if keys != [] {
      var init, last := keys[..|keys| - 1], keys[|keys| - 1];
      InitWellFormed(keys);
      CheckedAccounting(obj, init, rule, key);
      FieldAccounting(obj, last, rule, key);
      MismatchCountAppend(CheckedMessages(obj, init, rule), FieldMessages(obj, last, rule), key);
    }
  }

  /** What a key's counts in two reports say about their concatenation. */
  lemma {:induction false} ConcatCounts(a: seq<string>, b: seq<string>, key: string)
    ensures multiset(a + b)[MissingMessage(key)] == multiset(a)[MissingMessage(key)] + multiset(b)[MissingMessage(key)]
    ensures MismatchCount(a + b, key) == MismatchCount(a, key) + MismatchCount(b, key)
    ensures forall m :: m in a || m in b ==> m in a + b
  {
    MismatchCountAppend(a, b, key);
    assert multiset(a + b) == multiset(a) + multiset(b);
  }

  /** Per-key accounting for two walks one after the other over disjoint
      key lists, each with its own rule, for a key of the first list: it is
      accounted for as in one walk under the first list's rule. */
  lemma {:induction false} FirstWalkAccounting(obj: Document, ka: seq<string>, ra: Rule, kb: seq<string>, rb: Rule, key: string)
    requires WellFormedKeys(ka) && WellFormedKeys(kb)
    requires forall k :: k in ka ==> k !in kb
    requires key in ka
    ensures multiset(CheckedMessages(obj, ka, ra) + CheckedMessages(obj, kb, rb))[MissingMessage(key)]
         == if key !in obj then 1 else 0
    ensures MismatchCount(CheckedMessages(obj, ka, ra) + CheckedMessages(obj, kb, rb), key)
         == if key in obj && !HasKind(obj[key], ra.kind) then 1 else 0
    ensures key in obj && !HasKind(obj[key], ra.kind) ==>
              MismatchMessage(key, ra.expected, obj[key]) in CheckedMessages(obj, ka, ra) + CheckedMessages(obj, kb, rb)
  {
    assert QuoteFree(key);
    CheckedAccounting(obj, ka, ra, key);
    CheckedAccounting(obj, kb, rb, key);
    ConcatCounts(CheckedMessages(obj, ka, ra), CheckedMessages(obj, kb, rb), key);
  }

  /** The same for a key of the second list, under the second list's rule. */
  lemma {:induction false} SecondWalkAccounting(obj: Document, ka: seq<string>, ra: Rule, kb: seq<string>, rb: Rule, key: string)
    requires WellFormedKeys(ka) && WellFormedKeys(kb)
    requires forall k :: k in ka ==> k !in kb
    requires key in kb
    ensures multiset(CheckedMessages(obj, ka, ra) + CheckedMessages(obj, kb, rb))[MissingMessage(key)]
         == if key !in obj then 1 else 0
    ensures MismatchCount(CheckedMessages(obj, ka, ra) + CheckedMessages(obj, kb, rb), key)
         == if key in obj && !HasKind(obj[key], rb.kind) then 1 else 0
    ensures key in obj && !HasKind(obj[key], rb.kind) ==>
              MismatchMessage(key, rb.expected, obj[key]) in CheckedMessages(obj, ka, ra) + CheckedMessages(obj, kb, rb)
  {
    assert QuoteFree(key);
    CheckedAccounting(obj, ka, ra, key);
    CheckedAccounting(obj, kb, rb, key);
    ConcatCounts(CheckedMessages(obj, ka, ra), CheckedMessages(obj, kb, rb), key);
  }

  /** A walk reports nothing exactly when every key is present with the right kind. */
  lemma {:induction false} CheckedEmptyIff(obj: Document, keys: seq<string>, rule: Rule)
    ensures CheckedMessages(obj, keys, rule) == []
        <==> forall k :: k in keys ==> k in obj && HasKind(obj[k], rule.kind)
    decreases |keys|
  {
    if keys != [] {
      var init, last := keys[..|keys| - 1], keys[|keys| - 1];
      assert keys == init + [last];
      CheckedEmptyIff(obj, init, rule);
      FieldMessagesShape(obj, last, rule);
    }
  }

  /** A walk adds at most one message per key, and each is about a key it checked. */
  lemma {:induction false} CheckedCovered(obj: Document, keys: seq<string>, rule: Rule)
    ensures |CheckedMessages(obj, keys, rule)| <= |keys|
    ensures Covered(CheckedMessages(obj, keys, rule), keys)
    decreases |keys|
  {
    if keys != [] {
      var init, last := keys[..|keys| - 1], keys[|keys| - 1];
      var e, f := CheckedMessages(obj, init, rule), FieldMessages(obj, last, rule);
      CheckedCovered(obj, init, rule);
      FieldMessagesShape(obj, last, rule);
      forall i | 0 <= i < |e + f| ensures AboutSome((e + f)[i], keys) {
        if i < |e| {
          var p :| 0 <= p < |init| && About(e[i], init[p]);
          assert keys[p] == init[p];
        } else {
          assert f[i - |e|] in f;
          assert About((e + f)[i], keys[|keys| - 1]);
        }
      }
    }
  }

  /** A walk over distinct, quote-free keys reports in key order: a message
      about an earlier key comes before a message about a later one, and no
      key is reported twice. */
  lemma {:induction false} CheckedOrdered(obj: Document, keys: seq<string>, rule: Rule)
    requires WellFormedKeys(keys)
    ensures OrderedBy(CheckedMessages(obj, keys, rule), keys)
    decreases |keys|
  {
    if keys != [] {
      var n := |keys|;
      var init, last := keys[..n - 1], keys[n - 1];
      var e, f := CheckedMessages(obj, init, rule), FieldMessages(obj, last, rule);
      InitWellFormed(keys);
      assert keys == init + [last];
      CheckedOrdered(obj, init, rule);
      CheckedCovered(obj, init, rule);
      FieldMessagesShape(obj, last, rule);
      assert Covered(f, [last]) by {
        forall i | 0 <= i < |f| ensures About(f[i], [last][0]) {
          assert f[i] in f;
        }
      }
      OrderedConcat(e, init, f, [last]);
    }
  }

  /** Two reports in key order, over disjoint key lists, stay in key order
      when the second follows the first. */
  lemma {:induction false} OrderedConcat(a: seq<string>, ka: seq<string>, b: seq<string>, kb: seq<string>)
    requires WellFormedKeys(ka + kb)
    requires OrderedBy(a, ka) && Covered(a, ka)
    requires OrderedBy(b, kb) && Covered(b, kb)
    ensures OrderedBy(a + b, ka + kb)
  {
    var e, keys := a + b, ka + kb;
    forall i, j, p, q |
      0 <= i < j < |e| && 0 <= p < |keys| && 0 <= q < |keys| &&
      About(e[i], keys[p]) && About(e[j], keys[q])
      ensures p < q
    {
      assert forall k :: k in keys ==> QuoteFree(k);
      if j < |a| {
        var p' :| 0 <= p' < |ka| && About(a[i], ka[p']);
        var q' :| 0 <= q' < |ka| && About(a[j], ka[q']);
        assert keys[p'] == ka[p'] && keys[q'] == ka[q'];
        AboutDeterminesKey(a[i], keys[p], keys[p']);
        AboutDeterminesKey(a[j], keys[q], keys[q']);
      } else if i >= |a| {
        var p' :| 0 <= p' < |kb| && About(b[i - |a|], kb[p']);
        var q' :| 0 <= q' < |kb| && About(b[j - |a|], kb[q']);
        assert keys[|ka| + p'] == kb[p'] && keys[|ka| + q'] == kb[q'];
        AboutDeterminesKey(b[i - |a|], keys[p], keys[|ka| + p']);
        AboutDeterminesKey(b[j - |a|], keys[q], keys[|ka| + q']);
        assert About(b[i - |a|], kb[p - |ka|]) && About(b[j - |a|], kb[q - |ka|]);
      } else {
        var p' :| 0 <= p' < |ka| && About(a[i], ka[p']);
        var q' :| 0 <= q' < |kb| && About(b[j - |a|], kb[q']);
        assert keys[p'] == ka[p'] && keys[|ka| + q'] == kb[q'];
        AboutDeterminesKey(a[i], keys[p], keys[p']);
        AboutDeterminesKey(b[j - |a|], keys[q], keys[|ka| + q']);
      }
    }
  }

  /** Two reports each about their own keys are, together, about the keys together. */
  lemma {:induction false} CoveredConcat(a: seq<string>, ka: seq<string>, b: seq<string>, kb: seq<string>)
    requires Covered(a, ka) && Covered(b, kb)
    ensures Covered(a + b, ka + kb)
  {
    forall i | 0 <= i < |a + b| ensures AboutSome((a + b)[i], ka + kb) {
      if i < |a| {
        var p :| 0 <= p < |ka| && About(a[i], ka[p]);
        assert (a + b)[i] == a[i] && (ka + kb)[p] == ka[p];
      } else {
        var p :| 0 <= p < |kb| && About(b[i - |a|], kb[p]);
        assert (a + b)[i] == b[i - |a|] && (ka + kb)[|ka| + p] == kb[p];
      }
    }
  }

  /** Walking two key lists one after the other reports what walking each does, in turn. */
  lemma {:induction false} CheckedConcat(obj: Document, a: seq<string>, b: seq<string>, rule: Rule)
    ensures CheckedMessages(obj, a + b, rule) == CheckedMessages(obj, a, rule) + CheckedMessages(obj, b, rule)
    decreases |b|
  {
    if b == [] {
      assert a + b == a;
    } else {
      var init, last := b[..|b| - 1], b[|b| - 1];
      var ab := a + b;
      assert ab[..|ab| - 1] == a + init;
      assert ab[|ab| - 1] == last;
      CheckedConcat(obj, a, init, rule);
      calc {
        CheckedMessages(obj, ab, rule);
        CheckedMessages(obj, a + init, rule) + FieldMessages(obj, last, rule);
        CheckedMessages(obj, a, rule) + CheckedMessages(obj, init, rule) + FieldMessages(obj, last, rule);
        CheckedMessages(obj, a, rule) + (CheckedMessages(obj, init, rule) + FieldMessages(obj, last, rule));
      }
    }
  }

  /** One more step of a walk: checking the first i + 1 keys reports what
      checking the first i did, then what checking key i does. */
  lemma {:induction false} CheckedStep(obj: Document, keys: seq<string>, i: nat, rule: Rule)
    requires i < |keys|
    ensures CheckedMessages(obj, keys[..i + 1], rule)
         == CheckedMessages(obj, keys[..i], rule) + FieldMessages(obj, keys[i], rule)
  {
    assert keys[..i + 1][..i] == keys[..i];
  }

  /** When the first key of a distinct list is the only key present and has
      the wrong kind, the walk reports its mismatch first and then every
      other key missing, in order. */
  lemma {:induction false} CheckedOnlyFirstPresent(obj: Document, keys: seq<string>, rule: Rule)
    requires keys != [] && Distinct(keys)
    requires obj.Keys == {keys[0]} && !HasKind(obj[keys[0]], rule.kind)
    ensures |CheckedMessages(obj, keys, rule)| == |keys|
    ensures CheckedMessages(obj, keys, rule)[0] == MismatchMessage(keys[0], rule.expected, obj[keys[0]])
    ensures forall i :: 1 <= i < |keys| ==> CheckedMessages(obj, keys, rule)[i] == MissingMessage(keys[i])
  {
    var first, rest := keys[..1], keys[1..];
    assert keys == first + rest;
    forall k | k in rest ensures k !in obj {
      var i :| 0 <= i < |rest| && rest[i] == k;
      assert keys[i + 1] == k;
    }
    CheckedAllMissing(obj, rest, rule);
    CheckedConcat(obj, first, rest, rule);
    assert first[..0] == [];
  }

  /** When no key of the list is present, the walk reports each key missing, in order. */
  lemma {:induction false} CheckedAllMissing(obj: Document, keys: seq<string>, rule: Rule)
    requires forall k :: k in keys ==> k !in obj
    ensures |CheckedMessages(obj, keys, rule)| == |keys|
    ensures forall i :: 0 <= i < |keys| ==> CheckedMessages(obj, keys, rule)[i] == MissingMessage(keys[i])
    decreases |keys|
  {
    if keys != [] {
      var init, last := keys[..|keys| - 1], keys[|keys| - 1];
      assert keys == init + [last];
      CheckedAllMissing(obj, init, rule);
    }
  }
}
