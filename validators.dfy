/** The two schema validators and the two field-check helpers, with the
    reports they produce and what those reports say about the document. */
module Validators {
  import opened JsonValue
  import opened Schemas
  import opened Messages
  import opened FieldChecks

  /** A list of error messages owned by a caller and appended to in place. */
  class ErrorList {
    var items: seq<string>

    constructor ()
      ensures items == []
    {
      items := [];
    }

    method Append(message: string)
      modifies this
      ensures items == old(items) + [message]
    {
      items := items + [message];
    }
  }

  /** Check that `key` holds a list, appending at most one message to `errors`. */
  method ValidateListField(obj: Document, key: string, errors: ErrorList)
    modifies errors
    ensures errors.items == old(errors.items) + FieldMessages(obj, key, LIST_RULE)
    ensures old(errors.items) <= errors.items
    ensures |old(errors.items)| <= |errors.items| <= |old(errors.items)| + 1
  {
    if key !in obj {
      errors.Append(MissingMessage(key));
      return;
    }
    if !obj[key].List? {
      errors.Append(MismatchMessage(key, LIST_RULE.expected, obj[key]));
    }
  }

  /** Check that `key` holds a string, appending at most one message to `errors`. */
  method ValidateStringField(obj: Document, key: string, errors: ErrorList)
    modifies errors
    ensures errors.items == old(errors.items) + FieldMessages(obj, key, STRING_RULE)
    ensures old(errors.items) <= errors.items
    ensures |old(errors.items)| <= |errors.items| <= |old(errors.items)| + 1
  {
    if key !in obj {
      errors.Append(MissingMessage(key));
      return;
    }
    if !obj[key].Str? {
      errors.Append(MismatchMessage(key, STRING_RULE.expected, obj[key]));
    }
  }

  /** The report of the global validator. */
  function GlobalErrors(obj: Document): seq<string> {
    CheckedMessages(obj, GLOBAL_REQUIRED_KEYS, GLOBAL_LIST_RULE)
  }

  /** The report of the thread validator: string keys first, then list keys. */
  function ThreadErrors(obj: Document): seq<string> {
    CheckedMessages(obj, THREAD_STRING_KEYS, STRING_RULE) + CheckedMessages(obj, THREAD_LIST_KEYS, LIST_RULE)
  }

  /** Every global key is present and holds a list. */
  predicate GlobalWellTyped(obj: Document) {
    forall k :: k in GLOBAL_REQUIRED_KEYS ==> k in obj && obj[k].List?
  }

  /** The three thread string keys hold strings and the four list keys hold lists. */
  predicate ThreadWellTyped(obj: Document) {
    && (forall k :: k in THREAD_STRING_KEYS ==> k in obj && obj[k].Str?)
    && (forall k :: k in THREAD_LIST_KEYS ==> k in obj && obj[k].List?)
  }

  /** Walk the eight global keys in order, expecting a list under each. */
  method ValidateGlobal(obj: Document) returns (errors: seq<string>)
    ensures errors == GlobalErrors(obj)
  {
    errors := [];
    for i := 0 to |GLOBAL_REQUIRED_KEYS|
      invariant errors == CheckedMessages(obj, GLOBAL_REQUIRED_KEYS[..i], GLOBAL_LIST_RULE)
    {
      var key := GLOBAL_REQUIRED_KEYS[i];
      if key !in obj {
        errors := errors + [MissingMessage(key)];
      } else {
        if !obj[key].List? {
          errors := errors + [MismatchMessage(key, GLOBAL_LIST_RULE.expected, obj[key])];
        }
      }
      CheckedStep(obj, GLOBAL_REQUIRED_KEYS, i, GLOBAL_LIST_RULE);
    }
    assert GLOBAL_REQUIRED_KEYS[..|GLOBAL_REQUIRED_KEYS|] == GLOBAL_REQUIRED_KEYS;
  }

  /** Check the three string keys, then the four list keys, into one list. */
  method ValidateThread(obj: Document) returns (errors: seq<string>)
    ensures errors == ThreadErrors(obj)
  {
    var report := new ErrorList();
    ValidateStringFields(obj, THREAD_STRING_KEYS, report);
    ValidateListFields(obj, THREAD_LIST_KEYS, report);
    errors := report.items;
  }

  /** The thread validator's first loop: check each key as a string field. */
  method ValidateStringFields(obj: Document, keys: seq<string>, errors: ErrorList)
    modifies errors
    ensures errors.items == old(errors.items) + CheckedMessages(obj, keys, STRING_RULE)
  {
    for i := 0 to |keys|
      invariant errors.items == old(errors.items) + CheckedMessages(obj, keys[..i], STRING_RULE)
    {
      ValidateStringField(obj, keys[i], errors);
      CheckedStep(obj, keys, i, STRING_RULE);
    }
    assert keys[..|keys|] == keys;
  }

  /** The thread validator's second loop: check each key as a list field. */
  method ValidateListFields(obj: Document, keys: seq<string>, errors: ErrorList)
    modifies errors
    ensures errors.items == old(errors.items) + CheckedMessages(obj, keys, LIST_RULE)
  {
    for i := 0 to |keys|
      invariant errors.items == old(errors.items) + CheckedMessages(obj, keys[..i], LIST_RULE)
    {
      ValidateListField(obj, keys[i], errors);
      CheckedStep(obj, keys, i, LIST_RULE);
    }
    assert keys[..|keys|] == keys;
  }

  /** Per-key accounting for the global report: an absent global key is
      reported missing exactly once and never as a mismatch; a present
      global key that is not a list is reported as a mismatch exactly once,
      with the type name of its value, and never as missing; a global key
      holding a list is not reported at all. */
  lemma {:induction false} GlobalKeyAccounting(obj: Document, key: string)
    requires key in GLOBAL_REQUIRED_KEYS
    ensures key !in obj ==>
              && multiset(GlobalErrors(obj))[MissingMessage(key)] == 1
              && MismatchCount(GlobalErrors(obj), key) == 0
    ensures key in obj && !obj[key].List? ==>
              && MissingMessage(key) !in GlobalErrors(obj)
              && MismatchCount(GlobalErrors(obj), key) == 1
              && MismatchMessage(key, "a list (array)", obj[key]) in GlobalErrors(obj)
    ensures key in obj && obj[key].List? ==>
              && MissingMessage(key) !in GlobalErrors(obj)
              && MismatchCount(GlobalErrors(obj), key) == 0
  {
    GlobalKeysWellFormed();
    CheckedAccounting(obj, GLOBAL_REQUIRED_KEYS, GLOBAL_LIST_RULE, key);
  }

  /** The global report holds at most one message per global key, in the
      order of the global key list, and is empty exactly when every global
      key is present and holds a list. */
  lemma GlobalReportShape(obj: Document)
    ensures |GlobalErrors(obj)| <= 8
    ensures Covered(GlobalErrors(obj), GLOBAL_REQUIRED_KEYS)
    ensures OrderedBy(GlobalErrors(obj), GLOBAL_REQUIRED_KEYS)
    ensures GlobalErrors(obj) == [] <==> GlobalWellTyped(obj)
  {
    GlobalKeysWellFormed();
    CheckedCovered(obj, GLOBAL_REQUIRED_KEYS, GLOBAL_LIST_RULE);
    CheckedOrdered(obj, GLOBAL_REQUIRED_KEYS, GLOBAL_LIST_RULE);
    CheckedEmptyIff(obj, GLOBAL_REQUIRED_KEYS, GLOBAL_LIST_RULE);
  }

  /** The rule the thread validator applies to one of its keys. */
  function ThreadRule(key: string): Rule {
    if key in THREAD_STRING_KEYS then STRING_RULE else LIST_RULE
  }

  /** Per-key accounting for the thread report, with the rule of the key's
      group: absent means one missing report and no mismatch; present with
      the wrong kind means one mismatch naming the value's type and no
      missing report; present with the right kind means no report. */
  lemma {:induction false} ThreadKeyAccounting(obj: Document, key: string)
    requires key in THREAD_REQUIRED_KEYS
    ensures key !in obj ==>
              && multiset(ThreadErrors(obj))[MissingMessage(key)] == 1
              && MismatchCount(ThreadErrors(obj), key) == 0
    ensures key in obj && !HasKind(obj[key], ThreadRule(key).kind) ==>
              && MissingMessage(key) !in ThreadErrors(obj)
              && MismatchCount(ThreadErrors(obj), key) == 1
              && MismatchMessage(key, ThreadRule(key).expected, obj[key]) in ThreadErrors(obj)
    ensures key in obj && HasKind(obj[key], ThreadRule(key).kind) ==>
              && MissingMessage(key) !in ThreadErrors(obj)
              && MismatchCount(ThreadErrors(obj), key) == 0
  {
    ThreadKeysWellFormed();
    if key in THREAD_STRING_KEYS {
      FirstWalkAccounting(obj, THREAD_STRING_KEYS, STRING_RULE, THREAD_LIST_KEYS, LIST_RULE, key);
    } else {
      assert key in THREAD_LIST_KEYS;
      SecondWalkAccounting(obj, THREAD_STRING_KEYS, STRING_RULE, THREAD_LIST_KEYS, LIST_RULE, key);
    }
  }

  /** The thread report holds at most one message per thread key, each
      about a thread key, in the order of the thread key list, so every
      string-key message precedes every list-key message. */
  lemma ThreadReportOrdered(obj: Document)
    ensures |ThreadErrors(obj)| <= 7
    ensures Covered(ThreadErrors(obj), THREAD_REQUIRED_KEYS)
    ensures OrderedBy(ThreadErrors(obj), THREAD_REQUIRED_KEYS)
  {
    ThreadKeysWellFormed();
    var a := CheckedMessages(obj, THREAD_STRING_KEYS, STRING_RULE);
    var b := CheckedMessages(obj, THREAD_LIST_KEYS, LIST_RULE);
    CheckedCovered(obj, THREAD_STRING_KEYS, STRING_RULE);
    CheckedCovered(obj, THREAD_LIST_KEYS, LIST_RULE);
    CheckedOrdered(obj, THREAD_STRING_KEYS, STRING_RULE);
    CheckedOrdered(obj, THREAD_LIST_KEYS, LIST_RULE);
    OrderedConcat(a, THREAD_STRING_KEYS, b, THREAD_LIST_KEYS);
    CoveredConcat(a, THREAD_STRING_KEYS, b, THREAD_LIST_KEYS);
  }

  /** The thread report is empty exactly when the three string keys hold
      strings and the four list keys hold lists. */
  lemma ThreadReportEmptyIff(obj: Document)
    ensures ThreadErrors(obj) == [] <==> ThreadWellTyped(obj)
  {
    CheckedEmptyIff(obj, THREAD_STRING_KEYS, STRING_RULE);
    CheckedEmptyIff(obj, THREAD_LIST_KEYS, LIST_RULE);
  }

  /** No message about a string key of the thread schema follows a message
      about one of its list keys. */
  lemma {:induction false} ThreadStringErrorsFirst(obj: Document, i: nat, j: nat, stringKey: string, listKey: string)
    requires i < j < |ThreadErrors(obj)|
    requires stringKey in THREAD_STRING_KEYS && listKey in THREAD_LIST_KEYS
    ensures About(ThreadErrors(obj)[i], listKey) ==> !About(ThreadErrors(obj)[j], stringKey)
  {
    ThreadKeysWellFormed();
    ThreadReportOrdered(obj);
    var p :| 0 <= p < 4 && THREAD_LIST_KEYS[p] == listKey;
    var q :| 0 <= q < 3 && THREAD_STRING_KEYS[q] == stringKey;
    assert THREAD_REQUIRED_KEYS[3 + p] == listKey && THREAD_REQUIRED_KEYS[q] == stringKey;
  }
}
