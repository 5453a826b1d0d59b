/** Deciding from a document's keys which schema it is validated against. */
module ModeDetection {
  import opened JsonValue
  import opened Schemas

  datatype Mode = Global | Thread

  /** The warning detection emits besides its answer, if any. */
  datatype Warning =
    | NoWarning
    | BothSchemas   // keys of both schemas present; validated as global
    | Undetermined  // keys of neither schema present; validated as global

  datatype Detection = Detection(mode: Mode, warning: Warning)

  /** Some candidate is among the present keys, scanning the candidates in
      order and stopping at the first hit, as Python's `any` does. */
  function AnyPresent(present: set<string>, candidates: seq<string>): bool {
    |candidates| > 0 && (candidates[0] in present || AnyPresent(present, candidates[1..]))
  }

  /** Some key of `keys` is present. */
  predicate Meets(present: set<string>, keys: seq<string>) {
    exists k :: k in present && k in keys
  }

  /** The scan answers exactly the membership question, whatever the order
      of the candidates. */
  lemma {:induction false} AnyPresentMeets(present: set<string>, candidates: seq<string>)
    ensures AnyPresent(present, candidates) <==> Meets(present, candidates)
    decreases |candidates|
  {
    if |candidates| > 0 {
      var rest := candidates[1..];
      assert candidates == [candidates[0]] + rest;
      AnyPresentMeets(present, rest);
      if Meets(present, candidates) && candidates[0] !in present {
        var k :| k in present && k in candidates;
        assert k in rest;
      }
      if Meets(present, rest) {
        var k :| k in present && k in rest;
        assert k in candidates;
      }
    }
  }

  /** Choose the schema: thread only when thread keys are present and no
      global key is; global otherwise, warning when both or neither kind of
      key is present. */
  function DetectMode(obj: Document): Detection {
    var keys := obj.Keys;
    var hasGlobal := AnyPresent(keys, GLOBAL_REQUIRED_KEYS);
    var hasThread := AnyPresent(keys, THREAD_REQUIRED_KEYS);
    if hasGlobal && !hasThread then Detection(Global, NoWarning)
    else if hasThread && !hasGlobal then Detection(Thread, NoWarning)
    else if hasGlobal && hasThread then Detection(Global, BothSchemas)
    else Detection(Global, Undetermined)
  }

  /** The decision table, stated over key membership: the mode is thread
      exactly when some thread key is present and no global key is; a
      warning is given exactly when both kinds or neither kind are present,
      and says which. */
  lemma DetectModeDecision(obj: Document)
    ensures DetectMode(obj).mode == Thread
        <==> Meets(obj.Keys, THREAD_REQUIRED_KEYS) && !Meets(obj.Keys, GLOBAL_REQUIRED_KEYS)
    ensures DetectMode(obj).warning == BothSchemas
        <==> Meets(obj.Keys, THREAD_REQUIRED_KEYS) && Meets(obj.Keys, GLOBAL_REQUIRED_KEYS)
    ensures DetectMode(obj).warning == Undetermined
        <==> !Meets(obj.Keys, THREAD_REQUIRED_KEYS) && !Meets(obj.Keys, GLOBAL_REQUIRED_KEYS)
    ensures DetectMode(obj).warning != NoWarning ==> DetectMode(obj).mode == Global
  {
    AnyPresentMeets(obj.Keys, GLOBAL_REQUIRED_KEYS);
    AnyPresentMeets(obj.Keys, THREAD_REQUIRED_KEYS);
  }

  /** Detection looks at the key set only: documents with the same keys get
      the same answer, whatever their values. */
  lemma DetectModeKeysOnly(a: Document, b: Document)
    requires a.Keys == b.Keys
    ensures DetectMode(a) == DetectMode(b)
  {
  }
}
