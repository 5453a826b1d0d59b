/** The run after loading: reject a non-object root, detect the mode,
    validate against the detected schema, and derive the exit code. */
module Driver {
  import opened JsonValue
  import opened Schemas
  import opened Messages
  import opened FieldChecks
  import opened ModeDetection
  import opened Validators

  /** What one run decides about a parsed document. */
  datatype Outcome =
    | RootRejected(found: string)                          // root is not an object; names its type
    | Validated(detection: Detection, errors: seq<string>) // validated under the detected mode

  /** The process exit status: 0 only for a validated document with no errors. */
  function ExitCode(outcome: Outcome): int {
    if outcome.Validated? && outcome.errors == [] then 0 else 1
  }

  /** The outcome of a run on a parsed root value. */
  function Evaluate(root: Value): Outcome {
    match root
    case Object(obj) =>
      var detection := DetectMode(obj);
      var errors := if detection.mode == Global then GlobalErrors(obj) else ThreadErrors(obj);
      Validated(detection, errors)
    case _ => RootRejected(TypeName(root))
  }

  /** Run the checks on a parsed root value, calling the validators. */
  method Validate(root: Value) returns (outcome: Outcome)
    ensures outcome == Evaluate(root)
  {
    if !root.Object? {
      return RootRejected(TypeName(root));
    }
    var obj := root.fields;
    var detection := DetectMode(obj);
    var errors;
    if detection.mode == Global {
      errors := ValidateGlobal(obj);
    } else {
      errors := ValidateThread(obj);
    }
    outcome := Validated(detection, errors);
  }

  /** A root that is not an object is rejected before any mode is detected,
      naming a type other than dict, and the run fails. */
  lemma NonObjectRootRejected(root: Value)
    requires !root.Object?
    ensures Evaluate(root) == RootRejected(TypeName(root))
    ensures TypeName(root) != "dict"
    ensures ExitCode(Evaluate(root)) == 1
  {
  }

  /** For an object root the run succeeds exactly when the document meets
      the schema of its detected mode. */
  lemma SucceedsIffWellTyped(obj: Document)
    ensures Evaluate(Object(obj)).Validated?
    ensures Evaluate(Object(obj)).detection == DetectMode(obj)
    ensures ExitCode(Evaluate(Object(obj))) == 0
        <==> if DetectMode(obj).mode == Global then GlobalWellTyped(obj) else ThreadWellTyped(obj)
  {
    GlobalReportShape(obj);
    ThreadReportEmptyIff(obj);
  }

  /** A document with keys of both schemas is validated as global, against
      the eight global keys only, with a warning. */
  lemma MixedDocumentValidatedAsGlobal(obj: Document)
    requires Meets(obj.Keys, GLOBAL_REQUIRED_KEYS) && Meets(obj.Keys, THREAD_REQUIRED_KEYS)
    ensures Evaluate(Object(obj)) == Validated(Detection(Global, BothSchemas), GlobalErrors(obj))
  {
    DetectModeDecision(obj);
  }

  /** A document with none of the fifteen recognised keys is validated as
      global, with a warning, and fails with exactly the eight missing-key
      messages in global key order. */
  lemma UnrecognisedDocumentReportsAllMissing(obj: Document)
    requires !Meets(obj.Keys, GLOBAL_REQUIRED_KEYS) && !Meets(obj.Keys, THREAD_REQUIRED_KEYS)
    ensures Evaluate(Object(obj)).detection == Detection(Global, Undetermined)
    ensures |Evaluate(Object(obj)).errors| == 8
    ensures forall i :: 0 <= i < 8 ==> Evaluate(Object(obj)).errors[i] == MissingMessage(GLOBAL_REQUIRED_KEYS[i])
    ensures ExitCode(Evaluate(Object(obj))) == 1
  {
    DetectModeDecision(obj);
    assert forall k :: k in GLOBAL_REQUIRED_KEYS ==> k !in obj;
    CheckedAllMissing(obj, GLOBAL_REQUIRED_KEYS, GLOBAL_LIST_RULE);
  }

  /** A well-typed global pack without thread keys is accepted as global. */
  lemma GlobalPackAccepted(obj: Document)
    requires GlobalWellTyped(obj) && !Meets(obj.Keys, THREAD_REQUIRED_KEYS)
    ensures Evaluate(Object(obj)) == Validated(Detection(Global, NoWarning), [])
    ensures ExitCode(Evaluate(Object(obj))) == 0
  {
    var k := GLOBAL_REQUIRED_KEYS[0];
    assert k in obj.Keys && k in GLOBAL_REQUIRED_KEYS;
    DetectModeDecision(obj);
    GlobalReportShape(obj);
  }

  /** A well-typed thread pack without global keys is accepted as thread. */
  lemma ThreadPackAccepted(obj: Document)
    requires ThreadWellTyped(obj) && !Meets(obj.Keys, GLOBAL_REQUIRED_KEYS)
    ensures Evaluate(Object(obj)) == Validated(Detection(Thread, NoWarning), [])
    ensures ExitCode(Evaluate(Object(obj))) == 0
  {
    var k := THREAD_STRING_KEYS[0];
    assert k in THREAD_REQUIRED_KEYS;
    assert k in obj.Keys;
    DetectModeDecision(obj);
    ThreadReportEmptyIff(obj);
  }

  /** The thread pack with three strings and four empty lists passes. */
  lemma ThreadExampleAccepted()
    ensures var doc := map[
              "thread_name" := Str("X"), "primary_goal" := Str("Y"), "niche_or_topic" := Str("Z"),
              "tasks_for_grok" := List([]), "hard_constraints" := List([]),
              "output_requirements" := List([]), "priority_rules" := List([])];
            && Evaluate(Object(doc)) == Validated(Detection(Thread, NoWarning), [])
            && ExitCode(Evaluate(Object(doc))) == 0
  {
    var doc := map[
      "thread_name" := Str("X"), "primary_goal" := Str("Y"), "niche_or_topic" := Str("Z"),
      "tasks_for_grok" := List([]), "hard_constraints" := List([]),
      "output_requirements" := List([]), "priority_rules" := List([])];
    SchemasDisjoint();
    forall k | k in GLOBAL_REQUIRED_KEYS ensures k !in doc {
      ThreadKeysWellFormed();
    }
    ThreadPackAccepted(doc);
  }

  /** A document whose only key is the first global key, holding
      something other than a list, fails as global with the "list (array)"
      mismatch first and the seven other global keys reported missing after
      it. */
  lemma FirstGlobalKeyMistyped(obj: Document)
    requires obj.Keys == {GLOBAL_REQUIRED_KEYS[0]} && !obj[GLOBAL_REQUIRED_KEYS[0]].List?
    ensures var errors := Evaluate(Object(obj)).errors;
            && Evaluate(Object(obj)).detection == Detection(Global, NoWarning)
            && |errors| == 8
            && errors[0] == MismatchMessage(GLOBAL_REQUIRED_KEYS[0], "a list (array)", obj[GLOBAL_REQUIRED_KEYS[0]])
            && (forall i :: 1 <= i < 8 ==> errors[i] == MissingMessage(GLOBAL_REQUIRED_KEYS[i]))
            && ExitCode(Evaluate(Object(obj))) == 1
  {
    SchemasDisjoint();
    assert !Meets(obj.Keys, THREAD_REQUIRED_KEYS);
    assert GLOBAL_REQUIRED_KEYS[0] in obj.Keys;
    DetectModeDecision(obj);
    GlobalKeysDistinct();
    CheckedOnlyFirstPresent(obj, GLOBAL_REQUIRED_KEYS, GLOBAL_LIST_RULE);
  }

  /** The concrete case: the first global key holding the string "not a list"
      is validated as global and reported as a mismatch naming `str`, then
      the second global key as missing. */
  lemma GlobalExampleRejected()
    ensures var doc := map["context_you_should_have_used" := Str("not a list")];
            var errors := Evaluate(Object(doc)).errors;
            && Evaluate(Object(doc)).detection.mode == Global
            && |errors| == 8
            && errors[0] == "Key 'context_you_should_have_used' must be a list (array), found str"
            && errors[1] == "Missing required key: thought_process_failures"
            && ExitCode(Evaluate(Object(doc))) == 1
  {
    var doc := map["context_you_should_have_used" := Str("not a list")];
    assert doc.Keys == {GLOBAL_REQUIRED_KEYS[0]};
    FirstGlobalKeyMistyped(doc);
    GlobalExampleMismatchText();
    GlobalExampleMissingText();
  }

  /** The mismatch message of the concrete case, spelled out. */
  lemma GlobalExampleMismatchText()
    ensures MismatchMessage("context_you_should_have_used", "a list (array)", Str("not a list"))
         == "Key 'context_you_should_have_used' must be a list (array), found str"
  {
    GlobalExamplePrefixText();
    var prefix, expected, found := "Key 'context_you_should_have_used' must be ", "a list (array)", ", found ";
    assert TypeName(Str("not a list")) == "str";
    assert prefix + expected + found + "str" == "Key 'context_you_should_have_used' must be a list (array), found str";
  }

  /** The opening of the concrete case's mismatch message, spelled out. */
  lemma GlobalExamplePrefixText()
    ensures MismatchPrefix("context_you_should_have_used") == "Key 'context_you_should_have_used' must be "
  {
  }

  /** The missing-key message of the concrete case, spelled out. */
  lemma GlobalExampleMissingText()
    ensures MissingMessage("thought_process_failures") == "Missing required key: thought_process_failures"
  {
  }
}
