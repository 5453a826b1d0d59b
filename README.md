# Grok JSON pack validator, modelled in Dafny

`validate_grok_json.py` checks that a parsed JSON document follows one of
two flat, hard-coded schemas. A **global** reasoning pack has eight required
keys, each holding a list. A **thread** pack has seven required keys: three
that hold strings and four that hold lists. The script works out from the
document's keys which schema applies, walks that schema's keys in order,
gathers one message per absent or mistyped key, and exits with 0 when no
message was gathered and 1 otherwise.

The model has these modules:

- `JsonValue`: the parsed value, and the Python type name of each kind of value.
- `Schemas`: the two key lists. It also holds the thread validator's two
  literal key lists (strings first, then lists) and proves that together
  they are the thread schema in the same order.
- `Messages`: the missing-key and type-mismatch message texts. When keys
  contain no `'`, each message names exactly one key.
- `FieldChecks`: what checking one key, or a list of keys in order, adds to
  a report. This is stated as functions, with the accounting, ordering and
  emptiness lemmas over any well-formed key list.
- `Validators`: the field helpers, imperative over a caller-owned
  `ErrorList` class. Also `ValidateGlobal` and `ValidateThread`, each proved
  equal to its report function, and the lemmas stating what those reports
  say about the document.
- `ModeDetection`: the key-set decision, with its warnings returned as a tag.
- `Driver`: the run after loading. It rejects a non-object root, detects
  the mode, validates, and computes the exit code. It also proves the
  outcome for a few concrete documents: a mixed document, an unrecognised
  one, a well-typed pack of each kind, and one whose first global key holds
  a non-list.

The thread validator's two `for` loops (lines 102-103 and 106-112) are the
methods `ValidateStringFields` and `ValidateListFields`. `ValidateThread`
calls them on the same `ErrorList`, one after the other. The global
validator keeps its loop inline, over a local sequence, as the source
does. The global check's mismatch text says "a list (array)". The thread
list helper says "a list". The two wordings are kept apart as the rules
`GLOBAL_LIST_RULE` and `LIST_RULE`.

## Model

| member | source | states |
|---|---|---|
| JsonValue.TypeName | validate_grok_json.py:70-71 | the reported type name is `list`, `str` or `dict` exactly when the value is a list, a string or an object |
| Schemas.GlobalKeysWellFormed | validate_grok_json.py:10-19 | the eight global keys are distinct and contain no single quote |
| Schemas.ThreadKeysWellFormed | validate_grok_json.py:98-112 | the thread keys are distinct and quote-free, and the validator's string list followed by its list list is exactly the thread schema, in order |
| Schemas.SchemasDisjoint | validate_grok_json.py:10-31 | no thread key is a global key |
| Messages.MismatchMessageShape | validate_grok_json.py:71 | a mismatch message is recognised as a mismatch for its own key and never equals a missing-key message |
| Messages.MissingIsNoMismatch | validate_grok_json.py:68 | a missing-key message is never read as a mismatch for any key |
| Messages.MissingMessageInjective | validate_grok_json.py:68 | two missing-key messages are equal iff their keys are |
| Messages.AboutDeterminesKey | validate_grok_json.py:68-71 | a message about two quote-free keys names the same key twice |
| FieldChecks.FieldMessagesShape | validate_grok_json.py:66-71 | one check adds at most one message, about its own key, and adds none iff the key is present with the right kind |
| FieldChecks.FieldAccounting | validate_grok_json.py:66-71 | one check reports `key` missing once iff it checks `key` and `key` is absent, and reports one mismatch for `key` iff it checks `key` and its value has the wrong kind |
| FieldChecks.CheckedAccounting | validate_grok_json.py:85-93 | over distinct quote-free keys: an absent listed key is reported missing exactly once and never as a mismatch; a present listed key of the wrong kind gets exactly one mismatch, naming its type, and no missing report; any other key is not reported |
| FieldChecks.FirstWalkAccounting | validate_grok_json.py:101-103 | for two walks over disjoint key lists, a key of the first list is accounted for as in one walk under the first list's rule |
| FieldChecks.SecondWalkAccounting | validate_grok_json.py:105-112 | for two walks over disjoint key lists, a key of the second list is accounted for as in one walk under the second list's rule |
| FieldChecks.CheckedEmptyIff | validate_grok_json.py:85-93 | a walk reports nothing iff every key is present with the right kind |
| FieldChecks.CheckedCovered | validate_grok_json.py:85-93 | a walk adds no more messages than it has keys, and each is about a key it checked |
| FieldChecks.CoveredConcat | validate_grok_json.py:101-112 | two reports, each about its own keys, are together about the two key lists together |
| FieldChecks.CheckedOrdered | validate_grok_json.py:85-93 | a walk over well-formed keys reports in key order, and never reports one key twice |
| FieldChecks.OrderedConcat | validate_grok_json.py:101-112 | two ordered reports over disjoint keys stay ordered when concatenated, so earlier keys' messages precede later ones' |
| FieldChecks.CheckedConcat | validate_grok_json.py:85-93 | walking `a + b` reports walking `a` and then walking `b` |
| FieldChecks.CheckedStep | validate_grok_json.py:85-93 | one loop step adds exactly the messages of checking key `i` |
| FieldChecks.CheckedAllMissing | validate_grok_json.py:85-87 | when no listed key is present, the report is the missing-key message of every key, in list order |
| FieldChecks.CheckedOnlyFirstPresent | validate_grok_json.py:85-93 | when only the first key is present and it has the wrong kind, the report is its mismatch, then every other key missing, in order |
| FieldChecks.MismatchCountAppend | validate_grok_json.py:83-95 | mismatch counts add up over concatenated reports |
| FieldChecks.MismatchCountZero | validate_grok_json.py:83-95 | the mismatch count for `key` is zero iff no message is a mismatch for `key` |
| Validators.ErrorList.constructor | validate_grok_json.py:99 | a new error list is empty |
| Validators.ErrorList.Append | validate_grok_json.py:68 | appending adds the message at the end and keeps every earlier message |
| Validators.ValidateListField | validate_grok_json.py:66-71 | appends to the caller's list exactly the messages of a list check ("a list" wording); it only appends, and at most one message |
| Validators.ValidateStringField | validate_grok_json.py:74-79 | appends to the caller's list exactly the messages of a string check; it only appends, and at most one message |
| Validators.ValidateGlobal | validate_grok_json.py:82-95 | the loop returns the global report: the eight keys checked in order with the "a list (array)" wording |
| Validators.ValidateThread | validate_grok_json.py:98-114 | the returned list is the three string checks followed by the four list checks |
| Validators.ValidateStringFields | validate_grok_json.py:102-103 | the loop appends exactly the string-check messages of each key, in order |
| Validators.ValidateListFields | validate_grok_json.py:106-112 | the loop appends exactly the list-check messages of each key, in order |
| Validators.GlobalKeyAccounting | validate_grok_json.py:85-93 | per global key: absent means one missing message and no mismatch; not a list means no missing message, one mismatch, and the "a list (array)" message naming its type; a list means no message |
| Validators.GlobalReportShape | validate_grok_json.py:82-95 | the global report has 0 to 8 messages, each about a global key, in global key order, and is empty iff every global key holds a list |
| Validators.ThreadKeyAccounting | validate_grok_json.py:98-114 | per thread key, under its group's rule: absent means one missing message and no mismatch; wrong kind means one mismatch naming the type and no missing message; right kind means no message |
| Validators.ThreadReportOrdered | validate_grok_json.py:98-114 | the thread report has at most 7 messages, each about a thread key, in thread key order |
| Validators.ThreadReportEmptyIff | validate_grok_json.py:98-114 | the thread report is empty iff the three string keys hold strings and the four list keys hold lists |
| Validators.ThreadStringErrorsFirst | validate_grok_json.py:101-112 | no message about a string key follows a message about a list key |
| ModeDetection.AnyPresentMeets | validate_grok_json.py:48-49 | the short-circuit scan says yes iff some candidate key is present |
| ModeDetection.DetectModeDecision | validate_grok_json.py:42-63 | the mode is thread iff some thread key and no global key is present; the both-schemas warning is given iff keys of both are present; the undetermined warning iff neither; any warning comes with global mode |
| ModeDetection.DetectModeKeysOnly | validate_grok_json.py:47 | documents with the same key set get the same detection |
| Driver.Validate | validate_grok_json.py:129-138 | running the validators gives the outcome the run function defines |
| Driver.NonObjectRootRejected | validate_grok_json.py:129-131 | a non-object root is rejected, naming a type other than `dict`, with exit code 1 |
| Driver.SucceedsIffWellTyped | validate_grok_json.py:133-146 | an object root is validated under its detected mode, and the exit code is 0 iff the document meets that mode's schema |
| Driver.MixedDocumentValidatedAsGlobal | validate_grok_json.py:55-59 | a document with keys of both schemas is validated against the global schema, with the both-schemas warning |
| Driver.UnrecognisedDocumentReportsAllMissing | validate_grok_json.py:61-63 | a document with none of the fifteen keys gets global mode with the undetermined warning, exactly the eight missing-key messages in order, and exit code 1 |
| Driver.GlobalPackAccepted | validate_grok_json.py:51-52 | a well-typed global pack with no thread keys is accepted as global without warning, with exit code 0 |
| Driver.ThreadPackAccepted | validate_grok_json.py:53-54 | a well-typed thread pack with no global keys is accepted as thread without warning, with exit code 0 |
| Driver.ThreadExampleAccepted | validate_grok_json.py:98-114 | the thread pack with three strings and four empty lists is accepted as thread, with exit code 0 |
| Driver.FirstGlobalKeyMistyped | validate_grok_json.py:85-93 | a document holding only the first global key, not as a list, is global without warning and gets 8 messages: the "a list (array)" mismatch first, then the seven other keys missing, in order, with exit code 1 |
| Driver.GlobalExampleRejected | validate_grok_json.py:85-93 | `{"context_you_should_have_used": "not a list"}` is validated as global and gets 8 messages: first exactly `Key 'context_you_should_have_used' must be a list (array), found str`, then exactly `Missing required key: thought_process_failures`, with exit code 1 |
| Driver.GlobalExampleMismatchText | validate_grok_json.py:92 | the global mismatch message for that key and a string value is exactly that text |

## Left out

- Command-line handling (lines 117-125) is left out: the argument count check, the usage message and the file-existence check. They are I/O that ends the process with exit code 1.
- Reading and parsing the file (lines 33-39, 127) is left out. The model starts from a parsed `Value`, so a syntax error and its diagnostic are outside it.
- Duplicate keys in the JSON text are not modelled. The parser's handling of them is not part of this model, and the model's documents are maps.
- Printing is left out. This covers the success line, the failure header with the upper-cased mode, the bulleted messages (lines 140-146) and the root-type error text (line 130). The model keeps the outcome, the detected mode, the ordered messages and the exit code that those lines report.
- `detect_mode`'s two warnings to standard error (lines 57-58, 62) are returned as the `Warning` tag rather than printed.
- JSON numbers are modelled only as an integer or a float tag, without their value. The validators look only at the type name, never at the value.
- `bool` being a subclass of `int` in Python does not matter here. The validators test only for `list` and `str`, which the model tests by constructor.
