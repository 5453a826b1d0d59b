/** The two hard-coded schemas: the required top-level keys of a global
    reasoning pack and of a thread-specific pack. */
module Schemas {

  /** The global pack: eight keys, each expected to hold a list. */
  const GLOBAL_REQUIRED_KEYS: seq<string> := [
    "context_you_should_have_used",
    "thought_process_failures",
    "failure_patterns",
    "grok_strengths_and_limitations",
    "multi_llm_roles",
    "power_user_best_practices",
    "team_of_models_architecture",
    "reasoning_strategy_pack"
  ]

  /** The thread pack: seven keys, used for mode detection. */
  const THREAD_REQUIRED_KEYS: seq<string> := [
    "thread_name",
    "primary_goal",
    "niche_or_topic",
    "tasks_for_grok",
    "hard_constraints",
    "output_requirements",
    "priority_rules"
  ]

  /** The keys the thread validator checks as strings, in its own literal order. */
  const THREAD_STRING_KEYS: seq<string> := ["thread_name", "primary_goal", "niche_or_topic"]

  /** The keys the thread validator checks as lists, in its own literal order. */
  const THREAD_LIST_KEYS: seq<string> := [
    "tasks_for_grok",
    "hard_constraints",
    "output_requirements",
    "priority_rules"
  ]

  /** A key with no single quote in it; the mismatch messages quote keys
      with `'`, so such a key can be read back out of its message. */
  predicate QuoteFree(key: string) {
    forall i :: 0 <= i < |key| ==> key[i] != '\''
  }

  /** No key is listed twice. */
  predicate Distinct(keys: seq<string>) {
    forall i, j :: 0 <= i < j < |keys| ==> keys[i] != keys[j]
  }

  /** What the accounting lemmas need of a key list. */
  predicate WellFormedKeys(keys: seq<string>) {
    Distinct(keys) && forall k :: k in keys ==> QuoteFree(k)
  }

  /** The global key list is well formed. */
  lemma GlobalKeysWellFormed()
    ensures WellFormedKeys(GLOBAL_REQUIRED_KEYS)
  {
    GlobalKeysDistinct();
    GlobalKeysQuoteFree();
  }

  lemma GlobalKeysDistinct()
    ensures Distinct(GLOBAL_REQUIRED_KEYS)
  {
  }

  lemma GlobalKeysQuoteFree()
    ensures forall k :: k in GLOBAL_REQUIRED_KEYS ==> QuoteFree(k)
  {
    assert QuoteFree("context_you_should_have_used");
    assert QuoteFree("thought_process_failures");
    assert QuoteFree("failure_patterns");
    assert QuoteFree("grok_strengths_and_limitations");
    assert QuoteFree("multi_llm_roles");
    assert QuoteFree("power_user_best_practices");
    assert QuoteFree("team_of_models_architecture");
    assert QuoteFree("reasoning_strategy_pack");
  }

  /** The thread key lists are well formed, and the thread validator's two
      literal lists together are the thread schema's keys in the same order. */
  lemma ThreadKeysWellFormed()
    ensures WellFormedKeys(THREAD_REQUIRED_KEYS)
    ensures WellFormedKeys(THREAD_STRING_KEYS) && WellFormedKeys(THREAD_LIST_KEYS)
    ensures THREAD_STRING_KEYS + THREAD_LIST_KEYS == THREAD_REQUIRED_KEYS
  {
    ThreadKeysDistinct();
    ThreadKeysQuoteFree();
    assert THREAD_STRING_KEYS + THREAD_LIST_KEYS == THREAD_REQUIRED_KEYS;
  }

  lemma ThreadKeysDistinct()
    ensures Distinct(THREAD_REQUIRED_KEYS)
    ensures Distinct(THREAD_STRING_KEYS) && Distinct(THREAD_LIST_KEYS)
  {
  }

  lemma ThreadKeysQuoteFree()
    ensures forall k :: k in THREAD_REQUIRED_KEYS ==> QuoteFree(k)
  {
    assert QuoteFree("thread_name");
    assert QuoteFree("primary_goal");
    assert QuoteFree("niche_or_topic");
    assert QuoteFree("tasks_for_grok");
    assert QuoteFree("hard_constraints");
    assert QuoteFree("output_requirements");
    assert QuoteFree("priority_rules");
  }

  /** The two schemas share no key. */
  lemma SchemasDisjoint()
    ensures forall k :: k in THREAD_REQUIRED_KEYS ==> k !in GLOBAL_REQUIRED_KEYS
  {
  }
}
