/**
 * `initialize_session_state`: the app's session state is a key/value store
 * shared by every page; on start-up eight keys receive a default value, but
 * only those that are not already present.
 */
module SessionDefaults {

  /** The values the session state holds: booleans, strings, `None`, and
      opaque objects such as an authenticated client. */
  datatype Value = Bool(b: bool) | Str(s: string) | NoneValue | Object(id: nat)

  /** `keys_defaults`. */
  const KeysDefaults: map<string, Value> := map[
    "authenticated" := Bool(false),
    "github_token" := Str(""),
    "g" := NoneValue,
    "selected_repo" := Str(""),
    "selected_file" := Str(""),
    "file_content" := Str(""),
    "selected_llm" := Str("Sonnet-3.5"),
    "sandbox_code" := Str("")
  ]

  /** The order in which `keys_defaults.items()` visits the keys (insertion order). */
  const KeyOrder: seq<string> := [
    "authenticated", "github_token", "g", "selected_repo",
    "selected_file", "file_content", "selected_llm", "sandbox_code"
  ]

  /** The iteration order visits exactly the keys of `keys_defaults`. */
  lemma KeyOrderCoversDefaults()
    ensures forall j :: 0 <= j < |KeyOrder| ==> KeyOrder[j] in KeysDefaults
    ensures forall k :: k in KeysDefaults ==> k in KeyOrder
  {
  }

  /** The session state after initialisation: a listed key that was missing gets
      its default, everything already present stays as it was. */
  function Initialized(state: map<string, Value>): map<string, Value> {
    KeysDefaults + state
  }

  /** The session state, updated in place. */
  class SessionState {
    var values: map<string, Value>

    constructor (values: map<string, Value>)
      ensures this.values == values
    {
      this.values := values;
    }
  }

  /** Loops over `keys_defaults` and writes each missing key. */
  method InitializeSessionState(session: SessionState)
    modifies session
    ensures session.values == Initialized(old(session.values))
  {
    ghost var start := session.values;
    KeyOrderCoversDefaults();
    for i := 0 to |KeyOrder|
      invariant session.values.Keys <= start.Keys + KeysDefaults.Keys
      invariant forall j :: 0 <= j < i ==> KeyOrder[j] in session.values
      invariant forall k :: k in start ==> k in session.values && session.values[k] == start[k]
      invariant forall k :: k in session.values && k !in start ==> session.values[k] == KeysDefaults[k]
    {
      var key := KeyOrder[i];
      if key !in session.values {
        session.values := session.values[key := KeysDefaults[key]];
      }
    }
    assert session.values.Keys == Initialized(start).Keys;
  }

  // ---------------------------------------------------------------------------
  // Properties

  /** Afterwards the state holds every listed key, the keys it had before, and no other. */
  lemma InitializedKeys(state: map<string, Value>)
    ensures Initialized(state).Keys == state.Keys + KeysDefaults.Keys
    ensures forall j :: 0 <= j < |KeyOrder| ==> KeyOrder[j] in Initialized(state)
  {
    KeyOrderCoversDefaults();
  }

  /** A key already present keeps its value, even a falsy one such as `''` or `False`;
      a key that was missing gets exactly its listed default. */
  lemma InitializedValues(state: map<string, Value>)
    ensures forall k :: k in state ==> Initialized(state)[k] == state[k]
    ensures forall k :: k !in state && k in KeysDefaults ==> Initialized(state)[k] == KeysDefaults[k]
  {
  }

  /** The listed defaults themselves. */
  lemma DefaultValues()
    ensures KeysDefaults["authenticated"] == Bool(false)
    ensures KeysDefaults["github_token"] == Str("")
    ensures KeysDefaults["g"] == NoneValue
    ensures KeysDefaults["selected_repo"] == Str("")
    ensures KeysDefaults["selected_file"] == Str("")
    ensures KeysDefaults["file_content"] == Str("")
    ensures KeysDefaults["selected_llm"] == Str("Sonnet-3.5")
    ensures KeysDefaults["sandbox_code"] == Str("")
    ensures |KeysDefaults| == 8
  {
    var d := KeysDefaults;
    assert d.Keys == {"authenticated", "github_token", "g", "selected_repo", "selected_file",
                      "file_content", "selected_llm", "sandbox_code"};
  }

  /** On an empty session, initialisation yields exactly the defaults; a session that
      already holds `selected_llm` keeps its choice. */
  lemma InitializedExamples(model: string)
    ensures Initialized(map[]) == KeysDefaults
    ensures Initialized(map["selected_llm" := Str(model)])["selected_llm"] == Str(model)
    ensures Initialized(map["authenticated" := Bool(true)])["authenticated"] == Bool(true)
  {
  }

  /** Initialising twice is the same as initialising once. */
  lemma InitializedIdempotent(state: map<string, Value>)
    ensures Initialized(Initialized(state)) == Initialized(state)
  {
    var once := Initialized(state);
    assert Initialized(once) == KeysDefaults + (KeysDefaults + state);
  }

  /** Keys outside the listed eight are neither added, changed nor removed. */
  lemma InitializedTouchesOnlyListedKeys(state: map<string, Value>, k: string)
    requires k !in KeysDefaults
    ensures k in Initialized(state) <==> k in state
    ensures k in state ==> Initialized(state)[k] == state[k]
  {
  }
}
