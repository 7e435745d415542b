/** The records the agent loop works with: a validated model step and a turn
    of the conversation history. */
module Steps {
  import opened Wrappers
  import Text
  import Json

  /** `StepModel`: a reply that passed validation. `step` is any string; the
      other three fields may be absent. */
  datatype Step = Step(step: string, content: Option<string>, tool: Option<string>, input: Option<string>)

  /** The branch a step takes once its kind is lower-cased. */
  datatype Kind = Plan | UseTool | Output | Unrecognised

  /** `parsed_result.step.lower()` compared with the three branch names. Only
      ASCII letters are lower-cased here; no other character lower-cases to
      a string made of the letters of "plan", "tool" or "output", so the
      branch taken is the same as with full Unicode lower-casing. */
  function KindOf(word: string): Kind
  {
    var k := Text.Lower(word);
    if k == "plan" then Plan
    else if k == "tool" then UseTool
    else if k == "output" then Output
    else Unrecognised
  }

  /** The kind is recognised in any mixture of upper and lower case, and only
      then. */
  lemma {:induction false} KindIsCaseInsensitive(word: string)
    ensures KindOf(word) == Plan <==> Text.SameIgnoringCase(word, "plan")
    ensures KindOf(word) == UseTool <==> Text.SameIgnoringCase(word, "tool")
    ensures KindOf(word) == Output <==> Text.SameIgnoringCase(word, "output")
  {
    Text.LowerMatchesIgnoringCase(word, "plan");
    Text.LowerMatchesIgnoringCase(word, "tool");
    Text.LowerMatchesIgnoringCase(word, "output");
  }

  datatype Role = System | User | Assistant

  /** One `{"role": ..., "content": ...}` entry of `message_history`. */
  datatype Turn = Turn(role: Role, content: string)

  /** The turn the history starts with and is reset to. */
  function SystemTurn(prompt: string): Turn
  {
    Turn(System, prompt)
  }

  /** The turn that reports a tool's result: role "user", content the JSON
      object `{"step": "observe", "content": obs}`, from which the result can
      be read back unchanged. */
  function ObservationTurn(obs: string): (t: Turn)
    ensures t.role == User
    ensures Json.ParseObservation(t.content) == Some(obs)
  {
    Json.ObservationRoundTrip(obs);
    Turn(User, Json.ObservationJson(obs))
  }
}
