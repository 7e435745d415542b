/** `main` as the program runs it: one mutable message history, updated in
    place by the outer listening loop and the inner reasoning loop. Each
    method is proved against the functions of `Cycle` and `Session`, whose
    own properties are proved there. */
module Agent {
  import opened Wrappers
  import opened Steps
  import opened Cycle
  import opened Session
  import Tools
  import Speech

  /** Two appends in a row add the pair. */
  lemma AppendTwo(h: seq<Turn>, a: Turn, b: Turn)
    ensures h + [a] + [b] == h + [a, b]
  {
  }

  class VoiceAgent {
    /** The system prompt that opens every history. */
    const prompt: string
    /** `StepModel.model_validate_json`. */
    const validate: Validator
    /** `message_history`. */
    var history: seq<Turn>

    /** The history always starts with the system turn. */
    ghost predicate Valid()
      reads this
    {
      |history| >= 1 && history[0] == SystemTurn(prompt)
    }

    /** The history is initialised with the system turn alone. */
    constructor(prompt: string, validate: Validator)
      ensures this.prompt == prompt && this.validate == validate
      ensures history == [SystemTurn(prompt)]
      ensures Valid()
    {
      this.prompt := prompt;
      this.validate := validate;
      history := [SystemTurn(prompt)];
    }

    /** The body of the inner loop for one model call: a reply that cannot
        be had or does not validate stops the cycle; a valid one is acted on.
        `stop` is the ending when the loop leaves here through `break` or an
        exception. */
    method Respond(ex: Exchange) returns (stop: Option<Ending>)
      modifies this
      ensures history == old(history) + React(validate, ex).appended
      ensures stop.Some? <==> React(validate, ex).Stop?
      ensures stop.Some? ==> stop.value == React(validate, ex).ending
    {
      match ex.reply {
        case CompletionError =>
          return Some(Failure);
        case EmptyCompletion =>
          return Some(ParseFailure);
        case Completion(raw) =>
          var parsed := validate(raw);
          if parsed.None? {
            return Some(ParseFailure);
          }
          stop := Perform(raw, parsed.value, ex);
      }
    }

    /** A validated reply: record it, then plan, call a tool or speak
        according to its lower-cased kind. */
    method Perform(raw: string, step: Step, ex: Exchange) returns (stop: Option<Ending>)
      modifies this
      ensures history == old(history) + Act(raw, step, ex).appended
      ensures stop.Some? <==> Act(raw, step, ex).Stop?
      ensures stop.Some? ==> stop.value == Act(raw, step, ex).ending
    {
      var said := Turn(Assistant, raw);
      history := history + [said];
      match KindOf(step.step) {
        case Plan =>
          stop := None;
        case Unrecognised =>
          stop := None;
        case UseTool =>
          var observation := Tools.Dispatch(step.tool, step.input, ex.tools);
          if observation.Raises? {
            return Some(Failure);
          }
          var observed := ObservationTurn(observation.value);
          AppendTwo(old(history), said, observed);
          history := history + [observed];
          stop := None;
        case Output =>
          var spoken := Speech.Speak(step.content, ex.audio);
          if spoken.Raises? {
            return Some(Failure);
          }
          stop := Some(Spoken(spoken.value));
      }
    }

    /** The inner `while True` loop. `asked` holds, for each model call made,
        the message list it was sent: the history as it was before the cycle,
        followed by what the earlier calls of the cycle appended. When the
        loop ends through an exception, the appended turns stay here; the
        reset belongs to the outer handler. */
    method Reason(exs: seq<Exchange>) returns (ending: Ending, asked: seq<seq<Turn>>)
      modifies this
      ensures var t := Reasoning(validate, exs);
        && history == old(history) + t.appended
        && ending == t.ending
        && |asked| == t.calls
      ensures forall j :: 0 <= j < |asked| ==> j <= |exs| && asked[j] == old(history) + Appended(validate, exs, j)
    {
      asked := [];
      var i := 0;
      while i < |exs|
        invariant i <= |exs|
        invariant ContinuesFor(validate, exs, i)
        invariant history == old(history) + Appended(validate, exs, i)
        invariant |asked| == i
        invariant forall j :: 0 <= j < i ==> asked[j] == old(history) + Appended(validate, exs, j)
      {
        ghost var before := Appended(validate, exs, i);
        ghost var effect := React(validate, exs[i]);
        asked := asked + [history];
        var stop := Respond(exs[i]);
        Regroup(old(history), before, effect.appended);
        if stop.Some? {
          ContinuingPrefix(validate, exs, i);
          UnfoldAt(validate, exs, i);
          return stop.value, asked;
        }
        AppendedStep(validate, exs, i);
        i := i + 1;
      }
      ContinuingPrefix(validate, exs, i);
      assert exs[i..] == [];
      assert Appended(validate, exs, i) + [] == Appended(validate, exs, i);
      ending := ScriptExhausted;
    }

    /** One pass of the outer loop: listen, and on words heard append them
        and reason; any exception other than the recogniser's two resets the
        history to the system turn. */
    method Listen(round: Round) returns (ending: Ending)
      requires Valid()
      modifies this
      ensures Valid()
      ensures Outcome(history, ending) == AfterRound(validate, prompt, old(history), round)
    {
      match round.hearing {
        case Unintelligible =>
          ending := Silence;
        case SpeechServiceDown =>
          ending := SpeechServiceError;
        case ListenFailure =>
          history := [SystemTurn(prompt)];
          ending := Failure;
        case Heard(text) =>
          history := history + [Turn(User, text)];
          var asked;
          ending, asked := Reason(round.exchanges);
          if ending.Failure? {
            history := [SystemTurn(prompt)];
          }
      }
    }

    /** The outer `while True` loop over a finite sequence of rounds. */
    method Serve(rounds: seq<Round>) returns (endings: seq<Ending>)
      requires Valid()
      modifies this
      ensures Valid()
      ensures Log(history, endings) == Replay(validate, prompt, old(history), rounds)
    {
      endings := [];
      var i := 0;
      while i < |rounds|
        invariant i <= |rounds|
        invariant Valid()
        invariant Log(history, endings) == Replay(validate, prompt, old(history), rounds[..i])
      {
        assert rounds[..i + 1][..i] == rounds[..i];
        var ending := Listen(rounds[i]);
        endings := endings + [ending];
        i := i + 1;
      }
      assert rounds[..i] == rounds;
    }
  }
}
