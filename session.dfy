/** The outer `while True` loop of `main`: listen, transcribe, record the
    user's words, run a reasoning cycle, and apply the error policy. The
    microphone and the recogniser are not run: each round is given what the
    recogniser produced. */
module Session {
  import opened Wrappers
  import opened Steps
  import opened Cycle
  import Tools
  import Speech

  /** What listening and `recognize_google` produced in one round. */
  datatype Hearing =
    | Heard(text: string)     // transcribed words
    | Unintelligible          // `sr.UnknownValueError`
    | SpeechServiceDown       // `sr.RequestError`
    | ListenFailure           // any other exception while listening or transcribing

  /** One round of the outer loop: the recogniser's result and, if words
      were heard, the model calls of the reasoning cycle. */
  datatype Round = Round(hearing: Hearing, exchanges: seq<Exchange>)

  datatype Outcome = Outcome(history: seq<Turn>, ending: Ending)

  /** The body of the outer loop with its three `except` clauses. */
  function AfterRound(validate: Validator, prompt: string, h: seq<Turn>, round: Round): Outcome
  {
    match round.hearing
    case Unintelligible => Outcome(h, Silence)
    case SpeechServiceDown => Outcome(h, SpeechServiceError)
    case ListenFailure => Outcome([SystemTurn(prompt)], Failure)
    case Heard(text) =>
      var t := Reasoning(validate, round.exchanges);
      if t.ending.Failure? then Outcome([SystemTurn(prompt)], Failure)
      else Outcome(h + [Turn(User, text)] + t.appended, t.ending)
  }

  /** A round leaves the history alone when the recogniser fails, resets it to
      the single system turn on any other exception, and otherwise only
      appends: the user's words, then validated replies and the observations
      of their tool steps. */
  lemma RoundAppendsOrResets(validate: Validator, prompt: string, h: seq<Turn>, round: Round)
    ensures var o := AfterRound(validate, prompt, h, round);
      && ((o.ending.Silence? || o.ending.SpeechServiceError?) <==>
          (round.hearing.Unintelligible? || round.hearing.SpeechServiceDown?))
      && ((o.ending.Silence? || o.ending.SpeechServiceError?) ==> o.history == h)
      && (o.ending.Failure? <==>
          (round.hearing.ListenFailure? ||
           (round.hearing.Heard? && Reasoning(validate, round.exchanges).ending.Failure?)))
      && (o.ending.Failure? ==> o.history == [SystemTurn(prompt)])
      && (round.hearing.Heard? && !o.ending.Failure? ==>
            && |h| < |o.history|
            && o.history[..|h|] == h
            && o.history[|h|] == Turn(User, round.hearing.text)
            && Recorded(validate, o.history[|h| + 1..]))
  {
    if round.hearing.Heard? {
      var t := Reasoning(validate, round.exchanges);
      CycleAppendsRepliesAndObservations(validate, round.exchanges);
      if !t.ending.Failure? {
        var n := h + [Turn(User, round.hearing.text)] + t.appended;
        assert n[..|h|] == h;
        assert n[|h| + 1..] == t.appended;
      }
    }
  }

  /** A reply that fails validation on the first call of a cycle leaves the
      history with the user's words appended and nothing else. */
  lemma FirstReplyInvalid(validate: Validator, prompt: string, h: seq<Turn>, text: string, exs: seq<Exchange>)
    requires exs != []
    requires exs[0].reply.EmptyCompletion? || (exs[0].reply.Completion? && validate(exs[0].reply.raw).None?)
    ensures AfterRound(validate, prompt, h, Round(Heard(text), exs)) == Outcome(h + [Turn(User, text)], ParseFailure)
  {
    assert ContinuesFor(validate, exs, 0);
    ParseFailureKeepsEarlierTurns(validate, exs, 0);
  }

  /** A `get_weather` step without an input raises while building the URL,
      outside the tool's `try`, and so resets the history. */
  lemma WeatherWithoutCityResets(validate: Validator, prompt: string, h: seq<Turn>, text: string, exs: seq<Exchange>, k: nat)
    requires ContinuesFor(validate, exs, k) && k < |exs|
    requires Validated(validate, exs[k])
    requires var s := validate(exs[k].reply.raw).value;
      KindOf(s.step) == UseTool && s.tool == Some("get_weather") && s.input.None?
    ensures AfterRound(validate, prompt, h, Round(Heard(text), exs)) == Outcome([SystemTurn(prompt)], Failure)
  {
    ContinuingPrefix(validate, exs, k);
    UnfoldAt(validate, exs, k);
  }

  /** A `run_command` step whose command fails with output that is not UTF-8
      resets the history: the tool's `except CalledProcessError` handler
      raises while decoding, and nothing inside the tool catches that. */
  lemma CommandWithUndecodableOutputResets(validate: Validator, prompt: string, h: seq<Turn>, text: string,
                                           exs: seq<Exchange>, k: nat)
    requires ContinuesFor(validate, exs, k) && k < |exs|
    requires Validated(validate, exs[k])
    requires var s := validate(exs[k].reply.raw).value;
      KindOf(s.step) == UseTool && s.tool == Some("run_command") && s.input.Some?
    requires var p := exs[k].tools.process; p.Exited? && p.code != 0 && p.output.NotUtf8?
    ensures AfterRound(validate, prompt, h, Round(Heard(text), exs)) == Outcome([SystemTurn(prompt)], Failure)
  {
    ContinuingPrefix(validate, exs, k);
    UnfoldAt(validate, exs, k);
  }

  /** An output step without content raises when `tts` slices it, outside its
      `try`, and so resets the history. */
  lemma OutputWithoutContentResets(validate: Validator, prompt: string, h: seq<Turn>, text: string, exs: seq<Exchange>, k: nat)
    requires ContinuesFor(validate, exs, k) && k < |exs|
    requires Validated(validate, exs[k])
    requires var s := validate(exs[k].reply.raw).value; KindOf(s.step) == Output && s.content.None?
    ensures AfterRound(validate, prompt, h, Round(Heard(text), exs)) == Outcome([SystemTurn(prompt)], Failure)
  {
    ContinuingPrefix(validate, exs, k);
    UnfoldAt(validate, exs, k);
  }

  /** A question answered in the order the system prompt's rules give: a
      plan, a `get_weather` call that the service answers with status 200,
      and an output. The history gains the question, the three replies and the
      weather report between the call and the answer, and the truncated
      answer is what gets spoken. */
  lemma WeatherQuestionAnswered(validate: Validator, prompt: string, h: seq<Turn>, question: string,
                                plan: string, call: string, answer: string, city: string, body: string,
                                idle: Tools.ToolIo, weather: Tools.ToolIo, audio: Speech.AudioOutcome)
    requires validate(plan).Some? && KindOf(validate(plan).value.step) == Plan
    requires validate(call).Some? && KindOf(validate(call).value.step) == UseTool
    requires validate(call).value.tool == Some("get_weather") && validate(call).value.input == Some(city)
    requires validate(answer).Some? && KindOf(validate(answer).value.step) == Output
    requires validate(answer).value.content.Some?
    requires weather.http == Tools.HttpResponse(200, body)
    requires audio.Streamed?
    ensures var exs := [Exchange(Completion(plan), idle, audio),
                        Exchange(Completion(call), weather, audio),
                        Exchange(Completion(answer), idle, audio)];
      var o := AfterRound(validate, prompt, h, Round(Heard(question), exs));
      && o.history == h + [Turn(User, question), Turn(Assistant, plan), Turn(Assistant, call),
                           ObservationTurn(Tools.WeatherPrefix + city + " is " + Text.Strip(body)),
                           Turn(Assistant, answer)]
      && o.ending.Spoken?
      && o.ending.playback.sent == Speech.Truncate(validate(answer).value.content.value)
      && o.ending.playback.written == Speech.WithoutHeader(audio.chunks)
  {
    var exs := [Exchange(Completion(plan), idle, audio),
                Exchange(Completion(call), weather, audio),
                Exchange(Completion(answer), idle, audio)];
    var report := Tools.WeatherPrefix + city + " is " + Text.Strip(body);
    assert Tools.Dispatch(Some("get_weather"), Some(city), weather) == Returns(report);
    var said0 := [Turn(Assistant, plan)];
    var said1 := [Turn(Assistant, call), ObservationTurn(report)];
    PlanAsksAgain(validate, exs[0]);
    ToolStepObserves(validate, exs[1]);
    assert ContinuesFor(validate, exs, 2);
    assert Appended(validate, exs, 2) == said0 + said1 by {
      assert exs[1..][0] == exs[1];
      assert Appended(validate, exs[1..], 1) == said1 + Appended(validate, exs[1..][1..], 0);
    }
    OutputEndsCycle(validate, exs, 2);
    var t := Reasoning(validate, exs);
    assert t.appended == said0 + said1 + [Turn(Assistant, answer)];
  }

  /** The history and the endings after a sequence of rounds. */
  datatype Log = Log(history: seq<Turn>, endings: seq<Ending>)

  function Replay(validate: Validator, prompt: string, h: seq<Turn>, rounds: seq<Round>): (log: Log)
    ensures |log.endings| == |rounds|
    decreases |rounds|
  {
    if rounds == [] then Log(h, [])
    else
      var before := Replay(validate, prompt, h, rounds[..|rounds| - 1]);
      var o := AfterRound(validate, prompt, before.history, rounds[|rounds| - 1]);
      Log(o.history, before.endings + [o.ending])
  }

  /** The system turn is at the front of the history after any rounds. */
  lemma {:induction false} SystemTurnStaysFirst(validate: Validator, prompt: string, h: seq<Turn>, rounds: seq<Round>)
    requires |h| >= 1 && h[0] == SystemTurn(prompt)
    ensures var log := Replay(validate, prompt, h, rounds);
      |log.history| >= 1 && log.history[0] == SystemTurn(prompt)
    decreases |rounds|
  {
    if rounds != [] {
      var before := Replay(validate, prompt, h, rounds[..|rounds| - 1]);
      SystemTurnStaysFirst(validate, prompt, h, rounds[..|rounds| - 1]);
      RoundAppendsOrResets(validate, prompt, before.history, rounds[|rounds| - 1]);
    }
  }

  /** Until some round fails, the history only grows: the starting history
      stays a prefix of it. */
  lemma {:induction false} GrowsUntilReset(validate: Validator, prompt: string, h: seq<Turn>, rounds: seq<Round>)
    requires forall j :: 0 <= j < |rounds| ==> !Replay(validate, prompt, h, rounds).endings[j].Failure?
    ensures var log := Replay(validate, prompt, h, rounds);
      |h| <= |log.history| && log.history[..|h|] == h
    decreases |rounds|
  {
    if rounds != [] {
      var prior := rounds[..|rounds| - 1];
      var before := Replay(validate, prompt, h, prior);
      var log := Replay(validate, prompt, h, rounds);
      assert forall j :: 0 <= j < |prior| ==> log.endings[j] == before.endings[j];
      GrowsUntilReset(validate, prompt, h, prior);
      RoundAppendsOrResets(validate, prompt, before.history, rounds[|rounds| - 1]);
      assert !log.endings[|rounds| - 1].Failure?;
      assert log.history[..|before.history|] == before.history;
      assert log.history[..|h|] == before.history[..|h|];
    }
  }

  /** A round that fails leaves exactly the system turn, whatever came before. */
  lemma ResetLeavesSystemTurn(validate: Validator, prompt: string, h: seq<Turn>, rounds: seq<Round>)
    requires rounds != []
    requires Replay(validate, prompt, h, rounds).endings[|rounds| - 1].Failure?
    ensures Replay(validate, prompt, h, rounds).history == [SystemTurn(prompt)]
  {
    var before := Replay(validate, prompt, h, rounds[..|rounds| - 1]);
    RoundAppendsOrResets(validate, prompt, before.history, rounds[|rounds| - 1]);
  }
}
