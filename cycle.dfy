/** One reasoning cycle: the inner `while True` loop that asks the language
    model, validates its reply, records it, and plans, calls a tool or speaks.
    The model, the tools and the speech service are scripted: the cycle is
    given, call by call, an `Exchange` holding the model's reply and the
    outcomes of whatever outside action that reply's step triggers. */
module Cycle {
  import opened Wrappers
  import opened Steps
  import Tools
  import Speech
  import Json

  /** What `client.chat.completions.create` gave: a reply text, a reply
      without content, or an exception. */
  datatype Reply = Completion(raw: string) | EmptyCompletion | CompletionError

  /** One model call, with the outside world's answers to the step it yields. */
  datatype Exchange = Exchange(reply: Reply, tools: Tools.ToolIo, audio: Speech.AudioOutcome)

  /** How a round of the outer loop ends. */
  datatype Ending =
    | Silence                          // the recogniser heard nothing intelligible
    | SpeechServiceError               // the recogniser could not reach its service
    | ParseFailure                     // a reply failed validation: back to listening
    | Spoken(playback: Speech.Playback)  // an output step was spoken
    | Failure                          // an exception reached the outer handler
    | ScriptExhausted                  // the scripted model calls ran out

  /** `StepModel.model_validate_json`: the abstract validator. */
  type Validator = string -> Option<Step>

  /** What one model call does to the history and whether the cycle goes on. */
  datatype Effect = Continue(appended: seq<Turn>) | Stop(appended: seq<Turn>, ending: Ending)

  /** The reply of this exchange passes validation. */
  predicate Validated(validate: Validator, ex: Exchange)
  {
    ex.reply.Completion? && validate(ex.reply.raw).Some?
  }

  /** The body of the inner loop for one model call. */
  function React(validate: Validator, ex: Exchange): Effect
  {
    match ex.reply
    case CompletionError => Stop([], Failure)
    case EmptyCompletion => Stop([], ParseFailure)
    case Completion(raw) =>
      match validate(raw)
      case None => Stop([], ParseFailure)
      case Some(step) => Act(raw, step, ex)
  }

  /** The rest of the loop body once `raw` has been validated as `step`: the
      reply is recorded first, then the lower-cased kind picks the branch. */
  function Act(raw: string, step: Step, ex: Exchange): Effect
  {
    var said := Turn(Assistant, raw);
    match KindOf(step.step)
    case Plan => Continue([said])
    case Unrecognised => Continue([said])
    case UseTool =>
      (match Tools.Dispatch(step.tool, step.input, ex.tools)
       case Raises => Stop([said], Failure)
       case Returns(observation) => Continue([said, ObservationTurn(observation)]))
    case Output =>
      (match Speech.Tts(step.content, ex.audio)
       case Raises => Stop([said], Failure)
       case Returns(playback) => Stop([said], Spoken(playback)))
  }

  /** The endings a reasoning cycle can have. */
  predicate CycleEnding(e: Ending)
  {
    e.ParseFailure? || e.Spoken? || e.Failure? || e.ScriptExhausted?
  }

  /** What a whole cycle appends, how it ends, and how many model calls it made. */
  datatype Trace = Trace(appended: seq<Turn>, ending: Ending, calls: nat)

  /** The inner loop over the scripted exchanges. It stops at the first reply
      that ends the cycle, and otherwise runs until the script is used up;
      it makes at least one call when there is one to make. */
  function Reasoning(validate: Validator, exs: seq<Exchange>): (t: Trace)
    ensures CycleEnding(t.ending)
    ensures t.calls <= |exs|
    ensures exs != [] ==> 1 <= t.calls
    ensures t.ending.ScriptExhausted? ==> t.calls == |exs|
    decreases |exs|
  {
    if exs == [] then Trace([], ScriptExhausted, 0)
    else
      match React(validate, exs[0])
      case Stop(appended, ending) => Trace(appended, ending, 1)
      case Continue(appended) =>
        var rest := Reasoning(validate, exs[1..]);
        Trace(appended + rest.appended, rest.ending, rest.calls + 1)
  }

  /** The turns the first `k` model calls append. */
  function Appended(validate: Validator, exs: seq<Exchange>, k: nat): seq<Turn>
    requires k <= |exs|
    decreases k
  {
    if k == 0 then [] else React(validate, exs[0]).appended + Appended(validate, exs[1..], k - 1)
  }

  /** A trace preceded by `k` calls that appended `turns`. */
  function After(turns: seq<Turn>, k: nat, t: Trace): Trace
  {
    Trace(turns + t.appended, t.ending, t.calls + k)
  }

  /** The first `k` calls all let the cycle go on. */
  predicate ContinuesFor(validate: Validator, exs: seq<Exchange>, k: nat)
  {
    k <= |exs| && forall j :: 0 <= j < k ==> React(validate, exs[j]).Continue?
  }

  lemma {:induction false} AppendedStep(validate: Validator, exs: seq<Exchange>, k: nat)
    requires k < |exs|
    ensures Appended(validate, exs, k + 1) == Appended(validate, exs, k) + React(validate, exs[k]).appended
    decreases k
  {
    if k > 0 {
      var first := React(validate, exs[0]).appended;
      var middle := Appended(validate, exs[1..], k - 1);
      var last := React(validate, exs[k]).appended;
      AppendedStep(validate, exs[1..], k - 1);
      assert exs[1..][k - 1] == exs[k];
      assert Appended(validate, exs[1..], k) == middle + last;
      assert Appended(validate, exs, k + 1) == first + (middle + last);
      Regroup(first, middle, last);
    }
  }

  /** Concatenation regrouped. */
  lemma Regroup(h: seq<Turn>, a: seq<Turn>, b: seq<Turn>)
    ensures h + a + b == h + (a + b)
  {
  }

  /** After calls that all went on, the cycle is the rest of the script run
      on the history those calls built: nothing they appended is lost. */
  lemma {:induction false} ContinuingPrefix(validate: Validator, exs: seq<Exchange>, k: nat)
    requires ContinuesFor(validate, exs, k)
    ensures Reasoning(validate, exs) == After(Appended(validate, exs, k), k, Reasoning(validate, exs[k..]))
    decreases k
  {
    if k == 0 {
      assert exs[0..] == exs;
    } else {
      var e := React(validate, exs[0]);
      assert e.Continue?;
      var rest := Reasoning(validate, exs[1..]);
      assert Reasoning(validate, exs) == After(e.appended, 1, rest);
      assert ContinuesFor(validate, exs[1..], k - 1) by {
        forall j | 0 <= j < k - 1 ensures React(validate, exs[1..][j]).Continue? {
          assert exs[1..][j] == exs[j + 1];
        }
      }
      ContinuingPrefix(validate, exs[1..], k - 1);
      var b := Appended(validate, exs[1..], k - 1);
      assert exs[1..][k - 1..] == exs[k..];
      assert rest == After(b, k - 1, Reasoning(validate, exs[k..]));
      assert Appended(validate, exs, k) == e.appended + b;
      assert e.appended + (b + Reasoning(validate, exs[k..]).appended)
          == (e.appended + b) + Reasoning(validate, exs[k..]).appended;
    }
  }

  /** One more step of the cycle from call `i`. */
  lemma UnfoldAt(validate: Validator, exs: seq<Exchange>, i: nat)
    requires i < |exs|
    ensures React(validate, exs[i]).Stop? ==>
      Reasoning(validate, exs[i..]) == Trace(React(validate, exs[i]).appended, React(validate, exs[i]).ending, 1)
    ensures React(validate, exs[i]).Continue? ==>
      Reasoning(validate, exs[i..]) == After(React(validate, exs[i]).appended, 1, Reasoning(validate, exs[i + 1..]))
  {
    assert exs[i..][0] == exs[i];
    assert exs[i..][1..] == exs[i + 1..];
  }

  /** A reply that fails validation ends the cycle: nothing is appended for
      it, and every turn the earlier calls of the cycle appended stays. */
  lemma {:induction false} ParseFailureKeepsEarlierTurns(validate: Validator, exs: seq<Exchange>, k: nat)
    requires ContinuesFor(validate, exs, k) && k < |exs|
    requires exs[k].reply.EmptyCompletion? || (exs[k].reply.Completion? && validate(exs[k].reply.raw).None?)
    ensures Reasoning(validate, exs) == Trace(Appended(validate, exs, k), ParseFailure, k + 1)
  {
    ContinuingPrefix(validate, exs, k);
    UnfoldAt(validate, exs, k);
  }

  /** An output step ends the cycle: its reply is the last turn appended, its
      content goes to speech, and no later reply of the script is asked for. */
  lemma {:induction false} OutputEndsCycle(validate: Validator, exs: seq<Exchange>, k: nat)
    requires ContinuesFor(validate, exs, k) && k < |exs|
    requires Validated(validate, exs[k])
    requires KindOf(validate(exs[k].reply.raw).value.step) == Output
    requires validate(exs[k].reply.raw).value.content.Some?
    ensures var t := Reasoning(validate, exs);
      && t.appended == Appended(validate, exs, k) + [Turn(Assistant, exs[k].reply.raw)]
      && t.calls == k + 1
      && t.ending.Spoken?
      && t.ending.playback == Speech.Tts(validate(exs[k].reply.raw).value.content, exs[k].audio).value
      && t.ending.playback.sent == Speech.Truncate(validate(exs[k].reply.raw).value.content.value)
  {
    ContinuingPrefix(validate, exs, k);
    UnfoldAt(validate, exs, k);
  }

  /** A plan step, or a step whose kind matches no branch, appends only its
      own reply and asks the model again. */
  lemma PlanAsksAgain(validate: Validator, ex: Exchange)
    requires Validated(validate, ex)
    requires KindOf(validate(ex.reply.raw).value.step) in {Plan, Unrecognised}
    ensures React(validate, ex) == Continue([Turn(Assistant, ex.reply.raw)])
  {
  }

  /** A tool step whose tool does not raise (it is not `get_weather` without
      a city, nor a given command that fails with undecodable output) appends its reply
      and then exactly one observation turn; an unknown or missing tool name
      is observed as "Error: Tool not found". */
  lemma ToolStepObserves(validate: Validator, ex: Exchange)
    requires Validated(validate, ex)
    requires KindOf(validate(ex.reply.raw).value.step) == UseTool
    requires var s := validate(ex.reply.raw).value; !(s.tool == Some("get_weather") && s.input.None?)
    requires var s := validate(ex.reply.raw).value; var p := ex.tools.process;
      !(s.tool == Some("run_command") && s.input.Some? && p.Exited? && p.code != 0 && p.output.NotUtf8?)
    ensures var s := validate(ex.reply.raw).value;
      var obs := Tools.Dispatch(s.tool, s.input, ex.tools);
      && obs.Returns?
      && React(validate, ex) == Continue([Turn(Assistant, ex.reply.raw), ObservationTurn(obs.value)])
      && ((s.tool.None? || s.tool.value !in Tools.Registry) ==> obs.value == Tools.ToolNotFound)
  {
  }

  /** A `run_command` step without an input cannot raise: the command `None`
      fails to spawn inside the tool's `try`, and the error is observed as a
      string, whatever the process oracle holds. */
  lemma CommandWithoutInputObservesError(validate: Validator, ex: Exchange)
    requires Validated(validate, ex)
    requires var s := validate(ex.reply.raw).value;
      KindOf(s.step) == UseTool && s.tool == Some("run_command") && s.input.None?
    ensures React(validate, ex) ==
      Continue([Turn(Assistant, ex.reply.raw), ObservationTurn(Tools.ErrorPrefix + Tools.NoCommandMessage)])
  {
  }

  // ---- The shape of what a cycle appends ----

  /** The reply is a validated tool step. */
  predicate IsToolStep(validate: Validator, raw: string)
  {
    validate(raw).Some? && KindOf(validate(raw).value.step) == UseTool
  }

  /** Turn `k` is one a cycle can append: an assistant turn holds a reply that
      passed validation; a user turn is an observation that directly follows
      the tool step it reports on; there is no system turn. */
  predicate TurnRecorded(validate: Validator, turns: seq<Turn>, k: nat)
    requires k < |turns|
  {
    match turns[k].role
    case System => false
    case Assistant => validate(turns[k].content).Some?
    case User =>
      && 0 < k
      && turns[k - 1].role == Assistant
      && IsToolStep(validate, turns[k - 1].content)
      && Json.ParseObservation(turns[k].content).Some?
  }

  predicate Recorded(validate: Validator, turns: seq<Turn>)
  {
    forall k :: 0 <= k < |turns| ==> TurnRecorded(validate, turns, k)
  }

  lemma RecordedConcat(validate: Validator, a: seq<Turn>, b: seq<Turn>)
    requires Recorded(validate, a) && Recorded(validate, b)
    requires b == [] || b[0].role == Assistant
    ensures Recorded(validate, a + b)
  {
    var ab := a + b;
    forall k | 0 <= k < |ab| ensures TurnRecorded(validate, ab, k) {
      if k < |a| {
        assert ab[k] == a[k];
        assert TurnRecorded(validate, a, k);
        if 0 < k { assert ab[k - 1] == a[k - 1]; }
      } else {
        assert ab[k] == b[k - |a|];
        assert TurnRecorded(validate, b, k - |a|);
        if |a| < k { assert ab[k - 1] == b[k - 1 - |a|]; }
      }
    }
  }

  /** A validated reply appends its own assistant turn first, then at most an
      observation, and only for a tool step. */
  lemma ActShape(raw: string, step: Step, ex: Exchange)
    ensures var a := Act(raw, step, ex).appended;
      && 1 <= |a| <= 2
      && a[0] == Turn(Assistant, raw)
      && (|a| == 2 ==> KindOf(step.step) == UseTool && a[1].role == User && Json.ParseObservation(a[1].content).Some?)
  {
    match KindOf(step.step)
    case Plan =>
    case Unrecognised =>
    case Output =>
    case UseTool =>
      match Tools.Dispatch(step.tool, step.input, ex.tools)
      case Raises =>
      case Returns(obs) =>
        var t := ObservationTurn(obs);
        assert Act(raw, step, ex).appended == [Turn(Assistant, raw), t];
  }

  /** What one call appends has the recorded shape. */
  lemma ReactRecorded(validate: Validator, ex: Exchange)
    ensures Recorded(validate, React(validate, ex).appended)
    ensures var a := React(validate, ex).appended; a == [] || a[0].role == Assistant
  {
    if Validated(validate, ex) {
      var raw := ex.reply.raw;
      var step := validate(raw).value;
      var a := Act(raw, step, ex).appended;
      assert React(validate, ex).appended == a;
      ActShape(raw, step, ex);
      assert TurnRecorded(validate, a, 0);
      if |a| == 2 {
        assert TurnRecorded(validate, a, 1);
      }
    } else {
      assert React(validate, ex).appended == [];
    }
  }

  /** Every turn a cycle appends is a validated reply or the observation of
      the tool step just before it; the cycle never appends user speech or a
      system turn, and what it appends starts with a reply. */
  lemma {:induction false} CycleAppendsRepliesAndObservations(validate: Validator, exs: seq<Exchange>)
    ensures Recorded(validate, Reasoning(validate, exs).appended)
    ensures var a := Reasoning(validate, exs).appended; a == [] || a[0].role == Assistant
    decreases |exs|
  {
    if exs != [] {
      var e := React(validate, exs[0]);
      ReactRecorded(validate, exs[0]);
      if e.Continue? {
        var rest := Reasoning(validate, exs[1..]);
        assert Reasoning(validate, exs).appended == e.appended + rest.appended;
        CycleAppendsRepliesAndObservations(validate, exs[1..]);
        RecordedConcat(validate, e.appended, rest.appended);
      } else {
        assert Reasoning(validate, exs).appended == e.appended;
      }
    }
  }

  /** The contents of the assistant turns, in order. */
  function Replies(turns: seq<Turn>): seq<string>
  {
    if turns == [] then []
    else (if turns[0].role == Assistant then [turns[0].content] else []) + Replies(turns[1..])
  }

  lemma {:induction false} RepliesConcat(a: seq<Turn>, b: seq<Turn>)
    ensures Replies(a + b) == Replies(a) + Replies(b)
    decreases |a|
  {
    if a == [] {
      assert a + b == b;
    } else {
      var head := if a[0].role == Assistant then [a[0].content] else [];
      assert (a + b)[0] == a[0];
      assert (a + b)[1..] == a[1..] + b;
      assert Replies(a + b) == head + Replies(a[1..] + b);
      RepliesConcat(a[1..], b);
      assert head + (Replies(a[1..]) + Replies(b)) == (head + Replies(a[1..])) + Replies(b);
    }
  }

  /** The raw text of this exchange's reply if it passed validation. */
  function ValidatedReply(validate: Validator, ex: Exchange): seq<string>
  {
    if Validated(validate, ex) then [ex.reply.raw] else []
  }

  /** The raw texts of the replies among the first `k` calls that passed validation. */
  function ValidatedReplies(validate: Validator, exs: seq<Exchange>, k: nat): seq<string>
    requires k <= |exs|
    decreases k
  {
    if k == 0 then []
    else ValidatedReply(validate, exs[0]) + ValidatedReplies(validate, exs[1..], k - 1)
  }

  /** One call appends exactly one assistant turn, with the raw reply, when
      its reply passes validation, and none otherwise. */
  lemma ReactReplies(validate: Validator, ex: Exchange)
    ensures Replies(React(validate, ex).appended) == ValidatedReply(validate, ex)
  {
    if Validated(validate, ex) {
      var raw := ex.reply.raw;
      var step := validate(raw).value;
      var a := Act(raw, step, ex).appended;
      assert React(validate, ex).appended == a;
      ActShape(raw, step, ex);
      RepliesOfCall(a, raw);
    } else {
      assert React(validate, ex).appended == [];
    }
  }

  lemma RepliesOfCall(a: seq<Turn>, raw: string)
    requires 1 <= |a| <= 2 && a[0] == Turn(Assistant, raw)
    requires |a| == 2 ==> a[1].role == User
    ensures Replies(a) == [raw]
  {
    assert Replies(a) == [raw] + Replies(a[1..]);
    if |a| == 2 {
      assert Replies(a[1..]) == [] + Replies(a[1..][1..]);
      assert a[1..][1..] == [];
    } else {
      assert a[1..] == [];
    }
  }

  /** Each call whose reply passes validation appends exactly one assistant
      turn, holding the raw reply text, in call order; no other assistant
      turn is appended. */
  lemma {:induction false} OneAssistantTurnPerValidReply(validate: Validator, exs: seq<Exchange>)
    ensures Replies(Reasoning(validate, exs).appended) == ValidatedReplies(validate, exs, Reasoning(validate, exs).calls)
    decreases |exs|
  {
    if exs != [] {
      if React(validate, exs[0]).Continue? {
        OneAssistantTurnPerValidReply(validate, exs[1..]);
        RepliesWhenContinuing(validate, exs);
      } else {
        RepliesWhenStopping(validate, exs);
      }
    }
  }

  /** The inductive step for a first call that lets the cycle go on: the
      property for the rest of the script gives it for the whole. */
  lemma RepliesWhenContinuing(validate: Validator, exs: seq<Exchange>)
    requires exs != []
    ensures var rest := Reasoning(validate, exs[1..]);
      React(validate, exs[0]).Continue? &&
      Replies(rest.appended) == ValidatedReplies(validate, exs[1..], rest.calls)
      ==> Replies(Reasoning(validate, exs).appended) == ValidatedReplies(validate, exs, Reasoning(validate, exs).calls)
  {
    var e := React(validate, exs[0]);
    var rest := Reasoning(validate, exs[1..]);
    if e.Continue? && Replies(rest.appended) == ValidatedReplies(validate, exs[1..], rest.calls) {
      var head := ValidatedReply(validate, exs[0]);
      ReactReplies(validate, exs[0]);
      assert Reasoning(validate, exs) == Trace(e.appended + rest.appended, rest.ending, rest.calls + 1);
      RepliesConcat(e.appended, rest.appended);
      assert ValidatedReplies(validate, exs, rest.calls + 1) == head + ValidatedReplies(validate, exs[1..], rest.calls);
    }
  }

  /** The base case: a first call that ends the cycle. */
  lemma RepliesWhenStopping(validate: Validator, exs: seq<Exchange>)
    requires exs != [] && React(validate, exs[0]).Stop?
    ensures Replies(Reasoning(validate, exs).appended) == ValidatedReplies(validate, exs, Reasoning(validate, exs).calls)
  {
    var e := React(validate, exs[0]);
    var head := ValidatedReply(validate, exs[0]);
    ReactReplies(validate, exs[0]);
    assert Reasoning(validate, exs) == Trace(e.appended, e.ending, 1);
    assert ValidatedReplies(validate, exs[1..], 0) == [];
    assert ValidatedReplies(validate, exs, 1) == head;
  }
}
