# Voice agent reasoning loop

A Dafny model of the voice agent in `voiceagent/curoser.py`. The agent
listens for a spoken question and appends the words to its message
history. It then asks a language model for JSON "steps" until one of them
is spoken back:

- a `plan` step loops again;
- a `tool` step calls `get_weather` or `run_command` and records the result as an observation;
- an `output` step is sent to text-to-speech.

Any unexpected exception resets the history to the single system turn.

The outside world is given to the model rather than performed:

- **Language model.** Each model call is an `Exchange` holding the reply. It also holds the outcomes the step derived from that reply would meet: the HTTP answer for `get_weather`, the process result for `run_command`, and the audio stream for `tts`.
- **Validation.** `StepModel.model_validate_json` is an abstract validator `string -> Option<Step>`.
- **Recogniser.** Each round of the outer loop is given the recogniser's outcome.

Modules:

- `Wrappers`: `Option`, and `Call` (a value, or an exception raised).
- `Text`: Python's `str.strip()`, and `str.lower()` on ASCII letters.
- `Json`: the observation text `json.dumps({"step": "observe", "content": obs})`, with a decoder for it and a round-trip proof.
- `Tools`: `get_weather`, `run_command` and the `available_tools` dispatch, over given I/O outcomes.
- `Speech`: `tts`. This covers the 200-character truncation and the loop that drops the 44-byte WAV header from the first long chunk.
- `Steps`: the validated step, the case-insensitive kind, and history turns.
- `Cycle`: the inner reasoning loop as a function of the script of exchanges, with its properties.
- `Session`: one round of the outer loop with its three `except` clauses, replayed over many rounds.
- `Agent`: the class `VoiceAgent`. It owns the mutable `message_history` and runs both loops imperatively. Each of its methods is proved equal to the `Cycle` and `Session` functions.

The step kind is whatever string the reply carries. The field description
of `StepModel.step` (`voiceagent/curoser.py:69`) and the schema in the
system prompt (line 106) name only plan, tool and output. The model does
not enforce that restriction, because the code does not: `step` is a
plain `str`, and a kind other than the three matches no branch, so the loop
asks the model again. The model follows the code.

The agent loop calls `run_command` as written. A failing command whose
output is not UTF-8 therefore raises out of the tool and resets the history
(see "## Findings"); the repaired tool is modelled beside it.

## Model

| member | source | states |
|---|---|---|
| Text.Strip | voiceagent/curoser.py:90 | the result is the input with its Python-whitespace prefix and suffix cut off: a contiguous slice, everything cut is whitespace, and neither end of the result is whitespace |
| Text.Lower | voiceagent/curoser.py:170 | the lower-cased word is the same word ignoring ASCII case, with no upper-case ASCII letter left |
| Text.LowerMatchesIgnoringCase | voiceagent/curoser.py:170 | lower-casing a word gives a given lower-case word exactly when the two agree ignoring ASCII case |
| Steps.KindOf | voiceagent/curoser.py:170-199 | the branch a step takes from its lower-cased kind; characterised by `Steps.KindIsCaseInsensitive` |
| Steps.KindIsCaseInsensitive | voiceagent/curoser.py:170-199 | a step takes the plan, tool or output branch exactly when its kind spells that word in any mixture of case |
| Steps.ObservationTurn | voiceagent/curoser.py:193-194 | the observation turn has role user, and the tool output can be read back unchanged from its JSON content |
| Json.EscapeChar | voiceagent/curoser.py:193 | how `json.dumps` writes one character; characterised by `Json.EscapeRoundTrip` and the printable-ASCII bound of `Json.Escape` |
| Json.Escape | voiceagent/curoser.py:193 | with `ensure_ascii`, the escaped string body holds printable ASCII only |
| Json.Hex4RoundTrip | voiceagent/curoser.py:193 | the four lower-case hex digits of a `\u` escape read back as the code unit written |
| Json.EscapeRoundTrip | voiceagent/curoser.py:193 | decoding the string body `json.dumps` writes gives back the original text, including characters written as surrogate pairs |
| Json.ObservationJson | voiceagent/curoser.py:193 | the observation object text; characterised by `Json.ObservationRoundTrip` |
| Json.ObservationRoundTrip | voiceagent/curoser.py:193 | the observation object `{"step": "observe", "content": ...}` carries the tool output exactly |
| Tools.GetWeather | voiceagent/curoser.py:85-93 | the tool raises exactly when the city is missing, because lower-casing it is outside the `try`; the answer is an error string exactly when there was no 200 response; a non-200 status gives "Error: Could not get weather." |
| Tools.RunCommandAsWritten | voiceagent/curoser.py:74-83 | as written, the tool raises exactly when a command exits nonzero with output that is not UTF-8 |
| Tools.RunCommandAsWrittenRaises | voiceagent/curoser.py:80-81 | a concrete failing command with undecodable output makes the as-written tool raise |
| Tools.RunCommand | voiceagent/curoser.py:74-83 | a successful command gives its stripped output; a failing one with UTF-8 output gives "Error executing command: " and the output; every other outcome gives a string starting with "Error"; it never raises |
| Tools.RunCommandRefinesAsWritten | voiceagent/curoser.py:74-83 | the corrected tool returns what the as-written one returns whenever that one returns, and an "Error: " string where it raises |
| Tools.Invoke | voiceagent/curoser.py:186 | calls the registered tool on the step's input, a missing `run_command` input being the command `None` that cannot be spawned; characterised through `Tools.Dispatch` |
| Tools.Dispatch | voiceagent/curoser.py:185-188 | a missing or unregistered tool name gives "Error: Tool not found"; `get_weather` gives the weather tool's answer and `run_command` with a command the as-written command tool's; `run_command` without an input gives "Error: 'NoneType' object is not iterable", whatever the process would do; dispatch raises exactly for `get_weather` without an input, or `run_command` with a command that fails with output that is not UTF-8 |
| Speech.Truncate | voiceagent/curoser.py:46 | the text sent is the prefix of length min(length, 200) |
| Speech.FirstLong | voiceagent/curoser.py:58 | the index found is the first chunk longer than 44 bytes, or the number of chunks if none is |
| Speech.WithoutHeader | voiceagent/curoser.py:56-62 | the played stream has one chunk per input chunk, in order; only the first chunk longer than 44 bytes loses its first 44 bytes, and every other chunk is unchanged |
| Speech.PlayStream | voiceagent/curoser.py:56-62 | the loop with the `header_skipped` flag writes exactly the stream without its header |
| Speech.Tts | voiceagent/curoser.py:44-65 | what `tts` sends, writes and closes; characterised by `Speech.Speak`, whose result equals it |
| Speech.Speak | voiceagent/curoser.py:44-65 | `tts` raises exactly when there is no text, because slicing is outside the `try`; it sends the truncated text and writes the stream without its header; it closes the player only when the stream completed, and writes nothing when synthesis fails |
| Cycle.React | voiceagent/curoser.py:152-207 | one model call of the inner loop; characterised by `Cycle.ParseFailureKeepsEarlierTurns`, `Cycle.ReactRecorded` and `Cycle.ReactReplies` |
| Cycle.Act | voiceagent/curoser.py:167-207 | a validated reply acted on by its kind; characterised by `Cycle.ActShape`, `Cycle.PlanAsksAgain`, `Cycle.ToolStepObserves` and `Cycle.OutputEndsCycle` |
| Cycle.Reasoning | voiceagent/curoser.py:150-207 | a cycle ends with a parse failure, a spoken answer, an exception, or an exhausted script; it makes at least one model call and no more than the script holds; an exhausted script means every reply was asked for |
| Cycle.AppendedStep | voiceagent/curoser.py:150-207 | what the first k+1 calls append is what the first k append, followed by what call k appends |
| Cycle.ContinuingPrefix | voiceagent/curoser.py:150-207 | after calls that all let the loop go on, the cycle is the rest of the script run with their turns already appended: nothing is lost |
| Cycle.ParseFailureKeepsEarlierTurns | voiceagent/curoser.py:161-165 | a reply that is missing or fails validation ends the cycle; nothing is appended for it, and every turn the earlier calls appended stays |
| Cycle.PlanAsksAgain | voiceagent/curoser.py:170-176 | a plan step, or a kind matching no branch, appends only its own reply and asks the model again |
| Cycle.ToolStepObserves | voiceagent/curoser.py:179-196 | a tool step whose tool does not raise (not `get_weather` without a city, not a given command that fails with undecodable output) appends its reply and then exactly one observation turn; an unknown or missing tool is observed as "Error: Tool not found" |
| Cycle.CommandWithoutInputObservesError | voiceagent/curoser.py:74-83 | a `run_command` step without an input never raises: it appends its reply and the observation "Error: 'NoneType' object is not iterable", whatever the process oracle holds |
| Cycle.OutputEndsCycle | voiceagent/curoser.py:199-207 | an output step with content ends the cycle: its reply is the last turn appended, and no later reply is asked for; what is spoken is the step's content, truncated |
| Cycle.ActShape | voiceagent/curoser.py:166-196 | a validated reply appends its own assistant turn first, then at most one observation, and only for a tool step |
| Cycle.ReactRecorded | voiceagent/curoser.py:161-196 | every turn one model call appends is a validated reply or the observation right after a tool step |
| Cycle.CycleAppendsRepliesAndObservations | voiceagent/curoser.py:150-207 | every turn a whole cycle appends is a validated reply or the observation of the tool step just before it; no system turn, and no user speech |
| Cycle.ReactReplies | voiceagent/curoser.py:161-168 | one call appends exactly one assistant turn, holding the raw reply, when its reply passes validation, and none otherwise |
| Cycle.RepliesConcat | voiceagent/curoser.py:168 | the assistant turns of two joined histories are those of the first followed by those of the second |
| Cycle.OneAssistantTurnPerValidReply | voiceagent/curoser.py:161-168 | the assistant turns a cycle appends are exactly the raw replies that passed validation, in call order |
| Session.AfterRound | voiceagent/curoser.py:137-216 | one pass of the outer loop with its three handlers; characterised by `Session.RoundAppendsOrResets` |
| Session.RoundAppendsOrResets | voiceagent/curoser.py:136-216 | the two recogniser errors, and only they, leave the history unchanged; any other exception, and only that, resets it to the single system turn; otherwise the history gains the user's words followed by replies and observations only |
| Session.FirstReplyInvalid | voiceagent/curoser.py:143-165 | if the first reply fails validation, the history keeps the user's words and nothing else is added |
| Session.WeatherWithoutCityResets | voiceagent/curoser.py:86 | a `get_weather` step without an input resets the history to the system turn |
| Session.CommandWithUndecodableOutputResets | voiceagent/curoser.py:80-81 | a `run_command` step with a command that exits nonzero with output that is not UTF-8 resets the history to the system turn |
| Session.OutputWithoutContentResets | voiceagent/curoser.py:46 | an output step without content resets the history to the system turn |
| Session.WeatherQuestionAnswered | voiceagent/curoser.py:136-207 | a plan, a `get_weather` call answered with status 200, and an output: the history gains the question, the three replies and the weather report; the truncated answer is sent and the audio stream is written without its header |
| Session.Replay | voiceagent/curoser.py:136-216 | the outer loop folded over the rounds, one ending per round; characterised by `Session.SystemTurnStaysFirst`, `Session.GrowsUntilReset` and `Session.ResetLeavesSystemTurn` |
| Session.SystemTurnStaysFirst | voiceagent/curoser.py:125 | through any sequence of rounds the system turn stays at index 0 |
| Session.GrowsUntilReset | voiceagent/curoser.py:136-216 | while no round ends in a reset, the history only grows: the starting history stays as its prefix |
| Session.ResetLeavesSystemTurn | voiceagent/curoser.py:213-216 | a round that ends in an exception leaves exactly the system turn |
| Agent.VoiceAgent.constructor | voiceagent/curoser.py:125 | the history starts as the single system turn |
| Agent.VoiceAgent.Respond | voiceagent/curoser.py:152-207 | one pass of the inner loop body appends what the reasoning function says one call appends, and stops exactly when it says the loop leaves |
| Agent.VoiceAgent.Perform | voiceagent/curoser.py:167-207 | a validated reply is appended, then acted on by its kind, as the reasoning function says |
| Agent.VoiceAgent.Reason | voiceagent/curoser.py:150-207 | the inner loop appends exactly what the cycle function appends and ends as it ends; each model call is sent the history as it was before the cycle, followed by what the earlier calls appended |
| Agent.VoiceAgent.Listen | voiceagent/curoser.py:137-216 | one pass of the outer loop changes the history and ends as the round function says, and keeps the system turn first |
| Agent.VoiceAgent.Serve | voiceagent/curoser.py:136-216 | the outer loop over a sequence of rounds gives the replayed history and endings, and keeps the system turn first |

## Left out

- Audio and speech recognition: the microphone, `adjust_for_ambient_noise`, `recognize_google` and the pyaudio player are not modelled. A round is given as words heard, one of the recogniser's two errors, or another exception while listening.
- Network and processes: the `requests.get` call, the weather URL, the shell command text and `subprocess.check_output` are not modelled. Each tool call is given its HTTP or process outcome.
- Language model client: the Groq client is not modelled. A reply is given as text, as a reply without content (which fails validation), or as an exception. The model name and response format passed to the client are not modelled.
- Step validation: pydantic's JSON parsing is an abstract validator, so which texts validate is not modelled.
- Audio stream: the asyncio streaming is a finite sequence of byte chunks plus whether it ran to the end, and a failed synthesis writes nothing.
- Audio player: a failure while constructing the player is the same outcome as a failed synthesis.
- Console output: the `print` calls are not modelled.
- System prompt: its wording is a parameter of the agent.
- Loop termination: both `while True` loops are unbounded. The inner loop is run over a finite script of exchanges and ends with `ScriptExhausted` when the script runs out. The outer loop is run over a finite sequence of rounds.
- KindOf: lower-cases ASCII letters only. The only non-ASCII characters whose lower case contains an ASCII letter are the Kelvin sign (k) and the dotted capital I (i followed by a combining dot). Neither letter occurs in "plan", "tool" or "output", so the branch taken is the same as with Python's full lower-casing.
- Json.Unescape: the decoder rejects lone surrogate escapes. `json.dumps` writes those only for strings holding lone surrogates, which a Dafny `char` cannot hold.
- `voiceagent/speechtotext.py` is not part of this model.

## Findings

| source | as written | input that shows it | evidently intended | confidence | as-written member | corrected member |
|---|---|---|---|---|---|---|
| voiceagent/curoser.py:80-81 | the `except CalledProcessError` handler decodes the captured output as UTF-8 itself; a decoding error raised inside the handler is not caught by the sibling `except Exception`, so the tool raises and the whole history is reset | a command that exits with a nonzero status and prints bytes that are not valid UTF-8 | every failure of the command is reported as an error string, as the catch-all handler on lines 82-83 intends | not executed | Tools.RunCommandAsWritten (raise shown by Tools.RunCommandAsWrittenRaises; the reset it causes by Session.CommandWithUndecodableOutputResets) | Tools.RunCommand (related by Tools.RunCommandRefinesAsWritten) |
