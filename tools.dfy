/** The two built-in tools and the name-to-tool registry the agent dispatches
    through. The network request and the shell process are not run: each
    tool call is given their outcome. */
module Tools {
  import opened Wrappers
  import Text

  /** What `requests.get` did: answered with a status and a body, or raised. */
  datatype HttpOutcome = HttpResponse(status: int, body: string) | HttpError(message: string)

  /** Captured process output, as `bytes.decode("utf-8")` sees it. */
  datatype Capture = Utf8(text: string) | NotUtf8(message: string)

  /** What `subprocess.check_output` did: the process ran to an exit code with
      its stdout and stderr captured, or it could not be run at all. */
  datatype ProcessOutcome = Exited(code: int, output: Capture) | SpawnError(message: string)

  /** The outcomes one tool call would meet in the outside world. */
  datatype ToolIo = ToolIo(http: HttpOutcome, process: ProcessOutcome)

  datatype Tool = WeatherTool | CommandTool

  /** `available_tools`: the fixed registry. */
  const Registry: map<string, Tool> := map["get_weather" := WeatherTool, "run_command" := CommandTool]

  const ToolNotFound: string := "Error: Tool not found"
  const WeatherUnavailable: string := "Error: Could not get weather."
  const ErrorPrefix: string := "Error: "
  const CommandFailedPrefix: string := "Error executing command: "
  const WeatherPrefix: string := "The weather in "
  /** What `subprocess.check_output(None, shell=True)` raises: the argument
      list is built with `list(None)`. */
  const NoCommandMessage: string := "'NoneType' object is not iterable"

  predicate StartsWith(s: string, p: string)
  {
    |p| <= |s| && s[..|p|] == p
  }

  /** `get_weather(city)`. Lower-casing the city for the URL happens before
      the `try`, so a missing city raises out of the tool; every outcome of
      the request itself becomes a string. */
  function GetWeather(city: Option<string>, http: HttpOutcome): (r: Call<string>)
    ensures r.Raises? <==> city.None?
    ensures r.Returns? ==>
      (StartsWith(r.value, ErrorPrefix) <==> !(http.HttpResponse? && http.status == 200))
    ensures r.Returns? && http.HttpResponse? && http.status != 200 ==> r.value == WeatherUnavailable
  {
    match city
    case None => Raises
    case Some(name) =>
      match http
      case HttpResponse(status, body) =>
        if status == 200 then
          var report := WeatherPrefix + name + " is " + Text.Strip(body);
          assert report[0] != ErrorPrefix[0];
          Returns(report)
        else Returns(WeatherUnavailable)
      case HttpError(message) => Returns(ErrorPrefix + message)
  }

  /** `run_command(cmd)` as written. The `except CalledProcessError` handler
      decodes the captured output itself; an exception raised inside a
      handler is not caught by the sibling `except Exception`, so a failing
      command whose output is not UTF-8 makes the tool raise. */
  function RunCommandAsWritten(process: ProcessOutcome): (r: Call<string>)
    ensures r.Raises? <==> process.Exited? && process.code != 0 && process.output.NotUtf8?
  {
    match process
    case Exited(code, output) =>
      if code == 0 then
        (match output
         case Utf8(text) => Returns(Text.Strip(text))
         case NotUtf8(message) => Returns(ErrorPrefix + message))
      else
        (match output
         case Utf8(text) => Returns(CommandFailedPrefix + text)
         case NotUtf8(_) => Raises)
    case SpawnError(message) => Returns(ErrorPrefix + message)
  }

  /** `run_command(cmd)` as its catch-all handler intends: every failure,
      including undecodable output of a failing command, is reported as an
      error string. The agent loop keeps the tool as written; this is the
      repaired tool, related to it by `RunCommandRefinesAsWritten`. */
  function RunCommand(process: ProcessOutcome): (r: string)
    ensures process.Exited? && process.code == 0 && process.output.Utf8? ==>
      r == Text.Strip(process.output.text)
    ensures process.Exited? && process.code != 0 && process.output.Utf8? ==>
      r == CommandFailedPrefix + process.output.text
    ensures !(process.Exited? && process.code == 0 && process.output.Utf8?) ==> StartsWith(r, "Error")
  {
    match process
    case Exited(code, output) =>
      (match output
       case Utf8(text) => if code == 0 then Text.Strip(text) else CommandFailedPrefix + text
       case NotUtf8(message) => ErrorPrefix + message)
    case SpawnError(message) => ErrorPrefix + message
  }

  /** The as-written tool raises on a failing command with undecodable output. */
  lemma RunCommandAsWrittenRaises()
    ensures RunCommandAsWritten(Exited(1, NotUtf8("invalid start byte"))).Raises?
  {
  }

  /** The corrected tool differs from the as-written one only where that one
      raises. */
  lemma RunCommandRefinesAsWritten(process: ProcessOutcome)
    ensures RunCommandAsWritten(process).Returns? ==> RunCommand(process) == RunCommandAsWritten(process).value
    ensures RunCommandAsWritten(process).Raises? ==> StartsWith(RunCommand(process), ErrorPrefix)
  {
  }

  /** Calls one registered tool on the step's input. A `run_command` step
      without an input passes `None` as the command, which cannot be spawned
      whatever the outside world does. */
  function Invoke(tool: Tool, input: Option<string>, io: ToolIo): Call<string>
  {
    match tool
    case WeatherTool => GetWeather(input, io.http)
    case CommandTool => RunCommandAsWritten(if input.None? then SpawnError(NoCommandMessage) else io.process)
  }

  /** `available_tools[tool_name](tool_in)` guarded by `tool_name in available_tools`:
      an unknown or missing name gives the fixed not-found observation, each
      registered name reaches its own tool, and a dispatch raises only through
      `get_weather` without an input or a failing command with undecodable
      output. Without an input the two tools differ: `get_weather` raises,
      `run_command` reports the spawn error as a string. */
  function Dispatch(name: Option<string>, input: Option<string>, io: ToolIo): (r: Call<string>)
    ensures (name.None? || name.value !in Registry) ==> r == Returns(ToolNotFound)
    ensures r.Raises? <==>
      || (name == Some("get_weather") && input.None?)
      || (name == Some("run_command") && input.Some? &&
          io.process.Exited? && io.process.code != 0 && io.process.output.NotUtf8?)
    ensures name == Some("get_weather") ==> r == GetWeather(input, io.http)
    ensures name == Some("run_command") && input.Some? ==> r == RunCommandAsWritten(io.process)
    ensures name == Some("run_command") && input.None? ==> r == Returns(ErrorPrefix + NoCommandMessage)
  {
    if name.Some? && name.value in Registry then Invoke(Registry[name.value], input, io)
    else Returns(ToolNotFound)
  }
}
