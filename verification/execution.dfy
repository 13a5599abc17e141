/** The execution records shared by every component: task status, skill
    responses, command results and the decoded reasoning-backend reply. */
module Execution {
  import opened Base
  import opened Text
  import opened Numerals

  /** The lifecycle state of a task, with its wire value. */
  datatype TaskStatus = Pending | Running | Completed | Failed | Cancelled {
    function Value(): string {
      match this
      case Pending => "pending"
      case Running => "running"
      case Completed => "completed"
      case Failed => "failed"
      case Cancelled => "cancelled"
    }
  }

  /** `TaskStatus(value)`: the member with that value, or `None` for an unknown one. */
  function TaskStatusFromValue(v: string): (r: Option<TaskStatus>)
    ensures r.Some? ==> r.value.Value() == v
  {
    if v == "pending" then Some(Pending)
    else if v == "running" then Some(Running)
    else if v == "completed" then Some(Completed)
    else if v == "failed" then Some(Failed)
    else if v == "cancelled" then Some(Cancelled)
    else None
  }

  /** Every status is recovered from its value, so values are distinct. */
  lemma TaskStatusValueRoundTrip(s: TaskStatus)
    ensures TaskStatusFromValue(s.Value()) == Some(s)
  {
  }

  /** What a skill can do, with its wire value. */
  datatype SkillCapability = CommandGeneration | LlmProcessing | FileGeneration | WebInteraction | DataAnalysis {
    function Value(): string {
      match this
      case CommandGeneration => "command_generation"
      case LlmProcessing => "llm_processing"
      case FileGeneration => "file_generation"
      case WebInteraction => "web_interaction"
      case DataAnalysis => "data_analysis"
    }
  }

  /** `SkillCapability(value)`: the member with that value, or `None`. */
  function CapabilityFromValue(v: string): (r: Option<SkillCapability>)
    ensures r.Some? ==> r.value.Value() == v
  {
    if v == "command_generation" then Some(CommandGeneration)
    else if v == "llm_processing" then Some(LlmProcessing)
    else if v == "file_generation" then Some(FileGeneration)
    else if v == "web_interaction" then Some(WebInteraction)
    else if v == "data_analysis" then Some(DataAnalysis)
    else None
  }

  /** Every capability is recovered from its value. */
  lemma CapabilityValueRoundTrip(c: SkillCapability)
    ensures CapabilityFromValue(c.Value()) == Some(c)
  {
  }

  /** A registered skill as the router sees it: a name, its advertised
      capabilities and its description. Its behaviour is outside the model. */
  datatype Skill = Skill(name: string, capabilities: seq<SkillCapability>, description: string)

  /** A value of a free-form metadata map (`Dict[str, Any]`). */
  datatype MetaValue = MStr(s: string) | MInt(i: int)

  type Metadata = map<string, MetaValue>

  /** The execution half of a skill's answer. */
  datatype SkillExecutionResponse = SkillExecutionResponse(
    thinking: string,
    command: string,
    explanation: string,
    nextStep: string,
    isDangerous: bool,
    dangerReason: string,
    errorAnalysis: string,
    directResponse: string,
    generatedFiles: seq<string>,
    fileMetadata: Metadata,
    apiResponse: Metadata,
    serviceStatus: string)

  /** The dataclass constructor with its post-initialisation: a missing file
      list, metadata map or service reply becomes an empty one. */
  function NewSkillExecutionResponse(
    thinking: string, command: string, explanation: string, nextStep: string,
    isDangerous: bool, dangerReason: string, errorAnalysis: string, directResponse: string,
    generatedFiles: Option<seq<string>>, fileMetadata: Option<Metadata>, apiResponse: Option<Metadata>,
    serviceStatus: string): (r: SkillExecutionResponse)
    ensures generatedFiles.None? ==> r.generatedFiles == []
    ensures generatedFiles.Some? ==> r.generatedFiles == generatedFiles.value
    ensures fileMetadata.None? ==> r.fileMetadata == map[]
    ensures fileMetadata.Some? ==> r.fileMetadata == fileMetadata.value
    ensures apiResponse.None? ==> r.apiResponse == map[]
    ensures apiResponse.Some? ==> r.apiResponse == apiResponse.value
    ensures r.thinking == thinking && r.command == command && r.explanation == explanation
    ensures r.nextStep == nextStep && r.isDangerous == isDangerous && r.dangerReason == dangerReason
    ensures r.errorAnalysis == errorAnalysis && r.directResponse == directResponse
    ensures r.serviceStatus == serviceStatus
  {
    SkillExecutionResponse(
      thinking, command, explanation, nextStep, isDangerous, dangerReason, errorAnalysis, directResponse,
      generatedFiles.GetOr([]), fileMetadata.GetOr(map[]), apiResponse.GetOr(map[]), serviceStatus)
  }

  /** An execution response with every field at its default. */
  function EmptyExecution(): SkillExecutionResponse {
    NewSkillExecutionResponse("", "", "", "", false, "", "", "", None, None, None, "")
  }

  /** The selection half: which skill was chosen, why, and whether the task is done. */
  datatype SkillSelectResponse = SkillSelectResponse(
    skillName: string,
    skill: Option<Skill>,
    selectReason: string,
    taskComplete: bool)

  /** The unified answer of one iteration: the selection and the execution halves. */
  datatype SkillResponse = SkillResponse(selection: SkillSelectResponse, execution: SkillExecutionResponse)

  /** The notice appended by `truncated_output`. */
  const TruncationNotice: string := "\n...(输出已截断)"

  /** The marker put before standard error in the merged output. */
  const StderrMarker: string := "[stderr] "

  /** The merged output when both streams are empty. */
  const NoOutput: string := "(无输出)"

  /** The notice appended by `get_output_for_llm`, naming the limit. */
  function LlmTruncationNotice(maxLength: int): string {
    "\n...(输出已截断，仅显示前" + IntToString(maxLength) + "字符)"
  }

  /** One command execution and the skill response that produced it. */
  datatype ExecutionResult = ExecutionResult(
    command: string,
    returncode: int,
    stdout: string,
    stderr: string,
    skillResponse: Option<SkillResponse>)
  {
    /** The command succeeded: its return code, as shown in messages, reads "0". */
    predicate Success()
      ensures Success() <==> IntToString(returncode) == "0"
    {
      IntToStringRoundTrip(returncode);
      IntToStringRoundTrip(0);
      returncode == 0
    }

    /** Standard output, then the marked standard error, one per line, leaving out
        empty streams. */
    function Output(): (r: string)
      ensures stdout == "" && stderr == "" ==> r == NoOutput
      ensures stdout != "" && stderr == "" ==> r == stdout
      ensures stdout == "" && stderr != "" ==> r == StderrMarker + stderr
      ensures stdout != "" && stderr != "" ==> r == stdout + "\n" + StderrMarker + stderr
    {
      var parts := (if stdout != "" then [stdout] else []) + (if stderr != "" then [StderrMarker + stderr] else []);
      if parts == [] then NoOutput else Join(parts, "\n")
    }

    /** The merged output cut to `maxLength` characters (Python slice rules), with
        a fixed notice when it was cut. */
    function TruncatedOutput(maxLength: int): (r: string)
      ensures |Output()| <= maxLength ==> r == Output()
      ensures |Output()| > maxLength ==> r == SliceTo(Output(), maxLength) + TruncationNotice
    {
      var o := Output();
      if |o| > maxLength then SliceTo(o, maxLength) + TruncationNotice else o
    }

    /** As `TruncatedOutput`, with a larger default limit and a notice that names it. */
    function OutputForLlm(maxLength: int): (r: string)
      ensures |Output()| <= maxLength ==> r == Output()
      ensures |Output()| > maxLength ==> r == SliceTo(Output(), maxLength) + LlmTruncationNotice(maxLength)
    {
      var o := Output();
      if |o| > maxLength then SliceTo(o, maxLength) + LlmTruncationNotice(maxLength) else o
    }
  }

  /** Default limit of `truncated_output`. */
  const DefaultTruncation: int := 2000

  /** Default limit of `get_output_for_llm`. */
  const DefaultLlmTruncation: int := 10000

  /** The merged output is never empty, and each non-empty stream appears in it. */
  lemma OutputShowsStreams(r: ExecutionResult)
    ensures r.Output() != ""
    ensures r.stdout != "" ==> r.stdout <= r.Output()
    ensures r.stderr != "" ==> Contains(r.Output(), StderrMarker + r.stderr)
  {
    var o := r.Output();
    var e := StderrMarker + r.stderr;
    if r.stderr != "" {
      var at := if r.stdout == "" then 0 else |r.stdout| + 1;
      assert o[at..at + |e|] == e;
      assert OccursAt(o, e, at);
    }
  }

  /** A non-negative limit bounds the kept part: the result is the first
      `min(len, limit)` characters of the output, then the notice exactly when
      something was cut. Both helpers keep the same prefix. */
  lemma {:induction false} TruncationKeepsPrefix(r: ExecutionResult, m: nat)
    ensures var o := r.Output(); var k := Min(|o|, m);
      && r.TruncatedOutput(m)[..k] == o[..k]
      && r.OutputForLlm(m)[..k] == o[..k]
      && (|o| <= m ==> r.TruncatedOutput(m) == o && r.OutputForLlm(m) == o)
      && (|o| > m ==> r.TruncatedOutput(m)[m..] == TruncationNotice && r.OutputForLlm(m)[m..] == LlmTruncationNotice(m))
  {
    var o := r.Output();
    if |o| > m {
      assert SliceTo(o, m) == o[..m];
    }
  }

  /** The decoded JSON object of a reply: its string-valued and its
      boolean-valued members. */
  datatype JsonObject = JsonObject(strings: map<string, string>, flags: map<string, bool>)

  /** The structured reply of the reasoning backend. */
  datatype LlmResponse = LlmResponse(
    thinking: string,
    command: string,
    explanation: string,
    nextStep: string,
    errorAnalysis: string,
    isDangerous: bool,
    dangerReason: string,
    isDirectMode: bool,
    directResponse: string)

  function StringField(d: JsonObject, key: string): string {
    if key in d.strings then d.strings[key] else ""
  }

  function FlagField(d: JsonObject, key: string): bool {
    if key in d.flags then d.flags[key] else false
  }

  /** `LLMResponse.from_dict`: each field read from its key, a missing key
      giving the field's default. */
  function FromDict(d: JsonObject): (r: LlmResponse)
    ensures "thinking" !in d.strings ==> r.thinking == ""
    ensures "command" !in d.strings ==> r.command == ""
    ensures "explanation" !in d.strings ==> r.explanation == ""
    ensures "next_step" !in d.strings ==> r.nextStep == ""
    ensures "error_analysis" !in d.strings ==> r.errorAnalysis == ""
    ensures "danger_reason" !in d.strings ==> r.dangerReason == ""
    ensures "direct_response" !in d.strings ==> r.directResponse == ""
    ensures "is_dangerous" !in d.flags ==> !r.isDangerous
    ensures "is_direct_mode" !in d.flags ==> !r.isDirectMode
    ensures "thinking" in d.strings ==> r.thinking == d.strings["thinking"]
    ensures "command" in d.strings ==> r.command == d.strings["command"]
    ensures "explanation" in d.strings ==> r.explanation == d.strings["explanation"]
    ensures "next_step" in d.strings ==> r.nextStep == d.strings["next_step"]
    ensures "error_analysis" in d.strings ==> r.errorAnalysis == d.strings["error_analysis"]
    ensures "danger_reason" in d.strings ==> r.dangerReason == d.strings["danger_reason"]
    ensures "direct_response" in d.strings ==> r.directResponse == d.strings["direct_response"]
    ensures "is_dangerous" in d.flags ==> r.isDangerous == d.flags["is_dangerous"]
    ensures "is_direct_mode" in d.flags ==> r.isDirectMode == d.flags["is_direct_mode"]
  {
    LlmResponse(
      StringField(d, "thinking"), StringField(d, "command"), StringField(d, "explanation"),
      StringField(d, "next_step"), StringField(d, "error_analysis"), FlagField(d, "is_dangerous"),
      StringField(d, "danger_reason"), FlagField(d, "is_direct_mode"), StringField(d, "direct_response"))
  }

  /** `dataclasses.asdict` of a reply: every field under its key. */
  function ToDict(r: LlmResponse): JsonObject {
    JsonObject(
      map["thinking" := r.thinking, "command" := r.command, "explanation" := r.explanation,
          "next_step" := r.nextStep, "error_analysis" := r.errorAnalysis,
          "danger_reason" := r.dangerReason, "direct_response" := r.directResponse],
      map["is_dangerous" := r.isDangerous, "is_direct_mode" := r.isDirectMode])
  }

  /** Reading a reply back from its own dictionary gives the reply. */
  lemma FromDictRoundTrip(r: LlmResponse)
    ensures FromDict(ToDict(r)) == r
  {
  }

  /** An empty object decodes to the all-defaults reply. */
  lemma FromDictEmpty()
    ensures FromDict(JsonObject(map[], map[])) == LlmResponse("", "", "", "", "", false, "", false, "")
  {
  }
}
