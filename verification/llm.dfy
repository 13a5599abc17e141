/** The reasoning-backend client as far as it is pure: the system prompt it
    sends, the user message it builds from the task and the execution history,
    and the decoding of the backend's reply. The backend itself, streaming and
    JSON decoding are parameters. */
module Llm {
  import opened Base
  import opened Text
  import opened Numerals
  import opened Execution

  /** The client's mutable settings. */
  datatype LlmClient = LlmClient(directMode: bool, customSystemPrompt: Option<string>)

  function NewLlmClient(): (c: LlmClient)
    ensures !c.directMode && c.customSystemPrompt.None?
  {
    LlmClient(false, None)
  }

  function SetDirectMode(c: LlmClient, directMode: bool): (r: LlmClient)
    ensures r.directMode == directMode && r.customSystemPrompt == c.customSystemPrompt
  {
    c.(directMode := directMode)
  }

  function SetSystemPrompt(c: LlmClient, prompt: string): (r: LlmClient)
    ensures r.customSystemPrompt == Some(prompt) && r.directMode == c.directMode
  {
    c.(customSystemPrompt := Some(prompt))
  }

  function ResetSystemPrompt(c: LlmClient): (r: LlmClient)
    ensures r.customSystemPrompt.None? && r.directMode == c.directMode
  {
    c.(customSystemPrompt := None)
  }

  /** The built-in prompts of a concrete client, one per mode. */
  datatype Prompts = Prompts(directMode: string, commandMode: string)

  /** `system_prompt`: a custom prompt wins; otherwise the prompt of the current mode. */
  function SystemPrompt(c: LlmClient, prompts: Prompts): (r: string)
    ensures c.customSystemPrompt.Some? ==> r == c.customSystemPrompt.value
    ensures c.customSystemPrompt.None? && c.directMode ==> r == prompts.directMode
    ensures c.customSystemPrompt.None? && !c.directMode ==> r == prompts.commandMode
  {
    if c.customSystemPrompt.Some? then c.customSystemPrompt.value
    else if c.directMode then prompts.directMode else prompts.commandMode
  }

  /** A custom prompt holds whatever the mode, and resetting it returns to the
      prompt of the current mode. */
  lemma CustomPromptOverridesMode(c: LlmClient, prompts: Prompts, prompt: string, mode: bool)
    ensures SystemPrompt(SetDirectMode(SetSystemPrompt(c, prompt), mode), prompts) == prompt
    ensures SystemPrompt(ResetSystemPrompt(SetSystemPrompt(c, prompt)), prompts) == SystemPrompt(ResetSystemPrompt(c), prompts)
  {
  }

  const SucceededWord: string := "成功"
  const FailedWord: string := "失败"

  /** The word reporting a result: success exactly for a zero return code. */
  function StatusWord(r: ExecutionResult): (w: string)
    ensures |w| == 2
    ensures w == SucceededWord <==> r.Success()
  {
    if r.Success() then SucceededWord else FailedWord
  }

  const ResultOpening: string := "上一条命令执行"
  const ResultCommandLabel: string := "命令: "
  const ResultClosing: string := "\n\n请根据执行结果决定下一步操作。"

  /** The return-code line and the output heading that follow the command. */
  function ResultCodeLines(r: ExecutionResult): string {
    "\n" + CodeLead + IntToString(r.returncode) + "\n输出:\n"
  }

  /** The part of the result message before the output. */
  function ResultHeader(r: ExecutionResult): (h: string)
    ensures ResultOpening <= h && |ResultOpening| + 2 <= |h|
    ensures h[|ResultOpening|..|ResultOpening| + 2] == StatusWord(r)
  {
    var lead := ResultOpening + StatusWord(r);
    var h := lead + "：\n" + ResultCommandLabel + r.command + ResultCodeLines(r);
    assert h[..|lead|] == lead;
    assert lead[|ResultOpening|..] == StatusWord(r);
    h
  }

  /** `_build_result_message`: the status, the command, the return code and the
      output (cut at the default 10000 characters), then a request to decide. */
  function BuildResultMessage(r: ExecutionResult): (m: string)
    ensures ResultOpening <= m && |ResultOpening| + 2 <= |m|
    ensures m[|ResultOpening|..|ResultOpening| + 2] == SucceededWord <==> r.Success()
    ensures var out := r.OutputForLlm(DefaultLlmTruncation);
      |out| + |ResultClosing| <= |m| && m[|m| - |ResultClosing| - |out|..] == out + ResultClosing
  {
    var h := ResultHeader(r);
    var tail := r.OutputForLlm(DefaultLlmTruncation) + ResultClosing;
    assert (h + tail)[..|h|] == h;
    assert (h + tail)[|h|..] == tail;
    assert h[|ResultOpening|..|ResultOpening| + 2] == StatusWord(r);
    h + tail
  }

  /** The result message gives the command right after its label on the
      second line, and the return code, in decimal, right after its label on
      the third. */
  lemma ResultMessageShowsCommand(r: ExecutionResult)
    ensures var m := BuildResultMessage(r);
      var p := |ResultOpening| + 4;
      && OccursAt(m, ResultCommandLabel, p)
      && OccursAt(m, r.command, p + |ResultCommandLabel|)
    ensures var m := BuildResultMessage(r);
      var q := |ResultOpening| + 4 + |ResultCommandLabel| + |r.command| + 1;
      && OccursAt(m, CodeLead, q)
      && OccursAt(m, IntToString(r.returncode), q + |CodeLead|)
  {
    var h := ResultHeader(r);
    var tail := r.OutputForLlm(DefaultLlmTruncation) + ResultClosing;
    var pre := ResultOpening + StatusWord(r) + "：\n";
    var rest := ResultCodeLines(r);
    var p := |pre|;
    var q := |pre| + |ResultCommandLabel| + |r.command|;
    PartsOccur(pre, ResultCommandLabel, r.command, rest);
    PartsOccur("\n", CodeLead, IntToString(r.returncode), "\n输出:\n");
    OccursAtTrans(h, rest, CodeLead, q, 1);
    OccursAtTrans(h, rest, IntToString(r.returncode), q, 1 + |CodeLead|);
    OccursAtPrefix(h, tail, ResultCommandLabel, p);
    OccursAtPrefix(h, tail, r.command, p + |ResultCommandLabel|);
    OccursAtPrefix(h, tail, CodeLead, q + 1);
    OccursAtPrefix(h, tail, IntToString(r.returncode), q + 1 + |CodeLead|);
  }

  const TaskOpening: string := "请帮我完成以下任务: "

  /** `_build_task_message`. */
  function BuildTaskMessage(task: string): (m: string)
    ensures TaskOpening <= m && m[|TaskOpening|..] == task
  {
    TaskOpening + task
  }

  /** The task can be read back from its message. */
  lemma TaskMessageIsInjective(a: string, b: string)
    requires BuildTaskMessage(a) == BuildTaskMessage(b)
    ensures a == b
  {
    assert a == BuildTaskMessage(a)[|TaskOpening|..];
  }

  // ---------------------------------------------------------------------------
  // The history message

  /** How many of the most recent results the history message shows. */
  const HistoryWindow: int := 3

  /** How much of a shown step's output is kept. */
  const StepOutputLimit: int := 2048

  /** `history[-3:]`: the last three results, or all of them when fewer. */
  function Window(history: seq<ExecutionResult>): (w: seq<ExecutionResult>)
    ensures |w| == Min(3, |history|)
    ensures w == history[|history| - |w|..]
  {
    SliceFrom(history, -HistoryWindow)
  }

  /** The label of the first shown step. */
  function FirstLabel(history: seq<ExecutionResult>): int {
    Max(|history| - 2, 1)
  }

  /** Each shown step is labelled with its 1-based position in the whole history. */
  lemma LabelsArePositions(history: seq<ExecutionResult>)
    requires history != []
    ensures FirstLabel(history) == |history| - |Window(history)| + 1
  {
  }

  /** The i-th shown step is the step at that offset from the start of the
      window in the whole history, and its label is its 1-based position. */
  lemma WindowPosition(history: seq<ExecutionResult>, i: int)
    requires 0 <= i < |Window(history)|
    ensures 0 <= |history| - |Window(history)| + i < |history|
    ensures var k := |history| - |Window(history)| + i;
      Window(history)[i] == history[k] && FirstLabel(history) + i == k + 1
  {
    LabelsArePositions(history);
  }

  /** A shown step's output is the first 2048 characters of the merged output:
      the 10000-character cut underneath never shows. */
  lemma StepOutputIsPrefix(r: ExecutionResult)
    ensures var o := r.Output();
      SliceTo(r.OutputForLlm(DefaultLlmTruncation), StepOutputLimit) == o[..Min(|o|, 2048)]
  {
    TruncationKeepsPrefix(r, 10000);
    TruncationKeepsPrefix(r, 2048);
  }

  /** The first 2048 characters of a result's merged output. */
  function ShownOutput(r: ExecutionResult): string {
    var o := r.Output();
    o[..Min(|o|, StepOutputLimit)]
  }

  /** The label of a shown step, `第{n}步`, which reads back as its number. */
  function StepLabel(step: int): string {
    "第" + IntToString(step) + "步"
  }

  /** A step label is the step's number between `第` and `步`, and the number
      reads back as the step. */
  lemma StepLabelReadsBack(step: int)
    ensures var l := StepLabel(step);
      && 2 < |l| && l[0] == '第' && l[|l| - 1] == '步'
      && ParseInt(l[1..|l| - 1]) == Some(step)
  {
    var digits := IntToString(step);
    IntToStringRoundTrip(step);
    assert StepLabel(step)[1..|digits| + 1] == digits;
  }

  const CommandLead: string := "执行命令: "
  const CodeLead: string := "返回码: "
  const StepOutputLead: string := "命令输出:\n"
  const DirectLead: string := "直接响应: "

  /** The command part of a step: present only when the step ran a command. */
  function CommandSection(r: ExecutionResult): string {
    if r.command != "" then
      CommandLead + r.command + "\n" + CodeLead + IntToString(r.returncode) + "\n"
        + StepOutputLead + SliceTo(r.OutputForLlm(DefaultLlmTruncation), StepOutputLimit) + "\n"
    else ""
  }

  /** The command part is present exactly when the step ran a command, and then
      shows the command, its return code and the first 2048 characters of the
      merged output. */
  lemma CommandSectionShows(r: ExecutionResult)
    ensures CommandSection(r) == "" <==> r.command == ""
    ensures r.command != "" ==>
      CommandSection(r) == CommandLead + r.command + "\n" + CodeLead + IntToString(r.returncode) + "\n"
        + StepOutputLead + ShownOutput(r) + "\n"
  {
    StepOutputIsPrefix(r);
  }

  /** The direct-reply part of a step: present only when the skill replied directly. */
  function DirectSection(direct: string): string {
    if direct != "" then DirectLead + direct + "\n" else ""
  }

  /** The direct-reply part is present exactly when there is a reply, and then
      carries it. */
  lemma DirectSectionShows(direct: string)
    ensures DirectSection(direct) == "" <==> direct == ""
    ensures direct != "" ==> OccursAt(DirectSection(direct), direct, |DirectLead|)
  {
    if direct != "" {
      OccursInConcat(DirectLead, direct, "\n");
    }
  }

  /** The heading of a shown step. */
  function StepHeading(r: ExecutionResult, step: int): string {
    "\n" + StepLabel(step) + " - 命令执行" + StatusWord(r) + "：\n"
  }

  /** The heading carries the step's label right after the line break, and
      the status word just before its closing colon. */
  lemma StepHeadingShows(r: ExecutionResult, step: int)
    ensures OccursAt(StepHeading(r, step), StepLabel(step), 1)
    ensures OccursAt(StepHeading(r, step), StatusWord(r), |StepHeading(r, step)| - 4)
  {
    FramedOccur("\n", StepLabel(step), " - 命令执行", StatusWord(r), "：\n");
  }

  const SkillLead: string := "技能选择: "
  const ReasonLead: string := "技能选择原因: "
  const ThinkingLead: string := "技能执行思考过程: "
  const NextStepLead: string := "下一步计划: "

  /** One `lead: value` line. */
  function FieldLine(lead: string, value: string): string {
    lead + value + "\n"
  }

  /** The four lines describing the skill's choice and plan, in order. */
  function StepFields(sr: SkillResponse): string {
    FieldLine(SkillLead, sr.selection.skillName) + FieldLine(ReasonLead, sr.selection.selectReason)
      + FieldLine(ThinkingLead, sr.execution.thinking) + FieldLine(NextStepLead, sr.execution.nextStep)
  }

  /** `m` shows the four skill lines of `sr`. */
  predicate ShowsSkillLines(m: string, sr: SkillResponse) {
    && Contains(m, FieldLine(SkillLead, sr.selection.skillName))
    && Contains(m, FieldLine(ReasonLead, sr.selection.selectReason))
    && Contains(m, FieldLine(ThinkingLead, sr.execution.thinking))
    && Contains(m, FieldLine(NextStepLead, sr.execution.nextStep))
  }

  /** The skill lines give the skill's name, the reason it was chosen, its
      reasoning and its next step, in that order. */
  lemma StepFieldsShow(sr: SkillResponse)
    ensures var a := FieldLine(SkillLead, sr.selection.skillName);
      var b := FieldLine(ReasonLead, sr.selection.selectReason);
      var c := FieldLine(ThinkingLead, sr.execution.thinking);
      var f := StepFields(sr);
      && OccursAt(f, a, 0)
      && OccursAt(f, b, |a|)
      && OccursAt(f, c, |a| + |b|)
      && OccursAt(f, FieldLine(NextStepLead, sr.execution.nextStep), |a| + |b| + |c|)
  {
    PartsOccur(FieldLine(SkillLead, sr.selection.skillName), FieldLine(ReasonLead, sr.selection.selectReason),
               FieldLine(ThinkingLead, sr.execution.thinking), FieldLine(NextStepLead, sr.execution.nextStep));
  }

  /** The text of one shown step whose result carries its skill response. */
  function StepText(r: ExecutionResult, sr: SkillResponse, step: int): string {
    StepHeading(r, step) + StepFields(sr) + (CommandSection(r) + DirectSection(sr.execution.directResponse))
  }

  /** A step's text is its heading, then its skill lines, then its command and
      direct-reply parts. */
  lemma StepTextShows(r: ExecutionResult, sr: SkillResponse, step: int)
    ensures var t := StepText(r, sr, step);
      var tail := CommandSection(r) + DirectSection(sr.execution.directResponse);
      && OccursAt(t, StepHeading(r, step), 0)
      && OccursAt(t, StepFields(sr), |StepHeading(r, step)|)
      && |tail| <= |t| && OccursAt(t, tail, |t| - |tail|)
  {
    var h := StepHeading(r, step);
    var f := StepFields(sr);
    var tail := CommandSection(r) + DirectSection(sr.execution.directResponse);
    PartsOccur(h, f, tail, []);
    assert h + f + tail + [] == StepText(r, sr, step);
  }

  /** Python's message for the missing skill response. */
  const NoSkillResponse: string := "'NoneType' object has no attribute 'skill_name'"

  /** One shown step. A result without a skill response makes the renderer
      fail on its first field access. */
  function HistoryItem(r: ExecutionResult, step: int): (m: Result<string>)
    ensures m.Raised? <==> r.skillResponse.None?
    ensures r.skillResponse.Some? ==> m == Ok(StepText(r, r.skillResponse.value, step))
  {
    match r.skillResponse
    case None => Raised(NoSkillResponse)
    case Some(sr) => Ok(StepText(r, sr, step))
  }

  /** What a shown result contributes to the message; a result without a skill
      response contributes nothing, since rendering fails on it. */
  function ShownStep(r: ExecutionResult, step: int): string {
    match r.skillResponse
    case Some(sr) => StepText(r, sr, step)
    case None => ""
  }

  /** The texts of the shown steps, the i-th labelled `first + i`. */
  function StepTexts(w: seq<ExecutionResult>, first: int): (ts: seq<string>)
    ensures |ts| == |w|
    ensures forall i :: 0 <= i < |w| ==> ts[i] == ShownStep(w[i], first + i)
  {
    MapNumbered(w, first, ShownStep)
  }

  /** The shown steps in order, labelled from `first` on: the step texts one
      after another, or the failure of the first field access when a shown
      result has no skill response. */
  function RenderItems(w: seq<ExecutionResult>, first: int): Result<string> {
    if exists i :: 0 <= i < |w| && w[i].skillResponse.None? then Raised(NoSkillResponse)
    else Ok(Join(StepTexts(w, first), ""))
  }

  /** One round of the rendering loop: the item's text followed by what the
      rest renders to, the first failure winning. */
  function AppendItem(item: Result<string>, rest: Result<string>): Result<string> {
    match item
    case Raised(e) => Raised(e)
    case Ok(text) =>
      match rest
      case Raised(e) => Raised(e)
      case Ok(more) => Ok(text + more)
  }

  /** The rendering is what the loop builds one step at a time: nothing for no
      steps, else the first step's item followed by the rest, labelled one
      further on. */
  lemma RenderItemsStepByStep(w: seq<ExecutionResult>, first: int)
    ensures w == [] ==> RenderItems(w, first) == Ok("")
    ensures w != [] ==> RenderItems(w, first) == AppendItem(HistoryItem(w[0], first), RenderItems(w[1..], first + 1))
  {
    if w == [] {
    } else if w[0].skillResponse.None? {
      RenderFirstMissing(w, first);
    } else if exists i :: 1 <= i < |w| && w[i].skillResponse.None? {
      RenderRestMissing(w, first);
    } else {
      RenderAllPresent(w, first);
    }
  }

  /** A first step without a skill response fails the rendering at once. */
  lemma RenderFirstMissing(w: seq<ExecutionResult>, first: int)
    requires w != [] && w[0].skillResponse.None?
    ensures RenderItems(w, first) == AppendItem(HistoryItem(w[0], first), RenderItems(w[1..], first + 1))
  {
    assert RenderItems(w, first) == Raised(NoSkillResponse);
  }

  /** A later step without a skill response fails the rendering of the rest,
      and so of the whole. */
  lemma RenderRestMissing(w: seq<ExecutionResult>, first: int)
    requires w != [] && w[0].skillResponse.Some?
    requires exists i :: 1 <= i < |w| && w[i].skillResponse.None?
    ensures RenderItems(w, first) == AppendItem(HistoryItem(w[0], first), RenderItems(w[1..], first + 1))
  {
    var j :| 1 <= j < |w| && w[j].skillResponse.None?;
    assert w[1..][j - 1] == w[j];
    assert RenderItems(w[1..], first + 1) == Raised(NoSkillResponse);
  }

  /** When every step has its skill response, the rendering is the first
      step's text followed by the rendering of the rest. */
  lemma RenderAllPresent(w: seq<ExecutionResult>, first: int)
    requires w != [] && forall i :: 0 <= i < |w| ==> w[i].skillResponse.Some?
    ensures RenderItems(w, first) == AppendItem(HistoryItem(w[0], first), RenderItems(w[1..], first + 1))
  {
    var rest := Join(StepTexts(w[1..], first + 1), "");
    assert RenderItems(w[1..], first + 1) == Ok(rest) by {
      forall i | 0 <= i < |w[1..]| ensures w[1..][i].skillResponse.Some? {
        assert w[1..][i] == w[i + 1];
      }
    }
    assert RenderItems(w, first) == Ok(ShownStep(w[0], first) + rest) by {
      JoinMapNumberedTail(w, first, ShownStep);
    }
    assert HistoryItem(w[0], first) == Ok(ShownStep(w[0], first));
  }

  /** Joining numbered texts with no separator gives the first text, then the
      join of the rest numbered one further on. */
  lemma JoinMapNumberedTail<A>(s: seq<A>, first: int, f: (A, int) -> string)
    requires s != []
    ensures Join(MapNumbered(s, first, f), "") == f(s[0], first) + Join(MapNumbered(s[1..], first + 1, f), "")
  {
    var t := MapNumbered(s, first, f);
    MapNumberedTail(s, first, f);
    if |t| == 1 {
      assert t[1..] == [];
      assert t[0] + "" == t[0];
    }
  }

  const HistoryOpening: string := "任务执行历史:\n"
  const CurrentTaskOpening: string := "\n\n用户当前的任务是："

  /** Some element of a suffix lacks its skill response exactly when some
      element of the sequence from that point on does. */
  lemma SuffixMissesResponse(h: seq<ExecutionResult>, k: nat)
    requires k <= |h|
    ensures (exists i :: 0 <= i < |h[k..]| && h[k..][i].skillResponse.None?)
        <==> (exists i :: k <= i < |h| && h[i].skillResponse.None?)
  {
    if exists i :: k <= i < |h| && h[i].skillResponse.None? {
      var i :| k <= i < |h| && h[i].skillResponse.None?;
      assert h[k..][i - k] == h[i];
    }
  }

  /** A shown result lacks its skill response exactly when one of the last
      three results of the history does. */
  lemma WindowMissesResponse(history: seq<ExecutionResult>)
    ensures (exists i :: 0 <= i < |Window(history)| && Window(history)[i].skillResponse.None?)
        <==> (exists i :: |history| - |Window(history)| <= i < |history| && history[i].skillResponse.None?)
  {
    var k := |history| - |Window(history)|;
    assert Window(history) == history[k..];
    SuffixMissesResponse(history, k);
  }

  /** The rendered steps between the history heading and the current-task line. */
  function FrameHistory(items: string, userInput: string): (m: string)
    ensures HistoryOpening <= m
    ensures |CurrentTaskOpening + userInput| <= |m|
    ensures m[|m| - |CurrentTaskOpening + userInput|..] == CurrentTaskOpening + userInput
  {
    var head := HistoryOpening + items;
    var tail := CurrentTaskOpening + userInput;
    assert (head + tail)[..|HistoryOpening|] == HistoryOpening;
    assert (head + tail)[|head|..] == tail;
    head + tail
  }

  /** `_build_full_history_message`: the last three steps, then the current task.
      Fails exactly when a shown result has no skill response. */
  function BuildFullHistoryMessage(history: seq<ExecutionResult>, userInput: string): (m: Result<string>)
    ensures m.Raised? <==> exists i :: |history| - |Window(history)| <= i < |history| && history[i].skillResponse.None?
    ensures m.Ok? ==> HistoryOpening <= m.value
    ensures m.Ok? ==> |CurrentTaskOpening + userInput| <= |m.value|
    ensures m.Ok? ==> m.value[|m.value| - |CurrentTaskOpening + userInput|..] == CurrentTaskOpening + userInput
  {
    WindowMissesResponse(history);
    match RenderItems(Window(history), FirstLabel(history))
    case Raised(e) => Raised(e)
    case Ok(items) => Ok(FrameHistory(items, userInput))
  }

  /** A successful history message shows only results with a skill response. */
  lemma HistoryShowsResponses(history: seq<ExecutionResult>, userInput: string)
    requires BuildFullHistoryMessage(history, userInput).Ok?
    ensures forall j :: 0 <= j < |Window(history)| ==> Window(history)[j].skillResponse.Some?
  {
    var w := Window(history);
    forall j | 0 <= j < |w| ensures w[j].skillResponse.Some? {
      assert w[j] == history[|history| - |w| + j];
    }
  }

  /** A successful history message contains the texts of the shown steps one
      after another. */
  lemma HistoryHoldsItems(history: seq<ExecutionResult>, userInput: string)
    requires BuildFullHistoryMessage(history, userInput).Ok?
    ensures Contains(BuildFullHistoryMessage(history, userInput).value,
                     Join(StepTexts(Window(history), FirstLabel(history)), ""))
  {
    var items := RenderItems(Window(history), FirstLabel(history)).value;
    OccursInConcat(HistoryOpening, items, CurrentTaskOpening + userInput);
    assert OccursAt(FrameHistory(items, userInput), items, |HistoryOpening|);
  }

  /** The skill lines show each of the four fields. */
  lemma StepFieldsShowLines(sr: SkillResponse)
    ensures ShowsSkillLines(StepFields(sr), sr)
  {
    PartsContained(FieldLine(SkillLead, sr.selection.skillName), FieldLine(ReasonLead, sr.selection.selectReason),
                   FieldLine(ThinkingLead, sr.execution.thinking), FieldLine(NextStepLead, sr.execution.nextStep));
  }

  /** A text containing one that shows the skill lines shows them too. */
  lemma SkillLinesGrow(s: string, t: string, sr: SkillResponse)
    requires Contains(t, s) && ShowsSkillLines(s, sr)
    ensures ShowsSkillLines(t, sr)
  {
    ContainsTrans(t, s, FieldLine(SkillLead, sr.selection.skillName));
    ContainsTrans(t, s, FieldLine(ReasonLead, sr.selection.selectReason));
    ContainsTrans(t, s, FieldLine(ThinkingLead, sr.execution.thinking));
    ContainsTrans(t, s, FieldLine(NextStepLead, sr.execution.nextStep));
  }

  /** A step's text shows its label. */
  lemma StepTextShowsLabel(r: ExecutionResult, sr: SkillResponse, step: int)
    ensures Contains(StepText(r, sr, step), StepLabel(step))
  {
    var h := StepHeading(r, step);
    assert Contains(StepText(r, sr, step), StepLabel(step)) by {
      StepHeadingShows(r, step);
      OccursAtContains(h, StepLabel(step), 1);
      ContainsInConcat(h, StepFields(sr), CommandSection(r) + DirectSection(sr.execution.directResponse), StepLabel(step));
    }
  }

  /** A step's text shows its four skill lines. */
  lemma StepTextShowsFields(r: ExecutionResult, sr: SkillResponse, step: int)
    ensures ShowsSkillLines(StepText(r, sr, step), sr)
  {
    var f := StepFields(sr);
    assert ShowsSkillLines(StepText(r, sr, step), sr) by {
      StepFieldsShowLines(sr);
      OccursAtContains(f, f, 0);
      ContainsInConcat(StepHeading(r, step), f, CommandSection(r) + DirectSection(sr.execution.directResponse), f);
      SkillLinesGrow(f, StepText(r, sr, step), sr);
    }
  }

  /** The text of a step that ran a command shows the first 2048 characters of
      its output. */
  lemma StepTextShowsOutput(r: ExecutionResult, sr: SkillResponse, step: int)
    requires r.command != ""
    ensures Contains(StepText(r, sr, step), ShownOutput(r))
  {
    assert Contains(StepText(r, sr, step), ShownOutput(r)) by {
      CommandShowsOutput(r, sr.execution.directResponse);
      ContainsInConcat(StepHeading(r, step), StepFields(sr), CommandSection(r) + DirectSection(sr.execution.directResponse), ShownOutput(r));
    }
  }

  /** The command and direct-reply parts of a step that ran a command show the
      first 2048 characters of its output. */
  lemma CommandShowsOutput(r: ExecutionResult, direct: string)
    requires r.command != ""
    ensures Contains(CommandSection(r) + DirectSection(direct), ShownOutput(r))
  {
    CommandSectionShows(r);
    var c := CommandSection(r);
    var pre := CommandLead + r.command + "\n" + CodeLead + IntToString(r.returncode) + "\n" + StepOutputLead;
    PartsOccur(pre, ShownOutput(r), "\n", DirectSection(direct));
    assert OccursAt(c + DirectSection(direct), ShownOutput(r), |pre|);
  }

  /** A text containing a step's text shows the step's label. */
  lemma StepInTextShows(m: string, r: ExecutionResult, step: int)
    ensures r.skillResponse.Some? && Contains(m, ShownStep(r, step)) ==> Contains(m, StepLabel(step))
  {
    if r.skillResponse.Some? && Contains(m, ShownStep(r, step)) {
      StepTextShowsLabel(r, r.skillResponse.value, step);
      ContainsTrans(m, ShownStep(r, step), StepLabel(step));
    }
  }

  /** A text containing the text of a step that ran a command shows the first
      2048 characters of its output. */
  lemma StepInTextShowsOutput(m: string, r: ExecutionResult, step: int)
    ensures r.skillResponse.Some? && Contains(m, ShownStep(r, step)) && r.command != "" ==> Contains(m, ShownOutput(r))
  {
    if r.skillResponse.Some? && Contains(m, ShownStep(r, step)) && r.command != "" {
      StepTextShowsOutput(r, r.skillResponse.value, step);
      ContainsTrans(m, ShownStep(r, step), ShownOutput(r));
    }
  }

  /** A text containing a step's text shows the step's four skill lines. */
  lemma StepInTextShowsFields(m: string, r: ExecutionResult, step: int)
    ensures r.skillResponse.Some? && Contains(m, ShownStep(r, step)) ==> ShowsSkillLines(m, r.skillResponse.value)
  {
    if r.skillResponse.Some? && Contains(m, ShownStep(r, step)) {
      StepTextShowsFields(r, r.skillResponse.value, step);
      SkillLinesGrow(ShownStep(r, step), m, r.skillResponse.value);
    }
  }

  /** Each shown step's label appears in the message, numbered by the step's
      1-based position in the whole history. */
  lemma ShownStepLabel(history: seq<ExecutionResult>, userInput: string, i: int)
    requires BuildFullHistoryMessage(history, userInput).Ok?
    requires 0 <= i < |Window(history)|
    ensures Contains(BuildFullHistoryMessage(history, userInput).value,
                     StepLabel(|history| - |Window(history)| + i + 1))
  {
    hide *;
    ShownStepAppears(history, userInput, i);
    StepInTextShows(BuildFullHistoryMessage(history, userInput).value, history[|history| - |Window(history)| + i], |history| - |Window(history)| + i + 1);
  }

  /** Every shown step appears in the history message with its full text,
      labelled with its 1-based position in the whole history. */
  lemma ShownStepAppears(history: seq<ExecutionResult>, userInput: string, i: int)
    requires BuildFullHistoryMessage(history, userInput).Ok?
    requires 0 <= i < |Window(history)|
    ensures 0 <= |history| - |Window(history)| + i < |history|
    ensures var k := |history| - |Window(history)| + i;
      && history[k].skillResponse.Some?
      && Contains(BuildFullHistoryMessage(history, userInput).value, ShownStep(history[k], k + 1))
  {
    hide *;
    WindowPosition(history, i);
    HistoryShowsResponses(history, userInput);
    HistoryHoldsItems(history, userInput);
    ContainsJoinedPart(BuildFullHistoryMessage(history, userInput).value,
                       StepTexts(Window(history), FirstLabel(history)), i);
  }


  /** When a shown step ran a command, the first 2048 characters of its output
      appear in the message. */
  lemma ShownStepOutput(history: seq<ExecutionResult>, userInput: string, i: int)
    requires BuildFullHistoryMessage(history, userInput).Ok?
    requires 0 <= i < |Window(history)|
    requires history[|history| - |Window(history)| + i].command != ""
    ensures Contains(BuildFullHistoryMessage(history, userInput).value,
                     ShownOutput(history[|history| - |Window(history)| + i]))
  {
    hide *;
    ShownStepAppears(history, userInput, i);
    StepInTextShowsOutput(BuildFullHistoryMessage(history, userInput).value, history[|history| - |Window(history)| + i], |history| - |Window(history)| + i + 1);
  }

  /** Each shown step's skill name, the reason for choosing it, its reasoning
      and its next step appear in the message. */
  lemma ShownStepFields(history: seq<ExecutionResult>, userInput: string, i: int)
    requires BuildFullHistoryMessage(history, userInput).Ok?
    requires 0 <= i < |Window(history)|
    ensures var r := history[|history| - |Window(history)| + i];
      var m := BuildFullHistoryMessage(history, userInput).value;
      r.skillResponse.Some? && ShowsSkillLines(m, r.skillResponse.value)
  {
    hide *;
    ShownStepAppears(history, userInput, i);
    StepInTextShowsFields(BuildFullHistoryMessage(history, userInput).value, history[|history| - |Window(history)| + i], |history| - |Window(history)| + i + 1);
  }

  /** The user message of `generate`: the full history when there is any, else
      the last result, else the bare task. */
  function UserContent(history: seq<ExecutionResult>, lastResult: Option<ExecutionResult>, userInput: string): (m: Result<string>)
    ensures history != [] ==> m == BuildFullHistoryMessage(history, userInput)
    ensures history == [] && lastResult.Some? ==> m == Ok(BuildResultMessage(lastResult.value))
    ensures history == [] && lastResult.None? ==> m == Ok(BuildTaskMessage(userInput))
  {
    if history != [] then BuildFullHistoryMessage(history, userInput)
    else if lastResult.Some? then Ok(BuildResultMessage(lastResult.value))
    else Ok(BuildTaskMessage(userInput))
  }

  /** Without history, building the user message never fails, whatever the previous result. */
  lemma UserContentNeverFailsWithoutHistory(lastResult: Option<ExecutionResult>, userInput: string)
    ensures UserContent([], lastResult, userInput).Ok?
    ensures lastResult.None? ==> UserContent([], lastResult, userInput).value[|TaskOpening|..] == userInput
  {
  }

  datatype Message = Message(role: string, content: string)

  /** A decoded JSON document: an object, or any other value. */
  datatype JsonValue = JObject(obj: JsonObject) | JOther

  /** `json.loads`, which the model does not define: `None` is a decoding error. */
  type JsonParser = string -> Option<JsonValue>

  const UnparsedThinking: string := "无法解析 LLM 响应"

  /** The reply when the backend's text is not JSON: the text kept as the explanation. */
  function UnparsedResponse(text: string): (r: LlmResponse)
    ensures r.thinking == UnparsedThinking && r.command == "" && r.explanation == text
    ensures !r.isDangerous && !r.isDirectMode && r.directResponse == ""
  {
    LlmResponse(UnparsedThinking, "", text, "", "", false, "", false, "")
  }

  /** One exchange: the messages sent and the decoded reply. */
  datatype Exchange = Exchange(messages: seq<Message>, response: LlmResponse)

  /** `generate`: the system prompt and the user message are sent; the reply
      text (`replyText`, what the backend answered) is decoded. A reply that
      decodes to a non-object fails in `from_dict`. */
  function Generate(c: LlmClient, prompts: Prompts, userInput: string, lastResult: Option<ExecutionResult>,
                    history: seq<ExecutionResult>, replyText: string, parseJson: JsonParser): (r: Result<Exchange>)
    ensures UserContent(history, lastResult, userInput).Raised? ==> r.Raised?
    ensures r.Ok? ==> r.value.messages == [Message("system", SystemPrompt(c, prompts)),
                                           Message("user", UserContent(history, lastResult, userInput).value)]
    ensures UserContent(history, lastResult, userInput).Ok? ==>
      && (parseJson(replyText).None? ==> r.Ok? && r.value.response == UnparsedResponse(replyText))
      && (parseJson(replyText) == Some(JOther) ==> r.Raised?)
      && (parseJson(replyText).Some? && parseJson(replyText).value.JObject? ==>
            r.Ok? && r.value.response == FromDict(parseJson(replyText).value.obj))
  {
    match UserContent(history, lastResult, userInput)
    case Raised(e) => Raised(e)
    case Ok(content) =>
      var messages := [Message("system", SystemPrompt(c, prompts)), Message("user", content)];
      match parseJson(replyText)
      case None => Ok(Exchange(messages, UnparsedResponse(replyText)))
      case Some(JOther) => Raised("AttributeError: object has no attribute 'get'")
      case Some(JObject(o)) => Ok(Exchange(messages, FromDict(o)))
  }

  /** A reply that is the dictionary of a response decodes to that response. */
  lemma GenerateDecodesReply(c: LlmClient, prompts: Prompts, userInput: string, lastResult: Option<ExecutionResult>,
                             replyText: string, parseJson: JsonParser, expected: LlmResponse)
    requires parseJson(replyText) == Some(JObject(ToDict(expected)))
    ensures Generate(c, prompts, userInput, lastResult, [], replyText, parseJson).Ok?
    ensures Generate(c, prompts, userInput, lastResult, [], replyText, parseJson).value.response == expected
  {
    FromDictRoundTrip(expected);
  }
}
