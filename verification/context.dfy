/** The per-task context: the execution history of one task and the memory
    bank that remembers its skill steps. */
module Context {
  import opened Base
  import opened Execution
  import opened Memory
  import opened Bank

  datatype TaskContext = TaskContext(
    taskDescription: string,
    status: TaskStatus,
    iteration: int,
    history: seq<ExecutionResult>,
    bank: MemoryBank)

  /** A new context: pending, at iteration zero, with no history and a default bank. */
  function NewTaskContext(taskDescription: string): (c: TaskContext)
    ensures c.taskDescription == taskDescription && c.status == Pending && c.iteration == 0
    ensures c.history == [] && c.bank == DefaultBank()
  {
    TaskContext(taskDescription, Pending, 0, [], DefaultBank())
  }

  /** How much of a result's output a memory entry keeps. */
  const MemoryOutputLimit: int := 2000

  /** The memory entry recorded for a result that carries a skill response, as
      step `step`; the entry's id and timestamp come from the caller. */
  function StepEntry(result: ExecutionResult, sr: SkillResponse, step: int, id: string, timestamp: int): MemoryEntry {
    EntryWithDefaults(id, timestamp, sr.selection.skillName, sr.execution.thinking, sr.execution.command,
                      result.OutputForLlm(MemoryOutputLimit), step)
  }

  /** `add_result`: the result joins the history, and when it carries a skill
      response it is also remembered as the step numbered by the new history
      length. `entryId`/`entryTime` stamp the entry, `summaryId`/`summaryTime`
      a summary should the bank fold. */
  function AddResult(c: TaskContext, result: ExecutionResult, entryId: string, entryTime: int,
                     summaryId: string, summaryTime: int): (r: TaskContext)
    ensures r.history == c.history + [result]
    ensures r.taskDescription == c.taskDescription && r.status == c.status && r.iteration == c.iteration
    ensures result.skillResponse.None? ==> r.bank == c.bank
    ensures result.skillResponse.Some? ==> History(r.bank) == History(c.bank) + [entryId]
  {
    var c1 := c.(history := c.history + [result]);
    match result.skillResponse
    case None => c1
    case Some(sr) =>
      var e := StepEntry(result, sr, |c1.history|, entryId, entryTime);
      AddEntryKeepsHistory(c.bank, e, summaryId, summaryTime);
      c1.(bank := AddEntry(c.bank, e, summaryId, summaryTime))
  }

  /** The remembered step is the newest entry of the bank: it copies the skill
      name, thinking and command, keeps the output cut at 2000 characters, is
      numbered by the history length, and has the default importance and no tags. */
  lemma AddResultRemembersStep(c: TaskContext, result: ExecutionResult, entryId: string, entryTime: int,
                               summaryId: string, summaryTime: int)
    requires result.skillResponse.Some?
    ensures var r := AddResult(c, result, entryId, entryTime, summaryId, summaryTime);
      var sr := result.skillResponse.value;
      var es := r.bank.entries;
      && |es| > 0
      && es[|es| - 1].id == entryId
      && es[|es| - 1].timestamp == entryTime
      && es[|es| - 1].stepNumber == |r.history|
      && es[|es| - 1].skillName == sr.selection.skillName
      && es[|es| - 1].thinking == sr.execution.thinking
      && es[|es| - 1].command == sr.execution.command
      && es[|es| - 1].result == result.OutputForLlm(2000)
      && es[|es| - 1].importance == 0.5
      && es[|es| - 1].tags == []
  {
    var sr := result.skillResponse.value;
    var e := StepEntry(result, sr, |c.history| + 1, entryId, entryTime);
    assert AddResult(c, result, entryId, entryTime, summaryId, summaryTime).bank
      == AddEntry(c.bank, e, summaryId, summaryTime);
  }

  /** `last_result`: the newest result, or nothing for an empty history. */
  function LastResult(c: TaskContext): (r: Option<ExecutionResult>)
    ensures r.None? <==> c.history == []
    ensures r.Some? ==> r.value == c.history[|c.history| - 1]
  {
    if c.history != [] then Some(c.history[|c.history| - 1]) else None
  }

  /** After an add, the last result is the one just added. */
  lemma LastResultAfterAdd(c: TaskContext, result: ExecutionResult, entryId: string, entryTime: int,
                           summaryId: string, summaryTime: int)
    ensures LastResult(AddResult(c, result, entryId, entryTime, summaryId, summaryTime)) == Some(result)
  {
  }
}
