/** The skill router: registration, selection through an external selector,
    execution with error containment, and lookup. The selector and the skills'
    own behaviour are parameters: their outcomes are given, not computed. */
module Skills {
  import opened Base
  import opened Text
  import opened Execution

  datatype SkillManager = SkillManager(skills: seq<Skill>, defaultSkill: Option<Skill>)

  function NewSkillManager(): (m: SkillManager)
    ensures m.skills == [] && m.defaultSkill.None?
  {
    SkillManager([], None)
  }

  /** The default skill, when there is one, is among the registered skills. */
  predicate DefaultRegistered(m: SkillManager) {
    m.defaultSkill.Some? ==> m.defaultSkill.value in m.skills
  }

  /** `register_skill`: append, and make the skill the default when asked. */
  function RegisterSkill(m: SkillManager, s: Skill, isDefault: bool): (r: SkillManager)
    ensures r.skills == m.skills + [s]
    ensures isDefault ==> r.defaultSkill == Some(s)
    ensures !isDefault ==> r.defaultSkill == m.defaultSkill
    ensures DefaultRegistered(m) ==> DefaultRegistered(r)
  {
    SkillManager(m.skills + [s], if isDefault then Some(s) else m.defaultSkill)
  }

  /** What the external selector did when asked: it raised, or it returned a
      skill (or none), a confidence, its reasoning and whether the task is done. */
  datatype SelectorOutcome =
    | SelectorRaised(error: string)
    | SelectorReturned(skill: Option<Skill>, confidence: real, reasoning: string, taskComplete: bool)

  const CompletedName: string := "none"
  const CompletedReason: string := "Task completed"
  const UnknownName: string := "unknown"
  const FallbackReason: string := "Fallback due to selection error"

  /** The selection used whenever selection does not produce a skill. */
  function Fallback(m: SkillManager): (r: SkillSelectResponse)
    ensures r.skill == m.defaultSkill && !r.taskComplete && r.selectReason == FallbackReason
    ensures r.skillName == if m.defaultSkill.Some? then m.defaultSkill.value.name else UnknownName
  {
    SkillSelectResponse(
      if m.defaultSkill.Some? then m.defaultSkill.value.name else UnknownName,
      m.defaultSkill, FallbackReason, false)
  }

  /** `select_skill`. Without a console (`hasUi` false) the selection animation
      fails before the selector is asked, so the fallback is used; so it is when
      the selector raises or returns no skill for an unfinished task. */
  function SelectSkill(m: SkillManager, hasUi: bool, outcome: SelectorOutcome): (r: SkillSelectResponse)
    ensures r.taskComplete <==> hasUi && outcome.SelectorReturned? && outcome.taskComplete
    ensures r.taskComplete ==> r.skill.None? && r.skillName == CompletedName && r.selectReason == CompletedReason
    ensures hasUi && outcome.SelectorReturned? && !outcome.taskComplete && outcome.skill.Some? ==>
      r.skill == outcome.skill && r.skillName == outcome.skill.value.name && r.selectReason == outcome.reasoning
    ensures (!hasUi || outcome.SelectorRaised? || (!outcome.taskComplete && outcome.skill.None?)) ==> r == Fallback(m)
  {
    if !hasUi then Fallback(m)
    else match outcome
      case SelectorRaised(_) => Fallback(m)
      case SelectorReturned(skill, _, reasoning, taskComplete) =>
        if taskComplete then SkillSelectResponse(CompletedName, None, CompletedReason, true)
        else if skill.Some? then SkillSelectResponse(skill.value.name, skill, reasoning, false)
        else Fallback(m)
  }

  /** A selected skill is registered, provided the selector only picks among
      the registered skills and the default is registered. */
  lemma SelectedSkillIsRegistered(m: SkillManager, hasUi: bool, outcome: SelectorOutcome)
    requires DefaultRegistered(m)
    requires outcome.SelectorReturned? && outcome.skill.Some? ==> outcome.skill.value in m.skills
    ensures SelectSkill(m, hasUi, outcome).skill.Some? ==> SelectSkill(m, hasUi, outcome).skill.value in m.skills
  {
  }

  /** What a skill's own `execute` did: it raised, or it returned a response. */
  datatype ExecOutcome = ExecRaised(error: string) | ExecReturned(response: SkillExecutionResponse)

  /** Python's message for a call on a missing object. */
  function NoAttribute(attribute: string): string {
    "'NoneType' object has no attribute '" + attribute + "'"
  }

  /** The response that reports a failed execution: the selection kept, the
      task marked complete, and the error in the thinking and the reply. */
  function ExecutionFailure(sel: SkillSelectResponse, error: string): (r: SkillResponse)
    ensures r.selection.skill == sel.skill && r.selection.skillName == sel.skillName
    ensures r.selection.selectReason == sel.selectReason && r.selection.taskComplete
    ensures r.execution.thinking == "Skill execution failed: " + error
    ensures r.execution.directResponse == "Error executing " + sel.skillName + ": " + error
    ensures r.execution.command == "" && !r.execution.isDangerous && r.execution.generatedFiles == []
  {
    SkillResponse(
      SkillSelectResponse(sel.skillName, sel.skill, sel.selectReason, true),
      EmptyExecution().(thinking := "Skill execution failed: " + error,
                        directResponse := "Error executing " + sel.skillName + ": " + error))
  }

  /** The response when the selector reports the task done. */
  function CompletedResponse(): (r: SkillResponse)
    ensures r.selection.skillName == CompletedName && r.selection.skill.None? && r.selection.taskComplete
    ensures r.execution.thinking == "Task completed" && r.execution.directResponse == "Task completed."
    ensures r.execution.command == ""
  {
    SkillResponse(SkillSelectResponse(CompletedName, None, "", true),
                  EmptyExecution().(thinking := "Task completed", directResponse := "Task completed."))
  }

  /** `execute`: select, then run the selected skill. `run` gives what each
      skill's `execute` does with the task. Every failure (no console, no skill
      selected, the skill raising) is contained in the returned response. */
  function Execute(m: SkillManager, hasUi: bool, outcome: SelectorOutcome,
                   run: Skill -> ExecOutcome): (r: SkillResponse)
    ensures var sel := SelectSkill(m, hasUi, outcome);
      && (sel.taskComplete ==> r == CompletedResponse())
      && (!sel.taskComplete && !hasUi ==> r == ExecutionFailure(sel, NoAttribute("streaming_display")))
      && (!sel.taskComplete && hasUi && sel.skill.None? ==> r == ExecutionFailure(sel, NoAttribute("execute")))
      && (!sel.taskComplete && hasUi && sel.skill.Some? && run(sel.skill.value).ExecRaised? ==>
            r == ExecutionFailure(sel, run(sel.skill.value).error))
      && (!sel.taskComplete && hasUi && sel.skill.Some? && run(sel.skill.value).ExecReturned? ==>
            r == SkillResponse(sel, run(sel.skill.value).response))
  {
    var sel := SelectSkill(m, hasUi, outcome);
    if sel.taskComplete then CompletedResponse()
    else if !hasUi then ExecutionFailure(sel, NoAttribute("streaming_display"))
    else match sel.skill
      case None => ExecutionFailure(sel, NoAttribute("execute"))
      case Some(s) =>
        match run(s)
        case ExecRaised(e) => ExecutionFailure(sel, e)
        case ExecReturned(resp) => SkillResponse(sel, resp)
  }

  /** A response that ends the task always carries a reply for the user, and a
      response that does not end it is exactly what the selected skill returned. */
  lemma ExecuteContainsErrors(m: SkillManager, hasUi: bool, outcome: SelectorOutcome, run: Skill -> ExecOutcome)
    ensures var r := Execute(m, hasUi, outcome, run);
      && (r.selection.taskComplete ==> r.execution.directResponse != "")
      && (!r.selection.taskComplete ==>
            r.selection.skill.Some? && run(r.selection.skill.value) == ExecReturned(r.execution))
  {
  }

  /** The task continues exactly when the console is present, the selector
      neither finished the task nor failed to pick a skill when there is no
      default, and the selected skill returned normally. */
  lemma ExecuteContinuesExactly(m: SkillManager, hasUi: bool, outcome: SelectorOutcome, run: Skill -> ExecOutcome)
    ensures var sel := SelectSkill(m, hasUi, outcome);
      !Execute(m, hasUi, outcome, run).selection.taskComplete <==>
        hasUi && !sel.taskComplete && sel.skill.Some? && run(sel.skill.value).ExecReturned?
  {
  }

  /** The index of the first skill from `i` on whose name equals `name`
      ignoring case, or `|skills|` when there is none. */
  function FirstNamed(skills: seq<Skill>, name: string, i: nat): (k: nat)
    requires i <= |skills|
    ensures i <= k <= |skills|
    ensures k < |skills| ==> Lower(skills[k].name) == Lower(name)
    ensures forall j :: i <= j < k ==> Lower(skills[j].name) != Lower(name)
    decreases |skills| - i
  {
    if i == |skills| || Lower(skills[i].name) == Lower(name) then i else FirstNamed(skills, name, i + 1)
  }

  /** `get_skill_by_name`: the first registered skill with that name, ignoring case. */
  function GetSkillByName(m: SkillManager, name: string): (r: Option<Skill>)
    ensures r.None? <==> forall j :: 0 <= j < |m.skills| ==> Lower(m.skills[j].name) != Lower(name)
    ensures r.Some? ==> Lower(r.value.name) == Lower(name)
    ensures r.Some? ==>
      exists k :: 0 <= k < |m.skills| && m.skills[k] == r.value && (forall j :: 0 <= j < k ==> Lower(m.skills[j].name) != Lower(name))
  {
    var k := FirstNamed(m.skills, name, 0);
    if k < |m.skills| then Some(m.skills[k]) else None
  }

  /** A registered skill is found under its own name. */
  lemma RegisteredSkillIsFound(m: SkillManager, s: Skill, isDefault: bool)
    ensures GetSkillByName(RegisterSkill(m, s, isDefault), s.name).Some?
  {
    var r := RegisterSkill(m, s, isDefault);
    assert r.skills[|r.skills| - 1] == s;
  }

  /** One row of `list_skills`. */
  datatype SkillInfo = SkillInfo(name: string, capabilities: seq<string>, description: string)

  function CapabilityValues(cs: seq<SkillCapability>): (r: seq<string>)
    ensures |r| == |cs|
    ensures forall i :: 0 <= i < |cs| ==> r[i] == cs[i].Value()
  {
    seq(|cs|, i requires 0 <= i < |cs| => cs[i].Value())
  }

  /** `list_skills`: one row per registered skill, in registration order. */
  function ListSkills(m: SkillManager): (r: seq<SkillInfo>)
    ensures |r| == |m.skills|
    ensures forall i :: 0 <= i < |r| ==>
      r[i].name == m.skills[i].name && r[i].description == m.skills[i].description
      && |r[i].capabilities| == |m.skills[i].capabilities|
  {
    seq(|m.skills|, i requires 0 <= i < |m.skills| =>
      SkillInfo(m.skills[i].name, CapabilityValues(m.skills[i].capabilities), m.skills[i].description))
  }

  /** The listed capability values decode back to the skill's capabilities. */
  lemma ListedCapabilitiesDecode(m: SkillManager, i: nat, j: nat)
    requires i < |m.skills| && j < |m.skills[i].capabilities|
    ensures j < |ListSkills(m)[i].capabilities|
    ensures CapabilityFromValue(ListSkills(m)[i].capabilities[j]) == Some(m.skills[i].capabilities[j])
  {
    CapabilityValueRoundTrip(m.skills[i].capabilities[j]);
  }

  /** `reset_all`: every registered skill is reset in place, the default
      included since it is one of them. `reset` gives a skill's state after its
      own `reset`, which the model does not define. */
  function ResetAll(m: SkillManager, reset: Skill -> Skill): (r: SkillManager)
    ensures |r.skills| == |m.skills|
    ensures forall i :: 0 <= i < |m.skills| ==> r.skills[i] == reset(m.skills[i])
    ensures r.defaultSkill.None? <==> m.defaultSkill.None?
    ensures m.defaultSkill.Some? ==> r.defaultSkill == Some(reset(m.defaultSkill.value))
  {
    SkillManager(seq(|m.skills|, i requires 0 <= i < |m.skills| => reset(m.skills[i])),
                 if m.defaultSkill.Some? then Some(reset(m.defaultSkill.value)) else None)
  }

  /** Resetting keeps the default among the registered skills. */
  lemma ResetKeepsDefaultRegistered(m: SkillManager, reset: Skill -> Skill)
    requires DefaultRegistered(m)
    ensures DefaultRegistered(ResetAll(m, reset))
  {
    if m.defaultSkill.Some? {
      var k :| 0 <= k < |m.skills| && m.skills[k] == m.defaultSkill.value;
      assert ResetAll(m, reset).skills[k] == reset(m.defaultSkill.value);
    }
  }
}
