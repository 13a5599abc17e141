# ask_shell core in Dafny

A model of the deterministic core of the `ask_shell` agent from alpha-bot. The agent runs a task in a loop. Each step goes like this:

- a skill router picks a skill;
- the skill answers;
- the result joins the task's execution history;
- the step is remembered in a bounded working memory, which folds its oldest half into a summary when it fills up.

Around that loop the model covers:

- the records every component exchanges: execution results, skill responses and replies of the reasoning backend;
- the hint system's configuration loader and record types;
- the messages sent to the reasoning backend;
- the offline outline parser of the presentation skill.

Everything is pure. Mutable objects become immutable records, and operations return the updated record. The following are parameters:

- uuids and clocks (ids and integer timestamps);
- the environment (a map);
- `float()` and `json.loads` (partial functions);
- the skill selector and each skill's own `execute` (given outcomes);
- the backend's reply text.

Modules:

- `Base`: `Option`/`Result` and Python slicing.
- `Text`: ASCII `lower`, `in`, `join`, `strip`, `split(sep)[-1]`, character removal.
- `Numerals`: `str(int)`, and `int(text)` with its full grammar.
- `Execution`: `ask_shell/models/types.py`.
- `Memory`: `ask_shell/memory/types.py`.
- `Bank`: `ask_shell/memory/bank.py`.
- `Context`: `ask_shell/context/task_context.py`.
- `Skills`: `ask_shell/skills/skill_manager.py`.
- `HintTypes` and `HintConfig`: `ask_shell/auto_hint/types.py` and `ask_shell/auto_hint/config.py`.
- `Llm`: `ask_shell/llm/base.py` and the pure parts of `ask_shell/llm/openai_client.py`.
- `Ppt`: the pure parts of `ask_shell/skills/ppt_skill.py`.

## Model

| member | source | states |
|---|---|---|
| Base.SliceTo | ask_shell/memory/bank.py:133 | Python's `s[:k]`: a prefix of length `k` clamped to the length, with a negative `k` counting from the end |
| Base.SliceFrom | ask_shell/memory/bank.py:145 | Python's `s[k:]`: a suffix, with a negative `k` keeping the last `-k` elements |
| Text.Lower | ask_shell/auto_hint/config.py:46 | `lower()` keeps the length and lowers each ASCII letter in place |
| Text.Strip | ask_shell/skills/ppt_skill.py:222 | `strip()` removes exactly the leading and trailing whitespace: the result is a slice framed by whitespace and neither starts nor ends with whitespace |
| Text.StripOfTrimmed | ask_shell/skills/ppt_skill.py:248 | stripping a text without surrounding whitespace leaves it unchanged |
| Text.LastPiece | ask_shell/skills/ppt_skill.py:222 | `split(sep)[-1]` is a suffix in which no occurrence of `sep` starts, and which an occurrence ends right before unless it is the whole text; it is the whole text when `sep` does not occur. For a separator that overlaps itself these facts admit more than one suffix |
| Text.LastPieceIsUnique | ask_shell/skills/ppt_skill.py:222 | for a separator that overlaps no shifted copy of itself, any suffix with those facts is the piece `split(sep)[-1]` returns |
| Text.FirstLetterOnce | ask_shell/skills/ppt_skill.py:222 | a separator whose first letter does not recur overlaps no shifted copy of itself |
| Text.RemoveChars | ask_shell/skills/ppt_skill.py:400 | removing a character class leaves no character of the class and keeps every other character with its multiplicity |
| Text.RemoveCharsAppend | ask_shell/skills/ppt_skill.py:400 | removing from a concatenation concatenates the removals, so the kept characters keep their order |
| Text.RemoveCharsOne | ask_shell/skills/ppt_skill.py:400 | a single character is dropped exactly when it is in the class |
| Text.KeptIsRemoval | ask_shell/skills/ppt_skill.py:400 | removal equals the reference filter that keeps each character outside the class, in order |
| Text.KeptAppend | ask_shell/skills/ppt_skill.py:400 | the reference filter of a concatenation is the filters of its parts, in turn |
| Text.RemoveCharsNoop | ask_shell/skills/ppt_skill.py:400 | removal changes nothing in a text without such characters |
| Text.Join | ask_shell/memory/types.py:38 | `join` of one part is the part and of none is empty |
| Numerals.ParseInt | ask_shell/auto_hint/config.py:55-57 | `int(text)` succeeds exactly when the stripped text, less one leading sign, is digits with single underscores between them; it fails on blank text and gives a negative value only after a leading minus |
| Numerals.ParseIntIgnoresSpace | ask_shell/auto_hint/config.py:55-57 | surrounding whitespace does not change `int(text)` |
| Numerals.ParseIntPlus | ask_shell/auto_hint/config.py:55-57 | a leading plus does not change the value of an unsigned numeral |
| Numerals.ParseIntMinus | ask_shell/auto_hint/config.py:55-57 | a leading minus negates an unsigned numeral, and fails exactly when the numeral does |
| Numerals.ParseIntUnderscore | ask_shell/auto_hint/config.py:55-57 | an underscore between two digits does not change the result |
| Numerals.ParseIntLeadingZero | ask_shell/auto_hint/config.py:55-57 | a leading zero does not change the result |
| Numerals.GroupUnderscore | ask_shell/auto_hint/config.py:55-57 | a digit group with an underscore between two digits is valid exactly when it is without it, with the same value |
| Numerals.GroupLeadingZero | ask_shell/auto_hint/config.py:55-57 | a leading zero before a digit group changes neither its validity nor its value |
| Numerals.ValidJoin | ask_shell/auto_hint/config.py:55-57 | two parts joined by at most one underscore between digits form a valid group exactly when the outer ends are digits and each part has only digits and lone underscores |
| Numerals.DoubleUnderscore | ask_shell/auto_hint/config.py:55-57 | `"__" in s` holds exactly when two underscores are adjacent |
| Numerals.NatToStringRoundTrip | ask_shell/llm/base.py:54 | the decimal digits of a natural number read back as that number |
| Numerals.IntToStringRoundTrip | ask_shell/auto_hint/config.py:55 | `int(str(i)) == i` for every integer, sign included |
| Numerals.IntToStringIsTrimmed | ask_shell/auto_hint/config.py:55 | `str(i)` has no surrounding whitespace, so `int` reads it unstripped |
| Numerals.UnderscoresRemoved | ask_shell/auto_hint/config.py:55 | removing the underscores from digits and underscores leaves only digits |
| Execution.TaskStatusFromValue | ask_shell/models/types.py:8-14 | `TaskStatus(value)` returns a member only when its value is `value` |
| Execution.TaskStatusValueRoundTrip | ask_shell/models/types.py:8-14 | every status is recovered from its value, so the five values are distinct |
| Execution.CapabilityFromValue | ask_shell/models/types.py:17-23 | `SkillCapability(value)` returns a member only when its value is `value` |
| Execution.CapabilityValueRoundTrip | ask_shell/models/types.py:17-23 | every capability is recovered from its value |
| Execution.NewSkillExecutionResponse | ask_shell/models/types.py:56-62 | after construction, a missing file list, file metadata or API response is empty, and every other field is as given |
| Execution.ExecutionResult.Success | ask_shell/models/types.py:85-87 | a result succeeded exactly when its return code, as the messages print it, reads "0" |
| Execution.ExecutionResult.Output | ask_shell/models/types.py:89-97 | stdout, then "[stderr] " + stderr, joined by a newline and using only non-empty parts; "(无输出)" when both are empty |
| Execution.ExecutionResult.TruncatedOutput | ask_shell/models/types.py:99-104 | the output unchanged within the limit, otherwise its cut prefix followed by the fixed notice |
| Execution.ExecutionResult.OutputForLlm | ask_shell/models/types.py:106-111 | the same shape, with a notice that names the limit |
| Execution.OutputShowsStreams | ask_shell/models/types.py:89-97 | the merged output is never empty and contains each non-empty stream, stderr behind its marker |
| Execution.TruncationKeepsPrefix | ask_shell/models/types.py:99-111 | for a non-negative limit both helpers keep the first `min(len, limit)` characters, and the notice follows exactly when something was cut |
| Execution.FromDict | ask_shell/models/types.py:127-141 | every present key gives its value to its field, and every missing key reads as the field default: "" for text, false for flags |
| Execution.FromDictRoundTrip | ask_shell/models/types.py:127-141 | reading a reply from its own dictionary gives the reply back |
| Execution.FromDictEmpty | ask_shell/models/types.py:127-141 | an empty object decodes to the all-defaults reply |
| Memory.NewMemoryEntry | ask_shell/memory/types.py:28-38 | a non-empty summary is kept unchanged, an empty one is replaced by the derived summary, the summary is never empty, and every other field is as given |
| Memory.EntryWithDefaults | ask_shell/memory/types.py:17-26 | an entry built from some fields has importance 0.5, no tags and the derived summary |
| Memory.AutoSummaryNotEmpty | ask_shell/memory/types.py:38 | the derived summary is never empty |
| Memory.AutoSummaryOfNothing | ask_shell/memory/types.py:38 | with all three fields empty the summary is "No information" |
| Memory.SummaryPartShape | ask_shell/memory/types.py:33-37 | a part is the heading and the first 100 characters of its field, followed by "..." exactly when the field is longer than 100 |
| Memory.AutoSummaryLayout | ask_shell/memory/types.py:31-38 | for every choice of two or three non-empty fields, their parts appear in the order thinking, command, result, joined by "; " |
| Memory.AutoSummarySingle | ask_shell/memory/types.py:31-38 | a single non-empty field gives its part alone |
| Memory.JoinStartsWithFirst | ask_shell/memory/types.py:38 | the joined summary begins with its first part |
| Memory.RebuildIsIdentity | ask_shell/memory/types.py:28-29 | re-creating an entry from its own fields gives the same entry |
| Memory.DefaultQuery | ask_shell/memory/types.py:54-64 | the default query has no keywords, no tags and no dates, minimum importance 0.0 and at most 10 results |
| Bank.NewBank | ask_shell/memory/bank.py:16-27 | a new bank is empty and keeps the given limits |
| Bank.DefaultBank | ask_shell/memory/bank.py:16 | the default limits are six entries and a threshold of six |
| Bank.IdsAppend | ask_shell/memory/bank.py:82 | the ids of two runs of entries are the ids of each, in order |
| Bank.TagUnionIsUnion | ask_shell/memory/bank.py:70-74 | a tag is in the union exactly when some entry carries it |
| Bank.CreateSummary | ask_shell/memory/bank.py:58-84 | a summary lists the ids of the folded entries in order |
| Bank.SummaryDescribesEntries | ask_shell/memory/bank.py:72-84 | the summary title is "Summary of K steps (first-last)", its content joins the "Step N - skill: summary" lines with newlines, and its tags are exactly the folded entries' tags |
| Bank.Compress | ask_shell/memory/bank.py:43-56 | at the limit, the oldest `n/2` entries are folded into one appended summary and the rest stay in order; otherwise nothing changes |
| Bank.AddEntry | ask_shell/memory/bank.py:29-41 | the new entry ends the list, the list grows by at most one, and the summaries are kept, or gain exactly one at the end |
| Bank.AddEntryFolds | ask_shell/memory/bank.py:40-56 | when the threshold and the limit are reached, the newest `n - n/2` entries stay verbatim and one summary of the oldest `n/2` is appended |
| Bank.AddEntryOnlyAppends | ask_shell/memory/bank.py:36-41 | below the threshold or the limit, an add only appends |
| Bank.AddEntryStaysBelowLimit | ask_shell/memory/bank.py:40-56 | with a limit of at least 2 and a threshold no larger than it, the entry count stays below the limit |
| Bank.AddEntryKeepsHistory | ask_shell/memory/bank.py:29-56 | no entry is lost or reordered: the folded ids followed by the live ids grow by exactly the new id |
| Bank.FoldKeepsHistory | ask_shell/memory/bank.py:49-56 | moving a prefix into a summary that lists its ids keeps the id history |
| Bank.FoldedIdsAppend | ask_shell/memory/bank.py:53 | an appended summary adds its source ids at the end of the folded ids |
| Bank.AddAll | ask_shell/memory/bank.py:29-41 | a run of adds keeps the bank's limits |
| Bank.AddAllStaysBelowLimit | ask_shell/memory/bank.py:40-56 | the entry limit holds after any run of adds that starts below it |
| Bank.AddAllKeepsHistory | ask_shell/memory/bank.py:29-56 | any run of adds extends the id history by the added ids, in order |
| Bank.AddAllBelowThreshold | ask_shell/memory/bank.py:36-41 | adds that never reach the threshold only append |
| Bank.AddAllSnoc | ask_shell/memory/bank.py:29-41 | a run followed by one more add is the longer run |
| Bank.DefaultBankSixSteps | ask_shell/memory/bank.py:16-56 | with the defaults, steps 1 to 6 leave entries 4 to 6 and one summary "Summary of 3 steps (1-3)" of the first three |
| Bank.SixthAddFolds | ask_shell/memory/bank.py:40-56 | the sixth add into a default bank folds the first three entries |
| Bank.FirstThreeTitle | ask_shell/memory/bank.py:76 | the title of steps 1 to 3 is "Summary of 3 steps (1-3)" |
| Bank.SingleEntryNeverFolds | ask_shell/memory/bank.py:47-50 | a lone entry is never folded: half of one is none |
| Bank.Filter | ask_shell/memory/bank.py:99-127 | the kept entries are exactly the matching ones, with their multiplicities: importance at least the minimum, inside the optional dates, some keyword found ignoring case or none given, some tag shared or none given |
| Bank.ConsRanked | ask_shell/memory/bank.py:130 | an element ranking above a ranked tail heads a ranked sequence |
| Bank.Insert | ask_shell/memory/bank.py:130 | inserting into a ranked sequence keeps it ranked and adds exactly the element |
| Bank.HeadStaysAbove | ask_shell/memory/bank.py:130 | the head of a ranked sequence ranks above any insertion into its tail of a lower element |
| Bank.Rank | ask_shell/memory/bank.py:130 | the sort is a permutation, ordered non-increasingly by importance, then timestamp |
| Bank.RankedMatches | ask_shell/memory/bank.py:99-130 | every matching entry exactly once per occurrence, best first |
| Bank.RankedMatchesAreMatches | ask_shell/memory/bank.py:99-130 | each ranked match is a matching entry of the bank |
| Bank.GetRelevantMemories | ask_shell/memory/bank.py:86-133 | the result is ranked, and every returned entry matches the query and is held by the bank |
| Bank.MatchCount | ask_shell/memory/bank.py:99-127 | there are never more matches than entries |
| Bank.MatchCountIsFilterSize | ask_shell/memory/bank.py:99-127 | the filter keeps exactly the counted matches |
| Bank.RelevantMemoriesCount | ask_shell/memory/bank.py:133 | a non-negative cap keeps `min(matches, cap)` entries, and a negative cap drops that many from the end |
| Bank.RelevantMemoriesAreBest | ask_shell/memory/bank.py:130-133 | every returned entry ranks at least as high as any matching entry left out |
| Bank.PrefixOutranksRest | ask_shell/memory/bank.py:133 | in a ranked sequence a prefix outranks everything outside it |
| Bank.AllMatchesReturned | ask_shell/memory/bank.py:86-133 | with a cap of at least the bank size, every matching entry is returned |
| Bank.GetRecentEntries | ask_shell/memory/bank.py:135-145 | a positive count gives the last `min(count, len)` entries in order, zero gives all entries, and a negative count drops that many from the front |
| Bank.GetSummaries | ask_shell/memory/bank.py:147-154 | as many summaries as the statistics count, and their source ids followed by the live entries' ids are the whole id history |
| Bank.GetAllMemories | ask_shell/memory/bank.py:156-163 | as many entries as the statistics count, and their ids are the newest part of the id history, in order |
| Bank.FoldedEntriesLeaveAllMemories | ask_shell/memory/bank.py:147-163 | after a fold, `get_all_memories` holds only the live entries, and the folded ones are the sources of the newest summary |
| Bank.Clear | ask_shell/memory/bank.py:165-170 | both lists are emptied and the limits kept |
| Bank.GetStats | ask_shell/memory/bank.py:172-184 | the counts, their sum, and a ratio of summaries per entry that is 0 without entries |
| Context.NewTaskContext | ask_shell/context/task_context.py:10-17 | a new context is pending, at iteration 0, with no history and a default bank |
| Context.AddResult | ask_shell/context/task_context.py:19-35 | the history grows by exactly the result, and the bank's id history grows by the new entry's id when there is a skill response and is untouched otherwise |
| Context.AddResultRemembersStep | ask_shell/context/task_context.py:27-34 | the remembered entry copies skill name, thinking and command, keeps the output cut at 2000, and is numbered by the new history length |
| Context.LastResult | ask_shell/context/task_context.py:37-40 | the final history element, or none exactly for an empty history |
| Context.LastResultAfterAdd | ask_shell/context/task_context.py:19-40 | after an add, the last result is the one just added |
| Skills.NewSkillManager | ask_shell/skills/skill_manager.py:23-34 | a new router has no skills and no default |
| Skills.RegisterSkill | ask_shell/skills/skill_manager.py:36-46 | skills are kept in registration order, a default registration replaces the default, and the default stays registered |
| Skills.Fallback | ask_shell/skills/skill_manager.py:81 | the fallback selects the default skill, not complete, reason "Fallback due to selection error", name "unknown" without a default |
| Skills.SelectSkill | ask_shell/skills/skill_manager.py:48-81 | the task is complete exactly when the selector says so, a picked skill is used with its reasoning, and every other case falls back |
| Skills.SelectedSkillIsRegistered | ask_shell/skills/skill_manager.py:48-81 | a selected skill is registered when the selector and the default only name registered skills |
| Skills.ExecutionFailure | ask_shell/skills/skill_manager.py:138-147 | a failure keeps the selection, completes the task and reports "Error executing {name}: …" |
| Skills.CompletedResponse | ask_shell/skills/skill_manager.py:108-114 | a completed selection answers "Task completed." under the name "none" |
| Skills.Execute | ask_shell/skills/skill_manager.py:83-147 | completion, a missing console, a missing skill and a raising skill each give their terminal response, and a normal run copies the skill's response |
| Skills.ExecuteContainsErrors | ask_shell/skills/skill_manager.py:83-147 | a terminal response always has a reply for the user, and a non-terminal one is exactly what the selected skill returned |
| Skills.ExecuteContinuesExactly | ask_shell/skills/skill_manager.py:83-147 | the task continues exactly when a skill was selected with a console present and returned normally |
| Skills.FirstNamed | ask_shell/skills/skill_manager.py:151-154 | the index of the first skill whose name matches ignoring case, with no earlier match |
| Skills.GetSkillByName | ask_shell/skills/skill_manager.py:149-154 | the first skill whose name matches ignoring case, or none exactly when no name matches |
| Skills.RegisteredSkillIsFound | ask_shell/skills/skill_manager.py:36-46 | a registered skill is found under its own name |
| Skills.CapabilityValues | ask_shell/skills/skill_manager.py:163-170 | each capability is listed by its value, in order |
| Skills.ListSkills | ask_shell/skills/skill_manager.py:156-170 | one record per registered skill, in registration order, with its name and description |
| Skills.ListedCapabilitiesDecode | ask_shell/skills/skill_manager.py:163-170 | the listed capability values decode back to the skill's capabilities |
| Skills.ResetAll | ask_shell/skills/skill_manager.py:172-175 | every registered skill is reset in place, and the default with them |
| Skills.ResetKeepsDefaultRegistered | ask_shell/skills/skill_manager.py:172-175 | after a reset the default is still a registered skill |
| HintTypes.CategoryFromValue | ask_shell/auto_hint/types.py:10-18 | `HintCategory(value)` returns a member only when its value is `value` |
| HintTypes.CategoryValueRoundTrip | ask_shell/auto_hint/types.py:10-18 | every category is recovered from its value |
| HintTypes.CoerceCategory | ask_shell/auto_hint/types.py:39-41 | a member is kept, a string becomes the member with that value, and the coercion fails exactly when no member has it |
| HintTypes.NewHintPattern | ask_shell/auto_hint/types.py:21-41 | a pattern is built exactly when its category coerces, with the coerced category and the given fields |
| HintTypes.DefaultHintPattern | ask_shell/auto_hint/types.py:26-37 | the defaults: category success_pattern, success rate 0.0, frequency 1, confidence 0.0, empty lists |
| HintTypes.NewHintMetadata | ask_shell/auto_hint/types.py:44-62 | metadata is built exactly when its category coerces, with the coerced category and the given fields |
| HintTypes.DefaultHintMetadata | ask_shell/auto_hint/types.py:49-58 | the defaults: category best_practice, version "1.0", usage 0, effectiveness 0.0 |
| HintTypes.CategoryByValueIsMember | ask_shell/auto_hint/types.py:60-62 | giving a category by its value builds the same metadata as giving the member |
| HintTypes.EmptyAnalysis | ask_shell/auto_hint/types.py:65-74 | every list and the insight map of a default analysis are empty |
| HintConfig.DefaultConfig | ask_shell/auto_hint/config.py:8-33 | the thirteen defaults: on, persistent, no path, 3, 5, 2, 0.7, 0.8, 5, 3, cleanup on, 30, 0.3 |
| HintConfig.LoadAnalysis | ask_shell/auto_hint/config.py:54-61 | settings are assigned in order until the first parse failure, the earlier ones kept and the rest untouched |
| HintConfig.LoadGeneration | ask_shell/auto_hint/config.py:64-68 | the two generation settings are assigned in order until the first failure, and nothing else changes |
| HintConfig.LoadCleanup | ask_shell/auto_hint/config.py:72-76 | the two cleanup settings are assigned in order until the first failure, and nothing else changes |
| HintConfig.LoadAutoHintConfig | ask_shell/auto_hint/config.py:36-78 | each switch is on exactly when its variable, lower-cased, reads "true" or is unset, and the storage path is overridden exactly by a non-empty value |
| HintConfig.GenerationBlockIsIndependent | ask_shell/auto_hint/config.py:63-68 | the generation settings depend only on their own variables, whatever fails elsewhere |
| HintConfig.AnalysisBlockIsIndependent | ask_shell/auto_hint/config.py:53-61 | the five analysis settings are what the analysis block makes of the defaults from its own variables, whatever the other blocks read |
| HintConfig.CleanupBlockIsIndependent | ask_shell/auto_hint/config.py:70-76 | the two cleanup settings depend only on the cleanup variables |
| HintConfig.AnalysisFailureAtFrequency | ask_shell/auto_hint/config.py:55-61 | when the minimum frequency does not parse, the two settings read before it keep their values and it and the two after it keep their defaults |
| HintConfig.AnalysisFailureKeepsDefaults | ask_shell/auto_hint/config.py:54-61 | when the first analysis value does not parse, the whole analysis block keeps its defaults |
| HintConfig.NumeralThirty | ask_shell/auto_hint/config.py:73 | the default "30" parses to 30 |
| HintConfig.EmptyEnvironmentGivesDefaults | ask_shell/auto_hint/config.py:36-78 | with no variable set, loading gives exactly the defaults |
| HintConfig.EmptyEnvironmentAnalysis | ask_shell/auto_hint/config.py:55-57 | the analysis defaults read back as 3, 5 and 2 |
| HintConfig.EmptyEnvironmentRest | ask_shell/auto_hint/config.py:65-73 | the generation and cleanup defaults read back as 5, 3 and 30 |
| HintConfig.EmptyEnvironmentFlags | ask_shell/auto_hint/config.py:46-71 | every switch is on when unset |
| HintConfig.GetAutoHintConfig | ask_shell/auto_hint/config.py:81-91 | a stored instance is returned as it is, and otherwise one is loaded and stored |
| HintConfig.SetAutoHintConfig | ask_shell/auto_hint/config.py:94-102 | setting stores the given instance |
| HintConfig.GetIsMemoised | ask_shell/auto_hint/config.py:81-91 | a second read returns the first one's instance whatever the environment has become |
| HintConfig.GetAfterSet | ask_shell/auto_hint/config.py:94-102 | a read after a set returns the instance that was set |
| Llm.NewLlmClient | ask_shell/llm/base.py:12-14 | a new client is not in direct mode and has no custom prompt |
| Llm.SetDirectMode | ask_shell/llm/base.py:20-22 | only the mode changes |
| Llm.SetSystemPrompt | ask_shell/llm/base.py:24-26 | only the custom prompt changes |
| Llm.ResetSystemPrompt | ask_shell/llm/base.py:28-30 | only the custom prompt is removed |
| Llm.SystemPrompt | ask_shell/llm/base.py:32-37 | a custom prompt wins, and otherwise the mode picks the direct or the command prompt |
| Llm.CustomPromptOverridesMode | ask_shell/llm/base.py:20-37 | a custom prompt survives a mode change, and a reset restores the mode's prompt |
| Llm.StatusWord | ask_shell/llm/base.py:47 | the status reads "成功" exactly for a zero return code |
| Llm.ResultMessageShowsCommand | ask_shell/llm/base.py:52-54 | the second line gives the command right after "命令: ", and the third the return code in decimal right after "返回码: " |
| Llm.ResultHeader | ask_shell/llm/base.py:52-55 | the result message opens with the status right after its lead words |
| Llm.BuildResultMessage | ask_shell/llm/base.py:39-58 | the status word reports success, and the message ends with the output cut at 10000 and the closing request |
| Llm.BuildTaskMessage | ask_shell/llm/base.py:60-62 | the task message is the fixed lead followed by the task |
| Llm.TaskMessageIsInjective | ask_shell/llm/base.py:60-62 | the task can be read back from its message |
| Llm.Window | ask_shell/llm/openai_client.py:107 | at most the last three results are shown, in order |
| Llm.LabelsArePositions | ask_shell/llm/openai_client.py:107-108 | `max(len-2, 1) + i` is the 1-based position of the i-th shown result |
| Llm.WindowPosition | ask_shell/llm/openai_client.py:107-108 | the i-th shown result is the history element at that offset from the window's start, and its label is that element's 1-based position |
| Llm.StepLabelReadsBack | ask_shell/llm/openai_client.py:115 | a step label is `第`, the step number, `步`, and the number reads back as the step |
| Llm.StepHeadingShows | ask_shell/llm/openai_client.py:109-115 | a step heading carries the label after its line break and the status word before its closing colon |
| Llm.StepFieldsShow | ask_shell/llm/openai_client.py:116-119 | the skill name, selection reason, reasoning and next step lines follow one another in that order |
| Llm.CommandSectionShows | ask_shell/llm/openai_client.py:120-123 | the command lines are present exactly when the step ran a command, and then give the command, the return code and the first 2048 characters of the output |
| Llm.DirectSectionShows | ask_shell/llm/openai_client.py:124-125 | the direct-reply line is present exactly when there is a direct reply, and then carries it |
| Llm.StepTextShows | ask_shell/llm/openai_client.py:115-125 | a step's text is its heading, then its four skill lines, then its command and direct-reply lines |
| Llm.StepOutputIsPrefix | ask_shell/llm/openai_client.py:113-123 | a shown output is the first 2048 characters of the merged output: the 10000 cut never shows |
| Llm.HistoryItem | ask_shell/llm/openai_client.py:109-125 | rendering a step fails exactly when it has no skill response |
| Llm.StepTexts | ask_shell/llm/openai_client.py:107-125 | one text per shown step, the i-th labelled `first + i` |
| Llm.RenderItemsStepByStep | ask_shell/llm/openai_client.py:107-125 | the rendering is what the loop builds: nothing for no steps, else the first step's text or failure followed by the rest labelled one further on, the first failure winning |
| Llm.WindowMissesResponse | ask_shell/llm/openai_client.py:107 | a shown step lacks its response exactly when one of the last three history results does |
| Llm.SuffixMissesResponse | ask_shell/llm/openai_client.py:107 | an element of a suffix lacks its response exactly when an element from that point on does |
| Llm.FrameHistory | ask_shell/llm/openai_client.py:105-128 | the rendered steps sit between the history heading and the current-task line |
| Llm.BuildFullHistoryMessage | ask_shell/llm/openai_client.py:96-128 | the message fails exactly when one of the last three results has no skill response, and otherwise opens with the history heading and ends with the current-task line |
| Llm.HistoryShowsResponses | ask_shell/llm/openai_client.py:107-119 | a history message is built only when every shown result has a skill response |
| Llm.HistoryHoldsItems | ask_shell/llm/openai_client.py:105-128 | a built history message contains the shown steps' texts one after another |
| Llm.ShownStepAppears | ask_shell/llm/openai_client.py:105-128 | each of the last three results appears in the message with its full step text, labelled with its 1-based position |
| Llm.ShownStepLabel | ask_shell/llm/openai_client.py:107-115 | each shown step's label `第{n}步` appears, `n` its position in the whole history |
| Llm.ShownStepFields | ask_shell/llm/openai_client.py:116-119 | each shown step's skill name, selection reason, reasoning and next step lines appear |
| Llm.ShownStepOutput | ask_shell/llm/openai_client.py:120-123 | for a shown step that ran a command, the first 2048 characters of its output appear |
| Llm.UserContent | ask_shell/llm/openai_client.py:51-56 | the history message when there is history, else the result message, else the task message |
| Llm.UserContentNeverFailsWithoutHistory | ask_shell/llm/openai_client.py:51-56 | without history the user message is always built, and it carries the task |
| Llm.UnparsedResponse | ask_shell/llm/openai_client.py:70-75 | undecodable text becomes a reply with the fixed thinking, no command and the raw text as explanation |
| Llm.Generate | ask_shell/llm/openai_client.py:29-75 | the system and user messages are sent, undecodable text degrades to the raw-text reply, an object decodes field by field, and any other JSON value fails |
| Llm.GenerateDecodesReply | ask_shell/llm/openai_client.py:67-69 | a reply that is the dictionary of a response decodes to that response |
| Ppt.TextAfterLast | ask_shell/skills/ppt_skill.py:222 | the stripped text of a suffix that an occurrence of the separator ends right before, or the whole text, with no occurrence starting inside it |
| Ppt.TextAfterLastIsUnique | ask_shell/skills/ppt_skill.py:222 | for a separator that overlaps no shifted copy of itself, that stripped text is the same whichever such suffix is taken |
| Ppt.KeywordsAreSelfDisjoint | ask_shell/skills/ppt_skill.py:222 | neither "about" nor "presentation" overlaps itself, so the title after either keyword is determined |
| Ppt.ExtractTitle | ask_shell/skills/ppt_skill.py:222 | the title follows the last "about" when the lower-cased task mentions it, else the last "presentation", else it is the task itself |
| Ppt.ContextPiece | ask_shell/skills/ppt_skill.py:239-242 | an item contributes its direct reply when it has a skill response, else its command |
| Ppt.KeyPoints | ask_shell/skills/ppt_skill.py:236-245 | the key-points slide names the context exactly when there is history and the summary is longer than 2 |
| Ppt.SlideTitle | ask_shell/skills/ppt_skill.py:222-223 | the first slide's title is never empty: the extracted title, or "Generated Presentation" |
| Ppt.BasicSlides | ask_shell/skills/ppt_skill.py:226-233 | exactly six slides: the title with its introduction, then Background, Key Points, Applications, Future Outlook and Conclusion with their fixed texts |
| Ppt.ParseTaskBasic | ask_shell/skills/ppt_skill.py:219-248 | the six basic slides around the first-slide title and the key-points text, and the returned title is that title stripped |
| Ppt.OnlyLastTwoMatter | ask_shell/skills/ppt_skill.py:236-245 | two histories with the same last two items give the same outline |
| Ppt.ContextPiecesLength | ask_shell/skills/ppt_skill.py:238-242 | each item adds at least one character to the summary |
| Ppt.KeyPointsChange | ask_shell/skills/ppt_skill.py:236-245 | with history, the key-points text changes unless the only item is a skill reply with empty text |
| Ppt.DefaultTitleIsTrimmed | ask_shell/skills/ppt_skill.py:223 | the default title survives the final strip |
| Ppt.StripsToNothing | ask_shell/skills/ppt_skill.py:248 | a text that strips to nothing is whitespace alone |
| Ppt.KeywordTitleIsTrimmed | ask_shell/skills/ppt_skill.py:222 | a title taken after a keyword is already stripped |
| Ppt.EmptyTitleMeansBlankTask | ask_shell/skills/ppt_skill.py:222-248 | the returned title is empty only for a non-empty task made of whitespace alone |
| Ppt.BlankTaskGivesEmptyTitle | ask_shell/skills/ppt_skill.py:222-248 | a whitespace task returns an empty title while its first slide keeps the whitespace |
| Ppt.LayoutFor | ask_shell/skills/ppt_skill.py:289-295 | `(i + 1) % 3` picks layout 1, 2 or 3 |
| Ppt.LayoutCycles | ask_shell/skills/ppt_skill.py:289-295 | the layouts repeat every three slides, start with the section header, and neighbours differ |
| Ppt.Cap | ask_shell/skills/ppt_skill.py:302 | a capped text is the prefix of length `min(len, limit)` |
| Ppt.CapIsIdempotent | ask_shell/skills/ppt_skill.py:302-311 | text within the limit is kept, and capping twice is capping once |
| Ppt.SlideTitleText | ask_shell/skills/ppt_skill.py:302 | a slide title is cut to its first 255 characters |
| Ppt.SlideContentText | ask_shell/skills/ppt_skill.py:311 | slide content is cut to its first 1000 characters |
| Ppt.SafeTitle | ask_shell/skills/ppt_skill.py:400 | the file-name title has none of `\ / * ? : " < > \|` and is exactly the first `min(len, 50)` characters of the cleaned title |
| Ppt.SafeTitleKeepsSafeTitles | ask_shell/skills/ppt_skill.py:400 | a short title of safe characters is used as it is |
| Ppt.PresentationPath | ask_shell/skills/ppt_skill.py:401 | the path is "./output/", the safe title, "_", the time stamp and ".pptx", each part right after the one before |
| Ppt.PathStaysInOutputDir | ask_shell/skills/ppt_skill.py:400-401 | no separator follows the output directory, so the file lands directly in it |
| Ppt.MissingLibraryResponse | ask_shell/skills/ppt_skill.py:96-102 | without the library the skill explains the missing dependency, produces no files and reports the status "missing_dependency" |

## Left out

- Text.Lower: lower-cases ASCII letters only. This is exact for the comparisons against "true", "about" and "presentation". Keyword search and skill lookup with non-ASCII letters are not modelled exactly.
- Numerals.ParseInt: accepts ASCII digits only. Python's `int()` also accepts other Unicode decimal digits.
- Numerals.ParseInt: accepts numerals of any length. Python 3.11 and later raise `ValueError` past 4300 digits, which would end a configuration block early.
- HintTypes.CoerceCategory: the error message quotes the value as `'value'`. Python's enum uses `repr(value)`, which differs for a value containing a quote or a backslash.
- HintTypes.DefaultHintPattern: `createdAt` and `updatedAt` are one time parameter. The source calls `datetime.now` once for each, so the two can differ by a few microseconds.
- HintTypes.DefaultHintMetadata: `createdAt` and `updatedAt` are one time parameter, for the same reason.
- Skills.ResetAll: skills are values, so each list element is reset once. A skill object registered twice is one object in the source and is reset twice.
- Text.LastPiece: the contract does not pin down the piece for a separator that overlaps itself. Python gives "a" for `"aaa".split("aa")[-1]`, and "" meets the contract too. Text.LastPieceIsUnique pins it down for separators that do not overlap themselves, which covers both title keywords.
- `float()` in the configuration loader is an abstract partial function, because decimal-to-float rounding is not modelled.
- Bank.Rank: the source's sort is stable; the model states ranking and permutation, not stability.
- Timestamps are integers and ids are parameters. `uuid4` and `datetime.now` are outside the model.
- Memory summary tags are a set, because the source builds them with `list(set(...))`, whose order is unspecified.
- `SkillSelectResponse.task_complete` is a boolean: the source's `None` behaves as false everywhere it is read.
- Skills.Execute: the `not skill_select_response` branch (skill_manager.py:101-107) is left out. `select_skill` always returns a response, so it cannot be reached.
- The skill selector, each skill's `execute` and `reset`, and the console are parameters. Their source is not part of this model. A missing console is the flag `hasUi`; its failures surface as the `AttributeError` messages Python would give.
- Llm.Generate: streaming and the network call are left out, and the reply text is a parameter.
- Llm.Generate: `json.loads` is an abstract parser. A decoded object carries only text and flag values, so a key holding another JSON type is not modelled.
- Llm.SystemPrompt: the built-in prompt texts of a concrete client are parameters, because they are defined outside the modelled files.
- The LLM outline path of the presentation skill, slide construction, fonts and colours, and saving the file are library and network calls.
- Ppt.PresentationPath: the time stamp is a parameter, because `strftime` of the current time is outside the model.
- The hint analyzer, generator, persistence and orchestration are not part of this model.
- The console UI, the Feishu skill, the command-line tool and logging are left out.
- `get_all_memories` says it returns compressed and uncompressed entries, but the code returns only the live entries. The model follows the code.
- Summary content lines are "Step N - skill: summary" with an ASCII hyphen, as the code writes them.
