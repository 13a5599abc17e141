/** Working-memory records: one entry per executed step, the summaries that
    replace folded entries, and the query descriptor. */
module Memory {
  import opened Base
  import opened Text

  /** One remembered step. `id` and `timestamp` come from the caller (a UUID and
      the clock in the source); a timestamp is an integer instant. */
  datatype MemoryEntry = MemoryEntry(
    id: string,
    timestamp: int,
    skillName: string,
    thinking: string,
    command: string,
    result: string,
    summary: string,
    importance: real,
    tags: seq<string>,
    stepNumber: int)

  /** How many characters of each field the automatic summary keeps. */
  const SummaryFieldLimit: nat := 100

  /** One part of the automatic summary: a heading, the first characters of the
      field, and an ellipsis when the field was longer. */
  function SummaryPart(heading: string, field: string): string {
    heading + SliceTo(field, SummaryFieldLimit) + (if |field| > SummaryFieldLimit then "..." else "")
  }

  /** The summary derived when none is given. */
  function AutoSummary(thinking: string, command: string, result: string): string {
    var parts :=
      (if thinking != "" then [SummaryPart("Thinking: ", thinking)] else [])
      + (if command != "" then [SummaryPart("Command: ", command)] else [])
      + (if result != "" then [SummaryPart("Result: ", result)] else []);
    if parts == [] then "No information" else Join(parts, "; ")
  }

  /** The dataclass constructor with its post-initialisation: an empty summary is
      replaced by the derived one, a given summary is kept as it is. */
  function NewMemoryEntry(
    id: string, timestamp: int, skillName: string, thinking: string, command: string, result: string,
    summary: string, importance: real, tags: seq<string>, stepNumber: int): (e: MemoryEntry)
    ensures summary != "" ==> e.summary == summary
    ensures summary == "" ==> e.summary == AutoSummary(thinking, command, result)
    ensures e.summary != ""
    ensures e.id == id && e.timestamp == timestamp && e.skillName == skillName
    ensures e.thinking == thinking && e.command == command && e.result == result
    ensures e.importance == importance && e.tags == tags && e.stepNumber == stepNumber
  {
    AutoSummaryNotEmpty(thinking, command, result);
    var s := if summary == "" then AutoSummary(thinking, command, result) else summary;
    MemoryEntry(id, timestamp, skillName, thinking, command, result, s, importance, tags, stepNumber)
  }

  /** Default importance of an entry. */
  const DefaultImportance: real := 0.5

  /** An entry built from the given fields with every other field at its default. */
  function EntryWithDefaults(id: string, timestamp: int, skillName: string, thinking: string,
                             command: string, result: string, stepNumber: int): (e: MemoryEntry)
    ensures e.importance == 0.5 && e.tags == [] && e.summary == AutoSummary(thinking, command, result)
    ensures e.id == id && e.timestamp == timestamp && e.stepNumber == stepNumber && e.skillName == skillName
    ensures e.thinking == thinking && e.command == command && e.result == result
  {
    NewMemoryEntry(id, timestamp, skillName, thinking, command, result, "", DefaultImportance, [], stepNumber)
  }

  /** The derived summary is never empty. */
  lemma AutoSummaryNotEmpty(thinking: string, command: string, result: string)
    ensures AutoSummary(thinking, command, result) != ""
  {
    var parts :=
      (if thinking != "" then [SummaryPart("Thinking: ", thinking)] else [])
      + (if command != "" then [SummaryPart("Command: ", command)] else [])
      + (if result != "" then [SummaryPart("Result: ", result)] else []);
    if parts != [] {
      assert parts[0] != "";
      JoinStartsWithFirst(parts, "; ");
    }
  }

  /** `sep.join(parts)` begins with the first part. */
  lemma {:induction false} JoinStartsWithFirst(parts: seq<string>, sep: string)
    requires parts != []
    ensures parts[0] <= Join(parts, sep)
  {
  }

  /** Building an entry from an existing entry's fields gives the same entry:
      the derived summary is stored, so it is not derived again. */
  lemma RebuildIsIdentity(e: MemoryEntry)
    requires e.summary != ""
    ensures NewMemoryEntry(e.id, e.timestamp, e.skillName, e.thinking, e.command, e.result,
                           e.summary, e.importance, e.tags, e.stepNumber) == e
  {
  }

  /** With nothing to report the summary says so. */
  lemma AutoSummaryOfNothing()
    ensures AutoSummary("", "", "") == "No information"
  {
  }

  /** A part keeps the whole field when it has at most 100 characters, and
      otherwise its first 100 characters followed by "...". */
  lemma SummaryPartShape(heading: string, field: string)
    ensures |field| <= 100 ==> SummaryPart(heading, field) == heading + field
    ensures |field| > 100 ==> SummaryPart(heading, field) == heading + field[..100] + "..."
    ensures |SummaryPart(heading, field)| == |heading| + Min(|field|, 100) + (if |field| > 100 then 3 else 0)
  {
  }

  /** The parts appear in the order thinking, command, result, joined by "; ". */
  lemma AutoSummaryLayout(thinking: string, command: string, result: string)
    ensures thinking != "" && command != "" && result != "" ==>
      AutoSummary(thinking, command, result)
        == SummaryPart("Thinking: ", thinking) + "; " + SummaryPart("Command: ", command) + "; " + SummaryPart("Result: ", result)
    ensures thinking == "" && command != "" && result != "" ==>
      AutoSummary(thinking, command, result) == SummaryPart("Command: ", command) + "; " + SummaryPart("Result: ", result)
    ensures thinking != "" && command != "" && result == "" ==>
      AutoSummary(thinking, command, result) == SummaryPart("Thinking: ", thinking) + "; " + SummaryPart("Command: ", command)
    ensures thinking != "" && command == "" && result != "" ==>
      AutoSummary(thinking, command, result) == SummaryPart("Thinking: ", thinking) + "; " + SummaryPart("Result: ", result)
  {
    var t := SummaryPart("Thinking: ", thinking);
    var c := SummaryPart("Command: ", command);
    var r := SummaryPart("Result: ", result);
    if thinking != "" && command != "" && result != "" {
      assert [t] + [c] + [r] == [t, c, r];
      assert Join([t, c, r], "; ") == t + "; " + Join([c, r], "; ");
      assert Join([c, r], "; ") == c + "; " + Join([r], "; ");
    }
    if thinking == "" && command != "" && result != "" {
      assert [c] + [r] == [c, r];
      assert Join([c, r], "; ") == c + "; " + Join([r], "; ");
    }
    if thinking != "" && command != "" && result == "" {
      assert [t] + [c] + [] == [t, c];
      assert Join([t, c], "; ") == t + "; " + Join([c], "; ");
    }
    if thinking != "" && command == "" && result != "" {
      assert [t] + [] + [r] == [t, r];
      assert Join([t, r], "; ") == t + "; " + Join([r], "; ");
    }
  }

  /** A single non-empty field gives a summary of its part alone. */
  lemma AutoSummarySingle(thinking: string, command: string, result: string)
    ensures thinking != "" && command == "" && result == "" ==>
      AutoSummary(thinking, command, result) == SummaryPart("Thinking: ", thinking)
    ensures thinking == "" && command != "" && result == "" ==>
      AutoSummary(thinking, command, result) == SummaryPart("Command: ", command)
    ensures thinking == "" && command == "" && result != "" ==>
      AutoSummary(thinking, command, result) == SummaryPart("Result: ", result)
  {
  }

  /** The record that replaces a run of folded entries. Its tags are a set: the
      source builds them from a Python set, so their order is unspecified. */
  datatype MemorySummary = MemorySummary(
    id: string,
    timestamp: int,
    title: string,
    content: string,
    sourceEntries: seq<string>,
    tags: set<string>)

  /** A read-only filter over entries. */
  datatype MemoryQuery = MemoryQuery(
    keywords: seq<string>,
    minImportance: real,
    maxResults: int,
    tags: seq<string>,
    dateFrom: Option<int>,
    dateTo: Option<int>)

  /** The query with every field at its default: it admits every entry of
      non-negative importance and keeps ten of them. */
  function DefaultQuery(): (q: MemoryQuery)
    ensures q.keywords == [] && q.tags == [] && q.dateFrom.None? && q.dateTo.None?
    ensures q.minImportance == 0.0 && q.maxResults == 10
  {
    MemoryQuery([], 0.0, 10, [], None, None)
  }
}
