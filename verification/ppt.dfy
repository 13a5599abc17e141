/** The pure rules of the presentation skill: the offline outline parser, the
    layout cycle of content slides, the caps on slide text, the safe file name
    and the reply when the presentation library is missing. Building and
    saving the slides is outside the model. */
module Ppt {
  import opened Base
  import opened Text
  import opened Execution

  datatype Slide = Slide(title: string, content: string)

  /** A presentation title and its content slides. */
  datatype Outline = Outline(title: string, slides: seq<Slide>)

  const DefaultTitle: string := "Generated Presentation"
  const KeyPointsContent: string := "Main ideas and concepts"
  const ContextLead: string := "Main ideas and concepts based on context:"

  /** The stripped text after the last occurrence of `sep`. */
  function TextAfterLast(s: string, sep: string): (t: string)
    requires sep != []
    ensures exists k :: AfterLast(s, sep, k) && t == Strip(s[k..])
  {
    var p := LastPiece(s, sep);
    assert AfterLast(s, sep, |s| - |p|);
    Strip(p)
  }

  /** For a separator that overlaps no shifted copy of itself, such as "about" and
      "presentation", the stripped text after the last occurrence is determined:
      every position that ends an occurrence with none after it gives it. */
  lemma TextAfterLastIsUnique(s: string, sep: string, k: int)
    requires sep != [] && SelfDisjoint(sep) && AfterLast(s, sep, k)
    ensures TextAfterLast(s, sep) == Strip(s[k..])
  {
    LastPieceIsUnique(s, sep, k);
  }

  /** Neither title keyword overlaps itself. */
  lemma KeywordsAreSelfDisjoint()
    ensures SelfDisjoint("about") && SelfDisjoint("presentation")
  {
    FirstLetterOnce("about");
    FirstLetterOnce("presentation");
  }

  /** The title the task names: after the last "about" when the task mentions
      it in any case, else after the last "presentation", else the task itself.
      The split itself is case-sensitive. */
  function ExtractTitle(task: string): (t: string)
    ensures Contains(Lower(task), "about") ==> exists k :: AfterLast(task, "about", k) && t == Strip(task[k..])
    ensures !Contains(Lower(task), "about") && Contains(Lower(task), "presentation") ==>
      exists k :: AfterLast(task, "presentation", k) && t == Strip(task[k..])
    ensures !Contains(Lower(task), "about") && !Contains(Lower(task), "presentation") ==> t == task
  {
    if Contains(Lower(task), "about") then TextAfterLast(task, "about")
    else if Contains(Lower(task), "presentation") then TextAfterLast(task, "presentation")
    else task
  }

  /** What one history item adds to the context summary: the direct reply of
      its skill response, or else its command. */
  function ContextPiece(r: ExecutionResult): (p: string)
    ensures r.skillResponse.Some? ==> p == " " + r.skillResponse.value.execution.directResponse
    ensures r.skillResponse.None? ==> p == " Command: " + r.command
  {
    match r.skillResponse
    case Some(sr) => " " + sr.execution.directResponse
    case None => " Command: " + r.command
  }

  function ContextPieces(items: seq<ExecutionResult>): string {
    if items == [] then "" else ContextPiece(items[0]) + ContextPieces(items[1..])
  }

  /** The context summary built from the last two history items. */
  function ContextSummary(history: seq<ExecutionResult>): string {
    " " + ContextPieces(SliceFrom(history, -2))
  }

  /** The content of the key-points slide. */
  function KeyPoints(history: seq<ExecutionResult>): (c: string)
    ensures history == [] ==> c == KeyPointsContent
    ensures history != [] && |ContextSummary(history)| > 2 ==> c == ContextLead + ContextSummary(history)
    ensures history != [] && |ContextSummary(history)| <= 2 ==> c == KeyPointsContent
  {
    if history != [] && |ContextSummary(history)| > 2 then ContextLead + ContextSummary(history)
    else KeyPointsContent
  }

  /** The title of the first slide: the extracted title, or the default one
      when that is empty. */
  function SlideTitle(task: string): (t: string)
    ensures t != ""
    ensures ExtractTitle(task) != "" ==> t == ExtractTitle(task)
    ensures ExtractTitle(task) == "" ==> t == DefaultTitle
  {
    var extracted := ExtractTitle(task);
    if extracted == "" then DefaultTitle else extracted
  }

  /** The six slides of the basic outline around a title and a key-points text. */
  function BasicSlides(title: string, keyPoints: string): (s: seq<Slide>)
    ensures |s| == 6
    ensures s[0] == Slide(title, "Introduction to " + title)
    ensures s[1] == Slide("Background", "Context and importance of this topic")
    ensures s[2] == Slide("Key Points", keyPoints)
    ensures s[3] == Slide("Applications", "Practical uses and examples")
    ensures s[4] == Slide("Future Outlook", "Trends and developments")
    ensures s[5] == Slide("Conclusion", "Summary and recommendations")
  {
    [Slide(title, "Introduction to " + title),
     Slide("Background", "Context and importance of this topic"),
     Slide("Key Points", keyPoints),
     Slide("Applications", "Practical uses and examples"),
     Slide("Future Outlook", "Trends and developments"),
     Slide("Conclusion", "Summary and recommendations")]
  }

  /** `_parse_task_basic`: six slides, the first titled with the extracted
      title (or the default one when that is empty), the third adjusted by the
      context; the returned title is the first slide's title stripped. */
  function ParseTaskBasic(task: string, history: seq<ExecutionResult>): (o: Outline)
    ensures o.slides == BasicSlides(SlideTitle(task), KeyPoints(history))
    ensures o.title == Strip(SlideTitle(task))
  {
    var title := SlideTitle(task);
    Outline(Strip(title), BasicSlides(title, KeyPoints(history)))
  }

  /** Only whether there is any history and its last two items matter. */
  lemma OnlyLastTwoMatter(task: string, h1: seq<ExecutionResult>, h2: seq<ExecutionResult>)
    requires (h1 == []) == (h2 == [])
    requires SliceFrom(h1, -2) == SliceFrom(h2, -2)
    ensures ParseTaskBasic(task, h1) == ParseTaskBasic(task, h2)
  {
  }

  lemma ContextPiecesLength(items: seq<ExecutionResult>)
    ensures |ContextPieces(items)| >= |items|
  {
  }

  /** With history, the key-points slide keeps its fixed text only when the
      history has a single item whose skill replied with nothing. */
  lemma {:induction false} KeyPointsChange(history: seq<ExecutionResult>)
    requires history != []
    ensures KeyPoints(history) != KeyPointsContent <==>
      (|history| >= 2 || history[0].skillResponse.None? || history[0].skillResponse.value.execution.directResponse != "")
  {
    var recent := SliceFrom(history, -2);
    if |history| >= 2 {
      assert |recent| == 2;
      ContextPiecesLength(recent[1..]);
      assert |ContextPieces(recent)| >= 2;
    } else {
      assert recent == [history[0]];
      assert ContextPieces(recent) == ContextPiece(history[0]) + ContextPieces([]);
    }
    assert KeyPoints(history) != KeyPointsContent <==> |ContextSummary(history)| > 2 by {
      if |ContextSummary(history)| > 2 {
        assert |KeyPoints(history)| > |KeyPointsContent|;
      }
    }
  }

  lemma DefaultTitleIsTrimmed()
    ensures Strip(DefaultTitle) == DefaultTitle
  {
    StripOfTrimmed(DefaultTitle);
  }

  /** A text that strips to nothing is whitespace alone. */
  lemma StripsToNothing(s: string)
    requires Strip(s) == ""
    ensures AllSpace(s)
  {
    var i, j :| 0 <= i <= j <= |s| && Strip(s) == s[i..j] && AllSpace(s[..i]) && AllSpace(s[j..]);
    forall n | 0 <= n < |s| ensures IsSpace(s[n]) {
      if n < i { assert s[n] == s[..i][n]; } else { assert s[n] == s[j..][n - j]; }
    }
  }

  /** A title taken after a keyword is already stripped. */
  lemma KeywordTitleIsTrimmed(task: string)
    requires Contains(Lower(task), "about") || Contains(Lower(task), "presentation")
    ensures Strip(ExtractTitle(task)) == ExtractTitle(task)
  {
    StripOfTrimmed(ExtractTitle(task));
  }

  /** The returned title is empty only for a task made of whitespace alone,
      which no keyword rule touches: the default applies before the final strip. */
  lemma {:induction false} EmptyTitleMeansBlankTask(task: string, history: seq<ExecutionResult>)
    ensures ParseTaskBasic(task, history).title == "" ==> task != [] && AllSpace(task)
  {
    var t := ExtractTitle(task);
    DefaultTitleIsTrimmed();
    if Contains(Lower(task), "about") || Contains(Lower(task), "presentation") {
      KeywordTitleIsTrimmed(task);
    } else if t != "" && Strip(t) == "" {
      StripsToNothing(task);
    }
  }

  /** A task of whitespace alone gives an empty returned title although its
      first slide is titled with the task itself. */
  lemma BlankTaskGivesEmptyTitle(history: seq<ExecutionResult>)
    ensures ParseTaskBasic(" ", history).title == ""
    ensures ParseTaskBasic(" ", history).slides[0].title == " "
  {
    var lowered := Lower(" ");
    assert lowered == " ";
    assert !Contains(lowered, "about");
    assert !Contains(lowered, "presentation");
    assert AllSpace(" ");
  }

  // ---------------------------------------------------------------------------
  // Slide rendering rules

  /** The slide layout of the `i`-th content slide (0-based): `(i + 1) % 3`
      picks "Title and Content" (1), "Section Header" (2) or "Two Content" (3). */
  function LayoutFor(i: nat): (l: int)
    ensures 1 <= l <= 3
    ensures l == 1 <==> (i + 1) % 3 == 0
    ensures l == 2 <==> (i + 1) % 3 == 1
  {
    var k := (i + 1) % 3;
    if k == 0 then 1 else if k == 1 then 2 else 3
  }

  /** The layouts repeat every three slides, and neighbouring slides differ. */
  lemma LayoutCycles(i: nat)
    ensures LayoutFor(i + 3) == LayoutFor(i)
    ensures LayoutFor(i + 1) != LayoutFor(i)
    ensures LayoutFor(0) == 2 && LayoutFor(1) == 3 && LayoutFor(2) == 1
  {
  }

  const TitleLimit: int := 255
  const ContentLimit: int := 1000

  /** `s[0:limit] if len(s) > limit else s`. */
  function Cap(s: string, limit: nat): (r: string)
    ensures |r| == Min(|s|, limit) && r == s[..|r|]
  {
    if |s| > limit then s[0..limit] else s
  }

  /** Capping keeps text within the limit as it is, and capping twice is capping once. */
  lemma CapIsIdempotent(s: string, limit: nat)
    ensures |s| <= limit ==> Cap(s, limit) == s
    ensures Cap(Cap(s, limit), limit) == Cap(s, limit)
  {
  }

  function SlideTitleText(s: Slide): (t: string)
    ensures |t| <= TitleLimit && |t| <= |s.title| && t == s.title[..|t|]
    ensures |s.title| <= TitleLimit ==> t == s.title
  {
    Cap(s.title, TitleLimit)
  }

  function SlideContentText(s: Slide): (t: string)
    ensures |t| <= ContentLimit && |t| <= |s.content| && t == s.content[..|t|]
    ensures |s.content| <= ContentLimit ==> t == s.content
  {
    Cap(s.content, ContentLimit)
  }

  /** The characters removed from a title before it names a file. */
  const UnsafeChars: set<char> := {'\\', '/', '*', '?', ':', '"', '<', '>', '|'}

  const SafeTitleLimit: int := 50

  /** The title as a file name part: unsafe characters removed, then cut at 50. */
  function SafeTitle(title: string): (r: string)
    ensures |r| <= SafeTitleLimit
    ensures forall i :: 0 <= i < |r| ==> r[i] !in UnsafeChars
    ensures |r| <= |RemoveChars(title, UnsafeChars)| && r == RemoveChars(title, UnsafeChars)[..|r|]
    ensures |r| == Min(|RemoveChars(title, UnsafeChars)|, SafeTitleLimit)
  {
    SliceTo(RemoveChars(title, UnsafeChars), SafeTitleLimit)
  }

  /** A short title of safe characters is used as it is. */
  lemma SafeTitleKeepsSafeTitles(title: string)
    requires |title| <= SafeTitleLimit
    requires forall i :: 0 <= i < |title| ==> title[i] !in UnsafeChars
    ensures SafeTitle(title) == title
  {
    RemoveCharsNoop(title, UnsafeChars);
  }

  const OutputDir: string := "./output"
  const PresentationSuffix: string := ".pptx"

  /** The saved file's path; `stamp` is the formatted creation time. */
  function PresentationPath(title: string, stamp: string): (p: string)
    ensures OutputDir + "/" <= p
    ensures |PresentationSuffix| <= |p| && p[|p| - |PresentationSuffix|..] == PresentationSuffix
    ensures var d := |OutputDir| + 1; var safe := SafeTitle(title);
      && OccursAt(p, safe, d)
      && OccursAt(p, "_", d + |safe|)
      && OccursAt(p, stamp, d + |safe| + 1)
      && |p| == d + |safe| + 1 + |stamp| + |PresentationSuffix|
  {
    var safe := SafeTitle(title);
    var p := OutputDir + "/" + safe + "_" + stamp + PresentationSuffix;
    var body := OutputDir + "/" + safe + "_" + stamp;
    PartsOccur(OutputDir + "/", safe, "_", stamp);
    OccursAtPrefix(body, PresentationSuffix, safe, |OutputDir| + 1);
    OccursAtPrefix(body, PresentationSuffix, "_", |OutputDir| + 1 + |safe|);
    OccursAtPrefix(body, PresentationSuffix, stamp, |OutputDir| + 1 + |safe| + 1);
    assert p[|p| - |PresentationSuffix|..] == PresentationSuffix;
    p
  }

  /** The file lands directly in the output directory: no separator follows it,
      provided the time stamp has none. */
  lemma PathStaysInOutputDir(title: string, stamp: string)
    requires forall i :: 0 <= i < |stamp| ==> stamp[i] != '/'
    ensures var p := PresentationPath(title, stamp);
      forall i :: |OutputDir| + 1 <= i < |p| ==> p[i] != '/'
  {
    hide *;
    var name := SafeTitle(title) + "_" + stamp + PresentationSuffix;
    var p := PresentationPath(title, stamp);
    PathIsParts(title, stamp);
    NameHasNoSlash(SafeTitle(title), stamp);
    forall i | |OutputDir| + 1 <= i < |p| ensures p[i] != '/' {
      assert p[i] == name[i - |OutputDir| - 1];
    }
  }

  /** The path is the output directory, a separator, then the file name. */
  lemma PathIsParts(title: string, stamp: string)
    ensures PresentationPath(title, stamp) == (OutputDir + "/") + (SafeTitle(title) + "_" + stamp + PresentationSuffix)
  {
  }

  /** A file name built from a safe title and a stamp without separators has none. */
  lemma NameHasNoSlash(safe: string, stamp: string)
    requires forall i :: 0 <= i < |safe| ==> safe[i] !in UnsafeChars
    requires forall i :: 0 <= i < |stamp| ==> stamp[i] != '/'
    ensures var name := safe + "_" + stamp + PresentationSuffix;
      forall i :: 0 <= i < |name| ==> name[i] != '/'
  {
    var name := safe + "_" + stamp + PresentationSuffix;
    forall i | 0 <= i < |name| ensures name[i] != '/' {
      if i < |safe| {
        assert name[i] == safe[i];
      } else if i > |safe| && i < |safe| + 1 + |stamp| {
        assert name[i] == stamp[i - |safe| - 1];
      }
    }
  }

  /** The reply of the skill when the presentation library is not installed. */
  function MissingLibraryResponse(): (r: SkillExecutionResponse)
    ensures r.generatedFiles == [] && r.command == ""
    ensures r.fileMetadata == map["status" := MStr("missing_dependency"), "required_library" := MStr("python-pptx")]
    ensures r.thinking == "Checking if required library (python-pptx) is installed"
    ensures r.directResponse ==
      "Error: python-pptx library is not installed. Please install it using: pip install python-pptx"
  {
    NewSkillExecutionResponse(
      "Checking if required library (python-pptx) is installed", "", "", "", false, "", "",
      "Error: python-pptx library is not installed. Please install it using: pip install python-pptx",
      Some([]), Some(map["status" := MStr("missing_dependency"), "required_library" := MStr("python-pptx")]),
      None, "")
  }
}
