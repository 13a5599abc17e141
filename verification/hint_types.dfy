/** The records of the hint system: categories, discovered patterns, hint
    metadata and analysis results, with their defaults and the coercion of a
    category given by its value. */
module HintTypes {
  import opened Base
  import opened Execution

  datatype HintCategory =
    | SuccessPattern | FailurePattern | BestPractice | Troubleshooting
    | Optimization | Security | Performance
  {
    function Value(): string {
      match this
      case SuccessPattern => "success_pattern"
      case FailurePattern => "failure_pattern"
      case BestPractice => "best_practice"
      case Troubleshooting => "troubleshooting"
      case Optimization => "optimization"
      case Security => "security"
      case Performance => "performance"
    }
  }

  /** `HintCategory(value)`: the member with that value, or `None`. */
  function CategoryFromValue(v: string): (r: Option<HintCategory>)
    ensures r.Some? ==> r.value.Value() == v
  {
    if v == "success_pattern" then Some(SuccessPattern)
    else if v == "failure_pattern" then Some(FailurePattern)
    else if v == "best_practice" then Some(BestPractice)
    else if v == "troubleshooting" then Some(Troubleshooting)
    else if v == "optimization" then Some(Optimization)
    else if v == "security" then Some(Security)
    else if v == "performance" then Some(Performance)
    else None
  }

  /** Every category is recovered from its value. */
  lemma CategoryValueRoundTrip(c: HintCategory)
    ensures CategoryFromValue(c.Value()) == Some(c)
  {
  }

  /** The category argument of a constructor: a member, or its value as a string. */
  datatype CategoryArg = Member(category: HintCategory) | ByValue(value: string)

  /** The post-initialisation coercion: a string becomes the member with that
      value, and an unknown value is a `ValueError`. */
  function CoerceCategory(arg: CategoryArg): (r: Result<HintCategory>)
    ensures arg.Member? ==> r == Ok(arg.category)
    ensures arg.ByValue? ==> (r.Ok? <==> exists c: HintCategory :: c.Value() == arg.value)
    ensures arg.ByValue? && r.Ok? ==> r.value.Value() == arg.value
  {
    match arg
    case Member(c) => Ok(c)
    case ByValue(v) =>
      match CategoryFromValue(v)
      case Some(c) => Ok(c)
      case None =>
        assert forall c: HintCategory :: c.Value() != v by {
          forall c: HintCategory ensures c.Value() != v {
            CategoryValueRoundTrip(c);
          }
        }
        Raised("'" + v + "' is not a valid HintCategory")
  }

  /** A pattern discovered in the execution history. Times are integer instants
      supplied by the caller. */
  datatype HintPattern = HintPattern(
    id: string,
    category: HintCategory,
    skillName: string,
    patternDescription: string,
    contextKeywords: seq<string>,
    successRate: real,
    frequency: int,
    confidence: real,
    examples: seq<string>,
    antiExamples: seq<string>,
    createdAt: int,
    updatedAt: int)

  /** The constructor with its post-initialisation; fails only on an unknown
      category value. */
  function NewHintPattern(
    id: string, category: CategoryArg, skillName: string, patternDescription: string,
    contextKeywords: seq<string>, successRate: real, frequency: int, confidence: real,
    examples: seq<string>, antiExamples: seq<string>, createdAt: int, updatedAt: int): (r: Result<HintPattern>)
    ensures r.Ok? <==> CoerceCategory(category).Ok?
    ensures r.Ok? ==> r.value.category == CoerceCategory(category).value
    ensures r.Ok? ==> r.value.id == id && r.value.skillName == skillName && r.value.frequency == frequency
    ensures r.Ok? ==> r.value.successRate == successRate && r.value.confidence == confidence
    ensures r.Ok? ==> r.value.patternDescription == patternDescription && r.value.contextKeywords == contextKeywords
    ensures r.Ok? ==> r.value.examples == examples && r.value.antiExamples == antiExamples
    ensures r.Ok? ==> r.value.createdAt == createdAt && r.value.updatedAt == updatedAt
  {
    match CoerceCategory(category)
    case Raised(e) => Raised(e)
    case Ok(c) =>
      Ok(HintPattern(id, c, skillName, patternDescription, contextKeywords, successRate, frequency,
                     confidence, examples, antiExamples, createdAt, updatedAt))
  }

  /** A pattern with every defaulted field at its default. */
  function DefaultHintPattern(id: string, now: int): (p: HintPattern)
    ensures p.category == SuccessPattern && p.skillName == "" && p.patternDescription == ""
    ensures p.contextKeywords == [] && p.successRate == 0.0 && p.frequency == 1 && p.confidence == 0.0
    ensures p.examples == [] && p.antiExamples == [] && p.createdAt == now && p.updatedAt == now
  {
    HintPattern(id, SuccessPattern, "", "", [], 0.0, 1, 0.0, [], [], now, now)
  }

  /** The metadata of a generated hint. */
  datatype HintMetadata = HintMetadata(
    id: string,
    title: string,
    category: HintCategory,
    skillName: string,
    patternId: string,
    version: string,
    createdAt: int,
    updatedAt: int,
    usageCount: int,
    effectivenessScore: real)

  /** The constructor with its post-initialisation; fails only on an unknown
      category value. */
  function NewHintMetadata(
    id: string, title: string, category: CategoryArg, skillName: string, patternId: string,
    version: string, createdAt: int, updatedAt: int, usageCount: int, effectivenessScore: real): (r: Result<HintMetadata>)
    ensures r.Ok? <==> CoerceCategory(category).Ok?
    ensures r.Ok? ==> r.value.category == CoerceCategory(category).value
    ensures r.Ok? ==> r.value.id == id && r.value.title == title && r.value.version == version
    ensures r.Ok? ==> r.value.usageCount == usageCount && r.value.effectivenessScore == effectivenessScore
    ensures r.Ok? ==> r.value.skillName == skillName && r.value.patternId == patternId
    ensures r.Ok? ==> r.value.createdAt == createdAt && r.value.updatedAt == updatedAt
  {
    match CoerceCategory(category)
    case Raised(e) => Raised(e)
    case Ok(c) =>
      Ok(HintMetadata(id, title, c, skillName, patternId, version, createdAt, updatedAt, usageCount, effectivenessScore))
  }

  /** Metadata with every defaulted field at its default. */
  function DefaultHintMetadata(id: string, now: int): (m: HintMetadata)
    ensures m.title == "" && m.category == BestPractice && m.skillName == "" && m.patternId == ""
    ensures m.version == "1.0" && m.usageCount == 0 && m.effectivenessScore == 0.0
    ensures m.createdAt == now && m.updatedAt == now
  {
    HintMetadata(id, "", BestPractice, "", "", "1.0", now, now, 0, 0.0)
  }

  /** Building a record from a member or from its value gives the same record. */
  lemma CategoryByValueIsMember(c: HintCategory, id: string, title: string, skillName: string, patternId: string,
                                version: string, createdAt: int, updatedAt: int, usageCount: int, score: real)
    ensures NewHintMetadata(id, title, ByValue(c.Value()), skillName, patternId, version, createdAt, updatedAt, usageCount, score)
         == NewHintMetadata(id, title, Member(c), skillName, patternId, version, createdAt, updatedAt, usageCount, score)
  {
    CategoryValueRoundTrip(c);
  }

  /** The outcome of analysing an execution history. */
  datatype ExecutionAnalysisResult = ExecutionAnalysisResult(
    patterns: seq<HintPattern>,
    successPatterns: seq<HintPattern>,
    failurePatterns: seq<HintPattern>,
    improvementOpportunities: seq<string>,
    skillInsights: Metadata)

  function EmptyAnalysis(): (a: ExecutionAnalysisResult)
    ensures a.patterns == [] && a.successPatterns == [] && a.failurePatterns == []
    ensures a.improvementOpportunities == [] && a.skillInsights == map[]
  {
    ExecutionAnalysisResult([], [], [], [], map[])
  }
}
