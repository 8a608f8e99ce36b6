/**
 * The dictionaries the assistant passes between its components, as records.
 * A key that may be missing is an `Option` field (`None` when the key is absent
 * or holds Python's `None`).
 */
module Records {
  import opened Wrappers
  import opened Dicts

  /** One issue: `{"line_number", "description", "fixed"}`. */
  datatype Issue = Issue(lineNumber: Option<string>, description: string, fixed: bool)

  /**
   * The per-file analysis dictionary kept in the project context.
   * `lastModified` is `file_info["last_modified"]`; `otherKeys` records that the
   * dictionary has further keys (a timestamp, a key holding `None`), which
   * matters only for its truthiness.
   */
  datatype FileAnalysis = FileAnalysis(
    filePath: Option<string>,
    language: Option<string>,
    lastModified: Option<int>,
    standardAnalysis: Option<string>,
    securityAnalysis: Option<string>,
    performanceAnalysis: Option<string>,
    issues: Option<seq<Issue>>,
    issueCount: Option<int>,
    tokensUsed: Option<int>,
    otherKeys: bool)
  {
    /** Python truthiness of the dictionary: it has at least one key. */
    predicate Truthy() {
      filePath.Some? || language.Some? || lastModified.Some? || standardAnalysis.Some?
      || securityAnalysis.Some? || performanceAnalysis.Some? || issues.Some?
      || issueCount.Some? || tokensUsed.Some? || otherKeys
    }
  }

  /** A recommendation of the growth pass: `{"title", "description", "implemented"}`. */
  datatype Recommendation = Recommendation(title: string, description: string, implemented: bool)

  /** The result dictionary of a project analysis, as it is stored in the history. */
  datatype ProjectReport = ProjectReport(
    projectName: string,
    filesAnalyzed: int,
    totalIssues: int,
    fileAnalyses: Dict<string, FileAnalysis>,
    projectLevelAnalysis: string,
    growthRecommendations: seq<Recommendation>,
    securityOverview: string,
    totalTokens: int)
}
