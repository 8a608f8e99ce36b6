/**
 * The project context: per-file analyses, per-file notes and project-level
 * values, each an overwrite map, and the ranking of files related to a given
 * one by the issues they share.
 */
module ProjectContext {
  import opened Wrappers
  import opened Text
  import opened Json
  import opened Records
  import opened Dicts
  import Sorting

  /** The context file as it was decoded; a key that is missing is `None`. */
  datatype SavedContext = SavedContext(
    projectName: Option<string>,
    fileAnalyses: Option<Dict<string, FileAnalysis>>,
    fileContexts: Option<map<string, string>>,
    projectContext: Option<map<string, JsonValue>>)

  // ---------------------------------------------------------------------
  // Related files

  /**
   * Two descriptions are alike when the shorter one occurs in the longer one;
   * for equal lengths that means they are equal.
   */
  predicate Similar(desc: string, other: string) {
    if |desc| < |other| then Contains(other, desc) else Contains(desc, other)
  }

  /** The issues recorded for a path, `[]` when the analysis or its `issues` key is missing. */
  function IssuesOf(d: Dict<string, FileAnalysis>, path: string): seq<Issue> {
    match d.Get(path)
    case None => []
    case Some(a) => a.issues.GetOr([])
  }

  /** The non-empty descriptions among `others` that are alike to `desc`. */
  function MatchesIn(desc: string, others: seq<Issue>): nat {
    if others == [] then 0
    else
      var od := others[|others| - 1].description;
      MatchesIn(desc, others[..|others| - 1]) + (if od != "" && Similar(desc, od) then 1 else 0)
  }

  /** The `common_count` of two issue lists: alike pairs of non-empty descriptions. */
  function CommonCount(issues: seq<Issue>, others: seq<Issue>): nat {
    if issues == [] then 0
    else
      var desc := issues[|issues| - 1].description;
      CommonCount(issues[..|issues| - 1], others) + (if desc != "" then MatchesIn(desc, others) else 0)
  }

  /** `related_counts` after visiting `keys`: each other file with issues and a positive count, in order. */
  function Candidates(d: Dict<string, FileAnalysis>, keys: seq<string>, path: string, issues: seq<Issue>)
    : (r: seq<(string, nat)>)
    ensures forall k :: 0 <= k < |r| ==>
      r[k].0 in keys && r[k].0 != path && r[k].1 >= 1 && r[k].1 == CommonCount(issues, IssuesOf(d, r[k].0))
  {
    if keys == [] then []
    else
      var other := keys[|keys| - 1];
      var count := CommonCount(issues, IssuesOf(d, other));
      Candidates(d, keys[..|keys| - 1], path, issues)
      + (if other != path && IssuesOf(d, other) != [] && count > 0 then [(other, count)] else [])
  }

  function Paths(ps: seq<(string, nat)>): (r: seq<string>)
    ensures |r| == |ps| && forall k :: 0 <= k < |ps| ==> r[k] == ps[k].0
  {
    if ps == [] then [] else [ps[0].0] + Paths(ps[1..])
  }

  function Count(p: (string, nat)): int {
    p.1
  }

  /** What `get_related_files` returns for the analyses `d`. */
  function RelatedFiles(d: Dict<string, FileAnalysis>, path: string, maxFiles: int): seq<string> {
    match d.Get(path)
    case None => []
    case Some(a) =>
      if !a.Truthy() || a.issues.GetOr([]) == [] then []
      else Take(Paths(Sorting.SortDesc(Candidates(d, d.keys, path, a.issues.value), Count)), maxFiles)
  }

  /**
   * The ranking: never the file itself, only analysed files sharing at least one
   * alike issue with it, by non-increasing count, and no file twice.
   */
  ghost predicate Ranked(d: Dict<string, FileAnalysis>, path: string, issues: seq<Issue>, r: seq<string>) {
    && path !in r
    && (forall k :: 0 <= k < |r| ==> r[k] in d.entries && CommonCount(issues, IssuesOf(d, r[k])) >= 1)
    && (forall i, j :: 0 <= i < j < |r| ==>
          CommonCount(issues, IssuesOf(d, r[i])) >= CommonCount(issues, IssuesOf(d, r[j])))
    && (forall i, j :: 0 <= i < j < |r| ==> r[i] != r[j])
  }

  /**
   * `get_related_files` is empty when the file has no issues, and otherwise a
   * ranking of at most `maxFiles` files.
   */
  lemma RelatedFilesProperties(d: Dict<string, FileAnalysis>, path: string, maxFiles: int)
    requires d.Valid()
    ensures IssuesOf(d, path) == [] ==> RelatedFiles(d, path, maxFiles) == []
    ensures Ranked(d, path, IssuesOf(d, path), RelatedFiles(d, path, maxFiles))
    ensures maxFiles >= 0 ==> |RelatedFiles(d, path, maxFiles)| <= maxFiles
  {
    var r := RelatedFiles(d, path, maxFiles);
    if d.Get(path).Some? {
      var a := d.Get(path).value;
      if a.Truthy() && a.issues.GetOr([]) != [] {
        var issues := a.issues.value;
        assert issues == IssuesOf(d, path);
        var sorted := Sorting.SortDesc(Candidates(d, d.keys, path, issues), Count);
        SortedCandidates(d, path, issues);
        RankedPrefix(d, path, issues, sorted, SliceEnd(|sorted|, maxFiles));
      }
    }
  }

  /**
   * And nothing is missed: an analysed file sharing an alike issue with the
   * file is in the result, unless the result is already full of files
   * sharing at least as many.
   */
  lemma {:induction false} RelatedFilesComplete(d: Dict<string, FileAnalysis>, path: string, maxFiles: int, q: string)
    requires d.Valid()
    requires q in d.entries && q != path && CommonCount(IssuesOf(d, path), IssuesOf(d, q)) >= 1
    ensures var r := RelatedFiles(d, path, maxFiles);
      q in r
      || ((maxFiles >= 0 ==> |r| == maxFiles)
          && forall k :: 0 <= k < |r| ==>
               CommonCount(IssuesOf(d, path), IssuesOf(d, r[k])) >= CommonCount(IssuesOf(d, path), IssuesOf(d, q)))
  {
    var issues := IssuesOf(d, path);
    var c := CommonCount(issues, IssuesOf(d, q));
    CommonCountWithNone(issues);
    assert issues != [];
    var a := d.Get(path).value;
    assert a.issues.Some? && a.Truthy() && a.issues.value == issues;
    var cs := Candidates(d, d.keys, path, issues);
    CandidatesComplete(d, d.keys, path, issues, q);
    var sorted := Sorting.SortDesc(cs, Count);
    SortedCandidates(d, path, issues);
    assert (q, c) in multiset(sorted);
    var m :| 0 <= m < |sorted| && sorted[m] == (q, c);
    var n := SliceEnd(|sorted|, maxFiles);
    assert RelatedFiles(d, path, maxFiles) == Paths(sorted)[..n];
    PrefixComplete(d, path, issues, sorted, n, m);
  }

  /** In a prefix of the ranking, a file left out ranks no higher than any file kept. */
  lemma {:induction false} PrefixComplete(d: Dict<string, FileAnalysis>, path: string, issues: seq<Issue>, sorted: seq<(string, nat)>, n: nat, m: nat)
    requires RankedPairs(d, path, issues, sorted) && n <= |sorted| && m < |sorted|
    ensures var r := Paths(sorted)[..n];
      sorted[m].0 in r
      || (n <= m && forall k :: 0 <= k < |r| ==> CommonCount(issues, IssuesOf(d, r[k])) >= sorted[m].1)
  {
    var r := Paths(sorted)[..n];
    if m < n {
      assert r[m] == sorted[m].0;
    } else {
      forall k | 0 <= k < |r|
        ensures CommonCount(issues, IssuesOf(d, r[k])) >= sorted[m].1
      {
        assert r[k] == sorted[k].0;
      }
    }
  }

  /** A file with no issues shares none. */
  lemma {:induction false} CommonCountWithNone(issues: seq<Issue>)
    ensures CommonCount(issues, []) == 0
  {
    if issues != [] {
      CommonCountWithNone(issues[..|issues| - 1]);
    }
  }

  /** Every other file with issues and a positive count is a candidate. */
  lemma {:induction false} CandidatesComplete(d: Dict<string, FileAnalysis>, keys: seq<string>, path: string, issues: seq<Issue>, q: string)
    requires q in keys && q != path && IssuesOf(d, q) != [] && CommonCount(issues, IssuesOf(d, q)) >= 1
    ensures (q, CommonCount(issues, IssuesOf(d, q))) in Candidates(d, keys, path, issues)
  {
    if keys[|keys| - 1] != q {
      assert q in keys[..|keys| - 1] by {
        var i :| 0 <= i < |keys| && keys[i] == q;
        assert keys[..|keys| - 1][i] == q;
      }
      CandidatesComplete(d, keys[..|keys| - 1], path, issues, q);
    }
  }

  /** The sorted candidates satisfy the ranking. */
  ghost predicate RankedPairs(d: Dict<string, FileAnalysis>, path: string, issues: seq<Issue>, sorted: seq<(string, nat)>) {
    && (forall k :: 0 <= k < |sorted| ==>
          sorted[k].0 in d.entries && sorted[k].0 != path && sorted[k].1 >= 1
          && sorted[k].1 == CommonCount(issues, IssuesOf(d, sorted[k].0)))
    && (forall i, j :: 0 <= i < j < |sorted| ==> sorted[i].1 >= sorted[j].1)
    && KeysDistinct(sorted)
  }

  lemma RankedPrefix(d: Dict<string, FileAnalysis>, path: string, issues: seq<Issue>, sorted: seq<(string, nat)>, n: nat)
    requires RankedPairs(d, path, issues, sorted)
    requires n <= |sorted|
    ensures Ranked(d, path, issues, Paths(sorted)[..n])
  {
    var r := Paths(sorted)[..n];
    assert forall k :: 0 <= k < n ==> r[k] == sorted[k].0;
  }

  lemma SortedCandidates(d: Dict<string, FileAnalysis>, path: string, issues: seq<Issue>)
    requires d.Valid()
    ensures RankedPairs(d, path, issues, Sorting.SortDesc(Candidates(d, d.keys, path, issues), Count))
  {
    var cs := Candidates(d, d.keys, path, issues);
    var sorted := Sorting.SortDesc(cs, Count);
    CandidatesDistinct(d, d.keys, path, issues);
    forall k | 0 <= k < |sorted|
      ensures sorted[k].0 in d.entries && sorted[k].0 != path && sorted[k].1 >= 1
      ensures sorted[k].1 == CommonCount(issues, IssuesOf(d, sorted[k].0))
    {
      var m := IndexInPermutation(cs, sorted, k);
      assert cs[m].0 in d.keys;
    }
    forall i, j | 0 <= i < j < |sorted| ensures sorted[i].0 != sorted[j].0 {
      SortedKeysDistinct(cs, sorted, i, j);
    }
    forall i, j | 0 <= i < j < |sorted| ensures sorted[i].1 >= sorted[j].1 {
      assert Count(sorted[i]) >= Count(sorted[j]);
    }
  }

  ghost predicate KeysDistinct(r: seq<(string, nat)>) {
    forall i, j :: 0 <= i < j < |r| ==> r[i].0 != r[j].0
  }

  lemma {:induction false} CandidatesDistinct(d: Dict<string, FileAnalysis>, keys: seq<string>, path: string, issues: seq<Issue>)
    requires Distinct(keys)
    ensures KeysDistinct(Candidates(d, keys, path, issues))
  {
    if keys != [] {
      var init, last := keys[..|keys| - 1], keys[|keys| - 1];
      CandidatesDistinct(d, init, path, issues);
      var r0 := Candidates(d, init, path, issues);
      forall k | 0 <= k < |r0| ensures r0[k].0 != last {
        var m :| 0 <= m < |init| && init[m] == r0[k].0;
        assert keys[m] == init[m];
      }
      var r := Candidates(d, keys, path, issues);
      assert |r| > |r0| ==> |r| == |r0| + 1 && r[|r0|].0 == last;
      assert r[..|r0|] == r0;
      forall i, j | 0 <= i < j < |r| ensures r[i].0 != r[j].0 {
        assert r[i] == r0[i];
        if j < |r0| {
          assert r[j] == r0[j];
          assert r0[i].0 != r0[j].0;
        } else {
          assert j == |r0| && r[j].0 == last;
          assert r0[i].0 != last;
        }
      }
    }
  }

  lemma SortedKeysDistinct(cs: seq<(string, nat)>, sorted: seq<(string, nat)>, i: nat, j: nat)
    requires KeysDistinct(cs)
    requires multiset(sorted) == multiset(cs)
    requires i < j < |sorted|
    ensures sorted[i].0 != sorted[j].0
  {
    if sorted[i].0 == sorted[j].0 {
      assert sorted[i] in multiset(cs) && sorted[j] in multiset(cs);
      var a :| 0 <= a < |cs| && cs[a] == sorted[i];
      var b :| 0 <= b < |cs| && cs[b] == sorted[j];
      if a == b {
        assert sorted[i] == sorted[j];
        assert multiset(sorted)[sorted[i]] >= 2 by {
          assert sorted == sorted[..i] + [sorted[i]] + sorted[i + 1..j] + [sorted[j]] + sorted[j + 1..];
        }
        CountOne(cs, a);
        assert false;
      }
    }
  }

  lemma IndexInPermutation<T>(cs: seq<T>, sorted: seq<T>, k: nat) returns (m: nat)
    requires multiset(sorted) == multiset(cs)
    requires k < |sorted|
    ensures m < |cs| && cs[m] == sorted[k]
  {
    assert sorted[k] in multiset(cs);
    m :| 0 <= m < |cs| && cs[m] == sorted[k];
  }

  lemma CountOne(cs: seq<(string, nat)>, a: nat)
    requires KeysDistinct(cs)
    requires a < |cs|
    ensures multiset(cs)[cs[a]] == 1
  {
    assert cs == cs[..a] + [cs[a]] + cs[a + 1..];
  }

  /** Likeness does not depend on the order of the two descriptions. */
  lemma SimilarSymmetric(a: string, b: string)
    ensures Similar(a, b) <==> Similar(b, a)
  {
    if |a| == |b| {
      ContainsSameLength(a, b);
      ContainsSameLength(b, a);
    }
  }

  /** The outer loop of the count: every issue of the file against the other file's issues. */
  method CountCommon(issues: seq<Issue>, otherIssues: seq<Issue>) returns (common: nat)
    ensures common == CommonCount(issues, otherIssues)
  {
    common := 0;
    var a := 0;
    while a < |issues|
      invariant 0 <= a <= |issues|
      invariant common == CommonCount(issues[..a], otherIssues)
    {
      var desc := issues[a].description;
      assert issues[..a + 1][..a] == issues[..a] && issues[..a + 1][a] == issues[a];
      if desc != "" {
        var matches := CountMatches(desc, otherIssues);
        common := common + matches;
      }
      a := a + 1;
    }
    assert issues[..|issues|] == issues;
  }

  /** The inner loop of the count: the other file's non-empty descriptions alike to `desc`. */
  method CountMatches(desc: string, otherIssues: seq<Issue>) returns (matches: nat)
    ensures matches == MatchesIn(desc, otherIssues)
  {
    matches := 0;
    var b := 0;
    while b < |otherIssues|
      invariant 0 <= b <= |otherIssues|
      invariant matches == MatchesIn(desc, otherIssues[..b])
    {
      var od := otherIssues[b].description;
      assert otherIssues[..b + 1][..b] == otherIssues[..b] && otherIssues[..b + 1][b] == otherIssues[b];
      if od != "" {
        if |desc| < |od| {
          if Contains(od, desc) {
            matches := matches + 1;
          }
        } else {
          if Contains(desc, od) {
            matches := matches + 1;
          }
        }
      }
      b := b + 1;
    }
    assert otherIssues[..|otherIssues|] == otherIssues;
  }

  // ---------------------------------------------------------------------
  // The context object

  class ProjectContext {
    const projectName: string
    var fileAnalyses: Dict<string, FileAnalysis>
    var fileContexts: map<string, string>
    var projectContext: map<string, JsonValue>

    ghost predicate Valid()
      reads this
    {
      fileAnalyses.Valid()
    }

    /** A fresh context for the project directory named `projectName`. */
    constructor (projectName: string)
      ensures Valid() && this.projectName == projectName
      ensures fileAnalyses == Empty() && fileContexts == map[] && projectContext == map[]
    {
      this.projectName := projectName;
      fileAnalyses := Empty();
      fileContexts := map[];
      projectContext := map[];
    }

    /**
     * `load_or_create`: the stored maps are taken over only when the saved
     * file names this project; a missing or unreadable file (`saved` is
     * `None`) or another project's file leaves the maps empty.
     */
    constructor LoadOrCreate(projectName: string, saved: Option<SavedContext>)
      requires saved.Some? && saved.value.fileAnalyses.Some? ==> saved.value.fileAnalyses.value.Valid()
      ensures Valid() && this.projectName == projectName
      ensures saved.Some? && saved.value.projectName == Some(projectName) ==>
        && fileAnalyses == saved.value.fileAnalyses.GetOr(Empty())
        && fileContexts == saved.value.fileContexts.GetOr(map[])
        && projectContext == saved.value.projectContext.GetOr(map[])
      ensures !(saved.Some? && saved.value.projectName == Some(projectName)) ==>
        fileAnalyses == Empty() && fileContexts == map[] && projectContext == map[]
    {
      this.projectName := projectName;
      if saved.Some? && saved.value.projectName == Some(projectName) {
        fileAnalyses := saved.value.fileAnalyses.GetOr(Empty());
        fileContexts := saved.value.fileContexts.GetOr(map[]);
        projectContext := saved.value.projectContext.GetOr(map[]);
      } else {
        fileAnalyses := Empty();
        fileContexts := map[];
        projectContext := map[];
      }
    }

    /** `get_file_analysis`: the last analysis stored for the path, or `None`. */
    function GetFileAnalysis(path: string): (r: Option<FileAnalysis>)
      reads this
      ensures r.Some? <==> path in fileAnalyses.entries
      ensures r.Some? ==> r.value == fileAnalyses.entries[path]
    {
      fileAnalyses.Get(path)
    }

    /** `update_file_analysis`: overwrites the entry for `path` and no other. */
    method UpdateFileAnalysis(path: string, analysis: FileAnalysis)
      requires Valid()
      modifies this
      ensures Valid()
      ensures fileAnalyses == Put(old(fileAnalyses), path, analysis)
      ensures GetFileAnalysis(path) == Some(analysis)
      ensures forall q :: q != path ==> GetFileAnalysis(q) == old(GetFileAnalysis(q))
      ensures fileContexts == old(fileContexts) && projectContext == old(projectContext)
    {
      fileAnalyses := Put(fileAnalyses, path, analysis);
    }

    /** `get_file_context` */
    function GetFileContext(path: string): (r: Option<string>)
      reads this
      ensures r.Some? <==> path in fileContexts
      ensures r.Some? ==> r.value == fileContexts[path]
    {
      if path in fileContexts then Some(fileContexts[path]) else None
    }

    /** `update_file_context`: overwrites the note for `path` and no other. */
    method UpdateFileContext(path: string, context: string)
      modifies this
      ensures fileContexts == old(fileContexts)[path := context]
      ensures GetFileContext(path) == Some(context)
      ensures forall q :: q != path ==> GetFileContext(q) == old(GetFileContext(q))
      ensures fileAnalyses == old(fileAnalyses) && projectContext == old(projectContext)
    {
      fileContexts := fileContexts[path := context];
    }

    /** `get_project_context` */
    function GetProjectContext(key: string): (r: Option<JsonValue>)
      reads this
      ensures r.Some? <==> key in projectContext
      ensures r.Some? ==> r.value == projectContext[key]
    {
      if key in projectContext then Some(projectContext[key]) else None
    }

    /** `update_project_context`: overwrites the value under `key` and no other. */
    method UpdateProjectContext(key: string, value: JsonValue)
      modifies this
      ensures projectContext == old(projectContext)[key := value]
      ensures GetProjectContext(key) == Some(value)
      ensures forall q :: q != key ==> GetProjectContext(q) == old(GetProjectContext(q))
      ensures fileAnalyses == old(fileAnalyses) && fileContexts == old(fileContexts)
    {
      projectContext := projectContext[key := value];
    }

    /** `get_all_file_paths`: every analysed path once, in insertion order. */
    function GetAllFilePaths(): (paths: seq<string>)
      reads this
      requires Valid()
      ensures forall p :: p in paths <==> GetFileAnalysis(p).Some?
      ensures Distinct(paths)
    {
      fileAnalyses.keys
    }

    /**
     * `get_related_files`: the other files ranked by how many alike issue
     * descriptions they share with `path` (see `RelatedFilesProperties`).
     */
    method GetRelatedFiles(path: string, maxFiles: int) returns (related: seq<string>)
      requires Valid()
      ensures related == RelatedFiles(fileAnalyses, path, maxFiles)
    {
      var analysis := GetFileAnalysis(path);
      if analysis.None? || !analysis.value.Truthy() {
        return [];
      }
      var issues := analysis.value.issues.GetOr([]);
      if issues == [] {
        return [];
      }
      var keys := fileAnalyses.keys;
      var counts: seq<(string, nat)> := [];
      var i := 0;
      while i < |keys|
        invariant 0 <= i <= |keys|
        invariant counts == Candidates(fileAnalyses, keys[..i], path, issues)
      {
        var other := keys[i];
        assert keys[..i + 1][..i] == keys[..i] && keys[..i + 1][i] == other;
        var otherIssues := fileAnalyses.entries[other].issues.GetOr([]);
        assert otherIssues == IssuesOf(fileAnalyses, other);
        if other != path && otherIssues != [] {
          var common := CountCommon(issues, otherIssues);
          if common > 0 {
            counts := counts + [(other, common)];
          }
        }
        i := i + 1;
      }
      assert keys[..|keys|] == keys;
      var sorted := Sorting.SortDesc(counts, Count);
      related := Take(Paths(sorted), maxFiles);
    }
  }
}
