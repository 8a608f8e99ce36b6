/**
 * The code analyzer: reads issues out of the backend's analysis texts, runs
 * one to three analysis passes per file depending on its size, reuses cached
 * analyses of unmodified files, and aggregates a project report.
 */
module CodeAnalyzer {
  import opened Wrappers
  import opened Text
  import opened Records
  import opened Dicts
  import opened IssuePatterns
  import Sorting
  import FileService
  import LlmService
  import ProjectContext
  import AnalysisStore

  // ---------------------------------------------------------------------
  // `_extract_issues`: the pattern stage

  /** The issue a match contributes: the stripped description group, not fixed. */
  function IssueOf(m: Match): Issue {
    Issue(m.lineNumber, Strip(m.group), false)
  }

  function IssuesOf(ms: seq<Match>): (r: seq<Issue>)
    ensures |r| == |ms|
  {
    seq(|ms|, k requires 0 <= k < |ms| => IssueOf(ms[k]))
  }

  /** Every match of the patterns `ps`, pattern by pattern, each in text order. */
  function Candidates(ps: seq<Pattern>, t: string): seq<Issue> {
    if ps == [] then [] else IssuesOf(Scan(ps[0], t, 0)) + Candidates(ps[1..], t)
  }

  predicate HasDescription(issues: seq<Issue>, d: string) {
    exists k :: 0 <= k < |issues| && issues[k].description == d
  }

  /** One candidate: kept when its description has at least ten characters and is new. */
  function Keep(acc: seq<Issue>, c: Issue): seq<Issue> {
    if |c.description| >= 10 && !HasDescription(acc, c.description) then acc + [c] else acc
  }

  /** The candidates kept after `acc`, in order. */
  function Absorb(acc: seq<Issue>, cands: seq<Issue>): seq<Issue>
    decreases |cands|
  {
    if cands == [] then acc else Absorb(Keep(acc, cands[0]), cands[1..])
  }

  /** The issues the pattern stage finds in `t`. */
  function PatternIssues(t: string): seq<Issue> {
    Absorb([], Candidates(Patterns, t))
  }

  // ---------------------------------------------------------------------
  // `_extract_issues`: the line fallback

  /** The fallback keeps a stripped line longer than 20 characters that is neither a heading nor a fence. */
  predicate Qualifies(line: string) {
    |line| > 20 && !StartsWith(line, "#") && !StartsWith(line, "```")
  }

  /** `[line.strip() for line in lines if line.strip()]` */
  function NonEmptyStripped(lines: seq<string>): seq<string> {
    if lines == [] then []
    else
      var s := Strip(lines[0]);
      if s != "" then [s] + NonEmptyStripped(lines[1..]) else NonEmptyStripped(lines[1..])
  }

  predicate StripsTo(line: string, s: string) {
    Strip(line) == s
  }

  lemma {:induction false} NonEmptyStrippedAre(lines: seq<string>)
    ensures forall s :: s in NonEmptyStripped(lines) <==> s != "" && exists line :: line in lines && StripsTo(line, s)
  {
    if lines != [] {
      NonEmptyStrippedAre(lines[1..]);
      assert lines == [lines[0]] + lines[1..];
      assert StripsTo(lines[0], Strip(lines[0]));
    }
  }

  /** One issue, without line number, per qualifying line. */
  function FallbackIssues(lines: seq<string>): seq<Issue> {
    if lines == [] then []
    else (if Qualifies(lines[0]) then [Issue(None, lines[0], false)] else []) + FallbackIssues(lines[1..])
  }

  lemma {:induction false} FallbackIssuesAre(lines: seq<string>)
    ensures forall x :: x in FallbackIssues(lines) <==> x.lineNumber.None? && !x.fixed && x.description in lines && Qualifies(x.description)
  {
    if lines != [] {
      FallbackIssuesAre(lines[1..]);
      assert lines == [lines[0]] + lines[1..];
    }
  }

  /** `_extract_issues`: the pattern stage, or the line fallback when it found nothing in a text mentioning "issue". */
  function ExtractedIssues(text: Option<string>): seq<Issue> {
    if text.None? || text.value == "" then []
    else
      var found := PatternIssues(text.value);
      if found == [] && Contains(Lower(text.value), "issue") then FallbackIssues(NonEmptyStripped(Split(text.value, '\n')))
      else found
  }

  // ---------------------------------------------------------------------
  // What the extraction promises

  predicate LongDescriptions(issues: seq<Issue>) {
    forall k :: 0 <= k < |issues| ==> |issues[k].description| >= 10
  }

  predicate DistinctDescriptions(issues: seq<Issue>) {
    forall i, j :: 0 <= i < j < |issues| ==> issues[i].description != issues[j].description
  }

  /** `xs` is `ys` with some elements left out. */
  ghost predicate Subsequence<T>(xs: seq<T>, ys: seq<T>)
    decreases |ys|
  {
    xs == [] || (ys != [] && ((xs[0] == ys[0] && Subsequence(xs[1..], ys[1..])) || Subsequence(xs, ys[1..])))
  }

  /** `x` occurs in `cands`, and no earlier candidate has its description. */
  ghost predicate FirstWithDescription(cands: seq<Issue>, x: Issue) {
    exists j :: 0 <= j < |cands| && cands[j] == x && forall i :: 0 <= i < j ==> cands[i].description != x.description
  }

  lemma KeepProperties(acc: seq<Issue>, c: Issue)
    requires LongDescriptions(acc) && DistinctDescriptions(acc)
    ensures LongDescriptions(Keep(acc, c)) && DistinctDescriptions(Keep(acc, c))
    ensures HasDescription(acc, c.description) ==> Keep(acc, c) == acc
  {
  }

  lemma HasDescriptionPrefix(acc: seq<Issue>, r: seq<Issue>, d: string)
    requires |acc| <= |r| && r[..|acc|] == acc
    requires HasDescription(acc, d)
    ensures HasDescription(r, d)
  {
    var k :| 0 <= k < |acc| && acc[k].description == d;
    assert r[k] == acc[k];
  }

  /**
   * The pattern stage only appends: what it had stays in front, descriptions
   * stay long and distinct, and the new issues are a subsequence of the
   * candidates.
   */
  lemma {:induction false} AbsorbShape(acc: seq<Issue>, cands: seq<Issue>)
    requires LongDescriptions(acc) && DistinctDescriptions(acc)
    ensures var r := Absorb(acc, cands);
      && LongDescriptions(r) && DistinctDescriptions(r)
      && |acc| <= |r| && r[..|acc|] == acc
      && Subsequence(r[|acc|..], cands)
    decreases |cands|
  {
    if cands != [] {
      var c := cands[0];
      var acc' := Keep(acc, c);
      KeepProperties(acc, c);
      AbsorbShape(acc', cands[1..]);
      var r := Absorb(acc', cands[1..]);
      assert r[..|acc|] == acc by {
        assert acc'[..|acc|] == acc;
        assert r[..|acc'|][..|acc|] == r[..|acc|];
      }
      if acc' == acc + [c] {
        assert r[|acc|..] == [c] + r[|acc'|..];
        assert r[|acc|..][1..] == r[|acc'|..];
      }
    }
  }

  /** Every candidate of at least ten characters has its description among the issues kept. */
  lemma {:induction false} AbsorbCovers(acc: seq<Issue>, cands: seq<Issue>)
    requires LongDescriptions(acc) && DistinctDescriptions(acc)
    ensures forall k :: 0 <= k < |cands| && |cands[k].description| >= 10 ==> HasDescription(Absorb(acc, cands), cands[k].description)
    decreases |cands|
  {
    if cands != [] {
      var c := cands[0];
      var acc' := Keep(acc, c);
      KeepProperties(acc, c);
      AbsorbCovers(acc', cands[1..]);
      AbsorbShape(acc', cands[1..]);
      var r := Absorb(acc', cands[1..]);
      if |c.description| >= 10 {
        assert HasDescription(acc', c.description) by {
          if acc' == acc + [c] {
            assert acc'[|acc|] == c;
          } else {
            HasDescriptionPrefix(acc, acc', c.description);
          }
        }
        HasDescriptionPrefix(acc', r, c.description);
      }
      forall k | 1 <= k < |cands| ensures cands[k] == cands[1..][k - 1] {}
    }
  }

  /** Each issue the stage adds is the first candidate with its description, and that description was new. */
  lemma {:induction false} AbsorbFirst(acc: seq<Issue>, cands: seq<Issue>)
    requires LongDescriptions(acc) && DistinctDescriptions(acc)
    ensures var r := Absorb(acc, cands);
      forall k :: |acc| <= k < |r| ==> !HasDescription(acc, r[k].description) && FirstWithDescription(cands, r[k])
    decreases |cands|
  {
    if cands != [] {
      var c := cands[0];
      var acc' := Keep(acc, c);
      KeepProperties(acc, c);
      AbsorbFirst(acc', cands[1..]);
      AbsorbShape(acc', cands[1..]);
      var r := Absorb(acc', cands[1..]);
      forall k | |acc| <= k < |r|
        ensures !HasDescription(acc, r[k].description) && FirstWithDescription(cands, r[k])
      {
        if acc' == acc + [c] && k == |acc| {
          assert r[k] == acc'[k] == c;
        } else {
          var x := r[k];
          assert !HasDescription(acc', x.description);
          if HasDescription(acc, x.description) {
            HasDescriptionPrefix(acc, acc', x.description);
          }
          var j :| 0 <= j < |cands[1..]| && cands[1..][j] == x
            && forall i :: 0 <= i < j ==> cands[1..][i].description != x.description;
          assert c.description != x.description by {
            if acc' == acc + [c] {
              assert acc'[|acc|] == c;
            } else if |c.description| >= 10 {
              assert HasDescription(acc, c.description);
            }
          }
          assert cands[j + 1] == x;
          forall i | 1 <= i < j + 1 ensures cands[i].description != x.description {
            assert cands[i] == cands[1..][i - 1];
          }
        }
      }
    }
  }

  lemma {:induction false} AbsorbAppend(acc: seq<Issue>, a: seq<Issue>, b: seq<Issue>)
    ensures Absorb(acc, a + b) == Absorb(Absorb(acc, a), b)
    decreases |a|
  {
    if a == [] {
      assert a + b == b;
    } else {
      assert (a + b)[0] == a[0] && (a + b)[1..] == a[1..] + b;
      AbsorbAppend(Keep(acc, a[0]), a[1..], b);
    }
  }

  /** The line numbers the patterns capture are `n` or `n-m`, and only the LineNumber pattern captures one. */
  lemma {:induction false} CandidateLineNumbers(ps: seq<Pattern>, t: string)
    ensures forall x :: x in Candidates(ps, t) ==> !x.fixed && (x.lineNumber.Some? ==> IsLineRange(x.lineNumber.value))
    ensures LineNumber !in ps ==> forall x :: x in Candidates(ps, t) ==> x.lineNumber.None?
  {
    if ps != [] {
      CandidateLineNumbers(ps[1..], t);
      var ms := Scan(ps[0], t, 0);
      forall x | x in IssuesOf(ms)
        ensures !x.fixed && (x.lineNumber.Some? ==> IsLineRange(x.lineNumber.value))
        ensures ps[0] != LineNumber ==> x.lineNumber.None?
      {
        var k :| 0 <= k < |ms| && IssuesOf(ms)[k] == x;
      }
    }
  }

  /**
   * What `_extract_issues` returns:
   *  - nothing for `None` or the empty text;
   *  - every issue is not fixed, and carries a line number only when the
   *    LineNumber pattern produced it, and then an `n` or `n-m` range;
   *  - when some match has a description of ten characters or more, exactly
   *    the pattern stage: long, distinct descriptions, one per description of
   *    a long match, the first match with it, in match order;
   *  - otherwise, in a text that mentions "issue", the qualifying stripped
   *    lines, each as an issue without line number; else nothing.
   */
  lemma {:induction false} ExtractedIssuesProperties(text: Option<string>)
    ensures text.None? || text == Some("") ==> ExtractedIssues(text) == []
    ensures forall x :: x in ExtractedIssues(text) ==> !x.fixed && (x.lineNumber.Some? ==> IsLineRange(x.lineNumber.value))
    ensures text.Some? && text.value != "" ==>
      var t := text.value;
      var cands := Candidates(Patterns, t);
      var r := ExtractedIssues(text);
      if exists k :: 0 <= k < |cands| && |cands[k].description| >= 10 then
        && r == PatternIssues(t)
        && LongDescriptions(r) && DistinctDescriptions(r)
        && (forall k :: 0 <= k < |cands| && |cands[k].description| >= 10 ==> HasDescription(r, cands[k].description))
        && (forall x :: x in r ==> FirstWithDescription(cands, x))
        && Subsequence(r, cands)
      else if Contains(Lower(t), "issue") then
        forall x :: x in r <==> (x.lineNumber.None? && !x.fixed && Qualifies(x.description)
          && exists line :: line in Split(t, '\n') && StripsTo(line, x.description))
      else r == []
  {
    if text.Some? && text.value != "" {
      var t := text.value;
      var cands := Candidates(Patterns, t);
      AbsorbShape([], cands);
      AbsorbCovers([], cands);
      AbsorbFirst([], cands);
      CandidateLineNumbers(Patterns, t);
      var found := PatternIssues(t);
      assert found[0..] == found;
      forall x | x in found ensures x in cands {
        var k :| 0 <= k < |found| && found[k] == x;
        assert FirstWithDescription(cands, found[k]);
      }
      if exists k :: 0 <= k < |cands| && |cands[k].description| >= 10 {
        var k :| 0 <= k < |cands| && |cands[k].description| >= 10;
        assert HasDescription(found, cands[k].description);
      } else {
        if Contains(Lower(t), "issue") {
          FallbackLines(t);
        }
      }
    }
  }

  lemma FallbackLines(t: string)
    ensures forall x :: x in FallbackIssues(NonEmptyStripped(Split(t, '\n'))) <==> (x.lineNumber.None? && !x.fixed && Qualifies(x.description)
      && exists line :: line in Split(t, '\n') && StripsTo(line, x.description))
  {
    var lines := Split(t, '\n');
    FallbackIssuesAre(NonEmptyStripped(lines));
    NonEmptyStrippedAre(lines);
  }

  lemma ScanStep(p: Pattern, t: string, i: nat)
    requires i < |t|
    ensures MatchAt(p, t, i).None? ==> Scan(p, t, i) == Scan(p, t, i + 1)
    ensures MatchAt(p, t, i).Some? ==> Scan(p, t, i) == [MatchAt(p, t, i).value] + Scan(p, t, MatchAt(p, t, i).value.end)
  {
  }

  lemma AbsorbCons(acc: seq<Issue>, c: Issue, rest: seq<Issue>)
    ensures Absorb(acc, [c] + rest) == Absorb(Keep(acc, c), rest)
  {
    assert ([c] + rest)[0] == c && ([c] + rest)[1..] == rest;
  }

  lemma IssuesOfCons(m: Match, rest: seq<Match>)
    ensures IssuesOf([m] + rest) == [IssueOf(m)] + IssuesOf(rest)
  {
  }

  /** Appends the issue of one match unless its description is short or already present. */
  method AddIssue(issues: seq<Issue>, issue: Issue) returns (r: seq<Issue>)
    ensures r == Keep(issues, issue)
  {
    r := issues;
    if |issue.description| >= 10 && !HasDescription(issues, issue.description) {
      r := issues + [issue];
    }
  }

  /** The pattern stage for one pattern: every match of `p` in `t`, in order, through `Keep`. */
  method AbsorbMatches(issues: seq<Issue>, p: Pattern, t: string) returns (r: seq<Issue>)
    ensures r == Absorb(issues, IssuesOf(Scan(p, t, 0)))
  {
    r := issues;
    var i := 0;
    while i < |t|
      invariant 0 <= i <= |t|
      invariant Absorb(r, IssuesOf(Scan(p, t, i))) == Absorb(issues, IssuesOf(Scan(p, t, 0)))
      decreases |t| - i
    {
      var m, next := NextMatch(p, t, i);
      if m.Some? {
        IssuesOfCons(m.value, Scan(p, t, next));
        AbsorbCons(r, IssueOf(m.value), IssuesOf(Scan(p, t, next)));
        r := AddIssue(r, IssueOf(m.value));
      }
      i := next;
    }
  }

  /** One step of `re.finditer` from `i`: the match there, if any, and where the scan resumes. */
  method NextMatch(p: Pattern, t: string, i: nat) returns (m: Option<Match>, next: nat)
    requires i < |t|
    ensures i < next <= |t|
    ensures m.None? ==> Scan(p, t, i) == Scan(p, t, next)
    ensures m.Some? ==> Scan(p, t, i) == [m.value] + Scan(p, t, next)
  {
    m := MatchAt(p, t, i);
    ScanStep(p, t, i);
    next := if m.None? then i + 1 else m.value.end;
  }

  /** `[line.strip() for line in all if line.strip()]` */
  method StrippedLines(all: seq<string>) returns (lines: seq<string>)
    ensures lines == NonEmptyStripped(all)
  {
    lines := [];
    var j := 0;
    while j < |all|
      invariant 0 <= j <= |all|
      invariant lines + NonEmptyStripped(all[j..]) == NonEmptyStripped(all)
    {
      assert all[j..][1..] == all[j + 1..];
      var s := Strip(all[j]);
      if s != "" {
        lines := lines + [s];
      }
      j := j + 1;
    }
    assert all[j..] == [];
    assert lines + [] == lines;
  }

  /** The line fallback: one issue per stripped line that qualifies. */
  method Fallback(lines: seq<string>) returns (issues: seq<Issue>)
    ensures issues == FallbackIssues(lines)
  {
    issues := [];
    var k := 0;
    while k < |lines|
      invariant 0 <= k <= |lines|
      invariant issues + FallbackIssues(lines[k..]) == FallbackIssues(lines)
    {
      assert lines[k..][1..] == lines[k + 1..];
      var line := lines[k];
      if |line| > 20 && !StartsWith(line, "#") && !StartsWith(line, "```") {
        issues := issues + [Issue(None, line, false)];
      }
      k := k + 1;
    }
    assert lines[k..] == [];
    assert issues + [] == issues;
  }

  /** One turn of the loop over the patterns: the matches of pattern `n` are absorbed before those of the later patterns. */
  lemma PatternStep(issues: seq<Issue>, n: nat, t: string)
    requires n < |Patterns| && Absorb(issues, Candidates(Patterns[n..], t)) == PatternIssues(t)
    ensures Absorb(Absorb(issues, IssuesOf(Scan(Patterns[n], t, 0))), Candidates(Patterns[n + 1..], t)) == PatternIssues(t)
  {
    assert Patterns[n..][1..] == Patterns[n + 1..];
    assert Candidates(Patterns[n..], t) == IssuesOf(Scan(Patterns[n], t, 0)) + Candidates(Patterns[n + 1..], t);
    AbsorbAppend(issues, IssuesOf(Scan(Patterns[n], t, 0)), Candidates(Patterns[n + 1..], t));
  }

  /**
   * `_extract_issues` as the source runs it: the five patterns in turn, each
   * match's stripped description kept when it is at least ten characters
   * long and not yet present; then the line fallback.
   */
  method ExtractIssues(analysisText: Option<string>) returns (issues: seq<Issue>)
    ensures issues == ExtractedIssues(analysisText)
  {
    if analysisText.None? || analysisText.value == "" {
      return [];
    }
    var t := analysisText.value;
    issues := [];
    var n := 0;
    while n < |Patterns|
      invariant 0 <= n <= |Patterns|
      invariant Absorb(issues, Candidates(Patterns[n..], t)) == PatternIssues(t)
    {
      PatternStep(issues, n, t);
      issues := AbsorbMatches(issues, Patterns[n], t);
      n := n + 1;
    }
    assert Patterns[|Patterns|..] == [];
    if issues == [] && Contains(Lower(t), "issue") {
      var lines := StrippedLines(Split(t, '\n'));
      issues := Fallback(lines);
    }
  }

  // ---------------------------------------------------------------------
  // `_count_issues`

  /** `_count_issues`: 0 for an empty analysis, else the length of its issue list, else its `issue_count`, else 0. */
  function CountIssues(a: FileAnalysis): int {
    if !a.Truthy() then 0
    else if a.issues.Some? then |a.issues.value|
    else a.issueCount.GetOr(0)
  }

  // ---------------------------------------------------------------------
  // `_analyze_file`

  /** The characters `str.splitlines` breaks at, on ASCII: \n, \r, \v, \f and 0x1C to 0x1E. */
  predicate IsLineBoundary(c: char) {
    c == '\n' || c == '\r' || c == '\U{000B}' || c == '\U{000C}' || '\U{001C}' <= c <= '\U{001E}'
  }

  /** The first line boundary at or after `i`, or `|s|`. */
  function BoundaryFrom(s: string, i: nat): (j: nat)
    requires i <= |s|
    ensures i <= j <= |s|
    ensures j < |s| ==> IsLineBoundary(s[j])
    ensures forall k :: i <= k < j ==> !IsLineBoundary(s[k])
    decreases |s| - i
  {
    if i == |s| || IsLineBoundary(s[i]) then i else BoundaryFrom(s, i + 1)
  }

  /** `len(s[i:].splitlines())`: "\r\n" is one break, and a break at the very end opens no further line. */
  function LinesFrom(s: string, i: nat): nat
    requires i <= |s|
    decreases |s| - i
  {
    if i == |s| then 0
    else
      var j := BoundaryFrom(s, i);
      if j == |s| then 1
      else 1 + LinesFrom(s, if s[j] == '\r' && j + 1 < |s| && s[j + 1] == '\n' then j + 2 else j + 1)
  }

  function LineCount(s: string): nat {
    LinesFrom(s, 0)
  }

  predicate NoLineBoundary(s: string) {
    forall k :: 0 <= k < |s| ==> !IsLineBoundary(s[k])
  }

  lemma BoundaryShift(p: string, b: string, i: nat)
    requires i <= |b|
    ensures BoundaryFrom(p + b, |p| + i) == |p| + BoundaryFrom(b, i)
  {
    var t := p + b;
    var j := BoundaryFrom(b, i);
    forall k | |p| + i <= k < |p| + j
      ensures !IsLineBoundary(t[k])
    {
      assert t[k] == b[k - |p|];
    }
    if j < |b| {
      assert t[|p| + j] == b[j];
    }
  }

  lemma {:induction false} LinesShift(p: string, b: string, i: nat)
    requires i <= |b|
    ensures LinesFrom(p + b, |p| + i) == LinesFrom(b, i)
    decreases |b| - i
  {
    var t := p + b;
    if i < |b| {
      BoundaryShift(p, b, i);
      var j := BoundaryFrom(b, i);
      if j < |b| {
        assert t[|p| + j] == b[j];
        if j + 1 < |b| {
          assert t[|p| + j + 1] == b[j + 1];
        }
        var next := if b[j] == '\r' && j + 1 < |b| && b[j + 1] == '\n' then j + 2 else j + 1;
        LinesShift(p, b, next);
      }
    }
  }

  /** Lines without breaks, the last one not empty, joined with "\n": `splitlines` gives exactly as many back. */
  lemma {:induction false} LineCountOfLines(lines: seq<string>)
    requires |lines| >= 1 && lines[|lines| - 1] != ""
    requires forall k :: 0 <= k < |lines| ==> NoLineBoundary(lines[k])
    ensures LineCount(Join(lines, "\n")) == |lines|
    decreases |lines|
  {
    var a := lines[0];
    if |lines| == 1 {
      assert Join(lines, "\n") == a;
      assert BoundaryFrom(a, 0) == |a|;
    } else {
      var rest := Join(lines[1..], "\n");
      var t := Join(lines, "\n");
      assert t == (a + "\n") + rest;
      LineCountOfLines(lines[1..]);
      assert t[|a|] == '\n';
      assert BoundaryFrom(t, 0) == |a| by {
        forall k | 0 <= k < |a| ensures !IsLineBoundary(t[k]) {
          assert t[k] == a[k];
        }
      }
      LinesShift(a + "\n", rest, 0);
      if |a| + 1 < |t| {
        assert t[|a|] != '\r';
      }
    }
  }

  /** The three analysis passes. */
  datatype Pass = Standard | Security | Performance

  /** A file gets the security pass when it has more lines than this. */
  const SecurityLines := 20

  /** A file gets the performance pass when it has more lines than this. */
  const PerformanceLines := 50

  function PassText(a: Option<(string, int)>): Option<string> {
    if a.Some? then Some(a.value.0) else None
  }

  function PassTokens(a: Option<(string, int)>): int {
    if a.Some? then a.value.1 else 0
  }

  /** One request counts in the backend's statistics when a reply came back. */
  function Requests(o: LlmService.Outcome): nat {
    if o.Generated? then 1 else 0
  }

  /**
   * The analysis `_analyze_file` builds for a file, `reply(path, pass)` being
   * what the backend answers to that pass; `mtime` is the file's
   * modification time as recorded in its file info.
   */
  function FreshAnalysis(path: string, language: string, content: string, mtime: Option<int>, reply: (string, Pass) -> LlmService.Outcome): FileAnalysis {
    var n := LineCount(content);
    AnalysisOf(path, language, mtime, Some(LlmService.Answer(reply(path, Standard))),
      if n > SecurityLines then Some(LlmService.Answer(reply(path, Security))) else None,
      if n > PerformanceLines then Some(LlmService.Answer(reply(path, Performance))) else None)
  }

  /** The analysis record built from the answers (text and tokens) of the passes that ran. */
  function AnalysisOf(path: string, language: string, mtime: Option<int>,
                      standard: Option<(string, int)>, security: Option<(string, int)>, performance: Option<(string, int)>): FileAnalysis {
    var issues := ExtractedIssues(PassText(standard)) + ExtractedIssues(PassText(security)) + ExtractedIssues(PassText(performance));
    FileAnalysis(Some(path), Some(language), mtime, PassText(standard), PassText(security), PassText(performance),
      Some(issues), Some(|issues|), Some(PassTokens(standard) + PassTokens(security) + PassTokens(performance)), true)
  }

  /** The record built from the pass answers, with the issues of each pass extracted beforehand. */
  lemma AnalysisOfIssues(path: string, language: string, mtime: Option<int>,
                         standard: Option<(string, int)>, security: Option<(string, int)>, performance: Option<(string, int)>,
                         standardIssues: seq<Issue>, securityIssues: seq<Issue>, performanceIssues: seq<Issue>)
    requires standardIssues == ExtractedIssues(PassText(standard))
    requires securityIssues == ExtractedIssues(PassText(security))
    requires performanceIssues == ExtractedIssues(PassText(performance))
    ensures var all := standardIssues + securityIssues + performanceIssues;
      AnalysisOf(path, language, mtime, standard, security, performance)
      == FileAnalysis(Some(path), Some(language), mtime, PassText(standard), PassText(security), PassText(performance),
        Some(all), Some(|all|), Some(PassTokens(standard) + PassTokens(security) + PassTokens(performance)), true)
  {
  }

  /** The record of `_analyze_file` built from the pass answers, the issues of each pass extracted in turn. */
  method BuildAnalysis(path: string, language: string, mtime: Option<int>,
                       standard: Option<(string, int)>, security: Option<(string, int)>, performance: Option<(string, int)>)
    returns (analysis: FileAnalysis)
    ensures analysis == AnalysisOf(path, language, mtime, standard, security, performance)
    ensures analysis.tokensUsed == Some(PassTokens(standard) + PassTokens(security) + PassTokens(performance))
  {
    var issues := ExtractIssues(PassText(standard));
    var securityIssues := ExtractIssues(PassText(security));
    var performanceIssues := ExtractIssues(PassText(performance));
    var all := issues + securityIssues + performanceIssues;
    analysis := FileAnalysis(Some(path), Some(language), mtime, PassText(standard), PassText(security), PassText(performance),
      Some(all), Some(|all|), Some(PassTokens(standard) + PassTokens(security) + PassTokens(performance)), true);
    AnalysisOfIssues(path, language, mtime, standard, security, performance, issues, securityIssues, performanceIssues);
  }

  /** A fresh analysis is the record built from the answers of the passes its line count selects. */
  lemma FreshAnalysisOfPasses(path: string, language: string, content: string, mtime: Option<int>, reply: (string, Pass) -> LlmService.Outcome,
                              standard: Option<(string, int)>, security: Option<(string, int)>, performance: Option<(string, int)>)
    requires standard == Some(LlmService.Answer(reply(path, Standard)))
    requires security == if LineCount(content) > SecurityLines then Some(LlmService.Answer(reply(path, Security))) else None
    requires performance == if LineCount(content) > PerformanceLines then Some(LlmService.Answer(reply(path, Performance))) else None
    ensures FreshAnalysis(path, language, content, mtime, reply) == AnalysisOf(path, language, mtime, standard, security, performance)
  {
  }

  /** The backend requests of `_analyze_file` that count in the backend's statistics. */
  function AnalysisRequests(path: string, content: string, reply: (string, Pass) -> LlmService.Outcome): nat {
    var n := LineCount(content);
    Requests(reply(path, Standard))
      + (if n > SecurityLines then Requests(reply(path, Security)) else 0)
      + (if n > PerformanceLines then Requests(reply(path, Performance)) else 0)
  }

  /**
   * A fresh analysis runs the security pass iff the file has more than 20
   * lines and the performance pass iff it has more than 50; its issues are
   * those of the standard, security and performance texts in that order, it
   * counts as many issues as it lists, and its tokens are the sum over the
   * passes that ran.
   */
  lemma FreshAnalysisProperties(path: string, language: string, content: string, mtime: Option<int>, reply: (string, Pass) -> LlmService.Outcome)
    ensures var a := FreshAnalysis(path, language, content, mtime, reply);
      && (a.securityAnalysis.Some? <==> LineCount(content) > 20)
      && (a.performanceAnalysis.Some? <==> LineCount(content) > 50)
      && (a.performanceAnalysis.Some? ==> a.securityAnalysis.Some?)
      && a.issues == Some(ExtractedIssues(a.standardAnalysis) + ExtractedIssues(a.securityAnalysis) + ExtractedIssues(a.performanceAnalysis))
      && CountIssues(a) == |a.issues.value| && a.issueCount == Some(CountIssues(a))
      && a.tokensUsed == Some(LlmService.Answer(reply(path, Standard)).1
        + (if a.securityAnalysis.Some? then LlmService.Answer(reply(path, Security)).1 else 0)
        + (if a.performanceAnalysis.Some? then LlmService.Answer(reply(path, Performance)).1 else 0))
      && (forall x :: x in a.issues.value ==> !x.fixed)
  {
    var a := FreshAnalysis(path, language, content, mtime, reply);
    ExtractedIssuesProperties(a.standardAnalysis);
    ExtractedIssuesProperties(a.securityAnalysis);
    ExtractedIssuesProperties(a.performanceAnalysis);
  }

  // ---------------------------------------------------------------------
  // `_generate_project_analysis`

  /** Descriptions longer than this are cut to it and marked with "..." before they are counted. */
  const MaxDescription := 200

  function Truncated(d: string): string {
    if |d| > MaxDescription then d[..MaxDescription] + "..." else d
  }

  /** The analyses of a dict, in its key order (`file_analyses.values()`). */
  function Values(d: Dict<string, FileAnalysis>): (r: seq<FileAnalysis>)
    requires d.Valid()
    ensures |r| == |d.keys|
  {
    seq(|d.keys|, k requires 0 <= k < |d.keys| && d.Valid() => d.entries[d.keys[k]])
  }

  /** The issues of every analysis that lists them, in order. */
  function AllIssues(values: seq<FileAnalysis>): seq<Issue> {
    if values == [] then []
    else AllIssues(values[..|values| - 1]) + values[|values| - 1].issues.GetOr([])
  }

  /** The sum of `_count_issues` over the analyses. */
  function SumCounts(values: seq<FileAnalysis>): int {
    if values == [] then 0
    else SumCounts(values[..|values| - 1]) + CountIssues(values[|values| - 1])
  }

  /** How many of the issues have `d` as their truncated description. */
  function Occurrences(issues: seq<Issue>, d: string): nat {
    if issues == [] then 0
    else Occurrences(issues[..|issues| - 1], d) + (if Truncated(issues[|issues| - 1].description) == d then 1 else 0)
  }

  function Bump(freq: Dict<string, nat>, d: string): (r: Dict<string, nat>)
    requires freq.Valid()
    ensures r.Valid()
  {
    Put(freq, d, freq.Get(d).GetOr(0) + 1)
  }

  /** The frequency dict: one key per truncated description, first seen first. */
  function Tally(issues: seq<Issue>): (r: Dict<string, nat>)
    ensures r.Valid()
  {
    if issues == [] then Empty()
    else Bump(Tally(issues[..|issues| - 1]), Truncated(issues[|issues| - 1].description))
  }

  /** `issue_frequencies.items()` */
  function Pairs(freq: Dict<string, nat>): (r: seq<(string, nat)>)
    requires freq.Valid()
    ensures |r| == |freq.keys|
  {
    seq(|freq.keys|, k requires 0 <= k < |freq.keys| && freq.Valid() => (freq.keys[k], freq.entries[freq.keys[k]]))
  }

  /** The ten most frequent truncated descriptions with their counts, by non-increasing count. */
  function TopIssues(issues: seq<Issue>): seq<(string, nat)> {
    Take(Sorting.SortDesc(Pairs(Tally(issues)), ProjectContext.Count), 10)
  }

  /** What `generate_project_analysis` is asked about: the file count, the issue count and the top issues. */
  datatype ProjectPrompt = ProjectPrompt(fileCount: nat, issueCount: int, topIssues: seq<(string, nat)>)

  function ProjectPromptOf(analyses: Dict<string, FileAnalysis>): ProjectPrompt
    requires analyses.Valid()
  {
    var values := Values(analyses);
    ProjectPrompt(|analyses.keys|, SumCounts(values), TopIssues(AllIssues(values)))
  }

  /** The frequency dict counts every truncated description exactly as often as it occurs. */
  lemma {:induction false} TallyCounts(issues: seq<Issue>)
    ensures forall d :: d in Tally(issues).entries <==> Occurrences(issues, d) > 0
    ensures forall d :: d in Tally(issues).entries ==> Tally(issues).entries[d] == Occurrences(issues, d)
  {
    if issues != [] {
      TallyCounts(issues[..|issues| - 1]);
    }
  }

  lemma PairsDistinct(freq: Dict<string, nat>)
    requires freq.Valid()
    ensures ProjectContext.KeysDistinct(Pairs(freq))
  {
  }

  /** Every pair carries the exact number of occurrences of its description. */
  ghost predicate Counted(issues: seq<Issue>, ps: seq<(string, nat)>) {
    forall k :: 0 <= k < |ps| ==> ps[k].1 == Occurrences(issues, ps[k].0) >= 1
  }

  /** Every description that occurs has a pair. */
  ghost predicate Covered(issues: seq<Issue>, ps: seq<(string, nat)>) {
    forall d :: Occurrences(issues, d) > 0 ==> exists q :: 0 <= q < |ps| && ps[q].0 == d
  }

  lemma SortedPairs(issues: seq<Issue>)
    ensures var sorted := Sorting.SortDesc(Pairs(Tally(issues)), ProjectContext.Count);
      Counted(issues, sorted) && Covered(issues, sorted) && ProjectContext.KeysDistinct(sorted)
  {
    var freq := Tally(issues);
    var ps := Pairs(freq);
    var sorted := Sorting.SortDesc(ps, ProjectContext.Count);
    TallyCounts(issues);
    PairsDistinct(freq);
    forall k | 0 <= k < |sorted|
      ensures sorted[k].1 == Occurrences(issues, sorted[k].0) >= 1
    {
      var m := ProjectContext.IndexInPermutation(ps, sorted, k);
      assert freq.keys[m] in freq.entries;
    }
    forall d | Occurrences(issues, d) > 0
      ensures exists q :: 0 <= q < |sorted| && sorted[q].0 == d
    {
      assert d in freq.keys;
      var m :| 0 <= m < |freq.keys| && freq.keys[m] == d;
      assert ps[m].0 == d;
      var q := ProjectContext.IndexInPermutation(sorted, ps, m);
      assert sorted[q].0 == d;
    }
    forall i, j | 0 <= i < j < |sorted|
      ensures sorted[i].0 != sorted[j].0
    {
      ProjectContext.SortedKeysDistinct(ps, sorted, i, j);
    }
  }

  /** A ranking of counted descriptions: exact counts, non-increasing, no description twice, none left out that is more frequent. */
  ghost predicate TopOf(issues: seq<Issue>, top: seq<(string, nat)>) {
    && Counted(issues, top)
    && (forall i, j :: 0 <= i < j < |top| ==> top[i].1 >= top[j].1)
    && ProjectContext.KeysDistinct(top)
    && (forall d :: Occurrences(issues, d) > 0 && Absent(top, d) ==>
          forall k :: 0 <= k < |top| ==> top[k].1 >= Occurrences(issues, d))
  }

  /** No pair has the description `d`. */
  ghost predicate Absent(top: seq<(string, nat)>, d: string) {
    forall k :: 0 <= k < |top| ==> top[k].0 != d
  }

  lemma RankedPrefix(issues: seq<Issue>, sorted: seq<(string, nat)>, n: nat)
    requires Counted(issues, sorted) && Covered(issues, sorted) && ProjectContext.KeysDistinct(sorted)
    requires Sorting.Descending(sorted, ProjectContext.Count)
    requires n <= |sorted|
    ensures TopOf(issues, sorted[..n])
    ensures forall d :: Occurrences(issues, d) > 0 && Absent(sorted[..n], d) ==> n < |sorted|
  {
    var top := sorted[..n];
    Sorting.PrefixKeepsLargest(sorted, ProjectContext.Count, n);
    forall i, j | 0 <= i < j < |top|
      ensures top[i].1 >= top[j].1
    {
      assert ProjectContext.Count(sorted[i]) >= ProjectContext.Count(sorted[j]);
    }
    forall d | Occurrences(issues, d) > 0 && Absent(top, d)
      ensures n < |sorted|
      ensures forall k :: 0 <= k < |top| ==> top[k].1 >= Occurrences(issues, d)
    {
      forall k | 0 <= k < n
        ensures sorted[k].0 != d
      {
        assert top[k] == sorted[k];
      }
      var q :| 0 <= q < |sorted| && sorted[q].0 == d;
      forall k | 0 <= k < |top| ensures top[k].1 >= Occurrences(issues, d) {
        assert ProjectContext.Count(sorted[k]) >= ProjectContext.Count(sorted[q]);
      }
    }
  }

  /**
   * The top issues: at most ten, by non-increasing count, no description
   * twice, each with its exact number of occurrences; a description left out
   * occurs no more often than any that is kept, and only when ten are kept.
   */
  lemma TopIssuesProperties(issues: seq<Issue>)
    ensures var top := TopIssues(issues);
      && |top| <= 10
      && TopOf(issues, top)
      && (forall d :: Occurrences(issues, d) > 0 && Absent(top, d) ==> |top| == 10)
  {
    var sorted := Sorting.SortDesc(Pairs(Tally(issues)), ProjectContext.Count);
    var n := SliceEnd(|sorted|, 10);
    assert TopIssues(issues) == sorted[..n];
    SortedPairs(issues);
    RankedPrefix(issues, sorted, n);
  }

  // ---------------------------------------------------------------------
  // `_generate_growth_recommendations`

  /** Where a match of the separator `\n\s*\d+\.\s+` starting at `i` ends. */
  function SeparatorAt(t: string, i: nat): (r: Option<nat>)
    requires i <= |t|
    ensures r.Some? ==> i < r.value <= |t|
  {
    if i < |t| && t[i] == '\n' then
      var a := SkipSpace(t, i + 1);
      var b := SkipDigits(t, a);
      if b > a && b < |t| && t[b] == '.' then
        var c := SkipSpace(t, b + 1);
        if c > b + 1 then Some(c) else None
      else None
    else None
  }

  /** `re.split` of `t[start..]` on the separator, the scan being at `i`. */
  function Pieces(t: string, i: nat, start: nat): (r: seq<string>)
    requires start <= i <= |t|
    ensures |r| >= 1
    decreases |t| - i
  {
    if i == |t| then [t[start..]]
    else match SeparatorAt(t, i)
      case Some(e) => [t[start..i]] + Pieces(t, e, e)
      case None => Pieces(t, i + 1, start)
  }

  /** `re.split(r"\n\s*\d+\.\s+", t)` */
  function Sections(t: string): seq<string> {
    Pieces(t, 0, 0)
  }

  /** Title and description of a section: its first line, and the rest of its lines, both stripped. */
  function RecommendationOf(section: string): (r: Recommendation)
    ensures !r.implemented
  {
    var s := Strip(section);
    var k := IndexOf(s, '\n', 0);
    Recommendation(Strip(s[..k]), if k < |s| then Strip(s[k + 1..]) else "", false)
  }

  /** The same as splitting the stripped section into lines and joining all but the first back. */
  lemma RecommendationOfLines(section: string)
    ensures var lines := Split(Strip(section), '\n');
      RecommendationOf(section) == Recommendation(Strip(lines[0]), Strip(Join(lines[1..], "\n")), false)
  {
    var s := Strip(section);
    var k := IndexOf(s, '\n', 0);
    FirstLineAndRest(s);
    if k == |s| {
      assert Strip("") == "";
    }
  }

  /**
   * The recommendations parsed from the reply: one per numbered section,
   * renumbered from 1, with the text before the first separator dropped; the
   * whole reply as one recommendation when it has no separator.
   */
  function GrowthRecommendations(text: string): seq<Recommendation> {
    var sections := Sections(text);
    if |sections| > 1 then Parsed(Relabelled(sections[1..])) else [RecommendationOf(text)]
  }

  /** `"{n}. {s}"` */
  function Labelled(n: nat, s: string): string {
    NatToString(n) + ". " + s
  }

  /** The sections, each prefixed with its number counting from 1. */
  function Relabelled(sections: seq<string>): (r: seq<string>)
    ensures |r| == |sections|
    ensures forall k :: 0 <= k < |r| ==> r[k] == Labelled(k + 1, sections[k])
  {
    seq(|sections|, k requires 0 <= k < |sections| => Labelled(k + 1, sections[k]))
  }

  /** `f` applied to every element, in order. */
  function MapSeq<A, B>(f: A -> B, xs: seq<A>): (r: seq<B>)
    ensures |r| == |xs|
  {
    if xs == [] then [] else [f(xs[0])] + MapSeq(f, xs[1..])
  }

  lemma {:induction false} MapSeqAt<A, B>(f: A -> B, xs: seq<A>, k: nat)
    requires k < |xs|
    ensures MapSeq(f, xs)[k] == f(xs[k])
    decreases k
  {
    if k > 0 {
      MapSeqAt(f, xs[1..], k - 1);
      assert xs[1..][k - 1] == xs[k];
    }
  }

  /** Every section parsed into a recommendation. */
  function Parsed(sections: seq<string>): (r: seq<Recommendation>)
    ensures |r| == |sections|
  {
    MapSeq(RecommendationOf, sections)
  }

  /** The k-th recommendation is parsed from the k-th section. */
  lemma ParsedAt(sections: seq<string>, k: nat)
    requires k < |sections|
    ensures Parsed(sections)[k] == RecommendationOf(sections[k])
  {
    MapSeqAt(RecommendationOf, sections, k);
  }

  lemma ParsedCons(sections: seq<string>)
    requires sections != []
    ensures Parsed(sections) == [RecommendationOf(sections[0])] + Parsed(sections[1..])
  {
  }

  /** One turn of the loop of `ParseSections`: the next section moves from what is left to what is parsed. */
  lemma ParsedStep(sections: seq<string>, k: nat, recs: seq<Recommendation>)
    requires k < |sections| && recs + Parsed(sections[k..]) == Parsed(sections)
    ensures (recs + [RecommendationOf(sections[k])]) + Parsed(sections[k + 1..]) == Parsed(sections)
  {
    ParsedCons(sections[k..]);
    assert sections[k..][1..] == sections[k + 1..];
    AppendStep(recs, [RecommendationOf(sections[k])], Parsed(sections[k + 1..]), Parsed(sections));
  }

  /** The separator matches nowhere in `s`. */
  predicate NoSeparator(s: string) {
    forall i :: 0 <= i <= |s| ==> SeparatorAt(s, i).None?
  }

  /** A separator inside a slice is a separator of the whole text at the same place. */
  lemma {:induction false} SeparatorInSlice(t: string, lo: nat, hi: nat, q: nat)
    requires lo <= hi <= |t| && q <= hi - lo
    ensures SeparatorAt(t[lo..hi], q).Some? ==> SeparatorAt(t, lo + q).Some?
  {
    var u := t[lo..hi];
    if SeparatorAt(u, q).Some? {
      var a := SkipSpace(u, q + 1);
      var b := SkipDigits(u, a);
      var c := SkipSpace(u, b + 1);
      assert u[q] == t[lo + q];
      SkipSpaceInSlice(t, lo, hi, q + 1, a);
      SkipDigitsInSlice(t, lo, hi, a, b);
      assert u[b] == t[lo + b];
      assert u[b + 1] == t[lo + b + 1];
      assert IsSpace(t[lo + b + 1]);
    }
  }

  lemma SkipSpaceInSlice(t: string, lo: nat, hi: nat, i: nat, a: nat)
    requires lo <= hi <= |t| && i <= hi - lo
    requires a == SkipSpace(t[lo..hi], i) && a < hi - lo
    ensures SkipSpace(t, lo + i) == lo + a
  {
    var u := t[lo..hi];
    forall k | lo + i <= k < lo + a ensures IsSpace(t[k]) {
      assert t[k] == u[k - lo];
    }
    assert t[lo + a] == u[a];
    SkipSpaceRun(t, lo + i, lo + a);
  }

  lemma SkipDigitsInSlice(t: string, lo: nat, hi: nat, i: nat, b: nat)
    requires lo <= hi <= |t| && i <= hi - lo
    requires b == SkipDigits(t[lo..hi], i) && b < hi - lo
    ensures SkipDigits(t, lo + i) == lo + b
  {
    var u := t[lo..hi];
    forall k | lo + i <= k < lo + b ensures IsDigit(t[k]) {
      assert t[k] == u[k - lo];
    }
    assert t[lo + b] == u[b];
    SkipDigitsRun(t, lo + i, lo + b);
  }

  lemma {:induction false} SkipSpaceRun(t: string, i: nat, a: nat)
    requires i <= a < |t| && !IsSpace(t[a])
    requires forall k :: i <= k < a ==> IsSpace(t[k])
    ensures SkipSpace(t, i) == a
    decreases a - i
  {
    if i < a {
      SkipSpaceRun(t, i + 1, a);
    }
  }

  lemma {:induction false} SkipDigitsRun(t: string, i: nat, b: nat)
    requires i <= b < |t| && !IsDigit(t[b])
    requires forall k :: i <= k < b ==> IsDigit(t[k])
    ensures SkipDigits(t, i) == b
    decreases b - i
  {
    if i < b {
      SkipDigitsRun(t, i + 1, b);
    }
  }

  /** No piece of the split holds a separator. */
  lemma {:induction false} PiecesClean(t: string, i: nat, start: nat)
    requires start <= i <= |t|
    requires forall p :: start <= p < i ==> SeparatorAt(t, p).None?
    ensures forall k :: 0 <= k < |Pieces(t, i, start)| ==> NoSeparator(Pieces(t, i, start)[k])
    decreases |t| - i
  {
    var piece := t[start..i];
    forall q | 0 <= q <= |piece| ensures SeparatorAt(piece, q).None? {
      SeparatorInSlice(t, start, i, q);
    }
    if i < |t| {
      match SeparatorAt(t, i)
      case Some(e) =>
        PiecesClean(t, e, e);
        var r := Pieces(t, i, start);
        assert r == [piece] + Pieces(t, e, e);
        assert NoSeparator(piece);
        forall k | 0 <= k < |r| ensures NoSeparator(r[k]) {
          if k > 0 {
            assert r[k] == Pieces(t, e, e)[k - 1];
          }
        }
      case None =>
        PiecesClean(t, i + 1, start);
        assert Pieces(t, i, start) == Pieces(t, i + 1, start);
    } else {
      assert i == |t|;
      assert Pieces(t, i, start) == [t[start..]];
      assert t[start..] == piece;
    }
  }

  /** Stripping keeps a head that neither starts nor ends with whitespace. */
  lemma StripKeepsHead(s: string, h: string)
    requires StartsWith(s, h) && h != []
    requires !IsSpace(h[0]) && !IsSpace(h[|h| - 1])
    ensures StartsWith(Strip(s), h)
  {
    assert s[0] == h[0];
    assert TrimStart(s) == s;
    assert s[|h| - 1] == h[|h| - 1];
    var r := TrimEnd(s);
    assert |r| >= |h|;
    assert r[..|h|] == s[..|h|];
  }

  /** The first line of a text keeps a head without line breaks. */
  lemma FirstLineKeepsHead(s: string, h: string)
    requires StartsWith(s, h) && '\n' !in h
    ensures StartsWith(s[..IndexOf(s, '\n', 0)], h)
  {
    forall j | 0 <= j < |h| ensures s[j] != '\n' {
      assert s[j] == h[j];
    }
  }

  /** The title starts with the number `n` and a full stop. */
  predicate TitledAs(r: Recommendation, n: nat) {
    StartsWith(r.title, NatToString(n) + ".")
  }

  /** The title of the section numbered `n` starts with "n.". */
  lemma NumberedTitle(n: nat, section: string)
    ensures TitledAs(RecommendationOf(Labelled(n, section)), n)
  {
    var digits := NatToString(n);
    var h := digits + ".";
    var s := Labelled(n, section);
    assert s[..|h|] == h;
    assert !IsSpace(h[0]) by {
      assert h[0] == digits[0] && IsDigit(digits[0]);
    }
    forall k | 0 <= k < |h| ensures h[k] != '\n' {
      if k < |digits| {
        assert IsDigit(digits[k]);
      }
    }
    StripKeepsHead(s, h);
    var stripped := Strip(s);
    FirstLineKeepsHead(stripped, h);
    StripKeepsHead(stripped[..IndexOf(stripped, '\n', 0)], h);
  }

  /**
   * The growth recommendations: none is implemented; with separators, the
   * k-th is parsed from the k-th numbered section labelled "k. " (so its
   * title starts with "k.", by `NumberedTitle`); without one, the whole reply
   * is the single recommendation.
   */
  lemma GrowthRecommendationsProperties(text: string)
    ensures var recs := GrowthRecommendations(text);
      var sections := Sections(text);
      && (forall k :: 0 <= k < |recs| ==> !recs[k].implemented)
      && (|sections| > 1 ==> (|recs| == |sections| - 1
            && forall k :: 0 <= k < |recs| ==> recs[k] == RecommendationOf(Labelled(k + 1, sections[k + 1]))))
      && (|sections| == 1 ==> recs == [RecommendationOf(text)])
  {
    var sections := Sections(text);
    var recs := GrowthRecommendations(text);
    if |sections| > 1 {
      var labelled := Relabelled(sections[1..]);
      assert recs == Parsed(labelled);
      forall k | 0 <= k < |recs|
        ensures recs[k] == RecommendationOf(Labelled(k + 1, sections[k + 1])) && !recs[k].implemented
      {
        ParsedAt(labelled, k);
        assert labelled[k] == Labelled(k + 1, sections[k + 1]) by {
          assert sections[1..][k] == sections[k + 1];
        }
      }
    } else {
      assert recs == [RecommendationOf(text)];
    }
  }

  /** No section of the split holds a separator. */
  lemma SectionsClean(text: string)
    ensures forall k :: 0 <= k < |Sections(text)| ==> NoSeparator(Sections(text)[k])
  {
    PiecesClean(text, 0, 0);
  }

  /** A reply without a separator is one section, the reply itself. */
  lemma {:induction false} NoSeparatorOneSection(t: string, i: nat, start: nat)
    requires start <= i <= |t|
    requires forall p :: i <= p <= |t| ==> SeparatorAt(t, p).None?
    ensures Pieces(t, i, start) == [t[start..]]
    decreases |t| - i
  {
    if i < |t| {
      NoSeparatorOneSection(t, i + 1, start);
    }
  }

  /** A separator anywhere splits the reply into at least two sections. */
  lemma {:induction false} SeparatorSplits(t: string, i: nat, start: nat, p: nat)
    requires start <= i <= p < |t| && SeparatorAt(t, p).Some?
    ensures |Pieces(t, i, start)| >= 2
    decreases |t| - i
  {
    if SeparatorAt(t, i).None? {
      SeparatorSplits(t, i + 1, start, p);
    }
  }

  /** Several sections, that is several recommendations, exactly when the reply holds a separator. */
  lemma SectionsIff(text: string)
    ensures |Sections(text)| > 1 <==> !NoSeparator(text)
    ensures NoSeparator(text) ==> Sections(text) == [text]
  {
    if NoSeparator(text) {
      NoSeparatorOneSection(text, 0, 0);
      assert text[0..] == text;
    } else {
      var p :| 0 <= p <= |text| && SeparatorAt(text, p).Some?;
      SeparatorSplits(text, 0, 0, p);
    }
  }

  // ---------------------------------------------------------------------
  // `_generate_security_overview`

  /** An issue handed to the security overview, with the file it was found in. */
  datatype SecurityIssue = SecurityIssue(issue: Issue, file: Option<string>)

  /** The terms that make a stored issue security related. */
  const SecurityTerms: seq<string> := ["secur", "vulnerab", "inject", "xss", "csrf", "auth", "hack"]

  predicate MentionsSecurity(x: Issue) {
    ContainsAny(Lower(x.description), SecurityTerms)
  }

  /** The issues tagged with the file they come from. */
  function Tagged(issues: seq<Issue>, file: Option<string>): (r: seq<SecurityIssue>)
    ensures |r| == |issues|
  {
    if issues == [] then [] else [SecurityIssue(issues[0], file)] + Tagged(issues[1..], file)
  }

  /** An analysis with a non-empty security pass. */
  predicate HasSecurityPass(a: FileAnalysis) {
    a.securityAnalysis.Some? && a.securityAnalysis.value != ""
  }

  /** The issues extracted from an analysis's security pass, tagged with its file. */
  function SecurityPassIssues(a: FileAnalysis): seq<SecurityIssue> {
    if HasSecurityPass(a) then Tagged(ExtractedIssues(a.securityAnalysis), a.filePath) else []
  }

  /** The issues extracted from every non-empty security pass, in order. */
  function Dedicated(values: seq<FileAnalysis>): seq<SecurityIssue> {
    if values == [] then []
    else
      SecurityPassIssues(values[0]) + Dedicated(values[1..])
  }

  /** The security-related issues of a list. */
  function SecurityRelated(issues: seq<Issue>): seq<Issue> {
    if issues == [] then []
    else (if MentionsSecurity(issues[0]) then [issues[0]] else []) + SecurityRelated(issues[1..])
  }

  /** The security-related stored issues of every analysis, in order. */
  function Mentioning(values: seq<FileAnalysis>): seq<SecurityIssue> {
    if values == [] then []
    else Tagged(SecurityRelated(values[0].issues.GetOr([])), values[0].filePath) + Mentioning(values[1..])
  }

  /** The issues the security overview is asked about. */
  function SecurityIssues(values: seq<FileAnalysis>): seq<SecurityIssue> {
    var dedicated := Dedicated(values);
    if dedicated != [] then dedicated else Mentioning(values)
  }

  lemma {:induction false} TaggedMembers(issues: seq<Issue>, file: Option<string>)
    ensures forall s :: s in Tagged(issues, file) <==> s.file == file && s.issue in issues
  {
    if issues != [] {
      TaggedMembers(issues[1..], file);
    }
  }

  lemma {:induction false} SecurityRelatedMembers(issues: seq<Issue>)
    ensures forall x :: x in SecurityRelated(issues) <==> x in issues && MentionsSecurity(x)
  {
    if issues != [] {
      SecurityRelatedMembers(issues[1..]);
    }
  }

  /** Every dedicated issue was extracted from the security pass of an analysis and names its file. */
  lemma {:induction false} DedicatedMembers(values: seq<FileAnalysis>)
    ensures forall s :: s in Dedicated(values) ==>
      exists a :: a in values && HasSecurityPass(a) && s.file == a.filePath && s.issue in ExtractedIssues(a.securityAnalysis)
  {
    if values != [] {
      DedicatedMembers(values[1..]);
      TaggedMembers(ExtractedIssues(values[0].securityAnalysis), values[0].filePath);
      assert Dedicated(values) == SecurityPassIssues(values[0]) + Dedicated(values[1..]);
    }
  }

  /**
   * Without dedicated security issues the fallback takes exactly the stored
   * issues that mention a security term, each with its file.
   */
  lemma {:induction false} MentioningMembers(values: seq<FileAnalysis>)
    ensures forall s :: s in Mentioning(values) <==>
      exists a :: a in values && s.file == a.filePath && s.issue in a.issues.GetOr([]) && MentionsSecurity(s.issue)
  {
    if values != [] {
      MentioningMembers(values[1..]);
      SecurityRelatedMembers(values[0].issues.GetOr([]));
      TaggedMembers(SecurityRelated(values[0].issues.GetOr([])), values[0].filePath);
    }
  }

  /**
   * The security overview is asked about the issues extracted from the
   * security passes when there are any; otherwise about the stored issues
   * that mention a security term.
   */
  lemma SecurityIssuesProperties(values: seq<FileAnalysis>)
    ensures Dedicated(values) != [] ==> SecurityIssues(values) == Dedicated(values)
    ensures forall s :: s in SecurityIssues(values) && Dedicated(values) != [] ==>
      exists a :: a in values && HasSecurityPass(a) && s.file == a.filePath && s.issue in ExtractedIssues(a.securityAnalysis)
    ensures Dedicated(values) == [] ==> forall s :: s in SecurityIssues(values) <==>
      exists a :: a in values && s.file == a.filePath && s.issue in a.issues.GetOr([]) && MentionsSecurity(s.issue)
  {
    DedicatedMembers(values);
    MentioningMembers(values);
  }

  // ---------------------------------------------------------------------
  // The loops of the aggregate helpers

  /** The `all_issues` loop of `_generate_project_analysis`. */
  method CollectIssues(values: seq<FileAnalysis>) returns (all: seq<Issue>)
    ensures all == AllIssues(values)
  {
    all := [];
    var i := 0;
    while i < |values|
      invariant 0 <= i <= |values|
      invariant all == AllIssues(values[..i])
    {
      assert values[..i + 1][..i] == values[..i];
      all := all + values[i].issues.GetOr([]);
      i := i + 1;
    }
    assert values[..|values|] == values;
  }

  /** The `issue_frequencies` loop of `_generate_project_analysis`. */
  method CountFrequencies(all: seq<Issue>) returns (freq: Dict<string, nat>)
    ensures freq == Tally(all)
  {
    freq := Empty();
    var i := 0;
    while i < |all|
      invariant 0 <= i <= |all|
      invariant freq == Tally(all[..i])
    {
      TallySnoc(all, i);
      var d := Truncated(all[i].description);
      freq := Put(freq, d, freq.Get(d).GetOr(0) + 1);
      i := i + 1;
    }
    assert all[..|all|] == all;
  }

  /** Counting one more issue bumps the key of its truncated description. */
  lemma TallySnoc(all: seq<Issue>, i: nat)
    requires i < |all|
    ensures Tally(all[..i + 1]) == Bump(Tally(all[..i]), Truncated(all[i].description))
  {
    assert all[..i + 1][..i] == all[..i];
  }

  /** The parsing of `_generate_growth_recommendations`. */
  method ParseRecommendations(text: string) returns (recs: seq<Recommendation>)
    ensures recs == GrowthRecommendations(text)
  {
    var sections := Sections(text);
    if |sections| > 1 {
      recs := ParseSections(Relabelled(sections[1..]));
    } else {
      recs := [RecommendationOf(text)];
    }
  }

  /** The loop over the renumbered sections. */
  method ParseSections(sections: seq<string>) returns (recs: seq<Recommendation>)
    ensures recs == Parsed(sections)
  {
    recs := [];
    var k := 0;
    while k < |sections|
      invariant 0 <= k <= |sections|
      invariant recs + Parsed(sections[k..]) == Parsed(sections)
    {
      var r := RecommendationOf(sections[k]);
      ParsedStep(sections, k, recs);
      recs := recs + [r];
      k := k + 1;
    }
    assert sections[|sections|..] == [];
  }

  /** One step of an accumulating loop: what is taken moves from the rest to the accumulator. */
  lemma AppendStep<T>(acc: seq<T>, x: seq<T>, rest: seq<T>, whole: seq<T>)
    requires acc + (x + rest) == whole
    ensures (acc + x) + rest == whole
  {
  }

  /** The tagging loop: every issue gets the file it was found in. */
  method Tag(issues: seq<Issue>, file: Option<string>) returns (tagged: seq<SecurityIssue>)
    ensures tagged == Tagged(issues, file)
  {
    tagged := [];
    var j := 0;
    while j < |issues|
      invariant 0 <= j <= |issues|
      invariant tagged + Tagged(issues[j..], file) == Tagged(issues, file)
    {
      assert issues[j..][1..] == issues[j + 1..];
      tagged := tagged + [SecurityIssue(issues[j], file)];
      j := j + 1;
    }
  }

  /** The issues of one analysis's security pass, tagged with its file. */
  method DedicatedOf(a: FileAnalysis) returns (tagged: seq<SecurityIssue>)
    ensures tagged == SecurityPassIssues(a)
  {
    tagged := [];
    if HasSecurityPass(a) {
      var issues := ExtractIssues(a.securityAnalysis);
      tagged := Tag(issues, a.filePath);
    }
  }

  /** The first collecting loop of `_generate_security_overview`. */
  method CollectDedicated(values: seq<FileAnalysis>) returns (found: seq<SecurityIssue>)
    ensures found == Dedicated(values)
  {
    found := [];
    var i := 0;
    while i < |values|
      invariant 0 <= i <= |values|
      invariant found + Dedicated(values[i..]) == Dedicated(values)
    {
      assert values[i..][1..] == values[i + 1..];
      var tagged := DedicatedOf(values[i]);
      AppendStep(found, tagged, Dedicated(values[i + 1..]), Dedicated(values));
      found := found + tagged;
      i := i + 1;
    }
    assert values[|values|..] == [];
  }

  /** The security-related issues of a list, in order. */
  method FilterSecurityRelated(issues: seq<Issue>) returns (related: seq<Issue>)
    ensures related == SecurityRelated(issues)
  {
    related := [];
    var j := 0;
    while j < |issues|
      invariant 0 <= j <= |issues|
      invariant related + SecurityRelated(issues[j..]) == SecurityRelated(issues)
    {
      assert issues[j..][1..] == issues[j + 1..];
      if MentionsSecurity(issues[j]) {
        related := related + [issues[j]];
      }
      j := j + 1;
    }
    assert issues[|issues|..] == [];
  }

  /** The fallback collecting loop of `_generate_security_overview`. */
  method CollectMentioning(values: seq<FileAnalysis>) returns (found: seq<SecurityIssue>)
    ensures found == Mentioning(values)
  {
    found := [];
    var i := 0;
    while i < |values|
      invariant 0 <= i <= |values|
      invariant found + Mentioning(values[i..]) == Mentioning(values)
    {
      assert values[i..][1..] == values[i + 1..];
      var related := FilterSecurityRelated(values[i].issues.GetOr([]));
      var tagged := Tag(related, values[i].filePath);
      found := found + tagged;
      i := i + 1;
    }
    assert values[|values|..] == [];
  }

  /** The issues `_generate_security_overview` collects. */
  method CollectSecurityIssues(values: seq<FileAnalysis>) returns (found: seq<SecurityIssue>)
    ensures found == SecurityIssues(values)
  {
    found := CollectDedicated(values);
    if found == [] {
      found := CollectMentioning(values);
    }
  }

  // ---------------------------------------------------------------------
  // `analyze_directory`

  /** One file that `analyze_directory` took in: its analysis, whether it was made afresh, and the requests that took. */
  datatype FileStep = FileStep(path: string, analysis: FileAnalysis, analysed: bool, requests: nat)

  /** The stored analysis of a file is used again: it exists, is not empty, and the file has not changed since. */
  predicate Reuses(stored: Option<FileAnalysis>, mtime: Option<int>) {
    stored.Some? && stored.value.Truthy() && !FileService.IsFileModified(stored, mtime)
  }

  /** A file is skipped when it has no content or no language. */
  predicate Readable(got: (Option<string>, Option<string>)) {
    got.0.Some? && got.0.value != "" && got.1.Some? && got.1.value != ""
  }

  /**
   * What `analyze_directory` does with one file, given the stored analyses
   * `ctx`: nothing when the file has no content or no language, the stored
   * analysis when it can be reused, else a fresh one. `read` and `mtime`
   * stand for the file system, `reply` for the backend.
   */
  function StepOf(ctx: Dict<string, FileAnalysis>, path: string, read: string -> Option<string>,
                  mtime: string -> Option<int>, reply: (string, Pass) -> LlmService.Outcome): (r: Option<FileStep>)
    requires ctx.Valid()
    ensures r.Some? ==> r.value.path == path
    ensures r.Some? && !r.value.analysed ==> path in ctx.entries && r.value.analysis == ctx.entries[path] && r.value.requests == 0
  {
    var got := FileService.GetFileContent(path, read(path));
    if !Readable(got) then None
    else if Reuses(ctx.Get(path), mtime(path)) then Some(FileStep(path, ctx.entries[path], false, 0))
    else Some(FileStep(path, FreshAnalysis(path, got.1.value, got.0.value, mtime(path), reply), true,
      AnalysisRequests(path, got.0.value, reply)))
  }

  /** The stored analyses after a step: a fresh analysis is stored under its path. */
  function Stored(ctx: Dict<string, FileAnalysis>, step: Option<FileStep>): (r: Dict<string, FileAnalysis>)
    requires ctx.Valid()
    ensures r.Valid()
  {
    if step.Some? && step.value.analysed then Put(ctx, step.value.path, step.value.analysis) else ctx
  }

  /** The per-file loop of `analyze_directory` over `files`: the files taken in, and the stored analyses after. */
  function Process(ctx: Dict<string, FileAnalysis>, files: seq<string>, read: string -> Option<string>,
                   mtime: string -> Option<int>, reply: (string, Pass) -> LlmService.Outcome): (r: (seq<FileStep>, Dict<string, FileAnalysis>))
    requires ctx.Valid()
    decreases |files|
  {
    if files == [] then ([], ctx)
    else
      var step := StepOf(ctx, files[0], read, mtime, reply);
      var rest := Process(Stored(ctx, step), files[1..], read, mtime, reply);
      (Taken(step) + rest.0, rest.1)
  }

  /** The step as a list of at most one file taken in. */
  function Taken(step: Option<FileStep>): (r: seq<FileStep>)
    ensures |r| <= 1
  {
    if step.Some? then [step.value] else []
  }

  /** `results["file_analyses"]` after the steps. */
  function AnalysesOf(steps: seq<FileStep>): (r: Dict<string, FileAnalysis>)
    ensures r.Valid()
  {
    if steps == [] then Empty()
    else
      var last := steps[|steps| - 1];
      Put(AnalysesOf(steps[..|steps| - 1]), last.path, last.analysis)
  }

  /** The analyses of the steps, in order. */
  function StepAnalyses(steps: seq<FileStep>): (r: seq<FileAnalysis>)
    ensures |r| == |steps|
    ensures forall k :: 0 <= k < |steps| ==> r[k] == steps[k].analysis
  {
    if steps == [] then [] else StepAnalyses(steps[..|steps| - 1]) + [steps[|steps| - 1].analysis]
  }

  /** `Process` takes the first file, then the others from the stored analyses that step left. */
  lemma ProcessFirst(ctx: Dict<string, FileAnalysis>, files: seq<string>, read: string -> Option<string>,
                     mtime: string -> Option<int>, reply: (string, Pass) -> LlmService.Outcome)
    requires ctx.Valid() && files != []
    ensures var step := StepOf(ctx, files[0], read, mtime, reply);
      var rest := Process(Stored(ctx, step), files[1..], read, mtime, reply);
      && Process(ctx, files, read, mtime, reply).0 == Taken(step) + rest.0
      && Process(ctx, files, read, mtime, reply).1 == rest.1
  {
  }

  /** The loop of `analyze_directory` after `i` files, one file further. */
  lemma ProcessAdvance(whole: (seq<FileStep>, Dict<string, FileAnalysis>), steps: seq<FileStep>, ctx: Dict<string, FileAnalysis>,
                       files: seq<string>, i: nat, read: string -> Option<string>,
                       mtime: string -> Option<int>, reply: (string, Pass) -> LlmService.Outcome)
    requires ctx.Valid() && i < |files|
    requires var rest := Process(ctx, files[i..], read, mtime, reply);
      whole.0 == steps + rest.0 && whole.1 == rest.1
    ensures var step := StepOf(ctx, files[i], read, mtime, reply);
      var rest := Process(Stored(ctx, step), files[i + 1..], read, mtime, reply);
      && whole.0 == (steps + Taken(step)) + rest.0
      && whole.1 == rest.1
  {
    var step := StepOf(ctx, files[i], read, mtime, reply);
    var rest := Process(Stored(ctx, step), files[i + 1..], read, mtime, reply);
    ProcessFirst(ctx, files[i..], read, mtime, reply);
    assert files[i..][0] == files[i] && files[i..][1..] == files[i + 1..];
    AppendStep(steps, Taken(step), rest.0, whole.0);
  }

  // ---------------------------------------------------------------------
  // What the loop of `analyze_directory` promises

  /** Every file of `files` stepped against the same stored analyses `ctx`. */
  function Planned(ctx: Dict<string, FileAnalysis>, files: seq<string>, read: string -> Option<string>,
                   mtime: string -> Option<int>, reply: (string, Pass) -> LlmService.Outcome): seq<FileStep>
    requires ctx.Valid()
    decreases |files|
  {
    if files == [] then [] else Taken(StepOf(ctx, files[0], read, mtime, reply)) + Planned(ctx, files[1..], read, mtime, reply)
  }

  /** What happens to a file depends on the stored analyses only through the entry for that file. */
  lemma StepOfLocal(ctx: Dict<string, FileAnalysis>, other: Dict<string, FileAnalysis>, path: string, read: string -> Option<string>,
                    mtime: string -> Option<int>, reply: (string, Pass) -> LlmService.Outcome)
    requires ctx.Valid() && other.Valid() && ctx.Get(path) == other.Get(path)
    ensures StepOf(ctx, path, read, mtime, reply) == StepOf(other, path, read, mtime, reply)
  {
  }

  lemma {:induction false} PlannedLocal(ctx: Dict<string, FileAnalysis>, other: Dict<string, FileAnalysis>, files: seq<string>,
                                        read: string -> Option<string>, mtime: string -> Option<int>, reply: (string, Pass) -> LlmService.Outcome)
    requires ctx.Valid() && other.Valid()
    requires forall g :: g in files ==> ctx.Get(g) == other.Get(g)
    ensures Planned(ctx, files, read, mtime, reply) == Planned(other, files, read, mtime, reply)
    decreases |files|
  {
    if files != [] {
      StepOfLocal(ctx, other, files[0], read, mtime, reply);
      assert forall g :: g in files[1..] ==> g in files;
      PlannedLocal(ctx, other, files[1..], read, mtime, reply);
    }
  }

  lemma DistinctTail<T>(s: seq<T>)
    requires s != [] && Distinct(s)
    ensures Distinct(s[1..]) && s[0] !in s[1..]
  {
    forall k | 0 <= k < |s[1..]|
      ensures s[1..][k] != s[0]
    {
      assert s[1..][k] == s[k + 1];
    }
  }

  /**
   * Over distinct files, the loop of `analyze_directory` decides about each
   * file as it would have from the stored analyses it started with: storing
   * a fresh analysis never changes what happens to another file.
   */
  lemma {:induction false} ProcessPlanned(ctx: Dict<string, FileAnalysis>, files: seq<string>, read: string -> Option<string>,
                                          mtime: string -> Option<int>, reply: (string, Pass) -> LlmService.Outcome)
    requires ctx.Valid() && Distinct(files)
    ensures Process(ctx, files, read, mtime, reply).0 == Planned(ctx, files, read, mtime, reply)
    decreases |files|
  {
    if files != [] {
      var step := StepOf(ctx, files[0], read, mtime, reply);
      var after := Stored(ctx, step);
      DistinctTail(files);
      ProcessPlanned(after, files[1..], read, mtime, reply);
      forall g | g in files[1..]
        ensures after.Get(g) == ctx.Get(g)
      {
      }
      PlannedLocal(after, ctx, files[1..], read, mtime, reply);
    }
  }

  /** The stored analysis of `path` once the loop over `files` is done. */
  function StoredAfter(ctx: Dict<string, FileAnalysis>, files: seq<string>, path: string, read: string -> Option<string>,
                       mtime: string -> Option<int>, reply: (string, Pass) -> LlmService.Outcome): Option<FileAnalysis>
    requires ctx.Valid()
  {
    var step := StepOf(ctx, path, read, mtime, reply);
    if path in files && step.Some? && step.value.analysed then Some(step.value.analysis) else ctx.Get(path)
  }

  /**
   * Over distinct files, the loop of `analyze_directory` leaves every file's
   * fresh analysis stored under its path, and every other entry as it was.
   */
  lemma {:induction false} ProcessStores(ctx: Dict<string, FileAnalysis>, files: seq<string>, read: string -> Option<string>,
                                         mtime: string -> Option<int>, reply: (string, Pass) -> LlmService.Outcome)
    requires ctx.Valid() && Distinct(files)
    ensures forall q :: Process(ctx, files, read, mtime, reply).1.Get(q) == StoredAfter(ctx, files, q, read, mtime, reply)
    decreases |files|
  {
    if files != [] {
      var step := StepOf(ctx, files[0], read, mtime, reply);
      var after := Stored(ctx, step);
      DistinctTail(files);
      ProcessStores(after, files[1..], read, mtime, reply);
      forall q
        ensures Process(ctx, files, read, mtime, reply).1.Get(q) == StoredAfter(ctx, files, q, read, mtime, reply)
      {
        assert Process(ctx, files, read, mtime, reply).1 == Process(after, files[1..], read, mtime, reply).1;
        if q != files[0] {
          assert after.Get(q) == ctx.Get(q);
          StepOfLocal(after, ctx, q, read, mtime, reply);
          assert q in files[1..] <==> q in files;
        }
      }
    }
  }

  /** No two steps took in the same file. */
  predicate DistinctPaths(steps: seq<FileStep>) {
    forall i, j :: 0 <= i < j < |steps| ==> steps[i].path != steps[j].path
  }

  /** Over distinct files, the steps take in distinct files of `files`, at most one each. */
  lemma {:induction false} PlannedPaths(ctx: Dict<string, FileAnalysis>, files: seq<string>, read: string -> Option<string>,
                                        mtime: string -> Option<int>, reply: (string, Pass) -> LlmService.Outcome)
    requires ctx.Valid() && Distinct(files)
    ensures var steps := Planned(ctx, files, read, mtime, reply);
      && |steps| <= |files|
      && (forall k :: 0 <= k < |steps| ==> steps[k].path in files)
      && DistinctPaths(steps)
    decreases |files|
  {
    if files != [] {
      var rest := Planned(ctx, files[1..], read, mtime, reply);
      var first := Taken(StepOf(ctx, files[0], read, mtime, reply));
      DistinctTail(files);
      PlannedPaths(ctx, files[1..], read, mtime, reply);
      ConsPaths(first, rest, files);
    }
  }

  lemma ConsPaths(first: seq<FileStep>, rest: seq<FileStep>, files: seq<string>)
    requires files != [] && files[0] !in files[1..]
    requires |first| <= 1 && forall k :: 0 <= k < |first| ==> first[k].path == files[0]
    requires |rest| <= |files| - 1 && DistinctPaths(rest)
    requires forall k :: 0 <= k < |rest| ==> rest[k].path in files[1..]
    ensures var steps := first + rest;
      && |steps| <= |files|
      && (forall k :: 0 <= k < |steps| ==> steps[k].path in files)
      && DistinctPaths(steps)
  {
    var steps := first + rest;
    forall k | 0 <= k < |steps|
      ensures steps[k].path in files
      ensures k >= |first| ==> steps[k].path != files[0]
    {
      if k >= |first| {
        assert steps[k] == rest[k - |first|];
      }
    }
  }

  /** With distinct paths, `results["file_analyses"]` lists the steps' files in order, each with its analysis. */
  lemma {:induction false} AnalysesOfDistinct(steps: seq<FileStep>)
    requires DistinctPaths(steps)
    ensures var d := AnalysesOf(steps);
      && |d.keys| == |steps|
      && (forall k :: 0 <= k < |steps| ==> d.keys[k] == steps[k].path && d.entries[steps[k].path] == steps[k].analysis)
    decreases |steps|
  {
    if steps != [] {
      var init := steps[..|steps| - 1];
      var last := steps[|steps| - 1];
      AnalysesOfDistinct(init);
      var d0 := AnalysesOf(init);
      forall k | 0 <= k < |d0.keys|
        ensures d0.keys[k] != last.path
      {
        assert d0.keys[k] == steps[k].path;
      }
      PutNew(d0, last.path, last.analysis);
      var d := AnalysesOf(steps);
      assert d == Put(d0, last.path, last.analysis);
      forall k | 0 <= k < |steps|
        ensures d.keys[k] == steps[k].path && d.entries[steps[k].path] == steps[k].analysis
      {
        if k < |init| {
          assert steps[k] == init[k];
        }
      }
    }
  }

  /** Putting a new key appends it to the keys. */
  lemma PutNew<K(!new), V>(d: Dict<K, V>, k: K, v: V)
    requires d.Valid() && forall j :: 0 <= j < |d.keys| ==> d.keys[j] != k
    ensures Put(d, k, v).keys == d.keys + [k] && Put(d, k, v).entries == d.entries[k := v]
  {
  }

  /**
   * The report of `analyze_directory` over distinct files agrees with
   * itself: its `total_issues` is the issue count summed over its
   * `file_analyses`, which hold one entry per file taken in, all of them
   * among `files`; `files_analyzed` counts every file, skipped or not.
   */
  lemma ReportTotals(ctx: Dict<string, FileAnalysis>, files: seq<string>, read: string -> Option<string>,
                     mtime: string -> Option<int>, reply: (string, Pass) -> LlmService.Outcome, projectName: string, replies: Replies)
    requires ctx.Valid() && Distinct(files)
    ensures var steps := Process(ctx, files, read, mtime, reply).0;
      var r := ReportOf(projectName, |files|, steps, replies);
      && r.filesAnalyzed == |files|
      && |r.fileAnalyses.keys| == |steps| <= |files|
      && (forall k :: 0 <= k < |r.fileAnalyses.keys| ==> r.fileAnalyses.keys[k] in files)
      && r.totalIssues == SumCounts(Values(r.fileAnalyses))
  {
    var steps := Process(ctx, files, read, mtime, reply).0;
    ProcessPlanned(ctx, files, read, mtime, reply);
    PlannedPaths(ctx, files, read, mtime, reply);
    AnalysesOfDistinct(steps);
    assert Values(AnalysesOf(steps)) == StepAnalyses(steps);
  }

  /** The folds over the steps, one step further. */
  /** The bookkeeping of `Tracks`, on the values of the five counters. */
  ghost predicate Tracked(steps: seq<FileStep>, analyses: Dict<string, FileAnalysis>, base: (int, int, int, int, int),
                          counters: (int, int, int, int, int))
  {
    && analyses == AnalysesOf(steps)
    && counters.0 == base.0 + SumCounts(StepAnalyses(steps)) && counters.1 == base.1 + |steps|
    && counters.2 == base.2 + FreshTokens(steps)
    && counters.3 == base.3 + FreshTokens(steps)
    && counters.4 == base.4 + StepRequests(steps)
  }

  /** A step taken in keeps the bookkeeping once its counts, tokens and requests are added. */
  lemma TrackedSnoc(steps: seq<FileStep>, analyses: Dict<string, FileAnalysis>, base: (int, int, int, int, int),
                    counters: (int, int, int, int, int), step: FileStep)
    requires Tracked(steps, analyses, base, counters)
    ensures Tracked(steps + [step], Put(analyses, step.path, step.analysis), base,
      (counters.0 + CountIssues(step.analysis), counters.1 + 1, counters.2 + StepTokens(step),
       counters.3 + StepTokens(step), counters.4 + step.requests))
  {
    StepsSnoc(steps, step);
  }

  /** `TrackedSnoc` for a step that may have been skipped, with the new counters named. */
  lemma TrackedTaken(steps: seq<FileStep>, analyses: Dict<string, FileAnalysis>, base: (int, int, int, int, int),
                     before: (int, int, int, int, int), step: Option<FileStep>,
                     more: seq<FileStep>, next: Dict<string, FileAnalysis>, after: (int, int, int, int, int))
    requires Tracked(steps, analyses, base, before)
    requires more == steps + Taken(step)
    requires next == if step.Some? then Put(analyses, step.value.path, step.value.analysis) else analyses
    requires after.0 == before.0 + (if step.Some? then CountIssues(step.value.analysis) else 0)
    requires after.1 == before.1 + |Taken(step)|
    requires after.2 == before.2 + TakenTokens(step) && after.3 == before.3 + TakenTokens(step)
    requires after.4 == before.4 + TakenRequests(step)
    ensures Tracked(more, next, base, after)
  {
    if step.Some? {
      TrackedSnoc(steps, analyses, base, before, step.value);
    } else {
      assert more == steps;
    }
  }

  lemma StepsSnoc(steps: seq<FileStep>, step: FileStep)
    ensures var more := steps + [step];
      && AnalysesOf(more) == Put(AnalysesOf(steps), step.path, step.analysis)
      && SumCounts(StepAnalyses(more)) == SumCounts(StepAnalyses(steps)) + CountIssues(step.analysis)
      && FreshTokens(more) == FreshTokens(steps) + StepTokens(step)
      && StepRequests(more) == StepRequests(steps) + step.requests
  {
    var more := steps + [step];
    assert more[..|more| - 1] == steps;
    assert StepAnalyses(more) == StepAnalyses(steps) + [step.analysis];
    assert StepAnalyses(more)[..|steps|] == StepAnalyses(steps);
  }

  /** The tokens a step spent: those of its analysis when it was made afresh. */
  function StepTokens(step: FileStep): int {
    if step.analysed then step.analysis.tokensUsed.GetOr(0) else 0
  }

  /** The tokens and requests of a step that may not have been taken. */
  function TakenTokens(step: Option<FileStep>): int {
    if step.Some? then StepTokens(step.value) else 0
  }

  function TakenRequests(step: Option<FileStep>): nat {
    if step.Some? then step.value.requests else 0
  }

  /** The tokens of the analyses made afresh. */
  function FreshTokens(steps: seq<FileStep>): int {
    if steps == [] then 0 else FreshTokens(steps[..|steps| - 1]) + StepTokens(steps[|steps| - 1])
  }

  function StepRequests(steps: seq<FileStep>): nat {
    if steps == [] then 0 else StepRequests(steps[..|steps| - 1]) + steps[|steps| - 1].requests
  }

  /** What the backend answers to the three project-level requests. */
  datatype Replies = Replies(
    project: ProjectPrompt -> LlmService.Outcome,
    growth: Dict<string, FileAnalysis> -> LlmService.Outcome,
    security: seq<SecurityIssue> -> LlmService.Outcome)

  function ProjectOutcome(analyses: Dict<string, FileAnalysis>, replies: Replies): LlmService.Outcome
    requires analyses.Valid()
  {
    replies.project(ProjectPromptOf(analyses))
  }

  function SecurityOutcome(analyses: Dict<string, FileAnalysis>, replies: Replies): LlmService.Outcome
    requires analyses.Valid()
  {
    replies.security(SecurityIssues(Values(analyses)))
  }

  /** The report `analyze_directory` returns for `fileCount` files of which `steps` were taken in. */
  function ReportOf(projectName: string, fileCount: nat, steps: seq<FileStep>, replies: Replies): ProjectReport {
    var analyses := AnalysesOf(steps);
    var project := LlmService.Answer(ProjectOutcome(analyses, replies));
    var growth := LlmService.Answer(replies.growth(analyses));
    var security := LlmService.Answer(SecurityOutcome(analyses, replies));
    ProjectReport(projectName, fileCount, SumCounts(StepAnalyses(steps)), analyses, project.0,
      GrowthRecommendations(growth.0), security.0, FreshTokens(steps) + project.1 + growth.1 + security.1)
  }

  /** The requests of the three project-level calls that count in the backend's statistics. */
  function ReportRequests(steps: seq<FileStep>, replies: Replies): nat {
    var analyses := AnalysesOf(steps);
    Requests(ProjectOutcome(analyses, replies)) + Requests(replies.growth(analyses)) + Requests(SecurityOutcome(analyses, replies))
  }

  class CodeAnalyzer {
    const llm: LlmService.LlmService
    const context: ProjectContext.ProjectContext
    const history: AnalysisStore.AnalysisStore
    var issueCount: int
    var filesAnalyzed: nat
    var totalTokens: int

    ghost predicate Valid()
      reads this, context, history
    {
      context.Valid() && history.Valid()
    }

    constructor (llm: LlmService.LlmService, context: ProjectContext.ProjectContext, history: AnalysisStore.AnalysisStore)
      requires context.Valid() && history.Valid()
      ensures Valid()
      ensures this.llm == llm && this.context == context && this.history == history
      ensures issueCount == 0 && filesAnalyzed == 0 && totalTokens == 0
    {
      this.llm := llm;
      this.context := context;
      this.history := history;
      issueCount := 0;
      filesAnalyzed := 0;
      totalTokens := 0;
    }

    /**
     * `_analyze_file`: the standard pass, the security pass for files of more
     * than 20 lines, the performance pass for files of more than 50, and the
     * issues of all three; the tokens spent are added to the total.
     */
    method AnalyzeFile(path: string, content: string, language: string, mtime: Option<int>, reply: (string, Pass) -> LlmService.Outcome)
      returns (analysis: FileAnalysis)
      modifies this, llm
      ensures analysis == FreshAnalysis(path, language, content, mtime, reply)
      ensures totalTokens == old(totalTokens) + analysis.tokensUsed.value
      ensures llm.totalTokensUsed == old(llm.totalTokensUsed) + analysis.tokensUsed.value
      ensures llm.totalRequests == old(llm.totalRequests) + AnalysisRequests(path, content, reply)
      ensures issueCount == old(issueCount) && filesAnalyzed == old(filesAnalyzed)
    {
      var lines := LineCount(content);
      var standard := RunPass(path, reply, Standard, true);
      var security := RunPass(path, reply, Security, lines > SecurityLines);
      var performance := RunPass(path, reply, Performance, lines > PerformanceLines);
      var tokens := PassTokens(standard) + PassTokens(security) + PassTokens(performance);
      totalTokens := totalTokens + tokens;
      analysis := BuildAnalysis(path, language, mtime, standard, security, performance);
      FreshAnalysisOfPasses(path, language, content, mtime, reply, standard, security, performance);
    }

    /** One pass of `_analyze_file`, requested only when `run` holds. */
    method RunPass(path: string, reply: (string, Pass) -> LlmService.Outcome, pass: Pass, run: bool)
      returns (answer: Option<(string, int)>)
      modifies llm
      ensures answer == if run then Some(LlmService.Answer(reply(path, pass))) else None
      ensures llm.totalTokensUsed == old(llm.totalTokensUsed) + PassTokens(answer)
      ensures llm.totalRequests == old(llm.totalRequests) + if run then Requests(reply(path, pass)) else 0
    {
      answer := None;
      if run {
        var text, tokens := llm.CallOllama(reply(path, pass));
        answer := Some((text, tokens));
      }
    }

    /** One turn of the loop of `analyze_directory`: the file skipped, its stored analysis reused, or a fresh one stored. */
    method TakeIn(path: string, read: string -> Option<string>, mtime: string -> Option<int>, reply: (string, Pass) -> LlmService.Outcome)
      returns (step: Option<FileStep>)
      requires Valid()
      modifies this, llm, context
      ensures Valid()
      ensures step == StepOf(old(context.fileAnalyses), path, read, mtime, reply)
      ensures step.Some? ==> step.value.path == path
      ensures context.fileAnalyses == Stored(old(context.fileAnalyses), step)
      ensures context.fileContexts == old(context.fileContexts) && context.projectContext == old(context.projectContext)
      ensures totalTokens == old(totalTokens) + TakenTokens(step)
      ensures llm.totalTokensUsed == old(llm.totalTokensUsed) + TakenTokens(step)
      ensures llm.totalRequests == old(llm.totalRequests) + TakenRequests(step)
      ensures issueCount == old(issueCount) && filesAnalyzed == old(filesAnalyzed)
    {
      var got := FileService.GetFileContent(path, read(path));
      var content, language := got.0, got.1;
      if content.None? || content.value == "" || language.None? || language.value == "" {
        return None;
      }
      var existing := context.GetFileAnalysis(path);
      var modified := FileService.IsFileModified(existing, mtime(path));
      if existing.Some? && existing.value.Truthy() && !modified {
        return Some(FileStep(path, existing.value, false, 0));
      }
      var analysis := AnalyzeFile(path, content.value, language.value, mtime(path), reply);
      context.UpdateFileAnalysis(path, analysis);
      step := Some(FileStep(path, analysis, true, AnalysisRequests(path, content.value, reply)));
    }

    /**
     * `analyze_directory` over the code files `files` of the project
     * `projectName`: no report when there are none; otherwise every file is
     * taken in, the three project-level requests are made, and the report is
     * stored in the history at time `now`. The counters start from zero.
     */
    method AnalyzeDirectory(projectName: string, files: seq<string>, read: string -> Option<string>, mtime: string -> Option<int>,
                            reply: (string, Pass) -> LlmService.Outcome, replies: Replies, now: int)
      returns (report: Option<ProjectReport>)
      requires Valid()
      modifies this, llm, context, history
      ensures Valid()
      ensures context.fileContexts == old(context.fileContexts) && context.projectContext == old(context.projectContext)
      ensures files == [] ==>
        && report.None? && issueCount == 0 && filesAnalyzed == 0 && totalTokens == 0
        && context.fileAnalyses == old(context.fileAnalyses) && history.store == old(history.store)
        && llm.totalTokensUsed == old(llm.totalTokensUsed) && llm.totalRequests == old(llm.totalRequests)
      ensures files != [] ==>
        var p := Process(old(context.fileAnalyses), files, read, mtime, reply);
        && report == Some(ReportOf(projectName, |files|, p.0, replies))
        && context.fileAnalyses == p.1
        && issueCount == report.value.totalIssues && filesAnalyzed == |p.0| && totalTokens == report.value.totalTokens
        && llm.totalTokensUsed == old(llm.totalTokensUsed) + report.value.totalTokens
        && llm.totalRequests == old(llm.totalRequests) + StepRequests(p.0) + ReportRequests(p.0, replies)
        && history.store == Put(old(history.store), projectName,
          AnalysisStore.Trimmed(old(history.EntriesOf(projectName)) + [AnalysisStore.NewEntry(projectName, report.value, now)]))
    {
      issueCount := 0;
      filesAnalyzed := 0;
      totalTokens := 0;
      if files == [] {
        return None;
      }
      ghost var p := Process(old(context.fileAnalyses), files, read, mtime, reply);
      ghost var tokens0, requests0 := llm.totalTokensUsed, llm.totalRequests;
      ghost var store0, entries0 := history.store, history.EntriesOf(projectName);
      var analyses;
      ghost var steps;
      analyses, steps := TakeInAll(files, read, mtime, reply);
      assert steps == p.0 && context.fileAnalyses == p.1;
      assert llm.totalTokensUsed == tokens0 + FreshTokens(steps) && llm.totalRequests == requests0 + StepRequests(steps);
      var results := Report(projectName, |files|, analyses, steps, replies);
      assert llm.totalTokensUsed == tokens0 + results.totalTokens;
      assert llm.totalRequests == requests0 + StepRequests(p.0) + ReportRequests(p.0, replies);
      history.StoreAnalysis(projectName, results, now);
      report := Some(results);
    }

    /** The end of `analyze_directory`: the three project-level requests, and the report. */
    method Report(projectName: string, fileCount: nat, analyses: Dict<string, FileAnalysis>, ghost steps: seq<FileStep>, replies: Replies)
      returns (results: ProjectReport)
      requires Tracks(steps, analyses, (0, 0, 0, llm.totalTokensUsed - FreshTokens(steps), llm.totalRequests - StepRequests(steps)))
      modifies this, llm
      ensures results == ReportOf(projectName, fileCount, steps, replies)
      ensures issueCount == results.totalIssues && filesAnalyzed == |steps| && totalTokens == results.totalTokens
      ensures llm.totalTokensUsed == old(llm.totalTokensUsed) - FreshTokens(steps) + results.totalTokens
      ensures llm.totalRequests == old(llm.totalRequests) + ReportRequests(steps, replies)
    {
      ghost var start := Counters();
      assert analyses == AnalysesOf(steps) && start.0 == SumCounts(StepAnalyses(steps))
        && start.1 == |steps| && start.2 == FreshTokens(steps);
      ghost var project := LlmService.Answer(ProjectOutcome(analyses, replies));
      ghost var growthAnswer := LlmService.Answer(replies.growth(analyses));
      ghost var securityAnswer := LlmService.Answer(SecurityOutcome(analyses, replies));
      ghost var spent := project.1 + growthAnswer.1 + securityAnswer.1;
      ghost var requests := Requests(ProjectOutcome(analyses, replies)) + Requests(replies.growth(analyses))
        + Requests(SecurityOutcome(analyses, replies));
      assert requests == ReportRequests(steps, replies);
      var projectAnalysis := GenerateProjectAnalysis(analyses, replies);
      var growth := GenerateGrowthRecommendations(analyses, replies);
      var security := GenerateSecurityOverview(analyses, replies);
      assert issueCount == start.0 && filesAnalyzed == start.1 && totalTokens == start.2 + spent;
      assert llm.totalTokensUsed == old(llm.totalTokensUsed) + spent;
      assert llm.totalRequests == old(llm.totalRequests) + requests;
      results := ProjectReport(projectName, fileCount, issueCount, analyses, projectAnalysis, growth, security, totalTokens);
    }

    /**
     * The bookkeeping of the loop of `analyze_directory` after `steps`: the
     * result dict lists their analyses and the counters have grown, from
     * `base`, by what the steps counted and spent.
     */
    ghost predicate Tracks(steps: seq<FileStep>, analyses: Dict<string, FileAnalysis>, base: (int, int, int, int, int))
      reads this, llm
    {
      Tracked(steps, analyses, base, Counters())
    }

    /** The counters `Tracks` starts from. */
    function Counters(): (int, int, int, int, int)
      reads this, llm
    {
      (issueCount, filesAnalyzed, totalTokens, llm.totalTokensUsed, llm.totalRequests)
    }

    /**
     * The bookkeeping of one turn of the loop of `analyze_directory`, once
     * the file is taken in: its issues counted, one more file, the result
     * dict extended. `before` are the counters from before the file was taken in.
     */
    method Advance(step: Option<FileStep>, analyses: Dict<string, FileAnalysis>, ghost steps: seq<FileStep>,
                   ghost base: (int, int, int, int, int), ghost before: (int, int, int, int, int))
      returns (next: Dict<string, FileAnalysis>, ghost more: seq<FileStep>)
      requires Valid() && Tracked(steps, analyses, base, before)
      requires issueCount == before.0 && filesAnalyzed == before.1
      requires totalTokens == before.2 + TakenTokens(step)
      requires llm.totalTokensUsed == before.3 + TakenTokens(step)
      requires llm.totalRequests == before.4 + TakenRequests(step)
      modifies this
      ensures Valid() && Tracks(more, next, base) && more == steps + Taken(step)
    {
      next := analyses;
      more := steps;
      if step.Some? {
        issueCount := issueCount + CountIssues(step.value.analysis);
        filesAnalyzed := filesAnalyzed + 1;
        next := Put(analyses, step.value.path, step.value.analysis);
        more := steps + [step.value];
      }
      TrackedTaken(steps, analyses, base, before, step, more, next, Counters());
    }

    /** The loop of `analyze_directory`: every file taken in, in order, the counters advanced by what the steps counted and spent. */
    method TakeInAll(files: seq<string>, read: string -> Option<string>, mtime: string -> Option<int>, reply: (string, Pass) -> LlmService.Outcome)
      returns (analyses: Dict<string, FileAnalysis>, ghost steps: seq<FileStep>)
      requires Valid()
      modifies this, llm, context
      ensures Valid()
      ensures context.fileContexts == old(context.fileContexts) && context.projectContext == old(context.projectContext)
      ensures var p := Process(old(context.fileAnalyses), files, read, mtime, reply);
        steps == p.0 && context.fileAnalyses == p.1
      ensures Tracks(steps, analyses, old(Counters()))
    {
      ghost var whole := Process(context.fileAnalyses, files, read, mtime, reply);
      ghost var base := Counters();
      steps := [];
      analyses := Empty();
      var i := 0;
      assert files[i..] == files;
      while i < |files|
        invariant 0 <= i <= |files|
        invariant Valid() && Tracks(steps, analyses, base)
        invariant context.fileContexts == old(context.fileContexts) && context.projectContext == old(context.projectContext)
        invariant var rest := Process(context.fileAnalyses, files[i..], read, mtime, reply);
          whole.0 == steps + rest.0 && whole.1 == rest.1
      {
        ProcessAdvance(whole, steps, context.fileAnalyses, files, i, read, mtime, reply);
        ghost var before := Counters();
        var step := TakeIn(files[i], read, mtime, reply);
        analyses, steps := Advance(step, analyses, steps, base, before);
        i := i + 1;
      }
      assert files[i..] == [];
    }

    /** `_generate_project_analysis`: one request about the counts and the ten most frequent issues. */
    method GenerateProjectAnalysis(analyses: Dict<string, FileAnalysis>, replies: Replies) returns (text: string)
      requires analyses.Valid()
      modifies this, llm
      ensures var answer := LlmService.Answer(ProjectOutcome(analyses, replies));
        text == answer.0 && totalTokens == old(totalTokens) + answer.1
        && llm.totalTokensUsed == old(llm.totalTokensUsed) + answer.1
      ensures llm.totalRequests == old(llm.totalRequests) + Requests(ProjectOutcome(analyses, replies))
      ensures issueCount == old(issueCount) && filesAnalyzed == old(filesAnalyzed)
    {
      var values := Values(analyses);
      var all := CollectIssues(values);
      var freq := CountFrequencies(all);
      var top := Take(Sorting.SortDesc(Pairs(freq), ProjectContext.Count), 10);
      var tokens;
      text, tokens := llm.CallOllama(replies.project(ProjectPrompt(|analyses.keys|, SumCounts(values), top)));
      totalTokens := totalTokens + tokens;
    }

    /** `_generate_growth_recommendations`: one request, its reply parsed into recommendations. */
    method GenerateGrowthRecommendations(analyses: Dict<string, FileAnalysis>, replies: Replies) returns (recs: seq<Recommendation>)
      modifies this, llm
      ensures var answer := LlmService.Answer(replies.growth(analyses));
        recs == GrowthRecommendations(answer.0) && totalTokens == old(totalTokens) + answer.1
        && llm.totalTokensUsed == old(llm.totalTokensUsed) + answer.1
      ensures llm.totalRequests == old(llm.totalRequests) + Requests(replies.growth(analyses))
      ensures issueCount == old(issueCount) && filesAnalyzed == old(filesAnalyzed)
    {
      var text, tokens := llm.CallOllama(replies.growth(analyses));
      totalTokens := totalTokens + tokens;
      recs := ParseRecommendations(text);
    }

    /** `_generate_security_overview`: one request about the collected security issues. */
    method GenerateSecurityOverview(analyses: Dict<string, FileAnalysis>, replies: Replies) returns (text: string)
      requires analyses.Valid()
      modifies this, llm
      ensures var answer := LlmService.Answer(SecurityOutcome(analyses, replies));
        text == answer.0 && totalTokens == old(totalTokens) + answer.1
        && llm.totalTokensUsed == old(llm.totalTokensUsed) + answer.1
      ensures llm.totalRequests == old(llm.totalRequests) + Requests(SecurityOutcome(analyses, replies))
      ensures issueCount == old(issueCount) && filesAnalyzed == old(filesAnalyzed)
    {
      var found := CollectSecurityIssues(Values(analyses));
      var tokens;
      text, tokens := llm.CallOllama(replies.security(found));
      totalTokens := totalTokens + tokens;
    }
  }
}
