/**
 * The code fixer: it reads the issues of each file out of an analysis report,
 * has the model rewrite each file, accepts or rejects the rewrite, and marks
 * the fixed issues in the project context.
 *
 * The report is JSON (`json.loads`, the parameter `decode`) or text. In text,
 * `# File: <path>` headings open one section per file; a section's issues are
 * its `Issue|Problem|Bug|Error|Warning ...:` lines, or else its dash bullets.
 */
module CodeFixer {
  import opened Wrappers
  import opened Text
  import opened Json
  import opened Dicts
  import opened Records
  import IP = IssuePatterns
  import FS = FileService
  import LS = LlmService
  import PC = ProjectContext

  // ---------------------------------------------------------------------
  // File headings: `#\s*File:\s*(.+?)(?:\n|$)`

  /**
   * The heading that starts at `i`. The `\s*` after `#` stops at the `F` it
   * must be followed by, so only the tail can backtrack (see `IP.Tail`).
   */
  function HeadingAt(t: string, i: nat): (m: Option<IP.Match>)
    requires i <= |t|
    ensures m.Some? ==> i < m.value.end <= |t| && m.value.lineNumber.None?
  {
    if i < |t| && t[i] == '#' then
      var a := SkipSpace(t, i + 1);
      if OccursAt(t, "File:", a) then IP.WithTail(t, None, a + 5) else None
    else None
  }

  /** `re.finditer` of the heading pattern from `i`: each heading's start and its match. */
  function Headings(t: string, i: nat): seq<(nat, IP.Match)>
    requires i <= |t|
    decreases |t| - i
  {
    match HeadingAt(t, i)
    case Some(m) => [(i, m)] + Headings(t, m.end)
    case None => if i == |t| then [] else Headings(t, i + 1)
  }

  /**
   * `re.search` of the heading pattern in `t[i:]`, as a position in `t`. The
   * pattern only looks forward, so it matches the same way in the slice.
   */
  function NextHeading(t: string, i: nat): (r: Option<nat>)
    requires i <= |t|
    ensures r.Some? ==> i <= r.value <= |t| && HeadingAt(t, r.value).Some?
    decreases |t| - i
  {
    if HeadingAt(t, i).Some? then Some(i)
    else if i == |t| then None
    else NextHeading(t, i + 1)
  }

  /** The heading found is the first from `i`. */
  lemma {:induction false} NextHeadingFirst(t: string, i: nat)
    requires i <= |t|
    ensures NextHeading(t, i).Some? ==> forall k :: i <= k < NextHeading(t, i).value ==> HeadingAt(t, k).None?
    decreases |t| - i
  {
    var h := HeadingAt(t, i);
    if h.None? && i < |t| {
      var r := NextHeading(t, i + 1);
      NextHeadingFirst(t, i + 1);
      assert NextHeading(t, i) == r;
      if r.Some? {
        forall k | i <= k < r.value ensures HeadingAt(t, k).None? {
          if k == i { assert HeadingAt(t, k) == h; }
        }
      }
    }
  }

  /**
   * No heading is found only when no position from `i` starts one (the
   * converse is the function's own postcondition: a heading found starts one).
   */
  lemma {:induction false} NextHeadingNone(t: string, i: nat)
    requires i <= |t| && NextHeading(t, i).None?
    ensures forall k :: i <= k <= |t| ==> HeadingAt(t, k).None?
    decreases |t| - i
  {
    if i < |t| {
      assert HeadingAt(t, i).None? && NextHeading(t, i + 1).None?;
      NextHeadingNone(t, i + 1);
      NoHeadingFrom(t, i);
    } else {
      assert HeadingAt(t, i).None?;
    }
  }

  lemma NoHeadingFrom(t: string, i: nat)
    requires i < |t| && HeadingAt(t, i).None?
    requires forall k :: i + 1 <= k <= |t| ==> HeadingAt(t, k).None?
    ensures forall k :: i <= k <= |t| ==> HeadingAt(t, k).None?
  {
  }

  /** Where the section that starts at `e` ends: at the next heading, or at the end of the report. */
  function SectionEnd(t: string, e: nat): (r: nat)
    requires e <= |t|
    ensures e <= r <= |t|
  {
    NextHeading(t, e).GetOr(|t|)
  }

  /** Every heading lies inside the text after `i`. */
  ghost predicate HeadingsPlaced(t: string, hs: seq<(nat, IP.Match)>, i: nat) {
    forall k :: 0 <= k < |hs| ==> i <= hs[k].0 < hs[k].1.end <= |t|
  }

  lemma {:induction false} HeadingsInside(t: string, i: nat)
    requires i <= |t|
    ensures HeadingsPlaced(t, Headings(t, i), i)
    decreases |t| - i
  {
    match HeadingAt(t, i)
    case Some(m) =>
      HeadingsInside(t, m.end);
    case None =>
      if i < |t| {
        HeadingsInside(t, i + 1);
      }
  }

  // ---------------------------------------------------------------------
  // Issue lines: the analyzer's IssueKeyword pattern, without MULTILINE

  /**
   * `re.finditer` of `(?:Issue|Problem|Bug|Error|Warning)\s+\#?\d*\s*:\s*(.+?)(?:\n|$)`
   * from `i`, with each match's start. The pattern has no `^` and its `$`
   * is only reached at a line's end, so MULTILINE makes no difference.
   */
  function IssueMatches(s: string, i: nat): seq<(nat, IP.Match)>
    requires i <= |s|
    decreases |s| - i
  {
    match IP.MatchAt(IP.IssueKeyword, s, i)
    case Some(m) => [(i, m)] + IssueMatches(s, m.end)
    case None => if i == |s| then [] else IssueMatches(s, i + 1)
  }

  function Groups(ms: seq<(nat, IP.Match)>): (r: seq<IP.Match>)
    ensures |r| == |ms| && forall k :: 0 <= k < |ms| ==> r[k] == ms[k].1
  {
    seq(|ms|, k requires 0 <= k < |ms| => ms[k].1)
  }

  lemma GroupsCons(x: (nat, IP.Match), ms: seq<(nat, IP.Match)>)
    ensures Groups([x] + ms) == [x.1] + Groups(ms)
  {
    var a, b := Groups([x] + ms), [x.1] + Groups(ms);
    assert |a| == |b|;
    forall k | 0 <= k < |a| ensures a[k] == b[k] {
      if k > 0 { assert ([x] + ms)[k] == ms[k - 1]; }
    }
  }

  /** The fixer reads the same issue lines, in the same order, as the analyzer's first pattern. */
  lemma {:induction false} IssueMatchesAreScan(s: string, i: nat)
    requires i <= |s|
    ensures Groups(IssueMatches(s, i)) == IP.Scan(IP.IssueKeyword, s, i)
    decreases |s| - i
  {
    match IP.MatchAt(IP.IssueKeyword, s, i)
    case Some(m) =>
      var rest := IssueMatches(s, m.end);
      assert IssueMatches(s, i) == [(i, m)] + rest;
      IssueMatchesAreScan(s, m.end);
      GroupsCons((i, m), rest);
    case None =>
      if i < |s| {
        IssueMatchesAreScan(s, i + 1);
      }
  }

  ghost predicate MatchesPlaced(s: string, ms: seq<(nat, IP.Match)>, i: nat) {
    forall k :: 0 <= k < |ms| ==> i <= ms[k].0 < ms[k].1.end <= |s|
  }

  lemma {:induction false} IssueMatchesInside(s: string, i: nat)
    requires i <= |s|
    ensures MatchesPlaced(s, IssueMatches(s, i), i)
    decreases |s| - i
  {
    match IP.MatchAt(IP.IssueKeyword, s, i)
    case Some(m) =>
      IssueMatchesInside(s, m.end);
    case None =>
      if i < |s| {
        IssueMatchesInside(s, i + 1);
      }
  }

  /** `(?:Line|Lines)\s+(\d+(?:-\d+)?)` at `i`: the line-number group. */
  function LineRangeAt(t: string, i: nat): (r: Option<string>)
    ensures r.Some? ==> IP.IsLineRange(r.value)
  {
    match IP.LineWordEnd(t, i)
    case None => None
    case Some(a) =>
      var b := SkipSpace(t, a);
      var c := SkipDigits(t, b);
      if c == b then None
      else
        var d := if c + 1 < |t| && t[c] == '-' && IsDigit(t[c + 1]) then SkipDigits(t, c + 1) else c;
        LineRangeOf(t, b, c, d);
        Some(t[b..d])
  }

  /** Digits from `b` to `c`, then optionally a dash and more digits up to `d`, form a line range. */
  lemma LineRangeOf(t: string, b: nat, c: nat, d: nat)
    requires b < c <= d <= |t|
    requires forall k :: b <= k < c ==> IsDigit(t[k])
    requires c == d || (t[c] == '-' && c + 1 < d && forall k :: c + 1 <= k < d ==> IsDigit(t[k]))
    ensures IP.IsLineRange(t[b..d])
  {
    var range := t[b..d];
    var n := c - b;
    assert range[..n] == t[b..c];
    assert AllDigits(range[..n]);
    if c < d {
      assert range[n + 1..] == t[c + 1..d];
      assert AllDigits(range[n + 1..]);
    }
  }

  /** `re.search` of the line pattern from `i`. */
  function FirstLineRange(t: string, i: nat): (r: Option<string>)
    requires i <= |t|
    ensures r.Some? ==> IP.IsLineRange(r.value)
    decreases |t| - i
  {
    match LineRangeAt(t, i)
    case Some(range) => Some(range)
    case None => if i == |t| then None else FirstLineRange(t, i + 1)
  }

  /** The issue read from one match: the line number is searched for in the matched text only. */
  function IssueFound(s: string, start: nat, m: IP.Match): (x: Issue)
    requires start <= m.end <= |s|
    ensures !x.fixed && x.description == Strip(m.group)
  {
    Issue(FirstLineRange(s[start..m.end], 0), Strip(m.group), false)
  }

  function IssuesFound(s: string, ms: seq<(nat, IP.Match)>): (r: seq<Issue>)
    requires MatchesPlaced(s, ms, 0)
    ensures |r| == |ms|
  {
    if ms == [] then []
    else IssuesFound(s, ms[..|ms| - 1]) + [IssueFound(s, ms[|ms| - 1].0, ms[|ms| - 1].1)]
  }

  // ---------------------------------------------------------------------
  // Dash bullets

  /**
   * `(?:^\s*-\s*|\n\s*-\s*)(.+?)(?:\n|$)` at `i`, as written: without
   * MULTILINE, `^` is only the start of the section, and elsewhere a match
   * must begin at a newline. At 0 the second alternative can only reach the
   * dash the first one reaches, so the first one decides.
   */
  function BulletAt(s: string, i: nat): (m: Option<IP.Match>)
    requires i <= |s|
    ensures m.Some? ==> i < m.value.end <= |s|
  {
    var a := if i == 0 then SkipSpace(s, 0) else if i < |s| && s[i] == '\n' then SkipSpace(s, i + 1) else |s|;
    if a < |s| && s[a] == '-' then IP.WithTail(s, None, a + 1) else None
  }

  /** `re.finditer` of the bullet pattern as written. */
  function Bullets(s: string, i: nat): seq<IP.Match>
    requires i <= |s|
    decreases |s| - i
  {
    match BulletAt(s, i)
    case Some(m) => [m] + Bullets(s, m.end)
    case None => if i == |s| then [] else Bullets(s, i + 1)
  }

  /** The bullets kept: those whose stripped text is longer than 10 characters. */
  function Substantial(ms: seq<IP.Match>): (r: seq<Issue>)
    ensures |r| <= |ms|
  {
    if ms == [] then []
    else
      var desc := Strip(ms[|ms| - 1].group);
      Substantial(ms[..|ms| - 1]) + (if |desc| > 10 then [Issue(None, desc, false)] else [])
  }

  /**
   * The issues of one file's section: the issue lines when there are any,
   * otherwise the substantial dash bullets. The bullets are those of the
   * corrected pattern (see `BulletsAsWrittenEveryOther`).
   */
  function SectionIssues(s: string): seq<Issue> {
    var found := IssueMatches(s, 0);
    IssueMatchesInside(s, 0);
    if found != [] then IssuesFound(s, found) else Substantial(IP.Scan(IP.DashBullet, s, 0))
  }

  // ---------------------------------------------------------------------
  // The bullet pattern as written skips every other bullet line

  /** The tail after a bullet's dash, on a line ` d` that a newline ends. */
  lemma TailOfBulletLine(t: string, j: nat, d: string)
    requires IP.OneLine(d) && j + 2 + |d| <= |t| && t[j] == ' ' && t[j + 1..j + 1 + |d|] == d && t[j + 1 + |d|] == '\n'
    ensures IP.WithTail(t, None, j) == Some(IP.Match(None, d, j + 2 + |d|))
  {
    assert t[j + 1] == d[0];
    assert SkipSpace(t, j) == SkipSpace(t, j + 1) == j + 1;
    forall k | j + 1 <= k < j + 1 + |d|
      ensures t[k] != '\n'
    {
      assert t[k] == d[k - j - 1];
    }
    assert LineEnd(t, j + 1) == j + 1 + |d|;
  }

  /** Between newlines, the pattern as written finds nothing: it resumes at the next newline. */
  lemma {:induction false} BulletsSkipLine(s: string, i: nat, j: nat)
    requires 0 < i <= j <= |s| && forall k :: i <= k < j ==> s[k] != '\n'
    ensures Bullets(s, i) == Bullets(s, j)
    decreases j - i
  {
    if i < j {
      assert BulletAt(s, i).None?;
      BulletsSkipLine(s, i + 1, j);
    }
  }

  /** Every text is one line that does not open with whitespace. */
  predicate OneLines(ds: seq<string>) {
    forall k :: 0 <= k < |ds| ==> IP.OneLine(ds[k])
  }

  /** A section of bullet lines `- d`, each ended by a newline. */
  function DashLines(ds: seq<string>): (t: string)
    ensures ds == [] <==> t == []
  {
    if ds == [] then "" else "- " + ds[0] + "\n" + DashLines(ds[1..])
  }

  /** The captured texts of a list of matches. */
  function Captured(ms: seq<IP.Match>): (r: seq<string>)
    ensures |r| == |ms| && forall k :: 0 <= k < |ms| ==> r[k] == ms[k].group
  {
    seq(|ms|, k requires 0 <= k < |ms| => ms[k].group)
  }

  /** The first, third, fifth ... of a list. */
  function EveryOther(ds: seq<string>): (r: seq<string>)
    ensures |r| == (|ds| + 1) / 2
    ensures forall k :: 0 <= k < |r| ==> r[k] == ds[2 * k]
  {
    if |ds| <= 1 then ds else [ds[0]] + EveryOther(ds[2..])
  }

  /** The first line of bullet lines that start at `i`, and where the rest start. */
  lemma {:induction false} DashLinesHead(t: string, i: nat, ds: seq<string>)
    requires i <= |t| && t[i..] == DashLines(ds) && ds != []
    ensures i + 3 + |ds[0]| <= |t| && t[i] == '-' && t[i + 1] == ' '
    ensures t[i + 2..i + 2 + |ds[0]|] == ds[0] && t[i + 2 + |ds[0]|] == '\n'
    ensures t[i + 3 + |ds[0]|..] == DashLines(ds[1..])
  {
    var d := ds[0];
    var u := t[i..];
    assert u == "- " + d + "\n" + DashLines(ds[1..]);
    assert u[0] == '-' && u[1] == ' ' && u[2..2 + |d|] == d && u[2 + |d|] == '\n';
    assert u[3 + |d|..] == DashLines(ds[1..]);
  }

  /** The captured texts of a match followed by more matches. */
  lemma {:induction false} CapturedCons(m: IP.Match, ms: seq<IP.Match>)
    ensures Captured([m] + ms) == [m.group] + Captured(ms)
  {
  }

  /** A newline at `j`, followed by the bullet lines `ds`. */
  predicate NewlineBefore(t: string, j: nat, ds: seq<string>) {
    j < |t| && t[j] == '\n' && t[j + 1..] == DashLines(ds)
  }

  /** A match of the pattern as written at `i` is the first from `i`; the scan resumes at its end. */
  lemma {:induction false} BulletsCons(t: string, i: nat, m: IP.Match)
    requires i <= |t| && BulletAt(t, i) == Some(m)
    ensures Bullets(t, i) == [m] + Bullets(t, m.end)
  {
  }

  /** The pattern as written finds nothing at the end of a text, nor at a final newline. */
  lemma {:induction false} BulletsAtEnd(t: string, j: nat)
    requires 0 < |t| && (j == |t| || (j + 1 == |t| && t[j] == '\n'))
    ensures Bullets(t, j) == []
  {
    if j < |t| {
      assert SkipSpace(t, j) == SkipSpace(t, j + 1) == |t|;
      assert BulletAt(t, j).None?;
    }
    assert BulletAt(t, |t|).None?;
  }

  /** The pattern as written from the start of a bullet line that no newline precedes in the match: the line is skipped. */
  lemma {:induction false} BulletLineSkipped(t: string, n: nat, ds: seq<string>, e: nat)
    requires 0 < n && LinesFrom(t, n, ds) && ds != [] && IP.OneLine(ds[0]) && e == n + 2 + |ds[0]|
    ensures NewlineBefore(t, e, ds[1..])
    ensures Bullets(t, n) == Bullets(t, e)
  {
    DashLinesHead(t, n, ds);
    BulletLineHasNoNewline(t, n, ds[0]);
    BulletsSkipLine(t, n, e);
  }

  /** A bullet line `- d` holds no newline before its end. */
  lemma {:induction false} BulletLineHasNoNewline(t: string, n: nat, d: string)
    requires IP.OneLine(d) && n + 2 + |d| <= |t| && t[n] == '-' && t[n + 1] == ' ' && t[n + 2..n + 2 + |d|] == d
    ensures forall k :: n <= k < n + 2 + |d| ==> t[k] != '\n'
  {
    forall k | n + 2 <= k < n + 2 + |d|
      ensures t[k] != '\n'
    {
      assert t[k] == d[k - n - 2];
    }
  }

  /** The pattern as written at a newline followed by a bullet line `- d`: it matches that line. */
  lemma {:induction false} BulletAtDash(t: string, j: nat, d: string, n: nat)
    requires IP.OneLine(d) && n == j + 4 + |d| && n <= |t|
    requires t[j] == '\n' && t[j + 1] == '-' && t[j + 2] == ' ' && t[j + 3..j + 3 + |d|] == d && t[j + 3 + |d|] == '\n'
    ensures BulletAt(t, j) == Some(IP.Match(None, d, n))
  {
    assert SkipSpace(t, j + 1) == j + 1;
    assert SkipSpace(t, j) == j + 1;
    TailOfBulletLine(t, j + 2, d);
  }

  /** The pattern as written at a newline before bullet lines: it matches the first line. */
  lemma {:induction false} BulletAtNewline(t: string, j: nat, ds: seq<string>, n: nat)
    requires NewlineBefore(t, j, ds) && ds != [] && IP.OneLine(ds[0]) && n == j + 4 + |ds[0]|
    ensures BulletAt(t, j) == Some(IP.Match(None, ds[0], n))
    ensures LinesFrom(t, n, ds[1..])
  {
    DashLinesHead(t, j + 1, ds);
    BulletAtDash(t, j, ds[0], n);
  }

  /** The pattern as written at the start of bullet lines: it matches the first line. */
  lemma {:induction false} BulletAtStart(ds: seq<string>)
    requires ds != [] && IP.OneLine(ds[0])
    ensures BulletAt(DashLines(ds), 0) == Some(IP.Match(None, ds[0], 3 + |ds[0]|))
    ensures LinesFrom(DashLines(ds), 3 + |ds[0]|, ds[1..])
  {
    var t := DashLines(ds);
    DashLinesHead(t, 0, ds);
    assert SkipSpace(t, 0) == 0;
    TailOfBulletLine(t, 1, ds[0]);
  }

  /**
   * The pattern as written, scanning from the end of a bullet match: the
   * line that starts there is never found, and the scan resumes at its
   * newline.
   */
  lemma {:induction false} BulletsAfterMatch(t: string, n: nat, ds: seq<string>)
    requires 0 < n && LinesFrom(t, n, ds) && OneLines(ds)
    ensures Captured(Bullets(t, n)) == if ds == [] then [] else EveryOther(ds[1..])
    decreases |ds|, 0
  {
    if ds == [] {
      assert n == |t|;
      BulletsAtEnd(t, n);
    } else {
      var e := n + 2 + |ds[0]|;
      var rest := ds[1..];
      BulletLineSkipped(t, n, ds, e);
      assert OneLines(rest);
      BulletsAtNewline(t, e, rest);
      assert Captured(Bullets(t, n)) == EveryOther(rest);
    }
  }

  /** The pattern as written, scanning from a newline before bullet lines: it finds every other line. */
  lemma {:induction false} BulletsAtNewline(t: string, j: nat, ds: seq<string>)
    requires NewlineBefore(t, j, ds) && OneLines(ds)
    ensures Captured(Bullets(t, j)) == EveryOther(ds)
    decreases |ds|, 1
  {
    if ds == [] {
      BulletsAtEnd(t, j);
    } else {
      assert EveryOther(ds) == [ds[0]] + (if ds[1..] == [] then [] else EveryOther(ds[1..][1..]));
      var n := j + 4 + |ds[0]|;
      var m := IP.Match(None, ds[0], n);
      BulletAtNewline(t, j, ds, n);
      BulletsCons(t, j, m);
      CapturedCons(m, Bullets(t, n));
      assert OneLines(ds[1..]);
      BulletsAfterMatch(t, n, ds[1..]);
    }
  }

  /**
   * Bullet lines in a row: the pattern as written finds only every other
   * one, because each match takes the newline that the next line needs.
   */
  lemma {:induction false} BulletsAsWrittenEveryOther(ds: seq<string>)
    requires OneLines(ds)
    ensures Captured(Bullets(DashLines(ds), 0)) == EveryOther(ds)
  {
    var t := DashLines(ds);
    if ds == [] {
      assert BulletAt(t, 0).None?;
    } else {
      assert EveryOther(ds) == [ds[0]] + (if ds[1..] == [] then [] else EveryOther(ds[1..][1..]));
      var n := 3 + |ds[0]|;
      var m := IP.Match(None, ds[0], n);
      BulletAtStart(ds);
      BulletsCons(t, 0, m);
      CapturedCons(m, Bullets(t, n));
      assert OneLines(ds[1..]);
      BulletsAfterMatch(t, n, ds[1..]);
    }
  }

  /** A line `- d` that a newline ends is one match of the corrected pattern. */
  lemma DashLineAt(t: string, i: nat, d: string)
    requires IP.OneLine(d) && i + 3 + |d| <= |t| && (i == 0 || t[i - 1] == '\n')
    requires t[i] == '-' && t[i + 1] == ' ' && t[i + 2..i + 2 + |d|] == d && t[i + 2 + |d|] == '\n'
    ensures IP.MatchAt(IP.DashBullet, t, i) == Some(IP.Match(None, d, i + 3 + |d|))
  {
    assert SkipSpace(t, i) == i;
    TailOfBulletLine(t, i + 1, d);
    assert IP.ListItemAt(IP.DashBullet, t, i) == IP.WithTail(t, None, i + 1);
  }

  /** Bullet lines `ds` start at `i`, at the start of a line of `t`. */
  predicate LinesFrom(t: string, i: nat, ds: seq<string>) {
    i <= |t| && (i == 0 || t[i - 1] == '\n') && t[i..] == DashLines(ds)
  }

  /** The corrected pattern finds nothing at the end of the text. */
  lemma {:induction false} DashBulletsAtEnd(t: string)
    ensures IP.Scan(IP.DashBullet, t, |t|) == []
  {
    assert IP.MatchAt(IP.DashBullet, t, |t|).None?;
  }

  /** After the first of some bullet lines, the rest start a line. */
  lemma {:induction false} LinesFromNext(t: string, i: nat, ds: seq<string>)
    requires LinesFrom(t, i, ds) && ds != []
    ensures LinesFrom(t, i + 3 + |ds[0]|, ds[1..])
  {
    DashLinesHead(t, i, ds);
  }

  /** The corrected pattern matches the first of some bullet lines. */
  lemma {:induction false} DashLinesMatch(t: string, i: nat, ds: seq<string>)
    requires LinesFrom(t, i, ds) && ds != [] && IP.OneLine(ds[0])
    ensures IP.MatchAt(IP.DashBullet, t, i) == Some(IP.Match(None, ds[0], i + 3 + |ds[0]|))
  {
    DashLinesHead(t, i, ds);
    DashLineAt(t, i, ds[0]);
  }

  /** The corrected pattern at the first of some bullet lines: one match for that line, then the rest. */
  lemma {:induction false} DashBulletsStep(t: string, i: nat, ds: seq<string>, n: nat)
    requires LinesFrom(t, i, ds) && ds != [] && IP.OneLine(ds[0]) && n == i + 3 + |ds[0]|
    ensures Captured(IP.Scan(IP.DashBullet, t, i)) == [ds[0]] + Captured(IP.Scan(IP.DashBullet, t, n))
  {
    var m := IP.Match(None, ds[0], n);
    DashLinesMatch(t, i, ds);
    ScanCons(IP.DashBullet, t, i, m);
    CapturedCons(m, IP.Scan(IP.DashBullet, t, n));
  }

  /** The corrected pattern, `^\s*-\s*(.+?)(?:\n|$)` with MULTILINE, finds every bullet line from a line start. */
  lemma {:induction false} DashBulletsFrom(t: string, i: nat, ds: seq<string>)
    requires LinesFrom(t, i, ds) && OneLines(ds)
    ensures Captured(IP.Scan(IP.DashBullet, t, i)) == ds
    decreases |ds|
  {
    if ds == [] {
      assert i == |t|;
      DashBulletsAtEnd(t);
    } else {
      var e := i + 3 + |ds[0]|;
      DashBulletsNext(t, i, ds, e);
      DashBulletsFrom(t, e, ds[1..]);
    }
  }

  /** The first bullet line found, and the rest to scan from the next line. */
  lemma {:induction false} DashBulletsNext(t: string, i: nat, ds: seq<string>, e: nat)
    requires LinesFrom(t, i, ds) && OneLines(ds) && ds != [] && e == i + 3 + |ds[0]|
    ensures LinesFrom(t, e, ds[1..]) && OneLines(ds[1..])
    ensures ds == [ds[0]] + ds[1..]
    ensures Captured(IP.Scan(IP.DashBullet, t, i)) == [ds[0]] + Captured(IP.Scan(IP.DashBullet, t, e))
  {
    LinesFromNext(t, i, ds);
    DashBulletsStep(t, i, ds, e);
  }

  /** The corrected pattern finds one match per bullet line, capturing that line's text. */
  lemma {:induction false} DashBulletsFindEach(ds: seq<string>)
    requires OneLines(ds)
    ensures Captured(IP.Scan(IP.DashBullet, DashLines(ds), 0)) == ds
  {
    assert LinesFrom(DashLines(ds), 0, ds);
    DashBulletsFrom(DashLines(ds), 0, ds);
  }

  // ---------------------------------------------------------------------
  // The lists of issues read from a section

  lemma IssuesFoundStep(s: string, found: seq<(nat, IP.Match)>, i: nat, m: IP.Match)
    requires MatchesPlaced(s, found, 0) && i < m.end <= |s|
    ensures MatchesPlaced(s, found + [(i, m)], 0)
    ensures IssuesFound(s, found + [(i, m)]) == IssuesFound(s, found) + [IssueFound(s, i, m)]
  {
    var grown := found + [(i, m)];
    assert grown[..|grown| - 1] == found;
  }

  lemma SubstantialStep(ms: seq<IP.Match>, m: IP.Match)
    ensures Substantial(ms + [m]) == Substantial(ms) + (if |Strip(m.group)| > 10 then [Issue(None, Strip(m.group), false)] else [])
  {
    assert (ms + [m])[..|ms|] == ms;
  }

  /** Each issue read from an issue line carries the stripped text of that line. */
  lemma {:induction false} IssuesFoundAt(s: string, ms: seq<(nat, IP.Match)>, k: nat)
    requires MatchesPlaced(s, ms, 0) && k < |ms|
    ensures IssuesFound(s, ms)[k] == IssueFound(s, ms[k].0, ms[k].1)
  {
    var init := ms[..|ms| - 1];
    PlacedPrefix(s, ms);
    if k < |ms| - 1 {
      IssuesFoundAt(s, init, k);
      assert init[k] == ms[k];
    }
  }

  lemma {:induction false} PlacedPrefix(s: string, ms: seq<(nat, IP.Match)>)
    requires MatchesPlaced(s, ms, 0) && ms != []
    ensures MatchesPlaced(s, ms[..|ms| - 1], 0)
  {
    var init := ms[..|ms| - 1];
    forall j | 0 <= j < |init| ensures 0 <= init[j].0 < init[j].1.end <= |s| {
      assert init[j] == ms[j];
    }
  }

  /** The bullets kept are exactly the long ones, with no line number and not yet fixed. */
  lemma {:induction false} SubstantialKept(ms: seq<IP.Match>)
    ensures forall x :: x in Substantial(ms) ==>
      x.lineNumber.None? && !x.fixed && |x.description| > 10 && exists m :: m in ms && Strip(m.group) == x.description
    ensures forall m :: m in ms && |Strip(m.group)| > 10 ==> Issue(None, Strip(m.group), false) in Substantial(ms)
  {
    if ms != [] {
      var init := ms[..|ms| - 1];
      SubstantialKept(init);
      assert ms == init + [ms[|ms| - 1]];
      forall x | x in Substantial(ms)
        ensures x.lineNumber.None? && !x.fixed && |x.description| > 10 && exists m :: m in ms && Strip(m.group) == x.description
      {
        if x in Substantial(init) {
          var m :| m in init && Strip(m.group) == x.description;
          assert m in ms;
        } else {
          assert x.description == Strip(ms[|ms| - 1].group);
        }
      }
    }
  }

  /**
   * A section's issues are its issue lines when it has any, each with the
   * line's stripped text; otherwise they are its long bullets. None is fixed.
   */
  lemma SectionIssuesFrom(s: string)
    ensures IssueMatches(s, 0) != [] ==>
      |SectionIssues(s)| == |IssueMatches(s, 0)| &&
      forall k :: 0 <= k < |IssueMatches(s, 0)| ==>
        SectionIssues(s)[k].description == Strip(IssueMatches(s, 0)[k].1.group)
    ensures IssueMatches(s, 0) == [] ==> forall x :: x in SectionIssues(s) ==> x.lineNumber.None? && |x.description| > 10
    ensures forall x :: x in SectionIssues(s) ==> !x.fixed
  {
    var found := IssueMatches(s, 0);
    IssueMatchesInside(s, 0);
    if found != [] {
      forall k | 0 <= k < |found|
        ensures SectionIssues(s)[k] == IssueFound(s, found[k].0, found[k].1)
      {
        IssuesFoundAt(s, found, k);
      }
    } else {
      SubstantialKept(IP.Scan(IP.DashBullet, s, 0));
    }
  }

  /** One more issue line found: the list found so far grows by it. */
  lemma IssueMatchesAdvance(s: string, found: seq<(nat, IP.Match)>, i: nat, m: IP.Match)
    requires i <= |s| && found + IssueMatches(s, i) == IssueMatches(s, 0)
    requires IP.MatchAt(IP.IssueKeyword, s, i) == Some(m)
    ensures (found + [(i, m)]) + IssueMatches(s, m.end) == IssueMatches(s, 0)
  {
    assert IssueMatches(s, i) == [(i, m)] + IssueMatches(s, m.end);
  }

  lemma IssueMatchesSkip(s: string, found: seq<(nat, IP.Match)>, i: nat)
    requires i < |s| && found + IssueMatches(s, i) == IssueMatches(s, 0)
    requires IP.MatchAt(IP.IssueKeyword, s, i).None?
    ensures found + IssueMatches(s, i + 1) == IssueMatches(s, 0)
  {
  }

  lemma IssueMatchesDone(s: string, found: seq<(nat, IP.Match)>)
    requires found + IssueMatches(s, |s|) == IssueMatches(s, 0)
    ensures found == IssueMatches(s, 0)
  {
    assert IP.MatchAt(IP.IssueKeyword, s, |s|).None?;
    assert IssueMatches(s, |s|) == [];
  }

  /** A match at `i` is the first of the matches from `i`; the scan resumes at its end. */
  lemma {:induction false} ScanCons(p: IP.Pattern, s: string, i: nat, m: IP.Match)
    requires i <= |s| && IP.MatchAt(p, s, i) == Some(m)
    ensures IP.Scan(p, s, i) == [m] + IP.Scan(p, s, m.end)
  {
  }

  lemma ScanAdvance(p: IP.Pattern, s: string, found: seq<IP.Match>, i: nat, m: IP.Match)
    requires i <= |s| && found + IP.Scan(p, s, i) == IP.Scan(p, s, 0)
    requires IP.MatchAt(p, s, i) == Some(m)
    ensures (found + [m]) + IP.Scan(p, s, m.end) == IP.Scan(p, s, 0)
  {
    var rest := IP.Scan(p, s, m.end);
    assert IP.Scan(p, s, i) == [m] + rest;
    assert (found + [m]) + rest == found + ([m] + rest);
  }

  lemma ScanSkip(p: IP.Pattern, s: string, found: seq<IP.Match>, i: nat)
    requires i < |s| && found + IP.Scan(p, s, i) == IP.Scan(p, s, 0)
    requires IP.MatchAt(p, s, i).None?
    ensures found + IP.Scan(p, s, i + 1) == IP.Scan(p, s, 0)
  {
  }

  lemma ScanDone(p: IP.Pattern, s: string, found: seq<IP.Match>)
    requires found + IP.Scan(p, s, |s|) == IP.Scan(p, s, 0)
    requires IP.MatchAt(p, s, |s|).None?
    ensures found == IP.Scan(p, s, 0)
  {
    assert IP.Scan(p, s, |s|) == [];
  }

  /** The loop over the issue lines of a section. */
  method IssueLines(s: string) returns (issues: seq<Issue>)
    ensures MatchesPlaced(s, IssueMatches(s, 0), 0)
    ensures issues == IssuesFound(s, IssueMatches(s, 0))
  {
    issues := [];
    ghost var found: seq<(nat, IP.Match)> := [];
    IssueMatchesInside(s, 0);
    var i := 0;
    while i < |s|
      invariant i <= |s|
      invariant found + IssueMatches(s, i) == IssueMatches(s, 0)
      invariant MatchesPlaced(s, found, 0)
      invariant issues == IssuesFound(s, found)
      decreases |s| - i
    {
      var m := IP.MatchAt(IP.IssueKeyword, s, i);
      if m.Some? {
        var line := FirstLineRange(s[i..m.value.end], 0);
        IssuesFoundStep(s, found, i, m.value);
        issues := issues + [Issue(line, Strip(m.value.group), false)];
        IssueMatchesAdvance(s, found, i, m.value);
        ghost var entry: (nat, IP.Match) := (i, m.value);
        found := found + [entry];
        i := m.value.end;
      } else {
        IssueMatchesSkip(s, found, i);
        i := i + 1;
      }
    }
    IssueMatchesDone(s, found);
  }

  /** The loop over the dash bullets of a section. */
  method LongBullets(s: string) returns (issues: seq<Issue>)
    ensures issues == Substantial(IP.Scan(IP.DashBullet, s, 0))
  {
    issues := [];
    ghost var bullets: seq<IP.Match> := [];
    var i := 0;
    while i < |s|
      invariant i <= |s|
      invariant bullets + IP.Scan(IP.DashBullet, s, i) == IP.Scan(IP.DashBullet, s, 0)
      invariant issues == Substantial(bullets)
      decreases |s| - i
    {
      var m := IP.MatchAt(IP.DashBullet, s, i);
      if m.Some? {
        var desc := Strip(m.value.group);
        SubstantialStep(bullets, m.value);
        if |desc| > 10 {
          issues := issues + [Issue(None, desc, false)];
        }
        ScanAdvance(IP.DashBullet, s, bullets, i, m.value);
        bullets := bullets + [m.value];
        i := m.value.end;
      } else {
        ScanSkip(IP.DashBullet, s, bullets, i);
        i := i + 1;
      }
    }
    assert IP.MatchAt(IP.DashBullet, s, i).None?;
    ScanDone(IP.DashBullet, s, bullets);
  }

  /** The issues of one section: its issue lines, or its long bullets when it has none. */
  method ParseSection(s: string) returns (issues: seq<Issue>)
    ensures issues == SectionIssues(s)
  {
    issues := IssueLines(s);
    if issues == [] {
      issues := LongBullets(s);
    }
  }

  // ---------------------------------------------------------------------
  // The text branch

  /** The dictionary `{"line_number", "description", "fixed"}` of one issue. */
  function IssueValue(x: Issue): (v: JsonValue) {
    JObject(map[
      "line_number" := (if x.lineNumber.Some? then JString(x.lineNumber.value) else JNull),
      "description" := JString(x.description),
      "fixed" := JBool(x.fixed)])
  }

  function IssueValues(xs: seq<Issue>): (r: seq<JsonValue>)
    ensures |r| == |xs| && forall k :: 0 <= k < |xs| ==> r[k] == IssueValue(xs[k])
  {
    seq(|xs|, k requires 0 <= k < |xs| => IssueValue(xs[k]))
  }

  /** The issues of the section after the heading `h`. */
  function HeadingIssues(t: string, h: IP.Match): seq<Issue>
    requires h.end <= |t|
  {
    SectionIssues(t[h.end..SectionEnd(t, h.end)])
  }

  /** Each heading's stripped path with the issues of its section. */
  function Sections(t: string, hs: seq<(nat, IP.Match)>): (r: seq<(string, seq<Issue>)>)
    requires HeadingsPlaced(t, hs, 0)
    ensures |r| == |hs|
  {
    seq(|hs|, k requires 0 <= k < |hs| => (Strip(hs[k].1.group), HeadingIssues(t, hs[k].1)))
  }

  lemma SectionsStep(t: string, hs: seq<(nat, IP.Match)>, i: nat, h: IP.Match)
    requires HeadingsPlaced(t, hs, 0) && i < h.end <= |t|
    ensures HeadingsPlaced(t, hs + [(i, h)], 0)
    ensures Sections(t, hs + [(i, h)]) == Sections(t, hs) + [(Strip(h.group), HeadingIssues(t, h))]
  {
    var grown := hs + [(i, h)];
    forall k | 0 <= k < |grown| ensures 0 <= grown[k].0 < grown[k].1.end <= |t| {
      if k < |hs| { assert grown[k] == hs[k]; }
    }
    var a, b := Sections(t, grown), Sections(t, hs) + [(Strip(h.group), HeadingIssues(t, h))];
    assert |a| == |b|;
    forall k | 0 <= k < |a| ensures a[k] == b[k] {
      if k < |hs| { assert grown[k] == hs[k]; }
    }
  }

  /** `file_analyses` after the sections `ps`: a section with issues sets its path's entry. */
  function Collect(ps: seq<(string, seq<Issue>)>): (d: Dict<string, JsonValue>)
    ensures d.Valid()
  {
    if ps == [] then Empty()
    else
      var last := ps[|ps| - 1];
      if last.1 != [] then Put(Collect(ps[..|ps| - 1]), last.0, JArray(IssueValues(last.1)))
      else Collect(ps[..|ps| - 1])
  }

  lemma CollectStep(ps: seq<(string, seq<Issue>)>, p: (string, seq<Issue>))
    ensures Collect(ps + [p]) == if p.1 != [] then Put(Collect(ps), p.0, JArray(IssueValues(p.1))) else Collect(ps)
  {
    assert (ps + [p])[..|ps|] == ps;
  }

  /** What the text branch of `_extract_file_analyses` returns for a report. */
  function TextAnalyses(t: string): (d: Dict<string, JsonValue>)
    ensures d.Valid()
  {
    HeadingsInside(t, 0);
    Collect(Sections(t, Headings(t, 0)))
  }

  /** The section `q` gives the path `p` a list of issues. */
  predicate Sets(q: (string, seq<Issue>), p: string) {
    q.0 == p && q.1 != []
  }

  /** The last of the sections `ps` that gives `p` a list of issues. */
  function LastSet(ps: seq<(string, seq<Issue>)>, p: string): (r: Option<nat>)
    ensures r.Some? ==> r.value < |ps|
  {
    if ps == [] then None
    else if Sets(ps[|ps| - 1], p) then Some(|ps| - 1)
    else LastSet(ps[..|ps| - 1], p)
  }

  /** `LastSet` finds a section that sets the path and none after it, or finds none when there is none. */
  lemma {:induction false} LastSetFacts(ps: seq<(string, seq<Issue>)>, p: string)
    ensures LastSet(ps, p).Some? ==> Sets(ps[LastSet(ps, p).value], p)
    ensures LastSet(ps, p).Some? ==> forall j :: LastSet(ps, p).value < j < |ps| ==> !Sets(ps[j], p)
    ensures LastSet(ps, p).None? ==> forall j :: 0 <= j < |ps| ==> !Sets(ps[j], p)
  {
    if ps != [] && !Sets(ps[|ps| - 1], p) {
      var init := ps[..|ps| - 1];
      LastSetFacts(init, p);
      assert forall k :: 0 <= k < |init| ==> init[k] == ps[k];
    }
  }

  /**
   * A path is reported exactly when one of its sections has issues, and its
   * entry is the list read from the last such section.
   */
  lemma {:induction false} CollectEntries(ps: seq<(string, seq<Issue>)>, p: string)
    ensures p in Collect(ps).entries <==> LastSet(ps, p).Some?
    ensures p in Collect(ps).entries ==> Collect(ps).entries[p] == JArray(IssueValues(ps[LastSet(ps, p).value].1))
  {
    if ps != [] {
      var init := ps[..|ps| - 1];
      CollectEntries(init, p);
      if !Sets(ps[|ps| - 1], p) {
        var r := LastSet(init, p);
        if r.Some? {
          assert ps[r.value] == init[r.value];
        }
      }
    }
  }

  /** Issues none of which is fixed give dictionaries whose `fixed` is `False`. */
  lemma IssueValuesUnfixed(xs: seq<Issue>)
    requires forall x :: x in xs ==> !x.fixed
    ensures forall v :: v in IssueValues(xs) ==> v.JObject? && "fixed" in v.fields && v.fields["fixed"] == JBool(false)
  {
    var vs := IssueValues(xs);
    forall v | v in vs
      ensures v.JObject? && "fixed" in v.fields && v.fields["fixed"] == JBool(false)
    {
      var j :| 0 <= j < |xs| && v == vs[j];
      assert xs[j] in xs;
    }
  }

  /** Every entry of the text branch is a non-empty list of issue dictionaries, none fixed. */
  lemma TextAnalysesListed(t: string, p: string)
    requires p in TextAnalyses(t).entries
    ensures TextAnalyses(t).entries[p].JArray? && TextAnalyses(t).entries[p].items != []
    ensures forall v :: v in TextAnalyses(t).entries[p].items ==>
      v.JObject? && "fixed" in v.fields && v.fields["fixed"] == JBool(false)
  {
    HeadingsInside(t, 0);
    var hs := Headings(t, 0);
    var ps := Sections(t, hs);
    CollectEntries(ps, p);
    LastSetFacts(ps, p);
    var k := LastSet(ps, p).value;
    var h := hs[k].1;
    var sec := t[h.end..SectionEnd(t, h.end)];
    assert ps[k].1 == SectionIssues(sec);
    SectionIssuesFrom(sec);
    IssueValuesUnfixed(ps[k].1);
  }

  lemma HeadingsAdvance(t: string, found: seq<(nat, IP.Match)>, i: nat, m: IP.Match)
    requires i <= |t| && found + Headings(t, i) == Headings(t, 0)
    requires HeadingAt(t, i) == Some(m)
    ensures (found + [(i, m)]) + Headings(t, m.end) == Headings(t, 0)
  {
    assert Headings(t, i) == [(i, m)] + Headings(t, m.end);
  }

  lemma HeadingsSkip(t: string, found: seq<(nat, IP.Match)>, i: nat)
    requires i < |t| && found + Headings(t, i) == Headings(t, 0)
    requires HeadingAt(t, i).None?
    ensures found + Headings(t, i + 1) == Headings(t, 0)
  {
  }

  lemma HeadingsDone(t: string, found: seq<(nat, IP.Match)>)
    requires found + Headings(t, |t|) == Headings(t, 0)
    ensures found == Headings(t, 0)
  {
    assert Headings(t, |t|) == [];
  }

  lemma TextStep(t: string, hs: seq<(nat, IP.Match)>, i: nat, h: IP.Match)
    requires HeadingsPlaced(t, hs, 0) && i < h.end <= |t|
    ensures HeadingsPlaced(t, hs + [(i, h)], 0)
    ensures Collect(Sections(t, hs + [(i, h)])) ==
      if HeadingIssues(t, h) != [] then Put(Collect(Sections(t, hs)), Strip(h.group), JArray(IssueValues(HeadingIssues(t, h))))
      else Collect(Sections(t, hs))
  {
    SectionsStep(t, hs, i, h);
    CollectStep(Sections(t, hs), (Strip(h.group), HeadingIssues(t, h)));
  }

  lemma TextDone(t: string, found: seq<(nat, IP.Match)>)
    requires HeadingsPlaced(t, found, 0) && found + Headings(t, |t|) == Headings(t, 0)
    ensures Collect(Sections(t, found)) == TextAnalyses(t)
  {
    HeadingsDone(t, found);
  }

  /** One heading's section: parsed, and added to `file_analyses` when it has issues. */
  method AddSection(t: string, d: Dict<string, JsonValue>, m: IP.Match) returns (r: Dict<string, JsonValue>)
    requires d.Valid() && m.end <= |t|
    ensures r == if HeadingIssues(t, m) != [] then Put(d, Strip(m.group), JArray(IssueValues(HeadingIssues(t, m)))) else d
  {
    var next := NextHeading(t, m.end);
    var stop := if next.Some? then next.value else |t|;
    var issues := ParseSection(t[m.end..stop]);
    r := d;
    if issues != [] {
      r := Put(d, Strip(m.group), JArray(IssueValues(issues)));
    }
  }

  /** The text branch, step by step: each heading's section is parsed and added when it has issues. */
  method TextFileAnalyses(t: string) returns (d: Dict<string, JsonValue>)
    ensures d == TextAnalyses(t)
  {
    d := Empty();
    ghost var found: seq<(nat, IP.Match)> := [];
    HeadingsInside(t, 0);
    var i := 0;
    while i < |t|
      invariant i <= |t|
      invariant found + Headings(t, i) == Headings(t, 0)
      invariant HeadingsPlaced(t, found, 0)
      invariant d == Collect(Sections(t, found))
      decreases |t| - i
    {
      var h := HeadingAt(t, i);
      if h.Some? {
        var m := h.value;
        d := AddSection(t, d, m);
        TextStep(t, found, i, m);
        HeadingsAdvance(t, found, i, m);
        ghost var entry: (nat, IP.Match) := (i, m);
        found := found + [entry];
        i := m.end;
      } else {
        HeadingsSkip(t, found, i);
        i := i + 1;
      }
    }
    TextDone(t, found);
  }

  // ---------------------------------------------------------------------
  // The JSON branch

  /** What the JSON branch does with one file's analysis. */
  datatype Entry = Listed(issues: JsonValue) | Unlisted | Raises

  /**
   * `if "issues" in analysis: analysis["issues"]`, with Python's `in` and
   * indexing on each kind of value: on a list or a string the test is
   * membership and a hit makes the indexing raise; on a number, a boolean or
   * `None` the test itself raises.
   */
  function EntryOf(analysis: JsonValue): (e: Entry)
    ensures e.Listed? <==> analysis.JObject? && "issues" in analysis.fields
    ensures e.Listed? ==> e.issues == analysis.fields["issues"]
  {
    match analysis
    case JObject(fields) => if "issues" in fields then Listed(fields["issues"]) else Unlisted
    case JArray(items) => if JString("issues") in items then Raises else Unlisted
    case JString(s) => if Contains(s, "issues") then Raises else Unlisted
    case _ => Raises
  }

  /**
   * The JSON branch on a decoded report: `None` where it raises (the report
   * cannot be asked for `file_analyses`, that value is not a dictionary, or
   * an analysis cannot be asked for `issues`); otherwise the `issues` of each
   * file whose analysis is a dictionary with that key.
   */
  function JsonAnalyses(data: JsonValue): (r: Option<map<string, JsonValue>>)
    ensures r.Some? ==> forall p :: p in r.value <==>
      data.JObject? && "file_analyses" in data.fields && data.fields["file_analyses"].JObject?
      && p in data.fields["file_analyses"].fields
      && data.fields["file_analyses"].fields[p].JObject? && "issues" in data.fields["file_analyses"].fields[p].fields
    ensures r.Some? ==> forall p :: p in r.value ==>
      r.value[p] == data.fields["file_analyses"].fields[p].fields["issues"]
    ensures data.JObject? && "file_analyses" !in data.fields ==> r == Some(map[])
  {
    match data
    case JObject(fields) =>
      if "file_analyses" !in fields then Some(map[])
      else if !fields["file_analyses"].JObject? then None
      else
        var entries := fields["file_analyses"].fields;
        if exists p :: p in entries && EntryOf(entries[p]).Raises? then None
        else Some(map p | p in entries && EntryOf(entries[p]).Listed? :: EntryOf(entries[p]).issues)
    case JArray(items) => if JString("file_analyses") in items then None else Some(map[])
    case JString(s) => if Contains(s, "file_analyses") then None else Some(map[])
    case _ => None
  }

  /** The loop over the entries of `file_analyses`: each is looked at once, and the first that cannot be asked for `issues` raises. */
  method ListedIssues(entries: map<string, JsonValue>) returns (d: Dict<string, JsonValue>, raised: bool)
    ensures d.Valid()
    ensures raised <==> exists p :: p in entries && EntryOf(entries[p]).Raises?
    ensures !raised ==> d.entries == map p | p in entries && EntryOf(entries[p]).Listed? :: EntryOf(entries[p]).issues
  {
    d := Empty();
    raised := false;
    var rest := entries;
    while rest != map[] && !raised
      invariant d.Valid()
      invariant rest.Keys <= entries.Keys && forall p :: p in rest ==> rest[p] == entries[p]
      invariant raised ==> exists p :: p in entries && EntryOf(entries[p]).Raises?
      invariant !raised ==> forall p :: p in entries && p !in rest ==> !EntryOf(entries[p]).Raises?
      invariant forall p :: p in d.entries <==> p in entries && p !in rest && EntryOf(entries[p]).Listed?
      invariant forall p :: p in d.entries ==> d.entries[p] == EntryOf(entries[p]).issues
      decreases |rest|, !raised
    {
      var p :| p in rest;
      var e := EntryOf(rest[p]);
      if e.Raises? {
        raised := true;
      } else {
        if e.Listed? {
          d := Put(d, p, e.issues);
        }
        rest := rest - {p};
      }
    }
  }

  /** The loop over `file_analyses`: each entry is looked at once, and the first that cannot be asked for `issues` raises. */
  method JsonFileAnalyses(data: JsonValue) returns (d: Dict<string, JsonValue>, raised: bool)
    ensures d.Valid()
    ensures raised <==> JsonAnalyses(data).None?
    ensures !raised ==> d.entries == JsonAnalyses(data).value
  {
    d := Empty();
    match data {
      case JObject(fields) =>
        if "file_analyses" !in fields {
          return d, false;
        }
        if !fields["file_analyses"].JObject? {
          return d, true;
        }
        d, raised := ListedIssues(fields["file_analyses"].fields);
      case JArray(items) =>
        return d, JString("file_analyses") in items;
      case JString(text) =>
        return d, Contains(text, "file_analyses");
      case _ =>
        return d, true;
    }
  }

  /** `_extract_file_analyses`: the JSON branch when the report decodes, the text branch otherwise; `None` where it raises. */
  function FileAnalyses(report: string, decode: string -> Option<JsonValue>): Option<map<string, JsonValue>> {
    match decode(report)
    case Some(data) => JsonAnalyses(data)
    case None => Some(TextAnalyses(report).entries)
  }

  method ExtractFileAnalyses(report: string, decode: string -> Option<JsonValue>)
    returns (analyses: Dict<string, JsonValue>, raised: bool)
    ensures analyses.Valid()
    ensures raised <==> FileAnalyses(report, decode).None?
    ensures !raised ==> analyses.entries == FileAnalyses(report, decode).value
    ensures decode(report).None? ==> analyses == TextAnalyses(report)
  {
    var data := decode(report);
    if data.Some? {
      analyses, raised := JsonFileAnalyses(data.value);
    } else {
      analyses := TextFileAnalyses(report);
      raised := false;
    }
  }

  // ---------------------------------------------------------------------
  // Accepting a rewrite

  /** Python's `len`; `None` where it raises. */
  function PyLen(v: JsonValue): (r: Option<nat>)
    ensures r.Some? ==> (r.value == 0 <==> !v.Truthy())
  {
    match v
    case JArray(items) => Some(|items|)
    case JString(text) => Some(|text|)
    case JObject(fields) => Some(|fields|)
    case _ => None
  }

  /** `validate_code` used as a condition: only `True` passes, as `False` and `None` are both falsy. */
  predicate Validates(code: string, language: string, pythonParses: bool) {
    if language == "python" then pythonParses
    else if language == "javascript" || language == "typescript" then FS.Balanced(code)
    else true
  }

  /** A rewrite `_fix_file` keeps: it is not blank and it is valid for the language. */
  predicate Acceptable(candidate: string, language: string, pythonParses: bool) {
    Strip(candidate) != "" && Validates(candidate, language, pythonParses)
  }

  /**
   * `_fix_file` given the model's rewrite `candidate`: the content it
   * returns, the fixes it adds to `fixes_applied`, and whether it raises.
   * Truthy issues that `build_fix_prompt` cannot enumerate raise before the
   * rewrite is looked at.
   */
  function FixOutcome(content: string, language: string, issues: JsonValue, candidate: string, pythonParses: bool)
    : (r: (string, nat, bool))
    ensures r.0 != content || r.1 != 0 ==>
      issues.Truthy() && LS.FixPromptBuilds(issues) && Acceptable(candidate, language, pythonParses)
      && r == (candidate, |issues.items|, false)
    ensures issues.Truthy() && LS.FixPromptBuilds(issues) && Acceptable(candidate, language, pythonParses) ==>
      r == (candidate, |issues.items|, false) && r.1 > 0
    ensures r.2 <==> issues.Truthy() && !LS.FixPromptBuilds(issues)
    ensures !issues.Truthy() ==> r == (content, 0, false)
  {
    if !issues.Truthy() then (content, 0, false)
    else if !LS.FixPromptBuilds(issues) then (content, 0, true)
    else if !Acceptable(candidate, language, pythonParses) then (content, 0, false)
    else
      // the only truthy issues `build_fix_prompt` enumerates are a non-empty list
      (candidate, |issues.items|, false)
  }

  /** A reply without a backtick has no pair of fences. */
  lemma NoFencePair(t: string)
    requires '`' !in t
    ensures !LS.HasFencePair(t)
  {
    forall i, j | 0 <= i && i + 3 <= j
      ensures !(OccursAt(t, LS.Fence, i) && OccursAt(t, LS.Fence, j))
    {
      if i + 3 <= |t| {
        assert t[i..i + 3][0] == t[i];
        assert t[i] in t;
      }
    }
  }

  /**
   * A request that times out still counts as a fix: for a language that is
   * not checked, the timeout message replaces the file and every issue is
   * counted as fixed.
   */
  lemma TimeoutReplyAccepted(content: string, language: string, issues: JsonValue, pythonParses: bool)
    requires language != "python" && language != "javascript" && language != "typescript"
    requires issues.JArray? && issues.items != [] && LS.FixPromptBuilds(issues)
    ensures FixOutcome(content, language, issues, LS.FixedCode(LS.TimeoutReply, language), pythonParses)
      == (LS.TimeoutReply, |issues.items|, false)
  {
    assert '`' !in LS.TimeoutReply;
    NoFencePair(LS.TimeoutReply);
    LS.ExtractCodeBlockFound(LS.TimeoutReply, language);
    StripStripped(LS.TimeoutReply);
  }

  // ---------------------------------------------------------------------
  // Marking the fixed issues

  /**
   * `issue["fixed"] = True` for each passed issue; `None` where the loop
   * raises, on an item that is not a dictionary. The marking goes through
   * exactly when the issues are a list of dictionaries (or an empty string or
   * dictionary); then each marked issue is the passed one with `fixed` set
   * and nothing else changed.
   */
  function MarkFixed(issues: JsonValue): (r: Option<seq<map<string, JsonValue>>>)
    ensures r.Some? <==>
      (issues.JArray? && forall k :: 0 <= k < |issues.items| ==> issues.items[k].JObject?)
      || issues == JString("") || issues == JObject(map[])
    ensures r.Some? && issues.JArray? ==>
      |r.value| == |issues.items| &&
      forall k :: 0 <= k < |issues.items| ==>
        "fixed" in r.value[k] && r.value[k]["fixed"] == JBool(true) &&
        forall key :: key != "fixed" ==>
          (key in r.value[k] <==> key in issues.items[k].fields) &&
          (key in issues.items[k].fields ==> r.value[k][key] == issues.items[k].fields[key])
    ensures r.Some? && !issues.JArray? ==> r.value == []
  {
    match issues
    case JArray(items) =>
      if forall k :: 0 <= k < |items| ==> items[k].JObject? then
        Some(seq(|items|, k requires 0 <= k < |items| => items[k].fields["fixed" := JBool(true)]))
      else None
    case JString(text) => if text == "" then Some([]) else None
    case JObject(fields) => if fields == map[] then Some([]) else None
    case _ => None
  }

  /** The number of passed issues, from the first, that have a description. */
  function Described(done: seq<map<string, JsonValue>>): (n: nat)
    ensures n <= |done|
    ensures forall j :: 0 <= j < n ==> "description" in done[j]
    ensures n < |done| ==> "description" !in done[n]
  {
    if done == [] || "description" !in done[0] then 0 else 1 + Described(done[1..])
  }

  /** One of the passed issues `done[..n]` has the description of `x`. */
  predicate Matched(x: Issue, done: seq<map<string, JsonValue>>, n: nat)
    requires n <= |done| && forall j :: 0 <= j < n ==> "description" in done[j]
  {
    exists j :: 0 <= j < n && done[j]["description"] == JString(x.description)
  }

  /** A stored issue after it is compared with the passed issues `done[..n]`. */
  function MarkOne(x: Issue, done: seq<map<string, JsonValue>>, n: nat): Issue
    requires n <= |done| && forall j :: 0 <= j < n ==> "description" in done[j]
  {
    if Matched(x, done, n) then x.(fixed := true) else x
  }

  /**
   * The stored issues after the nested loop, and whether it raised. It raises
   * on a passed issue without a description, met while visiting the first
   * stored issue, which by then is marked if an earlier passed issue matched.
   */
  function MarkStored(stored: seq<Issue>, done: seq<map<string, JsonValue>>): (r: (seq<Issue>, bool))
    ensures |r.0| == |stored|
  {
    var n := Described(done);
    if stored == [] then (stored, false)
    else if n < |done| then (stored[0 := MarkOne(stored[0], done, n)], true)
    else (seq(|stored|, i requires 0 <= i < |stored| => MarkOne(stored[i], done, n)), false)
  }

  /**
   * Without a raise, a stored issue ends up fixed exactly when it already was
   * or a passed issue has its description; nothing else about it changes.
   */
  lemma MarkStoredSpec(stored: seq<Issue>, done: seq<map<string, JsonValue>>)
    ensures MarkStored(stored, done).1 <==> stored != [] && exists j :: 0 <= j < |done| && "description" !in done[j]
    ensures !MarkStored(stored, done).1 ==> forall i :: 0 <= i < |stored| ==>
      MarkStored(stored, done).0[i].description == stored[i].description &&
      MarkStored(stored, done).0[i].lineNumber == stored[i].lineNumber &&
      (MarkStored(stored, done).0[i].fixed <==>
        stored[i].fixed || exists j :: 0 <= j < |done| && done[j]["description"] == JString(stored[i].description))
  {
    var n := Described(done);
    if exists j :: 0 <= j < |done| && "description" !in done[j] {
      var j :| 0 <= j < |done| && "description" !in done[j];
      assert n <= j;
    }
  }

  /**
   * Issues that built the fix prompt are marked without a raise, and every
   * marked issue keeps its description, so the nested loop over the stored
   * issues cannot raise either.
   */
  lemma {:induction false} MarkingAfterPrompt(issues: JsonValue, stored: seq<Issue>)
    requires LS.FixPromptBuilds(issues)
    ensures MarkFixed(issues).Some?
    ensures forall k :: 0 <= k < |MarkFixed(issues).value| ==> "description" in MarkFixed(issues).value[k]
    ensures !MarkStored(stored, MarkFixed(issues).value).1
  {
    var done := MarkFixed(issues).value;
    if issues.JArray? {
      forall k | 0 <= k < |done|
        ensures "description" in done[k]
      {
        assert "description" in issues.items[k].fields;
      }
    }
    MarkStoredSpec(stored, done);
  }

  /** A description as the note shows it: cut to 50 characters and marked with `...` when longer. */
  function Brief(d: string): (r: string)
    ensures |d| <= 50 ==> r == d
    ensures |d| > 50 ==> |r| == 53 && r[..50] == d[..50] && r[50..] == "..."
  {
    if |d| > 50 then d[..50] + "..." else d
  }

  /**
   * The note `Fixed issues: ...` stored as the file's context; `None` where
   * building it raises, on a passed issue whose description is missing or
   * not a string.
   */
  function FixedNote(done: seq<map<string, JsonValue>>): (r: Option<string>)
    ensures r.Some? <==> forall k :: 0 <= k < |done| ==> "description" in done[k] && done[k]["description"].JString?
    ensures r.Some? ==> OccursAt(r.value, "Fixed issues: ", 0)
  {
    if forall k :: 0 <= k < |done| ==> "description" in done[k] && done[k]["description"].JString? then
      var briefs := seq(|done|, k requires 0 <= k < |done| => Brief(done[k]["description"].s));
      var r := "Fixed issues: " + Join(briefs, ", ");
      assert r[..14] == "Fixed issues: ";
      Some(r)
    else None
  }

  /**
   * The stored analysis `_update_project_context` writes back (`None` when it
   * writes none: nothing stored, or an empty dictionary), and whether the
   * nested loop raised.
   */
  function StoredAfter(stored: Option<FileAnalysis>, done: seq<map<string, JsonValue>>): (r: (Option<FileAnalysis>, bool))
    ensures r.0.Some? ==> stored.Some? && stored.value.Truthy()
    ensures r.0.Some? ==> r.0.value.(issues := stored.value.issues) == stored.value
  {
    if stored.None? || !stored.value.Truthy() then (None, false)
    else if stored.value.issues.None? then (stored, false)
    else
      var marked := MarkStored(stored.value.issues.value, done);
      (Some(stored.value.(issues := Some(marked.0))), marked.1)
  }

  /**
   * `_update_project_context` on the context's stored analyses and notes:
   * the analyses and notes after it, and whether it raised. Only the entries
   * of `path` change; no analysis is added, and the stored one changes only
   * in its issues; a call that does not raise records a "Fixed issues" note.
   */
  function ContextUpdate(analyses: Dict<string, FileAnalysis>, notes: map<string, string>, path: string, issues: JsonValue)
    : (r: (Dict<string, FileAnalysis>, map<string, string>, bool))
    requires analyses.Valid()
    ensures r.0.Valid() && r.0.entries.Keys == analyses.entries.Keys
    ensures forall q :: q != path ==> r.0.Get(q) == analyses.Get(q) && NoteOf(r.1, q) == NoteOf(notes, q)
    ensures r.0.Get(path).Some? ==> r.0.Get(path).value.(issues := analyses.Get(path).value.issues) == analyses.Get(path).value
    ensures MarkFixed(issues).None? ==> r == (analyses, notes, true)
    ensures !r.2 ==> path in r.1 && OccursAt(r.1[path], "Fixed issues: ", 0)
    ensures r.2 ==> NoteOf(r.1, path) == NoteOf(notes, path)
  {
    match MarkFixed(issues)
    case None => (analyses, notes, true)
    case Some(done) =>
      var after := StoredAfter(analyses.Get(path), done);
      var analyses1 := if after.0.Some? then Put(analyses, path, after.0.value) else analyses;
      if after.1 then (analyses1, notes, true)
      else match FixedNote(done)
        case None => (analyses1, notes, true)
        case Some(n) => (analyses1, notes[path := n], false)
  }

  /** What `ContextUpdate` leaves at `path` depends only on what was stored at `path`. */
  lemma ContextUpdateAgree(a1: Dict<string, FileAnalysis>, n1: map<string, string>,
                           a2: Dict<string, FileAnalysis>, n2: map<string, string>, path: string, issues: JsonValue)
    requires a1.Valid() && a2.Valid()
    requires a1.Get(path) == a2.Get(path) && NoteOf(n1, path) == NoteOf(n2, path)
    ensures var u1, u2 := ContextUpdate(a1, n1, path, issues), ContextUpdate(a2, n2, path, issues);
      u1.0.Get(path) == u2.0.Get(path) && NoteOf(u1.1, path) == NoteOf(u2.1, path) && u1.2 == u2.2
  {
  }

  // ---------------------------------------------------------------------
  // The fixer

  /** What the fixer reads from outside: the file system, the model's replies, the parsers. */
  datatype Env = Env(
    present: string -> bool,          // `Path(p).exists()`
    read: string -> Option<string>,   // the file's text; `None` where reading raises
    normalize: string -> string,      // `str(Path(p))`
    under: (string, string) -> bool,  // `p.relative_to(project_path)` succeeds
    reply: (string, string, string, JsonValue, Option<string>) -> LS.Outcome,
                                      // the model's answer to the fix prompt for code, language, path, issues, context
    pythonParses: string -> bool,     // `ast.parse` accepts the code
    decode: string -> Option<JsonValue>) // `json.loads`; `None` on a decode error

  /** `get_file_content` gives a non-empty text and a non-empty language. */
  predicate Readable(env: Env, path: string) {
    var got := FS.GetFileContent(path, env.read(path));
    got.0.Some? && got.0.value != "" && got.1.Some? && got.1.value != ""
  }

  function Content(env: Env, path: string): string
    requires Readable(env, path)
  {
    FS.GetFileContent(path, env.read(path)).0.value
  }

  function Language(env: Env, path: string): string
    requires Readable(env, path)
  {
    FS.GetFileContent(path, env.read(path)).1.value
  }

  /** The rewrite `generate_fixes` takes from the model's reply. */
  function Candidate(env: Env, path: string, content: string, language: string, issues: JsonValue, fileContext: Option<string>): string {
    LS.FixedCode(LS.Answer(env.reply(content, language, path, issues, fileContext)).0, language)
  }

  /** `_fix_file` with the model's rewrite, given the file's stored context. */
  function Fix(env: Env, path: string, content: string, language: string, issues: JsonValue, fileContext: Option<string>)
    : (string, nat, bool)
  {
    var candidate := Candidate(env, path, content, language, issues, fileContext);
    FixOutcome(content, language, issues, candidate, env.pythonParses(candidate))
  }

  /** `_fix_file` on a readable file. */
  function FileFix(env: Env, path: string, issues: JsonValue, fileContext: Option<string>): (string, nat, bool)
    requires Readable(env, path)
  {
    Fix(env, path, Content(env, path), Language(env, path), issues, fileContext)
  }

  /**
   * The rewrites collected so far: each is a changed, readable file of the
   * project named by a key of the analyses, and `changed` lists them with
   * repeats.
   */
  ghost predicate Rewrites(env: Env, projectPath: string, files: Dict<string, string>, changed: seq<string>,
                           listed: map<string, JsonValue>)
  {
    && files.Valid()
    && (forall p :: p in files.entries <==> p in changed)
    && (forall p :: p in files.entries ==>
          env.present(p) && env.under(p, projectPath) && Readable(env, p) && files.entries[p] != Content(env, p))
    && (forall p :: p in files.entries ==> exists key :: key in listed && env.normalize(key) == p)
  }

  lemma RewritesPut(env: Env, projectPath: string, files: Dict<string, string>, changed: seq<string>,
                    listed: map<string, JsonValue>, key: string, v: string)
    requires Rewrites(env, projectPath, files, changed, listed) && key in listed
    requires env.present(env.normalize(key)) && env.under(env.normalize(key), projectPath)
    requires Readable(env, env.normalize(key)) && v != Content(env, env.normalize(key))
    ensures Rewrites(env, projectPath, Put(files, env.normalize(key), v), changed + [env.normalize(key)], listed)
  {
  }

  /** The note stored for a path, if any. */
  function NoteOf(notes: map<string, string>, path: string): (r: Option<string>)
    ensures r.Some? <==> path in notes
  {
    if path in notes then Some(notes[path]) else None
  }

  /**
   * One entry of `file_analyses`, given the note stored for its file: the
   * rewrite kept (when it changed the file), the fixes counted, and whether
   * the entry raises.
   */
  function PathFix(env: Env, path: string, projectPath: string, issues: JsonValue, note: Option<string>)
    : (r: (Option<string>, nat, bool))
    ensures r.0.Some? ==>
      env.present(path) && env.under(path, projectPath) && Readable(env, path) && r.0.value != Content(env, path) && !r.2
    ensures !env.present(path) || !Readable(env, path) ==> r == (None, 0, false)
    ensures r.2 ==> r.0.None? && r.1 == 0
  {
    if !env.present(path) || !Readable(env, path) then (None, 0, false)
    else if !env.under(path, projectPath) then (None, 0, true)
    else
      var f := FileFix(env, path, issues, note);
      (if f.2 || f.0 == Content(env, path) then None else Some(f.0), f.1, f.2)
  }

  /** The entry for `key` with the note its file had before the run. */
  function PlannedFix(env: Env, projectPath: string, listed: map<string, JsonValue>, notes: map<string, string>, key: string)
    : (Option<string>, nat, bool)
    requires key in listed
  {
    PathFix(env, env.normalize(key), projectPath, listed[key], NoteOf(notes, env.normalize(key)))
  }

  /** What the run plans for each entry of `listed`, given the notes before the run. */
  ghost function Plan(env: Env, projectPath: string, listed: map<string, JsonValue>, notes: map<string, string>)
    : (plan: map<string, (Option<string>, nat, bool)>)
    ensures plan.Keys == listed.Keys
  {
    map key | key in listed :: PlannedFix(env, projectPath, listed, notes, key)
  }

  /** The fixes counted over the entries `keys`, in order. */
  function FixesCounted(keys: seq<string>, plan: map<string, (Option<string>, nat, bool)>): nat
    requires forall k :: 0 <= k < |keys| ==> keys[k] in plan
  {
    if keys == [] then 0 else FixesCounted(keys[..|keys| - 1], plan) + plan[keys[|keys| - 1]].1
  }

  /** No two entries name the same file once normalised. */
  ghost predicate NormalizesApart(env: Env, listed: map<string, JsonValue>) {
    forall k1, k2 :: k1 in listed && k2 in listed && k1 != k2 ==> env.normalize(k1) != env.normalize(k2)
  }

  /** Each returned rewrite is the one planned for its entry. */
  ghost predicate PlannedRewrites(env: Env, files: Dict<string, string>, plan: map<string, (Option<string>, nat, bool)>) {
    forall key :: key in plan && env.normalize(key) in files.entries ==> plan[key].0 == Some(files.entries[env.normalize(key)])
  }

  /** The files of the entries from `i` on are not yet rewritten and keep their notes. */
  ghost predicate Untouched(env: Env, files: Dict<string, string>, keys: seq<string>, i: nat,
                            notes0: map<string, string>, notes: map<string, string>)
  {
    forall k :: i <= k < |keys| ==>
      env.normalize(keys[k]) !in files.entries && NoteOf(notes, env.normalize(keys[k])) == NoteOf(notes0, env.normalize(keys[k]))
  }

  /** The entries before `i` whose rewrite is planned are all returned. */
  ghost predicate AllReturned(env: Env, files: Dict<string, string>, keys: seq<string>, i: nat,
                              plan: map<string, (Option<string>, nat, bool)>)
    requires i <= |keys| && forall k :: 0 <= k < |keys| ==> keys[k] in plan
  {
    forall k :: 0 <= k < i ==> (env.normalize(keys[k]) in files.entries <==> plan[keys[k]].0.Some?)
  }

  /**
   * The run after the first `i` entries of `keys`: each returned rewrite is
   * the planned one, the later entries' files are untouched and keep their
   * notes, the earlier entries' rewrites are all returned, and their fixes
   * are counted.
   */
  ghost predicate Planned(env: Env, files: Dict<string, string>, keys: seq<string>, i: nat,
                          plan: map<string, (Option<string>, nat, bool)>, notes0: map<string, string>,
                          notes: map<string, string>, fixes: int)
    requires i <= |keys| && forall k :: 0 <= k < |keys| ==> keys[k] in plan
  {
    && PlannedRewrites(env, files, plan)
    && Untouched(env, files, keys, i, notes0, notes)
    && AllReturned(env, files, keys, i, plan)
    && fixes == FixesCounted(keys[..i], plan)
  }

  lemma {:induction false} PlannedStart(env: Env, keys: seq<string>, plan: map<string, (Option<string>, nat, bool)>,
                                        notes0: map<string, string>)
    requires forall k :: 0 <= k < |keys| ==> keys[k] in plan
    ensures Planned(env, Empty(), keys, 0, plan, notes0, notes0, 0)
  {
    assert keys[..0] == [];
  }

  /**
   * One entry handled as planned keeps the run planned, whatever note is then
   * written for its own file.
   */
  lemma {:induction false} PlannedStep(env: Env, files: Dict<string, string>, keys: seq<string>, i: nat,
                                       plan: map<string, (Option<string>, nat, bool)>, notes0: map<string, string>,
                                       notes: map<string, string>, notes1: map<string, string>, fixes: int)
    requires i < |keys| && Distinct(keys) && (forall k :: 0 <= k < |keys| ==> keys[k] in plan)
    requires (forall k1, k2 :: k1 in plan && k2 in plan && k1 != k2 ==> env.normalize(k1) != env.normalize(k2))
    requires files.Valid() && Planned(env, files, keys, i, plan, notes0, notes, fixes)
    requires forall q :: q != env.normalize(keys[i]) ==> NoteOf(notes1, q) == NoteOf(notes, q)
    ensures var pf := plan[keys[i]];
      Planned(env, if pf.0.Some? then Put(files, env.normalize(keys[i]), pf.0.value) else files,
              keys, i + 1, plan, notes0, notes1, fixes + pf.1)
  {
    var key := keys[i];
    var pf := plan[key];
    var files1 := if pf.0.Some? then Put(files, env.normalize(key), pf.0.value) else files;
    forall k | 0 <= k < |keys| && k != i
      ensures env.normalize(keys[k]) != env.normalize(key)
    {
      assert keys[k] != key;
    }
    RewritesStep(env, files, key, plan);
    UntouchedStep(env, files, files1, keys, i, notes0, notes, notes1);
    ReturnedStep(env, files, files1, keys, i, plan);
    CountedStep(keys, i, plan);
  }

  lemma {:induction false} CountedStep(keys: seq<string>, i: nat, plan: map<string, (Option<string>, nat, bool)>)
    requires i < |keys| && forall k :: 0 <= k < |keys| ==> keys[k] in plan
    ensures FixesCounted(keys[..i + 1], plan) == FixesCounted(keys[..i], plan) + plan[keys[i]].1
  {
    var pre := keys[..i + 1];
    assert pre[..i] == keys[..i];
    assert pre[i] == keys[i];
  }

  lemma {:induction false} RewritesStep(env: Env, files: Dict<string, string>, key: string,
                                        plan: map<string, (Option<string>, nat, bool)>)
    requires key in plan && files.Valid()
    requires forall k1, k2 :: k1 in plan && k2 in plan && k1 != k2 ==> env.normalize(k1) != env.normalize(k2)
    requires PlannedRewrites(env, files, plan)
    ensures PlannedRewrites(env, if plan[key].0.Some? then Put(files, env.normalize(key), plan[key].0.value) else files, plan)
  {
    var files1 := if plan[key].0.Some? then Put(files, env.normalize(key), plan[key].0.value) else files;
    forall key2 | key2 in plan && env.normalize(key2) in files1.entries
      ensures plan[key2].0 == Some(files1.entries[env.normalize(key2)])
    {
      if plan[key].0.Some? && env.normalize(key2) == env.normalize(key) {
        assert key2 == key;
      }
    }
  }

  lemma {:induction false} UntouchedStep(env: Env, files: Dict<string, string>, files1: Dict<string, string>,
                                         keys: seq<string>, i: nat, notes0: map<string, string>,
                                         notes: map<string, string>, notes1: map<string, string>)
    requires i < |keys| && Untouched(env, files, keys, i, notes0, notes)
    requires forall k :: 0 <= k < |keys| && k != i ==> env.normalize(keys[k]) != env.normalize(keys[i])
    requires forall q :: q != env.normalize(keys[i]) ==> (q in files1.entries <==> q in files.entries)
    requires forall q :: q != env.normalize(keys[i]) ==> NoteOf(notes1, q) == NoteOf(notes, q)
    ensures Untouched(env, files1, keys, i + 1, notes0, notes1)
  {
  }

  lemma {:induction false} ReturnedStep(env: Env, files: Dict<string, string>, files1: Dict<string, string>,
                                        keys: seq<string>, i: nat, plan: map<string, (Option<string>, nat, bool)>)
    requires i < |keys| && forall k :: 0 <= k < |keys| ==> keys[k] in plan
    requires AllReturned(env, files, keys, i, plan)
    requires forall k :: 0 <= k < |keys| && k != i ==> env.normalize(keys[k]) != env.normalize(keys[i])
    requires forall q :: q != env.normalize(keys[i]) ==> (q in files1.entries <==> q in files.entries)
    requires env.normalize(keys[i]) in files1.entries <==> plan[keys[i]].0.Some?
    ensures AllReturned(env, files1, keys, i + 1, plan)
  {
  }

  /** One entry of the loop of `fix_from_analysis` keeps both the collected rewrites and the plan. */
  lemma {:induction false} EntryStep(env: Env, projectPath: string, listed: map<string, JsonValue>, notes0: map<string, string>,
                                     order: seq<string>, i: nat, files: Dict<string, string>, files1: Dict<string, string>,
                                     changed: seq<string>, notes: map<string, string>, notes1: map<string, string>,
                                     fixes: int, pf: (Option<string>, nat, bool))
    requires i < |order| && Distinct(order) && (forall key :: key in order <==> key in listed)
    requires files.Valid() && Rewrites(env, projectPath, files, changed, listed)
    requires NormalizesApart(env, listed) ==>
      Planned(env, files, order, i, Plan(env, projectPath, listed, notes0), notes0, notes, fixes)
    requires pf == PathFix(env, env.normalize(order[i]), projectPath, listed[order[i]], NoteOf(notes, env.normalize(order[i])))
    requires files1 == if pf.0.Some? then Put(files, env.normalize(order[i]), pf.0.value) else files
    requires forall q :: q != env.normalize(order[i]) ==> NoteOf(notes1, q) == NoteOf(notes, q)
    ensures Rewrites(env, projectPath, files1, if pf.0.Some? then changed + [env.normalize(order[i])] else changed, listed)
    ensures NormalizesApart(env, listed) ==>
      Planned(env, files1, order, i + 1, Plan(env, projectPath, listed, notes0), notes0, notes1, fixes + pf.1)
    ensures NormalizesApart(env, listed) ==> pf == Plan(env, projectPath, listed, notes0)[order[i]]
  {
    var key := order[i];
    var p := env.normalize(key);
    assert key in listed;
    if pf.0.Some? {
      RewritesPut(env, projectPath, files, changed, listed, key, pf.0.value);
    }
    if NormalizesApart(env, listed) {
      var plan := Plan(env, projectPath, listed, notes0);
      assert NoteOf(notes, p) == NoteOf(notes0, p);
      assert plan[key] == pf;
      PlannedStep(env, files, order, i, plan, notes0, notes, notes1, fixes);
    }
  }

  /**
   * The stored analyses and notes after `_update_project_context` has run, in
   * order, for each entry of `keys` whose plan has a rewrite.
   */
  ghost function ContextAfter(env: Env, keys: seq<string>, plan: map<string, (Option<string>, nat, bool)>,
                              listed: map<string, JsonValue>, analyses: Dict<string, FileAnalysis>,
                              notes: map<string, string>): (r: (Dict<string, FileAnalysis>, map<string, string>))
    requires analyses.Valid()
    ensures r.0.Valid() && r.0.entries.Keys == analyses.entries.Keys
    decreases |keys|
  {
    if keys == [] then (analyses, notes)
    else
      var prev := ContextAfter(env, keys[..|keys| - 1], plan, listed, analyses, notes);
      var key := keys[|keys| - 1];
      if key in plan && key in listed && plan[key].0.Some? then
        var u := ContextUpdate(prev.0, prev.1, env.normalize(key), listed[key]);
        (u.0, u.1)
      else prev
  }

  /**
   * The loop of `fix_from_analysis` after its first `i` entries, when no two
   * entries name the same file: the run is as planned and, unless it raised,
   * the stored analyses and notes are those `ContextAfter` gives.
   */
  ghost predicate RunKept(env: Env, projectPath: string, analyses: Dict<string, JsonValue>, i: nat,
                          notes0: map<string, string>, analyses0: Dict<string, FileAnalysis>, files: Dict<string, string>,
                          stored: Dict<string, FileAnalysis>, notes: map<string, string>, fixes: int, raised: bool)
    requires i <= |analyses.keys| && analyses.Valid() && analyses0.Valid()
  {
    NormalizesApart(env, analyses.entries) ==>
      && Planned(env, files, analyses.keys, i, Plan(env, projectPath, analyses.entries, notes0), notes0, notes, fixes)
      && (!raised ==>
            (stored, notes) ==
              ContextAfter(env, analyses.keys[..i], Plan(env, projectPath, analyses.entries, notes0), analyses.entries, analyses0, notes0))
  }

  /** The loop of `fix_from_analysis` starts as planned, with the context as it was stored. */
  lemma RunStart(env: Env, projectPath: string, analyses: Dict<string, JsonValue>, notes0: map<string, string>,
                 analyses0: Dict<string, FileAnalysis>)
    requires analyses.Valid() && analyses0.Valid()
    ensures RunKept(env, projectPath, analyses, 0, notes0, analyses0, Empty(), analyses0, notes0, 0, false)
  {
    PlannedStart(env, analyses.keys, Plan(env, projectPath, analyses.entries, notes0), notes0);
    assert analyses.keys[..0] == [];
  }

  /** The loop of `fix_from_analysis` ended, by a raise or after its last entry. */
  lemma RunDone(env: Env, projectPath: string, analyses: Dict<string, JsonValue>, i: nat, notes0: map<string, string>,
                analyses0: Dict<string, FileAnalysis>, files: Dict<string, string>, stored: Dict<string, FileAnalysis>,
                notes: map<string, string>, fixes: int, raised: bool)
    requires i <= |analyses.keys| && analyses.Valid() && analyses0.Valid()
    requires RunKept(env, projectPath, analyses, i, notes0, analyses0, files, stored, notes, fixes, raised)
    requires raised || i == |analyses.keys|
    ensures NormalizesApart(env, analyses.entries) ==>
      PlannedRewrites(env, files, Plan(env, projectPath, analyses.entries, notes0))
    ensures NormalizesApart(env, analyses.entries) && !raised ==>
      Planned(env, files, analyses.keys, |analyses.keys|, Plan(env, projectPath, analyses.entries, notes0), notes0, notes, fixes)
    ensures NormalizesApart(env, analyses.entries) && !raised ==>
      (stored, notes) ==
        ContextAfter(env, analyses.keys, Plan(env, projectPath, analyses.entries, notes0), analyses.entries, analyses0, notes0)
  {
    assert analyses.keys[..|analyses.keys|] == analyses.keys;
  }

  /** One more entry handled as planned extends `ContextAfter` by that entry. */
  lemma ContextStep(env: Env, keys: seq<string>, i: nat, plan: map<string, (Option<string>, nat, bool)>,
                    listed: map<string, JsonValue>, analyses0: Dict<string, FileAnalysis>, notes0: map<string, string>,
                    stored: Dict<string, FileAnalysis>, notes: map<string, string>,
                    stored1: Dict<string, FileAnalysis>, notes1: map<string, string>, raised: bool)
    requires i < |keys| && keys[i] in plan && keys[i] in listed && analyses0.Valid()
    requires (stored, notes) == ContextAfter(env, keys[..i], plan, listed, analyses0, notes0)
    requires plan[keys[i]].0.None? ==> stored1 == stored && notes1 == notes
    requires plan[keys[i]].0.Some? ==>
      (stored1, notes1, raised) == ContextUpdate(stored, notes, env.normalize(keys[i]), listed[keys[i]])
    ensures (stored1, notes1) == ContextAfter(env, keys[..i + 1], plan, listed, analyses0, notes0)
  {
    assert keys[..i + 1][..i] == keys[..i];
  }

  /** A run leaves a path that no entry with a planned rewrite names as it was stored before the run. */
  lemma {:induction false} ContextAfterOther(env: Env, keys: seq<string>, plan: map<string, (Option<string>, nat, bool)>,
                                             listed: map<string, JsonValue>, analyses: Dict<string, FileAnalysis>,
                                             notes: map<string, string>, q: string)
    requires analyses.Valid() && forall k :: 0 <= k < |keys| ==> keys[k] in plan && keys[k] in listed
    requires forall k :: 0 <= k < |keys| && plan[keys[k]].0.Some? ==> env.normalize(keys[k]) != q
    ensures ContextAfter(env, keys, plan, listed, analyses, notes).0.Get(q) == analyses.Get(q)
    ensures NoteOf(ContextAfter(env, keys, plan, listed, analyses, notes).1, q) == NoteOf(notes, q)
    decreases |keys|
  {
    if keys != [] {
      ContextAfterOther(env, keys[..|keys| - 1], plan, listed, analyses, notes, q);
    }
  }

  /**
   * A run leaves the path of an entry with a planned rewrite as one
   * `_update_project_context` for that entry leaves it from the analyses and
   * notes stored before the run, when no two entries name the same path.
   */
  lemma {:induction false} ContextAfterRewritten(env: Env, keys: seq<string>, plan: map<string, (Option<string>, nat, bool)>,
                                                 listed: map<string, JsonValue>, analyses: Dict<string, FileAnalysis>,
                                                 notes: map<string, string>, i: nat)
    requires analyses.Valid() && forall k :: 0 <= k < |keys| ==> keys[k] in plan && keys[k] in listed
    requires forall k1, k2 :: 0 <= k1 < k2 < |keys| ==> env.normalize(keys[k1]) != env.normalize(keys[k2])
    requires i < |keys| && plan[keys[i]].0.Some?
    ensures var q := env.normalize(keys[i]);
      var after := ContextAfter(env, keys, plan, listed, analyses, notes);
      var once := ContextUpdate(analyses, notes, q, listed[keys[i]]);
      after.0.Get(q) == once.0.Get(q) && NoteOf(after.1, q) == NoteOf(once.1, q)
    decreases |keys|
  {
    var init := keys[..|keys| - 1];
    var q := env.normalize(keys[i]);
    if i == |keys| - 1 {
      ContextAfterOther(env, init, plan, listed, analyses, notes, q);
      var prev := ContextAfter(env, init, plan, listed, analyses, notes);
      ContextUpdateAgree(prev.0, prev.1, analyses, notes, q, listed[keys[i]]);
    } else {
      assert init[i] == keys[i];
      ContextAfterRewritten(env, init, plan, listed, analyses, notes, i);
    }
  }

  /** The plan kept to the end of the entries: every planned rewrite is returned and every entry's fixes counted. */
  lemma {:induction false} PlannedDone(env: Env, files: Dict<string, string>, keys: seq<string>,
                                       plan: map<string, (Option<string>, nat, bool)>, notes0: map<string, string>,
                                       notes: map<string, string>, fixes: int, raised: bool)
    requires Distinct(keys) && forall key :: key in keys <==> key in plan
    requires PlannedRewrites(env, files, plan)
    requires !raised ==> Planned(env, files, keys, |keys|, plan, notes0, notes, fixes)
    ensures forall key :: key in plan && env.normalize(key) in files.entries ==> plan[key].0 == Some(files.entries[env.normalize(key)])
    ensures !raised ==>
      && (forall key :: key in plan ==> (env.normalize(key) in files.entries <==> plan[key].0.Some?))
      && fixes == FixesCounted(keys, plan)
  {
    if !raised {
      assert keys[..|keys|] == keys;
      forall key | key in plan
        ensures env.normalize(key) in files.entries <==> plan[key].0.Some?
      {
        var k :| 0 <= k < |keys| && keys[k] == key;
      }
    }
  }

  class CodeFixer {
    var fixesApplied: int
    var filesFixed: int
    const llm: LS.LlmService
    const context: PC.ProjectContext

    constructor (llm: LS.LlmService, context: PC.ProjectContext)
      ensures this.llm == llm && this.context == context
      ensures fixesApplied == 0 && filesFixed == 0
    {
      this.llm := llm;
      this.context := context;
      fixesApplied := 0;
      filesFixed := 0;
    }

    /** `_fix_file`: the model's rewrite when it is accepted, the content otherwise. */
    method FixFile(path: string, content: string, language: string, issues: JsonValue, env: Env)
      returns (fixed: string, raised: bool)
      modifies this, llm
      ensures fixed == Fix(env, path, content, language, issues, context.GetFileContext(path)).0
      ensures fixesApplied == old(fixesApplied) + Fix(env, path, content, language, issues, context.GetFileContext(path)).1
      ensures raised == Fix(env, path, content, language, issues, context.GetFileContext(path)).2
      ensures filesFixed == old(filesFixed)
    {
      if !issues.Truthy() {
        return content, false;
      }
      var fileContext := context.GetFileContext(path);
      var outcome := env.reply(content, language, path, issues, fileContext);
      var tokens;
      fixed, tokens, raised := llm.GenerateFixes(language, issues, outcome);
      if raised {
        return content, true;
      }
      assert fixed == Candidate(env, path, content, language, issues, fileContext);
      var count;
      fixed, count, raised := Accept(content, language, issues, fixed, env.pythonParses(fixed));
      fixesApplied := fixesApplied + count;
    }

    /** The checks on the model's rewrite, once the issues are known to be truthy and to build a prompt. */
    static method Accept(content: string, language: string, issues: JsonValue, candidate: string, pythonParses: bool)
      returns (fixed: string, count: nat, raised: bool)
      requires issues.Truthy() && LS.FixPromptBuilds(issues)
      ensures (fixed, count, raised) == FixOutcome(content, language, issues, candidate, pythonParses)
    {
      if candidate == "" || Strip(candidate) == "" {
        return content, 0, false;
      }
      var valid := FS.ValidateCode(candidate, language, pythonParses);
      FS.BalancedIffNested(candidate);
      if valid != Some(true) {
        return content, 0, false;
      }
      match PyLen(issues) {
        case None =>
          assert false;
        case Some(n) =>
          return candidate, n, false;
      }
    }

    /** The marking loop over the passed issues. */
    static method MarkIssues(issues: JsonValue) returns (done: seq<map<string, JsonValue>>, raised: bool)
      ensures raised <==> MarkFixed(issues).None?
      ensures !raised ==> done == MarkFixed(issues).value
    {
      done := [];
      match issues {
        case JArray(items) =>
          var k := 0;
          while k < |items|
            invariant 0 <= k <= |items|
            invariant forall j :: 0 <= j < k ==> items[j].JObject?
            invariant done == seq(k, j requires 0 <= j < k => items[j].fields["fixed" := JBool(true)])
          {
            if !items[k].JObject? {
              return done, true;
            }
            done := done + [items[k].fields["fixed" := JBool(true)]];
            k := k + 1;
          }
          raised := false;
        case JString(text) =>
          raised := text != "";
        case JObject(fields) =>
          raised := fields != map[];
        case _ =>
          raised := true;
      }
    }

    /** The nested loop over the stored issues and the passed ones. */
    static method MarkStoredIssues(stored: seq<Issue>, done: seq<map<string, JsonValue>>)
      returns (marked: seq<Issue>, raised: bool)
      ensures (marked, raised) == MarkStored(stored, done)
    {
      marked := stored;
      var n := Described(done);
      var i := 0;
      while i < |stored|
        invariant 0 <= i <= |stored| && |marked| == |stored|
        invariant i > 0 ==> n == |done|
        invariant forall a :: 0 <= a < i ==> marked[a] == MarkOne(stored[a], done, n)
        invariant forall a :: i <= a < |stored| ==> marked[a] == stored[a]
      {
        var j := 0;
        while j < |done|
          invariant 0 <= j <= |done| && j <= n && |marked| == |stored|
          invariant marked[i] == MarkOne(stored[i], done, j)
          invariant forall a :: 0 <= a < |stored| && a != i ==> marked[a] == (if a < i then MarkOne(stored[a], done, n) else stored[a])
        {
          if "description" !in done[j] {
            assert i == 0 && j == n;
            assert marked == stored[0 := MarkOne(stored[0], done, n)];
            return marked, true;
          }
          if done[j]["description"] == JString(stored[i].description) {
            marked := marked[i := marked[i].(fixed := true)];
          }
          assert Matched(stored[i], done, j + 1) <==> Matched(stored[i], done, j) || done[j]["description"] == JString(stored[i].description);
          j := j + 1;
        }
        i := i + 1;
      }
      if stored != [] {
        assert n == |done|;
        assert marked == MarkStored(stored, done).0;
      }
      raised := false;
    }

    /**
     * `_update_project_context`: marks the passed issues fixed, marks the
     * stored issues with the same descriptions, stores the analysis back and
     * records the note on the file.
     */
    method UpdateProjectContext(path: string, issues: JsonValue) returns (done: seq<map<string, JsonValue>>, raised: bool)
      requires context.Valid()
      modifies context
      ensures context.Valid()
      ensures MarkFixed(issues).None? ==> raised && unchanged(context)
      ensures MarkFixed(issues).Some? ==> done == MarkFixed(issues).value
      ensures MarkFixed(issues).Some? ==>
        context.fileAnalyses ==
          (match StoredAfter(old(context.GetFileAnalysis(path)), done).0
           case Some(a) => Put(old(context.fileAnalyses), path, a)
           case None => old(context.fileAnalyses))
      ensures MarkFixed(issues).Some? ==>
        (raised <==> StoredAfter(old(context.GetFileAnalysis(path)), done).1 || FixedNote(done).None?)
      ensures MarkFixed(issues).Some? ==>
        context.fileContexts == if raised then old(context.fileContexts) else old(context.fileContexts)[path := FixedNote(done).value]
      ensures (context.fileAnalyses, context.fileContexts, raised) ==
        ContextUpdate(old(context.fileAnalyses), old(context.fileContexts), path, issues)
      ensures context.projectContext == old(context.projectContext)
    {
      done, raised := MarkIssues(issues);
      if raised {
        return;
      }
      var stored := context.GetFileAnalysis(path);
      if stored.Some? && stored.value.Truthy() {
        var analysis := stored.value;
        if analysis.issues.Some? {
          var marked;
          marked, raised := MarkStoredIssues(analysis.issues.value, done);
          analysis := analysis.(issues := Some(marked));
          if raised {
            // the stored issues were changed in place before the raise
            context.UpdateFileAnalysis(path, analysis);
            return;
          }
        }
        context.UpdateFileAnalysis(path, analysis);
      }
      var note := FixedNote(done);
      if note.None? {
        raised := true;
        return;
      }
      context.UpdateFileContext(path, note.value);
    }

    /** `fix_file`: the rewrite of one file when it changed, `None` otherwise. */
    method FixSingleFile(path: string, issues: JsonValue, env: Env)
      returns (r: Option<string>, done: seq<map<string, JsonValue>>, raised: bool)
      requires context.Valid()
      modifies this, llm, context
      ensures context.Valid()
      ensures filesFixed == old(filesFixed)
      ensures !Readable(env, path) ==> r.None? && !raised && fixesApplied == old(fixesApplied)
      ensures Readable(env, path) && !FileFix(env, path, issues, old(context.GetFileContext(path))).2 ==>
        fixesApplied == old(fixesApplied) + FileFix(env, path, issues, old(context.GetFileContext(path))).1
      ensures r.Some? ==> (Readable(env, path) && !raised
        && r.value == FileFix(env, path, issues, old(context.GetFileContext(path))).0 && r.value != Content(env, path))
      ensures Readable(env, path) && !raised && FileFix(env, path, issues, old(context.GetFileContext(path))).0 != Content(env, path) ==>
        r.Some?
      ensures !Readable(env, path) ==> unchanged(context)
      ensures Readable(env, path) && (FileFix(env, path, issues, old(context.GetFileContext(path))).2
                                      || FileFix(env, path, issues, old(context.GetFileContext(path))).0 == Content(env, path)) ==>
        unchanged(context)
      ensures Readable(env, path) && !FileFix(env, path, issues, old(context.GetFileContext(path))).2
                                  && FileFix(env, path, issues, old(context.GetFileContext(path))).0 != Content(env, path) ==>
        (context.fileAnalyses, context.fileContexts, raised) ==
          ContextUpdate(old(context.fileAnalyses), old(context.fileContexts), path, issues)
      ensures context.projectContext == old(context.projectContext)
    {
      done := [];
      var got := FS.GetFileContent(path, env.read(path));
      if got.0.None? || got.0.value == "" || got.1.None? || got.1.value == "" {
        return None, done, false;
      }
      var content, language := got.0.value, got.1.value;
      var fixed;
      fixed, raised := FixFile(path, content, language, issues, env);
      if raised {
        return None, done, true;
      }
      if fixed != content {
        done, raised := UpdateProjectContext(path, issues);
        if raised {
          return None, done, true;
        }
        return Some(fixed), done, false;
      }
      r := None;
    }

    /**
     * One entry of `file_analyses` up to the rewrite: a file that is missing
     * or unreadable is skipped, one outside the project raises, and the
     * rewrite is returned when it changed the file.
     */
    method FixPath(path: string, issues: JsonValue, projectPath: string, env: Env)
      returns (fixed: Option<string>, raised: bool)
      modifies this, llm
      ensures filesFixed == old(filesFixed)
      ensures fixed == PathFix(env, path, projectPath, issues, context.GetFileContext(path)).0
      ensures fixesApplied == old(fixesApplied) + PathFix(env, path, projectPath, issues, context.GetFileContext(path)).1
      ensures raised == PathFix(env, path, projectPath, issues, context.GetFileContext(path)).2
    {
      if !env.present(path) {
        return None, false;
      }
      var got := FS.GetFileContent(path, env.read(path));
      if got.0.None? || got.0.value == "" || got.1.None? || got.1.value == "" {
        return None, false;
      }
      if !env.under(path, projectPath) {
        return None, true;
      }
      var content := got.0.value;
      var rewrite;
      rewrite, raised := FixFile(path, content, got.1.value, issues, env);
      if raised || rewrite == content {
        return None, raised;
      }
      return Some(rewrite), false;
    }

    /**
     * One pass of the loop of `fix_from_analysis` over an entry whose file is
     * `path`: the planned rewrite is added to `files` and counted, and the
     * project context is updated for the file it changed, which touches no
     * other file's note.
     */
    method FixEntry(path: string, issues: JsonValue, projectPath: string, env: Env, files: Dict<string, string>,
                    ghost pf: (Option<string>, nat, bool))
      returns (files1: Dict<string, string>, raised: bool)
      requires context.Valid() && files.Valid()
      requires pf == PathFix(env, path, projectPath, issues, NoteOf(context.fileContexts, path))
      modifies this, llm, context
      ensures context.Valid() && files1.Valid()
      ensures
        && files1 == (if pf.0.Some? then Put(files, path, pf.0.value) else files)
        && fixesApplied == old(fixesApplied) + pf.1
        && filesFixed == old(filesFixed) + (if pf.0.Some? then 1 else 0)
        && (pf.2 ==> raised)
        && (pf.0.None? ==> context.fileAnalyses == old(context.fileAnalyses)
                           && context.fileContexts == old(context.fileContexts) && raised == pf.2)
        && (pf.0.Some? ==> (context.fileAnalyses, context.fileContexts, raised) ==
                             ContextUpdate(old(context.fileAnalyses), old(context.fileContexts), path, issues))
      ensures forall q :: q != path ==> NoteOf(context.fileContexts, q) == NoteOf(old(context.fileContexts), q)
      ensures context.projectContext == old(context.projectContext)
    {
      assert context.GetFileContext(path) == NoteOf(context.fileContexts, path);
      var fixed;
      fixed, raised := FixPath(path, issues, projectPath, env);
      assert fixed == pf.0 && raised == pf.2 && fixesApplied == old(fixesApplied) + pf.1;
      files1 := files;
      if !raised && fixed.Some? {
        files1, raised := RecordRewrite(path, issues, files, fixed.value);
      }
    }

    /** A rewrite that changed the file is collected, counted, and recorded in the project context. */
    method RecordRewrite(path: string, issues: JsonValue, files: Dict<string, string>, rewrite: string)
      returns (files1: Dict<string, string>, raised: bool)
      requires context.Valid() && files.Valid()
      modifies this, context
      ensures context.Valid() && files1 == Put(files, path, rewrite)
      ensures filesFixed == old(filesFixed) + 1 && fixesApplied == old(fixesApplied)
      ensures (context.fileAnalyses, context.fileContexts, raised) ==
        ContextUpdate(old(context.fileAnalyses), old(context.fileContexts), path, issues)
      ensures context.projectContext == old(context.projectContext)
    {
      files1 := Put(files, path, rewrite);
      filesFixed := filesFixed + 1;
      var done;
      done, raised := UpdateProjectContext(path, issues);
    }

    /**
     * `fix_from_analysis`: fixes every listed file that exists and is
     * readable, and returns the rewrites that changed a file. `changed` lists
     * the paths counted in `files_fixed`, one per rewrite; `order` is the
     * order in which the entries were visited. When no two entries name the
     * same file, each returned rewrite is the one planned for its entry with
     * the notes stored before the run, and a run that does not raise returns
     * every planned rewrite and counts the fixes of every entry.
     */
    method FixFromAnalysis(report: string, projectPath: string, env: Env)
      returns (fixedFiles: Dict<string, string>, ghost changed: seq<string>, ghost order: seq<string>, raised: bool)
      requires context.Valid()
      modifies this, llm, context
      ensures context.Valid() && fixedFiles.Valid()
      ensures FileAnalyses(report, env.decode).None? ==> raised && fixedFiles == Empty() && fixesApplied == 0 && filesFixed == 0
      ensures filesFixed == |changed| && fixesApplied >= 0
      ensures forall p :: p in fixedFiles.entries <==> p in changed
      ensures forall p :: p in fixedFiles.entries ==>
        env.present(p) && env.under(p, projectPath) && Readable(env, p) && fixedFiles.entries[p] != Content(env, p)
      ensures FileAnalyses(report, env.decode).Some? ==> forall p :: p in fixedFiles.entries ==>
        exists key :: key in FileAnalyses(report, env.decode).value && env.normalize(key) == p
      ensures FileAnalyses(report, env.decode).Some? && NormalizesApart(env, FileAnalyses(report, env.decode).value) ==>
        var plan := Plan(env, projectPath, FileAnalyses(report, env.decode).value, old(context.fileContexts));
        && (forall key :: key in plan && env.normalize(key) in fixedFiles.entries ==>
              plan[key].0 == Some(fixedFiles.entries[env.normalize(key)]))
        && (!raised ==>
              && Distinct(order) && (forall key :: key in order <==> key in plan)
              && (forall key :: key in plan ==> (env.normalize(key) in fixedFiles.entries <==> plan[key].0.Some?))
              && fixesApplied == FixesCounted(order, plan)
              && (context.fileAnalyses, context.fileContexts) ==
                   ContextAfter(env, order, plan, FileAnalyses(report, env.decode).value,
                                old(context.fileAnalyses), old(context.fileContexts)))
      ensures context.projectContext == old(context.projectContext)
    {
      fixesApplied := 0;
      filesFixed := 0;
      fixedFiles := Empty();
      changed := [];
      order := [];
      var analyses;
      analyses, raised := ExtractFileAnalyses(report, env.decode);
      if raised {
        return;
      }
      order := analyses.keys;
      ghost var notes0 := context.fileContexts;
      fixedFiles, changed, raised := FixEntries(analyses, projectPath, env, notes0, context.fileAnalyses);
      if NormalizesApart(env, analyses.entries) {
        PlannedDone(env, fixedFiles, order, Plan(env, projectPath, analyses.entries, notes0), notes0,
                    context.fileContexts, fixesApplied, raised);
      }
    }

    /** The loop of `fix_from_analysis` over the entries of `analyses`, in order, until one raises. */
    method FixEntries(analyses: Dict<string, JsonValue>, projectPath: string, env: Env, ghost notes0: map<string, string>,
                      ghost analyses0: Dict<string, FileAnalysis>)
      returns (fixedFiles: Dict<string, string>, ghost changed: seq<string>, raised: bool)
      requires context.Valid() && analyses.Valid() && context.fileContexts == notes0 && context.fileAnalyses == analyses0
      requires fixesApplied == 0 && filesFixed == 0
      modifies this, llm, context
      ensures context.Valid() && fixedFiles.Valid()
      ensures filesFixed == |changed| && fixesApplied >= 0
      ensures Rewrites(env, projectPath, fixedFiles, changed, analyses.entries)
      ensures NormalizesApart(env, analyses.entries) ==>
        PlannedRewrites(env, fixedFiles, Plan(env, projectPath, analyses.entries, notes0))
      ensures NormalizesApart(env, analyses.entries) && !raised ==>
        Planned(env, fixedFiles, analyses.keys, |analyses.keys|, Plan(env, projectPath, analyses.entries, notes0),
                notes0, context.fileContexts, fixesApplied)
      ensures NormalizesApart(env, analyses.entries) && !raised ==>
        (context.fileAnalyses, context.fileContexts) ==
          ContextAfter(env, analyses.keys, Plan(env, projectPath, analyses.entries, notes0), analyses.entries, analyses0, notes0)
      ensures context.projectContext == old(context.projectContext)
    {
      fixedFiles := Empty();
      changed := [];
      raised := false;
      ghost var listed := analyses.entries;
      RunStart(env, projectPath, analyses, notes0, analyses0);
      var i := 0;
      while i < |analyses.keys| && !raised
        invariant 0 <= i <= |analyses.keys|
        invariant context.Valid() && fixedFiles.Valid()
        invariant filesFixed == |changed| && fixesApplied >= 0
        invariant Rewrites(env, projectPath, fixedFiles, changed, listed)
        invariant RunKept(env, projectPath, analyses, i, notes0, analyses0, fixedFiles,
                          context.fileAnalyses, context.fileContexts, fixesApplied, raised)
        invariant context.projectContext == old(context.projectContext)
      {
        fixedFiles, changed, raised := FixNext(analyses, i, projectPath, env, notes0, analyses0, fixedFiles, changed);
        i := i + 1;
      }
      RunDone(env, projectPath, analyses, i, notes0, analyses0, fixedFiles, context.fileAnalyses, context.fileContexts,
              fixesApplied, raised);
    }

    /** The `i`-th entry of the loop of `fix_from_analysis`, keeping the collected rewrites and the plan. */
    method FixNext(analyses: Dict<string, JsonValue>, i: nat, projectPath: string, env: Env, ghost notes0: map<string, string>,
                   ghost analyses0: Dict<string, FileAnalysis>, files: Dict<string, string>, ghost changed: seq<string>)
      returns (files1: Dict<string, string>, ghost changed1: seq<string>, raised: bool)
      requires i < |analyses.keys| && analyses.Valid() && context.Valid() && files.Valid()
      requires filesFixed == |changed| && fixesApplied >= 0
      requires Rewrites(env, projectPath, files, changed, analyses.entries)
      requires analyses0.Valid()
      requires RunKept(env, projectPath, analyses, i, notes0, analyses0, files,
                       context.fileAnalyses, context.fileContexts, fixesApplied, false)
      modifies this, llm, context
      ensures context.Valid() && files1.Valid()
      ensures filesFixed == |changed1| && fixesApplied >= 0
      ensures Rewrites(env, projectPath, files1, changed1, analyses.entries)
      ensures RunKept(env, projectPath, analyses, i + 1, notes0, analyses0, files1,
                      context.fileAnalyses, context.fileContexts, fixesApplied, raised)
      ensures context.projectContext == old(context.projectContext)
    {
      var key := analyses.keys[i];
      var path := env.normalize(key);
      ghost var notes := context.fileContexts;
      ghost var stored := context.fileAnalyses;
      ghost var fixes := fixesApplied;
      ghost var pf := PathFix(env, path, projectPath, analyses.entries[key], NoteOf(notes, path));
      files1, raised := FixEntry(path, analyses.entries[key], projectPath, env, files, pf);
      EntryStep(env, projectPath, analyses.entries, notes0, analyses.keys, i, files, files1, changed, notes, context.fileContexts, fixes, pf);
      if NormalizesApart(env, analyses.entries) {
        ContextStep(env, analyses.keys, i, Plan(env, projectPath, analyses.entries, notes0), analyses.entries, analyses0, notes0,
                    stored, notes, context.fileAnalyses, context.fileContexts, raised);
      }
      changed1 := if pf.0.Some? then changed + [path] else changed;
    }
  }
}
