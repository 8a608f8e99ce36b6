/**
 * The five line patterns the code analyzer runs over an analysis text, with
 * `re.MULTILINE` and `re.finditer` semantics on ASCII text:
 *
 *   IssueKeyword  `(?:Issue|Problem|Bug|Error|Warning)\s+\#?\d*\s*:\s*(.+?)(?:\n|$)`
 *   LineNumber    `(?:Line|Lines)\s+(\d+(?:-\d+)?)\s*:\s*(.+?)(?:\n|$)`
 *   NumberedItem  `^\s*\d+\.\s*(.+?)(?:\n|$)`
 *   StarBullet    `^\s*\*\s*(.+?)(?:\n|$)`
 *   DashBullet    `^\s*-\s*(.+?)(?:\n|$)`
 *
 * Each pattern is a deterministic head (every quantifier in it is followed by
 * a character it cannot match, so backtracking never finds another way) and
 * the common tail `\s*(.+?)(?:\n|$)`, whose only backtracking case is modelled
 * in `Tail`.
 */
module IssuePatterns {
  import opened Wrappers
  import opened Text

  datatype Pattern = IssueKeyword | LineNumber | NumberedItem | StarBullet | DashBullet

  /** The patterns in the order they are tried. */
  const Patterns: seq<Pattern> := [IssueKeyword, LineNumber, NumberedItem, StarBullet, DashBullet]

  /** One match: the line-number group (LineNumber only), the description group, and where the match ends. */
  datatype Match = Match(lineNumber: Option<string>, group: string, end: nat)

  const IssueWords: seq<string> := ["Issue", "Problem", "Bug", "Error", "Warning"]

  /** `n` or `n-m`: the text the line-number group can capture. */
  predicate IsLineRange(s: string) {
    exists k :: 0 < k <= |s| && AllDigits(s[..k]) && (k == |s| || (s[k] == '-' && k + 1 < |s| && AllDigits(s[k + 1..])))
  }

  /** The last position in `[lo, hi)` that does not hold a newline. */
  function LastNonNewline(t: string, lo: nat, hi: nat): (r: Option<nat>)
    requires lo <= hi <= |t|
    ensures r.Some? ==> lo <= r.value < hi && t[r.value] != '\n'
    ensures r.Some? ==> forall k :: r.value < k < hi ==> t[k] == '\n'
    ensures r.None? ==> forall k :: lo <= k < hi ==> t[k] == '\n'
    decreases hi
  {
    if hi == lo then None
    else if t[hi - 1] != '\n' then Some(hi - 1)
    else LastNonNewline(t, lo, hi - 1)
  }

  /**
   * The tail `\s*(.+?)(?:\n|$)` from position `j`: the group's start and end
   * and the end of the match. Greedy `\s*` stops at the first non-space; only
   * when it runs to the end of the text does it give characters back, and then
   * the group is the last character after `j` that is not a newline.
   */
  function Tail(t: string, j: nat): (r: Option<(nat, nat, nat)>)
    requires j <= |t|
    ensures r.Some? ==> j <= r.value.0 < r.value.1 <= r.value.2 <= |t|
    ensures r.Some? ==> forall k :: r.value.0 <= k < r.value.1 ==> t[k] != '\n'
    ensures r.Some? ==> (r.value.1 == r.value.2 == |t|) || (t[r.value.1] == '\n' && r.value.2 == r.value.1 + 1)
    ensures SkipSpace(t, j) < |t| ==> r.Some? && r.value.0 == SkipSpace(t, j)
    ensures r.None? <==> forall k :: j <= k < |t| ==> t[k] == '\n'
  {
    var s := SkipSpace(t, j);
    if s < |t| then
      var e := LineEnd(t, s);
      Some((s, e, if e < |t| then e + 1 else e))
    else
      match LastNonNewline(t, j, |t|)
      case None => None
      case Some(k) => Some((k, k + 1, if k + 1 < |t| then k + 2 else k + 1))
  }

  /** The match built from a tail found after the head. */
  function WithTail(t: string, lineNumber: Option<string>, j: nat): (m: Option<Match>)
    requires j <= |t|
    ensures m.Some? ==> j < m.value.end <= |t| && m.value.lineNumber == lineNumber
  {
    match Tail(t, j)
    case None => None
    case Some((gs, ge, end)) => Some(Match(lineNumber, t[gs..ge], end))
  }

  /** Python's MULTILINE `^`: the start of the text or of a line. */
  predicate LineStart(t: string, i: nat)
    requires i <= |t|
  {
    i == 0 || t[i - 1] == '\n'
  }

  /** The keyword of IssueKeyword that occurs at `i`, if one does (none is a prefix of another). */
  function KeywordAt(t: string, i: nat): (r: Option<nat>)
    ensures r.Some? ==> r.value < |IssueWords| && OccursAt(t, IssueWords[r.value], i)
    ensures r.None? ==> forall k :: 0 <= k < |IssueWords| ==> !OccursAt(t, IssueWords[k], i)
  {
    if OccursAt(t, "Issue", i) then Some(0)
    else if OccursAt(t, "Problem", i) then Some(1)
    else if OccursAt(t, "Bug", i) then Some(2)
    else if OccursAt(t, "Error", i) then Some(3)
    else if OccursAt(t, "Warning", i) then Some(4)
    else None
  }

  /** IssueKeyword at `i`: keyword, `\s+`, an optional `#`, `\d*`, `\s*`, `:`, then the tail. */
  function IssueKeywordAt(t: string, i: nat): Option<Match>
    requires i <= |t|
  {
    match KeywordAt(t, i)
    case None => None
    case Some(w) =>
      var a := i + |IssueWords[w]|;
      var b := SkipSpace(t, a);
      if b == a then None
      else
        var c := if b < |t| && t[b] == '#' then b + 1 else b;
        var e := SkipSpace(t, SkipDigits(t, c));
        if e < |t| && t[e] == ':' then WithTail(t, None, e + 1) else None
  }

  /**
   * Where `(?:Line|Lines)\s` leaves off at `i`: "Line" is tried first and
   * needs whitespace after it; otherwise "Lines".
   */
  function LineWordEnd(t: string, i: nat): (r: Option<nat>)
    ensures r.Some? ==> i < r.value < |t| && IsSpace(t[r.value])
  {
    if OccursAt(t, "Line", i) && i + 4 < |t| && IsSpace(t[i + 4]) then Some(i + 4)
    else if OccursAt(t, "Lines", i) && i + 5 < |t| && IsSpace(t[i + 5]) then Some(i + 5)
    else None
  }

  /** Digits in `[b, c)`, then either nothing or `-` and digits up to `d`, form a line range. */
  lemma RangeIsLineRange(t: string, b: nat, c: nat, d: nat)
    requires b < c <= d <= |t|
    requires forall k :: b <= k < c ==> IsDigit(t[k])
    requires c < d ==> t[c] == '-' && c + 1 < d && forall k :: c + 1 <= k < d ==> IsDigit(t[k])
    ensures IsLineRange(t[b..d])
  {
    var range := t[b..d];
    assert range[..c - b] == t[b..c];
    assert AllDigits(range[..c - b]);
    if c < d {
      assert range[c - b + 1..] == t[c + 1..d];
      assert AllDigits(range[c - b + 1..]);
    }
  }

  /** LineNumber at `i`: the word, `\s+`, the range `\d+(?:-\d+)?` (group 1), `\s*`, `:`, then the tail. */
  function LineNumberAt(t: string, i: nat): (m: Option<Match>)
    requires i <= |t|
    ensures m.Some? ==> m.value.lineNumber.Some? && IsLineRange(m.value.lineNumber.value)
  {
    match LineWordEnd(t, i)
    case None => None
    case Some(a) =>
      var b := SkipSpace(t, a);
      var c := SkipDigits(t, b);
      if c == b then None
      else
        var d := if c + 1 < |t| && t[c] == '-' && IsDigit(t[c + 1]) then SkipDigits(t, c + 1) else c;
        var e := SkipSpace(t, d);
        if e < |t| && t[e] == ':' then
          RangeIsLineRange(t, b, c, d);
          WithTail(t, Some(t[b..d]), e + 1)
        else None
  }

  /** NumberedItem, StarBullet and DashBullet at `i`: a line start, `\s*`, the marker, then the tail. */
  function ListItemAt(p: Pattern, t: string, i: nat): Option<Match>
    requires i <= |t|
    requires p == NumberedItem || p == StarBullet || p == DashBullet
  {
    if !LineStart(t, i) then None
    else
      var a := SkipSpace(t, i);
      if p == NumberedItem then
        var b := SkipDigits(t, a);
        if b > a && b < |t| && t[b] == '.' then WithTail(t, None, b + 1) else None
      else
        var marker := if p == StarBullet then '*' else '-';
        if a < |t| && t[a] == marker then WithTail(t, None, a + 1) else None
  }

  /** The match of `p` that starts exactly at `i`, if any. */
  function MatchAt(p: Pattern, t: string, i: nat): (m: Option<Match>)
    requires i <= |t|
    ensures m.Some? ==> i < m.value.end <= |t|
    ensures m.Some? ==> (m.value.lineNumber.Some? <==> p == LineNumber)
    ensures m.Some? && m.value.lineNumber.Some? ==> IsLineRange(m.value.lineNumber.value)
  {
    match p
    case IssueKeyword => IssueKeywordAt(t, i)
    case LineNumber => LineNumberAt(t, i)
    case _ => ListItemAt(p, t, i)
  }

  /** `re.finditer(p, t)` from position `i`: a match resumes the search at its end, a miss at the next position. */
  function Scan(p: Pattern, t: string, i: nat): (ms: seq<Match>)
    requires i <= |t|
    ensures forall k :: 0 <= k < |ms| ==> (ms[k].lineNumber.Some? <==> p == LineNumber)
    ensures forall k :: 0 <= k < |ms| && ms[k].lineNumber.Some? ==> IsLineRange(ms[k].lineNumber.value)
    decreases |t| - i
  {
    match MatchAt(p, t, i)
    case Some(m) => [m] + Scan(p, t, m.end)
    case None => if i == |t| then [] else Scan(p, t, i + 1)
  }

  // ---------------------------------------------------------------------
  // What the patterns read back from well-formed lines

  /** A description the tail captures whole: it starts with a non-space and has no line break. */
  predicate OneLine(d: string) {
    d != [] && !IsSpace(d[0]) && '\n' !in d
  }

  lemma TailOfOneLine(t: string, j: nat, d: string)
    requires j + 1 + |d| == |t| && IsSpace(t[j]) && t[j] != '\n' && t[j + 1..] == d && OneLine(d)
    ensures Tail(t, j) == Some((j + 1, |t|, |t|))
  {
    assert t[j + 1] == d[0];
    assert SkipSpace(t, j) == SkipSpace(t, j + 1) == j + 1;
    forall k | j + 1 <= k < |t| ensures t[k] != '\n' {
      assert t[k] == d[k - j - 1];
    }
  }

  /** `Line <n>: <d>` is read as line number `n` with description `d`. */
  lemma LineNumberOfLine(n: nat, d: string)
    requires OneLine(d)
    ensures var t := "Line " + NatToString(n) + ": " + d;
      MatchAt(LineNumber, t, 0) == Some(Match(Some(NatToString(n)), d, |t|))
  {
    var num := NatToString(n);
    var t := "Line " + num + ": " + d;
    var c := 5 + |num|;
    assert t[..4] == "Line" && t[4] == ' ';
    assert t[5] == num[0];
    forall k | 5 <= k < c ensures IsDigit(t[k]) {
      assert t[k] == num[k - 5];
    }
    assert t[c] == ':';
    assert t[c + 2..] == d;
    TailOfOneLine(t, c + 1, d);
    assert t[c + 2..|t|] == d;
    assert t[5..c] == num;
    LineNumberSteps(t, c);
  }

  lemma LineNumberSteps(t: string, c: nat)
    requires 5 < c < |t| && OccursAt(t, "Line", 0) && t[4] == ' ' && t[c] == ':'
    requires forall k :: 5 <= k < c ==> IsDigit(t[k])
    requires Tail(t, c + 1).Some? && Tail(t, c + 1).value == (c + 2, |t|, |t|)
    ensures MatchAt(LineNumber, t, 0) == Some(Match(Some(t[5..c]), t[c + 2..|t|], |t|))
  {
    assert LineWordEnd(t, 0) == Some(4);
    assert SkipSpace(t, 4) == 5;
    assert SkipDigits(t, 5) == c;
    assert SkipSpace(t, c) == c;
  }

  /** `Issue #<n>: <d>` is read as description `d`, without a line number. */
  lemma IssueKeywordOfLine(n: nat, d: string)
    requires OneLine(d)
    ensures var t := "Issue #" + NatToString(n) + ": " + d;
      MatchAt(IssueKeyword, t, 0) == Some(Match(None, d, |t|))
  {
    var num := NatToString(n);
    var t := "Issue #" + num + ": " + d;
    var c := 7 + |num|;
    assert t[..5] == "Issue" && t[5] == ' ' && t[6] == '#';
    forall k | 7 <= k < c ensures IsDigit(t[k]) {
      assert t[k] == num[k - 7];
    }
    assert t[c] == ':';
    assert t[c + 2..] == d;
    TailOfOneLine(t, c + 1, d);
    assert t[c + 2..|t|] == d;
    IssueKeywordSteps(t, c);
  }

  lemma IssueKeywordSteps(t: string, c: nat)
    requires 7 <= c < |t| && t[..5] == "Issue" && t[5] == ' ' && t[6] == '#' && t[c] == ':'
    requires forall k :: 7 <= k < c ==> IsDigit(t[k])
    requires Tail(t, c + 1).Some? && Tail(t, c + 1).value == (c + 2, |t|, |t|)
    ensures MatchAt(IssueKeyword, t, 0) == Some(Match(None, t[c + 2..|t|], |t|))
  {
    assert KeywordAt(t, 0) == Some(0);
    assert SkipSpace(t, 5) == 6;
    assert SkipDigits(t, 7) == c;
    assert SkipSpace(t, c) == c;
  }

  /** `- <d>` at the start of a line is read as a dash bullet with description `d`. */
  lemma DashBulletOfLine(d: string)
    requires OneLine(d)
    ensures MatchAt(DashBullet, "- " + d, 0) == Some(Match(None, d, |d| + 2))
  {
    var t := "- " + d;
    assert t[0] == '-' && t[2..] == d;
    assert SkipSpace(t, 0) == 0;
    TailOfOneLine(t, 1, d);
    assert t[2..|t|] == d;
    assert WithTail(t, None, 1) == Some(Match(None, d, |t|));
    assert ListItemAt(DashBullet, t, 0) == WithTail(t, None, 1);
  }
}
