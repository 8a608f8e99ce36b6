/**
 * The enhanced analyzer (`src/analyzer/enhanced_analyzer.py`): it turns the
 * model's analysis text into a structured result (a JSON object), classifies
 * every issue it finds by severity and type, keeps per-run statistics and a
 * result cache keyed by path, analysis type, minimum issue count and content
 * hash, and formats sections of a structured result back into text.
 *
 * The regular expressions of the source are modelled as position scanners
 * over the text (ASCII character classes, DOTALL). `json.loads`, the content
 * hash, the language table, the file listing and the model's reply are
 * parameters.
 */
module EnhancedAnalyzer {
  import opened Wrappers
  import opened Text
  import opened Json
  import opened Dicts
  import opened FileService

  /** A structured analysis result: a JSON object. */
  type Structured = map<string, JsonValue>

  // ---------------------------------------------------------------------
  // Whole-word keyword search: `re.search(r"\b(w1|...|wn)\b", t)`

  /** One of `words` occurs at `i` as a whole word: the alternation tried at one start position. */
  predicate AnyWordAt(t: string, words: seq<string>, i: nat) {
    words != [] && ((OccursAt(t, words[0], i) && WordBounded(t, i, i + |words[0]|)) || AnyWordAt(t, words[1..], i))
  }

  /** The scan `re.search` performs: every start position from `i` on, in order. */
  predicate SearchFrom(t: string, words: seq<string>, i: nat)
    decreases |t| - i
  {
    i <= |t| && (AnyWordAt(t, words, i) || (i < |t| && SearchFrom(t, words, i + 1)))
  }

  lemma {:induction false} AnyWordAtIff(t: string, words: seq<string>, i: nat)
    ensures AnyWordAt(t, words, i) <==>
      exists k :: 0 <= k < |words| && OccursAt(t, words[k], i) && WordBounded(t, i, i + |words[k]|)
    decreases |words|
  {
    if words != [] {
      AnyWordAtIff(t, words[1..], i);
      if AnyWordAt(t, words[1..], i) {
        var k :| 0 <= k < |words[1..]| && OccursAt(t, words[1..][k], i) && WordBounded(t, i, i + |words[1..][k]|);
        assert words[k + 1] == words[1..][k];
      }
      forall k | 0 < k < |words| && OccursAt(t, words[k], i) && WordBounded(t, i, i + |words[k]|)
        ensures AnyWordAt(t, words[1..], i)
      {
        assert words[1..][k - 1] == words[k];
      }
    }
  }

  lemma {:induction false} SearchFromIff(t: string, words: seq<string>, i: nat)
    requires i <= |t|
    ensures SearchFrom(t, words, i) <==>
      exists j, k :: i <= j <= |t| && 0 <= k < |words| && OccursAt(t, words[k], j) && WordBounded(t, j, j + |words[k]|)
    decreases |t| - i
  {
    AnyWordAtIff(t, words, i);
    if i < |t| {
      SearchFromIff(t, words, i + 1);
    }
  }

  /** The scan finds a match exactly when some keyword occurs as a whole word. */
  lemma SearchIff(t: string, words: seq<string>)
    ensures SearchFrom(t, words, 0) <==> ContainsAnyWord(t, words)
  {
    SearchFromIff(t, words, 0);
    if SearchFrom(t, words, 0) {
      var j, k :| 0 <= j <= |t| && 0 <= k < |words| && OccursAt(t, words[k], j) && WordBounded(t, j, j + |words[k]|);
      assert ContainsWord(t, words[k]);
    }
    if ContainsAnyWord(t, words) {
      var k :| 0 <= k < |words| && ContainsWord(t, words[k]);
      var j :| 0 <= j <= |t| - |words[k]| && OccursAt(t, words[k], j) && WordBounded(t, j, j + |words[k]|);
    }
  }

  // ---------------------------------------------------------------------
  // Severity and type of an issue, decided on its lower-cased title

  const CriticalWords: seq<string> := ["critical", "severe", "serious", "crash", "security", "exploit", "vulnerability"]
  const MajorWords: seq<string> := ["major", "important", "significant", "error", "bug"]
  const MinorWords: seq<string> := ["minor", "style", "formatting", "suggestion", "improvement"]

  const SecurityWords: seq<string> := ["security", "vulnerability", "exploit", "injection", "xss"]
  const PerformanceWords: seq<string> := ["performance", "slow", "speed", "memory", "cpu", "efficient"]
  const MaintainabilityWords: seq<string> := ["maintainability", "readability", "clarity", "documentation"]
  const BugWords: seq<string> := ["bug", "error", "exception", "crash", "incorrect"]

  datatype Severity = Critical | Major | Minor {
    function Name(): string {
      match this
      case Critical => "critical"
      case Major => "major"
      case Minor => "minor"
    }
  }

  datatype IssueType = SecurityType | PerformanceType | MaintainabilityType | BugType | GeneralType {
    function Name(): string {
      match this
      case SecurityType => "security"
      case PerformanceType => "performance"
      case MaintainabilityType => "maintainability"
      case BugType => "bug"
      case GeneralType => "general"
    }
  }

  /** The ordered severity tests; the third one only re-assigns the default. */
  function SeverityOf(title: string): Severity {
    var t := Lower(title);
    if SearchFrom(t, CriticalWords, 0) then Critical
    else if SearchFrom(t, MajorWords, 0) then Major
    else if SearchFrom(t, MinorWords, 0) then Minor
    else Minor
  }

  /** The ordered type tests. */
  function TypeOf(title: string): IssueType {
    var t := Lower(title);
    if SearchFrom(t, SecurityWords, 0) then SecurityType
    else if SearchFrom(t, PerformanceWords, 0) then PerformanceType
    else if SearchFrom(t, MaintainabilityWords, 0) then MaintainabilityType
    else if SearchFrom(t, BugWords, 0) then BugType
    else GeneralType
  }

  /** Severity in terms of whole-word keyword occurrence, first list that matches wins; never "info". */
  lemma SeverityOfWords(title: string)
    ensures var t := Lower(title);
      && (SeverityOf(title) == Critical <==> ContainsAnyWord(t, CriticalWords))
      && (SeverityOf(title) == Major <==> !ContainsAnyWord(t, CriticalWords) && ContainsAnyWord(t, MajorWords))
      && (SeverityOf(title) == Minor <==> !ContainsAnyWord(t, CriticalWords) && !ContainsAnyWord(t, MajorWords))
    ensures SeverityOf(title).Name() in {"critical", "major", "minor"}
  {
    var t := Lower(title);
    SearchIff(t, CriticalWords);
    SearchIff(t, MajorWords);
  }

  /** Type in terms of whole-word keyword occurrence, in the priority security > performance > maintainability > bug > general. */
  lemma TypeOfWords(title: string)
    ensures var t := Lower(title);
      && (TypeOf(title) == SecurityType <==> ContainsAnyWord(t, SecurityWords))
      && (TypeOf(title) == PerformanceType <==>
            !ContainsAnyWord(t, SecurityWords) && ContainsAnyWord(t, PerformanceWords))
      && (TypeOf(title) == MaintainabilityType <==>
            !ContainsAnyWord(t, SecurityWords) && !ContainsAnyWord(t, PerformanceWords)
            && ContainsAnyWord(t, MaintainabilityWords))
      && (TypeOf(title) == BugType <==>
            !ContainsAnyWord(t, SecurityWords) && !ContainsAnyWord(t, PerformanceWords)
            && !ContainsAnyWord(t, MaintainabilityWords) && ContainsAnyWord(t, BugWords))
      && (TypeOf(title) == GeneralType <==>
            !ContainsAnyWord(t, SecurityWords) && !ContainsAnyWord(t, PerformanceWords)
            && !ContainsAnyWord(t, MaintainabilityWords) && !ContainsAnyWord(t, BugWords))
  {
    var t := Lower(title);
    SearchIff(t, SecurityWords);
    SearchIff(t, PerformanceWords);
    SearchIff(t, MaintainabilityWords);
    SearchIff(t, BugWords);
  }

  // ---------------------------------------------------------------------
  // Scanning the analysis text

  /** The end of the run of `c` that starts at `i` (greedy `c*`). */
  function SkipChar(t: string, c: char, i: nat): (j: nat)
    requires i <= |t|
    ensures i <= j <= |t|
    ensures forall k :: i <= k < j ==> t[k] == c
    ensures j == |t| || t[j] != c
    decreases |t| - i
  {
    if i == |t| || t[i] != c then i else SkipChar(t, c, i + 1)
  }

  lemma DigitRun(s: string, d: nat)
    requires d <= |s|
    ensures AllDigits(s[d..SkipDigits(s, d)])
  {
    var n := SkipDigits(s, d);
    forall k | 0 <= k < n - d
      ensures IsDigit(s[d..n][k])
    {
      assert s[d..n][k] == s[d + k];
    }
  }

  /** `$` without MULTILINE: the end of the text, or just before a final newline. */
  predicate AtEnd(s: string, e: nat) {
    e == |s| || (e + 1 == |s| && s[e] == '\n')
  }

  /** The three lookaheads that end a lazy body. */
  datatype Lookahead =
    | IssueLook       // (?=\n#+\s*Issue #\d+|\n#+\s*[^I]|$)
    | SuggestionLook  // (?=\n#+\s*Suggestion|\n#+\s*[^S]|$)
    | SummaryLook     // (?=\n#+\s*|$)

  /**
   * The lookahead holds at `e`. After a newline and one `#`, a second `#`, a
   * space or any other letter than the heading's own initial satisfies the
   * `[^I]` / `[^S]` branch; the initial itself needs the full heading word.
   */
  predicate StopAt(s: string, e: nat, look: Lookahead) {
    AtEnd(s, e) ||
    match look
    case IssueLook =>
      e + 2 < |s| && s[e] == '\n' && s[e + 1] == '#'
      && (s[e + 2] != 'I' || (OccursAt(s, "Issue #", e + 2) && e + 9 < |s| && IsDigit(s[e + 9])))
    case SuggestionLook =>
      e + 2 < |s| && s[e] == '\n' && s[e + 1] == '#'
      && (s[e + 2] != 'S' || OccursAt(s, "Suggestion", e + 2))
    case SummaryLook =>
      e + 1 < |s| && s[e] == '\n' && s[e + 1] == '#'
  }

  /** Where the lazy `(.*?)` that starts at `g` stops: the first position where the lookahead holds. */
  function LazyEnd(s: string, g: nat, look: Lookahead): (e: nat)
    requires g <= |s|
    ensures g <= e <= |s| && StopAt(s, e, look)
    ensures forall x :: g <= x < e ==> !StopAt(s, x, look)
    decreases |s| - g
  {
    if StopAt(s, g, look) then g else LazyEnd(s, g + 1, look)
  }

  /** `\s*:?\s*` from `t`. */
  function AfterColon(s: string, t: nat): (g: nat)
    requires t <= |s|
    ensures t <= g <= |s|
  {
    var u := SkipSpace(s, t);
    SkipSpace(s, if u < |s| && s[u] == ':' then u + 1 else u)
  }

  /** The position after a `#+\s*` heading prefix that starts at `i`, when `s[i]` is `#`. */
  function HeadingWord(s: string, i: nat): (k: nat)
    requires i < |s| && s[i] == '#'
    ensures i < k <= |s|
  {
    SkipSpace(s, SkipChar(s, '#', i))
  }

  // ---------------------------------------------------------------------
  // Issues

  /** What an issue heading captured: its number, the optional line range, and where its body starts. */
  datatype IssueHead = IssueHead(number: nat, start: Option<nat>, end: Option<nat>, body: nat)

  /**
   * `(?:\s*\(Lines?(?:\s+(\d+)(?:-(\d+))?)?\))?` at `n`: the start and end
   * captured and the position after `)`, or None when the optional group is
   * skipped. A range that does not close with `)` skips the whole group.
   */
  function LineRange(s: string, n: nat): (r: Option<(Option<nat>, Option<nat>, nat)>)
    requires n <= |s|
    ensures r.Some? ==> n < r.value.2 <= |s|
    ensures r.Some? && r.value.0.None? ==> r.value.1.None?
  {
    var p := SkipSpace(s, n);
    if !OccursAt(s, "(Line", p) then None
    else
      var q := if p + 5 < |s| && s[p + 5] == 's' then p + 6 else p + 5;
      var w := SkipSpace(s, q);
      var a := SkipDigits(s, w);
      if w > q && a > w then
        DigitRun(s, w);
        var start := ParseNat(s[w..a]);
        if a + 1 < |s| && s[a] == '-' && IsDigit(s[a + 1]) then
          var b := SkipDigits(s, a + 1);
          DigitRun(s, a + 1);
          if b < |s| && s[b] == ')' then Some((Some(start), Some(ParseNat(s[a + 1..b])), b + 1)) else None
        else if a < |s| && s[a] == ')' then Some((Some(start), None, a + 1))
        else None
      else if q < |s| && s[q] == ')' then Some((None, None, q + 1))
      else None
  }

  /** The heading `#+\s*Issue #(\d+)` with its optional line range and `\s*:?\s*`, matched at `i`. */
  function IssueHeadAt(s: string, i: nat): (r: Option<IssueHead>)
    requires i <= |s|
    ensures r.Some? ==> i < r.value.body <= |s|
    ensures r.Some? && r.value.start.None? ==> r.value.end.None?
  {
    if i == |s| || s[i] != '#' then None
    else
      var k := HeadingWord(s, i);
      if !OccursAt(s, "Issue #", k) then None
      else
        var d := k + 7;
        var n := SkipDigits(s, d);
        if n == d then None
        else
          DigitRun(s, d);
          var range := LineRange(s, n);
          var t := if range.Some? then range.value.2 else n;
          Some(IssueHead(ParseNat(s[d..n]),
            if range.Some? then range.value.0 else None,
            if range.Some? then range.value.1 else None,
            AfterColon(s, t)))
  }

  /** An issue parsed from the text; its severity and type follow from its title. */
  datatype ParsedIssue = ParsedIssue(
    id: nat, title: string, description: string,
    lineStart: Option<nat>, lineEnd: Option<nat>)
  {
    function Severity(): Severity {
      SeverityOf(title)
    }

    function Kind(): IssueType {
      TypeOf(title)
    }
  }

  /** The first line of the stripped body and the stripped rest (`split("\n", 1)`), "" when there is no rest. */
  function TitleAndDescription(body: string): (r: (string, string))
    ensures '\n' !in r.0
  {
    var td := Strip(body);
    var k := IndexOf(td, '\n', 0);
    assert '\n' !in td[..k];
    StripInside(td[..k]);
    (Strip(td[..k]), if k < |td| then Strip(td[k + 1..]) else "")
  }

  /** Title and description are the first line and the remaining lines of the stripped body, each stripped. */
  lemma TitleAndDescriptionLines(body: string)
    ensures var lines := Split(Strip(body), '\n');
      TitleAndDescription(body) == (Strip(lines[0]), if |lines| > 1 then Strip(Join(lines[1..], "\n")) else "")
  {
    var td := Strip(body);
    var k := IndexOf(td, '\n', 0);
    FirstLineAndRest(td);
    assert k == |td| ==> Split(td, '\n') == [td];
  }

  /** Where one issue match lies: its heading, and the end of its lazy body. */
  datatype IssueMatch = IssueMatch(head: IssueHead, end: nat)

  /** `re.finditer` over the issue pattern from `i`: after a match the scan resumes where the match ended. */
  function IssueMatchesFrom(s: string, i: nat): (r: seq<IssueMatch>)
    requires i <= |s|
    decreases |s| - i
  {
    if i == |s| then []
    else
      match IssueHeadAt(s, i)
      case None => IssueMatchesFrom(s, i + 1)
      case Some(h) => [IssueMatch(h, LazyEnd(s, h.body, IssueLook))] + IssueMatchesFrom(s, LazyEnd(s, h.body, IssueLook))
  }

  lemma IssueMatchesSkip(s: string, i: nat)
    requires i < |s| && IssueHeadAt(s, i).None?
    ensures IssueMatchesFrom(s, i) == IssueMatchesFrom(s, i + 1)
  {
  }

  lemma IssueMatchesStep(s: string, i: nat, h: IssueHead, e: nat)
    requires i < |s| && IssueHeadAt(s, i) == Some(h)
    requires e == LazyEnd(s, h.body, IssueLook)
    ensures IssueMatchesFrom(s, i) == [IssueMatch(h, e)] + IssueMatchesFrom(s, e)
  {
  }

  /** A match lies after `i` and inside a text of length `n`, and a heading with no start has no end. */
  predicate IssuePlaced(m: IssueMatch, i: nat, n: nat) {
    i < m.head.body <= m.end <= n && (m.head.start.None? ==> m.head.end.None?)
  }

  /** Every issue match lies inside the text after `i`, and a heading with no start has no end. */
  lemma {:induction false} IssueMatchesPlaced(s: string, i: nat)
    requires i <= |s|
    ensures forall k :: 0 <= k < |IssueMatchesFrom(s, i)| ==> IssuePlaced(IssueMatchesFrom(s, i)[k], i, |s|)
    decreases |s| - i
  {
    if i < |s| {
      var head := IssueHeadAt(s, i);
      if head.None? {
        IssueMatchesPlaced(s, i + 1);
        IssueMatchesSkip(s, i);
      } else {
        var e := LazyEnd(s, head.value.body, IssueLook);
        IssueMatchesPlaced(s, e);
        IssueMatchesStep(s, i, head.value, e);
        IssuePlacedCons(IssueMatch(head.value, e), IssueMatchesFrom(s, e), i, |s|);
      }
    }
  }

  /** A placed match followed by matches placed after its end are all placed. */
  lemma IssuePlacedCons(m: IssueMatch, rest: seq<IssueMatch>, i: nat, n: nat)
    requires IssuePlaced(m, i, n)
    requires forall k :: 0 <= k < |rest| ==> IssuePlaced(rest[k], m.end, n)
    ensures forall k :: 0 <= k < |[m] + rest| ==> IssuePlaced(([m] + rest)[k], i, n)
  {
    forall k | 0 <= k < |[m] + rest|
      ensures IssuePlaced(([m] + rest)[k], i, n)
    {
      if k > 0 {
        assert ([m] + rest)[k] == rest[k - 1];
      }
    }
  }

  /** `s[a..b]`; every match lies inside the text (`IssueMatchesPlaced`, `SuggestionMatchesPlaced`), so the empty case is never taken. */
  function Slice(s: string, a: nat, b: nat): string {
    if a <= b <= |s| then s[a..b] else ""
  }

  /** The issue one match describes: `line_end` defaults to `line_start`. */
  function IssueAt(s: string, m: IssueMatch): ParsedIssue
  {
    var td := TitleAndDescription(Slice(s, m.head.body, m.end));
    ParsedIssue(m.head.number, td.0, td.1, m.head.start, if m.head.end.Some? then m.head.end else m.head.start)
  }

  lemma IssueAtShape(s: string, m: IssueMatch)
    requires m.head.start.None? ==> m.head.end.None?
    ensures '\n' !in IssueAt(s, m).title
    ensures IssueAt(s, m).lineStart.None? <==> IssueAt(s, m).lineEnd.None?
  {
  }

  /** The issues of the text, one per heading, in order of appearance. */
  function Issues(s: string): (r: seq<ParsedIssue>)
    ensures |r| == |IssueMatchesFrom(s, 0)|
  {
    var found := IssueMatchesFrom(s, 0);
    seq(|found|, k requires 0 <= k < |found| => IssueAt(s, found[k]))
  }

  /** A parsed title is one line, and an issue has a line end exactly when it has a line start. */
  lemma IssuesShape(s: string)
    ensures forall k :: 0 <= k < |Issues(s)| ==>
      '\n' !in Issues(s)[k].title && (Issues(s)[k].lineStart.None? <==> Issues(s)[k].lineEnd.None?)
  {
    var found := IssueMatchesFrom(s, 0);
    IssueMatchesPlaced(s, 0);
    forall k | 0 <= k < |found|
      ensures '\n' !in Issues(s)[k].title && (Issues(s)[k].lineStart.None? <==> Issues(s)[k].lineEnd.None?)
    {
      assert Issues(s)[k] == IssueAt(s, found[k]);
      IssueAtShape(s, found[k]);
    }
  }

  /**
   * The `\s*` in front of an issue's body takes every newline after the
   * heading, and the lookahead needs a newline, so a body is empty only at the
   * end of the text.
   */
  lemma IssueBodyEmptyOnlyAtEnd(s: string, i: nat)
    requires i <= |s| && IssueHeadAt(s, i).Some?
    ensures LazyEnd(s, IssueHeadAt(s, i).value.body, IssueLook) == IssueHeadAt(s, i).value.body ==>
      IssueHeadAt(s, i).value.body == |s|
  {
    var g := IssueHeadAt(s, i).value.body;
    assert g < |s| ==> !IsSpace(s[g]);
  }

  /** A lazy body with no newline ahead of it runs to the end of the text. */
  lemma {:induction false} LazyEndNoNewline(s: string, g: nat, look: Lookahead)
    requires g <= |s| && forall k :: g <= k < |s| ==> s[k] != '\n'
    ensures LazyEnd(s, g, look) == |s|
    decreases |s| - g
  {
    if g < |s| {
      assert !StopAt(s, g, look);
      LazyEndNoNewline(s, g + 1, look);
    }
  }

  /** The heading word of a text that opens with `## Issue #1` and a newline. */
  lemma IssueOneWord(s: string)
    requires 12 <= |s| && s[..12] == ['#', '#', ' ', 'I', 's', 's', 'u', 'e', ' ', '#', '1', '\n']
    ensures HeadingWord(s, 0) == 3 && OccursAt(s, "Issue #", 3)
  {
    assert s[0] == '#' && s[1] == '#' && s[2] == ' ' && s[3] == 'I';
    assert SkipChar(s, '#', 2) == 2 && SkipChar(s, '#', 1) == 2 && SkipChar(s, '#', 0) == 2;
    assert SkipSpace(s, 3) == 3 && SkipSpace(s, 2) == 3;
    assert s[3..10] == s[..12][3..10];
  }

  /** The issue number of a text that opens with `## Issue #1` and a newline. */
  lemma IssueOneNumber(s: string)
    requires 12 <= |s| && s[..12] == ['#', '#', ' ', 'I', 's', 's', 'u', 'e', ' ', '#', '1', '\n']
    ensures SkipDigits(s, 10) == 11 && AllDigits(s[10..11]) && ParseNat(s[10..11]) == 1
  {
    assert s[10] == '1' && s[11] == '\n';
    assert SkipDigits(s, 11) == 11;
    assert s[10..11] == ['1'];
  }

  /** After a newline, a line that opens with neither space, colon nor parenthesis starts the body. */
  lemma BodyAfterNewline(s: string)
    requires 13 <= |s| && s[11] == '\n' && !IsSpace(s[12]) && s[12] != ':' && s[12] != '('
    ensures LineRange(s, 11).None? && AfterColon(s, 11) == 12
  {
    assert SkipSpace(s, 12) == 12 && SkipSpace(s, 11) == 12;
    assert 17 <= |s| ==> s[12..17][0] != '(';
  }

  /** The heading `## Issue #1` and its newline, before a line that opens with neither space, colon nor parenthesis. */
  lemma BareHeadingAt(line: string)
    requires line != [] && !IsSpace(line[0]) && line[0] != ':' && line[0] != '('
    ensures IssueHeadAt("## Issue #1\n" + line, 0) == Some(IssueHead(1, None, None, 12))
  {
    var head := ['#', '#', ' ', 'I', 's', 's', 'u', 'e', ' ', '#', '1', '\n'];
    assert head == "## Issue #1\n";
    var s := head + line;
    assert s[..12] == head && s[12] == line[0];
    IssueOneWord(s);
    IssueOneNumber(s);
    BodyAfterNewline(s);
  }

  /**
   * A bare heading followed on the next line by a line that opens with
   * neither a colon nor a parenthesis, another issue heading included, takes
   * that line as its title: that second issue is lost.
   */
  lemma BareHeadingSwallowsNext(line: string)
    requires line != [] && !IsSpace(line[0]) && !IsSpace(line[|line| - 1]) && '\n' !in line
    requires line[0] != ':' && line[0] != '('
    ensures Issues("## Issue #1\n" + line) == [ParsedIssue(1, line, "", None, None)]
  {
    var s := "## Issue #1\n" + line;
    var m := IssueMatch(IssueHead(1, None, None, 12), |s|);
    BareHeadingMatches(line);
    WholeLineIssue(s, line, m);
    assert Issues(s)[0] == IssueAt(s, m);
  }

  /** A match whose body is one stripped line has that line as its title and no description. */
  lemma WholeLineIssue(s: string, line: string, m: IssueMatch)
    requires line != [] && !IsSpace(line[0]) && !IsSpace(line[|line| - 1]) && '\n' !in line
    requires m.head.body <= m.end == |s| && s[m.head.body..] == line
    ensures IssueAt(s, m) == ParsedIssue(m.head.number, line, "", m.head.start, if m.head.end.Some? then m.head.end else m.head.start)
  {
    assert Slice(s, m.head.body, m.end) == line;
    StripStripped(line);
    assert IndexOf(line, '\n', 0) == |line|;
  }

  /** The one match of a bare heading whose next line has no newline after it: its body runs to the end. */
  lemma BareHeadingMatches(line: string)
    requires line != [] && !IsSpace(line[0]) && '\n' !in line
    requires line[0] != ':' && line[0] != '('
    ensures var s := "## Issue #1\n" + line;
      IssueMatchesFrom(s, 0) == [IssueMatch(IssueHead(1, None, None, 12), |s|)]
  {
    var s := "## Issue #1\n" + line;
    BareHeadingAt(line);
    forall k | 12 <= k < |s|
      ensures s[k] != '\n'
    {
      assert s[k] == line[k - 12];
    }
    LazyEndNoNewline(s, 12, IssueLook);
    assert IssueMatchesFrom(s, |s|) == [];
  }

  // ---------------------------------------------------------------------
  // Suggestions

  datatype Suggestion = Suggestion(id: nat, text: string)

  /** `#+\s*Suggestion(?:\s*#(\d+))?\s*:?\s*` at `i`: the number if one was given, and where the body starts. */
  function SuggestionHeadAt(s: string, i: nat): (r: Option<(Option<nat>, nat)>)
    requires i <= |s|
    ensures r.Some? ==> i < r.value.1 <= |s|
  {
    if i == |s| || s[i] != '#' then None
    else
      var k := HeadingWord(s, i);
      if !OccursAt(s, "Suggestion", k) then None
      else
        var m := k + 10;
        var u := SkipSpace(s, m);
        if u + 1 < |s| && s[u] == '#' && IsDigit(s[u + 1]) then
          var b := SkipDigits(s, u + 1);
          DigitRun(s, u + 1);
          Some((Some(ParseNat(s[u + 1..b])), AfterColon(s, b)))
        else Some((None, AfterColon(s, m)))
  }

  /** Where one suggestion match lies: its number if any, and its lazy body. */
  datatype SuggestionMatch = SuggestionMatch(number: Option<nat>, body: nat, end: nat)

  /** `re.finditer` over the suggestion pattern from `i`. */
  function SuggestionMatchesFrom(s: string, i: nat): (r: seq<SuggestionMatch>)
    requires i <= |s|
    decreases |s| - i
  {
    if i == |s| then []
    else
      match SuggestionHeadAt(s, i)
      case None => SuggestionMatchesFrom(s, i + 1)
      case Some((number, g)) =>
        [SuggestionMatch(number, g, LazyEnd(s, g, SuggestionLook))] + SuggestionMatchesFrom(s, LazyEnd(s, g, SuggestionLook))
  }

  /** The suggestion a match describes, `count` suggestions before it: an unnumbered one takes the next number. */
  function SuggestionAt(s: string, m: SuggestionMatch, count: nat): (r: Suggestion)
    ensures m.number.None? ==> r.id == count + 1
  {
    Suggestion(m.number.GetOr(count + 1), Strip(Slice(s, m.body, m.end)))
  }

  lemma SuggestionMatchesSkip(s: string, i: nat)
    requires i < |s| && SuggestionHeadAt(s, i).None?
    ensures SuggestionMatchesFrom(s, i) == SuggestionMatchesFrom(s, i + 1)
  {
  }

  lemma SuggestionMatchesStep(s: string, i: nat, number: Option<nat>, g: nat, e: nat)
    requires i < |s| && SuggestionHeadAt(s, i) == Some((number, g))
    requires e == LazyEnd(s, g, SuggestionLook)
    ensures SuggestionMatchesFrom(s, i) == [SuggestionMatch(number, g, e)] + SuggestionMatchesFrom(s, e)
  {
  }

  /** A suggestion match lies after `i` and inside a text of length `n`. */
  predicate SuggestionPlaced(m: SuggestionMatch, i: nat, n: nat) {
    i < m.body <= m.end <= n
  }

  /** Every suggestion match lies inside the text after `i`. */
  lemma {:induction false} SuggestionMatchesPlaced(s: string, i: nat)
    requires i <= |s|
    ensures forall k :: 0 <= k < |SuggestionMatchesFrom(s, i)| ==> SuggestionPlaced(SuggestionMatchesFrom(s, i)[k], i, |s|)
    decreases |s| - i
  {
    if i < |s| {
      var head := SuggestionHeadAt(s, i);
      if head.None? {
        SuggestionMatchesPlaced(s, i + 1);
        SuggestionMatchesSkip(s, i);
      } else {
        var e := LazyEnd(s, head.value.1, SuggestionLook);
        SuggestionMatchesPlaced(s, e);
        SuggestionMatchesStep(s, i, head.value.0, head.value.1, e);
        SuggestionPlacedCons(SuggestionMatch(head.value.0, head.value.1, e), SuggestionMatchesFrom(s, e), i, |s|);
      }
    }
  }

  /** A placed match followed by matches placed after its end are all placed. */
  lemma SuggestionPlacedCons(m: SuggestionMatch, rest: seq<SuggestionMatch>, i: nat, n: nat)
    requires SuggestionPlaced(m, i, n)
    requires forall k :: 0 <= k < |rest| ==> SuggestionPlaced(rest[k], m.end, n)
    ensures forall k :: 0 <= k < |[m] + rest| ==> SuggestionPlaced(([m] + rest)[k], i, n)
  {
    forall k | 0 <= k < |[m] + rest|
      ensures SuggestionPlaced(([m] + rest)[k], i, n)
    {
      if k > 0 {
        assert ([m] + rest)[k] == rest[k - 1];
      }
    }
  }

  /** The suggestions of the text, in order of appearance. */
  function Suggestions(s: string): (r: seq<Suggestion>)
  {
    var found := SuggestionMatchesFrom(s, 0);
    seq(|found|, k requires 0 <= k < |found| => SuggestionAt(s, found[k], k))
  }

  // ---------------------------------------------------------------------
  // Summary

  /** The last newline in `s[lo..hi]`. */
  function LastNewline(s: string, lo: nat, hi: nat): (r: Option<nat>)
    requires lo <= hi <= |s|
    ensures r.Some? ==> lo <= r.value < hi && s[r.value] == '\n'
    ensures r.Some? ==> forall x :: r.value < x < hi ==> s[x] != '\n'
    ensures r.None? ==> forall x :: lo <= x < hi ==> s[x] != '\n'
    decreases hi
  {
    if hi == lo then None
    else if s[hi - 1] == '\n' then Some(hi - 1)
    else LastNewline(s, lo, hi - 1)
  }

  /**
   * `#+\s*Summary\s*\n+` at `i`: where the summary body starts. `\s*` gives
   * back characters until `\n+` can match, so the body starts after the last
   * newline of the whitespace that follows "Summary", and there must be one.
   */
  function SummaryHeadAt(s: string, i: nat): (r: Option<nat>)
    requires i <= |s|
    ensures r.Some? ==> i < r.value <= |s|
  {
    if i == |s| || s[i] != '#' then None
    else
      var k := HeadingWord(s, i);
      if !OccursAt(s, "Summary", k) then None
      else
        var p := LastNewline(s, k + 7, SkipSpace(s, k + 7));
        if p.None? then None else Some(p.value + 1)
  }

  /** `re.search` for the summary from `i`: the first match, stripped, or "" when there is none. */
  function SummaryFrom(s: string, i: nat): (r: string)
    requires i <= |s|
    decreases |s| - i
  {
    if i == |s| then ""
    else
      match SummaryHeadAt(s, i)
      case None => SummaryFrom(s, i + 1)
      case Some(g) => Strip(s[g..LazyEnd(s, g, SummaryLook)])
  }

  function Summary(s: string): string {
    SummaryFrom(s, 0)
  }

  /** The body of the summary heading at `j`, up to where the lookahead first holds, stripped. */
  function SummaryBody(s: string, j: nat): string
    requires j < |s| && SummaryHeadAt(s, j).Some?
  {
    var g := SummaryHeadAt(s, j).value;
    Strip(s[g..LazyEnd(s, g, SummaryLook)])
  }

  /** The first position from `i` where a summary heading matches. */
  function NextSummaryHead(s: string, i: nat): (r: Option<nat>)
    requires i <= |s|
    ensures r.Some? ==> i <= r.value < |s| && SummaryHeadAt(s, r.value).Some?
    decreases |s| - i
  {
    if i == |s| then None
    else if SummaryHeadAt(s, i).Some? then Some(i)
    else NextSummaryHead(s, i + 1)
  }

  /** The search takes the body of the first summary heading from `i`, or gives "" when there is none. */
  lemma {:induction false} SummaryFromNext(s: string, i: nat)
    requires i <= |s|
    ensures SummaryFrom(s, i) == match NextSummaryHead(s, i) case None => "" case Some(j) => SummaryBody(s, j)
    decreases |s| - i
  {
    if i < |s| && SummaryHeadAt(s, i).None? {
      SummaryFromNext(s, i + 1);
    }
  }

  /** The heading found is the first from `i`. */
  /** No summary heading matches from `i` up to the next one found (or the end, when none is). */
  lemma {:induction false} NextSummaryHeadSkips(s: string, i: nat, k: nat)
    requires i <= k < |s|
    requires NextSummaryHead(s, i).None? || k < NextSummaryHead(s, i).value
    ensures SummaryHeadAt(s, k).None?
    decreases k - i
  {
    if i < k {
      assert SummaryHeadAt(s, i).None?;
      assert NextSummaryHead(s, i) == NextSummaryHead(s, i + 1);
      NextSummaryHeadSkips(s, i + 1, k);
    }
  }

  lemma NextSummaryHeadFirst(s: string, i: nat)
    requires i <= |s|
    ensures NextSummaryHead(s, i).Some? ==> forall k :: i <= k < NextSummaryHead(s, i).value ==> SummaryHeadAt(s, k).None?
  {
    if NextSummaryHead(s, i).Some? {
      forall k | i <= k < NextSummaryHead(s, i).value
        ensures SummaryHeadAt(s, k).None?
      {
        NextSummaryHeadSkips(s, i, k);
      }
    }
  }

  lemma NextSummaryHeadNone(s: string, i: nat)
    requires i <= |s| && NextSummaryHead(s, i).None?
    ensures forall k :: i <= k < |s| ==> SummaryHeadAt(s, k).None?
  {
    forall k | i <= k < |s|
      ensures SummaryHeadAt(s, k).None?
    {
      NextSummaryHeadSkips(s, i, k);
    }
  }

  /**
   * `structured["summary"]`: "" when no `#+\s*Summary\s*\n+` heading occurs
   * in the text; otherwise the stripped body of the first one.
   */
  lemma SummaryOf(s: string)
    ensures NextSummaryHead(s, 0).None? ==>
      Summary(s) == "" && forall k :: 0 <= k < |s| ==> SummaryHeadAt(s, k).None?
    ensures NextSummaryHead(s, 0).Some? ==>
      var j := NextSummaryHead(s, 0).value;
      && Summary(s) == SummaryBody(s, j)
      && SummaryHeadAt(s, j).Some?
      && forall k :: 0 <= k < j ==> SummaryHeadAt(s, k).None?
  {
    SummaryFromNext(s, 0);
    NextSummaryHeadFirst(s, 0);
    if NextSummaryHead(s, 0).None? {
      NextSummaryHeadNone(s, 0);
    }
  }

  // ---------------------------------------------------------------------
  // The structured result

  const NoSummary := "Analysis summary not provided"

  function OptionalNumber(n: Option<nat>): JsonValue {
    if n.Some? then JNumber(n.value) else JNull
  }

  /** The dictionary the text path builds for one issue. */
  function IssueJson(x: ParsedIssue): Structured {
    map[
      "id" := JNumber(x.id),
      "title" := JString(x.title),
      "description" := JString(x.description),
      "line_start" := OptionalNumber(x.lineStart),
      "line_end" := OptionalNumber(x.lineEnd),
      "severity" := JString(x.Severity().Name()),
      "type" := JString(x.Kind().Name()),
      "fixed" := JBool(false)]
  }

  function SuggestionJson(x: Suggestion): Structured {
    map["id" := JNumber(x.id), "text" := JString(x.text)]
  }

  function IssuesJson(xs: seq<ParsedIssue>): (r: seq<JsonValue>)
    ensures |r| == |xs| && forall k :: 0 <= k < |xs| ==> r[k] == JObject(IssueJson(xs[k]))
  {
    seq(|xs|, k requires 0 <= k < |xs| => JObject(IssueJson(xs[k])))
  }

  function SuggestionsJson(xs: seq<Suggestion>): (r: seq<JsonValue>)
    ensures |r| == |xs| && forall k :: 0 <= k < |xs| ==> r[k] == JObject(SuggestionJson(xs[k]))
  {
    seq(|xs|, k requires 0 <= k < |xs| => JObject(SuggestionJson(xs[k])))
  }

  /** The result of the text path. */
  function TextResult(text: string, path: string, language: string): Structured {
    map[
      "file_path" := JString(path),
      "language" := JString(language),
      "summary" := JString(Summary(text)),
      "issues" := JArray(IssuesJson(Issues(text))),
      "suggestions" := JArray(SuggestionsJson(Suggestions(text)))]
  }

  /** A decoded object with the two required keys added when missing. */
  function WithDefaults(obj: Structured): (r: Structured)
    ensures "summary" in r && "issues" in r
    ensures forall k :: k in obj ==> k in r && r[k] == obj[k]
    ensures forall k :: k in r && k !in obj ==> k == "summary" || k == "issues"
    ensures "summary" !in obj ==> r["summary"] == JString(NoSummary)
    ensures "issues" !in obj ==> r["issues"] == JArray([])
  {
    var withSummary := if "summary" in obj then obj else obj["summary" := JString(NoSummary)];
    if "issues" in withSummary then withSummary else withSummary["issues" := JArray([])]
  }

  /** The stripped text starts with "{" and ends with "}". */
  predicate LooksLikeJson(text: string) {
    var t := Strip(text);
    StartsWith(t, "{") && EndsWith(t, "}")
  }

  /**
   * `_structure_analysis_result`: the decoded object (with defaults) when the
   * text looks like JSON and decodes; otherwise the text path. `decode` is
   * `json.loads`, None where it raises.
   */
  function Structure(text: string, path: string, language: string, decode: string -> Option<Structured>): Structured {
    if LooksLikeJson(text) && decode(text).Some? then WithDefaults(decode(text).value)
    else TextResult(text, path, language)
  }

  /** JSON that decodes keeps every key and value it had, gaining at most "summary" and "issues". */
  lemma StructureOfJson(text: string, path: string, language: string, decode: string -> Option<Structured>)
    requires LooksLikeJson(text) && decode(text).Some?
    ensures "summary" in Structure(text, path, language, decode) && "issues" in Structure(text, path, language, decode)
    ensures forall k :: k in decode(text).value ==>
      k in Structure(text, path, language, decode) && Structure(text, path, language, decode)[k] == decode(text).value[k]
    ensures forall k :: k in Structure(text, path, language, decode) && k !in decode(text).value ==>
      k == "summary" || k == "issues"
  {
    var obj := decode(text).value;
    assert Structure(text, path, language, decode) == WithDefaults(obj);
  }


  /** Otherwise the result has exactly the five keys of the text path, with the parsed lists. */
  lemma StructureOfText(text: string, path: string, language: string, decode: string -> Option<Structured>)
    requires !LooksLikeJson(text) || decode(text).None?
    ensures var r := Structure(text, path, language, decode);
      && r.Keys == {"file_path", "language", "summary", "issues", "suggestions"}
      && r["file_path"] == JString(path) && r["language"] == JString(language)
      && r["issues"].JArray? && |r["issues"].items| == |Issues(text)|
      && r["suggestions"].JArray? && |r["suggestions"].items| == |Suggestions(text)|
  {
  }

  /** Appending one element to the front of what is left keeps the whole. */
  lemma AppendStep<T>(acc: seq<T>, x: seq<T>, rest: seq<T>, whole: seq<T>)
    requires acc + (x + rest) == whole
    ensures (acc + x) + rest == whole
  {
  }

  /** Appending a match and its issue keeps the issues in step with the matches. */
  lemma IssuesAppend(s: string, issues: seq<ParsedIssue>, found: seq<IssueMatch>, m: IssueMatch, issue: ParsedIssue)
    requires |issues| == |found| && issue == IssueAt(s, m)
    requires forall k :: 0 <= k < |found| ==> issues[k] == IssueAt(s, found[k])
    ensures forall k :: 0 <= k < |found| + 1 ==> (issues + [issue])[k] == IssueAt(s, (found + [m])[k])
  {
  }

  /** One step of `finditer` over issue headings from `i`: the match found there, if any, and where the scan resumes. */
  method NextIssue(s: string, i: nat) returns (m: Option<IssueMatch>, next: nat)
    requires i < |s|
    ensures i < next <= |s|
    ensures m.None? ==> IssueMatchesFrom(s, i) == IssueMatchesFrom(s, next)
    ensures m.Some? ==> IssueMatchesFrom(s, i) == [m.value] + IssueMatchesFrom(s, next)
  {
    var head := IssueHeadAt(s, i);
    if head.None? {
      IssueMatchesSkip(s, i);
      m, next := None, i + 1;
    } else {
      var e := LazyEnd(s, head.value.body, IssueLook);
      IssueMatchesStep(s, i, head.value, e);
      m, next := Some(IssueMatch(head.value, e)), e;
    }
  }

  /** The `finditer` loop over issue headings, appending one issue per match. */
  method ParseIssues(s: string) returns (issues: seq<ParsedIssue>)
    ensures issues == Issues(s)
  {
    issues := [];
    ghost var found: seq<IssueMatch> := [];
    var i := 0;
    assert found + IssueMatchesFrom(s, i) == IssueMatchesFrom(s, 0) by {
      var all := IssueMatchesFrom(s, 0);
      assert [] + all == all;
    }
    while i < |s|
      invariant i <= |s|
      invariant found + IssueMatchesFrom(s, i) == IssueMatchesFrom(s, 0)
      invariant |issues| == |found|
      invariant forall k :: 0 <= k < |found| ==> issues[k] == IssueAt(s, found[k])
      decreases |s| - i
    {
      var m, next := NextIssue(s, i);
      if m.Some? {
        AppendStep(found, [m.value], IssueMatchesFrom(s, next), IssueMatchesFrom(s, 0));
        var issue := IssueAt(s, m.value);
        IssuesAppend(s, issues, found, m.value, issue);
        issues := issues + [issue];
        found := found + [m.value];
      }
      i := next;
    }
    assert found == IssueMatchesFrom(s, 0) by {
      assert IssueMatchesFrom(s, i) == [];
    }
  }

  /** The `finditer` loop over suggestion headings; an unnumbered one is numbered by its position. */
  method ParseSuggestions(s: string) returns (suggestions: seq<Suggestion>)
    ensures suggestions == Suggestions(s)
  {
    suggestions := [];
    ghost var found: seq<SuggestionMatch> := [];
    var i := 0;
    while i < |s|
      invariant i <= |s|
      invariant found + SuggestionMatchesFrom(s, i) == SuggestionMatchesFrom(s, 0)
      invariant |suggestions| == |found|
      invariant forall k :: 0 <= k < |found| ==> suggestions[k] == SuggestionAt(s, found[k], k)
      decreases |s| - i
    {
      var head := SuggestionHeadAt(s, i);
      if head.None? {
        i := i + 1;
      } else {
        var e := LazyEnd(s, head.value.1, SuggestionLook);
        var m := SuggestionMatch(head.value.0, head.value.1, e);
        AppendStep(found, [m], SuggestionMatchesFrom(s, e), SuggestionMatchesFrom(s, 0));
        suggestions := suggestions + [Suggestion(head.value.0.GetOr(|suggestions| + 1), Strip(Slice(s, head.value.1, e)))];
        found := found + [m];
        i := e;
      }
    }
  }

  /** `_structure_analysis_result`, step by step as the source builds it. */
  method StructureAnalysisResult(text: string, path: string, language: string, decode: string -> Option<Structured>)
    returns (r: Structured)
    ensures r == Structure(text, path, language, decode)
  {
    if LooksLikeJson(text) {
      var decoded := decode(text);
      if decoded.Some? {
        r := AddDefaults(decoded.value);
        return;
      }
    }
    r := TextStructure(text, path, language);
  }

  /** The decoded object, with "summary" and "issues" set where missing. */
  method AddDefaults(obj: Structured) returns (r: Structured)
    ensures r == WithDefaults(obj)
  {
    r := obj;
    if "summary" !in r {
      r := r["summary" := JString(NoSummary)];
    }
    if "issues" !in r {
      r := r["issues" := JArray([])];
    }
  }

  /** The result built from the text's sections when it is not JSON. */
  method TextStructure(text: string, path: string, language: string) returns (r: Structured)
    ensures r == TextResult(text, path, language)
  {
    var issues := ParseIssues(text);
    var suggestions := ParseSuggestions(text);
    r := map[
      "file_path" := JString(path),
      "language" := JString(language),
      "summary" := JString(Summary(text)),
      "issues" := JArray(IssuesJson(issues)),
      "suggestions" := JArray(SuggestionsJson(suggestions))];
  }

  // ---------------------------------------------------------------------
  // `extract_section`

  /** `str(v)` of a decoded JSON value: the text of a list or object is given by `repr`. */
  function PyStr(v: JsonValue, repr: JsonValue -> string): string {
    match v
    case JNull => "None"
    case JBool(b) => if b then "True" else "False"
    case JNumber(n) => IntToString(n)
    case JString(t) => t
    case _ => repr(v)
  }

  /** Python `==` on decoded JSON values: `true` and `false` equal the numbers 1 and 0. */
  predicate PyEq(a: JsonValue, b: JsonValue) {
    match (a, b)
    case (JBool(x), JNumber(n)) => n == if x then 1 else 0
    case (JNumber(n), JBool(x)) => n == if x then 1 else 0
    case _ => a == b
  }

  /** The location shown after an issue's number. */
  function Location(issue: Structured, repr: JsonValue -> string): string {
    var start := Field(issue, "line_start");
    if start.Some? && start.value.Truthy() then
      var end := Field(issue, "line_end");
      if end.Some? && end.value.Truthy() && !PyEq(end.value, start.value) then
        " (Lines " + PyStr(start.value, repr) + "-" + PyStr(end.value, repr) + ")"
      else " (Line " + PyStr(start.value, repr) + ")"
    else ""
  }

  /** The four lines for one issue, or None where the source raises (not a dict, a missing key, a non-text severity, type or description). */
  function IssueBlock(item: JsonValue, repr: JsonValue -> string): Option<seq<string>> {
    if !item.JObject? then None
    else
      var issue := item.fields;
      if "id" !in issue || "title" !in issue || "severity" !in issue || "type" !in issue then None
      else if !issue["severity"].JString? || !issue["type"].JString? then None
      else
        var description := Field(issue, "description").GetOr(JString(""));
        if !description.JString? then None
        else Some([
          "Issue #" + PyStr(issue["id"], repr) + Location(issue, repr) + ": " + PyStr(issue["title"], repr),
          "Severity: " + Capitalize(issue["severity"].s) + ", Type: " + Capitalize(issue["type"].s),
          description.s,
          ""])
  }

  /** The two lines for one suggestion, or None where the source raises. */
  function SuggestionBlock(item: JsonValue, repr: JsonValue -> string): Option<seq<string>> {
    if !item.JObject? || "id" !in item.fields || "text" !in item.fields then None
    else Some(["Suggestion #" + PyStr(item.fields["id"], repr) + ": " + PyStr(item.fields["text"], repr), ""])
  }

  /** The lines for all items, or None when one of them raises. */
  function Blocks(items: seq<JsonValue>, issues: bool, repr: JsonValue -> string): Option<seq<string>>
  {
    if items == [] then Some([])
    else
      var before := Blocks(items[..|items| - 1], issues, repr);
      var last := if issues then IssueBlock(items[|items| - 1], repr) else SuggestionBlock(items[|items| - 1], repr);
      if before.None? || last.None? then None else Some(before.value + last.value)
  }

  /** The "issues" or "suggestions" section: the placeholder for an empty (falsy) list, else the blocks joined by newlines. */
  function ListSection(result: Structured, key: string, placeholder: string, repr: JsonValue -> string): Option<JsonValue> {
    var items := Field(result, key).GetOr(JArray([]));
    if !items.Truthy() then Some(JString(placeholder))
    else if !items.JArray? then None
    else
      var lines := Blocks(items.items, key == "issues", repr);
      if lines.None? then None else Some(JString(Join(lines.value, "\n")))
  }

  /** `extract_section`: None where the source raises. */
  function Section(result: Structured, section: string, repr: JsonValue -> string): (r: Option<JsonValue>)
    ensures section !in {"summary", "issues", "suggestions"} ==> r == Some(JString("Unknown section: " + section))
    ensures section == "issues" && Field(result, "issues").GetOr(JArray([])) == JArray([]) ==> r == Some(JString("No issues found"))
    ensures section == "suggestions" && Field(result, "suggestions").GetOr(JArray([])) == JArray([]) ==>
      r == Some(JString("No suggestions provided"))
  {
    if section == "summary" then Some(Field(result, "summary").GetOr(JString("No summary available")))
    else if section == "issues" then ListSection(result, "issues", "No issues found", repr)
    else if section == "suggestions" then ListSection(result, "suggestions", "No suggestions provided", repr)
    else Some(JString("Unknown section: " + section))
  }

  /** The location of a parsed issue: none for a missing or zero start, a range only for a distinct non-zero end. */
  function ParsedLocation(x: ParsedIssue): string {
    match x.lineStart
    case None => ""
    case Some(a) =>
      if a == 0 then ""
      else if x.lineEnd.Some? && x.lineEnd.value != 0 && x.lineEnd.value != a then
        " (Lines " + NatToString(a) + "-" + NatToString(x.lineEnd.value) + ")"
      else " (Line " + NatToString(a) + ")"
  }

  /** The lines of a parsed issue in the issues section. */
  function ParsedBlock(x: ParsedIssue): seq<string> {
    ["Issue #" + NatToString(x.id) + ParsedLocation(x) + ": " + x.title,
     "Severity: " + Capitalize(x.Severity().Name()) + ", Type: " + Capitalize(x.Kind().Name()),
     x.description,
     ""]
  }

  function ParsedBlocks(xs: seq<ParsedIssue>): seq<string> {
    if xs == [] then [] else ParsedBlocks(xs[..|xs| - 1]) + ParsedBlock(xs[|xs| - 1])
  }

  lemma LocationOfParsed(x: ParsedIssue, repr: JsonValue -> string)
    ensures Location(IssueJson(x), repr) == ParsedLocation(x)
  {
    var issue := IssueJson(x);
    assert Field(issue, "line_start") == Some(OptionalNumber(x.lineStart));
    assert Field(issue, "line_end") == Some(OptionalNumber(x.lineEnd));
  }

  lemma IssueBlockOfParsed(x: ParsedIssue, repr: JsonValue -> string)
    ensures IssueBlock(JObject(IssueJson(x)), repr) == Some(ParsedBlock(x))
  {
    var issue := IssueJson(x);
    assert issue["severity"] == JString(x.Severity().Name());
    assert issue["type"] == JString(x.Kind().Name());
    assert Field(issue, "description") == Some(JString(x.description));
    LocationOfParsed(x, repr);
  }

  lemma {:induction false} BlocksOfParsed(xs: seq<ParsedIssue>, repr: JsonValue -> string)
    ensures Blocks(IssuesJson(xs), true, repr) == Some(ParsedBlocks(xs))
    decreases |xs|
  {
    if xs != [] {
      var front := xs[..|xs| - 1];
      BlocksOfParsed(front, repr);
      assert IssuesJson(xs)[..|xs| - 1] == IssuesJson(front);
      IssueBlockOfParsed(xs[|xs| - 1], repr);
    }
  }

  /**
   * The issues section of a text-path result never raises: it is "No issues
   * found" when no heading was parsed, and otherwise four lines per issue
   * whose location is " (Lines a-b)" for a distinct non-zero end, " (Line a)"
   * for a non-zero start, and nothing otherwise.
   */
  lemma TextIssuesSection(text: string, path: string, language: string, repr: JsonValue -> string)
    ensures Section(TextResult(text, path, language), "issues", repr) ==
      Some(JString(if Issues(text) == [] then "No issues found" else Join(ParsedBlocks(Issues(text)), "\n")))
  {
    var xs := Issues(text);
    var items := IssuesJson(xs);
    BlocksOfParsed(xs, repr);
    IssuesSectionOf(TextResult(text, path, language), items, repr);
    assert items == [] <==> xs == [];
  }

  /** The issues section of a result whose "issues" is the list `items`. */
  lemma IssuesSectionOf(result: Structured, items: seq<JsonValue>, repr: JsonValue -> string)
    requires Field(result, "issues") == Some(JArray(items))
    ensures Section(result, "issues", repr) == if items == [] then Some(JString("No issues found"))
      else if Blocks(items, true, repr).None? then None
      else Some(JString(Join(Blocks(items, true, repr).value, "\n")))
  {
    assert Field(result, "issues").GetOr(JArray([])) == JArray(items);
  }

  /** `extract_section`, with the loops that collect the lines. */
  method ExtractSection(result: Structured, section: string, repr: JsonValue -> string) returns (r: Option<JsonValue>)
    ensures r == Section(result, section, repr)
  {
    if section == "summary" {
      return Some(Field(result, "summary").GetOr(JString("No summary available")));
    }
    if section != "issues" && section != "suggestions" {
      return Some(JString("Unknown section: " + section));
    }
    var placeholder := if section == "issues" then "No issues found" else "No suggestions provided";
    var items := Field(result, section).GetOr(JArray([]));
    if !items.Truthy() {
      return Some(JString(placeholder));
    }
    if !items.JArray? {
      return None;
    }
    var lines: seq<string> := [];
    for k := 0 to |items.items|
      invariant Blocks(items.items[..k], section == "issues", repr) == Some(lines)
    {
      var block := if section == "issues" then IssueBlock(items.items[k], repr) else SuggestionBlock(items.items[k], repr);
      assert items.items[..k + 1][..k] == items.items[..k];
      if block.None? {
        BlocksNone(items.items, k + 1, section == "issues", repr);
        return None;
      }
      lines := lines + block.value;
    }
    assert items.items[..|items.items|] == items.items;
    r := Some(JString(Join(lines, "\n")));
  }

  /** Once an item raises, the whole list does. */
  lemma {:induction false} BlocksNone(items: seq<JsonValue>, n: nat, issues: bool, repr: JsonValue -> string)
    requires n <= |items| && Blocks(items[..n], issues, repr).None?
    ensures Blocks(items, issues, repr).None?
    decreases |items| - n
  {
    if n < |items| {
      assert items[..n + 1][..n] == items[..n];
      BlocksNone(items, n + 1, issues, repr);
    } else {
      assert items[..n] == items;
    }
  }

  // ---------------------------------------------------------------------
  // Statistics (`_update_statistics`, `_reset_statistics`)

  /** The counters an analyzer keeps across one run. */
  datatype Stats = Stats(
    issueCount: int,
    filesAnalyzed: nat,
    totalTokens: int,
    byType: Dict<JsonValue, int>,
    bySeverity: Dict<JsonValue, int>)
  {
    ghost predicate Valid() {
      byType.Valid() && bySeverity.Valid()
    }
  }

  /** The counters after `_reset_statistics`: no types, and the four severities at zero. */
  function Reset(): (st: Stats)
    ensures st.Valid()
    ensures st.issueCount == 0 && st.filesAnalyzed == 0 && st.totalTokens == 0
    ensures st.byType.keys == [] && st.byType.entries == map[]
    ensures st.bySeverity.keys == [JString("critical"), JString("major"), JString("minor"), JString("info")]
    ensures forall k :: k in st.bySeverity.entries ==> st.bySeverity.entries[k] == 0
  {
    var keys := [JString("critical"), JString("major"), JString("minor"), JString("info")];
    var severities := Dict(keys, map[keys[0] := 0, keys[1] := 0, keys[2] := 0, keys[3] := 0]);
    assert severities.Valid();
    Stats(0, 0, 0, Empty(), severities)
  }

  /** A value usable as a dict key: lists and dicts are not hashable. */
  predicate Hashable(v: JsonValue) {
    !v.JArray? && !v.JObject?
  }

  /** The key a value counts under: `True` and `1` (and `False` and `0`) are the same dict key. */
  function Key(v: JsonValue): JsonValue {
    if v.JBool? then JNumber(if v.b then 1 else 0) else v
  }

  /** `d[k] = d.get(k, 0) + 1` */
  function Bump(d: Dict<JsonValue, int>, k: JsonValue): (r: Dict<JsonValue, int>)
    requires d.Valid()
    ensures r.Valid()
  {
    Put(d, k, d.Get(k).GetOr(0) + 1)
  }

  function TypeOfIssue(issue: map<string, JsonValue>): JsonValue {
    Field(issue, "type").GetOr(JString("general"))
  }

  function SeverityOfIssue(issue: map<string, JsonValue>): JsonValue {
    Field(issue, "severity").GetOr(JString("minor"))
  }

  /**
   * One turn of the loop over the issues: the issue bumps its type, then its
   * severity. The flag says the turn raised (an item that is not a dict, an
   * unhashable type or severity); the counters are as they were at that point.
   */
  function CountIssue(st: Stats, item: JsonValue): (r: (Stats, bool))
    requires st.Valid()
    ensures r.0.Valid()
    ensures r.0.issueCount == st.issueCount && r.0.filesAnalyzed == st.filesAnalyzed && r.0.totalTokens == st.totalTokens
    ensures r.0.bySeverity == st.bySeverity || !r.1
    ensures !r.1 <==> item.JObject? && Hashable(TypeOfIssue(item.fields)) && Hashable(SeverityOfIssue(item.fields))
    ensures !r.1 ==> item.JObject? && r.0 == Bumped(st, item)
  {
    if !item.JObject? then (st, true)
    else
      var kind := TypeOfIssue(item.fields);
      if !Hashable(kind) then (st, true)
      else
        var typed := st.(byType := Bump(st.byType, Key(kind)));
        var severity := SeverityOfIssue(item.fields);
        if !Hashable(severity) then (typed, true)
        else (Bumped(st, item), false)
  }

  /** The loop over the issues, turn by turn until one raises. */
  function Tally(st: Stats, items: seq<JsonValue>): (r: (Stats, bool))
    requires st.Valid()
    ensures r.0.Valid()
    ensures r.0.issueCount == st.issueCount && r.0.filesAnalyzed == st.filesAnalyzed && r.0.totalTokens == st.totalTokens
    decreases |items|
  {
    if items == [] then (st, false)
    else
      var step := CountIssue(st, items[0]);
      if step.1 then step else Tally(step.0, items[1..])
  }

  /**
   * `_update_statistics`: `len(issues)` is added first, then the loop runs.
   * A non-empty string or dict in place of the list raises on its first
   * element; any other non-list raises in `len`.
   */
  function Counted(st: Stats, result: Structured): (r: (Stats, bool))
    requires st.Valid()
    ensures r.0.Valid()
    ensures r.0.filesAnalyzed == st.filesAnalyzed && r.0.totalTokens == st.totalTokens
  {
    CountedIssues(st, Field(result, "issues").GetOr(JArray([])))
  }

  /** The same on the value found under "issues". */
  function CountedIssues(st: Stats, issues: JsonValue): (r: (Stats, bool))
    requires st.Valid()
    ensures r.0.Valid()
    ensures r.0.filesAnalyzed == st.filesAnalyzed && r.0.totalTokens == st.totalTokens
  {
    match issues
    case JArray(items) => Tally(st.(issueCount := st.issueCount + |items|), items)
    case JString(t) => (st.(issueCount := st.issueCount + |t|), t != "")
    case JObject(f) => (st.(issueCount := st.issueCount + |f|), f != map[])
    case _ => (st, true)
  }

  /** The sum of the counts stored under `keys`. */
  function Total(keys: seq<JsonValue>, entries: map<JsonValue, int>): int {
    if keys == [] then 0
    else Total(keys[..|keys| - 1], entries) + (if keys[|keys| - 1] in entries then entries[keys[|keys| - 1]] else 0)
  }

  function Sum(d: Dict<JsonValue, int>): int {
    Total(d.keys, d.entries)
  }

  lemma {:induction false} TotalUpdate(keys: seq<JsonValue>, entries: map<JsonValue, int>, k: JsonValue, v: int)
    requires Distinct(keys) && forall j :: 0 <= j < |keys| ==> keys[j] in entries
    ensures Total(keys, entries[k := v]) == Total(keys, entries) + (if k in keys then v - entries[k] else 0)
    decreases |keys|
  {
    if keys != [] {
      var front := keys[..|keys| - 1];
      assert Distinct(front);
      TotalUpdate(front, entries, k, v);
      assert k in keys <==> k in front || k == keys[|keys| - 1];
      assert k == keys[|keys| - 1] ==> k !in front;
    }
  }

  /** Counting one more occurrence of a key adds one to the sum. */
  lemma BumpSum(d: Dict<JsonValue, int>, k: JsonValue)
    requires d.Valid()
    ensures Sum(Bump(d, k)) == Sum(d) + 1
  {
    var v := d.Get(k).GetOr(0) + 1;
    var e := d.entries[k := v];
    assert Bump(d, k).entries == e;
    TotalUpdate(d.keys, d.entries, k, v);
    if k in d.entries {
      assert Bump(d, k).keys == d.keys;
      assert v == d.entries[k] + 1;
    } else {
      var keys := d.keys + [k];
      assert Bump(d, k).keys == keys;
      assert keys[..|keys| - 1] == d.keys;
      assert Total(keys, e) == Total(d.keys, e) + v;
    }
  }

  /** The sums of both breakdowns equal the number of issues counted. */
  predicate Balanced(st: Stats) {
    Sum(st.byType) == st.issueCount && Sum(st.bySeverity) == st.issueCount
  }

  /** The counters after one issue dict is counted by type and by severity. */
  function Bumped(st: Stats, item: JsonValue): (r: Stats)
    requires st.Valid() && item.JObject?
    ensures r.Valid()
  {
    st.(byType := Bump(st.byType, Key(TypeOfIssue(item.fields))), bySeverity := Bump(st.bySeverity, Key(SeverityOfIssue(item.fields))))
  }

  /** One turn of the loop, then the rest of it. */
  lemma {:induction false} TallyUnfold(st: Stats, items: seq<JsonValue>)
    requires st.Valid() && items != []
    ensures Tally(st, items) == if CountIssue(st, items[0]).1 then CountIssue(st, items[0]) else Tally(CountIssue(st, items[0]).0, items[1..])
  {
  }

  /** A loop that completes counted its first issue, then went on with the rest. */
  lemma {:induction false} TallyCons(st: Stats, items: seq<JsonValue>)
    requires st.Valid() && items != [] && !Tally(st, items).1
    ensures items[0].JObject? && !Tally(Bumped(st, items[0]), items[1..]).1
    ensures Tally(st, items) == Tally(Bumped(st, items[0]), items[1..])
  {
    TallyUnfold(st, items);
  }

  lemma {:induction false} TallySums(st: Stats, items: seq<JsonValue>)
    requires st.Valid() && !Tally(st, items).1
    ensures Sum(Tally(st, items).0.byType) == Sum(st.byType) + |items|
    ensures Sum(Tally(st, items).0.bySeverity) == Sum(st.bySeverity) + |items|
    decreases |items|
  {
    if items != [] {
      TallyCons(st, items);
      BumpSum(st.byType, Key(TypeOfIssue(items[0].fields)));
      BumpSum(st.bySeverity, Key(SeverityOfIssue(items[0].fields)));
      TallySums(Bumped(st, items[0]), items[1..]);
    }
  }

  /**
   * When `_update_statistics` completes, every issue it counted is counted once
   * by type and once by severity: balanced counters stay balanced.
   */
  lemma CountedBalanced(st: Stats, result: Structured)
    requires st.Valid() && Balanced(st) && !Counted(st, result).1
    ensures Balanced(Counted(st, result).0)
  {
    match Field(result, "issues").GetOr(JArray([]))
    case JArray(items) =>
      var counting := st.(issueCount := st.issueCount + |items|);
      assert Counted(st, result) == Tally(counting, items);
      TallySums(counting, items);
    case JString(t) =>
      assert t == [];
    case JObject(f) =>
      assert f == map[];
    case _ =>
  }

  lemma ResetBalanced()
    ensures Balanced(Reset())
  {
    var st := Reset();
    TotalZero(st.bySeverity.keys, st.bySeverity.entries);
  }

  lemma {:induction false} TotalZero(keys: seq<JsonValue>, entries: map<JsonValue, int>)
    requires forall k :: k in entries ==> entries[k] == 0
    ensures Total(keys, entries) == 0
    decreases |keys|
  {
    if keys != [] {
      TotalZero(keys[..|keys| - 1], entries);
    }
  }

  /** How many of the issues count under key `k`, by severity or by type. */
  function Occurrences(items: seq<JsonValue>, k: JsonValue, bySeverity: bool): nat {
    if items == [] then 0
    else
      var here := items[0].JObject? && Key(if bySeverity then SeverityOfIssue(items[0].fields) else TypeOfIssue(items[0].fields)) == k;
      (if here then 1 else 0) + Occurrences(items[1..], k, bySeverity)
  }

  /** Counting one issue adds one under its own type and severity and nothing under any other key. */
  lemma BumpedCounts(st: Stats, item: JsonValue, k: JsonValue)
    requires st.Valid() && item.JObject?
    ensures Bumped(st, item).byType.Get(k).GetOr(0) ==
      st.byType.Get(k).GetOr(0) + if Key(TypeOfIssue(item.fields)) == k then 1 else 0
    ensures Bumped(st, item).bySeverity.Get(k).GetOr(0) ==
      st.bySeverity.Get(k).GetOr(0) + if Key(SeverityOfIssue(item.fields)) == k then 1 else 0
  {
  }

  /** After a complete loop, each count has grown by the number of issues with that type or severity. */
  lemma {:induction false} TallyCounts(st: Stats, items: seq<JsonValue>, k: JsonValue)
    requires st.Valid() && !Tally(st, items).1
    ensures Tally(st, items).0.byType.Get(k).GetOr(0) == st.byType.Get(k).GetOr(0) + Occurrences(items, k, false)
    ensures Tally(st, items).0.bySeverity.Get(k).GetOr(0) == st.bySeverity.Get(k).GetOr(0) + Occurrences(items, k, true)
    decreases |items|
  {
    if items != [] {
      TallyCons(st, items);
      BumpedCounts(st, items[0], k);
      TallyCounts(Bumped(st, items[0]), items[1..], k);
    }
  }

  /** An issue dict whose type and severity are text, and whose severity is not "info". */
  predicate Countable(item: JsonValue) {
    item.JObject? && TypeOfIssue(item.fields).JString? && SeverityOfIssue(item.fields).JString?
    && SeverityOfIssue(item.fields).s != "info"
  }

  /** One countable issue: both counts bumped, then the rest of the loop. */
  lemma {:induction false} TallyStep(st: Stats, items: seq<JsonValue>)
    requires st.Valid() && items != [] && Countable(items[0])
    ensures Tally(st, items) == Tally(Bumped(st, items[0]), items[1..])
    ensures Occurrences(items, JString("info"), true) == Occurrences(items[1..], JString("info"), true)
  {
  }

  lemma {:induction false} TallyCountable(st: Stats, items: seq<JsonValue>)
    requires st.Valid() && forall k :: 0 <= k < |items| ==> Countable(items[k])
    ensures !Tally(st, items).1
    ensures Occurrences(items, JString("info"), true) == 0
    decreases |items|
  {
    if items != [] {
      TallyStep(st, items);
      var next := Bumped(st, items[0]);
      assert forall k :: 0 <= k < |items[1..]| ==> items[1..][k] == items[k + 1];
      TallyCountable(next, items[1..]);
    }
  }

  /**
   * Counting a text-path result never raises: the issue count grows by the
   * number of parsed issues, and the "info" severity, which the parser never
   * assigns, keeps its count.
   */
  lemma TextResultCounted(st: Stats, text: string, path: string, language: string)
    requires st.Valid()
    ensures !Counted(st, TextResult(text, path, language)).1
    ensures Counted(st, TextResult(text, path, language)).0.issueCount == st.issueCount + |Issues(text)|
    ensures Counted(st, TextResult(text, path, language)).0.bySeverity.Get(JString("info")).GetOr(0) ==
      st.bySeverity.Get(JString("info")).GetOr(0)
  {
    var xs := Issues(text);
    var items := IssuesJson(xs);
    IssuesCountable(xs);
    var counting := st.(issueCount := st.issueCount + |items|);
    CountedList(st, TextResult(text, path, language), items);
    TallyCountable(counting, items);
    TallyCounts(counting, items, JString("info"));
  }

  /** Parsed issues have text types and severities, and never the severity "info". */
  lemma IssuesCountable(xs: seq<ParsedIssue>)
    ensures forall k :: 0 <= k < |xs| ==> Countable(IssuesJson(xs)[k])
  {
    forall k | 0 <= k < |xs|
      ensures Countable(IssuesJson(xs)[k])
    {
      var issue := IssueJson(xs[k]);
      assert SeverityOfIssue(issue) == JString(xs[k].Severity().Name());
      assert TypeOfIssue(issue) == JString(xs[k].Kind().Name());
    }
  }

  /** A list of issues adds its length to the count, then is tallied issue by issue. */
  lemma {:induction false} CountedArray(st: Stats, items: seq<JsonValue>)
    requires st.Valid()
    ensures CountedIssues(st, JArray(items)) == Tally(st.(issueCount := st.issueCount + |items|), items)
  {
  }

  lemma {:induction false} CountedList(st: Stats, result: Structured, items: seq<JsonValue>)
    requires st.Valid() && Field(result, "issues") == Some(JArray(items))
    ensures Counted(st, result) == Tally(st.(issueCount := st.issueCount + |items|), items)
  {
    var issues := Field(result, "issues").GetOr(JArray([]));
    assert issues == JArray(items);
    assert Counted(st, result) == CountedIssues(st, issues);
  }

  // ---------------------------------------------------------------------
  // `analyze_directory`

  /**
   * What one run depends on besides the files: the arguments, whether a
   * project context or an analysis store is attached, and the collaborators
   * as functions (the file hash, `determine_language`, the path relative to
   * the directory, the model's reply with its token count, `json.loads`).
   */
  datatype Setup = Setup(
    analysisType: string,
    minIssues: int,
    useCache: bool,
    hasContext: bool,
    hasStore: bool,
    hash: string -> string,
    language: string -> Option<string>,
    relative: string -> string,
    // The reply to `analyze_code(code, language, file_path, ...)`. The call
    // also passes `analysis_type` and `min_issues`, which are fixed for a
    // setup (the fields above), and the file's context from an attached
    // project context, which is not an argument here: the reply stands for
    // one client answering with all three fixed.
    analyze: (string, string, string) -> (string, int),
    decode: string -> Option<Structured>)

  /** The analyzer's state during a run, and the results gathered so far. */
  datatype Run = Run(stats: Stats, cache: map<string, Structured>, results: Dict<string, Structured>) {
    ghost predicate Valid() {
      stats.Valid() && results.Valid()
    }
  }

  /** `f"{file_path}:{analysis_type}:{min_issues}:{file_hash}"` */
  function CacheKey(setup: Setup, path: string, content: string): string {
    path + ":" + setup.analysisType + ":" + IntToString(setup.minIssues) + ":" + setup.hash(content)
  }

  /** `determine_language` gave a non-empty name. */
  predicate Known(setup: Setup, path: string) {
    setup.language(path).Some? && setup.language(path).value != ""
  }

  /**
   * One iteration of the loop over the files; the flag says it raised. A
   * cached result is reused and counted again; a file of unknown language
   * is skipped; otherwise the reply is structured, counted, cached and
   * recorded, and the call into an attached context or store raises (its
   * keyword arguments do not match the collaborator's signature).
   */
  function FileStep(setup: Setup, run: Run, path: string, content: string): (r: (Run, bool))
    requires run.Valid()
    ensures r.0.Valid()
  {
    var key := CacheKey(setup, path, content);
    if setup.useCache && key in run.cache then
      var cached := run.cache[key];
      var counted := Counted(run.stats, cached);
      (Run(counted.0, run.cache, Put(run.results, path, cached)), counted.1)
    else if !Known(setup, path) then (run, false)
    else
      var answer := Analysis(setup, path, content);
      var result := answer.0;
      var counted := Counted(Charged(run.stats, answer.1), result);
      (Run(counted.0, run.cache[key := result], Put(run.results, path, result)), counted.1 || setup.hasContext || setup.hasStore)
  }

  /** One more file analysed, and the tokens it cost. */
  function Charged(st: Stats, tokens: int): (r: Stats)
    requires st.Valid()
    ensures r.Valid() && r.issueCount == st.issueCount && r.byType == st.byType && r.bySeverity == st.bySeverity
    ensures r.filesAnalyzed == st.filesAnalyzed + 1 && r.totalTokens == st.totalTokens + tokens
  {
    st.(filesAnalyzed := st.filesAnalyzed + 1, totalTokens := st.totalTokens + tokens)
  }

  /** The structured result of asking the model about a file of known language, and the tokens it cost. */
  function Analysis(setup: Setup, path: string, content: string): (Structured, int)
    requires Known(setup, path)
  {
    var language := setup.language(path).value;
    var reply := setup.analyze(content, language, setup.relative(path));
    (Structure(reply.0, path, language, setup.decode), reply.1)
  }

  /**
   * What one file step does: a cache hit leaves the cache and the file and
   * token counts alone and records the cached result; an unknown language
   * changes nothing; otherwise the file is counted, its result cached and
   * recorded, and an attached context or store makes the step raise. The
   * cache only grows.
   */
  lemma FileStepEffects(setup: Setup, run: Run, path: string, content: string)
    requires run.Valid()
    ensures setup.useCache && CacheKey(setup, path, content) in run.cache ==>
      && FileStep(setup, run, path, content).0.cache == run.cache
      && FileStep(setup, run, path, content).0.stats.filesAnalyzed == run.stats.filesAnalyzed
      && FileStep(setup, run, path, content).0.stats.totalTokens == run.stats.totalTokens
      && FileStep(setup, run, path, content).0.results.Get(path) == Some(run.cache[CacheKey(setup, path, content)])
    ensures !(setup.useCache && CacheKey(setup, path, content) in run.cache) && !Known(setup, path) ==> FileStep(setup, run, path, content) == (run, false)
    ensures !(setup.useCache && CacheKey(setup, path, content) in run.cache) && Known(setup, path) ==>
      && FileStep(setup, run, path, content).0.stats.filesAnalyzed == run.stats.filesAnalyzed + 1
      && CacheKey(setup, path, content) in FileStep(setup, run, path, content).0.cache
      && FileStep(setup, run, path, content).0.results.Get(path) == Some(FileStep(setup, run, path, content).0.cache[CacheKey(setup, path, content)])
      && (setup.hasContext || setup.hasStore ==> FileStep(setup, run, path, content).1)
    ensures run.cache.Keys <= FileStep(setup, run, path, content).0.cache.Keys
  {
  }

  /** The loop over the files, in order, up to the first one that raises. */
  function DirectoryRun(setup: Setup, run: Run, files: seq<(string, string)>): (r: (Run, bool))
    requires run.Valid()
    ensures r.0.Valid()
    decreases |files|
  {
    if files == [] then (run, false)
    else
      var step := FileStep(setup, run, files[0].0, files[0].1);
      if step.1 then step else DirectoryRun(setup, step.0, files[1..])
  }

  /** A cache hit: the cached result is recorded and counted again. */
  lemma FileStepHit(setup: Setup, run: Run, path: string, content: string)
    requires run.Valid() && setup.useCache && CacheKey(setup, path, content) in run.cache
    ensures var cached := run.cache[CacheKey(setup, path, content)];
      FileStep(setup, run, path, content) ==
        (Run(Counted(run.stats, cached).0, run.cache, Put(run.results, path, cached)), Counted(run.stats, cached).1)
  {
  }

  /** A fresh analysis: the new result is cached, recorded, and counted after the file and its tokens. */
  lemma FileStepFresh(setup: Setup, run: Run, path: string, content: string)
    requires run.Valid() && !(setup.useCache && CacheKey(setup, path, content) in run.cache) && Known(setup, path)
    ensures FileStep(setup, run, path, content) ==
      (Run(Counted(Charged(run.stats, Analysis(setup, path, content).1), Analysis(setup, path, content).0).0,
           run.cache[CacheKey(setup, path, content) := Analysis(setup, path, content).0],
           Put(run.results, path, Analysis(setup, path, content).0)),
       Counted(Charged(run.stats, Analysis(setup, path, content).1), Analysis(setup, path, content).0).1
       || setup.hasContext || setup.hasStore)
  {
  }

  /** A file step that does not raise keeps the counters balanced. */
  lemma FileStepBalanced(setup: Setup, run: Run, path: string, content: string)
    requires run.Valid() && Balanced(run.stats) && !FileStep(setup, run, path, content).1
    ensures Balanced(FileStep(setup, run, path, content).0.stats)
  {
    var key := CacheKey(setup, path, content);
    if setup.useCache && key in run.cache {
      FileStepHit(setup, run, path, content);
      CountedBalanced(run.stats, run.cache[key]);
    } else if Known(setup, path) {
      FileStepFresh(setup, run, path, content);
      var answer := Analysis(setup, path, content);
      CountedBalanced(Charged(run.stats, answer.1), answer.0);
    }
  }

  /** A run that completes leaves its counters balanced. */
  lemma {:induction false} DirectoryRunBalanced(setup: Setup, run: Run, files: seq<(string, string)>)
    requires run.Valid() && Balanced(run.stats) && !DirectoryRun(setup, run, files).1
    ensures Balanced(DirectoryRun(setup, run, files).0.stats)
    decreases |files|
  {
    if files != [] {
      FileStepBalanced(setup, run, files[0].0, files[0].1);
      DirectoryRunBalanced(setup, FileStep(setup, run, files[0].0, files[0].1).0, files[1..]);
    }
  }

  /**
   * A run that completes has cached every file it did not skip: each file of
   * known language, and each file that was already cached when the cache was on.
   */
  lemma {:induction false} DirectoryRunCaches(setup: Setup, run: Run, files: seq<(string, string)>)
    requires run.Valid() && !DirectoryRun(setup, run, files).1
    ensures forall i :: 0 <= i < |files| && Known(setup, files[i].0) ==>
      CacheKey(setup, files[i].0, files[i].1) in DirectoryRun(setup, run, files).0.cache
    ensures run.cache.Keys <= DirectoryRun(setup, run, files).0.cache.Keys
    decreases |files|
  {
    if files != [] {
      var step := FileStep(setup, run, files[0].0, files[0].1);
      FileStepEffects(setup, run, files[0].0, files[0].1);
      DirectoryRunCaches(setup, step.0, files[1..]);
      assert forall i :: 1 <= i < |files| ==> files[i] == files[1..][i - 1];
    }
  }

  /**
   * With the cache on, a run over files that are all cached or of unknown
   * language analyses nothing: no file is counted as analysed, no tokens
   * are spent, and the cache is unchanged.
   */
  lemma {:induction false} CachedRunAnalysesNothing(setup: Setup, run: Run, files: seq<(string, string)>)
    requires run.Valid() && setup.useCache
    requires forall i :: 0 <= i < |files| ==> CacheKey(setup, files[i].0, files[i].1) in run.cache || !Known(setup, files[i].0)
    ensures DirectoryRun(setup, run, files).0.stats.filesAnalyzed == run.stats.filesAnalyzed
    ensures DirectoryRun(setup, run, files).0.stats.totalTokens == run.stats.totalTokens
    ensures DirectoryRun(setup, run, files).0.cache == run.cache
    decreases |files|
  {
    if files != [] {
      var step := FileStep(setup, run, files[0].0, files[0].1);
      FileStepEffects(setup, run, files[0].0, files[0].1);
      assert forall i :: 0 <= i < |files[1..]| ==> files[1..][i] == files[i + 1];
      CachedRunAnalysesNothing(setup, step.0, files[1..]);
    }
  }

  /**
   * Running the same files again with the cache a completed run left behind
   * analyses nothing: the second run's file and token counts stay at zero.
   */
  lemma RerunUsesCache(setup: Setup, cache: map<string, Structured>, files: seq<(string, string)>)
    requires setup.useCache
    requires !DirectoryRun(setup, Run(Reset(), cache, Empty()), files).1
    ensures var again := Run(Reset(), DirectoryRun(setup, Run(Reset(), cache, Empty()), files).0.cache, Empty());
      && DirectoryRun(setup, again, files).0.stats.filesAnalyzed == 0
      && DirectoryRun(setup, again, files).0.stats.totalTokens == 0
  {
    var first := DirectoryRun(setup, Run(Reset(), cache, Empty()), files);
    DirectoryRunCaches(setup, Run(Reset(), cache, Empty()), files);
    CachedRunAnalysesNothing(setup, Run(Reset(), first.0.cache, Empty()), files);
  }

  /** One step of the loop over the files. */
  lemma DirectoryRunStep(setup: Setup, run: Run, files: seq<(string, string)>, i: nat)
    requires run.Valid() && i < |files|
    ensures var step := FileStep(setup, run, files[i].0, files[i].1);
      DirectoryRun(setup, run, files[i..]) == if step.1 then step else DirectoryRun(setup, step.0, files[i + 1..])
  {
    assert files[i..][0] == files[i] && files[i..][1..] == files[i + 1..];
  }

  // ---------------------------------------------------------------------
  // The analyzer object

  /** `EnhancedAnalyzer`: its counters and its cache of results. */
  class EnhancedAnalyzer {
    var issueCount: int
    var filesAnalyzed: nat
    var totalTokens: int
    var issuesByType: Dict<JsonValue, int>
    var issuesBySeverity: Dict<JsonValue, int>
    var cache: map<string, Structured>

    ghost predicate Valid()
      reads this
    {
      issuesByType.Valid() && issuesBySeverity.Valid()
    }

    /** The counters as one value. */
    function Statistics(): (st: Stats)
      reads this
      ensures Valid() ==> st.Valid()
    {
      Stats(issueCount, filesAnalyzed, totalTokens, issuesByType, issuesBySeverity)
    }

    constructor ()
      ensures Valid() && Statistics() == Reset() && cache == map[]
    {
      var reset := Reset();
      issueCount := 0;
      filesAnalyzed := 0;
      totalTokens := 0;
      issuesByType := reset.byType;
      issuesBySeverity := reset.bySeverity;
      cache := map[];
    }

    /** `_reset_statistics`: the counters start over; the cache is kept. */
    method ResetStatistics()
      modifies this
      ensures Valid() && Statistics() == Reset() && cache == old(cache)
    {
      var reset := Reset();
      issueCount := 0;
      filesAnalyzed := 0;
      totalTokens := 0;
      issuesByType := reset.byType;
      issuesBySeverity := reset.bySeverity;
    }

    /** `_update_statistics`; `raised` says it raised part-way, with the counters as they were then. */
    method UpdateStatistics(result: Structured) returns (raised: bool)
      requires Valid()
      modifies this
      ensures Valid() && (Statistics(), raised) == Counted(old(Statistics()), result) && cache == old(cache)
    {
      ghost var st := Statistics();
      var issues := Field(result, "issues").GetOr(JArray([]));
      assert Counted(st, result) == CountedIssues(st, issues);
      match issues
      case JString(t) =>
        issueCount := issueCount + |t|;
        return t != "";
      case JObject(f) =>
        issueCount := issueCount + |f|;
        return f != map[];
      case JArray(items) =>
        raised := CountList(items);
      case _ =>
        return true;
    }

    /** A list of issues: its length is added to the count, then each issue is tallied. */
    method CountList(items: seq<JsonValue>) returns (raised: bool)
      requires Valid()
      modifies this
      ensures Valid() && (Statistics(), raised) == CountedIssues(old(Statistics()), JArray(items)) && cache == old(cache)
    {
      CountedArray(Statistics(), items);
      issueCount := issueCount + |items|;
      raised := TallyIssues(items);
    }

    /** The loop of `_update_statistics` over a list of issues. */
    method TallyIssues(items: seq<JsonValue>) returns (raised: bool)
      requires Valid()
      modifies this
      ensures Valid() && (Statistics(), raised) == Tally(old(Statistics()), items) && cache == old(cache)
    {
      var k := 0;
      while k < |items|
        invariant 0 <= k <= |items| && Valid() && cache == old(cache)
        invariant Tally(Statistics(), items[k..]) == Tally(old(Statistics()), items)
      {
        ghost var st := Statistics();
        assert items[k..][0] == items[k] && items[k..][1..] == items[k + 1..];
        if !items[k].JObject? {
          return true;
        }
        var kind := TypeOfIssue(items[k].fields);
        if !Hashable(kind) {
          return true;
        }
        issuesByType := Bump(issuesByType, Key(kind));
        var severity := SeverityOfIssue(items[k].fields);
        if !Hashable(severity) {
          assert Tally(st, items[k..]) == (Statistics(), true);
          return true;
        }
        issuesBySeverity := Bump(issuesBySeverity, Key(severity));
        assert Tally(st, items[k..]) == Tally(Statistics(), items[k + 1..]);
        k := k + 1;
      }
      return false;
    }

    /**
     * `analyze_file`: an error result when the file cannot be read or has no
     * language; otherwise the structured reply, counted as one more file.
     * With a project context attached, the call that records the result raises.
     */
    method AnalyzeFile(path: string, read: Option<string>, setup: Setup) returns (r: Structured, raised: bool)
      requires Valid()
      modifies this
      ensures Valid() && cache == old(cache)
      ensures var got := GetFileContent(path, read);
        if got.0.None? || got.0.value == "" || got.1.None? || got.1.value == "" then
          r == map["error" := JString("Could not read file " + path)] && Statistics() == old(Statistics()) && !raised
        else
          var reply := setup.analyze(got.0.value, got.1.value, path);
          && r == Structure(reply.0, path, got.1.value, setup.decode)
          && Statistics() == Counted(Charged(old(Statistics()), reply.1), r).0
          && raised == (Counted(Charged(old(Statistics()), reply.1), r).1 || setup.hasContext)
    {
      var got := GetFileContent(path, read);
      var content, language := got.0, got.1;
      if content.None? || content.value == "" || language.None? || language.value == "" {
        return map["error" := JString("Could not read file " + path)], false;
      }
      // `analysis_type`, `min_issues` and the file context are fixed in `setup.analyze`.
      var reply := setup.analyze(content.value, language.value, path);
      r := StructureAnalysisResult(reply.0, path, language.value, setup.decode);
      raised := Record(r, reply.1);
      raised := raised || setup.hasContext;
    }

    /** One more file, its tokens, and the issues of its result are counted. */
    method Record(r: Structured, tokens: int) returns (raised: bool)
      requires Valid()
      modifies this
      ensures Valid() && cache == old(cache)
      ensures (Statistics(), raised) == Counted(Charged(old(Statistics()), tokens), r)
    {
      filesAnalyzed := filesAnalyzed + 1;
      totalTokens := totalTokens + tokens;
      assert Statistics() == Charged(old(Statistics()), tokens);
      raised := UpdateStatistics(r);
    }

    /**
     * `analyze_directory` over the files `get_all_files` listed, as (path,
     * content) pairs in order: the counters are reset, then each file is
     * handled as `FileStep` says until one raises.
     */
    method AnalyzeDirectory(files: seq<(string, string)>, setup: Setup) returns (results: Dict<string, Structured>, raised: bool)
      requires Valid()
      modifies this
      ensures Valid()
      ensures var run := DirectoryRun(setup, Run(Reset(), old(cache), Empty()), files);
        Statistics() == run.0.stats && cache == run.0.cache && results == run.0.results && raised == run.1
    {
      ResetStatistics();
      results := Empty();
      raised := false;
      ghost var first := Run(Statistics(), cache, results);
      var i := 0;
      while i < |files|
        invariant 0 <= i <= |files| && Valid() && results.Valid() && !raised
        invariant DirectoryRun(setup, Run(Statistics(), cache, results), files[i..]) == DirectoryRun(setup, first, files)
      {
        DirectoryRunStep(setup, Run(Statistics(), cache, results), files, i);
        results, raised := AnalyzeListedFile(files[i].0, files[i].1, setup, results);
        if raised {
          return;
        }
        i := i + 1;
      }
      assert files[i..] == [];
    }

    /** The body of the loop in `analyze_directory`, for one listed file. */
    method AnalyzeListedFile(path: string, content: string, setup: Setup, results: Dict<string, Structured>)
      returns (results': Dict<string, Structured>, raised: bool)
      requires Valid() && results.Valid()
      modifies this
      ensures Valid() && results'.Valid()
      ensures (Run(Statistics(), cache, results'), raised) == FileStep(setup, Run(old(Statistics()), old(cache), results), path, content)
    {
      var key := CacheKey(setup, path, content);
      if setup.useCache && key in cache {
        FileStepHit(setup, Run(Statistics(), cache, results), path, content);
        results', raised := ReuseCached(path, key, results);
      } else if Known(setup, path) {
        FileStepFresh(setup, Run(Statistics(), cache, results), path, content);
        results', raised := AnalyzeUncached(path, content, setup, results);
      } else {
        FileStepEffects(setup, Run(Statistics(), cache, results), path, content);
        results', raised := results, false;
      }
    }

    /** A cache hit in `analyze_directory`: the cached result is recorded and counted again. */
    method ReuseCached(path: string, key: string, results: Dict<string, Structured>)
      returns (results': Dict<string, Structured>, raised: bool)
      requires Valid() && results.Valid() && key in cache
      modifies this
      ensures Valid() && cache == old(cache) && results' == Put(results, path, cache[key])
      ensures (Statistics(), raised) == Counted(old(Statistics()), cache[key])
    {
      var cached := cache[key];
      results' := Put(results, path, cached);
      raised := UpdateStatistics(cached);
    }

    /** A file analysed afresh in `analyze_directory`; the call into an attached context or store raises. */
    method AnalyzeUncached(path: string, content: string, setup: Setup, results: Dict<string, Structured>)
      returns (results': Dict<string, Structured>, raised: bool)
      requires Valid() && results.Valid() && Known(setup, path)
      modifies this
      ensures Valid()
      ensures cache == old(cache)[CacheKey(setup, path, content) := Analysis(setup, path, content).0]
      ensures results' == Put(results, path, Analysis(setup, path, content).0)
      ensures Statistics() == Counted(Charged(old(Statistics()), Analysis(setup, path, content).1), Analysis(setup, path, content).0).0
      ensures raised == (Counted(Charged(old(Statistics()), Analysis(setup, path, content).1), Analysis(setup, path, content).0).1
        || setup.hasContext || setup.hasStore)
    {
      var language := setup.language(path).value;
      var reply := setup.analyze(content, language, setup.relative(path));
      var result := StructureAnalysisResult(reply.0, path, language, setup.decode);
      assert (result, reply.1) == Analysis(setup, path, content);
      filesAnalyzed := filesAnalyzed + 1;
      totalTokens := totalTokens + reply.1;
      assert Statistics() == Charged(old(Statistics()), reply.1);
      cache := cache[CacheKey(setup, path, content) := result];
      results' := Put(results, path, result);
      raised := UpdateStatistics(result);
      raised := raised || setup.hasContext || setup.hasStore;
    }
  }
}
