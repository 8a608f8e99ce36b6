/**
 * The enhanced backend client: a bounded retry loop with exponential backoff
 * and usage counters, a conversation history kept to its last twenty
 * messages, and extraction of code and JSON from replies.
 */
module EnhancedLlm {
  import opened Wrappers
  import opened Text
  import opened Json
  import FileService

  // ---------------------------------------------------------------------
  // Fenced blocks: `` ```(?:\w+)?\n([\s\S]+?)\n``` `` and `` ```(?:json)?\n([\s\S]+?)\n``` ``

  const Fence := "```"
  const Close := "\n```"

  /** Which tag a fence may carry: any `\w+` word, or the literal `json`. */
  datatype Tag = AnyWord | JsonTag

  /** Where the body starts after the fence at `i`, when the tag line that follows it matches. */
  function BodyStart(t: string, tag: Tag, i: nat): (r: Option<nat>)
    requires i + 3 <= |t|
    ensures r.Some? ==> i + 4 <= r.value <= |t| && t[r.value - 1] == '\n'
  {
    match tag
    case AnyWord =>
      var h := SkipWord(t, i + 3);
      if h < |t| && t[h] == '\n' then Some(h + 1) else None
    case JsonTag =>
      if OccursAt(t, "json\n", i + 3) then Some(i + 8)
      else if i + 3 < |t| && t[i + 3] == '\n' then Some(i + 4)
      else None
  }

  /** The first position from `e` on where `\n``` ` occurs. */
  function CloseFrom(t: string, e: nat): (r: Option<nat>)
    requires e <= |t|
    ensures r.Some? ==> e <= r.value && OccursAt(t, Close, r.value)
    ensures r.Some? ==> forall k :: e <= k < r.value ==> !OccursAt(t, Close, k)
    ensures r.None? ==> forall k :: e <= k <= |t| ==> !OccursAt(t, Close, k)
    decreases |t| - e
  {
    if OccursAt(t, Close, e) then Some(e)
    else if e == |t| then None
    else CloseFrom(t, e + 1)
  }

  lemma {:induction false} CloseFromFirst(t: string, e: nat, c: nat)
    requires e <= c <= |t| && OccursAt(t, Close, c)
    requires forall k :: e <= k < c ==> !OccursAt(t, Close, k)
    ensures CloseFrom(t, e) == Some(c)
    decreases c - e
  {
    if e < c {
      CloseFromFirst(t, e + 1, c);
    }
  }

  /** The match at `i`: its non-empty lazy body and the position where the match ends. */
  function MatchAt(t: string, tag: Tag, i: nat): (r: Option<(string, nat)>)
    requires i <= |t|
    ensures r.Some? ==> i < r.value.1 <= |t| && |r.value.0| >= 1
  {
    if !OccursAt(t, Fence, i) then None
    else match BodyStart(t, tag, i)
      case None => None
      case Some(b) =>
        if b == |t| then None
        else match CloseFrom(t, b + 1)
          case None => None
          case Some(e) => Some((t[b..e], e + 4))
  }

  /** `re.findall` from `i`: the bodies of the successive non-overlapping matches. */
  function Blocks(t: string, tag: Tag, i: nat): (r: seq<string>)
    requires i <= |t|
    ensures forall k :: 0 <= k < |r| ==> |r[k]| >= 1
    decreases |t| - i
  {
    if i == |t| then []
    else match MatchAt(t, tag, i)
      case Some((body, end)) => [body] + Blocks(t, tag, end)
      case None => Blocks(t, tag, i + 1)
  }

  lemma SkipWordTag(t: string, at: nat, tag: string)
    requires at + |tag| < |t| && t[at..at + |tag|] == tag && t[at + |tag|] == '\n'
    requires forall k :: 0 <= k < |tag| ==> IsWordChar(tag[k])
    ensures SkipWord(t, at) == at + |tag|
  {
    var j := SkipWord(t, at);
    assert forall k :: at <= k < at + |tag| ==> t[k] == tag[k - at];
  }

  /** `\n``` ` does not occur inside `code` or across its end, when `code` is followed by it. */
  lemma NoCloseInside(t: string, b: nat, code: string)
    requires b + |code| + 4 <= |t| && t[b..b + |code|] == code && t[b + |code|] == '\n'
    requires !Contains(code, Close)
    ensures forall k :: b + 1 <= k < b + |code| ==> !OccursAt(t, Close, k)
  {
    assert |Close| == 4;
    forall k | b + 1 <= k < b + |code|
      ensures !OccursAt(t, Close, k)
    {
      var j := k - b;
      if k + 4 <= b + |code| {
        var window, piece := t[k..k + 4], code[j..j + 4];
        forall x | 0 <= x < 4
          ensures window[x] == piece[x]
        {
          assert t[k + x] == t[b..b + |code|][j + x];
        }
        assert window == piece;
        assert !OccursAt(code, Close, j);
      } else {
        var n := b + |code| - k;
        assert 1 <= n <= 3 && t[k..k + 4][n] == '\n' && Close[n] == '`';
      }
    }
  }

  /** A reply that is one fenced block, tagged with a word or untagged, yields exactly its body. */
  lemma BlocksOfOneBlock(tag: string, code: string)
    requires forall k :: 0 <= k < |tag| ==> IsWordChar(tag[k])
    requires code != [] && !Contains(code, Close)
    ensures Blocks("```" + tag + "\n" + code + "\n```", AnyWord, 0) == [code]
  {
    var t := "```" + tag + "\n" + code + "\n```";
    MatchOfOneBlock(tag, code, t);
    assert Blocks(t, AnyWord, |t|) == [];
  }

  lemma {:induction false} MatchOfOneBlock(tag: string, code: string, t: string)
    requires forall k :: 0 <= k < |tag| ==> IsWordChar(tag[k])
    requires code != [] && !Contains(code, Close)
    requires t == "```" + tag + "\n" + code + "\n```"
    ensures MatchAt(t, AnyWord, 0) == Some((code, |t|))
  {
    var b := 4 + |tag|;
    var e := b + |code|;
    assert |t| == e + 4;
    assert t[3..3 + |tag|] == tag && t[3 + |tag|] == '\n';
    assert t[..3] == Fence;
    assert t[b..e] == code;
    assert t[e..e + 4] == Close;
    OneBlockAt(t, tag, code, b, e);
  }

  /** The same, stated on the positions of the fence, the tag line, the body and the closing fence. */
  lemma {:induction false} OneBlockAt(t: string, tag: string, code: string, b: nat, e: nat)
    requires forall k :: 0 <= k < |tag| ==> IsWordChar(tag[k])
    requires code != [] && !Contains(code, Close)
    requires b == 4 + |tag| && e == b + |code| && |t| == e + 4
    requires t[..3] == Fence && t[3..3 + |tag|] == tag && t[3 + |tag|] == '\n'
    requires t[b..e] == code && t[e..e + 4] == Close
    ensures MatchAt(t, AnyWord, 0) == Some((code, |t|))
  {
    SkipWordTag(t, 3, tag);
    assert OccursAt(t, Fence, 0);
    assert BodyStart(t, AnyWord, 0) == Some(b);
    NoCloseInside(t, b, code);
    assert OccursAt(t, Close, e);
    CloseFromFirst(t, b + 1, e);
  }

  // ---------------------------------------------------------------------
  // `_extract_code`

  /**
   * A marker line toggles the fallback in and out of code: after its leading
   * whitespace it starts with a fence (see `MarkerIsStripped`).
   */
  predicate IsMarker(line: string) {
    OccursAt(line, Fence, SkipSpace(line, 0))
  }

  /** `IsMarker` is the source's test: the stripped line starts with a fence. */
  lemma {:induction false} MarkerIsStripped(line: string)
    ensures IsMarker(line) <==> StartsWith(Strip(line), Fence)
  {
    MarkerAfterSpace(line);
    FenceSurvivesTrimEnd(TrimStart(line));
  }

  /** The marker test looks at the line without its leading whitespace. */
  lemma {:induction false} MarkerAfterSpace(line: string)
    ensures IsMarker(line) <==> StartsWith(TrimStart(line), Fence)
  {
    var a := TrimStart(line);
    var j := SkipSpace(line, 0);
    assert |line| - |a| == j;
    assert a == line[j..];
    if IsMarker(line) {
      assert a[..3] == line[j..j + 3];
    }
    if StartsWith(a, Fence) {
      assert a[..3] == line[j..j + 3];
    }
  }

  /** Trailing whitespace cannot reach into a leading fence. */
  lemma {:induction false} FenceSurvivesTrimEnd(a: string)
    ensures StartsWith(a, Fence) <==> StartsWith(TrimEnd(a), Fence)
  {
    var r := TrimEnd(a);
    if StartsWith(a, Fence) {
      assert a[..3] == Fence;
      assert a[2] == '`' && !IsSpace(a[2]);
      assert |r| >= 3;
      assert r[..3] == a[..3];
    }
    if StartsWith(r, Fence) {
      assert r[..3] == a[..3];
    }
  }

  predicate NoMarkers(lines: seq<string>) {
    forall k :: 0 <= k < |lines| ==> !IsMarker(lines[k])
  }

  /** The lines the toggle fallback keeps, starting outside (`inside == false`) or inside code. */
  function InsideLines(lines: seq<string>, inside: bool): seq<string> {
    if lines == [] then []
    else if IsMarker(lines[0]) then InsideLines(lines[1..], !inside)
    else (if inside then [lines[0]] else []) + InsideLines(lines[1..], inside)
  }

  lemma {:induction false} InsideLinesNoMarkers(xs: seq<string>, rest: seq<string>, inside: bool)
    requires NoMarkers(xs)
    ensures InsideLines(xs + rest, inside) == (if inside then xs else []) + InsideLines(rest, inside)
  {
    if xs != [] {
      var all := xs + rest;
      assert all[0] == xs[0] && !IsMarker(xs[0]);
      assert all[1..] == xs[1..] + rest;
      assert InsideLines(all, inside) == (if inside then [xs[0]] else []) + InsideLines(xs[1..] + rest, inside);
      InsideLinesNoMarkers(xs[1..], rest, inside);
      assert xs == [xs[0]] + xs[1..];
    } else {
      assert xs + rest == rest;
    }
  }

  /** The fallback keeps exactly the lines between an opening and a closing marker line. */
  lemma {:induction false} InsideLinesBetweenMarkers(before: seq<string>, open: string, body: seq<string>, close: string, after: seq<string>)
    requires NoMarkers(before) && NoMarkers(body) && NoMarkers(after)
    requires IsMarker(open) && IsMarker(close)
    ensures InsideLines(before + [open] + body + [close] + after, false) == body
  {
    var rest := [open] + body + [close] + after;
    assert before + [open] + body + [close] + after == before + rest;
    InsideLinesNoMarkers(before, rest, false);
    assert rest[1..] == body + ([close] + after);
    InsideLinesNoMarkers(body, [close] + after, true);
    assert ([close] + after)[1..] == after;
    InsideLinesNoMarkers(after, [], false);
    assert after + [] == after;
  }

  /** Without any marker line the fallback keeps nothing. */
  lemma {:induction false} InsideLinesNone(lines: seq<string>)
    requires NoMarkers(lines)
    ensures InsideLines(lines, false) == []
  {
    InsideLinesNoMarkers(lines, [], false);
    assert lines + [] == lines;
  }

  /** What `_extract_code` returns: the joined blocks, else the toggled lines, else "". */
  function CodeOf(text: string): string {
    var blocks := Blocks(text, AnyWord, 0);
    if blocks != [] then Join(blocks, "\n\n")
    else
      var kept := InsideLines(Split(text, '\n'), false);
      if kept != [] then Join(kept, "\n") else ""
  }

  /** A reply that is one fenced block gives back its body. */
  lemma CodeOfOneBlock(tag: string, code: string)
    requires forall k :: 0 <= k < |tag| ==> IsWordChar(tag[k])
    requires code != [] && !Contains(code, Close)
    ensures CodeOf("```" + tag + "\n" + code + "\n```") == code
  {
    BlocksOfOneBlock(tag, code);
  }

  /**
   * `_extract_code`: all fenced blocks joined by a blank line; failing that,
   * the lines between marker lines joined by newlines; failing that, "".
   */
  method ExtractCode(text: string) returns (code: string)
    ensures code == CodeOf(text)
  {
    var blocks := Blocks(text, AnyWord, 0);
    if blocks != [] {
      return Join(blocks, "\n\n");
    }
    var lines := Split(text, '\n');
    var codeLines: seq<string> := [];
    var inCodeBlock := false;
    var i := 0;
    while i < |lines|
      invariant 0 <= i <= |lines|
      invariant codeLines + InsideLines(lines[i..], inCodeBlock) == InsideLines(lines, false)
    {
      assert lines[i..][1..] == lines[i + 1..];
      if IsMarker(lines[i]) {
        inCodeBlock := !inCodeBlock;
      } else if inCodeBlock {
        codeLines := codeLines + [lines[i]];
      }
      i := i + 1;
    }
    assert lines[i..] == [];
    assert codeLines + [] == codeLines;
    assert codeLines == InsideLines(Split(text, '\n'), false);
    if codeLines != [] {
      return Join(codeLines, "\n");
    }
    return "";
  }

  // ---------------------------------------------------------------------
  // `_extract_json`

  /**
   * The matches of `(\{[\s\S]+\})`: at most one, from the first "{" to the
   * last "}", with at least one character between them.
   */
  function BraceMatches(t: string): (r: seq<string>)
    ensures |r| <= 1
    ensures r != [] ==> |r[0]| >= 3 && r[0][0] == '{' && r[0][|r[0]| - 1] == '}'
    ensures r != [] ==> exists i :: (0 <= i && i + |r[0]| <= |t| && t[i..i + |r[0]|] == r[0] &&
      '{' !in t[..i] && '}' !in t[i + |r[0]|..])
  {
    var i := IndexOf(t, '{', 0);
    var j := FileService.LastIndexOf(t, '}');
    if i < |t| && j >= i + 2 then
      BraceSpan(t, i, j);
      [t[i..j + 1]]
    else []
  }

  lemma BraceSpan(t: string, i: nat, j: nat)
    requires i + 2 <= j < |t| && t[i] == '{' && t[j] == '}'
    requires forall k :: 0 <= k < i ==> t[k] != '{'
    requires forall k :: j < k < |t| ==> t[k] != '}'
    ensures |t[i..j + 1]| >= 3 && t[i..j + 1][0] == '{' && t[i..j + 1][j - i] == '}'
    ensures '{' !in t[..i] && '}' !in t[j + 1..]
  {
    assert t[i..j + 1][0] == t[i];
    assert t[i..j + 1][j - i] == t[j];
  }

  /** The strings `_extract_json` hands to the decoder, in order. */
  function JsonCandidates(text: string): seq<string> {
    Blocks(text, JsonTag, 0) + BraceMatches(text)
  }

  /** The value of the first candidate that decodes; `None` when none does. */
  function FirstDecoded(candidates: seq<string>, decode: string -> Option<JsonValue>): (r: Option<JsonValue>)
    ensures r.Some? ==> exists k :: (0 <= k < |candidates| && decode(candidates[k]) == r &&
      forall j :: 0 <= j < k ==> decode(candidates[j]).None?)
    ensures r.None? <==> forall k :: 0 <= k < |candidates| ==> decode(candidates[k]).None?
  {
    if candidates == [] then None
    else if decode(candidates[0]).Some? then decode(candidates[0])
    else
      var r := FirstDecoded(candidates[1..], decode);
      FirstDecodedShift(candidates, decode, r);
      r
  }

  lemma FirstDecodedShift(candidates: seq<string>, decode: string -> Option<JsonValue>, r: Option<JsonValue>)
    requires candidates != [] && decode(candidates[0]).None?
    requires r.Some? ==> exists k :: (0 <= k < |candidates[1..]| && decode(candidates[1..][k]) == r &&
      forall j :: 0 <= j < k ==> decode(candidates[1..][j]).None?)
    ensures r.Some? ==> exists k :: (0 <= k < |candidates| && decode(candidates[k]) == r &&
      forall j :: 0 <= j < k ==> decode(candidates[j]).None?)
  {
    if r.Some? {
      var k :| 0 <= k < |candidates[1..]| && decode(candidates[1..][k]) == r &&
        forall j :: 0 <= j < k ==> decode(candidates[1..][j]).None?;
      assert decode(candidates[k + 1]) == r;
      assert forall j :: 0 <= j < k + 1 ==> decode(candidates[j]).None? by {
        forall j | 0 <= j < k + 1 ensures decode(candidates[j]).None? {
          if j > 0 { assert candidates[j] == candidates[1..][j - 1]; }
        }
      }
    }
  }

  /** A reply with no fence that is one brace-delimited span is decoded whole. */
  lemma JsonCandidatesOfObject(inner: string)
    requires |inner| >= 1 && !Contains(inner, Fence)
    ensures JsonCandidates("{" + inner + "}") == ["{" + inner + "}"]
  {
    var t := "{" + inner + "}";
    NoFenceNoBlocks(t, 0);
    assert t[0] == '{';
    assert IndexOf(t, '{', 0) == 0;
    assert t[|t| - 1] == '}';
    assert FileService.LastIndexOf(t, '}') == |t| - 1;
    assert t[0..|t|] == t;
  }

  lemma {:induction false} NoFenceNoBlocks(t: string, i: nat)
    requires i <= |t|
    requires |t| >= 2 && t[0] == '{' && t[|t| - 1] == '}'
    requires !Contains(t[1..|t| - 1], Fence)
    ensures Blocks(t, JsonTag, i) == []
    decreases |t| - i
  {
    if i < |t| {
      NoFenceAt(t, i);
      NoFenceNoBlocks(t, i + 1);
    }
  }

  /** In a text braced at both ends, a fence can only occur strictly inside the braces. */
  lemma {:induction false} NoFenceAt(t: string, i: nat)
    requires i < |t| && |t| >= 2 && t[0] == '{' && t[|t| - 1] == '}'
    requires !Contains(t[1..|t| - 1], Fence)
    ensures !OccursAt(t, Fence, i)
  {
    if OccursAt(t, Fence, i) {
      assert |Fence| == 3 && t[i..i + 3] == Fence;
      assert t[i] == '`' && t[i + 1] == '`' && t[i + 2] == '`';
      assert 1 <= i && i + 3 <= |t| - 1;
      var inner := t[1..|t| - 1];
      assert inner[i - 1] == '`' && inner[i] == '`' && inner[i + 1] == '`';
      assert inner[i - 1..i + 2] == Fence;
      assert OccursAt(inner, Fence, i - 1);
    }
  }

  /**
   * `_extract_json`: the fenced untagged or `json` blocks in order, then the
   * span from the first "{" to the last "}"; the first that decodes wins.
   */
  method ExtractJson(text: string, decode: string -> Option<JsonValue>) returns (r: Option<JsonValue>)
    ensures r == FirstDecoded(JsonCandidates(text), decode)
  {
    var matches := Blocks(text, JsonTag, 0);
    var i := 0;
    while i < |matches|
      invariant 0 <= i <= |matches|
      invariant forall k :: 0 <= k < i ==> decode(matches[k]).None?
    {
      var parsed := decode(matches[i]);
      if parsed.Some? {
        FirstDecodedAt(JsonCandidates(text), decode, i);
        return parsed;
      }
      i := i + 1;
    }
    var braces := BraceMatches(text);
    var j := 0;
    while j < |braces|
      invariant 0 <= j <= |braces|
      invariant forall k :: 0 <= k < j ==> decode(braces[k]).None?
    {
      var parsed := decode(braces[j]);
      if parsed.Some? {
        FirstDecodedAt(JsonCandidates(text), decode, |matches| + j);
        return parsed;
      }
      j := j + 1;
    }
    return None;
  }

  lemma {:induction false} FirstDecodedAt(candidates: seq<string>, decode: string -> Option<JsonValue>, k: nat)
    requires k < |candidates| && decode(candidates[k]).Some?
    requires forall j :: 0 <= j < k ==> decode(candidates[j]).None?
    ensures FirstDecoded(candidates, decode) == decode(candidates[k])
  {
    if k > 0 {
      FirstDecodedAt(candidates[1..], decode, k - 1);
    }
  }

  // ---------------------------------------------------------------------
  // Backoff

  function Pow2(n: nat): (r: nat)
    ensures r >= 1
  {
    if n == 0 then 1 else 2 * Pow2(n - 1)
  }

  /** The waits before retries 1..n: `retry_delay * 2 ** (k - 1)`. */
  function Backoffs(delay: int, n: nat): (r: seq<int>)
    ensures |r| == n
  {
    if n == 0 then [] else Backoffs(delay, n - 1) + [delay * Pow2(n - 1)]
  }

  /** The wait before retry `k + 1` is `retry_delay * 2 ** k`. */
  lemma {:induction false} BackoffAt(delay: int, n: nat, k: nat)
    requires k < n
    ensures Backoffs(delay, n)[k] == delay * Pow2(k)
  {
    if k < n - 1 {
      BackoffAt(delay, n - 1, k);
    }
  }

  function Sum(xs: seq<int>): int {
    if xs == [] then 0 else Sum(xs[..|xs| - 1]) + xs[|xs| - 1]
  }

  lemma Doubling(d: int, p: int)
    ensures d * (p - 1) + d * p == d * (2 * p - 1)
  {
  }

  /** The total time spent waiting before the n-th retry is `retry_delay * (2 ** n - 1)`. */
  lemma {:induction false} TotalBackoff(delay: int, n: nat)
    ensures Sum(Backoffs(delay, n)) == delay * (Pow2(n) - 1)
  {
    if n > 0 {
      TotalBackoff(delay, n - 1);
      var b := Backoffs(delay, n);
      var p := Pow2(n - 1);
      assert b == Backoffs(delay, n - 1) + [delay * p];
      assert b[..n - 1] == Backoffs(delay, n - 1);
      assert Sum(b) == Sum(Backoffs(delay, n - 1)) + delay * p;
      assert Pow2(n) == 2 * p;
      Doubling(delay, p);
    }
  }

  // ---------------------------------------------------------------------
  // The service

  /** What one attempt of a request came back with. */
  datatype Attempt =
    | Reply(text: string, totalTokens: Option<int>)
    | Failed(error: string)

  /** A chat message. */
  datatype Message = Message(role: string, content: string)

  /** The first successful attempt among the first `n`. */
  function FirstReply(transport: nat -> Attempt, n: nat): (r: Option<nat>)
    ensures r.Some? ==> r.value < n && transport(r.value).Reply? && forall j :: 0 <= j < r.value ==> transport(j).Failed?
    ensures r.None? ==> forall j :: 0 <= j < n ==> transport(j).Failed?
  {
    if n == 0 then None
    else
      var r := FirstReply(transport, n - 1);
      if r.Some? then r
      else if transport(n - 1).Reply? then Some(n - 1)
      else None
  }

  lemma {:induction false} FirstReplyIs(transport: nat -> Attempt, n: nat, k: nat)
    requires k < n && transport(k).Reply?
    requires forall j :: 0 <= j < k ==> transport(j).Failed?
    ensures FirstReply(transport, n) == Some(k)
  {
    if n > k + 1 {
      FirstReplyIs(transport, n - 1, k);
    }
  }

  /** The tokens a reply reports: `total_tokens`, or 0 when absent or null. */
  function TokensOf(a: Attempt): int
    requires a.Reply?
  {
    a.totalTokens.GetOr(0)
  }

  function RetryError(api: string, maxRetries: nat, error: string): string {
    "Error calling " + api + " after " + IntToString(maxRetries) + " retries: " + error
  }

  const MaxHistory := 20

  class EnhancedLlmService {
    var totalTokens: int
    var totalRequests: nat
    /** How many request times have been recorded (the times themselves are not modelled). */
    var timedRequests: nat
    var errors: seq<string>
    var conversationHistory: seq<Message>
    const maxRetries: nat
    const retryDelay: int
    const allowPartialJson: bool

    ghost predicate Valid()
      reads this
    {
      |conversationHistory| <= MaxHistory
    }

    constructor (maxRetries: nat, retryDelay: int, allowPartialJson: bool)
      ensures Valid()
      ensures totalTokens == 0 && totalRequests == 0 && timedRequests == 0
      ensures errors == [] && conversationHistory == []
      ensures this.maxRetries == maxRetries && this.retryDelay == retryDelay
      ensures this.allowPartialJson == allowPartialJson
    {
      totalTokens := 0;
      totalRequests := 0;
      timedRequests := 0;
      errors := [];
      conversationHistory := [];
      this.maxRetries := maxRetries;
      this.retryDelay := retryDelay;
      this.allowPartialJson := allowPartialJson;
    }

    /**
     * The retry loop shared by `_call_llm` and `_call_llm_chat`: at most
     * `maxRetries + 1` attempts, the waits between them doubling. The first
     * reply is returned and its tokens counted; when every attempt fails, the
     * last error is returned with 0 tokens and exactly one error is recorded.
     */
    method CallWithRetries(transport: nat -> Attempt, api: string) returns (text: string, tokens: int, waits: seq<int>)
      modifies this
      ensures totalRequests == old(totalRequests) + 1
      ensures conversationHistory == old(conversationHistory)
      ensures FirstReply(transport, maxRetries + 1).Some? ==>
        var k := FirstReply(transport, maxRetries + 1).value;
        && text == transport(k).text
        && tokens == TokensOf(transport(k))
        && totalTokens == old(totalTokens) + tokens
        && timedRequests == old(timedRequests) + 1
        && errors == old(errors)
        && waits == Backoffs(retryDelay, k)
      ensures FirstReply(transport, maxRetries + 1).None? ==>
        && text == "Error: " + transport(maxRetries).error
        && tokens == 0
        && totalTokens == old(totalTokens)
        && timedRequests == old(timedRequests)
        && errors == old(errors) + [RetryError(api, maxRetries, transport(maxRetries).error)]
        && waits == Backoffs(retryDelay, maxRetries)
    {
      totalRequests := totalRequests + 1;
      waits := [];
      var retries: nat := 0;
      while retries <= maxRetries
        invariant retries <= maxRetries
        invariant forall j :: 0 <= j < retries ==> transport(j).Failed?
        invariant waits == Backoffs(retryDelay, retries)
        invariant totalRequests == old(totalRequests) + 1
        invariant totalTokens == old(totalTokens) && timedRequests == old(timedRequests)
        invariant errors == old(errors) && conversationHistory == old(conversationHistory)
        decreases maxRetries - retries
      {
        match transport(retries)
        case Reply(response, _) =>
          FirstReplyIs(transport, maxRetries + 1, retries);
          text := response;
          tokens := TokensOf(transport(retries));
          totalTokens := totalTokens + tokens;
          timedRequests := timedRequests + 1;
          return;
        case Failed(e) =>
          retries := retries + 1;
          if retries > maxRetries {
            errors := errors + [RetryError(api, maxRetries, e)];
            text := "Error: " + e;
            tokens := 0;
            return;
          }
          waits := waits + [retryDelay * Pow2(retries - 1)];
      }
      assert false;
    }

    /** `_call_llm`: the `generate` endpoint with retries. */
    method CallLlm(transport: nat -> Attempt) returns (text: string, tokens: int, waits: seq<int>)
      modifies this
      ensures totalRequests == old(totalRequests) + 1
      ensures conversationHistory == old(conversationHistory)
      ensures FirstReply(transport, maxRetries + 1).Some? ==>
        var k := FirstReply(transport, maxRetries + 1).value;
        && text == transport(k).text
        && tokens == TokensOf(transport(k))
        && totalTokens == old(totalTokens) + tokens
        && errors == old(errors)
        && |waits| == k
      ensures FirstReply(transport, maxRetries + 1).None? ==>
        && text == "Error: " + transport(maxRetries).error
        && tokens == 0
        && totalTokens == old(totalTokens)
        && errors == old(errors) + [RetryError("LLM API", maxRetries, transport(maxRetries).error)]
        && waits == Backoffs(retryDelay, maxRetries)
    {
      text, tokens, waits := CallWithRetries(transport, "LLM API");
    }

    /** `_call_llm_chat`: the `chat` endpoint with retries. */
    method CallLlmChat(transport: nat -> Attempt) returns (text: string, tokens: int, waits: seq<int>)
      modifies this
      ensures totalRequests == old(totalRequests) + 1
      ensures conversationHistory == old(conversationHistory)
      ensures FirstReply(transport, maxRetries + 1).Some? ==>
        var k := FirstReply(transport, maxRetries + 1).value;
        && text == transport(k).text
        && tokens == TokensOf(transport(k))
        && totalTokens == old(totalTokens) + tokens
        && errors == old(errors)
      ensures FirstReply(transport, maxRetries + 1).None? ==>
        && text == "Error: " + transport(maxRetries).error
        && tokens == 0
        && totalTokens == old(totalTokens)
        && errors == old(errors) + [RetryError("LLM chat API", maxRetries, transport(maxRetries).error)]
    {
      text, tokens, waits := CallWithRetries(transport, "LLM chat API");
    }

    /**
     * `generate_fixes`: its call to `build_fix_prompt` passes only the
     * language and the path, leaving out the code and the issues that method
     * requires, so every call raises before a request is made and the client
     * is left as it was.
     */
    method GenerateFixes(code: string, issues: JsonValue) returns (raised: bool)
      ensures raised
    {
      raised := true;
    }

    /**
     * `generate_code`: the prompt builder it calls for its system prompt,
     * `build_generation_prompt`, does not exist, so every call raises before a
     * request is made and the client is left as it was.
     */
    method GenerateCode(description: string, language: string, filePath: string) returns (raised: bool)
      ensures raised
    {
      raised := true;
    }

    /**
     * What `generate_code` would do once its system prompt is built: the
     * extracted code, or the whole reply when nothing was extracted.
     */
    method GenerateCodeWithPrompt(transport: nat -> Attempt) returns (generated: string, tokens: int)
      modifies this
      ensures var (response, t) := CallResult(transport, maxRetries);
        generated == (if CodeOf(response) == "" then response else CodeOf(response)) && tokens == t
      ensures totalRequests == old(totalRequests) + 1
      ensures conversationHistory == old(conversationHistory)
    {
      var response, waits;
      response, tokens, waits := CallLlm(transport);
      generated := ExtractCode(response);
      if generated == "" {
        generated := response;
      }
    }

    /**
     * `create_project_structure`: the prompt builder it calls,
     * `build_project_prompt`, does not exist, so every call raises before a
     * request is made and the client is left as it was.
     */
    method CreateProjectStructure(description: string, projectName: string, technologies: seq<string>)
      returns (raised: bool)
      ensures raised
    {
      raised := true;
    }

    /**
     * What `create_project_structure` would do once its system prompt is
     * built: the JSON extracted from the reply, or a minimal structure built
     * from the request when none is extracted or it is falsy.
     */
    method CreateProjectStructureWithPrompt(description: string, projectName: string, technologies: seq<string>,
                                  transport: nat -> Attempt, decode: string -> Option<JsonValue>)
      returns (structure: JsonValue, tokens: int)
      modifies this
      ensures var (response, t) := CallResult(transport, maxRetries);
        var parsed := FirstDecoded(JsonCandidates(response), decode);
        tokens == t &&
        structure == (if parsed.Some? && parsed.value.Truthy() then parsed.value
                      else MinimalStructure(description, projectName, technologies))
      ensures totalRequests == old(totalRequests) + 1
      ensures conversationHistory == old(conversationHistory)
    {
      var response, waits;
      response, tokens, waits := CallLlm(transport);
      var parsed := ExtractJson(response, decode);
      if parsed.Some? && parsed.value.Truthy() {
        structure := parsed.value;
      } else {
        structure := MinimalStructure(description, projectName, technologies);
      }
    }

    /**
     * `analyze_code`: its call to `build_analysis_prompt` passes `min_issues`,
     * which that builder does not take, and leaves out the code it requires,
     * so every call raises before a request is made and the client is left as
     * it was.
     */
    method AnalyzeCode(code: string, language: string, filePath: string) returns (raised: bool)
      ensures raised
    {
      raised := true;
    }

    /**
     * What `analyze_code` would do once its system prompt is built: the
     * re-encoded JSON of the reply when some is extracted, it is truthy and
     * partial JSON is allowed; the raw reply otherwise.
     */
    method AnalyzeCodeWithPrompt(transport: nat -> Attempt, decode: string -> Option<JsonValue>, encode: JsonValue -> string)
      returns (analysis: string, tokens: int)
      modifies this
      ensures var (response, t) := CallResult(transport, maxRetries);
        var parsed := FirstDecoded(JsonCandidates(response), decode);
        tokens == t &&
        analysis == (if parsed.Some? && parsed.value.Truthy() && allowPartialJson then encode(parsed.value) else response)
      ensures totalRequests == old(totalRequests) + 1
      ensures conversationHistory == old(conversationHistory)
    {
      var response, waits;
      response, tokens, waits := CallLlm(transport);
      var structured := ExtractJson(response, decode);
      if structured.Some? && structured.value.Truthy() && allowPartialJson {
        analysis := encode(structured.value);
      } else {
        analysis := response;
      }
    }

    /**
     * `chat_about_code`: its call to `build_chat_prompt` passes
     * `project_path` and `related_files`, which that builder does not take,
     * and leaves out the message and history it requires, so every call raises
     * before a request is made and the history is left as it was.
     */
    method ChatAboutCode(messages: seq<Message>, codeSnippets: seq<string>, rememberContext: bool)
      returns (raised: bool)
      ensures raised
    {
      raised := true;
    }

    /**
     * What `chat_about_code` would do once its system prompt is built: the
     * snippets, if any, go first as an assistant message; with
     * `rememberContext` the messages sent and the reply join the history,
     * which keeps only its last twenty entries; without it the history is
     * unchanged.
     */
    method ChatAboutCodeWithPrompt(messages: seq<Message>, codeSnippets: seq<string>, rememberContext: bool,
                         transport: nat -> Attempt)
      returns (response: string, tokens: int)
      requires Valid()
      modifies this
      ensures Valid()
      ensures (response, tokens) == CallResult(transport, maxRetries)
      ensures conversationHistory == if rememberContext
        then LastN(old(conversationHistory) + SentMessages(messages, codeSnippets) + [Message("assistant", response)], MaxHistory)
        else old(conversationHistory)
      ensures totalRequests == old(totalRequests) + 1
    {
      var formatted := SentMessages(messages, codeSnippets);
      var waits;
      response, tokens, waits := CallLlmChat(transport);
      if rememberContext {
        conversationHistory := conversationHistory + formatted + [Message("assistant", response)];
        if |conversationHistory| > MaxHistory {
          conversationHistory := conversationHistory[|conversationHistory| - MaxHistory..];
        }
      }
    }

    /** `clear_conversation_history` */
    method ClearConversationHistory()
      modifies this
      ensures Valid()
      ensures conversationHistory == []
      ensures totalTokens == old(totalTokens) && totalRequests == old(totalRequests) && errors == old(errors)
    {
      conversationHistory := [];
    }
  }

  /** What one call returns: the first reply and its tokens, or the last error with 0 tokens. */
  function CallResult(transport: nat -> Attempt, maxRetries: nat): (r: (string, int))
    ensures FirstReply(transport, maxRetries + 1).None? ==> r.1 == 0 && StartsWith(r.0, "Error: ")
  {
    match FirstReply(transport, maxRetries + 1)
    case Some(k) => (transport(k).text, TokensOf(transport(k)))
    case None =>
      var text := "Error: " + transport(maxRetries).error;
      assert text[..7] == "Error: ";
      (text, 0)
  }

  /** The messages sent to the chat endpoint: the snippet message, when there are snippets, then the caller's. */
  function SentMessages(messages: seq<Message>, codeSnippets: seq<string>): seq<Message> {
    (if codeSnippets != [] then [Message("assistant", "Relevant code snippets:\n\n" + Join(codeSnippets, "\n\n"))] else [])
    + messages
  }

  /** The structure `create_project_structure` falls back to. */
  function MinimalStructure(description: string, projectName: string, technologies: seq<string>): (r: JsonValue)
    ensures r.JObject? && r.Truthy()
    ensures r.fields.Keys == {"project_name", "description", "technologies", "files", "directories"}
  {
    var fields := map[
      "project_name" := JString(projectName),
      "description" := JString(description),
      "technologies" := JArray(seq(|technologies|, k requires 0 <= k < |technologies| => JString(technologies[k]))),
      "files" := JArray([]),
      "directories" := JArray([])];
    assert "files" in fields;
    JObject(fields)
  }
}
