/**
 * The plain Ollama client: one `generate` request per call, token accounting
 * on success, a sentinel reply on failure, and extraction of the first fenced
 * code block of a reply (`` ```(?:language)?\s*([\s\S]*?)\s*``` ``).
 */
module LlmService {
  import opened Wrappers
  import opened Text
  import opened Json

  const Fence := "```"

  // ---------------------------------------------------------------------
  // `_extract_code_block`

  /**
   * The end of the lazy body `([\s\S]*?)` that starts at or before `e`: the
   * first position from `e` on at which optional whitespace and a fence follow.
   */
  function BodyEnd(t: string, e: nat): (r: Option<nat>)
    requires e <= |t|
    ensures r.Some? ==> e <= r.value <= |t| && CloseAt(t, r.value)
    ensures r.Some? ==> forall k :: e <= k < r.value ==> !CloseAt(t, k)
    ensures r.None? ==> forall k :: e <= k <= |t| ==> !CloseAt(t, k)
    decreases |t| - e
  {
    if CloseAt(t, e) then Some(e)
    else if e == |t| then None
    else BodyEnd(t, e + 1)
  }

  /** The body ends at the first position where the closing fence matches. */
  lemma BodyEndFirst(t: string, b: nat, e: nat)
    requires b <= e <= |t| && CloseAt(t, e)
    requires forall k :: b <= k < e ==> !CloseAt(t, k)
    ensures BodyEnd(t, b) == Some(e)
  {
  }

  /** `\s*```` matches at `e`. */
  predicate CloseAt(t: string, e: nat)
    requires e <= |t|
  {
    OccursAt(t, Fence, SkipSpace(t, e))
  }

  /** The whitespace skipped before a position is skipped from the position itself. */
  lemma SkipSpaceStep(t: string, k: nat)
    requires k < |t|
    ensures IsSpace(t[k]) ==> SkipSpace(t, k) == SkipSpace(t, k + 1)
  {
  }

  /**
   * The body of a block whose `\s*` ends at `b`: it neither starts nor ends
   * with whitespace and holds no fence.
   */
  function BodyFrom(t: string, b: nat): (r: Option<string>)
    requires b <= |t|
    requires b == |t| || !IsSpace(t[b])
    ensures r.Some? ==> r.value == [] || (!IsSpace(r.value[0]) && !IsSpace(r.value[|r.value| - 1]))
    ensures r.Some? ==> !Contains(r.value, Fence)
  {
    match BodyEnd(t, b)
    case None => None
    case Some(e) =>
      BodyClean(t, b, e);
      Some(t[b..e])
  }

  lemma BodyClean(t: string, b: nat, e: nat)
    requires b <= |t| && (b == |t| || !IsSpace(t[b]))
    requires BodyEnd(t, b) == Some(e)
    ensures t[b..e] == [] || (!IsSpace(t[b]) && !IsSpace(t[e - 1]))
    ensures !Contains(t[b..e], Fence)
  {
    BodyEndsClean(t, b, e);
    BodyHasNoFence(t, b, e);
  }

  /** The lazy body never ends in whitespace: that whitespace would have ended it earlier. */
  lemma BodyEndsClean(t: string, b: nat, e: nat)
    requires b <= |t| && (b == |t| || !IsSpace(t[b]))
    requires BodyEnd(t, b) == Some(e)
    ensures t[b..e] == [] || (!IsSpace(t[b]) && !IsSpace(t[e - 1]))
  {
    if b < e {
      SkipSpaceStep(t, e - 1);
      assert !CloseAt(t, e - 1);
    }
  }

  /** Nor does it hold a fence: the body would have ended there. */
  lemma BodyHasNoFence(t: string, b: nat, e: nat)
    requires b <= e <= |t|
    requires forall k :: b <= k < e ==> !CloseAt(t, k)
    ensures !Contains(t[b..e], Fence)
  {
    var body := t[b..e];
    forall j | 0 <= j <= |body| - |Fence|
      ensures !OccursAt(body, Fence, j)
    {
      assert |Fence| == 3;
      var piece, window := body[j..j + 3], t[b + j..b + j + 3];
      forall x | 0 <= x < 3
        ensures piece[x] == window[x]
      {
        assert body[j + x] == t[b + j + x];
      }
      assert piece == window;
      if IsSpace(t[b + j]) {
        assert piece[0] != Fence[0];
      } else {
        assert SkipSpace(t, b + j) == b + j;
        assert !CloseAt(t, b + j);
      }
    }
  }

  /** The match of the pattern at `i`, tagged with `lang` if that matches, untagged otherwise. */
  function BlockAt(t: string, lang: string, i: nat): Option<string>
    requires i <= |t|
  {
    if !OccursAt(t, Fence, i) then None
    else
      var tagged := if OccursAt(t, lang, i + 3) then BodyFrom(t, SkipSpace(t, i + 3 + |lang|)) else None;
      if tagged.Some? then tagged else BodyFrom(t, SkipSpace(t, i + 3))
  }

  /** The leftmost match from `i` on (`re.findall(...)[0]`). */
  function FirstBlock(t: string, lang: string, i: nat): (r: Option<string>)
    requires i <= |t|
    ensures r.Some? ==> r.value == [] || (!IsSpace(r.value[0]) && !IsSpace(r.value[|r.value| - 1]))
    ensures r.Some? ==> !Contains(r.value, Fence)
    decreases |t| - i
  {
    match BlockAt(t, lang, i)
    case Some(body) => Some(body)
    case None => if i == |t| then None else FirstBlock(t, lang, i + 1)
  }

  /**
   * `_extract_code_block`: the body of the first fenced block, without the
   * whitespace around it and with no fence inside; `None` when there is no block.
   */
  function ExtractCodeBlock(text: string, language: string): (r: Option<string>)
    ensures r.Some? ==> r.value == [] || (!IsSpace(r.value[0]) && !IsSpace(r.value[|r.value| - 1]))
    ensures r.Some? ==> !Contains(r.value, Fence)
  {
    FirstBlock(text, language, 0)
  }

  /** Two fences that do not overlap. */
  ghost predicate HasFencePair(t: string) {
    exists i, j :: 0 <= i && i + 3 <= j && OccursAt(t, Fence, i) && OccursAt(t, Fence, j)
  }

  lemma BlockAtFencePair(t: string, lang: string, i: nat, j: nat)
    requires i + 3 <= j && OccursAt(t, Fence, i) && OccursAt(t, Fence, j)
    ensures BlockAt(t, lang, i).Some?
  {
    var b := SkipSpace(t, i + 3);
    assert t[j] == '`';
    assert b <= j;
    assert SkipSpace(t, j) == j;
    assert CloseAt(t, j);
    assert BodyEnd(t, b).Some?;
  }

  lemma {:induction false} FirstBlockFound(t: string, lang: string, i: nat, k: nat)
    requires k <= i <= |t| && BlockAt(t, lang, i).Some?
    ensures FirstBlock(t, lang, k).Some?
    decreases i - k
  {
    if k < i && BlockAt(t, lang, k).None? {
      FirstBlockFound(t, lang, i, k + 1);
    }
  }

  lemma {:induction false} FirstBlockFencePair(t: string, lang: string, i: nat)
    requires i <= |t| && FirstBlock(t, lang, i).Some?
    ensures HasFencePair(t)
    decreases |t| - i
  {
    match BlockAt(t, lang, i)
    case Some(body) =>
      var b := if OccursAt(t, lang, i + 3) && BodyFrom(t, SkipSpace(t, i + 3 + |lang|)).Some?
        then SkipSpace(t, i + 3 + |lang|) else SkipSpace(t, i + 3);
      var e := BodyEnd(t, b).value;
      assert OccursAt(t, Fence, i) && OccursAt(t, Fence, SkipSpace(t, e));
    case None =>
      FirstBlockFencePair(t, lang, i + 1);
  }

  /** A block is found exactly when the reply holds two fences that do not overlap. */
  lemma ExtractCodeBlockFound(text: string, language: string)
    ensures ExtractCodeBlock(text, language).Some? <==> HasFencePair(text)
  {
    if HasFencePair(text) {
      var i, j :| 0 <= i && i + 3 <= j && OccursAt(text, Fence, i) && OccursAt(text, Fence, j);
      BlockAtFencePair(text, language, i, j);
      FirstBlockFound(text, language, i, 0);
    }
    if ExtractCodeBlock(text, language).Some? {
      FirstBlockFencePair(text, language, 0);
    }
  }

  /** Code with no backtick and no whitespace at its ends. */
  predicate CleanCode(code: string) {
    '`' !in code && (code == [] || (!IsSpace(code[0]) && !IsSpace(code[|code| - 1])))
  }

  /** After `pre` and a newline, a clean body followed by a newline and a fence is read back exactly. */
  lemma FramedBody(pre: string, code: string, t: string)
    requires CleanCode(code)
    requires t == pre + "\n" + code + "\n```"
    ensures BodyFrom(t, SkipSpace(t, |pre|)) == Some(code)
  {
    if code == [] {
      assert t == pre + "\n\n```";
      FramedEmptyBody(pre, t);
    } else {
      FramedCodeBody(pre, code, t);
    }
  }

  lemma FramedEmptyBody(pre: string, t: string)
    requires t == pre + "\n\n```"
    ensures BodyFrom(t, SkipSpace(t, |pre|)) == Some("")
  {
    var f := |pre| + 2;
    assert t[f..f + 3] == "```";
    assert OccursAt(t, Fence, f);
    assert t[f] == '`';
    assert SkipSpace(t, f) == f;
    assert t[|pre|] == '\n' && t[|pre| + 1] == '\n';
    assert SkipSpace(t, |pre| + 1) == f;
    assert SkipSpace(t, |pre|) == f;
    assert CloseAt(t, f);
    assert BodyEnd(t, f) == Some(f);
    assert t[f..f] == "";
  }

  lemma FramedCodeBody(pre: string, code: string, t: string)
    requires CleanCode(code) && code != []
    requires t == pre + "\n" + code + "\n```"
    ensures BodyFrom(t, SkipSpace(t, |pre|)) == Some(code)
  {
    var s := |pre| + 1;
    var close := s + |code|;
    assert t[s..close] == code;
    assert t[|pre|] == '\n' && t[s] == code[0];
    assert SkipSpace(t, s) == s;
    assert SkipSpace(t, |pre|) == s;
    assert t[close + 1..close + 4] == "```";
    assert t[close] == '\n' && t[close + 1] == '`' && OccursAt(t, Fence, close + 1);
    assert SkipSpace(t, close + 1) == close + 1;
    assert SkipSpace(t, close) == close + 1;
    assert CloseAt(t, close);
    InsideCodeNoFence(t, s, code);
    BodyEndFirst(t, s, close);
  }

  lemma InsideCodeNoFence(t: string, s: nat, code: string)
    requires CleanCode(code) && code != []
    requires s + |code| <= |t| && t[s..s + |code|] == code
    ensures forall k :: s <= k < s + |code| ==> !CloseAt(t, k)
  {
    var close := s + |code|;
    forall k | s <= k < close
      ensures !CloseAt(t, k)
    {
      assert t[close - 1] == code[|code| - 1];
      var m := SkipSpace(t, k);
      assert m < close;
      assert t[m] == code[m - s];
    }
  }

  /** A reply that is exactly one block tagged with the language gives its code back. */
  lemma ExtractTaggedBlock(lang: string, code: string)
    requires CleanCode(code)
    ensures ExtractCodeBlock("```" + lang + "\n" + code + "\n```", lang) == Some(code)
  {
    var t := "```" + lang + "\n" + code + "\n```";
    FramedBody("```" + lang, code, t);
    assert t == ("```" + lang) + "\n" + code + "\n```";
    assert OccursAt(t, Fence, 0) && OccursAt(t, lang, 3);
    assert BlockAt(t, lang, 0) == Some(code);
  }

  /** So does an untagged block, whatever language is asked for (unless it starts with a newline). */
  lemma ExtractUntaggedBlock(lang: string, code: string)
    requires CleanCode(code)
    requires lang == [] || lang[0] != '\n'
    ensures ExtractCodeBlock("```\n" + code + "\n```", lang) == Some(code)
  {
    var t := "```\n" + code + "\n```";
    FramedBody("```", code, t);
    assert t == "```" + "\n" + code + "\n```";
    assert OccursAt(t, Fence, 0);
    if lang != [] {
      assert t[3] == '\n';
      assert !OccursAt(t, lang, 3);
    }
    assert BlockAt(t, lang, 0) == Some(code);
  }

  /** `generate_fixes`: the extracted block, or the whole reply when there is none or it is empty. */
  function FixedCode(response: string, language: string): string {
    match ExtractCodeBlock(response, language)
    case Some(code) => if code == [] then response else code
    case None => response
  }

  /** A reply without a pair of fences is used whole; a reply that is one clean block gives its code. */
  lemma FixedCodeFallback(response: string, language: string, code: string)
    ensures !HasFencePair(response) ==> FixedCode(response, language) == response
    ensures CleanCode(code) && code != [] ==>
      FixedCode("```" + language + "\n" + code + "\n```", language) == code
  {
    ExtractCodeBlockFound(response, language);
    if CleanCode(code) {
      ExtractTaggedBlock(language, code);
    }
  }

  // ---------------------------------------------------------------------
  // `build_fix_prompt`

  /**
   * `build_fix_prompt` goes through: it enumerates the issues and reads each
   * one's `description` (and, through `get`, its `line_number`), so the issues
   * must be a list of dictionaries that all have a description, or an empty
   * string or dictionary. A non-empty string or dictionary yields strings,
   * which have no `get`; a number, boolean or null cannot be enumerated.
   */
  predicate FixPromptBuilds(issues: JsonValue) {
    match issues
    case JArray(items) => forall k :: 0 <= k < |items| ==> items[k].JObject? && "description" in items[k].fields
    case JString(text) => text == ""
    case JObject(fields) => fields == map[]
    case _ => false
  }

  /** Non-empty issues build a prompt exactly when they are a non-empty list of described dictionaries. */
  lemma FixPromptOfTruthy(issues: JsonValue)
    requires issues.Truthy()
    ensures FixPromptBuilds(issues) <==>
      issues.JArray? && issues.items != [] &&
      forall k :: 0 <= k < |issues.items| ==> issues.items[k].JObject? && "description" in issues.items[k].fields
  {
  }

  // ---------------------------------------------------------------------
  // `_call_ollama`

  /** What one `generate` request came back with. */
  datatype Outcome =
    | Generated(response: Option<string>, evalCount: Option<int>, promptEvalCount: Option<int>)
    | TimedOut
    | RequestFailed(message: string)

  const TimeoutReply := "Request timed out. Please try again later."

  function ErrorReply(message: string): string {
    "Error calling LLM API: " + message
  }

  /** The tokens a reply reports: `eval_count + prompt_eval_count`, each absent count 0. */
  function TokensOf(o: Outcome): int
    requires o.Generated?
  {
    o.evalCount.GetOr(0) + o.promptEvalCount.GetOr(0)
  }

  /** What `_call_ollama` hands back for an outcome: the reply text and its tokens, or a sentinel and 0. */
  function Answer(o: Outcome): (a: (string, int))
    ensures !o.Generated? ==> a.1 == 0
  {
    match o
    case Generated(response, _, _) => (response.GetOr(""), TokensOf(o))
    case TimedOut => (TimeoutReply, 0)
    case RequestFailed(message) => (ErrorReply(message), 0)
  }

  class LlmService {
    var totalTokensUsed: int
    var totalRequests: nat

    constructor ()
      ensures totalTokensUsed == 0 && totalRequests == 0
    {
      totalTokensUsed := 0;
      totalRequests := 0;
    }

    /**
     * `_call_ollama`: one attempt. A reply returns its text and token count
     * and counts once in the statistics; a timeout or request error returns a
     * sentinel text with 0 tokens and leaves the statistics as they were.
     */
    method CallOllama(outcome: Outcome) returns (text: string, tokens: int)
      modifies this
      ensures outcome.Generated? ==>
        && text == outcome.response.GetOr("")
        && tokens == TokensOf(outcome)
        && totalTokensUsed == old(totalTokensUsed) + tokens
        && totalRequests == old(totalRequests) + 1
      ensures outcome.TimedOut? ==> text == TimeoutReply && tokens == 0
      ensures outcome.RequestFailed? ==> text == ErrorReply(outcome.message) && tokens == 0
      ensures !outcome.Generated? ==> totalTokensUsed == old(totalTokensUsed) && totalRequests == old(totalRequests)
      ensures (text, tokens) == Answer(outcome)
      ensures totalTokensUsed == old(totalTokensUsed) + tokens
      ensures totalRequests == old(totalRequests) + if outcome.Generated? then 1 else 0
    {
      match outcome
      case Generated(response, _, _) =>
        text := response.GetOr("");
        tokens := TokensOf(outcome);
        totalTokensUsed := totalTokensUsed + tokens;
        totalRequests := totalRequests + 1;
      case TimedOut =>
        text, tokens := TimeoutReply, 0;
      case RequestFailed(message) =>
        text, tokens := ErrorReply(message), 0;
    }

    /**
     * `generate_fixes`: raises while building the prompt when the issues are
     * not a list of described dictionaries, before any request; otherwise the
     * first code block of the reply, or the whole reply when it has none.
     */
    method GenerateFixes(language: string, issues: JsonValue, outcome: Outcome)
      returns (fixed: string, tokens: int, raised: bool)
      modifies this
      ensures raised <==> !FixPromptBuilds(issues)
      ensures raised ==> tokens == 0 && totalRequests == old(totalRequests) && totalTokensUsed == old(totalTokensUsed)
      ensures !raised ==> fixed == FixedCode(if outcome.Generated? then outcome.response.GetOr("")
        else if outcome.TimedOut? then TimeoutReply else ErrorReply(outcome.message), language)
      ensures !raised ==> tokens == if outcome.Generated? then TokensOf(outcome) else 0
      ensures !raised ==> totalRequests == old(totalRequests) + (if outcome.Generated? then 1 else 0)
      ensures !raised ==> totalTokensUsed == old(totalTokensUsed) + tokens
    {
      if !FixPromptBuilds(issues) {
        return "", 0, true;
      }
      raised := false;
      var response;
      response, tokens := CallOllama(outcome);
      var block := ExtractCodeBlock(response, language);
      if block.None? || block.value == [] {
        fixed := response;
      } else {
        fixed := block.value;
      }
    }
  }
}
