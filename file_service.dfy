/**
 * The file service: the extension-to-language table, the code-file filter,
 * the modification check that decides whether a cached analysis can be reused,
 * and the syntax validation of generated fixes (a bracket matcher for
 * JavaScript and TypeScript).
 */
module FileService {
  import opened Wrappers
  import opened Text
  import opened Records

  /** The supported extensions and the language each one maps to. */
  const CodeExtensions: map<string, string> := map[
    ".py" := "python",
    ".js" := "javascript", ".jsx" := "javascript",
    ".ts" := "typescript", ".tsx" := "typescript",
    ".html" := "html", ".css" := "css",
    ".java" := "java",
    ".c" := "c", ".cpp" := "cpp", ".h" := "c", ".hpp" := "cpp",
    ".cs" := "csharp",
    ".go" := "go",
    ".rb" := "ruby",
    ".php" := "php",
    ".swift" := "swift",
    ".rs" := "rust",
    ".kt" := "kotlin",
    ".sh" := "bash", ".bash" := "bash",
    ".json" := "json", ".yaml" := "yaml", ".yml" := "yaml", ".toml" := "toml", ".xml" := "xml",
    ".md" := "markdown"
  ]

  // ---------------------------------------------------------------------
  // Extensions

  /** The last index of `c` in `s`, or -1. */
  function LastIndexOf(s: string, c: char): (k: int)
    ensures -1 <= k < |s|
    ensures k >= 0 ==> s[k] == c
    ensures forall i :: k < i < |s| ==> s[i] != c
    decreases |s|
  {
    if s == [] then -1 else if s[|s| - 1] == c then |s| - 1 else LastIndexOf(s[..|s| - 1], c)
  }

  /** `s[from..to]` holds a character other than a dot. */
  predicate HasNonDot(s: string, from: int, to: int)
    requires 0 <= from && to <= |s|
  {
    exists k :: from <= k < to && s[k] != '.'
  }

  /**
   * The extension part of `os.path.splitext(p)`: from the last dot of the last
   * path component, provided the component has a non-dot character before it
   * (so ".bashrc" has no extension); otherwise "".
   */
  function Extension(p: string): (ext: string)
    ensures ext == [] || (ext[0] == '.' && '/' !in ext && '.' !in ext[1..])
  {
    var sep := LastIndexOf(p, '/');
    var dot := LastIndexOf(p, '.');
    if dot > sep && HasNonDot(p, sep + 1, dot) then
      p[dot..]
    else ""
  }

  /** `config.CODE_EXTENSIONS.get(ext.lower())` for the extension of `p`. */
  function LanguageOf(p: string): Option<string> {
    var ext := Lower(Extension(p));
    if ext in CodeExtensions then Some(CodeExtensions[ext]) else None
  }

  /** A file named `stem.e` in any directory has extension `.e`. */
  lemma {:induction false} ExtensionOfFileName(dir: string, stem: string, e: string)
    requires dir == [] || dir[|dir| - 1] == '/'
    requires stem != [] && '/' !in stem && '.' !in stem
    requires '/' !in e && '.' !in e
    ensures Extension(dir + stem + "." + e) == "." + e
  {
    var p := dir + stem + "." + e;
    var d := |dir| + |stem|;
    assert p[d] == '.';
    var sep := LastIndexOf(p, '/');
    var dot := LastIndexOf(p, '.');
    assert forall i :: d < i < |p| ==> p[i] == e[i - d - 1];
    assert forall i :: |dir| <= i < d ==> p[i] == stem[i - |dir|];
    assert dot == d;
    assert sep < |dir|;
    if dir != [] {
      assert p[|dir| - 1] == '/';
    }
    assert p[|dir|] == stem[0];
    assert HasNonDot(p, sep + 1, dot);
    assert p[dot..] == "." + e;
  }

  /** The lookup ignores the case of the extension: `stem.E` has the language of `stem.e`. */
  lemma {:induction false} LanguageIgnoresCase(dir: string, stem: string, e: string)
    requires dir == [] || dir[|dir| - 1] == '/'
    requires stem != [] && '/' !in stem && '.' !in stem
    requires '/' !in e && '.' !in e
    ensures LanguageOf(dir + stem + "." + e) == LanguageOf(dir + stem + "." + Lower(e))
  {
    LoweredExtension(dir, stem, e);
  }

  /** The lower-cased extensions of `stem.E` and `stem.e` agree. */
  lemma {:induction false} LoweredExtension(dir: string, stem: string, e: string)
    requires dir == [] || dir[|dir| - 1] == '/'
    requires stem != [] && '/' !in stem && '.' !in stem
    requires '/' !in e && '.' !in e
    ensures Lower(Extension(dir + stem + "." + e)) == Lower(Extension(dir + stem + "." + Lower(e)))
  {
    var l := Lower(e);
    forall k | 0 <= k < |l|
      ensures l[k] != '/' && l[k] != '.'
    {
      assert e[k] != '/' && e[k] != '.';
    }
    assert '/' !in l && '.' !in l;
    ExtensionOfFileName(dir, stem, e);
    ExtensionOfFileName(dir, stem, l);
    LowerDotIdempotent(e);
  }

  /** Lower-casing once more changes nothing. */
  lemma {:induction false} LowerDotIdempotent(e: string)
    ensures Lower("." + e) == Lower("." + Lower(e))
  {
  }

  // ---------------------------------------------------------------------
  // Code files and their content

  /** `Path(root) / name` */
  function PathJoin(root: string, name: string): string {
    if root == [] then name else if root[|root| - 1] == '/' then root + name else root + "/" + name
  }

  /** One directory visited by `os.walk`: its path and the names of its files. */
  datatype WalkEntry = WalkEntry(root: string, files: seq<string>)

  /** `get_code_files` keeps a file when its path is not excluded and its lower-cased extension is in the table. */
  predicate Keep(root: string, name: string, excluded: string -> bool) {
    !excluded(PathJoin(root, name)) && Lower(Extension(name)) in CodeExtensions
  }

  /** The paths kept from the first `n` files of a walked directory (none when the directory is excluded). */
  function KeptFiles(e: WalkEntry, n: nat, excluded: string -> bool): seq<string>
    requires n <= |e.files|
  {
    if excluded(e.root) || n == 0 then []
    else KeptFiles(e, n - 1, excluded) + (if Keep(e.root, e.files[n - 1], excluded) then [PathJoin(e.root, e.files[n - 1])] else [])
  }

  /** The paths kept from the walked directories, in walk order. */
  function CodeFiles(walk: seq<WalkEntry>, excluded: string -> bool): seq<string>
  {
    if walk == [] then []
    else CodeFiles(walk[..|walk| - 1], excluded) + KeptFiles(walk[|walk| - 1], |walk[|walk| - 1].files|, excluded)
  }

  /** `get_code_files` over the directories `os.walk` visits; the glob matcher behind the exclusion is a parameter. */
  method GetCodeFiles(walk: seq<WalkEntry>, excluded: string -> bool) returns (files: seq<string>)
    ensures files == CodeFiles(walk, excluded)
  {
    files := [];
    var d := 0;
    while d < |walk|
      invariant 0 <= d <= |walk|
      invariant files == CodeFiles(walk[..d], excluded)
    {
      var entry := walk[d];
      assert walk[..d + 1][..d] == walk[..d] && walk[..d + 1][d] == entry;
      ghost var done := CodeFiles(walk[..d], excluded);
      assert CodeFiles(walk[..d + 1], excluded) == done + KeptFiles(entry, |entry.files|, excluded);
      if !excluded(entry.root) {
        var kept := KeepFiles(entry, excluded);
        files := files + kept;
      }
      d := d + 1;
    }
    assert walk[..|walk|] == walk;
  }

  /** The inner loop of `get_code_files` over the files of one directory that is not excluded. */
  method KeepFiles(entry: WalkEntry, excluded: string -> bool) returns (kept: seq<string>)
    requires !excluded(entry.root)
    ensures kept == KeptFiles(entry, |entry.files|, excluded)
  {
    kept := [];
    var f := 0;
    while f < |entry.files|
      invariant 0 <= f <= |entry.files|
      invariant kept == KeptFiles(entry, f, excluded)
    {
      var name := entry.files[f];
      var p := PathJoin(entry.root, name);
      if !excluded(p) && Lower(Extension(name)) in CodeExtensions {
        kept := kept + [p];
      }
      assert KeptFiles(entry, f + 1, excluded) == KeptFiles(entry, f, excluded) + (if Keep(entry.root, name, excluded) then [p] else []);
      f := f + 1;
    }
  }

  /** Every path `get_code_files` returns is not excluded and has a language. */
  lemma {:induction false} CodeFilesSupported(walk: seq<WalkEntry>, excluded: string -> bool)
    requires forall d, k :: 0 <= d < |walk| && 0 <= k < |walk[d].files| ==> '/' !in walk[d].files[k]
    ensures forall p :: p in CodeFiles(walk, excluded) ==> !excluded(p) && LanguageOf(p).Some?
  {
    if walk != [] {
      var last := walk[|walk| - 1];
      CodeFilesSupported(walk[..|walk| - 1], excluded);
      KeptFilesSupported(last, |last.files|, excluded);
    }
  }

  lemma {:induction false} KeptFilesSupported(e: WalkEntry, n: nat, excluded: string -> bool)
    requires n <= |e.files|
    requires forall k :: 0 <= k < |e.files| ==> '/' !in e.files[k]
    ensures forall p :: p in KeptFiles(e, n, excluded) ==> !excluded(p) && LanguageOf(p).Some?
  {
    if !excluded(e.root) && n > 0 {
      KeptFilesSupported(e, n - 1, excluded);
      ExtensionInDirectory(e.root, e.files[n - 1]);
    }
  }

  /** A file keeps the extension of its name wherever it lives. */
  lemma {:induction false} ExtensionInDirectory(root: string, name: string)
    requires '/' !in name
    ensures Extension(PathJoin(root, name)) == Extension(name)
  {
    var pre := if root == [] then "" else if root[|root| - 1] == '/' then root else root + "/";
    var q := pre + name;
    assert PathJoin(root, name) == q;
    assert pre == [] || pre[|pre| - 1] == '/';
    LastIndexOfAppend(pre, name, '/');
    LastIndexOfAppend(pre, name, '.');
    LastIndexOfAbsent(name, '/');
    var sq := LastIndexOf(q, '/');
    assert sq == |pre| - 1;
    var dn := LastIndexOf(name, '.');
    var dq := LastIndexOf(q, '.');
    if dn >= 0 {
      assert dq == |pre| + dn;
      ExtensionShift(pre, name, dn);
      assert Extension(name) == if HasNonDot(name, 0, dn) then name[dn..] else "";
      assert Extension(q) == if HasNonDot(q, |pre|, |pre| + dn) then q[|pre| + dn..] else "";
    } else {
      assert dq < |pre|;
      if dq >= 0 {
        assert pre[|pre| - 1] == '/' && q[dq] == '.';
      }
      assert dq <= sq;
      assert Extension(name) == "";
      assert Extension(q) == "";
    }
  }

  lemma ExtensionShift(pre: string, name: string, dn: nat)
    requires dn < |name|
    ensures HasNonDot(pre + name, |pre|, |pre| + dn) <==> HasNonDot(name, 0, dn)
    ensures (pre + name)[|pre| + dn..] == name[dn..]
  {
    var q := pre + name;
    if HasNonDot(name, 0, dn) {
      var k :| 0 <= k < dn && name[k] != '.';
      assert q[|pre| + k] == name[k];
    }
    if HasNonDot(q, |pre|, |pre| + dn) {
      var k :| |pre| <= k < |pre| + dn && q[k] != '.';
      assert name[k - |pre|] == q[k];
    }
  }

  lemma LastIndexOfAbsent(s: string, c: char)
    requires c !in s
    ensures LastIndexOf(s, c) == -1
  {
  }

  lemma LastIndexOfAppend(a: string, b: string, c: char)
    ensures LastIndexOf(a + b, c) == if LastIndexOf(b, c) >= 0 then |a| + LastIndexOf(b, c) else LastIndexOf(a, c)
  {
    var s := a + b;
    var r := LastIndexOf(s, c);
    var kb := LastIndexOf(b, c);
    var ka := LastIndexOf(a, c);
    var k := if kb >= 0 then |a| + kb else ka;
    assert forall i :: k < i < |s| ==> s[i] != c by {
      forall i | k < i < |s| ensures s[i] != c {
        if i >= |a| { assert s[i] == b[i - |a|]; } else { assert s[i] == a[i]; }
      }
    }
    if k >= 0 {
      if kb >= 0 { assert s[k] == b[kb]; } else { assert s[k] == a[ka]; }
    }
  }

  /**
   * `get_file_content`: `(None, None)` for an unsupported extension or a read
   * error (`read` is the file's text, `None` when reading raises); otherwise the
   * text and the language the table gives for the lower-cased extension.
   */
  function GetFileContent(path: string, read: Option<string>): (r: (Option<string>, Option<string>))
    ensures LanguageOf(path).None? ==> r == (None, None)
    ensures read.None? ==> r == (None, None)
    ensures r.1.Some? <==> r.0.Some?
    ensures r.0.Some? ==> r.0 == read && r.1 == LanguageOf(path)
    ensures LanguageOf(path).Some? && read.Some? ==> r.0.Some?
  {
    var ext := Lower(Extension(path));
    if ext !in CodeExtensions then (None, None)
    else if read.None? then (None, None)
    else (read, Some(CodeExtensions[ext]))
  }

  // ---------------------------------------------------------------------
  // Modification check

  /**
   * `is_file_modified`: true without a (truthy) prior analysis, true when the
   * file cannot be stat-ed (`mtime` is `None`), and otherwise true iff the
   * current mtime is strictly later than the recorded one (0 when missing).
   */
  function IsFileModified(existing: Option<FileAnalysis>, mtime: Option<int>): (modified: bool)
  {
    if existing.None? || !existing.value.Truthy() then true
    else if mtime.None? then true
    else mtime.value > existing.value.lastModified.GetOr(0)
  }

  /** An analysis recorded at the file's current mtime is reused; any later mtime invalidates it. */
  lemma IsFileModifiedMonotone(a: FileAnalysis, m: int, later: int)
    requires a.lastModified == Some(m)
    ensures !IsFileModified(Some(a), Some(m))
    ensures IsFileModified(Some(a), Some(later)) <==> later > m
    ensures IsFileModified(None, Some(m)) && IsFileModified(Some(a), None)
  {
  }

  // ---------------------------------------------------------------------
  // Balanced delimiters

  predicate IsOpener(c: char) { c == '(' || c == '[' || c == '{' }

  predicate IsCloser(c: char) { c == ')' || c == ']' || c == '}' }

  predicate IsDelimiter(c: char) { IsOpener(c) || IsCloser(c) }

  /** The opener a closer must match (the `delimiters` table). */
  function OpenerOf(c: char): char
    requires IsCloser(c)
  {
    if c == ')' then '(' else if c == ']' then '[' else '{'
  }

  /** The closer that matches an opener. */
  function CloserOf(c: char): (r: char)
    requires IsOpener(c)
    ensures IsCloser(r) && OpenerOf(r) == c
  {
    if c == '(' then ')' else if c == '[' then ']' else '}'
  }

  /** One step of the matcher: push an opener, pop a matching closer, fail on a mismatch. */
  function Step(stack: seq<char>, c: char): Option<seq<char>> {
    if IsOpener(c) then Some(stack + [c])
    else if IsCloser(c) then
      if stack == [] || stack[|stack| - 1] != OpenerOf(c) then None else Some(stack[..|stack| - 1])
    else Some(stack)
  }

  /** The matcher run over `s` from `stack`: the final stack, or `None` at the first failure. */
  function Run(stack: seq<char>, s: string): Option<seq<char>>
    decreases |s|
  {
    if s == [] then Some(stack)
    else match Step(stack, s[0])
      case None => None
      case Some(st) => Run(st, s[1..])
  }

  predicate Balanced(s: string) {
    Run([], s) == Some([])
  }

  /** The delimiter characters of `s`, in order. */
  function Delimiters(s: string): (r: string)
    ensures forall k :: 0 <= k < |r| ==> IsDelimiter(r[k])
    decreases |s|
  {
    if s == [] then [] else (if IsDelimiter(s[0]) then [s[0]] else []) + Delimiters(s[1..])
  }

  /**
   * The reference notion of proper nesting: a string of delimiters is nested
   * when removing adjacent matching pairs one at a time can empty it.
   */
  ghost predicate Nested(s: string)
    decreases |s|
  {
    s == [] ||
    exists j :: 0 <= j < |s| - 1 && IsOpener(s[j]) && s[j + 1] == CloserOf(s[j]) && Nested(s[..j] + s[j + 2..])
  }

  /**
   * `_check_balanced_delimiters`: a stack of openers, `False` at the first
   * closer that finds an empty stack or a different opener on top, and at the
   * end `True` iff the stack is empty.
   */
  method CheckBalancedDelimiters(code: string) returns (balanced: bool)
    ensures balanced <==> Balanced(code)
    ensures balanced <==> Nested(Delimiters(code))
  {
    var stack: seq<char> := [];
    var i := 0;
    while i < |code|
      invariant 0 <= i <= |code|
      invariant Run([], code) == Run(stack, code[i..])
    {
      var c := code[i];
      assert code[i..] == [c] + code[i + 1..];
      if IsOpener(c) {
        stack := stack + [c];
      } else if IsCloser(c) {
        if stack == [] {
          BalancedIffNested(code);
          return false;
        }
        ghost var before := stack;
        var top := stack[|stack| - 1];
        stack := stack[..|stack| - 1];
        if top != OpenerOf(c) {
          assert Step(before, c) == None;
          BalancedIffNested(code);
          return false;
        }
      }
      i := i + 1;
    }
    BalancedIffNested(code);
    balanced := |stack| == 0;
  }

  /** The matcher run over a concatenation is the run over the second part from where the first left off. */
  lemma {:induction false} RunAppend(stack: seq<char>, a: string, b: string)
    ensures Run(stack, a + b) == match Run(stack, a) case None => None case Some(st) => Run(st, b)
    decreases |a|
  {
    if a == [] {
      assert a + b == b;
    } else {
      assert (a + b)[0] == a[0] && (a + b)[1..] == a[1..] + b;
      match Step(stack, a[0])
      case None =>
      case Some(st) => RunAppend(st, a[1..], b);
    }
  }

  /** Characters other than delimiters leave the matcher's stack alone. */
  lemma {:induction false} RunIgnoresOthers(stack: seq<char>, s: string)
    ensures Run(stack, s) == Run(stack, Delimiters(s))
    decreases |s|
  {
    if s != [] {
      var rest := Delimiters(s[1..]);
      if IsDelimiter(s[0]) {
        assert Delimiters(s) == [s[0]] + rest;
        assert Delimiters(s)[0] == s[0] && Delimiters(s)[1..] == rest;
        match Step(stack, s[0])
        case None =>
        case Some(st) => RunIgnoresOthers(st, s[1..]);
      } else {
        assert Delimiters(s) == rest;
        RunIgnoresOthers(stack, s[1..]);
      }
    }
  }

  /** A run of openers is pushed as it is. */
  lemma {:induction false} RunOpeners(stack: seq<char>, a: string)
    requires forall k :: 0 <= k < |a| ==> IsOpener(a[k])
    ensures Run(stack, a) == Some(stack + a)
    decreases |a|
  {
    if a == [] {
      assert stack + a == stack;
    } else {
      RunOpeners(stack + [a[0]], a[1..]);
      assert stack + [a[0]] + a[1..] == stack + a;
    }
  }

  /** The first closer of `s` at or after `i`, or `|s|`. */
  function FirstCloser(s: string, i: nat): (j: nat)
    requires i <= |s|
    ensures i <= j <= |s|
    ensures j < |s| ==> IsCloser(s[j])
    ensures forall k :: i <= k < j ==> !IsCloser(s[k])
    decreases |s| - i
  {
    if i == |s| || IsCloser(s[i]) then i else FirstCloser(s, i + 1)
  }

  /** The stack matcher accepts a string of delimiters exactly when it is nested. */
  lemma {:induction false} BalancedDelimitersNested(s: string)
    requires forall k :: 0 <= k < |s| ==> IsDelimiter(s[k])
    ensures Balanced(s) <==> Nested(s)
    decreases |s|
  {
    if Balanced(s) {
      BalancedIsNested(s);
    }
    if Nested(s) {
      NestedIsBalanced(s);
    }
  }

  lemma {:induction false} BalancedIsNested(s: string)
    requires forall k :: 0 <= k < |s| ==> IsDelimiter(s[k])
    requires Balanced(s)
    ensures Nested(s)
    decreases |s|
  {
    if s == [] {
      return;
    }
    var j := FirstCloser(s, 0);
    assert s == s[..j] + s[j..];
    RunOpeners([], s[..j]);
    assert [] + s[..j] == s[..j];
    RunAppend([], s[..j], s[j..]);
    assert s[j..] == [s[j]] + s[j + 1..];
    RunAppend(s[..j], [s[j]], s[j + 1..]);
    assert Run(s[..j], [s[j]]) == Step(s[..j], s[j]);
    assert j > 0 && s[j - 1] == OpenerOf(s[j]);
    var rest := s[..j - 1] + s[j + 1..];
    RunOpeners([], s[..j - 1]);
    assert [] + s[..j - 1] == s[..j - 1];
    RunAppend([], s[..j - 1], s[j + 1..]);
    assert s[..j][..|s[..j]| - 1] == s[..j - 1];
    assert Balanced(rest);
    forall k | 0 <= k < |rest| ensures IsDelimiter(rest[k]) {
      if k < j - 1 { assert rest[k] == s[k]; } else { assert rest[k] == s[k + 2]; }
    }
    BalancedIsNested(rest);
    assert s[j] == CloserOf(s[j - 1]);
    assert s[..j - 1] + s[j - 1 + 2..] == rest;
  }

  lemma {:induction false} NestedIsBalanced(s: string)
    requires Nested(s)
    ensures Balanced(s)
    decreases |s|
  {
    if s == [] {
      return;
    }
    var j :| 0 <= j < |s| - 1 && IsOpener(s[j]) && s[j + 1] == CloserOf(s[j]) && Nested(s[..j] + s[j + 2..]);
    var o, a, b := s[j], s[..j], s[j + 2..];
    NestedIsBalanced(a + b);
    RemovePair(a, o, b);
    SplitAtPair(s, j);
  }

  /** A string is what precedes position `j`, the two characters there, and the rest. */
  lemma SplitAtPair(s: string, j: nat)
    requires j < |s| - 1
    ensures s == s[..j] + ([s[j], s[j + 1]] + s[j + 2..])
  {
    assert s == s[..j] + [s[j], s[j + 1]] + s[j + 2..];
  }

  /** Removing an adjacent matching pair does not change the outcome of the matcher. */
  lemma RemovePair(a: string, o: char, b: string)
    requires IsOpener(o)
    ensures Run([], a + ([o, CloserOf(o)] + b)) == Run([], a + b)
  {
    RunAppend([], a, b);
    RunAppend([], a, [o, CloserOf(o)] + b);
    if Run([], a).Some? {
      RunPair(Run([], a).value, o, b);
    }
  }

  /** A matching pair leaves the stack as it found it. */
  lemma RunPair(stack: seq<char>, o: char, b: string)
    requires IsOpener(o)
    ensures Run(stack, [o, CloserOf(o)] + b) == Run(stack, b)
  {
    var s := [o, CloserOf(o)] + b;
    assert s[0] == o && s[1..] == [CloserOf(o)] + b;
    assert Step(stack, o) == Some(stack + [o]);
    assert ([CloserOf(o)] + b)[0] == CloserOf(o) && ([CloserOf(o)] + b)[1..] == b;
    assert (stack + [o])[..|stack|] == stack;
  }

  /**
   * `_check_balanced_delimiters` is true exactly when the delimiters of the
   * code, taken alone, are properly nested.
   */
  lemma BalancedIffNested(code: string)
    ensures Balanced(code) <==> Nested(Delimiters(code))
  {
    RunIgnoresOthers([], code);
    BalancedDelimitersNested(Delimiters(code));
  }

  /** Balanced code stays balanced when it is concatenated. */
  lemma BalancedConcat(a: string, b: string)
    requires Balanced(a) && Balanced(b)
    ensures Balanced(a + b)
  {
    RunAppend([], a, b);
  }

  // ---------------------------------------------------------------------
  // Validation

  /**
   * `validate_code`. Python code is valid when the parser accepts it
   * (`pythonParses`, standing for `ast.parse`); JavaScript and TypeScript are
   * `True` when the delimiters balance and otherwise fall through to `None`;
   * every other language is `True`.
   */
  method ValidateCode(code: string, language: string, pythonParses: bool) returns (valid: Option<bool>)
    ensures language == "python" ==> valid == Some(pythonParses)
    ensures language == "javascript" || language == "typescript" ==>
      (valid == Some(true) <==> Nested(Delimiters(code))) && (valid.None? <==> !Nested(Delimiters(code)))
    ensures language != "python" && language != "javascript" && language != "typescript" ==> valid == Some(true)
    ensures valid != Some(true) ==> language == "python" || language == "javascript" || language == "typescript"
  {
    if language == "python" {
      valid := Some(pythonParses);
    } else if language == "javascript" || language == "typescript" {
      var balanced := CheckBalancedDelimiters(code);
      if balanced {
        valid := Some(true);
      } else {
        valid := None;
      }
    } else {
      valid := Some(true);
    }
  }
}
