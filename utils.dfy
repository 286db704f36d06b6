/**
  The text and environment helpers of src/lib/utils.ts: `stripBOM`, the `~` and
  `${workspaceRoot}` substitution of `resolveHomeDir`/`resolvePath`, the line parser of
  `parseEnvFile`, and the environment merge of `getToolsEnvVars`/`getTestEnvVars`.

  `path.join` and `os.homedir()` are parameters; the workspace lookups of `resolvePath`
  are replaced by the root they would find; `process.env`, the configured GOPATH, the
  `toolsEnvVars`/`testEnvVars` settings and `process.platform` are inputs.
 */
module Utils {
  import opened Wrappers
  import opened JsStrings

  const BOM: char := '\U{FEFF}'

  /** Removes one leading byte-order mark, and nothing else. */
  function StripBOM(s: string): (r: string)
    ensures |s| > 0 && s[0] == BOM ==> s == [BOM] + r
    ensures !(|s| > 0 && s[0] == BOM) ==> r == s
  {
    if |s| > 0 && s[0] == BOM then s[1..] else s
  }

  /** Only one mark is removed even when several lead the text. */
  lemma StripBOMOnce(t: string)
    ensures StripBOM([BOM] + t) == t
  {
  }

  /** Expands a leading `~` to the home directory; empty and blank paths pass through. */
  function ResolveHomeDir(inputPath: string, homedir: string, join: (string, string) -> string): (r: string)
    ensures !StartsWith(inputPath, "~") ==> r == inputPath
    ensures StartsWith(inputPath, "~") ==> r == join(homedir, inputPath[1..])
  {
    if IsBlank(inputPath) then
      assert StartsWith(inputPath, "~") ==> !IsSpace(inputPath[0]) by {
        if StartsWith(inputPath, "~") { assert inputPath[0] == inputPath[..1][0] == '~'; }
      }
      inputPath
    else if StartsWith(inputPath, "~") then join(homedir, inputPath[1..])
    else inputPath
  }

  const WorkspaceRootVar: string := "${workspaceRoot}"
  const WorkspaceFolderVar: string := "${workspaceFolder}"

  /**
    `resolvePath` once the workspace root is known (`""` when there is none): every
    `${workspaceRoot}`, then every `${workspaceFolder}`, becomes the root, then `~` is expanded.
   */
  function ResolvePath(inputPath: string, workspaceRoot: string, homedir: string, join: (string, string) -> string): (r: string)
    ensures IsBlank(inputPath) ==> r == inputPath
    ensures !IsBlank(inputPath) && workspaceRoot == "" ==> r == ResolveHomeDir(inputPath, homedir, join)
    ensures !IsBlank(inputPath) && workspaceRoot != "" ==>
      r == ResolveHomeDir(ReplaceAll(ReplaceAll(inputPath, WorkspaceRootVar, workspaceRoot), WorkspaceFolderVar, workspaceRoot),
                          homedir, join)
  {
    if IsBlank(inputPath) then inputPath
    else
      var substituted :=
        if workspaceRoot != "" then
          ReplaceAll(ReplaceAll(inputPath, WorkspaceRootVar, workspaceRoot), WorkspaceFolderVar, workspaceRoot)
        else inputPath;
      ResolveHomeDir(substituted, homedir, join)
  }

  /** A path without placeholders is only `~`-expanded, whatever the root. */
  lemma ResolvePathPlain(inputPath: string, workspaceRoot: string, homedir: string, join: (string, string) -> string)
    requires forall j :: !OccursAt(inputPath, WorkspaceRootVar, j)
    requires forall j :: !OccursAt(inputPath, WorkspaceFolderVar, j)
    ensures ResolvePath(inputPath, workspaceRoot, homedir, join) == ResolveHomeDir(inputPath, homedir, join)
  {
    ReplaceAllAbsent(inputPath, WorkspaceRootVar, workspaceRoot);
    ReplaceAllAbsent(inputPath, WorkspaceFolderVar, workspaceRoot);
  }

  /**
    With a root, the first `${workspaceRoot}` after a placeholder-free prefix becomes the root
    and the scan for further ones resumes after it; `${workspaceFolder}` is replaced next.
   */
  lemma ResolvePathRootAt(a: string, b: string, workspaceRoot: string, homedir: string, join: (string, string) -> string)
    requires workspaceRoot != ""
    requires forall j :: !OccursAt(a, WorkspaceRootVar, j)
    ensures ResolvePath(a + WorkspaceRootVar + b, workspaceRoot, homedir, join)
         == ResolveHomeDir(ReplaceAll(a + workspaceRoot + ReplaceAll(b, WorkspaceRootVar, workspaceRoot),
                                      WorkspaceFolderVar, workspaceRoot), homedir, join)
  {
    var input := a + WorkspaceRootVar + b;
    assert !IsBlank(input) by { assert input[|a|] == '$' && !IsSpace(input[|a|]); }
    PlaceholderReplaced(a, b, WorkspaceRootVar, workspaceRoot);
  }

  /** The same for either placeholder: its leftmost occurrence is replaced and the rest rescanned. */
  lemma PlaceholderReplaced(a: string, b: string, v: string, workspaceRoot: string)
    requires v == WorkspaceRootVar || v == WorkspaceFolderVar
    requires forall j :: !OccursAt(a, v, j)
    ensures ReplaceAll(a + v + b, v, workspaceRoot) == a + workspaceRoot + ReplaceAll(b, v, workspaceRoot)
  {
    assert forall k :: 0 < k < |v| ==> v[k] != v[0];
    ReplaceAllAfterFree(a, v, b, workspaceRoot);
  }

  // ---------------------------------------------------------------------------
  // parseEnvFile

  /** A `KEY = value` assignment read from one line. */
  datatype EnvEntry = EnvEntry(key: string, value: string)

  /** The characters of `[\w\.\-]`. */
  predicate IsKeyChar(c: char) {
    ('a' <= c <= 'z') || ('A' <= c <= 'Z') || ('0' <= c <= '9') || c == '_' || c == '.' || c == '-'
  }

  /** The end of the run of characters satisfying `p` that starts at `i`. */
  function SkipWhile(s: string, i: nat, p: char -> bool): (r: nat)
    requires i <= |s|
    ensures i <= r <= |s|
    ensures forall j :: i <= j < r ==> p(s[j])
    ensures r < |s| ==> !p(s[r])
    decreases |s| - i
  {
    if i == |s| || !p(s[i]) then i else SkipWhile(s, i + 1, p)
  }

  lemma SkipWhileIs(s: string, i: nat, p: char -> bool, r: nat)
    requires i <= r <= |s|
    requires forall j :: i <= j < r ==> p(s[j])
    requires r < |s| ==> !p(s[r])
    ensures SkipWhile(s, i, p) == r
    decreases r - i
  {
    if i < r {
      SkipWhileIs(s, i + 1, p, r);
    }
  }

  /** The characters `.` matches. */
  predicate NotLineTerminator(c: char) { !IsLineTerminator(c) }

  predicate IsQuote(c: char) { c == '\'' || c == '"' }

  /** `value.replace(/(^['"]|['"]$)/g, '')`: one leading and one trailing quote go. */
  function StripQuotes(v: string): (r: string)
    ensures |r| <= |v|
  {
    var a := if |v| > 0 && IsQuote(v[0]) then 1 else 0;
    var b := if |v| > a && IsQuote(v[|v| - 1]) then 1 else 0;
    v[a..|v| - b]
  }

  /** A value wrapped in quote characters (either kind, on either side) loses exactly those two. */
  lemma StripQuotesBoth(inner: string, open: char, close: char)
    requires IsQuote(open) && IsQuote(close)
    ensures StripQuotes([open] + inner + [close]) == inner
  {
    var v := [open] + inner + [close];
    assert v[1..|v| - 1] == inner;
  }

  /** Inside double quotes the two characters `\n` stand for a newline. */
  function Unescape(v: string): string {
    if |v| > 0 && v[0] == '"' && v[|v| - 1] == '"' then ReplaceAll(v, "\\n", "\n") else v
  }

  /**
    The match of `^\s*([\w\.\-]+)\s*=\s*(.*)?\s*$` on one line: blanks, a key, blanks,
    `=`, blanks, then the value up to the first line terminator, after which only
    white space may follow.
   */
  function ParseEnvLine(line: string): Option<EnvEntry> {
    ParseKey(line, SkipWhile(line, 0, IsSpace))
  }

  /** From the end `a` of the leading blanks: the key, then the blanks before `=`. */
  function ParseKey(line: string, a: nat): Option<EnvEntry>
    requires a <= |line|
  {
    var b := SkipWhile(line, a, IsKeyChar);
    if b == a then None else ParseEquals(line, a, b, SkipWhile(line, b, IsSpace))
  }

  /** With the key at `[a, b)`: an `=` must stand at `c`, and blanks may follow it. */
  function ParseEquals(line: string, a: nat, b: nat, c: nat): Option<EnvEntry>
    requires a <= b <= c <= |line|
  {
    if c == |line| || line[c] != '=' then None else ParseValue(line, a, b, SkipWhile(line, c + 1, IsSpace))
  }

  /** The value from `d` up to the first line terminator; only blanks may remain after it. */
  function ParseValue(line: string, a: nat, b: nat, d: nat): Option<EnvEntry>
    requires a <= b <= d <= |line|
  {
    var e := SkipWhile(line, d, NotLineTerminator);
    if !IsBlank(line[e..]) then None
    else Some(EnvEntry(line[a..b], StripQuotes(Unescape(line[d..e]))))
  }

  /** A plain `KEY=value` line yields exactly that key and value. */
  lemma ParsePlainAssignment(key: string, value: string)
    requires key != [] && forall i :: 0 <= i < |key| ==> IsKeyChar(key[i])
    requires value != [] && !IsSpace(value[0]) && !IsQuote(value[0]) && !IsQuote(value[|value| - 1])
    requires forall i :: 0 <= i < |value| ==> !IsLineTerminator(value[i])
    ensures ParseEnvLine(key + "=" + value) == Some(EnvEntry(key, value))
  {
    var line := key + "=" + value;
    var n := |key|;
    PlainKeySkips(key, value, line);
    assert ParseEnvLine(line) == ParseEquals(line, 0, n, n);
    PlainValueSkips(key, value, line);
    assert ParseEquals(line, 0, n, n) == ParseValue(line, 0, n, n + 1);
    assert line[|line|..] == [];
    PlainValueKept(value);
  }

  lemma PlainKeySkips(key: string, value: string, line: string)
    requires line == key + "=" + value
    requires key != [] && forall i :: 0 <= i < |key| ==> IsKeyChar(key[i])
    ensures SkipWhile(line, 0, IsSpace) == 0 && SkipWhile(line, 0, IsKeyChar) == |key|
    ensures SkipWhile(line, |key|, IsSpace) == |key| && |key| < |line| && line[|key|] == '='
    ensures line[0..|key|] == key
  {
    var n := |key|;
    assert line[0] == key[0];
    SkipWhileIs(line, 0, IsSpace, 0);
    assert forall j :: 0 <= j < n ==> line[j] == key[j];
    assert line[n] == '=';
    SkipWhileIs(line, 0, IsKeyChar, n);
    SkipWhileIs(line, n, IsSpace, n);
    assert line[0..n] == key;
  }

  lemma PlainValueSkips(key: string, value: string, line: string)
    requires line == key + "=" + value
    requires value != [] && !IsSpace(value[0])
    requires forall i :: 0 <= i < |value| ==> !IsLineTerminator(value[i])
    ensures SkipWhile(line, |key| + 1, IsSpace) == |key| + 1
    ensures SkipWhile(line, |key| + 1, NotLineTerminator) == |line|
    ensures line[|key| + 1..|line|] == value
  {
    var n := |key|;
    ConcatSuffix(key + "=", value);
    ValueStart(line, n + 1, value);
    ValueRun(line, n + 1, value);
  }

  lemma ValueStart(line: string, start: nat, value: string)
    requires start <= |line| && line[start..] == value
    requires value != [] && !IsSpace(value[0])
    ensures SkipWhile(line, start, IsSpace) == start
  {
    assert line[start] == value[0];
    SkipWhileIs(line, start, IsSpace, start);
  }

  lemma ValueRun(line: string, start: nat, value: string)
    requires start <= |line| && line[start..] == value
    requires forall i :: 0 <= i < |value| ==> !IsLineTerminator(value[i])
    ensures SkipWhile(line, start, NotLineTerminator) == |line|
    ensures line[start..|line|] == value
  {
    SuffixNotLineTerminator(line, start, value);
    SkipWhileIs(line, start, NotLineTerminator, |line|);
    assert line[start..|line|] == line[start..];
  }

  lemma ConcatSuffix<T>(a: seq<T>, b: seq<T>)
    ensures (a + b)[|a|..] == b
  {
  }

  lemma SuffixNotLineTerminator(line: string, start: nat, value: string)
    requires start <= |line| && line[start..] == value
    requires forall i :: 0 <= i < |value| ==> !IsLineTerminator(value[i])
    ensures forall j :: start <= j < |line| ==> NotLineTerminator(line[j])
  {
    forall j | start <= j < |line| ensures NotLineTerminator(line[j]) {
      assert line[j] == value[j - start];
    }
  }

  lemma PlainValueKept(value: string)
    requires value != [] && !IsQuote(value[0]) && !IsQuote(value[|value| - 1])
    ensures StripQuotes(Unescape(value)) == value
  {
    assert Unescape(value) == value;
    assert value[0..|value|] == value;
  }

  /** A line without `=` is not an assignment. */
  lemma ParseEnvLineNeedsEquals(line: string)
    requires '=' !in line
    ensures ParseEnvLine(line) == None
  {
    var a := SkipWhile(line, 0, IsSpace);
    var b := SkipWhile(line, a, IsKeyChar);
    var c := SkipWhile(line, b, IsSpace);
    assert c < |line| ==> line[c] in line;
  }

  /**
    The shape `^\s*([\w\.\-]+)\s*=\s*(.*)?\s*$` accepts, cut into its pieces: blanks, a key
    of `[\w\.\-]` characters, blanks, `=`, blanks, the captured value, then only blanks. The
    greedy quantifiers fix the cut: the value does not start with a blank, and it runs up to
    the first line terminator, so whatever follows it starts with one.
   */
  predicate EnvAssignment(line: string, lead: string, key: string, gap: string, pad: string, raw: string, tail: string) {
    && line == lead + (key + (gap + ("=" + (pad + (raw + tail)))))
    && IsBlank(lead) && IsBlank(gap) && IsBlank(pad) && IsBlank(tail)
    && key != [] && (forall i :: 0 <= i < |key| ==> IsKeyChar(key[i]))
    && (forall i :: 0 <= i < |raw| ==> !IsLineTerminator(raw[i]))
    && (raw != [] ==> !IsSpace(raw[0]))
    && (tail != [] ==> IsLineTerminator(tail[0]))
  }

  /** The line has the assignment shape, with key `key` and captured value `raw`. */
  ghost predicate IsAssignmentLine(line: string, key: string, raw: string) {
    exists lead, gap, pad, tail :: EnvAssignment(line, lead, key, gap, pad, raw, tail)
  }

  /**
    A line parses to `key` and `value` exactly when it has the assignment shape with that key
    and a captured value that unescapes and unquotes to `value`.
   */
  lemma ParseEnvLineMeaning(line: string, key: string, value: string)
    ensures ParseEnvLine(line) == Some(EnvEntry(key, value))
        <==> exists raw :: IsAssignmentLine(line, key, raw) && value == StripQuotes(Unescape(raw))
  {
    if ParseEnvLine(line) == Some(EnvEntry(key, value)) {
      var raw := ParseEnvLineSound(line);
      assert IsAssignmentLine(line, key, raw);
    }
    if exists raw :: IsAssignmentLine(line, key, raw) && value == StripQuotes(Unescape(raw)) {
      var raw :| IsAssignmentLine(line, key, raw) && value == StripQuotes(Unescape(raw));
      var lead, gap, pad, tail :| EnvAssignment(line, lead, key, gap, pad, raw, tail);
      ParseEnvLineComplete(line, lead, key, gap, pad, raw, tail);
    }
  }

  /** What the parser accepts has the assignment shape; `raw` is the value it captured. */
  lemma ParseEnvLineSound(line: string) returns (raw: string)
    requires ParseEnvLine(line).Some?
    ensures IsAssignmentLine(line, ParseEnvLine(line).value.key, raw)
    ensures ParseEnvLine(line).value.value == StripQuotes(Unescape(raw))
  {
    var a, b, c, d, e := ParsePositions(line);
    raw := line[d..e];
    ShapeFromPositions(line, a, b, c, d, e);
    assert EnvAssignment(line, line[..a], line[a..b], line[b..c], line[c + 1..d], raw, line[e..]);
  }

  /** Where the skips of an accepted line stop. */
  lemma ParsePositions(line: string) returns (a: nat, b: nat, c: nat, d: nat, e: nat)
    requires ParseEnvLine(line).Some?
    ensures a < b <= c < d <= e <= |line| && line[c] == '='
    ensures SkipWhile(line, 0, IsSpace) == a && SkipWhile(line, a, IsKeyChar) == b
    ensures SkipWhile(line, b, IsSpace) == c
    ensures SkipWhile(line, c + 1, IsSpace) == d && SkipWhile(line, d, NotLineTerminator) == e
    ensures IsBlank(line[e..])
    ensures ParseEnvLine(line) == Some(EnvEntry(line[a..b], StripQuotes(Unescape(line[d..e]))))
  {
    a := SkipWhile(line, 0, IsSpace);
    b := SkipWhile(line, a, IsKeyChar);
    c := SkipWhile(line, b, IsSpace);
    d := SkipWhile(line, c + 1, IsSpace);
    e := SkipWhile(line, d, NotLineTerminator);
    KeyAccepted(line, a);
    EqualsAccepted(line, a, b, c);
    ValueAccepted(line, a, b, d);
  }

  /** An accepted line has a non-empty key. */
  lemma KeyAccepted(line: string, a: nat)
    requires a <= |line| && ParseKey(line, a).Some?
    ensures var b := SkipWhile(line, a, IsKeyChar);
      b != a && ParseKey(line, a) == ParseEquals(line, a, b, SkipWhile(line, b, IsSpace))
  {
  }

  /** An accepted line has `=` after the key and its blanks. */
  lemma EqualsAccepted(line: string, a: nat, b: nat, c: nat)
    requires a <= b <= c <= |line| && ParseEquals(line, a, b, c).Some?
    ensures c < |line| && line[c] == '='
    ensures ParseEquals(line, a, b, c) == ParseValue(line, a, b, SkipWhile(line, c + 1, IsSpace))
  {
  }

  /** An accepted value leaves only blanks after it. */
  lemma ValueAccepted(line: string, a: nat, b: nat, d: nat)
    requires a <= b <= d <= |line| && ParseValue(line, a, b, d).Some?
    ensures IsBlank(line[SkipWhile(line, d, NotLineTerminator)..])
  {
  }

  /** The slices cut at the parse positions are the pieces of the assignment shape. */
  lemma ShapeFromPositions(line: string, a: nat, b: nat, c: nat, d: nat, e: nat)
    requires a < b <= c < d <= e <= |line| && line[c] == '='
    requires SkipWhile(line, 0, IsSpace) == a && SkipWhile(line, a, IsKeyChar) == b
    requires SkipWhile(line, b, IsSpace) == c
    requires SkipWhile(line, c + 1, IsSpace) == d && SkipWhile(line, d, NotLineTerminator) == e
    requires IsBlank(line[e..])
    ensures EnvAssignment(line, line[..a], line[a..b], line[b..c], line[c + 1..d], line[d..e], line[e..])
  {
    SlicesRebuild(line, a, b, c, d, e);
    KeyPieces(line, a, b, c);
    ValuePieces(line, c, d, e);
  }

  /** The blanks before the key, the key and the blanks before `=`, as the skips found them. */
  lemma KeyPieces(line: string, a: nat, b: nat, c: nat)
    requires a < b <= c <= |line|
    requires SkipWhile(line, 0, IsSpace) == a && SkipWhile(line, a, IsKeyChar) == b
    requires SkipWhile(line, b, IsSpace) == c
    ensures IsBlank(line[..a]) && IsBlank(line[b..c])
    ensures line[a..b] != [] && forall i :: 0 <= i < |line[a..b]| ==> IsKeyChar(line[a..b][i])
  {
    SliceHolds(line, 0, a, IsSpace);
    assert line[0..a] == line[..a];
    SliceHolds(line, a, b, IsKeyChar);
    SliceHolds(line, b, c, IsSpace);
  }

  /** The blanks after `=`, the captured value and what follows it, as the skips found them. */
  lemma ValuePieces(line: string, c: nat, d: nat, e: nat)
    requires c < d <= e <= |line|
    requires SkipWhile(line, c + 1, IsSpace) == d && SkipWhile(line, d, NotLineTerminator) == e
    ensures IsBlank(line[c + 1..d])
    ensures forall i :: 0 <= i < |line[d..e]| ==> !IsLineTerminator(line[d..e][i])
    ensures line[d..e] != [] ==> !IsSpace(line[d..e][0])
    ensures line[e..] != [] ==> IsLineTerminator(line[e..][0])
  {
    SliceHolds(line, c + 1, d, IsSpace);
    SliceHolds(line, d, e, NotLineTerminator);
    if d < e { assert line[d..e][0] == line[d]; }
    if e < |line| { assert line[e..][0] == line[e]; }
  }

  /** The line is the concatenation of its slices at the parse positions. */
  lemma SlicesRebuild(line: string, a: nat, b: nat, c: nat, d: nat, e: nat)
    requires a <= b <= c < d <= e <= |line| && line[c] == '='
    ensures line == line[..a] + (line[a..b] + (line[b..c] + ("=" + (line[c + 1..d] + (line[d..e] + line[e..])))))
  {
    SliceSplit(line, d, e);
    SliceSplit(line, c + 1, d);
    SliceSplit(line, c, c + 1);
    assert line[c..c + 1] == "=";
    SliceSplit(line, b, c);
    SliceSplit(line, a, b);
    SliceSplit(line, 0, a);
    assert line[0..] == line && line[0..a] == line[..a];
  }

  lemma SliceSplit(s: string, i: nat, j: nat)
    requires i <= j <= |s|
    ensures s[i..] == s[i..j] + s[j..]
  {
  }

  /** The characters of `s[i..j]` all satisfy `p` when the skip that produced `j` passed them. */
  lemma SliceHolds(s: string, i: nat, j: nat, p: char -> bool)
    requires i <= j <= |s|
    requires forall k :: i <= k < j ==> p(s[k])
    ensures forall k :: 0 <= k < |s[i..j]| ==> p(s[i..j][k])
  {
    forall k | 0 <= k < |s[i..j]| ensures p(s[i..j][k]) { assert s[i..j][k] == s[i + k]; }
  }

  /** Every line of the assignment shape is parsed into its key and its unquoted value. */
  lemma ParseEnvLineComplete(line: string, lead: string, key: string, gap: string, pad: string, raw: string, tail: string)
    requires EnvAssignment(line, lead, key, gap, pad, raw, tail)
    ensures ParseEnvLine(line) == Some(EnvEntry(key, StripQuotes(Unescape(raw))))
  {
    var a, b := |lead|, |lead| + |key|;
    var c := KeyPositions(line, lead, key, gap, pad + (raw + tail));
    var d, e := ValuePositions(line, c, pad, raw, tail);
    ParseFromPositions(line, a, b, c, d, e, key, raw);
  }

  /** The skips over the leading blanks, the key and the blanks before `=` stop at the piece boundaries. */
  lemma KeyPositions(line: string, lead: string, key: string, gap: string, rest: string) returns (c: nat)
    requires line == lead + (key + (gap + ("=" + rest)))
    requires IsBlank(lead) && IsBlank(gap)
    requires key != [] && forall i :: 0 <= i < |key| ==> IsKeyChar(key[i])
    ensures c == |lead| + |key| + |gap| < |line| && line[c] == '=' && line[c + 1..] == rest
    ensures SkipWhile(line, 0, IsSpace) == |lead| && SkipWhile(line, |lead|, IsKeyChar) == |lead| + |key|
    ensures SkipWhile(line, |lead| + |key|, IsSpace) == c
    ensures line[|lead|..|lead| + |key|] == key
  {
    var a := |lead|;
    assert line[0..] == line;
    SkipPiece(line, 0, lead, key + (gap + ("=" + rest)), IsSpace);
    SkipPiece(line, a, key, gap + ("=" + rest), IsKeyChar);
    c := GapPositions(line, a + |key|, gap, rest);
  }

  /** The skip over the blanks before `=` stops at the `=`. */
  lemma GapPositions(line: string, b: nat, gap: string, rest: string) returns (c: nat)
    requires b <= |line| && line[b..] == gap + ("=" + rest)
    requires IsBlank(gap)
    ensures c == b + |gap| < |line| && line[c] == '=' && line[c + 1..] == rest
    ensures SkipWhile(line, b, IsSpace) == c
  {
    SkipPiece(line, b, gap, "=" + rest, IsSpace);
    c := b + |gap|;
    assert line[c..] == "=" + rest;
    assert line[c] == line[c..][0];
    assert line[c + 1..] == line[c..][1..];
  }

  /** From just after `=`, the skips over the blanks and the value stop around the captured value. */
  lemma ValuePositions(line: string, c: nat, pad: string, raw: string, tail: string) returns (d: nat, e: nat)
    requires c < |line| && line[c + 1..] == pad + (raw + tail)
    requires IsBlank(pad) && IsBlank(tail)
    requires forall i :: 0 <= i < |raw| ==> !IsLineTerminator(raw[i])
    requires raw != [] ==> !IsSpace(raw[0])
    requires tail != [] ==> IsLineTerminator(tail[0])
    ensures c < d <= e <= |line|
    ensures SkipWhile(line, c + 1, IsSpace) == d && SkipWhile(line, d, NotLineTerminator) == e
    ensures line[d..e] == raw && IsBlank(line[e..])
  {
    if raw == [] {
      d, e := BlankValuePositions(line, c, pad, tail);
    } else {
      assert (raw + tail)[0] == raw[0];
      d, e := SomeValuePositions(line, c, pad, raw, tail);
    }
  }

  /** A captured value that is not empty starts where the blanks end and runs to the line terminator. */
  lemma SomeValuePositions(line: string, c: nat, pad: string, raw: string, tail: string) returns (d: nat, e: nat)
    requires c < |line| && line[c + 1..] == pad + (raw + tail)
    requires IsBlank(pad)
    requires forall i :: 0 <= i < |raw| ==> !IsLineTerminator(raw[i])
    requires raw != [] && !IsSpace((raw + tail)[0])
    requires tail != [] ==> IsLineTerminator(tail[0])
    ensures c < d <= e <= |line|
    ensures SkipWhile(line, c + 1, IsSpace) == d && SkipWhile(line, d, NotLineTerminator) == e
    ensures line[d..e] == raw && line[e..] == tail
  {
    d := PadPositions(line, c, pad, raw + tail);
    e := d + |raw|;
    SkipPiece(line, d, raw, tail, NotLineTerminator);
  }

  /** The skip over the blanks after `=` stops where a non-blank starts. */
  lemma PadPositions(line: string, c: nat, pad: string, rest: string) returns (d: nat)
    requires c < |line| && line[c + 1..] == pad + rest
    requires IsBlank(pad) && rest != [] && !IsSpace(rest[0])
    ensures d == c + 1 + |pad| <= |line| && SkipWhile(line, c + 1, IsSpace) == d && line[d..] == rest
  {
    SkipPiece(line, c + 1, pad, rest, IsSpace);
    d := c + 1 + |pad|;
  }

  /** With nothing but blanks after `=`, both skips run to the end of the line. */
  lemma BlankValuePositions(line: string, c: nat, pad: string, tail: string) returns (d: nat, e: nat)
    requires c < |line| && line[c + 1..] == pad + tail
    requires IsBlank(pad) && IsBlank(tail)
    ensures d == e == |line| && c < d
    ensures SkipWhile(line, c + 1, IsSpace) == d && SkipWhile(line, d, NotLineTerminator) == e
    ensures line[d..e] == [] && IsBlank(line[e..])
  {
    assert line[c + 1..] == (pad + tail) + [];
    SkipPiece(line, c + 1, pad + tail, [], IsSpace);
    d, e := |line|, |line|;
    SkipWhileIs(line, d, NotLineTerminator, e);
  }

  /** The parse, once the position where each of its skips stops is known. */
  lemma ParseFromPositions(line: string, a: nat, b: nat, c: nat, d: nat, e: nat, key: string, raw: string)
    requires a < b <= c < d <= e <= |line| && line[a..b] == key && line[d..e] == raw
    requires SkipWhile(line, 0, IsSpace) == a && SkipWhile(line, a, IsKeyChar) == b
    requires SkipWhile(line, b, IsSpace) == c && line[c] == '='
    requires SkipWhile(line, c + 1, IsSpace) == d && SkipWhile(line, d, NotLineTerminator) == e
    requires IsBlank(line[e..])
    ensures ParseEnvLine(line) == Some(EnvEntry(key, StripQuotes(Unescape(raw))))
  {
  }

  /**
    Where the text from `i` is a run `x` of `p` followed by `y`, which does not start with
    `p`, the skip from `i` stops right after `x`.
   */
  lemma SkipPiece(s: string, i: nat, x: string, y: string, p: char -> bool)
    requires i <= |s| && s[i..] == x + y
    requires forall k :: 0 <= k < |x| ==> p(x[k])
    requires y != [] ==> !p(y[0])
    ensures SkipWhile(s, i, p) == i + |x|
    ensures s[i..i + |x|] == x && s[i + |x|..] == y
  {
    forall k | i <= k < i + |x| ensures p(s[k]) { assert s[k] == s[i..][k - i] == x[k - i]; }
    if y != [] { assert s[i + |x|] == s[i..][|x|] == y[0]; }
    SkipWhileIs(s, i, p, i + |x|);
    assert s[i + |x|..] == s[i..][|x|..];
    assert s[i..i + |x|] == s[i..][..|x|];
  }

  /** Each line's parse, in line order. */
  function ParseLines(lines: seq<string>): (r: seq<Option<EnvEntry>>)
    ensures |r| == |lines|
    ensures forall i :: 0 <= i < |lines| ==> r[i] == ParseEnvLine(lines[i])
  {
    seq(|lines|, i requires 0 <= i < |lines| => ParseEnvLine(lines[i]))
  }

  /** The environment built from parsed lines in order: each assignment sets its key. */
  function EnvFrom(parsed: seq<Option<EnvEntry>>): map<string, string> {
    if parsed == [] then map[]
    else
      var env := EnvFrom(parsed[..|parsed| - 1]);
      match parsed[|parsed| - 1]
      case None => env
      case Some(entry) => env[entry.key := entry.value]
  }

  /** The parsed line assigns the key `k`. */
  predicate Assigns(parsed: Option<EnvEntry>, k: string) {
    parsed.Some? && parsed.value.key == k
  }

  /** A key is set exactly when some line assigns it; lines of any other shape add nothing. */
  lemma {:induction false} EnvKeys(parsed: seq<Option<EnvEntry>>, k: string)
    ensures k in EnvFrom(parsed) <==> exists i :: 0 <= i < |parsed| && Assigns(parsed[i], k)
  {
    if parsed != [] {
      var n := |parsed| - 1;
      var init := parsed[..n];
      EnvKeys(init, k);
      if k in EnvFrom(parsed) {
        if !Assigns(parsed[n], k) {
          var i :| 0 <= i < |init| && Assigns(init[i], k);
          assert parsed[i] == init[i];
        }
      } else {
        forall i | 0 <= i < n ensures !Assigns(parsed[i], k) {
          assert parsed[i] == init[i];
        }
      }
    }
  }

  /** The last line that assigns a key decides its value: a later line overwrites an earlier one. */
  lemma {:induction false} EnvLastAssignmentWins(parsed: seq<Option<EnvEntry>>, i: nat)
    requires i < |parsed| && parsed[i].Some?
    requires forall j :: i < j < |parsed| ==> !Assigns(parsed[j], parsed[i].value.key)
    ensures parsed[i].value.key in EnvFrom(parsed)
    ensures EnvFrom(parsed)[parsed[i].value.key] == parsed[i].value.value
  {
    if i < |parsed| - 1 {
      var init := parsed[..|parsed| - 1];
      assert init[i] == parsed[i];
      forall j | i < j < |init| ensures init[j] == parsed[j] { }
      EnvLastAssignmentWins(init, i);
    }
  }

  datatype LoadResult = Loaded(env: map<string, string>) | LoadError(message: string)

  /**
    `parseEnvFile`: no path gives an empty environment; a file that cannot be read (its
    contents `None`) gives the error; otherwise each line of the BOM-stripped text is parsed.
   */
  method ParseEnvFile(path: string, contents: Option<string>) returns (r: LoadResult)
    ensures path == "" ==> r == Loaded(map[])
    ensures path != "" && contents.None? ==> r == LoadError("Cannot load environment variables from file " + path)
    ensures path != "" && contents.Some? ==> r == Loaded(EnvFrom(ParseLines(Split(StripBOM(contents.value), '\n'))))
  {
    if path == "" {
      return Loaded(map[]);
    }
    if contents.None? {
      return LoadError("Cannot load environment variables from file " + path);
    }
    var env := AssignAll(Split(StripBOM(contents.value), '\n'));
    return Loaded(env);
  }

  /** Parses the lines in order, letting each assignment set its key. */
  method AssignAll(lines: seq<string>) returns (env: map<string, string>)
    ensures env == EnvFrom(ParseLines(lines))
  {
    ghost var parsed := ParseLines(lines);
    env := map[];
    var i := 0;
    while i < |lines|
      invariant 0 <= i <= |lines|
      invariant env == EnvFrom(parsed[..i])
    {
      var entry := ParseEnvLine(lines[i]);
      EnvFromStep(parsed, i);
      if entry.Some? {
        env := env[entry.value.key := entry.value.value];
      }
      i := i + 1;
    }
    assert parsed[..i] == parsed;
  }

  lemma EnvFromStep(parsed: seq<Option<EnvEntry>>, i: nat)
    requires i < |parsed|
    ensures EnvFrom(parsed[..i + 1])
         == if parsed[i].Some? then EnvFrom(parsed[..i])[parsed[i].value.key := parsed[i].value.value]
            else EnvFrom(parsed[..i])
  {
    assert parsed[..i + 1][..i] == parsed[..i];
  }

  // ---------------------------------------------------------------------------
  // getToolsEnvVars / getTestEnvVars

  /** `base` with each key of `overrides` set to its value passed through `resolvePath`. */
  function Overlay(base: map<string, string>, overrides: map<string, string>,
                   workspaceRoot: string, homedir: string, join: (string, string) -> string): (r: map<string, string>)
    ensures r.Keys == base.Keys + overrides.Keys
    ensures forall k :: k in overrides ==> r[k] == ResolvePath(overrides[k], workspaceRoot, homedir, join)
    ensures forall k :: k in base && k !in overrides ==> r[k] == base[k]
  {
    map k | k in base.Keys + overrides.Keys ::
      if k in overrides then ResolvePath(overrides[k], workspaceRoot, homedir, join) else base[k]
  }

  /** The `forEach` that writes each configured key into the environment, one key at a time. */
  method OverlayKeys(env: map<string, string>, overrides: map<string, string>,
                     workspaceRoot: string, homedir: string, join: (string, string) -> string)
    returns (result: map<string, string>)
    ensures result == Overlay(env, overrides, workspaceRoot, homedir, join)
  {
    result := env;
    var pending := overrides.Keys;
    while pending != {}
      invariant pending <= overrides.Keys
      invariant result.Keys == env.Keys + (overrides.Keys - pending)
      invariant forall k :: k in overrides.Keys - pending ==>
        result[k] == ResolvePath(overrides[k], workspaceRoot, homedir, join)
      invariant forall k :: k in env && k !in overrides.Keys - pending ==> result[k] == env[k]
      decreases pending
    {
      var k :| k in pending;
      result := result[k := ResolvePath(overrides[k], workspaceRoot, homedir, join)];
      pending := pending - {k};
    }
  }

  /** The environment variable that holds the search path, if any. */
  function PathVarName(env: map<string, string>, isWin32: bool): Option<string> {
    if "PATH" in env then Some("PATH")
    else if isWin32 && "Path" in env then Some("Path")
    else None
  }

  function PathDelimiter(isWin32: bool): char {
    if isWin32 then ';' else ':'
  }

  /** `<GOROOT>/bin` joins the search path when GOROOT and the path are set and GOROOT is not already an entry. */
  predicate NeedsGoBin(env: map<string, string>, isWin32: bool) {
    var pathVar := PathVarName(env, isWin32);
    && "GOROOT" in env && env["GOROOT"] != ""
    && pathVar.Some? && env[pathVar.value] != ""
    && env["GOROOT"] !in Split(env[pathVar.value], PathDelimiter(isWin32))
  }

  /** cgo expects go on the path: the final step of `getToolsEnvVars`. */
  function AddGoBin(env: map<string, string>, isWin32: bool, join: (string, string) -> string): (r: map<string, string>)
    ensures r.Keys == env.Keys
    ensures !NeedsGoBin(env, isWin32) ==> r == env
    ensures NeedsGoBin(env, isWin32) ==>
      var pathVar := PathVarName(env, isWin32).value;
      && r[pathVar] == env[pathVar] + [PathDelimiter(isWin32)] + join(env["GOROOT"], "bin")
      && forall k :: k in env && k != pathVar ==> r[k] == env[k]
  {
    if NeedsGoBin(env, isWin32) then
      var pathVar := PathVarName(env, isWin32).value;
      env[pathVar := env[pathVar] + [PathDelimiter(isWin32)] + join(env["GOROOT"], "bin")]
    else env
  }

  /** The search path keeps its entries, in order, and gains the entries of `<GOROOT>/bin` at the end. */
  lemma GoBinAppendsEntry(env: map<string, string>, isWin32: bool, join: (string, string) -> string)
    requires NeedsGoBin(env, isWin32)
    ensures var pathVar := PathVarName(env, isWin32).value;
      Split(AddGoBin(env, isWin32, join)[pathVar], PathDelimiter(isWin32))
        == Split(env[pathVar], PathDelimiter(isWin32)) + Split(join(env["GOROOT"], "bin"), PathDelimiter(isWin32))
  {
    var pathVar := PathVarName(env, isWin32).value;
    SplitAround(env[pathVar], PathDelimiter(isWin32), join(env["GOROOT"], "bin"));
  }

  /** The environment `getToolsEnvVars` builds. */
  function ToolsEnv(processEnv: map<string, string>, gopath: string, toolsEnvVars: Option<map<string, string>>,
                    isWin32: bool, workspaceRoot: string, homedir: string, join: (string, string) -> string): map<string, string>
  {
    var inherited := processEnv + (if gopath != "" then map["GOPATH" := gopath] else map[]);
    var configured := if toolsEnvVars.Some? then toolsEnvVars.value else map[];
    AddGoBin(Overlay(inherited, configured, workspaceRoot, homedir, join), isWin32, join)
  }

  /** A configured tool variable overrides the inherited one (the search path may then gain `<GOROOT>/bin`). */
  lemma ToolsEnvOverrides(processEnv: map<string, string>, gopath: string, toolsEnvVars: map<string, string>,
                          isWin32: bool, workspaceRoot: string, homedir: string, join: (string, string) -> string, k: string)
    requires k in toolsEnvVars && k != "PATH" && k != "Path"
    ensures var env := ToolsEnv(processEnv, gopath, Some(toolsEnvVars), isWin32, workspaceRoot, homedir, join);
      k in env && env[k] == ResolvePath(toolsEnvVars[k], workspaceRoot, homedir, join)
  {
  }

  /** An inherited variable nobody configured is passed through unchanged. */
  lemma ToolsEnvInherits(processEnv: map<string, string>, gopath: string, toolsEnvVars: Option<map<string, string>>,
                         isWin32: bool, workspaceRoot: string, homedir: string, join: (string, string) -> string, k: string)
    requires k in processEnv && k != "PATH" && k != "Path" && (gopath == "" || k != "GOPATH")
    requires toolsEnvVars.None? || k !in toolsEnvVars.value
    ensures var env := ToolsEnv(processEnv, gopath, toolsEnvVars, isWin32, workspaceRoot, homedir, join);
      k in env && env[k] == processEnv[k]
  {
  }

  /**
    `getToolsEnvVars`: the inherited environment, GOPATH when one is configured, the
    configured tool variables over those, and the GOROOT rule last.
   */
  method GetToolsEnvVars(processEnv: map<string, string>, gopath: string, toolsEnvVars: Option<map<string, string>>,
                         isWin32: bool, workspaceRoot: string, homedir: string, join: (string, string) -> string)
    returns (env: map<string, string>)
    ensures env == ToolsEnv(processEnv, gopath, toolsEnvVars, isWin32, workspaceRoot, homedir, join)
  {
    var inherited := processEnv + (if gopath != "" then map["GOPATH" := gopath] else map[]);
    var configured := if toolsEnvVars.Some? then toolsEnvVars.value else map[];
    env := OverlayKeys(inherited, configured, workspaceRoot, homedir, join);
    ghost var overlaid := env;
    if NeedsGoBin(env, isWin32) {
      var pathVar := PathVarName(env, isWin32).value;
      env := env[pathVar := env[pathVar] + [PathDelimiter(isWin32)] + join(env["GOROOT"], "bin")];
    }
    assert env == AddGoBin(overlaid, isWin32, join);
  }

  /** `getTestEnvVars`: the tool environment with the configured test variables written over it. */
  method GetTestEnvVars(testEnvVars: map<string, string>, processEnv: map<string, string>, gopath: string,
                        toolsEnvVars: Option<map<string, string>>, isWin32: bool,
                        workspaceRoot: string, homedir: string, join: (string, string) -> string)
    returns (env: map<string, string>)
    ensures env == Overlay(ToolsEnv(processEnv, gopath, toolsEnvVars, isWin32, workspaceRoot, homedir, join),
                           testEnvVars, workspaceRoot, homedir, join)
  {
    var tools := GetToolsEnvVars(processEnv, gopath, toolsEnvVars, isWin32, workspaceRoot, homedir, join);
    env := OverlayKeys(tools, testEnvVars, workspaceRoot, homedir, join);
  }
}
