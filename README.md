# Go Test Explorer core, modelled in Dafny

Go Test Explorer is a VS Code extension that shows the tests of a Go workspace as a tree. This
project models its core:

- **Discovery.** A recursive walk collects every `*_test.go` file below the workspace root. One
  suite is built per file. Its children are the file's test functions, taken from the go-outline
  symbols and sorted by name.
- **The tree.** It holds the suites and their test cases. The tree answers `getChildren`. It
  records each case's last result and its loading state, and shows one icon per node.
- **The outline.** go-outline's declaration tree is flattened into document symbols.
- **The `go test` side.** This covers the command-line arguments, a line splitter for the
  process output, and the buffer that flushes a package's output when its summary line arrives.
  It also covers the rewriting of relative `file.go:N:` references, and the environment that the
  tools run with.

The modules follow the source files:

| module | file | source |
|---|---|---|
| Wrappers | `wrappers.dfy` | the `Option` datatype |
| VsCode | `vscode.dfy` | the editor values the core passes around: uri, symbol, workspace folder |
| JsStrings | `js_strings.dfy` | the JavaScript string operations the core relies on |
| Icons | `icons.dfy` | `src/icons.ts` |
| TestResults | `test_result.dfy` | `src/testResult.ts` |
| LineBuffers | `line_buffer.dfy` | the `LineBuffer` class of `src/lib/utils.ts` |
| Utils | `utils.dfy` | the rest of `src/lib/utils.ts` |
| GoOutline | `go_outline.dfy` | `src/lib/goOutline.ts` |
| TestUtil | `test_util.dfy` | `src/lib/testUtil.ts` |
| TestNodes | `test_node.dfy` | `src/testNode.ts` |
| TestNodesInline | `test_node_inline.dfy` | `src/testNode1.ts` |
| TestDiscovery | `test_discovery.dfy` | `src/testDiscovery.ts` |
| TestFinder | `test_finder.dfy` | `src/testFinder.ts` |
| GoTestProviders | `go_test_provider.dfy` | `src/goTestProvider.ts` |

Code that changes state in place is written as classes with `modifies` frames:

- `TestNode`;
- the provider's `_discoveredTests`;
- `LineBuffer`;
- the `testResultLines` accumulator.

Code that loops and pushes is written as methods with loop invariants, each proved against a
specification function:

- `convertToCodeSymbols`;
- `expandFilePathInOutput`;
- the env-file loop;
- the environment merge;
- the push-based walk of `testFinder.ts`.

Pure code is written as functions and lemmas.

These inputs are parameters of the model rather than code:

- the file system, as a `FsEntry` tree;
- a file's outline symbols, as `symbolsOf`;
- `path.join`, `path.isAbsolute`, `os.homedir` and `fs.exists`;
- the byte-offset converter;
- `localeCompare`, as `cmp`;
- `process.env`, the configured GOPATH and the `toolsEnvVars`/`testEnvVars` settings;
- `process.platform`.

Where the source and its surrounding declarations disagree, the model follows the code that runs:

- Test results are read through `uri`, `functionName` and `result`, so the model has one result
  type with those meanings. `src/testResult.ts` declares different field names.
- `sendDiscoveredTests` and `sendTestDiscoveryStarted` are missing from `src/commands.ts`. The
  model treats them as the publication they are evidently meant to be: the discovered list, or
  the start signal, is returned as an event.

## Model

| member | source | states |
|---|---|---|
| Utils.StripBOM | src/lib/utils.ts:118-123 | A leading U+FEFF is removed and the rest is returned. Text that does not start with one comes back unchanged. |
| Utils.StripBOMOnce | src/lib/utils.ts:118-123 | Only one mark is removed, even when several lead the text. |
| Utils.ResolveHomeDir | src/lib/utils.ts:66-69 | Empty, blank and non-`~` paths come back unchanged. A leading `~` becomes the home directory joined with the rest. |
| Utils.ResolvePath | src/lib/utils.ts:46-61 | Blank input is returned as is. Without a workspace root, only `~` is expanded. With a root, every `${workspaceRoot}` and then every `${workspaceFolder}` becomes the root (global replacement, characterised by `ReplaceAllLeftmost` and `ReplaceAllAbsent`) before `~` is expanded. |
| Utils.ResolvePathPlain | src/lib/utils.ts:57-60 | A path containing neither placeholder is only `~`-expanded, whatever the root. |
| Utils.ResolvePathRootAt | src/lib/utils.ts:57-60 | For any path `a + ${workspaceRoot} + b` whose part `a` holds no `${workspaceRoot}`, the first pass keeps `a`, puts the root in place of the placeholder and goes on replacing in `b`; the `${workspaceFolder}` pass and `~` expansion follow. |
| Utils.PlaceholderReplaced | src/lib/utils.ts:58 | The same step for either placeholder: after a placeholder-free prefix, its occurrence is the one replaced, and the scan resumes after it. |
| Utils.ParsePlainAssignment | src/lib/utils.ts:134-140 | A line `KEY=value` parses to exactly that key and that value. |
| Utils.ParseEnvLineNeedsEquals | src/lib/utils.ts:134-135 | A line without `=` is not an assignment. |
| Utils.StripQuotesBoth | src/lib/utils.ts:140 | A value between two quote characters loses exactly those two. |
| Utils.ParseEnvLineMeaning | src/lib/utils.ts:134-140 | A line parses to key `k` and value `v` if and only if it has the shape of `^\s*([\w\.\-]+)\s*=\s*(.*)?\s*$` (blanks, a non-empty key of `[\w.-]` characters, blanks, `=`, blanks, a captured value up to the first line terminator, then only blanks) with key `k`, and the captured value, unescaped when double-quoted and stripped of one quote at each end, is `v`. |
| Utils.ParseEnvLineSound | src/lib/utils.ts:134-140 | Every line the parser accepts has that shape, and its value is the unescaped, unquoted captured text. |
| Utils.ParseEnvLineComplete | src/lib/utils.ts:134-140 | Every line of that shape, with any blanks around `=` and any quoted value, is accepted with its key and its unescaped, unquoted value. |
| Utils.EnvKeys | src/lib/utils.ts:133-141 | A key is in the environment if and only if some line assigns it. Lines of any other shape add nothing. |
| Utils.EnvLastAssignmentWins | src/lib/utils.ts:133-141 | The last line that assigns a key decides its value. |
| Utils.ParseEnvFile | src/lib/utils.ts:125-147 | No path gives the empty environment. An unreadable file gives the "Cannot load environment variables from file" error. Otherwise the result is the fold of the parsed lines of the BOM-stripped text. |
| Utils.AssignAll | src/lib/utils.ts:133-142 | The `forEach` over the lines builds exactly the fold of the parsed lines, in line order. |
| Utils.Overlay | src/lib/utils.ts:99-101 | The keys are those of the base plus those configured. A configured key takes its value passed through `resolvePath`. Every other key keeps its inherited value. |
| Utils.OverlayKeys | src/lib/utils.ts:100 | Writing the configured keys one at a time produces exactly `Overlay`. |
| Utils.AddGoBin | src/lib/utils.ts:103-113 | The keys are unchanged. When GOROOT and the search path are set and GOROOT is not an entry, the path gains `<delimiter><GOROOT>/bin`; otherwise nothing changes. No other variable changes. |
| Utils.GoBinAppendsEntry | src/lib/utils.ts:111-112 | The search path's entries stay, in order, and the entries of `<GOROOT>/bin` follow them. |
| Utils.ToolsEnvOverrides | src/lib/utils.ts:97-101 | A configured tool variable other than the search path replaces the inherited one. |
| Utils.ToolsEnvInherits | src/lib/utils.ts:97-101 | An inherited variable that nobody configured passes through unchanged. |
| Utils.GetToolsEnvVars | src/lib/utils.ts:92-116 | The result is the inherited environment, plus GOPATH, overlaid with the tool variables, with the GOROOT rule applied last. |
| Utils.GetTestEnvVars | src/lib/utils.ts:82-90 | The tool environment with the test variables overlaid on it. |
| LineBuffers.SplitLinesRoundTrip | src/lib/utils.ts:190-201 | The extracted lines, each followed by `\n`, then the remainder, rebuild the text exactly. |
| LineBuffers.SplitLinesNoNewline | src/lib/utils.ts:190-201 | No extracted line and not the remainder contains `\n`. |
| LineBuffers.SplitLinesUnique | src/lib/utils.ts:190-201 | The split is the only one with those two properties, so lines come out in text order. |
| LineBuffers.Calls | src/lib/utils.ts:207-213 | One call per listener, in registration order, each with the same argument. |
| LineBuffers.EveryListenerGetsEveryLine | src/lib/utils.ts:207-221 | A listener registered once receives every fired line exactly once, in firing order. |
| LineBuffers.NotRegisteredReceivesNothing | src/lib/utils.ts:207-209 | A listener that is not registered receives nothing. |
| LineBuffers.LineBuffer.constructor | src/lib/utils.ts:185-188 | The buffer starts empty, with no listeners and no calls. |
| LineBuffers.LineBuffer.Append | src/lib/utils.ts:190-201 | The fired lines and the new buffer are the split of the old buffer plus the chunk. The new buffer holds no `\n`. The line listeners receive the lines in order. |
| LineBuffers.LineBuffer.Done | src/lib/utils.ts:203-205 | The done listeners receive the pending text, or `null` when it is empty. The buffer is not changed. |
| LineBuffers.LineBuffer.FireLine | src/lib/utils.ts:207-209 | Every line listener is called once with the line, in registration order. |
| LineBuffers.LineBuffer.FireDone | src/lib/utils.ts:211-213 | Every done listener is called once with the argument, in registration order. |
| LineBuffers.LineBuffer.OnLine | src/lib/utils.ts:215-217 | The listener is appended to the line listeners. |
| LineBuffers.LineBuffer.OnDone | src/lib/utils.ts:219-221 | The listener is appended to the done listeners. |
| JsStrings.JoinSplit | src/lib/testUtil.ts:233-240 | Joining the parts split at a character gives the text back. |
| JsStrings.SplitJoin | src/lib/testUtil.ts:233-240 | When no part holds the separator, splitting the joined parts gives the parts back. |
| JsStrings.ReplaceAllAbsent | src/lib/utils.ts:58 | A global replace changes nothing when the pattern does not occur. |
| JsStrings.ReplaceAllLeftmost | src/lib/utils.ts:58 | A global replace substitutes the leftmost occurrence and continues after it. |
| JsStrings.ReplaceAllAfterFree | src/lib/utils.ts:58 | For a pattern whose first character does not recur in it, an occurrence after a pattern-free prefix is the leftmost one: the prefix is kept, the occurrence is replaced and the rest is rescanned. |
| TestUtil.MatchSuiteMethod | src/lib/testUtil.ts:9 | A match splits the name into `(R).T`. R is non-empty and holds no `)`. T starts with `Test` and holds no line terminator. |
| TestUtil.MatchSuiteMethodComplete | src/lib/testUtil.ts:9 | Every name of that form matches, with exactly R and T as its groups. |
| TestUtil.GetTestFunctions | src/lib/testUtil.ts:59-63 | Only Function symbols named `Test…`, `Example…` or `(R).Test…` are kept, and each comes from the input. |
| TestUtil.GetTestFunctionsKeepsTests | src/lib/testUtil.ts:59-63 | No test symbol of the input is dropped. |
| TestUtil.TargetArgs | src/lib/testUtil.ts:248-268 | Benchmarks: `-bench` with the anchored list, even an empty one, or `-bench .` without a list. Tests: `-run` with the anchored list only when it is non-empty, and nothing otherwise. |
| TestUtil.TargetArgsRoundTrip | src/lib/testUtil.ts:249-258 | The pattern is `^…$`. When no name contains the bar character, its inside splits at that character back into exactly the requested functions. |
| TestUtil.GoTestArgs | src/lib/testUtil.ts:122-133 | The arguments are `test`, then the flags verbatim, then `-benchmem -run=^$` or `-timeout <t>`. `-tags <tags>` follows only when tags are set and the flags lack `-tags`. |
| TestUtil.AddTargets | src/lib/testUtil.ts:149-159 | The process receives every target. The displayed command lists them when there are at most four, and shows `<long arguments omitted>` instead otherwise. |
| TestUtil.SearchSummary | src/lib/testUtil.ts:165 | The search succeeds if and only if some position at or after its start ends a summary match. |
| TestUtil.PackageResultLineMeaning | src/lib/testUtil.ts:165-170 | The summary test holds if and only if the package summary pattern matches the line: `ok` or `FAIL`, blanks, a package, blanks, then a duration such as `0.5s` or `(cached)`. |
| TestUtil.FindGoRef | src/lib/testUtil.ts:235 | The result is a match of `^\s*(.+.go):(\d+):` with the greedy choice: the most leading blanks, then the longest file. No match exists when it reports none. |
| TestUtil.ExpandLine | src/lib/testUtil.ts:234-239 | A line without a match, or whose file is absolute, is unchanged. |
| TestUtil.FileFirstOccurrence | src/lib/testUtil.ts:237 | The first occurrence of the matched file text in the line is the match itself. |
| TestUtil.ExpandLineReplacesMatch | src/lib/testUtil.ts:235-238 | A relative file is replaced, in place, by the cwd joined with it, and the rest of the line is kept. |
| TestUtil.ExpandFilePathInOutput | src/lib/testUtil.ts:232-241 | The loop that rewrites `lines[i]` in place returns the expanded lines, joined again. |
| TestUtil.RewriteLine | src/lib/testUtil.ts:235-238 | One iteration changes only `lines[i]`, and only to its expansion. |
| TestUtil.ExpandOutputKeepsLines | src/lib/testUtil.ts:232-241 | The output keeps its line count. Every line without a file reference is kept as it was. |
| TestUtil.ExpandOutputOneLine | src/lib/testUtil.ts:232-241 | A text without `\n` is expanded as a single line. |
| TestUtil.ExpandAllAppend | src/lib/testUtil.ts:175 | Expanding buffered lines distributes over concatenation. |
| TestUtil.ResultAccumulator.constructor | src/lib/testUtil.ts:166 | The buffer and the channel start empty. |
| TestUtil.ResultAccumulator.ProcessTestResultLine | src/lib/testUtil.ts:168-178 | A summary line flushes the buffer plus the line, expanded and in order, and empties the buffer. Any other line is only buffered. Nothing received is lost or repeated, and no buffered line is a summary. |
| TestUtil.ResultAccumulator.OnDone | src/lib/testUtil.ts:182-189 | A non-empty trailing fragment is processed first. Whatever is still buffered is then written out unexpanded and stays buffered. |
| TestUtil.ResultAccumulator.EmitExpanded | src/lib/testUtil.ts:175 | The channel gains the buffered lines, each expanded, in order. |
| TestUtil.ResultAccumulator.EmitRaw | src/lib/testUtil.ts:186-188 | The channel gains the buffered lines as they are, in order. |
| GoOutline.GoOutlineFlags | src/lib/goOutline.ts:50-56 | The flags are `-f <file>`, then `-imports-only` when wanted, then `-modified` when a document is given. |
| GoOutline.GoKindToCodeKind | src/lib/goOutline.ts:98-104 | A kind exists exactly for the five known declaration types. |
| GoOutline.FlattenSeqAppend | src/lib/goOutline.ts:118-145 | Siblings are emitted in input order: concatenated declarations give concatenated symbols. |
| GoOutline.DeclBeforeChildren | src/lib/goOutline.ts:121-139 | A kept declaration comes before its children, with its display label (`(T).name` for a method), its kind, the given container and the document uri. |
| GoOutline.FlattenDeclNoImports | src/lib/goOutline.ts:116-119 | Unless imports are wanted, no Namespace symbol appears at any depth. |
| GoOutline.FlattenSeqNoImports | src/lib/goOutline.ts:116-119 | The same for a list of declarations. |
| GoOutline.FlattenDeclNoBlankVariables | src/lib/goOutline.ts:123 | No variable symbol named `_` appears at any depth. |
| GoOutline.FlattenSeqNoBlankVariables | src/lib/goOutline.ts:123 | The same for a list of declarations. |
| GoOutline.FlattenDeclUri | src/lib/goOutline.ts:132-138 | Every symbol belongs to the given document. |
| GoOutline.FlattenSeqUri | src/lib/goOutline.ts:132-138 | The same for a list of declarations. |
| GoOutline.ConvertToCodeSymbols | src/lib/goOutline.ts:106-146 | The caller's symbols are kept as a prefix. The appended symbols are the pre-order flattening, and a missing list adds nothing. |
| GoOutline.ConvertDecl | src/lib/goOutline.ts:118-145 | One declaration appends itself and then its subtree, or nothing when it is skipped. |
| TestNodes.TestNode.constructor | src/testNode.ts:8-12 | A fresh node has the given name, uri and children, no result, and is not loading. |
| TestNodes.TestNode.SetTestResult | src/testNode.ts:19-22 | The result is stored and loading ends. The icon becomes the suite icon, or passed or failed by the result. |
| TestNodes.TestNode.SetLoading | src/testNode.ts:36-38 | Only the loading flag changes, and the icon becomes the spinner. |
| TestNodes.TestNode.LoadingCompleted | src/testNode.ts:39-41 | Only the loading flag changes, to false. |
| TestNodes.IconMeaning | src/testNode.ts:26-32 | Each icon is shown in exactly one case of the chain: loading, suite, no result, passed, failed. A suite's icon ignores its children. |
| TestNodesInline.TestNode.constructor | src/testNode1.ts:7-11 | A fresh node has the given name, uri and children, no result, and is not loading. |
| TestNodesInline.TestNode.SetTestResult | src/testNode1.ts:18-21 | The result is stored and loading ends. |
| TestNodesInline.TestNode.SetLoading | src/testNode1.ts:31-33 | Only the loading flag changes, to true. |
| TestNodesInline.TestNode.LoadingCompleted | src/testNode1.ts:34-36 | Only the loading flag changes, to false. |
| TestNodesInline.IconsAgree | src/testNode1.ts:25-27 | In the same state, both copies of the node show the same icon file. |
| VsCode.FirstFileFolder | src/testFinder.ts:15 | The result is the first folder with the `file` scheme, or none when no folder has it. |
| TestDiscovery.FilterGoTestFileOrDirectory | src/testDiscovery.ts:69-73 | An entry is kept if and only if it is a `_test.go` File or a Directory. |
| TestDiscovery.FileEntries | src/testDiscovery.ts:50-51 | Only Files are listed, each from the listing, at the directory path joined with its name. |
| TestDiscovery.Directories | src/testDiscovery.ts:54 | An entry is kept if and only if it is a Directory of the listing. |
| TestDiscovery.GetGoTestFiles | src/testDiscovery.ts:45-68 | The walk returns only Files, and each name ends in `_test.go`. |
| TestDiscovery.SubdirResults | src/testDiscovery.ts:58-64 | The subdirectories' results hold only `_test.go` Files. |
| TestDiscovery.WalkSplit | src/testDiscovery.ts:45-68 | The walk is this level's files, then the subdirectories' results in listing order. |
| TestDiscovery.WalkFindsEveryTestFile | src/testDiscovery.ts:45-68 | Every `_test.go` file at any depth appears exactly as often as in the tree, at its joined path, and nothing else appears. No directory is pruned. |
| TestDiscovery.SortByName | src/testDiscovery.ts:34 | The sort is a permutation of its input. |
| TestDiscovery.SortByNameSorted | src/testDiscovery.ts:34 | Under a consistent comparator the output is in order of name. |
| TestDiscovery.SuiteCasesMeaning | src/testDiscovery.ts:32-35 | A suite's cases are the file's test functions, each once. Each is a test symbol of the file, and they are in order of name. |
| TestDiscovery.SuiteMatchesIsTestSuite | src/testDiscovery.ts:31-36 | A built node is a suite if and only if its file has a test function. |
| TestDiscovery.BuildSuite | src/testDiscovery.ts:30-37 | A fresh node gets the file's name and uri. Its children are fresh cases, one per sorted test function, each with the file's uri, and no two children are the same object. |
| TestDiscovery.BuildSuites | src/testDiscovery.ts:30-37 | One fresh suite per file, in file order. |
| TestDiscovery.DiscoveryRoot | src/testDiscovery.ts:17-19 | The walk starts at `<workspace>/src` when it exists, and at the workspace folder otherwise. |
| TestDiscovery.DiscoverTests | src/testDiscovery.ts:28-43 | The published list holds the suites of the walk from the root. |
| TestDiscovery.DiscoverAllTests | src/testDiscovery.ts:14-26 | The start signal comes first, then the suites of the chosen root. Without a file-scheme folder, only the signal is sent. |
| TestFinder.FilterGoTestFileOrDirectory | src/testFinder.ts:51-54 | Only entries of the listing are kept. |
| TestFinder.FiltersAgree | src/testFinder.ts:51-54 | Both copies of the filter keep the same entries in the same order. |
| TestFinder.PushAll | src/testFinder.ts:41-43 | Pushing the items appends them in order. |
| TestFinder.PushResults | src/testFinder.ts:40-45 | The nested pushes append every subdirectory's results, in order. |
| TestFinder.WalkSubdirectories | src/testFinder.ts:35-38 | There is one result per subdirectory, in order, each being that subdirectory's walk. |
| TestFinder.GetGoTestFiles | src/testFinder.ts:22-50 | For every tree, the push-based walk returns exactly the sequence that the walk of `src/testDiscovery.ts` returns. |
| TestFinder.ConcatSubdirResults | src/testFinder.ts:39-47 | Results gathered one subdirectory at a time concatenate to the subdirectories' results. |
| TestFinder.ListLevel | src/testFinder.ts:12 | One level lists each kept entry, files and directories alike, in order, at its joined uri. |
| TestFinder.LeafDirectory | src/testFinder.ts:31-34 | A directory without subdirectories returns exactly its one-level listing of kept files. |
| TestFinder.GetChildren | src/testFinder.ts:8-21 | For an element, the result is its one-level listing. At the top, it is the recursive walk of the first file-scheme folder, or nothing when there is none. |
| GoTestProviders.FindByUri | src/goTestProvider.ts:87 | The result is the first index with that uri, or -1 exactly when no node has it. |
| GoTestProviders.FindByName | src/goTestProvider.ts:89 | The result is the first index with that name, or -1 exactly when no node has it. |
| GoTestProviders.MarkAllLoading | src/goTestProvider.ts:114 | Every node of the list is loading, and no result changes. |
| GoTestProviders.GoTestProvider.Target | src/goTestProvider.ts:87-91 | The node reached by a (uri, name) lookup is a test case with that name. |
| GoTestProviders.GoTestProvider.constructor | src/goTestProvider.ts:15-18 | No list is set. |
| GoTestProviders.GoTestProvider.GetChildren | src/goTestProvider.ts:44-53 | For a node, the result is its children. At the top, it is the list, or a single fresh "Loading..." node without uri while no list is set. |
| GoTestProviders.GoTestProvider.RefreshTestExplorer | src/goTestProvider.ts:55-58 | The list becomes empty rather than unset, so no placeholder is shown and there are no cases. |
| GoTestProviders.GoTestProvider.OnDiscoveredTest | src/goTestProvider.ts:95-97 | The published list replaces the old one. |
| GoTestProviders.GoTestProvider.DiscoverTests | src/goTestProvider.ts:68-83 | The published list holds fresh suites of the walk, one per file in order, with sorted cases. None of them is loading or has a result. |
| GoTestProviders.GoTestProvider.UpdateTestResult | src/goTestProvider.ts:85-94 | The case reached by (uri, function name) takes the result and stops loading. Every other case is unchanged, and a miss changes nothing. |
| GoTestProviders.GoTestProvider.SetLoading | src/goTestProvider.ts:102-110 | Only the case reached by (uri, name) starts loading. No result changes, and a miss changes nothing. |
| GoTestProviders.GoTestProvider.SetAllLoading | src/goTestProvider.ts:111-117 | Every child of every suite is loading, and no result changes. |

## Left out

- Child processes and streams are not modelled. This covers spawning `go test` and go-outline,
  the stdout/stderr wiring, `runningTestProcesses`, the close handler's messages and the
  go-outline stderr retry. The lines a process prints and the declaration list go-outline
  returns are inputs. The output channel is a sequence of lines.
- The stderr side of `goTest` is not a separate member. It passes each line through
  `expandFilePathInOutput` with the test directory, which `TestUtil.ExpandFilePathInOutput`
  models.
- `makeMemoizedByteOffsetConverter` is not modelled. It depends on a tree module and on UTF-8
  decoding that are not part of this model. The converter is a function parameter, and a
  document position is its offset.
- VS Code configuration and workspace lookups are not modelled: `resolveToolsGopath`,
  `getToolsGopath`, `getCurrentGoPath`, `getBinPath`, and the root discovery in `resolvePath`.
  `process.env` and `process.platform` are inputs.
- `path.join`, `path.isAbsolute`, `os.homedir` and `fs.exists` are uninterpreted function
  parameters. No path normalisation is modelled.
- Utils.ResolvePath: `$` replacement patterns in a substituted root (`$&`, `$1`, …) are not
  interpreted. The root is inserted literally.
- JsStrings.ReplaceFirst: the `$` patterns of a string replacement are likewise not
  interpreted.
- Utils.Overlay: configured values are strings. The source copies a non-string value
  unresolved, and that case is not modelled.
- TestDiscovery.SortByName: `localeCompare` is a parameter. The sort is a stable insertion
  sort. Sortedness is proved under a comparator that flips sign on swap and whose "not after"
  relation chains; `Array.prototype.sort` promises no more. Equal names may be ordered
  differently by the engine's own algorithm.
- Uris are compared by value. The source compares `vscode.Uri` objects with `===`, which only
  holds for the same object.
- Asynchrony and `Promise.all` are modelled as sequential recursion, which keeps the same order.
- `refreshTestExplorer` also starts a discovery. The model only resets the list; discovery is
  the separate `DiscoverTests`.
- `getTreeItem`, `refresh`, the tree-change event, activation, the `Commands` emitter,
  `killProcess`, `promptForMissingTool` and `getFileArchive` are user interface and plumbing.
  They are not modelled.
- Where the source throws a `TypeError`, the provider operations return `false` and change
  nothing. This happens when the list was never set or the matched suite has no children.
- `discoverAllTests` without a file-scheme folder fails synchronously, right after the start
  signal, when it reads the path of the missing folder. The model returns only the start signal,
  `[DiscoveryStarted]`, for that case.
- Absent go-outline values are modelled as the empty value the source treats them as. An absent
  `children` is an empty list, and an absent `receiverType` is `""`.
- The three declarations of the test result record are merged into one datatype.
