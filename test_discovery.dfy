/**
  Test discovery, from src/testDiscovery.ts: the recursive walk that collects the
  `_test.go` files below a directory, the suite built for each file, and the choice of
  the directory the walk starts from.

  The file system is a value: a directory listing is a sequence of entries, and a
  directory entry carries its own listing. `path.join`, `fs.exists`, the outline of a file
  and `localeCompare` are parameters. `Promise.all` keeps the order of its inputs, so the
  walk is plain recursion.
 */
module TestDiscovery {
  import opened Wrappers
  import opened VsCode
  import opened JsStrings
  import opened TestUtil
  import opened TestNodes

  /** `vscode.FileType`. */
  datatype FileType = Unknown | File | Directory | SymbolicLink

  /** One `[name, type]` pair of a listing; a directory also holds the listing below it. */
  datatype FsEntry = FsEntry(name: string, kind: FileType, contents: seq<FsEntry>)

  /** `Entry`: a file found by the walk. */
  datatype Entry = Entry(name: string, uri: Uri, kind: FileType)

  /** The number of entries in a tree, which the walk's recursion decreases. */
  function Size(e: FsEntry): nat
    decreases e, 1
  {
    1 + SizeSeq(e.contents)
  }

  function SizeSeq(es: seq<FsEntry>): nat
    decreases es, 0
  {
    if es == [] then 0 else Size(es[0]) + SizeSeq(es[1..])
  }

  lemma SizeSeqCons(es: seq<FsEntry>)
    requires es != []
    ensures SizeSeq(es[0].contents) < SizeSeq(es) && SizeSeq(es[1..]) < SizeSeq(es)
  {
  }

  /** The keep rule: a File whose name ends in `_test.go`, or any Directory. */
  predicate IsGoTestFileOrDirectory(e: FsEntry) {
    (EndsWith(e.name, "_test.go") && e.kind == File) || e.kind == Directory
  }

  /** `filterGoTestFileOrDirectory`: the kept entries of a listing, in listing order. */
  function FilterGoTestFileOrDirectory(items: seq<FsEntry>): (r: seq<FsEntry>)
    ensures forall e :: e in r <==> e in items && IsGoTestFileOrDirectory(e)
    ensures SizeSeq(r) <= SizeSeq(items)
  {
    if items == [] then []
    else if IsGoTestFileOrDirectory(items[0]) then [items[0]] + FilterGoTestFileOrDirectory(items[1..])
    else FilterGoTestFileOrDirectory(items[1..])
  }

  /** The File entries of a filtered listing, as entries whose uri is the directory path joined with the name. */
  function FileEntries(path: Uri, results: seq<FsEntry>, join: (string, string) -> string): (r: seq<Entry>)
    ensures forall x :: x in r ==> x.kind == File && x.uri == join(path, x.name)
    ensures forall x :: x in r ==> exists e :: e in results && e.kind == File && e.name == x.name
  {
    if results == [] then []
    else if results[0].kind == File then
      [Entry(results[0].name, join(path, results[0].name), File)] + FileEntries(path, results[1..], join)
    else FileEntries(path, results[1..], join)
  }

  /** The Directory entries of a filtered listing, in order. */
  function Directories(results: seq<FsEntry>): (r: seq<FsEntry>)
    ensures forall e :: e in r <==> e in results && e.kind == Directory
    ensures SizeSeq(r) <= SizeSeq(results)
  {
    if results == [] then []
    else if results[0].kind == Directory then [results[0]] + Directories(results[1..])
    else Directories(results[1..])
  }

  /**
    `getGoTestFiles`: this directory's kept files in listing order, then the results of
    each kept subdirectory in listing order. Only File entries are returned, and each
    of them is a `_test.go` file.
   */
  function GetGoTestFiles(path: Uri, entries: seq<FsEntry>, join: (string, string) -> string): (r: seq<Entry>)
    ensures forall x :: x in r ==> x.kind == File && EndsWith(x.name, "_test.go")
    decreases SizeSeq(entries), 1
  {
    var results := FilterGoTestFileOrDirectory(entries);
    var files := FileEntries(path, results, join);
    var resultDirs := Directories(results);
    if |resultDirs| == 0 then files
    else files + SubdirResults(path, resultDirs, join)
  }

  /** The results of the subdirectories, concatenated in order. */
  function SubdirResults(path: Uri, dirs: seq<FsEntry>, join: (string, string) -> string): (r: seq<Entry>)
    ensures forall x :: x in r ==> x.kind == File && EndsWith(x.name, "_test.go")
    decreases SizeSeq(dirs), 0
  {
    if dirs == [] then []
    else
      SizeSeqCons(dirs);
      GetGoTestFiles(join(path, dirs[0].name), dirs[0].contents, join) + SubdirResults(path, dirs[1..], join)
  }

  /**
    The reference answer: every `_test.go` File of the tree, each at the path joined from
    the directories above it, visited entry by entry in listing order.
   */
  function TestFilesIn(path: Uri, entries: seq<FsEntry>, join: (string, string) -> string): seq<Entry>
    decreases SizeSeq(entries)
  {
    if entries == [] then []
    else
      var e := entries[0];
      SizeSeqCons(entries);
      var here :=
        if e.kind == File && EndsWith(e.name, "_test.go") then [Entry(e.name, join(path, e.name), File)]
        else if e.kind == Directory then TestFilesIn(join(path, e.name), e.contents, join)
        else [];
      here + TestFilesIn(path, entries[1..], join)
  }

  /** The walk is this level's files followed by the subdirectories' results, also when there are none. */
  lemma WalkSplit(path: Uri, entries: seq<FsEntry>, join: (string, string) -> string)
    ensures var results := FilterGoTestFileOrDirectory(entries);
      GetGoTestFiles(path, entries, join)
      == FileEntries(path, results, join) + SubdirResults(path, Directories(results), join)
  {
    var results := FilterGoTestFileOrDirectory(entries);
    if Directories(results) == [] {
      assert FileEntries(path, results, join) + [] == FileEntries(path, results, join);
    }
  }

  lemma FileEntriesCons(path: Uri, e: FsEntry, rest: seq<FsEntry>, join: (string, string) -> string)
    ensures FileEntries(path, [e] + rest, join)
         == (if e.kind == File then [Entry(e.name, join(path, e.name), File)] else []) + FileEntries(path, rest, join)
  {
    assert ([e] + rest)[0] == e && ([e] + rest)[1..] == rest;
  }

  lemma SubdirResultsCons(path: Uri, e: FsEntry, rest: seq<FsEntry>, join: (string, string) -> string)
    ensures SubdirResults(path, Directories([e] + rest), join)
         == (if e.kind == Directory then GetGoTestFiles(join(path, e.name), e.contents, join) else [])
          + SubdirResults(path, Directories(rest), join)
  {
    var ds := [e] + rest;
    assert ds[0] == e && ds[1..] == rest;
    if e.kind == Directory {
      var dirs := Directories(ds);
      assert dirs == [e] + Directories(rest);
      assert dirs[0] == e && dirs[1..] == Directories(rest);
    }
  }

  /** The files of the first entry, with the subtree below it, are added to those of the rest. */
  lemma WalkCons(path: Uri, entries: seq<FsEntry>, join: (string, string) -> string)
    requires entries != []
    ensures var e := entries[0];
      multiset(GetGoTestFiles(path, entries, join))
      == multiset(if e.kind == File && EndsWith(e.name, "_test.go") then [Entry(e.name, join(path, e.name), File)] else [])
       + multiset(if e.kind == Directory then GetGoTestFiles(join(path, e.name), e.contents, join) else [])
       + multiset(GetGoTestFiles(path, entries[1..], join))
  {
    var e := entries[0];
    var here := if e.kind == File && EndsWith(e.name, "_test.go") then [Entry(e.name, join(path, e.name), File)] else [];
    var below := if e.kind == Directory then GetGoTestFiles(join(path, e.name), e.contents, join) else [];
    var rest := FilterGoTestFileOrDirectory(entries[1..]);
    WalkSplit(path, entries[1..], join);
    if IsGoTestFileOrDirectory(e) {
      WalkKept(path, entries, join, here, below);
      MultisetRegroup(here, FileEntries(path, rest, join), below, SubdirResults(path, Directories(rest), join));
    } else {
      WalkSplit(path, entries, join);
      assert FilterGoTestFileOrDirectory(entries) == rest;
      assert here == [] && below == [];
    }
  }

  lemma MultisetRegroup<T>(a: seq<T>, b: seq<T>, c: seq<T>, d: seq<T>)
    ensures multiset(a + b + (c + d)) == multiset(a) + multiset(c) + multiset(b + d)
  {
  }

  lemma WalkKept(path: Uri, entries: seq<FsEntry>, join: (string, string) -> string, here: seq<Entry>, below: seq<Entry>)
    requires entries != [] && IsGoTestFileOrDirectory(entries[0])
    requires here == if entries[0].kind == File && EndsWith(entries[0].name, "_test.go")
      then [Entry(entries[0].name, join(path, entries[0].name), File)] else []
    requires below == if entries[0].kind == Directory then GetGoTestFiles(join(path, entries[0].name), entries[0].contents, join) else []
    ensures var rest := FilterGoTestFileOrDirectory(entries[1..]);
      GetGoTestFiles(path, entries, join)
      == here + FileEntries(path, rest, join) + (below + SubdirResults(path, Directories(rest), join))
  {
    var e := entries[0];
    var rest := FilterGoTestFileOrDirectory(entries[1..]);
    WalkSplit(path, entries, join);
    assert FilterGoTestFileOrDirectory(entries) == [e] + rest;
    FileEntriesCons(path, e, rest, join);
    SubdirResultsCons(path, e, rest, join);
  }

  /**
    Every `_test.go` file at any depth appears in the walk exactly as often as in the tree,
    at its joined path, and nothing else appears: the walk is a reordering of the reference.
   */
  lemma {:induction false} WalkFindsEveryTestFile(path: Uri, entries: seq<FsEntry>, join: (string, string) -> string)
    ensures multiset(GetGoTestFiles(path, entries, join)) == multiset(TestFilesIn(path, entries, join))
    decreases SizeSeq(entries)
  {
    if entries != [] {
      var e := entries[0];
      SizeSeqCons(entries);
      WalkCons(path, entries, join);
      WalkFindsEveryTestFile(path, entries[1..], join);
      if e.kind == Directory {
        WalkFindsEveryTestFile(join(path, e.name), e.contents, join);
      }
    }
  }

  // ---------------------------------------------------------------------------------
  // Sorting the test functions of a suite by name

  /**
    `localeCompare` as a comparator that `sort` can rely on: swapping the arguments
    flips the sign, and "not after" chains.
   */
  ghost predicate ConsistentComparator(cmp: (string, string) -> int) {
    && (forall a, b :: cmp(a, b) < 0 <==> cmp(b, a) > 0)
    && (forall a, b, c :: cmp(a, b) <= 0 && cmp(b, c) <= 0 ==> cmp(a, c) <= 0)
  }

  ghost predicate SortedByName(s: seq<SymbolInformation>, cmp: (string, string) -> int) {
    forall i, j :: 0 <= i < j < |s| ==> cmp(s[i].name, s[j].name) <= 0
  }

  /** Inserts `x` before the first symbol whose name it compares strictly below, after any equal ones. */
  function InsertByName(x: SymbolInformation, s: seq<SymbolInformation>, cmp: (string, string) -> int)
    : (r: seq<SymbolInformation>)
    ensures multiset(r) == multiset(s) + multiset{x}
  {
    if s == [] then [x]
    else if cmp(x.name, s[0].name) < 0 then [x] + s
    else
      assert s == [s[0]] + s[1..];
      [s[0]] + InsertByName(x, s[1..], cmp)
  }

  /** `symbols.sort((a, b) => a.name.localeCompare(b.name))`, as a stable insertion sort. */
  function SortByName(s: seq<SymbolInformation>, cmp: (string, string) -> int): (r: seq<SymbolInformation>)
    ensures multiset(r) == multiset(s)
  {
    if s == [] then []
    else
      assert s == s[..|s| - 1] + [s[|s| - 1]];
      InsertByName(s[|s| - 1], SortByName(s[..|s| - 1], cmp), cmp)
  }

  /** A symbol ordered before every symbol of a sorted sequence can head it. */
  lemma SortedCons(h: SymbolInformation, t: seq<SymbolInformation>, cmp: (string, string) -> int)
    requires SortedByName(t, cmp)
    requires forall y :: y in t ==> cmp(h.name, y.name) <= 0
    ensures SortedByName([h] + t, cmp)
  {
    var r := [h] + t;
    forall i, j | 0 <= i < j < |r|
      ensures cmp(r[i].name, r[j].name) <= 0
    {
      assert r[j] == t[j - 1];
      if i > 0 {
        assert r[i] == t[i - 1];
      }
    }
  }

  lemma InsertByNameElements(x: SymbolInformation, s: seq<SymbolInformation>, cmp: (string, string) -> int,
                             y: SymbolInformation)
    requires y in InsertByName(x, s, cmp)
    ensures y == x || y in s
  {
    assert y in multiset(InsertByName(x, s, cmp));
  }

  lemma {:induction false} InsertSorted(x: SymbolInformation, s: seq<SymbolInformation>, cmp: (string, string) -> int)
    requires ConsistentComparator(cmp) && SortedByName(s, cmp)
    ensures SortedByName(InsertByName(x, s, cmp), cmp)
  {
    if s == [] {
    } else if cmp(x.name, s[0].name) < 0 {
      InsertFront(x, s, cmp);
    } else {
      SortedTail(s, cmp);
      InsertSorted(x, s[1..], cmp);
      InsertBehind(x, s, cmp);
    }
  }

  /** A symbol ordered strictly before the head of a sorted sequence is put in front. */
  lemma InsertFront(x: SymbolInformation, s: seq<SymbolInformation>, cmp: (string, string) -> int)
    requires ConsistentComparator(cmp) && SortedByName(s, cmp)
    requires s != [] && cmp(x.name, s[0].name) < 0
    ensures SortedByName(InsertByName(x, s, cmp), cmp)
  {
    forall y | y in s
      ensures cmp(x.name, y.name) <= 0
    {
      var k :| 0 <= k < |s| && s[k] == y;
      if k > 0 {
        assert cmp(s[0].name, s[k].name) <= 0;
      }
    }
    SortedCons(x, s, cmp);
  }

  lemma SortedTail(s: seq<SymbolInformation>, cmp: (string, string) -> int)
    requires s != [] && SortedByName(s, cmp)
    ensures SortedByName(s[1..], cmp)
  {
    forall i, j | 0 <= i < j < |s[1..]|
      ensures cmp(s[1..][i].name, s[1..][j].name) <= 0
    {
      assert s[1..][i] == s[i + 1] && s[1..][j] == s[j + 1];
    }
  }

  /** A symbol not ordered before the head goes into the tail, behind the head. */
  lemma InsertBehind(x: SymbolInformation, s: seq<SymbolInformation>, cmp: (string, string) -> int)
    requires ConsistentComparator(cmp) && SortedByName(s, cmp)
    requires s != [] && !(cmp(x.name, s[0].name) < 0)
    requires SortedByName(InsertByName(x, s[1..], cmp), cmp)
    ensures SortedByName(InsertByName(x, s, cmp), cmp)
  {
    var tail := InsertByName(x, s[1..], cmp);
    assert cmp(s[0].name, x.name) <= 0;
    forall y | y in tail
      ensures cmp(s[0].name, y.name) <= 0
    {
      InsertByNameElements(x, s[1..], cmp, y);
      if y != x {
        var k :| 0 <= k < |s[1..]| && s[1..][k] == y;
        assert s[k + 1] == y;
      }
    }
    SortedCons(s[0], tail, cmp);
  }

  /** Under a consistent comparator the sorted symbols are in order of name. */
  lemma {:induction false} SortByNameSorted(s: seq<SymbolInformation>, cmp: (string, string) -> int)
    requires ConsistentComparator(cmp)
    ensures SortedByName(SortByName(s, cmp), cmp)
  {
    if s != [] {
      SortByNameSorted(s[..|s| - 1], cmp);
      InsertSorted(s[|s| - 1], SortByName(s[..|s| - 1], cmp), cmp);
    }
  }

  // ---------------------------------------------------------------------------------
  // Building the suites

  function Names(s: seq<SymbolInformation>): (r: seq<string>)
    ensures |r| == |s| && forall i :: 0 <= i < |s| ==> r[i] == s[i].name
  {
    seq(|s|, i requires 0 <= i < |s| => s[i].name)
  }

  /** The case names of the suite for a file: its test functions, sorted by name. */
  function SuiteCases(uri: Uri, symbolsOf: Uri -> seq<SymbolInformation>, cmp: (string, string) -> int): seq<string> {
    Names(SortByName(GetTestFunctions(symbolsOf(uri)), cmp))
  }

  /**
    The cases of a suite are the file's test functions, each exactly once, and under a
    consistent comparator they are in order of name.
   */
  lemma SuiteCasesMeaning(uri: Uri, symbolsOf: Uri -> seq<SymbolInformation>, cmp: (string, string) -> int)
    ensures var tests := GetTestFunctions(symbolsOf(uri));
      var sorted := SortByName(tests, cmp);
      SuiteCases(uri, symbolsOf, cmp) == Names(sorted) && multiset(sorted) == multiset(tests)
      && |SuiteCases(uri, symbolsOf, cmp)| == |tests|
      && (forall c :: c in SuiteCases(uri, symbolsOf, cmp) ==>
            exists s :: s in symbolsOf(uri) && IsTestSymbol(s) && s.name == c)
    ensures ConsistentComparator(cmp) ==>
      var cases := SuiteCases(uri, symbolsOf, cmp);
      forall i, j :: 0 <= i < j < |cases| ==> cmp(cases[i], cases[j]) <= 0
  {
    var tests := GetTestFunctions(symbolsOf(uri));
    var sorted := SortByName(tests, cmp);
    assert |sorted| == |multiset(sorted)| == |tests|;
    forall c | c in SuiteCases(uri, symbolsOf, cmp)
      ensures exists s :: s in symbolsOf(uri) && IsTestSymbol(s) && s.name == c
    {
      var i :| 0 <= i < |sorted| && Names(sorted)[i] == c;
      assert sorted[i] in multiset(tests);
      assert sorted[i] in tests;
    }
    if ConsistentComparator(cmp) {
      SortByNameSorted(tests, cmp);
    }
  }

  /**
    A node built for a file: the file's name and uri, and one child per case in order,
    each carrying the file's uri and no children of its own.
   */
  predicate SuiteMatches(n: TestNode, item: Entry, cases: seq<string>) {
    && n.name == item.name && n.uri == Some(item.uri)
    && n.children.Some? && |n.children.value| == |cases|
    && forall j :: 0 <= j < |cases| ==>
         var c := n.children.value[j];
         c.name == cases[j] && c.uri == Some(item.uri) && c.children.None?
  }

  ghost predicate SuitesMatch(nodes: seq<TestNode>, items: seq<Entry>, symbolsOf: Uri -> seq<SymbolInformation>,
                              cmp: (string, string) -> int) {
    |nodes| == |items|
    && forall i :: 0 <= i < |items| ==> SuiteMatches(nodes[i], items[i], SuiteCases(items[i].uri, symbolsOf, cmp))
  }

  /** A node is a suite exactly when the file has a test function. */
  lemma SuiteMatchesIsTestSuite(n: TestNode, item: Entry, uri: Uri, symbolsOf: Uri -> seq<SymbolInformation>,
                                cmp: (string, string) -> int)
    requires SuiteMatches(n, item, SuiteCases(uri, symbolsOf, cmp))
    ensures n.IsTestSuite() <==> GetTestFunctions(symbolsOf(uri)) != []
  {
    SuiteCasesMeaning(uri, symbolsOf, cmp);
  }

  /** The body of the `items.map` callback: the sorted cases as fresh nodes, then the suite. */
  method BuildSuite(item: Entry, symbolsOf: Uri -> seq<SymbolInformation>, cmp: (string, string) -> int,
                    ghost cases: seq<string>)
    returns (suite: TestNode)
    requires cases == SuiteCases(item.uri, symbolsOf, cmp)
    ensures fresh(suite) && SuiteMatches(suite, item, cases)
    ensures !suite.isLoading && suite.testResult.None?
    ensures forall c :: c in suite.children.value ==> fresh(c) && !c.isLoading && c.testResult.None?
    ensures forall i, j :: 0 <= i < j < |suite.children.value| ==> suite.children.value[i] != suite.children.value[j]
  {
    var symbols := SortByName(GetTestFunctions(symbolsOf(item.uri)), cmp);
    var nodeList: seq<TestNode> := [];
    var j := 0;
    while j < |symbols|
      invariant 0 <= j <= |symbols| && |nodeList| == j
      invariant forall k :: 0 <= k < j ==>
        nodeList[k].name == symbols[k].name && nodeList[k].uri == Some(item.uri) && nodeList[k].children.None?
      invariant forall c :: c in nodeList ==> fresh(c) && !c.isLoading && c.testResult.None?
      invariant forall i, k :: 0 <= i < k < j ==> nodeList[i] != nodeList[k]
    {
      var t := new TestNode(symbols[j].name, Some(item.uri), None);
      nodeList := nodeList + [t];
      j := j + 1;
    }
    suite := new TestNode(item.name, Some(item.uri), Some(nodeList));
  }

  /** The cases of each file's suite, in file order. */
  function AllSuiteCases(items: seq<Entry>, symbolsOf: Uri -> seq<SymbolInformation>, cmp: (string, string) -> int)
    : (r: seq<seq<string>>)
    ensures |r| == |items| && forall k :: 0 <= k < |items| ==> r[k] == SuiteCases(items[k].uri, symbolsOf, cmp)
  {
    seq(|items|, k requires 0 <= k < |items| => SuiteCases(items[k].uri, symbolsOf, cmp))
  }

  ghost predicate SuitesMatchUpTo(nodes: seq<TestNode>, items: seq<Entry>, cases: seq<seq<string>>)
    requires |nodes| <= |items| == |cases|
  {
    forall k :: 0 <= k < |nodes| ==> SuiteMatches(nodes[k], items[k], cases[k])
  }

  /**
    The suite construction of `discoverTests`: one fresh suite per file, in file order,
    whose children are the file's test functions sorted by name.
   */
  method BuildSuites(items: seq<Entry>, symbolsOf: Uri -> seq<SymbolInformation>, cmp: (string, string) -> int)
    returns (nodes: seq<TestNode>)
    ensures SuitesMatch(nodes, items, symbolsOf, cmp)
    ensures forall k :: 0 <= k < |nodes| ==> fresh(nodes[k]) && !nodes[k].isLoading && nodes[k].testResult.None?
  {
    ghost var cases := AllSuiteCases(items, symbolsOf, cmp);
    nodes := [];
    var i := 0;
    while i < |items|
      invariant 0 <= i <= |items| && |nodes| == i && SuitesMatchUpTo(nodes, items, cases)
      invariant forall k :: 0 <= k < i ==> fresh(nodes[k]) && !nodes[k].isLoading && nodes[k].testResult.None?
    {
      var suite := BuildSuite(items[i], symbolsOf, cmp, cases[i]);
      nodes := nodes + [suite];
      i := i + 1;
    }
  }

  // ---------------------------------------------------------------------------------
  // Discovery from the workspace

  /** What discovery publishes: the start signal, then the discovered suites. */
  datatype Event = DiscoveryStarted | DiscoveredTests(nodes: seq<TestNode>)

  /** The walk starts at `<workspace>/src` when that exists, and at the workspace folder otherwise. */
  function DiscoveryRoot(workspacePath: string, pathExists: string -> bool, join: (string, string) -> string): (r: Uri)
    ensures pathExists(join(workspacePath, "src")) ==> r == join(workspacePath, "src")
    ensures !pathExists(join(workspacePath, "src")) ==> r == workspacePath
  {
    var srcLocation := join(workspacePath, "src");
    if pathExists(srcLocation) then srcLocation else workspacePath
  }

  /** `discoverTests(uri)`: walk from the root, build the suites, publish them. */
  method DiscoverTests(root: Uri, listing: Uri -> seq<FsEntry>, symbolsOf: Uri -> seq<SymbolInformation>,
                       cmp: (string, string) -> int, join: (string, string) -> string)
    returns (event: Event)
    ensures event.DiscoveredTests?
    ensures SuitesMatch(event.nodes, GetGoTestFiles(root, listing(root), join), symbolsOf, cmp)
    ensures forall n :: n in event.nodes ==> fresh(n)
  {
    var items := GetGoTestFiles(root, listing(root), join);
    var nodes := BuildSuites(items, symbolsOf, cmp);
    event := DiscoveredTests(nodes);
  }

  /**
    `discoverAllTests`: the start signal goes out first. Without a file-scheme workspace
    folder the call fails there; otherwise the suites of the chosen root follow.
   */
  method DiscoverAllTests(folders: seq<WorkspaceFolder>, pathExists: string -> bool, listing: Uri -> seq<FsEntry>,
                          symbolsOf: Uri -> seq<SymbolInformation>, cmp: (string, string) -> int,
                          join: (string, string) -> string)
    returns (events: seq<Event>)
    ensures |events| >= 1 && events[0] == DiscoveryStarted
    ensures FirstFileFolder(folders).None? ==> events == [DiscoveryStarted]
    ensures FirstFileFolder(folders).Some? ==>
      var root := DiscoveryRoot(FirstFileFolder(folders).value.path, pathExists, join);
      |events| == 2 && events[1].DiscoveredTests?
      && SuitesMatch(events[1].nodes, GetGoTestFiles(root, listing(root), join), symbolsOf, cmp)
  {
    events := [DiscoveryStarted];
    var workspaceFolder := FirstFileFolder(folders);
    if workspaceFolder.Some? {
      var root := DiscoveryRoot(workspaceFolder.value.path, pathExists, join);
      var discovered := DiscoverTests(root, listing, symbolsOf, cmp, join);
      events := events + [discovered];
    }
  }
}
