/**
  The tree provider of the test explorer, from src/goTestProvider.ts: it keeps the list
  of discovered suites, answers the tree's `getChildren`, and changes the state of single
  test cases as results and run requests arrive.

  The tree is two levels deep: suites at the top, test cases below them. Where the source
  would fail with a `TypeError` (no list has been set yet, or the matched suite has no
  children) the operation reports `false` and changes nothing.
 */
module GoTestProviders {
  import opened Wrappers
  import opened VsCode
  import opened TestResults
  import opened TestNodes
  import TD = TestDiscovery
  import TF = TestFinder

  /** The name of the placeholder shown while no list has been set. */
  const LoadingName: string := "Loading..."

  /**
    `findIndex(s => s.uri === uri)`: the first node with that uri, `-1` when there is none.
   */
  function FindByUri(nodes: seq<TestNode>, uri: Option<Uri>): (r: int)
    ensures -1 <= r < |nodes|
    ensures r >= 0 ==> nodes[r].uri == uri && forall k :: 0 <= k < r ==> nodes[k].uri != uri
    ensures r == -1 <==> forall k :: 0 <= k < |nodes| ==> nodes[k].uri != uri
  {
    if nodes == [] then -1
    else if nodes[0].uri == uri then 0
    else
      var r := FindByUri(nodes[1..], uri);
      if r == -1 then -1 else r + 1
  }

  /** `findIndex(t => t.name === name)`: the first node with that name, `-1` when there is none. */
  function FindByName(nodes: seq<TestNode>, name: string): (r: int)
    ensures -1 <= r < |nodes|
    ensures r >= 0 ==> nodes[r].name == name && forall k :: 0 <= k < r ==> nodes[k].name != name
    ensures r == -1 <==> forall k :: 0 <= k < |nodes| ==> nodes[k].name != name
  {
    if nodes == [] then -1
    else if nodes[0].name == name then 0
    else
      var r := FindByName(nodes[1..], name);
      if r == -1 then -1 else r + 1
  }

  /**
    Marks every node of the list as loading, as `children.forEach(t => t.setLoading())`;
    results are left alone.
   */
  method MarkAllLoading(nodes: seq<TestNode>)
    modifies set n | n in nodes
    ensures forall n :: n in nodes ==> n.isLoading
    ensures forall n :: n in nodes ==> n.testResult == old(n.testResult)
  {
    var k := 0;
    while k < |nodes|
      invariant 0 <= k <= |nodes|
      invariant forall j :: 0 <= j < k ==> nodes[j].isLoading
      invariant forall n :: n in nodes ==> n.testResult == old(n.testResult)
    {
      nodes[k].SetLoading();
      k := k + 1;
    }
  }

  class GoTestProvider {
    /** `_discoveredTests`: unset until the first list arrives. */
    var discoveredTests: Option<seq<TestNode>>

    /** The test cases: every child of every top-level node that has children. */
    function Cases(): set<TestNode>
      reads this
    {
      if discoveredTests.None? then {}
      else set s, c | s in discoveredTests.value && s.children.Some? && c in s.children.value :: c
    }

    /**
      The case a lookup by (uri, name) reaches: the first top-level node with the uri,
      then its first child with the name. `None` when either lookup misses or the list
      or the suite's children are unset.
     */
    function Target(uri: Option<Uri>, name: string): (r: Option<TestNode>)
      reads this
      ensures r.Some? ==> r.value in Cases() && r.value.name == name
    {
      if discoveredTests.None? then None
      else
        var nodes := discoveredTests.value;
        var index := FindByUri(nodes, uri);
        if index < 0 || nodes[index].children.None? then None
        else
          var index2 := FindByName(nodes[index].children.value, name);
          if index2 < 0 then None
          else
            assert nodes[index] in nodes && nodes[index].children.value[index2] in nodes[index].children.value;
            Some(nodes[index].children.value[index2])
    }

    /** Whether a lookup by uri fails in the source: the list is unset, or the matched suite has no children. */
    predicate LookupFails(uri: Option<Uri>)
      reads this
    {
      discoveredTests.None?
      || (var index := FindByUri(discoveredTests.value, uri);
          index >= 0 && discoveredTests.value[index].children.None?)
    }

    constructor ()
      ensures discoveredTests.None?
    {
      discoveredTests := None;
    }

    /**
      `getChildren`: a node's own children; at the top, a single fresh "Loading..." node
      without uri while no list is set, else the list itself.
     */
    method GetChildren(testNode: Option<TestNode>) returns (r: Option<seq<TestNode>>)
      ensures testNode.Some? ==> r == testNode.value.children
      ensures testNode.None? && discoveredTests.Some? ==> r == discoveredTests
      ensures testNode.None? && discoveredTests.None? ==>
        r.Some? && |r.value| == 1 && fresh(r.value[0])
        && r.value[0].name == LoadingName && r.value[0].uri.None? && r.value[0].children.None?
    {
      if testNode.Some? {
        return testNode.value.children;
      }
      if discoveredTests.None? {
        var placeholder := new TestNode(LoadingName, None, None);
        return Some([placeholder]);
      }
      return discoveredTests;
    }

    /** `refreshTestExplorer`: the list becomes empty, not unset, so no placeholder is shown. */
    method RefreshTestExplorer()
      modifies this`discoveredTests
      ensures discoveredTests == Some([])
      ensures Cases() == {}
    {
      discoveredTests := Some([]);
    }

    /** `onDicoveredTest`: the published list replaces the old one wholesale. */
    method OnDiscoveredTest(testNodeList: seq<TestNode>)
      modifies this`discoveredTests
      ensures discoveredTests == Some(testNodeList)
    {
      discoveredTests := Some(testNodeList);
    }

    /**
      `discoverTests`: the walk of the finder, then one fresh suite per file in file order,
      with the file's test functions sorted by name as children; the list is published.
     */
    method DiscoverTests(uri: Uri, listing: Uri -> seq<TD.FsEntry>, symbolsOf: Uri -> seq<SymbolInformation>,
                         cmp: (string, string) -> int, join: (string, string) -> string)
      returns (published: seq<TestNode>)
      ensures TD.SuitesMatch(published, TD.GetGoTestFiles(uri, listing(uri), join), symbolsOf, cmp)
      ensures forall n :: n in published ==> fresh(n) && !n.isLoading && n.testResult.None?
    {
      var items := TF.GetGoTestFiles(uri, listing(uri), join);
      published := TD.BuildSuites(items, symbolsOf, cmp);
    }

    /**
      `updateTestResult`: the case reached by the result's uri and function name takes the
      result and stops loading. Every other case is left as it was; a miss changes nothing.
     */
    method UpdateTestResult(testResult: TestResult) returns (ok: bool)
      modifies Cases()
      ensures ok <==> !LookupFails(Some(testResult.uri))
      ensures var t := Target(Some(testResult.uri), testResult.functionName);
        t.Some? ==> t.value.testResult == Some(testResult) && !t.value.isLoading
      ensures var t := Target(Some(testResult.uri), testResult.functionName);
        forall n :: n in Cases() && Some(n) != t ==>
          n.testResult == old(n.testResult) && n.isLoading == old(n.isLoading)
    {
      if discoveredTests.None? {
        return false;
      }
      var nodes := discoveredTests.value;
      var index := FindByUri(nodes, Some(testResult.uri));
      if index > -1 {
        var children := nodes[index].children;
        if children.None? {
          return false;
        }
        var index2 := FindByName(children.value, testResult.functionName);
        if index2 > -1 {
          assert nodes[index] in nodes && children.value[index2] in children.value;
          children.value[index2].SetTestResult(testResult);
        }
      }
      return true;
    }

    /**
      `setLoading`: the case reached by the node's uri and name starts loading; no other
      node changes, no result changes, and a miss is a no-op.
     */
    method SetLoading(testNode: TestNode) returns (ok: bool)
      modifies Cases()
      ensures ok <==> !LookupFails(testNode.uri)
      ensures var t := Target(testNode.uri, testNode.name);
        t.Some? ==> t.value.isLoading
      ensures forall n :: n in Cases() ==> n.testResult == old(n.testResult)
      ensures var t := Target(testNode.uri, testNode.name);
        forall n :: n in Cases() && Some(n) != t ==> n.isLoading == old(n.isLoading)
    {
      if discoveredTests.None? {
        return false;
      }
      var nodes := discoveredTests.value;
      var index := FindByUri(nodes, testNode.uri);
      if index > -1 {
        var children := nodes[index].children;
        if children.None? {
          return false;
        }
        var index2 := FindByName(children.value, testNode.name);
        if index2 > -1 {
          assert nodes[index] in nodes && children.value[index2] in children.value;
          children.value[index2].SetLoading();
        }
      }
      return true;
    }

    /**
      `setAlloading`: every child of every top-level node with children is marked as
      loading, and no result changes. Only the cases can change, so a top-level node that
      is not also a case keeps its loading flag.
     */
    method SetAllLoading() returns (ok: bool)
      modifies Cases()
      ensures ok <==> discoveredTests.Some?
      ensures forall n :: n in Cases() ==> n.isLoading && n.testResult == old(n.testResult)
    {
      if discoveredTests.None? {
        return false;
      }
      var suites := discoveredTests.value;
      var i := 0;
      while i < |suites|
        invariant 0 <= i <= |suites|
        invariant forall k, c :: 0 <= k < i && suites[k].children.Some? && c in suites[k].children.value ==> c.isLoading
        invariant forall n :: n in Cases() ==> n.testResult == old(n.testResult)
      {
        var children := suites[i].children;
        if children.Some? && |children.value| > 0 {
          MarkAllLoading(children.value);
        }
        i := i + 1;
      }
      return true;
    }
  }
}
