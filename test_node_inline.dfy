/**
  The second copy of the test node, src/testNode1.ts: the same fields and setters,
  with the icon file names written inline instead of taken from the icon table.
 */
module TestNodesInline {
  import opened Wrappers
  import opened VsCode
  import opened TestResults
  import TestNodes

  class TestNode {
    const name: string
    const uri: Option<Uri>
    const children: Option<seq<TestNode>>
    var testResult: Option<TestResult>
    var isLoading: bool

    constructor (name: string, uri: Option<Uri>, children: Option<seq<TestNode>>)
      ensures this.name == name && this.uri == uri && this.children == children
      ensures testResult == None && !isLoading
    {
      this.name := name;
      this.uri := uri;
      this.children := children;
      testResult := None;
      isLoading := false;
    }

    predicate IsTestSuite() {
      children.Some? && |children.value| > 0
    }

    function Icon(): string
      reads this
    {
      if isLoading then "spinner.svg"
      else if IsTestSuite() then "testSuit.svg"
      else if testResult.None? then "test.svg"
      else if testResult.value.passed then "testPassed.svg"
      else "testFailed.svg"
    }

    method SetTestResult(result: TestResult)
      modifies this
      ensures testResult == Some(result) && !isLoading
    {
      testResult := Some(result);
      LoadingCompleted();
    }

    /** `setLoading` and `loadingCompleted` only toggle the loading flag. */
    method SetLoading()
      modifies this`isLoading
      ensures isLoading
    {
      isLoading := true;
    }

    method LoadingCompleted()
      modifies this`isLoading
      ensures !isLoading
    {
      isLoading := false;
    }
  }

  /**
    The two copies agree: in the same state (loading flag, result, and whether the node
    has children) both show the same icon file.
   */
  lemma IconsAgree(a: TestNode, b: TestNodes.TestNode)
    requires a.isLoading == b.isLoading && a.testResult == b.testResult
    requires a.IsTestSuite() == b.IsTestSuite()
    ensures a.Icon() == b.Icon()
  {
  }
}
