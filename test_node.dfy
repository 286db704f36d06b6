/**
  A node of the test tree, from src/testNode.ts: a file (a suite when it has test
  cases) or a single test function. Its name, uri and children are fixed when it is
  made; its last result and its loading flag change, and the icon shows them.
 */
module TestNodes {
  import opened Wrappers
  import opened VsCode
  import opened TestResults
  import Icons

  class TestNode {
    const name: string
    /** Absent only for the "Loading..." placeholder. */
    const uri: Option<Uri>
    const children: Option<seq<TestNode>>
    var testResult: Option<TestResult>
    var isLoading: bool

    /** A fresh node has no result and is not loading (both fields start `undefined`). */
    constructor (name: string, uri: Option<Uri>, children: Option<seq<TestNode>>)
      ensures this.name == name && this.uri == uri && this.children == children
      ensures testResult == None && !isLoading
    {
      this.name := name;
      this.uri := uri;
      this.children := children;
      testResult := None;
      isLoading := false;
    }

    /** `isTestSuite`: the children are present and there is at least one. */
    predicate IsTestSuite() {
      children.Some? && |children.value| > 0
    }

    /** `icon`: loading, then suite, then never run, then passed, then failed. */
    function Icon(): string
      reads this
    {
      if isLoading then Icons.Loading
      else if IsTestSuite() then Icons.TestSuit
      else if testResult.None? then Icons.Test
      else if testResult.value.passed then Icons.TestPassed
      else Icons.TestFailed
    }

    /** The `testResult` setter: stores the result and completes loading. */
    method SetTestResult(result: TestResult)
      modifies this
      ensures testResult == Some(result) && !isLoading
      ensures Icon() == if IsTestSuite() then Icons.TestSuit
                        else if result.passed then Icons.TestPassed else Icons.TestFailed
    {
      testResult := Some(result);
      LoadingCompleted();
    }

    /** `setLoading`: only the loading flag changes, and the icon becomes the spinner. */
    method SetLoading()
      modifies this`isLoading
      ensures isLoading && Icon() == Icons.Loading
    {
      isLoading := true;
    }

    /** `loadingCompleted`: only the loading flag changes. */
    method LoadingCompleted()
      modifies this`isLoading
      ensures !isLoading
    {
      isLoading := false;
    }
  }

  /**
    The icon tells the state back: each icon is shown in exactly one case of the
    precedence chain, so a suite's icon never reflects its children or its own result.
   */
  lemma IconMeaning(n: TestNode)
    ensures n.Icon() == Icons.Loading <==> n.isLoading
    ensures n.Icon() == Icons.TestSuit <==> !n.isLoading && n.IsTestSuite()
    ensures n.Icon() == Icons.Test <==> !n.isLoading && !n.IsTestSuite() && n.testResult.None?
    ensures n.Icon() == Icons.TestPassed <==>
      !n.isLoading && !n.IsTestSuite() && n.testResult.Some? && n.testResult.value.passed
    ensures n.Icon() == Icons.TestFailed <==>
      !n.isLoading && !n.IsTestSuite() && n.testResult.Some? && !n.testResult.value.passed
  {
  }
}
