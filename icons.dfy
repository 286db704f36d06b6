/** The icon file names of src/icons.ts. */
module Icons {
  const Loading: string := "spinner.svg"
  const TestSuit: string := "testSuit.svg"
  const Test: string := "test.svg"
  const TestPassed: string := "testPassed.svg"
  const TestFailed: string := "testFailed.svg"
}
