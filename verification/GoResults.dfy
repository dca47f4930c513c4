/** The result codes of the Go version. */
module GoResults {
  const RESULT_OK := 1
  const RESULT_ERR := 2
  const RESULT_SKIP := 3
  const RESULT_ALL := 4

  /** What an edge may expect. */
  predicate IsExpectation(e: int) {
    e == RESULT_OK || e == RESULT_ERR || e == RESULT_ALL
  }
}
