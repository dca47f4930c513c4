/** The result bits and codes a vertex leaves behind, as the executor stores them. */
module VertexResults {
  type VertexResult = bv8

  const V_RESULT_INVALID: VertexResult := 0
  const V_RESULT_OK: VertexResult := 1
  const V_RESULT_ERR: VertexResult := 2
  const V_RESULT_SKIP: VertexResult := 4
  const V_RESULT_ALL: VertexResult := 7

  const V_CODE_INVALID := 0
  const V_CODE_SKIP := 3

  /** The test one dependency slot has to pass before a vertex may run. */
  predicate Meets(result: VertexResult, expected: VertexResult) {
    result != V_RESULT_INVALID && result & expected != 0
  }

  type Uint32 = x: int | 0 <= x < 0x1_0000_0000

  /** Assigning a size to a 32-bit counter drops the high bits. */
  function Narrow(n: nat): Uint32 {
    n % 0x1_0000_0000
  }

  /** `fetch_sub(1)` on an unsigned 32-bit counter, which wraps below zero. */
  function Decrement(x: Uint32): Uint32 {
    if x == 0 then 0xFFFF_FFFF else x - 1
  }
}
