/** The larger and the smaller of two integers. */
module IntegerArithmetic {
  function Later(a: int, b: int): int {
    if a < b then b else a
  }

  function Earlier(a: int, b: int): int {
    if a < b then a else b
  }
}
