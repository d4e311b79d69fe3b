/** The lesser, the greater and the magnitude of integers. */
module Numbers {
  function Min(a: int, b: int): (m: int) {
    if a <= b then a else b
  }

  function Max(a: int, b: int): (m: int) {
    if a < b then b else a
  }

  function Abs(x: int): (r: nat) {
    if x < 0 then -x else x
  }
}
