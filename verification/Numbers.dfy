/** Small arithmetic shared by every component. */
module Numbers {

  function Min(x: int, y: int): int {
    if x <= y then x else y
  }

  function Max(x: int, y: int): int {
    if x <= y then y else x
  }

  function MaxReal(x: real, y: real): real {
    if x <= y then y else x
  }

  function MinReal(x: real, y: real): real {
    if x <= y then x else y
  }

  /** Round up. */
  function Ceil(x: real): (r: int)
    ensures r as real - 1.0 < x <= r as real
  {
    if x.Floor as real == x then x.Floor else x.Floor + 1
  }
}
