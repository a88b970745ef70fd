/** Integer helpers. */
module Numbers {

  function Abs(x: int): nat { if x < 0 then -x else x }
  function Min(x: int, y: int): int { if x <= y then x else y }
  function Max(x: int, y: int): int { if x <= y then y else x }
}
