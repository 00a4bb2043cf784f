/** Division of C: towards zero. */
module CDivision {
  function CDiv(a: int, b: int): int
    requires b != 0
  {
    var q := (if a < 0 then -a else a) / (if b < 0 then -b else b);
    if (a < 0) == (b < 0) then q else -q
  }

  function CRem(a: int, b: int): int
    requires b != 0
  {
    a - CDiv(a, b) * b
  }
}
