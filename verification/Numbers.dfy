// The smaller and the larger of two numbers.
module Numbers {
  function Min(a: int, b: int): (r: int)
    ensures r <= a && r <= b && r in {a, b}
  {
    if a < b then a else b
  }

  function Max(a: int, b: int): (r: int)
    ensures a <= r && b <= r && r in {a, b}
  {
    if a < b then b else a
  }

  function RealMin(a: real, b: real): (r: real)
    ensures r <= a && r <= b && (r == a || r == b)
  {
    if a < b then a else b
  }

  function RealMax(a: real, b: real): (r: real)
    ensures a <= r && b <= r && (r == a || r == b)
  {
    if a < b then b else a
  }
}
