/** Values shared by every component: optional results and a few real-number helpers. */
module Options {
  datatype Option<+T> = None | Some(value: T)

  function Max(a: real, b: real): (m: real)
    ensures m >= a && m >= b && m in {a, b}
  {
    if a >= b then a else b
  }

  function Abs(a: real): (m: real)
    ensures m >= 0.0 && m in {a, -a}
  {
    if a < 0.0 then -a else a
  }
}
