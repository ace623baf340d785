/** JavaScript numbers as the simulation uses them: exact reals extended with
    the infinities and NaN that a division by zero produces. Rounding of
    IEEE-754 doubles is not modelled. */
module JsNum {

  datatype Num = Fin(r: real) | PosInf | NegInf | NaN {
    predicate IsFinite() { Fin? }
  }

  /** `x / y` on JavaScript numbers. */
  function Div(x: Num, y: Num): (q: Num)
    ensures x.Fin? && y.Fin? && y.r != 0.0 ==> q == Fin(x.r / y.r)
    ensures x.Fin? && y == Fin(0.0) ==> (x.r > 0.0 <==> q == PosInf) && (x.r == 0.0 <==> q == NaN)
  {
    match (x, y)
    case (Fin(a), Fin(b)) =>
      if b != 0.0 then Fin(a / b)
      else if a > 0.0 then PosInf
      else if a < 0.0 then NegInf
      else NaN
    case (Fin(_), _) => if y.NaN? then NaN else Fin(0.0)
    case (NaN, _) => NaN
    case (_, Fin(b)) =>
      if b == 0.0 then x
      else if b > 0.0 then x
      else Neg(x)
    case (_, _) => NaN
  }

  function Neg(x: Num): Num {
    match x
    case Fin(a) => Fin(-a)
    case PosInf => NegInf
    case NegInf => PosInf
    case NaN => NaN
  }

  function Add(x: Num, y: Num): (s: Num)
    ensures x.Fin? && y.Fin? ==> s == Fin(x.r + y.r)
    ensures x.NaN? || y.NaN? ==> s.NaN?
  {
    if x.Fin? && y.Fin? then Fin(x.r + y.r) else
    match (x, y)
    case (NaN, _) => NaN
    case (_, NaN) => NaN
    case (Fin(_), _) => y
    case (_, Fin(_)) => x
    case (_, _) => if x == y then x else NaN
  }

  function Sub(x: Num, y: Num): Num {
    Add(x, Neg(y))
  }

  function Mul(x: Num, y: Num): (p: Num)
    ensures x.Fin? && y.Fin? ==> p == Fin(x.r * y.r)
    ensures x.NaN? || y.NaN? ==> p.NaN?
  {
    if x.Fin? && y.Fin? then Fin(x.r * y.r) else
    match (x, y)
    case (NaN, _) => NaN
    case (_, NaN) => NaN
    case (Fin(a), _) => if a == 0.0 then NaN else if a > 0.0 then y else Neg(y)
    case (_, Fin(b)) => if b == 0.0 then NaN else if b > 0.0 then x else Neg(x)
    case (_, _) => if x == y then PosInf else NegInf
  }

  /** `x < y`: false whenever either side is NaN. */
  predicate Lt(x: Num, y: Num) {
    match (x, y)
    case (NaN, _) => false
    case (_, NaN) => false
    case (Fin(a), Fin(b)) => a < b
    case (NegInf, _) => !y.NegInf?
    case (_, PosInf) => !x.PosInf?
    case (_, _) => false
  }

  predicate Gt(x: Num, y: Num) { Lt(y, x) }

  /** Strict `===` on numbers: NaN is not equal to itself. */
  predicate StrictEq(x: Num, y: Num) { !x.NaN? && x == y }

  function Max(x: Num, y: Num): Num {
    if x.NaN? || y.NaN? then NaN else if Lt(x, y) then y else x
  }

  function Min(x: Num, y: Num): Num {
    if x.NaN? || y.NaN? then NaN else if Lt(y, x) then y else x
  }

  function Floor(x: Num): Num {
    if x.Fin? then Fin(x.r.Floor as real) else x
  }

  function Ceil(x: Num): Num {
    if x.Fin? then Fin(CeilReal(x.r) as real) else x
  }

  function Abs(x: Num): Num {
    match x
    case Fin(a) => Fin(if a < 0.0 then -a else a)
    case NaN => NaN
    case _ => PosInf
  }

  /** `Math.ceil` on a finite number. */
  function CeilReal(x: real): (c: int)
    ensures c as real >= x && (c - 1) as real < x
  {
    if x.Floor as real == x then x.Floor else x.Floor + 1
  }

  /** Division by zero yields an infinity for a non-zero numerator and NaN for
      a zero numerator, and every ordering test against NaN is false. */
  lemma DivByZeroOutcomes(a: real, t: real, s: Num)
    ensures a > 0.0 ==> Div(Fin(a), Fin(0.0)) == PosInf && Gt(Div(Fin(a), Fin(0.0)), Fin(t))
    ensures a == 0.0 ==> !Lt(Div(Fin(a), Fin(0.0)), s) && !Gt(Div(Fin(a), Fin(0.0)), s)
  {
  }
}
