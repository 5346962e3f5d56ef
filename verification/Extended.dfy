/** The reals with the two infinities and not-a-number, with the arithmetic of IEEE 754
    for them. Finite arithmetic is exact. */
module Extended {
  datatype Ext = Fin(r: real) | PosInf | NegInf | NaN {
    function Negated(): Ext {
      match this
      case Fin(x) => Fin(-x)
      case PosInf => NegInf
      case NegInf => PosInf
      case NaN => NaN
    }

    function Plus(o: Ext): Ext {
      if NaN? || o.NaN? then NaN
      else if Fin? && o.Fin? then Fin(r + o.r)
      else if Fin? then o
      else if o.Fin? || this == o then this
      else NaN
    }

    function Minus(o: Ext): Ext {
      Plus(o.Negated())
    }

    function Sign(): int {
      match this
      case Fin(x) => if x > 0.0 then 1 else if x < 0.0 then -1 else 0
      case PosInf => 1
      case NegInf => -1
      case NaN => 0
    }

    function Times(o: Ext): Ext {
      if NaN? || o.NaN? then NaN
      else if Fin? && o.Fin? then Fin(r * o.r)
      else if Sign() == 0 || o.Sign() == 0 then NaN
      else if Sign() == o.Sign() then PosInf
      else NegInf
    }

    /** Comparisons with not-a-number are false. */
    predicate Gt(o: Ext) {
      match (this, o)
      case (Fin(x), Fin(y)) => x > y
      case (PosInf, Fin(_)) => true
      case (PosInf, NegInf) => true
      case (Fin(_), NegInf) => true
      case _ => false
    }

    predicate AtLeast(o: Ext) {
      Gt(o) || (this == o && !NaN?)
    }
  }

  /** The natural logarithm (of positive reals) and the square root (of reals that are not
      negative). */
  datatype Functions = Functions(log: real -> real, sqrt: real -> real)

  /** All that is used of them. */
  ghost predicate Lawful(f: Functions) {
    f.sqrt(0.0) == 0.0 && forall x {:trigger f.sqrt(x)} :: x > 0.0 ==> f.sqrt(x) > 0.0
  }

  function Root(f: Functions, e: Ext): Ext {
    match e
    case Fin(x) => if x < 0.0 then NaN else Fin(f.sqrt(x))
    case PosInf => PosInf
    case NegInf => NaN
    case NaN => NaN
  }

  function Divided(e: Ext, d: real): Ext
    requires d > 0.0
  {
    if e.Fin? then Fin(e.r / d) else e
  }
}
