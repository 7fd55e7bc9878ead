/** The finite part of float64: every operation is the exact real result
    rounded, and a float survives being printed and read back. */
module Float64 {
  import opened Wrappers
  import Json

  function Times(x: real, y: real): real { x * y }

  /** `rnd` rounds an exact result to a float; `show` and `read` are the
      shortest-form printer and the parser of the JSON codec. */
  datatype Fp = Fp(isFloat: real -> bool, rnd: real -> real,
                   show: real -> string, read: string -> Option<real>)
  {
    function Add(x: real, y: real): real { rnd(x + y) }
    function Mul(x: real, y: real): real { rnd(Times(x, y)) }
    function Div(x: real, y: real): real requires y != 0.0 { rnd(x / y) }
    function OfInt(n: nat): real { rnd(n as real) }

    /** What is assumed of the hardware and of strconv. */
    ghost predicate Sound() {
      && isFloat(0.0)
      && (forall x :: isFloat(rnd(x)))
      && (forall x :: isFloat(x) ==> Json.Number(show(x)) && read(show(x)) == Some(x))
    }
  }
}
