/**
 * Runtime values shared by every component: an optional value (the
 * source's `None`), the source's two kinds of numbers, and the decimal
 * rendering of integers used in pattern texts.
 */
module Values {

  datatype Option<+T> = None | Some(value: T)

  /**
   * A number as the bot stores and compares it.  Integer literals stay
   * integers, a literal such as 0.75 is a float, and `int * float` is a
   * float even when its value is whole.  Whether a number is an integer
   * decides whether a stat accumulates or is overwritten, so the kind is
   * kept beside the value.  Floats are exact here (every float the core
   * produces is a multiple of one quarter).
   */
  datatype Num = Int(i: int) | Float(f: real) {
    function Value(): real {
      match this
      case Int(i) => i as real
      case Float(f) => f
    }
  }

  /** `n * x` for an integer `n`: the product keeps `x`'s kind. */
  function Times(n: int, x: Num): (r: Num)
    ensures r.Value() == n as real * x.Value()
    ensures r.Int? <==> x.Int?
  {
    match x
    case Int(i) => Int(n * i)
    case Float(f) => Float(n as real * f)
  }

  function DigitChar(d: nat): (c: char)
    requires d < 10
    ensures '0' <= c <= '9'
  {
    (48 + d) as char
  }

  /** Decimal rendering of a natural number, most significant digit first, no leading zeros. */
  function NatToString(n: nat): (s: string)
    ensures |s| >= 1
    ensures forall k :: 0 <= k < |s| ==> '0' <= s[k] <= '9'
    ensures n > 0 ==> s[0] != '0'
    decreases n
  {
    if n < 10 then [DigitChar(n)] else NatToString(n / 10) + [DigitChar(n % 10)]
  }

  /** Decimal rendering of an integer, with a leading '-' when it is negative. */
  function IntToString(n: int): (s: string)
    ensures |s| >= 1
    ensures n < 0 <==> s[0] == '-'
  {
    if n < 0 then "-" + NatToString(-n) else NatToString(n)
  }
}
