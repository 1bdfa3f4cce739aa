/**
 * The coercions used by the evaluators (eval/coerce.go).  Each returns the
 * converted value and an ok flag; on failure the value is the target's zero.
 */
module Coerce {
  import opened Types

  function ToBool(v: Value): (r: (bool, bool))
    ensures r.1 <==> v.VBool?
    ensures r.1 ==> r.0 == v.b
    ensures !r.1 ==> r.0 == false
  {
    match v
    case VBool(b) => (b, true)
    case _ => (false, false)
  }

  /** `int` passes unchanged and `int64` is converted with `int(v)`; both are 64-bit. */
  function ToInt(v: Value): (r: (int, bool))
    ensures r.1 <==> v.VInt? || v.VInt64?
    ensures r.1 ==> r.0 == v.i
    ensures !r.1 ==> r.0 == 0
  {
    match v
    case VInt(i) => (i, true)
    case VInt64(i) => (i, true)
    case _ => (0, false)
  }

  /** `int` is widened and `int64` passes unchanged. */
  function ToInt64(v: Value): (r: (int, bool))
    ensures r.1 <==> v.VInt? || v.VInt64?
    ensures r.1 ==> r.0 == v.i
    ensures !r.1 ==> r.0 == 0
  {
    match v
    case VInt(i) => (i, true)
    case VInt64(i) => (i, true)
    case _ => (0, false)
  }

  /** The float conversion `float32(v)` / `float64(v)` of a numeric value. */
  function FloatOf(w: Width, v: Value): Float
    requires v.VInt? || v.VInt64? || v.VFloat32? || v.VFloat64?
  {
    match v
    case VInt(i) => FOfInt(w, i)
    case VInt64(i) => FOfInt(w, i)
    case VFloat32(f) => if w == W32 then f else FConv(w, f)
    case VFloat64(f) => if w == W64 then f else FConv(w, f)
  }

  /**
   * Only an `int` input reports ok.  An `int64`, `float32` or `float64` input is
   * still converted but reported as not ok; anything else gives `0, false`.
   */
  function ToFloat32(v: Value): (r: (Float, bool))
    ensures r.1 <==> v.VInt?
    ensures (v.VInt? || v.VInt64? || v.VFloat32? || v.VFloat64?) ==> r.0 == FloatOf(W32, v)
    ensures !(v.VInt? || v.VInt64? || v.VFloat32? || v.VFloat64?) ==> r.0 == FOfInt(W32, 0)
  {
    match v
    case VInt(i) => (FOfInt(W32, i), true)
    case VInt64(i) => (FOfInt(W32, i), false)
    case VFloat32(f) => (f, false)
    case VFloat64(f) => (FConv(W32, f), false)
    case _ => (FOfInt(W32, 0), false)
  }

  function ToFloat64(v: Value): (r: (Float, bool))
    ensures r.1 <==> v.VInt?
    ensures (v.VInt? || v.VInt64? || v.VFloat32? || v.VFloat64?) ==> r.0 == FloatOf(W64, v)
    ensures !(v.VInt? || v.VInt64? || v.VFloat32? || v.VFloat64?) ==> r.0 == FOfInt(W64, 0)
  {
    match v
    case VInt(i) => (FOfInt(W64, i), true)
    case VInt64(i) => (FOfInt(W64, i), false)
    case VFloat32(f) => (FConv(W64, f), false)
    case VFloat64(f) => (f, false)
    case _ => (FOfInt(W64, 0), false)
  }

  /**
   * `toString` is called by the evaluators but its body is not part of this
   * model; it is taken to accept exactly the string values.
   */
  function ToString(v: Value): (r: (string, bool))
    ensures r.1 <==> v.VString?
    ensures r.1 ==> r.0 == v.s
    ensures !r.1 ==> r.0 == ""
  {
    match v
    case VString(s) => (s, true)
    case _ => ("", false)
  }

  /** `toInt` and `toInt64` accept the same values and agree on the integer. */
  lemma IntCoercionsAgree(v: Value)
    ensures ToInt(v) == ToInt64(v)
  {
  }

  /**
   * The two float coercions accept the same values, a subset of what `toInt`
   * accepts: an `int64` is an integer for `toInt` but not for the float coercions.
   */
  lemma FloatCoercionsAgree(v: Value)
    ensures ToFloat32(v).1 == ToFloat64(v).1
    ensures ToFloat32(v).1 ==> ToInt(v).1
    ensures v.VInt64? ==> ToInt(v).1 && !ToFloat32(v).1
  {
  }
}
