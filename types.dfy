/**
 * The closed kind/value model of the interpreter (eval/types.go).
 *
 * The Go `Value` struct pairs a `Type` tag with an untyped payload.  Here the
 * pair is one sum type whose constructor is the tag; `TypeOf` reads the tag back.
 * The same values also stand for the dynamic Go values (`interface{}`) that the
 * evaluators compute: a Go `int` is `VInt`, a `[]string` slice is `VArray`.
 */
module Types {
  /** The `Type` enumeration; `Ordinal` gives the `iota` number of each tag. */
  datatype Type = Invalid | Bool | Int | Int64 | Float32 | Float64 | String | Array

  function Ordinal(t: Type): (n: nat)
    ensures n < 8
    ensures n == 0 <==> t == Invalid
  {
    match t
    case Invalid => 0
    case Bool => 1
    case Int => 2
    case Int64 => 3
    case Float32 => 4
    case Float64 => 5
    case String => 6
    case Array => 7
  }

  /** The inverse of `Ordinal` on 0..7. */
  function FromOrdinal(n: nat): (t: Type)
    requires n < 8
  {
    if n == 0 then Invalid
    else if n == 1 then Bool
    else if n == 2 then Int
    else if n == 3 then Int64
    else if n == 4 then Float32
    else if n == 5 then Float64
    else if n == 6 then String
    else Array
  }

  /** The tags are numbered 0..7 without gaps or repetitions. */
  lemma OrdinalBijective(t: Type, n: nat)
    requires n < 8
    ensures FromOrdinal(Ordinal(t)) == t
    ensures Ordinal(FromOrdinal(n)) == n
  {
  }

  /** The Go name of a tag, as it appears in the `ASTType` table. */
  function Name(t: Type): string
  {
    match t
    case Invalid => "invalid"
    case Bool => "bool"
    case Int => "int"
    case Int64 => "int64"
    case Float32 => "float32"
    case Float64 => "float64"
    case String => "string"
    case Array => "array"
  }

  /** The `ASTType` table from type names written in a scanspec to tags. */
  const ASTType: map<string, Type> :=
    map["bool" := Bool, "int" := Int, "int64" := Int64,
        "float32" := Float32, "float64" := Float64, "string" := String]

  /** A tag is a scalar tag when a declared scalar can have it. */
  predicate IsScalar(t: Type)
  {
    t in {Bool, Int, Int64, Float32, Float64, String}
  }

  /**
   * `ASTType` maps exactly the six scalar names, each to the tag of the same
   * name; no name maps to `Invalid` or `Array`.
   */
  lemma ASTTypeTable(name: string)
    ensures name in ASTType <==> name in {"bool", "int", "int64", "float32", "float64", "string"}
    ensures name in ASTType ==> Name(ASTType[name]) == name && IsScalar(ASTType[name])
    ensures name in ASTType ==> ASTType[name] != Invalid && ASTType[name] != Array
  {
  }

  /** Every scalar tag has a name in the table. */
  lemma ASTTypeOnto(t: Type)
    requires IsScalar(t)
    ensures Name(t) in ASTType && ASTType[Name(t)] == t
  {
  }

  /** Precision of a floating-point kind. */
  datatype Width = W32 | W64

  /**
   * Floating-point numbers are kept symbolic: a term records how the number
   * was obtained (a literal or token, a conversion from an integer or from the
   * other width, a sum, a difference or a negation) without giving it an IEEE
   * meaning.  Comparisons of floats are answered by an oracle (see `Eval.Prims`).
   */
  datatype Float =
    | FToken(width: Width, id: int)
    | FOfInt(width: Width, n: int)
    | FConv(width: Width, x: Float)
    | FAdd(width: Width, x: Float, y: Float)
    | FSub(width: Width, x: Float, y: Float)
    | FNeg(width: Width, x: Float)

  /** A value: a kind tag together with its payload; `VInvalid` is the zero `Value{}`. */
  datatype Value =
    | VInvalid
    | VBool(b: bool)
    | VInt(i: int)
    | VInt64(i: int)
    | VFloat32(f: Float)
    | VFloat64(f: Float)
    | VString(s: string)
    | VArray(elems: seq<Value>)

  /** The kind tag of a value. */
  function TypeOf(v: Value): (t: Type)
    ensures t == Invalid <==> v == VInvalid
    ensures t == Array <==> v.VArray?
  {
    match v
    case VInvalid => Invalid
    case VBool(_) => Bool
    case VInt(_) => Int
    case VInt64(_) => Int64
    case VFloat32(_) => Float32
    case VFloat64(_) => Float64
    case VString(_) => String
    case VArray(_) => Array
  }

  /** Go's `int` and `int64` are both 64-bit two's complement integers. */
  const Two63: int := 0x8000_0000_0000_0000
  const Two64: int := 0x1_0000_0000_0000_0000

  predicate InRange64(n: int)
  {
    -Two63 <= n < Two63
  }

  /** Reduction of an exact integer to the 64-bit range, as Go's `+`, `-` and negation wrap. */
  function Wrap64(n: int): (r: int)
    ensures InRange64(r)
    ensures (r - n) % Two64 == 0
    ensures InRange64(n) ==> r == n
  {
    var m := (n + Two63) % Two64;
    assert (m - Two63 - n) == ((n + Two63) % Two64) - (n + Two63);
    m - Two63
  }

  /** A path of in-range indices into nested slices. */
  predicate ValidPath(v: Value, path: seq<int>)
  {
    |path| == 0 || (v.VArray? && 0 <= path[0] < |v.elems| && ValidPath(v.elems[path[0]], path[1..]))
  }

  /** The element a valid path leads to. */
  function At(v: Value, path: seq<int>): Value
    requires ValidPath(v, path)
  {
    if |path| == 0 then v else At(v.elems[path[0]], path[1..])
  }

  /** Some valid path of `n` indices leads from `v` to `x`. */
  ghost predicate Reaches(v: Value, x: Value, n: nat)
  {
    exists path :: ValidPath(v, path) && |path| == n && At(v, path) == x
  }

}
