/** Zero values and nested array construction (eval/zero.go). */
module Zero {
  import opened Types

  /**
   * The zero value of a tag: `false`, `0`, `0` or `""` for Bool, Int, Int64 and
   * String; every other tag, floats included, gets the empty `Value{}`.
   */
  function Zero(t: Type): (v: Value)
    ensures t in {Bool, Int, Int64, String} ==> TypeOf(v) == t
    ensures t !in {Bool, Int, Int64, String} ==> v == VInvalid
    ensures v == VBool(false) || v == VInt(0) || v == VInt64(0) || v == VString("") || v == VInvalid
  {
    match t
    case Bool => VBool(false)
    case Int => VInt(0)
    case Int64 => VInt64(0)
    case String => VString("")
    case _ => VInvalid
  }

  /**
   * `Shaped(v, t, sizes)`: `v` is a nest of arrays, `|sizes|` levels deep,
   * whose level k has `max(sizes[k], 0)` elements and whose leaves are `Zero(t)`.
   */
  predicate Shaped(v: Value, t: Type, sizes: seq<int>)
    decreases |sizes|
  {
    if |sizes| == 0 then v == Zero(t)
    else
      v.VArray? && |v.elems| == (if sizes[0] < 0 then 0 else sizes[0]) &&
      forall i :: 0 <= i < |v.elems| ==> Shaped(v.elems[i], t, sizes[1..])
  }

  /** Builds the array of the given sizes, appending one element at a time. */
  method MakeArray(t: Type, sizes: seq<int>) returns (v: Value)
    ensures Shaped(v, t, sizes)
    decreases |sizes|
  {
    if |sizes| == 0 {
      return Zero(t);
    }
    var r: seq<Value> := [];
    var i := 0;
    while i < sizes[0]
      invariant 0 <= i && |r| == i
      invariant i <= sizes[0] || (i == 0 && sizes[0] < 0)
      invariant forall k :: 0 <= k < i ==> Shaped(r[k], t, sizes[1..])
    {
      var e := MakeArray(t, sizes[1..]);
      r := r + [e];
      i := i + 1;
    }
    return VArray(r);
  }

  /** There is exactly one value of each shape: `MakeArray` is deterministic. */
  lemma {:induction false} ShapedUnique(v: Value, w: Value, t: Type, sizes: seq<int>)
    requires Shaped(v, t, sizes) && Shaped(w, t, sizes)
    ensures v == w
    decreases |sizes|
  {
    if |sizes| > 0 {
      forall i | 0 <= i < |v.elems|
        ensures v.elems[i] == w.elems[i]
      {
        ShapedUnique(v.elems[i], w.elems[i], t, sizes[1..]);
      }
    }
  }

  /** Following `|sizes|` in-range indices down a shaped value reaches `Zero(t)`. */
  function Leaf(v: Value, path: seq<nat>): Value
  {
    if |path| == 0 then v
    else if v.VArray? && path[0] < |v.elems| then Leaf(v.elems[path[0]], path[1..])
    else VInvalid
  }

  lemma {:induction false} ShapedLeaves(v: Value, t: Type, sizes: seq<int>, path: seq<nat>)
    requires Shaped(v, t, sizes)
    requires |path| == |sizes|
    requires forall k :: 0 <= k < |path| ==> path[k] < sizes[k]
    ensures Leaf(v, path) == Zero(t)
    decreases |sizes|
  {
    if |sizes| > 0 {
      ShapedLeaves(v.elems[path[0]], t, sizes[1..], path[1..]);
    }
  }

  /** A leading negative size gives an empty array rather than an error. */
  lemma NegativeSizeIsEmpty(v: Value, t: Type, sizes: seq<int>)
    requires |sizes| > 0 && sizes[0] < 0
    requires Shaped(v, t, sizes)
    ensures v == VArray([])
  {
  }

  /** The nesting depth of a value. */
  function Depth(v: Value): nat
  {
    if v.VArray? && |v.elems| > 0 then 1 + Depth(v.elems[0]) else if v.VArray? then 1 else 0
  }

  /** With positive sizes the nesting depth equals `|sizes|` (leaves are never arrays). */
  lemma {:induction false} ShapedDepth(v: Value, t: Type, sizes: seq<int>)
    requires Shaped(v, t, sizes)
    requires forall k :: 0 <= k < |sizes| ==> sizes[k] > 0
    ensures Depth(v) == |sizes|
    decreases |sizes|
  {
    if |sizes| > 0 {
      ShapedDepth(v.elems[0], t, sizes[1..]);
    }
  }
}
