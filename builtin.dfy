/** The builtin function table (eval/builtin.go): `len` and `re`. */
module Builtin {
  import opened Types
  import opened Errors

  /**
   * Go's `regexp` package as an oracle: whether a pattern compiles, and whether
   * a compiled pattern matches a subject.
   */
  datatype Regexp = Regexp(compiles: string -> bool, matches: (string, string) -> bool)

  /** The names the `Functions` table holds. */
  const Names: set<string> := {"len", "re"}

  /** The message of Go's run-time panic for `args[i]` when `len(args) == n`. */
  function IndexPanic(i: int, n: int): string
  {
    "runtime error: index out of range [" + Decimal(i) + "] with length " + Decimal(n)
  }

  /** The message of Go's run-time panic for calling a nil function value. */
  const NilCall: string := "runtime error: invalid memory address or nil pointer dereference"

  /**
   * `Functions[name](args...)`.  A name outside the table yields a nil function
   * whose call panics with a run-time error; a missing argument panics with an
   * index error.
   */
  function Call(name: string, args: seq<Value>, rx: Regexp): (r: Outcome<Value>)
    ensures r.Ok? ==> name in Names
    ensures name !in Names ==> r == Fail(Runtime(NilCall))
    ensures !r.Crash?
  {
    if name == "len" then Len(args)
    else if name == "re" then Re(args, rx)
    else Fail(Runtime(NilCall))
  }

  /** `len(s)`: the length of a string; any other first argument is an invalid argument. */
  function Len(args: seq<Value>): (r: Outcome<Value>)
    ensures |args| == 0 ==> r == Fail(Runtime(IndexPanic(0, 0)))
    ensures |args| > 0 ==> (r.Ok? <==> args[0].VString?)
    ensures |args| > 0 && args[0].VString? ==> r == Ok(VInt(|args[0].s|))
    ensures |args| > 0 && !args[0].VString? ==> r == Fail(InvalidArgument)
  {
    if |args| == 0 then Fail(Runtime(IndexPanic(0, 0)))
    else match args[0]
      case VString(s) => Ok(VInt(|s|))
      case _ => Fail(InvalidArgument)
  }

  /**
   * `re(s, p)`: the subject is checked first, then the pattern; a pattern that
   * does not compile is reported before any matching; the result is a bool.
   */
  function Re(args: seq<Value>, rx: Regexp): (r: Outcome<Value>)
    ensures r.Ok? <==> |args| >= 2 && args[0].VString? && args[1].VString? && rx.compiles(args[1].s)
    ensures r.Ok? ==> r.value == VBool(rx.matches(args[1].s, args[0].s))
    ensures |args| > 0 && !args[0].VString? ==> r == Fail(InvalidArgument)
    ensures |args| > 1 && args[0].VString? && !args[1].VString? ==> r == Fail(InvalidArgument)
    ensures |args| > 1 && args[0].VString? && args[1].VString? && !rx.compiles(args[1].s) ==>
              r == Fail(RegexpSyntax(args[1].s))
  {
    if |args| == 0 then Fail(Runtime(IndexPanic(0, 0)))
    else if !args[0].VString? then Fail(InvalidArgument)
    else if |args| == 1 then Fail(Runtime(IndexPanic(1, 1)))
    else if !args[1].VString? then Fail(InvalidArgument)
    else if !rx.compiles(args[1].s) then Fail(RegexpSyntax(args[1].s))
    else Ok(VBool(rx.matches(args[1].s, args[0].s)))
  }

  /** `len` is additive over string concatenation. */
  lemma LenAdditive(a: string, b: string)
    ensures Len([VString(a + b)]).value.i == Len([VString(a)]).value.i + Len([VString(b)]).value.i
  {
  }

  /** Extra arguments are ignored: only the first one (two for `re`) is looked at. */
  lemma ExtraArgumentsIgnored(name: string, args: seq<Value>, extra: seq<Value>, rx: Regexp)
    requires name == "len" ==> |args| >= 1
    requires name == "re" ==> |args| >= 2
    ensures Call(name, args + extra, rx) == Call(name, args, rx)
  {
    if name == "len" {
      assert (args + extra)[0] == args[0];
    } else if name == "re" {
      assert (args + extra)[0] == args[0] && (args + extra)[1] == args[1];
    }
  }
}
