/**
 * The diagnostics of the interpreter and their messages (eval/error.go), and
 * the three ways an evaluation step can end: a value, an `error`, or a panic
 * whose value is not an `error` (which `Evaluate` does not recover).
 */
module Errors {
  import opened Wrappers

  newtype byte = x: int | 0 <= x < 256

  /** A line/column position, as in the `Cursor` struct. */
  datatype Cursor = Cursor(ln: int, col: int)

  /** The position of an error whose position field was left unset. */
  const NoPos: Cursor := Cursor(0, 0)

  /** The run-time error of a method call or field access through a nil pointer. */
  const NilDeref: string := "runtime error: invalid memory address or nil pointer dereference"

  datatype Error =
    | Undefined(pos: Cursor, name: string)
    | CantScanType
    | InvalidArgument
    | InvalidOperation(pos: Cursor)
    | NonIntegerIndex(pos: Cursor)
    | InvalidIndex(pos: Cursor, index: int, length: int)
    | CheckError(pos: Cursor, clause: int, cursor: Cursor)
    | ExpectedEOL(pos: Cursor, got: seq<byte>, cursor: Cursor)
    | UnexpectedEOL(pos: Cursor)
    | ExpectedEOF(pos: Cursor, token: seq<byte>)
    | UnexpectedEOF(pos: Cursor)
      /** A token the reader could not parse, at the position the reader gives it. */
    | BadParse(pos: Cursor, code: int)
      /** Any other error of the input reader or of the line scanner. */
    | ReadError(code: int)
      /** A pattern that `regexp.Compile` rejects. */
    | RegexpSyntax(pattern: string)
      /** An error made with `errors.New`. */
    | Message(text: string)
      /** A recovered run-time panic whose value is an `error` (nil dereference, `reflect.ValueError`, ...). */
    | Runtime(text: string)

  /** The end of a step: a result, a returned or panicked `error`, or an unrecovered panic. */
  datatype Outcome<T> = Ok(value: T) | Fail(err: Error) | Crash(reason: string)

  /** The decimal digits of a natural number, most significant first. */
  function Digits(n: nat): (s: string)
    ensures |s| > 0
    ensures forall i :: 0 <= i < |s| ==> '0' <= s[i] <= '9'
  {
    if n < 10 then [DigitChar(n)] else Digits(n / 10) + [DigitChar(n % 10)]
  }

  function DigitChar(d: nat): (c: char)
    requires d < 10
    ensures '0' <= c <= '9' && (c as int) - ('0' as int) == d
  {
    (('0' as int) + d) as char
  }

  /** `%d` formatting of an integer. */
  function Decimal(n: int): (s: string)
    ensures |s| > 0 && ':' !in s
  {
    if n < 0 then "-" + Digits(-n) else Digits(n)
  }

  /** The value of a non-empty string of decimal digits. */
  function ParseDigits(s: string): Option<nat>
  {
    if |s| == 0 then None
    else if !('0' <= s[|s| - 1] <= '9') then None
    else
      var d := (s[|s| - 1] as int) - ('0' as int);
      if |s| == 1 then Some(d)
      else match ParseDigits(s[..|s| - 1])
        case None => None
        case Some(p) => Some(p * 10 + d)
  }

  /** Reads back what `%d` wrote. */
  function ParseDecimal(s: string): Option<int>
  {
    if |s| > 0 && s[0] == '-' then
      match ParseDigits(s[1..])
      case None => None
      case Some(n) => var m: int := n; Some(-m)
    else ParseDigits(s)
  }

  lemma {:induction false} DigitsRoundTrip(n: nat)
    ensures ParseDigits(Digits(n)) == Some(n)
  {
    var s := Digits(n);
    if n >= 10 {
      var q, d := n / 10, n % 10;
      assert n == q * 10 + d;
      DigitsRoundTrip(q);
      assert s == Digits(q) + [DigitChar(d)];
      assert s[..|s| - 1] == Digits(q);
      assert s[|s| - 1] == DigitChar(d);
    }
  }

  /** Decimal formatting is inverted by `ParseDecimal`, so distinct integers print differently. */
  lemma DecimalRoundTrip(n: int)
    ensures ParseDecimal(Decimal(n)) == Some(n)
  {
    var s := Decimal(n);
    if n < 0 {
      var m: nat := -n;
      DigitsRoundTrip(m);
      assert s == "-" + Digits(m);
      assert s[1..] == Digits(m);
      assert ParseDigits(s[1..]) == Some(m);
    } else {
      DigitsRoundTrip(n);
      assert s == Digits(n);
      assert s[0] != '-';
    }
  }

  /** `%v` formatting of a byte slice: the decimal bytes, space separated, in brackets. */
  function ByteList(bs: seq<byte>): string
  {
    "[" + ByteWords(bs) + "]"
  }

  function ByteWords(bs: seq<byte>): string
  {
    if |bs| == 0 then ""
    else if |bs| == 1 then Decimal(bs[0] as int)
    else ByteWords(bs[..|bs| - 1]) + " " + Decimal(bs[|bs| - 1] as int)
  }

  /** The "<Ln>:<Col>: " prefix of a positioned message. */
  function PosPrefix(c: Cursor): string
  {
    Decimal(c.ln) + ":" + Decimal(c.col) + ": "
  }

  /** A message after its position prefix. */
  function Positioned(c: Cursor, msg: string): (s: string)
    ensures |s| == |PosPrefix(c)| + |msg| && s[..|PosPrefix(c)|] == PosPrefix(c)
  {
    PosPrefix(c) + msg
  }

  const CheckClause: string := "check error (clause "

  /** The text of a check error after its position. */
  function CheckText(k: int): string
  {
    CheckClause + Decimal(k) + ")"
  }

  /** The position an error's message starts with, for the positioned error kinds. */
  function PosOf(e: Error): Option<Cursor>
  {
    match e
    case InvalidOperation(p) => Some(p)
    case NonIntegerIndex(p) => Some(p)
    case CheckError(p, _, _) => Some(p)
    case ExpectedEOL(p, _, _) => Some(p)
    case UnexpectedEOL(p) => Some(p)
    case ExpectedEOF(p, _) => Some(p)
    case UnexpectedEOF(p) => Some(p)
    case _ => None
  }

  /** The text of a positioned error after its "Ln:Col: " prefix. */
  function Tail(e: Error): (t: string)
    requires PosOf(e).Some?
    ensures |t| > 0
  {
    match e
    case InvalidOperation(_) => "invalid operation"
    case NonIntegerIndex(_) => "non-integer index"
    case CheckError(_, k, _) => CheckText(k)
    case ExpectedEOL(_, _, _) => "expected EOL"
    case UnexpectedEOL(_) => "unexpected EOL"
    case ExpectedEOF(_, tok) => "expected EOF, got trailing " + ByteList(tok)
    case UnexpectedEOF(_) => "unexpected  EOF"
  }

  /**
   * The `Error()` text of an error; `None` for the kinds whose `Error` method
   * is not part of this model (invalid index, bad parse, reader and regexp errors).
   */
  function Render(e: Error): (r: Option<string>)
    ensures r.Some? <==> !(e.InvalidIndex? || e.BadParse? || e.ReadError? || e.RegexpSyntax?)
    ensures PosOf(e).Some? ==> r.Some? && |r.value| > |PosPrefix(PosOf(e).value)| &&
                               r.value[..|PosPrefix(PosOf(e).value)|] == PosPrefix(PosOf(e).value)
  {
    if PosOf(e).Some? then Some(Positioned(PosOf(e).value, Tail(e)))
    else match e
      case Undefined(_, name) => Some("undefined: " + name)
      case CantScanType => Some("can't scan type")
      case InvalidArgument => Some("invalid argument")
      case Message(t) => Some(t)
      case Runtime(t) => Some(t)
      case _ => None
  }

  /** The text before the first `c` and the text after it. */
  function SplitAt(s: string, c: char): Option<(string, string)>
  {
    if |s| == 0 then None
    else if s[0] == c then Some(("", s[1..]))
    else match SplitAt(s[1..], c)
      case None => None
      case Some(p) => Some(([s[0]] + p.0, p.1))
  }

  lemma {:induction false} SplitAfterFree(a: string, c: char, b: string)
    requires c !in a
    ensures SplitAt(a + [c] + b, c) == Some((a, b))
  {
    var s := a + [c] + b;
    if |a| == 0 {
      assert s[0] == c && s[1..] == b;
    } else {
      assert s[0] == a[0] != c;
      assert s[1..] == a[1..] + [c] + b;
      assert c !in a[1..];
      SplitAfterFree(a[1..], c, b);
      assert [a[0]] + a[1..] == a;
    }
  }

  /** Reads the "<Ln>:<Col>: " position back from the start of a message. */
  function ReadPos(s: string): Option<Cursor>
  {
    match SplitAt(s, ':')
    case None => None
    case Some(p) =>
      match SplitAt(p.1, ':')
      case None => None
      case Some(q) =>
        match (ParseDecimal(p.0), ParseDecimal(q.0))
        case (Some(ln), Some(col)) => Some(Cursor(ln, col))
        case _ => None
  }

  /** A position prefix reads back exactly, whatever message follows it. */
  lemma PositionedReadsBack(c: Cursor, msg: string)
    ensures ReadPos(Positioned(c, msg)) == Some(c)
  {
    var rest := " " + msg;
    assert Positioned(c, msg) == Decimal(c.ln) + [':'] + (Decimal(c.col) + [':'] + rest);
    SplitAfterFree(Decimal(c.ln), ':', Decimal(c.col) + [':'] + rest);
    SplitAfterFree(Decimal(c.col), ':', rest);
    DecimalRoundTrip(c.ln);
    DecimalRoundTrip(c.col);
  }

  /** The message of every positioned error starts with its position, which reads back exactly. */
  lemma RenderedPositionReadsBack(e: Error)
    requires PosOf(e).Some?
    ensures ReadPos(Render(e).value) == PosOf(e)
  {
    PositionedReadsBack(PosOf(e).value, Tail(e));
  }

  /** The clause number of a check error is printed in decimal and reads back. */
  lemma CheckErrorClauseReadsBack(p: Cursor, k: int, cur: Cursor)
    ensures var s := Render(CheckError(p, k, cur)).value;
            var tail := "check error (clause " + Decimal(k) + ")";
            s == PosPrefix(p) + tail && ParseDecimal(tail[20..|tail| - 1]) == Some(k)
  {
    var tail := CheckText(k);
    assert |CheckClause| == 20;
    assert tail[|CheckClause|..|tail| - 1] == Decimal(k);
    DecimalRoundTrip(k);
  }
}
