/**
 * The indenting output buffer of gen/code/writer.go.  The buffer holds text
 * (characters stand for the bytes `fmt` writes); `d` is the indentation depth,
 * `r` the number of lines ended and `c` the column, counted in characters
 * written on the current line.
 */
module Writer {

  /** `s` repeated n times (`strings.Repeat`). */
  function Repeat(s: string, n: nat): (r: string)
    ensures |r| == |s| * n
    ensures s != "" && n > 0 ==> r != ""
  {
    if n == 0 then "" else s + Repeat(s, n - 1)
  }

  /** The writer's state as a value. */
  datatype Out = Out(buf: string, indent: string, d: int, r: nat, c: nat)

  /** What `printIndent` writes: the indent string d times, at the start of a line only. */
  function Pending(w: Out): (p: string)
    ensures p != "" ==> w.d > 0 && w.c == 0
  {
    if w.d > 0 && w.c == 0 then Repeat(w.indent, w.d) else ""
  }

  /** `Print(s)` (and `Printf` once formatted): indentation if due, then s. */
  function Printed(w: Out, s: string): (w': Out)
    ensures w'.buf == w.buf + Pending(w) + s
    ensures w'.c == w.c + |Pending(w)| + |s| && w'.d == w.d && w'.r == w.r && w'.indent == w.indent
  {
    var p := Pending(w);
    w.(buf := w.buf + p + s, c := w.c + |p| + |s|)
  }

  /** `Println(s)`: indentation if due, s and a newline; the next line starts at column 0. */
  function Ended(w: Out, s: string): (w': Out)
    ensures w'.buf == w.buf + Pending(w) + s + "\n"
    ensures w'.c == 0 && w'.r == w.r + 1 && w'.d == w.d && w'.indent == w.indent
  {
    w.(buf := w.buf + Pending(w) + s + "\n", r := w.r + 1, c := 0)
  }

  /**
   * After a print nothing more is pending: either the indentation was just
   * written (so the column is past 0), or none was due, or it is empty.
   */
  lemma SecondPieceNotIndented(w: Out, a: string)
    ensures Pending(Printed(w, a)) == ""
  {
    var w1 := Printed(w, a);
    if w.indent == "" && w1.d > 0 {
      assert |Repeat(w.indent, w1.d)| == 0;
    }
  }

  /**
   * Printing two pieces is printing their concatenation: once anything is
   * written the column is past 0 and the line is not indented again.
   */
  lemma PrintConcat(w: Out, a: string, b: string)
    ensures Printed(Printed(w, a), b) == Printed(w, a + b)
  {
    var w1 := Printed(w, a);
    SecondPieceNotIndented(w, a);
    assert w.buf + Pending(w) + a + b == w.buf + Pending(w) + (a + b);
  }

  /** Ending a line after printing on it is ending the line with both pieces. */
  lemma PrintThenEnd(w: Out, a: string, b: string)
    ensures Ended(Printed(w, a), b) == Ended(w, a + b)
  {
    var w1 := Printed(w, a);
    SecondPieceNotIndented(w, a);
    assert w.buf + Pending(w) + a + b + "\n" == w.buf + Pending(w) + (a + b) + "\n";
  }

  /** The text of a line printed at depth d from column 0. */
  function Line(indent: string, d: int, s: string): string
  {
    (if d > 0 then Repeat(indent, d) else "") + s + "\n"
  }

  class Writer {
    var buf: string
    const indent: string
    var d: int
    var r: nat
    var c: nat

    function State(): Out
      reads this
    {
      Out(buf, indent, d, r, c)
    }

    /** `NewWriter(indent)`: an empty buffer at depth 0. */
    constructor (indent: string)
      ensures State() == Out("", indent, 0, 0, 0)
    {
      buf := "";
      this.indent := indent;
      d := 0;
      r := 0;
      c := 0;
    }

    /** `Bytes`: everything written so far. */
    method Bytes() returns (b: string)
      ensures b == buf
    {
      b := buf;
    }

    /** `Len` (of the underlying buffer). */
    method Len() returns (n: nat)
      ensures n == |buf|
    {
      n := |buf|;
    }

    /** `Indent(n)`: changes the depth and writes nothing. */
    method Indent(n: int)
      modifies this
      ensures State() == old(State()).(d := old(d) + n)
    {
      d := d + n;
    }

    method PrintIndent()
      modifies this
      ensures State() == Printed(old(State()), "")
    {
      if d > 0 && c == 0 {
        var s := Repeat(indent, d);
        buf := buf + s;
        c := c + |s|;
      }
    }

    method Print(s: string)
      modifies this
      ensures State() == Printed(old(State()), s)
    {
      PrintIndent();
      buf := buf + s;
      c := c + |s|;
    }

    method Println(s: string)
      modifies this
      ensures State() == Ended(old(State()), s)
    {
      PrintIndent();
      buf := buf + s + "\n";
      r := r + 1;
      c := 0;
    }
  }

  /** The buffer only grows: what `Bytes` returned earlier stays a prefix of it. */
  lemma AppendOnly(w: Out, s: string)
    ensures w.buf <= Printed(w, s).buf && w.buf <= Ended(w, s).buf
  {
  }

  /** From column 0 a printed line is the indentation, the text and a newline. */
  lemma EndedAtColumnZero(w: Out, s: string)
    requires w.c == 0
    ensures Ended(w, s).buf == w.buf + Line(w.indent, w.d, s)
  {
    assert w.buf + Pending(w) + s + "\n" == w.buf + (Pending(w) + s + "\n");
  }
}
