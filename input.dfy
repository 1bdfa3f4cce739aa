/**
 * The line-oriented input cursor (eval/input.go).  The `bufio.Scanner` is the
 * sequence of lines it has yet to produce, followed by the error (if any) it
 * reports once they run out; the current `bytes.Reader` is the unread rest of
 * the current line, or `None` while no line has been read.
 */
module Input {
  import opened Wrappers
  import opened Errors

  class Input {
    var lines: seq<seq<byte>>
    var scanErr: Option<Error>
    var line: Option<seq<byte>>
    var eof: bool
    var cursor: Cursor

    /** Every line the scanner yields, and how many of them have been made current. */
    ghost var all: seq<seq<byte>>
    ghost var taken: nat

    ghost predicate Valid()
      reads this
    {
      && taken <= |all|
      && lines == all[taken..]
      && cursor.ln == taken
      && (taken == 0 <==> line.None?)
      && (line.Some? ==> IsSuffix(line.value, all[taken - 1]))
      && (eof ==> lines == [] && scanErr.None?)
    }

    /** A scanner over `all`, before `Next` has been called. */
    constructor Init(all: seq<seq<byte>>, scanErr: Option<Error>)
      ensures Valid() && fresh(this)
      ensures this.all == all && lines == all && this.scanErr == scanErr
      ensures line.None? && !eof && cursor == Cursor(0, 0)
    {
      this.all := all;
      this.taken := 0;
      this.lines := all;
      this.scanErr := scanErr;
      this.line := None;
      this.eof := false;
      this.cursor := Cursor(0, 0);
    }

    /**
     * Makes the next line current: `Ln` goes up by one and `Col` is reset.  When
     * the lines are exhausted a clean scanner sets `EOF` and leaves the line and
     * the cursor alone, and a failed scanner returns its error and sets nothing.
     */
    method Next() returns (err: Option<Error>)
      requires Valid()
      modifies this
      ensures Valid() && all == old(all) && scanErr == old(scanErr)
      ensures old(|lines|) > 0 ==>
                err.None? && line == Some(old(lines)[0]) && lines == old(lines)[1..] &&
                cursor == Cursor(old(cursor).ln + 1, 0) && eof == old(eof) && taken == old(taken) + 1
      ensures old(|lines|) == 0 && scanErr.None? ==>
                err.None? && eof && line == old(line) && cursor == old(cursor) && lines == [] && taken == old(taken)
      ensures old(|lines|) == 0 && scanErr.Some? ==>
                err == scanErr && eof == old(eof) && line == old(line) && cursor == old(cursor) &&
                lines == [] && taken == old(taken)
    {
      if |lines| > 0 {
        line := Some(lines[0]);
        lines := lines[1..];
        taken := taken + 1;
        cursor := Cursor(cursor.ln + 1, 0);
        return None;
      }
      if scanErr.None? {
        eof := true;
        return None;
      }
      return scanErr;
    }

    /**
     * `EOL`: with unread bytes on the line, false and no change; otherwise the
     * next line is made current (or EOF noted) and the answer is true.  With no
     * line read yet, `Line.Len()` dereferences a nil reader.
     */
    method EOL() returns (r: Outcome<bool>)
      requires Valid()
      modifies this
      ensures Valid() && all == old(all) && scanErr == old(scanErr)
      ensures old(line).None? ==> r == Fail(Runtime(NilDeref)) && unchanged(this)
      ensures old(line).Some? && |old(line).value| != 0 ==> r == Ok(false) && unchanged(this)
      ensures old(line).Some? && |old(line).value| == 0 && old(|lines|) > 0 ==>
                r == Ok(true) && line == Some(old(lines)[0]) && cursor == Cursor(old(cursor).ln + 1, 0)
      ensures old(line).Some? && |old(line).value| == 0 && old(|lines|) == 0 && scanErr.None? ==>
                r == Ok(true) && eof && line == old(line) && cursor == old(cursor)
      ensures old(line).Some? && |old(line).value| == 0 && old(|lines|) == 0 && scanErr.Some? ==>
                r == Fail(scanErr.value) && line == old(line) && cursor == old(cursor)
    {
      if line.None? {
        return Fail(Runtime(NilDeref));
      }
      if |line.value| != 0 {
        return Ok(false);
      }
      var err := Next();
      if err.Some? {
        return Fail(err.value);
      }
      return Ok(true);
    }

    /**
     * `Scanf` reads from the current line with `fmt.Fscanf`; its parsing is not
     * modelled, only that it consumes a prefix of the unread bytes, whose length
     * the caller passes in.
     */
    method Scanf(consumed: nat)
      requires Valid() && line.Some? && consumed <= |line.value|
      modifies this
      ensures Valid() && all == old(all)
      ensures line == Some(old(line).value[consumed..])
      ensures lines == old(lines) && cursor == old(cursor) && eof == old(eof) && scanErr == old(scanErr)
    {
      SuffixOfSuffix(line.value, consumed, all[taken - 1]);
      line := Some(line.value[consumed..]);
    }
  }

  predicate IsSuffix(s: seq<byte>, t: seq<byte>)
  {
    |s| <= |t| && s == t[|t| - |s|..]
  }

  lemma SuffixOfSuffix(s: seq<byte>, k: nat, t: seq<byte>)
    requires IsSuffix(s, t) && k <= |s|
    ensures IsSuffix(s[k..], t)
  {
    assert s[k..] == t[|t| - |s| + k..];
  }

  /**
   * `NewInput`: builds the scanner and reads the first line.  A scanner error
   * on the very first line gives no input; an empty input is at EOF with no
   * current line and the cursor at (0, 0); otherwise the cursor is (1, 0).
   */
  method NewInput(all: seq<seq<byte>>, scanErr: Option<Error>) returns (p: Input?, err: Option<Error>)
    ensures err.Some? <==> p == null
    ensures err.Some? ==> |all| == 0 && err == scanErr
    ensures p != null ==> fresh(p) && p.Valid() && p.all == all
    ensures p != null && |all| > 0 ==>
              p.cursor == Cursor(1, 0) && p.line == Some(all[0]) && p.lines == all[1..] && !p.eof
    ensures p != null && |all| == 0 ==> p.cursor == Cursor(0, 0) && p.line.None? && p.eof
  {
    p := new Input.Init(all, scanErr);
    err := p.Next();
    if err.Some? {
      p := null;
    }
  }
}
