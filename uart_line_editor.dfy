/** The UART line editor of the idle task (`read_uart_input`): bytes are read into a buffer
    through a write position that advances on every ordinary byte, steps back on a backspace
    unless it is at the start, and stops on a carriage return or line feed, where the line is
    terminated with a NUL. */
module UartLineEditor {
  import opened KeepaliveConfig

  newtype byte = x: int | 0 <= x < 256

  const CarriageReturn: byte := 13
  const Newline: byte := 10
  const Backspace: byte := 8
  const NulCharacter: byte := 0

  predicate IsLineEnd(b: byte)
  {
    b == CarriageReturn || b == Newline
  }

  /** Index of the first carriage return or line feed of `s` at or after `i`, or `|s|` when
      there is none. */
  function LineEndFrom(s: seq<byte>, i: nat): (t: nat)
    requires i <= |s|
    ensures i <= t <= |s|
    ensures t < |s| ==> IsLineEnd(s[t])
    ensures forall j :: i <= j < t ==> !IsLineEnd(s[j])
    decreases |s| - i
  {
    if i == |s| then i
    else if IsLineEnd(s[i]) then i
    else LineEndFrom(s, i + 1)
  }

  /** Index of the first carriage return or line feed of `s`, or `|s|` when there is none. */
  function FirstLineEnd(s: seq<byte>): (t: nat)
    ensures t <= |s|
    ensures t < |s| ==> IsLineEnd(s[t])
    ensures forall j :: 0 <= j < t ==> !IsLineEnd(s[j])
  {
    LineEndFrom(s, 0)
  }

  /** The line kept after one more byte `b`: an ordinary byte is appended, a backspace
      removes the last kept byte, and a backspace with nothing kept does nothing. */
  function NextLine(kept: seq<byte>, b: byte): seq<byte>
  {
    if b != Backspace then kept + [b]
    else if kept == [] then []
    else kept[..|kept| - 1]
  }

  /** The line kept after typing the first `n` bytes of `s`. */
  function Edit(s: seq<byte>, n: nat): (line: seq<byte>)
    requires n <= |s|
    ensures |line| <= n
    ensures Backspace !in line
  {
    if n == 0 then [] else NextLine(Edit(s, n - 1), s[n - 1])
  }

  /** The largest number of bytes kept at any point while typing the first `n` bytes of `s`:
      the highest buffer position the editor moves its write position to. */
  function Peak(s: seq<byte>, n: nat): (p: nat)
    requires n <= |s|
    ensures |Edit(s, n)| <= p <= n
  {
    if n == 0 then 0
    else
      var before := Peak(s, n - 1);
      if |Edit(s, n)| > before then |Edit(s, n)| else before
  }

  /** Without backspaces the kept line is exactly what was typed. */
  lemma {:induction false} EditPlain(s: seq<byte>, n: nat)
    requires n <= |s|
    requires forall j :: 0 <= j < n ==> s[j] != Backspace
    ensures Edit(s, n) == s[..n]
  {
    if n > 0 {
      EditPlain(s, n - 1);
      assert s[..n] == s[..n - 1] + [s[n - 1]];
    }
  }

  /** Typing an ordinary byte and then a backspace leaves the line as it was. */
  lemma TypeThenErase(s: seq<byte>, i: nat)
    requires i + 2 <= |s|
    requires s[i] != Backspace && s[i + 1] == Backspace
    ensures Edit(s, i + 2) == Edit(s, i)
  {
    assert Edit(s, i + 1) == Edit(s, i) + [s[i]];
    assert (Edit(s, i) + [s[i]])[..|Edit(s, i)|] == Edit(s, i);
  }

  /** A backspace with nothing kept keeps the write position at the start of the buffer. */
  lemma BackspaceAtStart(s: seq<byte>, i: nat)
    requires i < |s| && s[i] == Backspace && Edit(s, i) == []
    ensures Edit(s, i + 1) == []
  {
  }

  /** The kept length after any prefix is bounded by the peak of a longer prefix. */
  lemma {:induction false} PeakOfPrefix(s: seq<byte>, i: nat, n: nat)
    requires i <= n <= |s|
    ensures |Edit(s, i)| <= Peak(s, n)
    ensures Peak(s, i) <= Peak(s, n)
    decreases n
  {
    if i < n {
      PeakOfPrefix(s, i, n - 1);
    }
  }

  /** What holds of the buffer `contents` while the editor has read `i` bytes of a line that
      ends at `t`: the kept bytes sit at the front, the write position is their number, no
      carriage return or line feed is stored, and nothing above the peak has been touched. */
  ghost predicate Reading(input: seq<byte>, t: nat, i: nat, contents: seq<byte>, len: nat, original: seq<byte>)
  {
    && i <= t <= |input|
    && |contents| == |original|
    && len <= Peak(input, t) < |contents|
    && len == |Edit(input, i)|
    && contents[..len] == Edit(input, i)
    && (forall j :: 0 <= j < |contents| ==> !IsLineEnd(contents[j]))
    && (forall j :: Peak(input, t) < j < |contents| ==> contents[j] == original[j])
  }

  /** While reading, the write position is inside the buffer, and the next byte is the line
      end exactly when all `t` bytes before it have been read. */
  lemma ReadingBounds(input: seq<byte>, t: nat, i: nat, contents: seq<byte>, len: nat, original: seq<byte>)
    requires Reading(input, t, i, contents, len, original)
    requires t == FirstLineEnd(input) && i < |input|
    ensures IsLineEnd(input[i]) <==> i == t
  {
  }

  /** Storing an ordinary byte or a backspace at the write position `len` and moving the write
      position as `read_uart_input` does keeps `Reading`. */
  lemma ReadingStep(input: seq<byte>, t: nat, i: nat, contents: seq<byte>, len: nat, next: nat, original: seq<byte>)
    requires Reading(input, t, i, contents, len, original)
    requires t == FirstLineEnd(input) && i < t
    requires next == if input[i] != Backspace then len + 1 else if len != 0 then len - 1 else 0
    ensures Reading(input, t, i + 1, contents[len := input[i]], next, original)
  {
    PeakOfPrefix(input, i + 1, t);
    var c := contents[len := input[i]];
    var kept := Edit(input, i);
    assert Edit(input, i + 1) == NextLine(kept, input[i]);
    assert c[..len] == kept;
    if input[i] != Backspace {
      assert c[..len + 1] == kept + [input[i]];
    } else if len != 0 {
      assert c[..len - 1] == kept[..len - 1];
    }
    assert c[..next] == Edit(input, i + 1);
    assert forall j :: 0 <= j < |c| ==> !IsLineEnd(c[j]);
  }

  /** Reads one line into `buffer`. `input` is the sequence of bytes the UART delivers; polls
      that find no byte change nothing and are not modelled. The buffer must hold no carriage
      return or line feed on entry (the caller clears it), and the line must never keep as many
      bytes as the buffer holds: `read_uart_input` makes no bound check. `done` is false when the
      input ends before a line end, where `read_uart_input` would go on polling. */
  method ReadUartInput(buffer: array<byte>, input: seq<byte>) returns (len: nat, done: bool)
    requires forall j :: 0 <= j < buffer.Length ==> !IsLineEnd(buffer[j])
    requires Peak(input, FirstLineEnd(input)) < buffer.Length
    modifies buffer
    ensures done <==> FirstLineEnd(input) < |input|
    ensures len < buffer.Length && buffer[..len] == Edit(input, FirstLineEnd(input))
    ensures done ==> buffer[len] == NulCharacter
    ensures !done ==> forall j :: 0 <= j < buffer.Length ==> !IsLineEnd(buffer[j])
    ensures forall j :: Peak(input, FirstLineEnd(input)) < j < buffer.Length ==> buffer[j] == old(buffer[j])
  {
    ghost var t := FirstLineEnd(input);
    ghost var original := buffer[..];
    len, done := 0, false;
    var i := 0;
    while i < |input|
      invariant Reading(input, t, i, buffer[..], len, original)
    {
      ghost var contents, pos := buffer[..], len;
      ReadingBounds(input, t, i, contents, len, original);
      var b := input[i];
      buffer[len] := b;
      if !IsLineEnd(b) {
        if b != Backspace {
          len := len + 1;
        } else if len != 0 {
          len := len - 1;
        }
        ReadingStep(input, t, i, contents, pos, len, original);
        assert buffer[..] == contents[pos := b];
      }
      i := i + 1;
      if IsLineEnd(buffer[len]) {
        done := true;
        break;
      }
    }
    assert buffer[..len] == Edit(input, t);
    if done {
      buffer[len] := NulCharacter;
    }
  }

  /** A line of `UartBufferSize` ordinary bytes followed by a carriage return: `read_uart_input` moves
      its write position to index `UartBufferSize` and stores the carriage return and then the
      NUL there, one past the end of the 20-byte buffer of the idle task. */
  lemma UartOverflowWitness()
    ensures var s := seq(UartBufferSize, _ => 49 as byte) + [CarriageReturn];
            FirstLineEnd(s) == UartBufferSize
            && |Edit(s, FirstLineEnd(s))| == UartBufferSize
            && !(Peak(s, FirstLineEnd(s)) < UartBufferSize)
  {
    var s := seq(UartBufferSize, _ => 49 as byte) + [CarriageReturn];
    assert forall j :: 0 <= j < UartBufferSize ==> s[j] == 49;
    assert IsLineEnd(s[UartBufferSize]);
    EditPlain(s, UartBufferSize);
  }

  /** The editor with the bound check `read_uart_input` lacks: an ordinary byte that would fill the
      last free place of a buffer holding `cap` bytes plus the NUL is dropped. */
  function EditBounded(s: seq<byte>, n: nat, cap: nat): (line: seq<byte>)
    requires n <= |s|
    ensures |line| <= cap && |line| <= n
  {
    if n == 0 then []
    else
      var kept := EditBounded(s, n - 1, cap);
      if s[n - 1] != Backspace && |kept| == cap then kept else NextLine(kept, s[n - 1])
  }

  /** Whenever `read_uart_input` stays inside its buffer, the bounded editor keeps the same line. */
  lemma {:induction false} EditBoundedAgrees(s: seq<byte>, n: nat, cap: nat)
    requires n <= |s| && Peak(s, n) <= cap
    ensures EditBounded(s, n, cap) == Edit(s, n)
  {
    if n > 0 {
      assert Peak(s, n - 1) <= Peak(s, n);
      EditBoundedAgrees(s, n - 1, cap);
    }
  }
}
