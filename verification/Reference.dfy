/** A reference reader of the same stream that takes one byte at a time and
    has no buffer, so that there is nothing for chunk boundaries to affect. */
module Reference {
  import opened Base
  import opened Bytes
  import opened Protocol
  import opened Parser

  /** What the stream says, byte by byte of a job body. */
  datatype Symbol = Order(cmd: Command) | Body(b: byte) | End | Fault(error: Response)

  datatype Mode =
    | Line(text: seq<byte>)      // inside a command line; `text` read so far
    | Job(left: nat)             // inside a body; `left` > 0 bytes to come
    | Tail                       // the body is complete; expecting CRLF
    | TailLf(first: byte)        // ... with the first of the two bytes read
    | Skip(afterCr: bool)        // skipping to the end of the next CRLF

  datatype Run = Run(mode: Mode, out: seq<Symbol>)

  const START: Mode := Line([])

  function AfterPut(n: nat): Mode {
    if n == 0 then Tail else Job(n)
  }

  ghost function EndOfLine(line: seq<byte>): Run {
    match Parse(line)
    case Err(e) => Run(START, [Fault(e)])
    case Ok(cmd) => Run(if cmd.Put? then AfterPut(cmd.nBytes) else START, [Order(cmd)])
  }

  ghost function Take(mode: Mode, b: byte): Run {
    match mode
    case Line(text) =>
      if text != [] && text[|text| - 1] == CR && b == LF then EndOfLine(text[..|text| - 1])
      else if |text| + 1 >= MAX_LINE then Run(Skip(b == CR), [Fault(BadFormat)])
      else Run(Line(text + [b]), [])
    case Job(left) => Run(AfterPut(if left == 0 then 0 else left - 1), [Body(b)])
    case Tail => Run(TailLf(b), [])
    case TailLf(first) =>
      if first == CR && b == LF then Run(START, [End])
      else Run(Skip(b == CR), [Fault(ExpectedCRLF)])
    case Skip(afterCr) => Run(if afterCr && b == LF then START else Skip(b == CR), [])
  }

  ghost function Read(mode: Mode, s: seq<byte>): Run
    decreases |s|
  {
    if s == [] then Run(mode, [])
    else
      var first := Take(mode, s[0]);
      var more := Read(first.mode, s[1..]);
      Run(more.mode, first.out + more.out)
  }

  lemma ReadNothing(mode: Mode)
    ensures Read(mode, []) == Run(mode, [])
  {
  }

  lemma ReadOne(mode: Mode, b: byte)
    ensures Read(mode, [b]) == Take(mode, b)
  {
    assert [b][1..] == [];
  }

  lemma {:induction false} ReadAppend(mode: Mode, s: seq<byte>, t: seq<byte>)
    ensures Read(mode, s + t) ==
            (var first := Read(mode, s);
             var more := Read(first.mode, t);
             Run(more.mode, first.out + more.out))
    decreases |s|
  {
    hide Take;
    if s == [] {
      assert s + t == t;
    } else {
      var first := Take(mode, s[0]);
      ReadAppend(first.mode, s[1..], t);
      assert (s + t)[1..] == s[1..] + t;
      var mid := Read(first.mode, s[1..]);
      var last := Read(mid.mode, t);
      assert first.out + (mid.out + last.out) == (first.out + mid.out) + last.out;
    }
  }

  /** Bytes that end no line and fill no window pile up. */
  lemma {:induction false} LinePilesUp(text: seq<byte>, s: seq<byte>)
    requires |text + s| < MAX_LINE && NoCrlf(text + s)
    ensures Read(Line(text), s) == Run(Line(text + s), [])
    decreases |s|
  {
    if s == [] {
      assert text + s == text;
    } else {
      if text != [] {
        assert !CrlfAt(text + s, |text| - 1);
      }
      assert text + s == (text + [s[0]]) + s[1..];
      LinePilesUp(text + [s[0]], s[1..]);
    }
  }

  lemma FreshLine(s: seq<byte>)
    requires |s| < MAX_LINE && NoCrlf(s)
    ensures Read(START, s) == Run(Line(s), [])
  {
    assert [] + s == s;
    LinePilesUp([], s);
  }

  /** A line whose CRLF ends within the window is handed over whole. */
  lemma LineEnds(s: seq<byte>)
    requires 2 <= |s| <= MAX_LINE && FindCrlf(s) == Some(|s| - 2)
    ensures Read(START, s) == EndOfLine(s[..|s| - 2])
  {
    hide Read, EndOfLine, FindCrlf, NoCrlf;
    var text := s[..|s| - 1];
    BeforeFirstCrlf(s, |s| - 1);
    FreshLine(text);
    ReadAppend(START, text, [LF]);
    assert text + [LF] == s;
    assert text[..|text| - 1] == s[..|s| - 2];
    ReadOne(Line(text), LF);
  }

  /** A full window without CRLF is one fault, and skipping begins. */
  lemma LineOverflows(s: seq<byte>)
    requires |s| == MAX_LINE && NoCrlf(s)
    ensures Read(START, s) == Run(Skip(s[|s| - 1] == CR), [Fault(BadFormat)])
  {
    hide Read, EndOfLine;
    var text, last := s[..|s| - 1], s[|s| - 1];
    NoCrlfSlice(s, 0, |s| - 1);
    FreshLine(text);
    ReadAppend(START, text, [last]);
    assert s == text + [last];
    assert !CrlfAt(s, |s| - 2);
    ReadOne(Line(text), last);
  }

  lemma {:induction false} SkipGoesOn(afterCr: bool, s: seq<byte>)
    requires NoCrlf(s) && s != [] && !(afterCr && s[0] == LF)
    ensures Read(Skip(afterCr), s) == Run(Skip(s[|s| - 1] == CR), [])
    decreases |s|
  {
    if |s| == 1 {
      assert s[1..] == [];
    } else {
      assert !CrlfAt(s, 0);
      NoCrlfSlice(s, 1, |s|);
      assert s[1..|s|] == s[1..];
      SkipGoesOn(s[0] == CR, s[1..]);
    }
  }

  /** Skipping ends right after the first CRLF. */
  lemma SkipEnds(s: seq<byte>)
    requires FindCrlf(s).Some?
    ensures Read(Skip(false), s) == Read(START, s[FindCrlf(s).value + 2..])
  {
    var k := FindCrlf(s).value;
    var head, tail := s[..k + 1], s[k + 2..];
    BeforeFirstCrlf(s, k + 1);
    SkipGoesOn(false, head);
    assert s == head + ([LF] + tail);
    ReadAppend(Skip(false), head, [LF] + tail);
    assert ([LF] + tail)[1..] == tail;
    assert Read(Skip(true), [LF] + tail) == Read(START, tail);
  }

  function Bodies(s: seq<byte>): seq<Symbol> {
    seq(|s|, i requires 0 <= i < |s| => Body(s[i]))
  }

  lemma BodiesAppend(s: seq<byte>, t: seq<byte>)
    ensures Bodies(s + t) == Bodies(s) + Bodies(t)
  {
  }

  lemma {:induction false} JobRuns(n: nat, s: seq<byte>)
    requires |s| <= n
    ensures Read(AfterPut(n), s) == Run(AfterPut(n - |s|), Bodies(s))
    decreases |s|
  {
    if s != [] {
      JobRuns(n - 1, s[1..]);
      assert Bodies(s) == [Body(s[0])] + Bodies(s[1..]);
    }
  }
}
