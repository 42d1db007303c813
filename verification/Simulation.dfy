/** Each decode call agrees with the reference reader on the bytes it has. */
module Simulation {
  import opened Base
  import opened Bytes
  import opened Protocol
  import opened Parser
  import opened Decoder
  import opened Reference

  /** Where the reference reader is when the decoder's buffer is still unread. */
  function ModeOf(state: State): Mode {
    match state
    case ParseCommand => START
    case ParseJob(remaining) => AfterPut(remaining)
    case DiscardToNewline => Skip(false)
  }

  /** What an answer says: chunks as their bytes, discards as nothing. */
  function Symbols(answer: Answer): seq<Symbol> {
    match answer
    case Pending => []
    case Failed(error) => [Fault(error)]
    case Got(Item(cmd)) => [Order(cmd)]
    case Got(PutChunk(data)) => Bodies(data)
    case Got(PutEnd) => [End]
    case Got(Discarded) => []
  }

  /** Reading the buffer after a decode call gives the rest of what reading it
      before the call would have given. */
  ghost predicate Agrees(state: State, buf: seq<byte>, step: Step) {
    var after := Read(ModeOf(step.state), step.rest);
    Read(ModeOf(state), buf) == Run(after.mode, Symbols(step.answer) + after.out)
  }

  lemma FirstLine(buf: seq<byte>)
    requires FindCrlf(Window(buf)).Some?
    ensures var idx := FindCrlf(Window(buf)).value;
            idx + 2 <= Min(MAX_LINE, |buf|) && FindCrlf(buf[..idx + 2]) == Some(idx)
  {
    var idx := FindCrlf(Window(buf)).value;
    var s := buf[..idx + 2];
    assert CrlfAt(s, idx);
    assert forall i: nat :: i < idx && CrlfAt(s, i) ==> CrlfAt(Window(buf), i);
  }

  lemma CommandAgrees(buf: seq<byte>)
    ensures Agrees(ParseCommand, buf, CommandStep(buf))
  {
    hide Parse;
    match FindCrlf(Window(buf)) {
      case Some(idx) =>
        FirstLine(buf);
        var s, rest := buf[..idx + 2], buf[idx + 2..];
        assert buf == s + rest;
        assert s[..idx] == buf[..idx];
        LineEnds(s);
        ReadAppend(START, s, rest);
      case None =>
        if |buf| >= MAX_LINE {
          var s, rest := buf[..MAX_LINE], buf[MAX_LINE..];
          assert buf == s + rest;
          LineOverflows(s);
          SkipGoesOn(false, s);
          ReadAppend(START, s, rest);
          ReadAppend(Skip(false), s, rest);
        } else {
          assert Window(buf) == buf;
        }
    }
  }

  lemma TerminatorRead(a: byte, b: byte)
    ensures Read(Tail, [a, b]) ==
            if a == CR && b == LF then Run(START, [End]) else Run(Skip(b == CR), [Fault(ExpectedCRLF)])
  {
    hide EndOfLine;
    assert [a, b][1..] == [b];
    ReadOne(TailLf(a), b);
  }

  lemma JobEndAgrees(buf: seq<byte>)
    ensures Agrees(ParseJob(0), buf, JobEndStep(buf))
  {
    hide Read;
    if |buf| >= 2 {
      var s, rest := [buf[0], buf[1]], buf[2..];
      assert buf == s + rest;
      ReadAppend(Tail, s, rest);
      TerminatorRead(buf[0], buf[1]);
      if !CrlfAt(s, 0) {
        SkipGoesOn(false, s);
        ReadAppend(Skip(false), s, rest);
      }
    }
  }

  lemma JobAgrees(remaining: nat, buf: seq<byte>)
    requires remaining > 0
    ensures Agrees(ParseJob(remaining), buf, JobStep(remaining, buf))
  {
    if buf != [] {
      var n := Min(remaining, |buf|);
      assert buf == buf[..n] + buf[n..];
      JobRuns(remaining, buf[..n]);
      ReadAppend(AfterPut(remaining), buf[..n], buf[n..]);
    }
  }

  lemma DiscardAgrees(buf: seq<byte>)
    ensures Agrees(DiscardToNewline, buf, DiscardStep(buf))
  {
    hide EndOfLine;
    if buf != [] {
      if FindCrlf(buf).Some? {
        SkipEnds(buf);
      } else {
        var last := buf[|buf| - 1];
        assert buf[|buf| - 1..] == [last];
        SkipGoesOn(false, buf);
        ReadOne(Skip(false), last);
      }
    }
  }

  lemma StepAgrees(state: State, buf: seq<byte>)
    ensures Agrees(state, buf, DecodeStep(state, buf))
  {
    match state
    case ParseCommand => CommandAgrees(buf);
    case ParseJob(remaining) => if remaining == 0 { JobEndAgrees(buf); } else { JobAgrees(remaining, buf); }
    case DiscardToNewline => DiscardAgrees(buf);
  }

  // ---------- when no more can be said ----------

  /** The next decode call asks for more input, or is the one call that
      reports a discard without doing anything. */
  ghost predicate Quiescent(state: State, buf: seq<byte>) {
    DecodeStep(state, buf).answer.Pending? || (state.DiscardToNewline? && |buf| == 1)
  }

  /** Exactly when a decode call asks for more input: a short line without CRLF,
      a terminator not yet there, or an empty buffer. */
  lemma NotYetExactly(state: State, buf: seq<byte>)
    ensures DecodeStep(state, buf).answer.Pending? <==>
            match state
            case ParseCommand => |buf| < 224 && NoCrlf(buf)
            case ParseJob(remaining) => if remaining == 0 then |buf| < 2 else buf == []
            case DiscardToNewline => buf == []
  {
    hide Parse, FindCrlf, CrlfAt;
    if state.ParseCommand? {
      if |buf| < MAX_LINE {
        assert Window(buf) == buf;
      }
    }
  }

  /** Nothing more can be said of a quiescent buffer by anyone, and a further
      decode call leaves state and buffer as they are. */
  lemma QuiescentIsSilent(state: State, buf: seq<byte>)
    requires Quiescent(state, buf)
    ensures Read(ModeOf(state), buf).out == []
    ensures DecodeStep(state, buf).state == state && DecodeStep(state, buf).rest == buf
    ensures Symbols(DecodeStep(state, buf).answer) == []
  {
    hide Parse;
    match state
    case ParseCommand =>
      assert Window(buf) == buf;
      FreshLine(buf);
    case ParseJob(remaining) =>
      if remaining == 0 && |buf| == 1 {
        ReadOne(Tail, buf[0]);
        assert buf == [buf[0]];
      }
    case DiscardToNewline =>
      if |buf| == 1 {
        ReadOne(Skip(false), buf[0]);
        assert buf == [buf[0]];
      }
  }

  /** Twice the buffer, and one more outside of discarding. */
  function Fuel(state: State, buf: seq<byte>): nat {
    2 * |buf| + if state.DiscardToNewline? then 0 else 1
  }

  /** Exactly the calls that are not quiescent make progress. */
  lemma Progress(state: State, buf: seq<byte>)
    ensures Quiescent(state, buf) <==>
            !(Fuel(DecodeStep(state, buf).state, DecodeStep(state, buf).rest) < Fuel(state, buf))
  {
    hide Parse;
    if Quiescent(state, buf) {
      QuiescentIsSilent(state, buf);
    }
  }

  // ---------- what was taken from the buffer ----------

  /** A decode call only ever removes bytes from the front of the buffer. */
  lemma StepTakesPrefix(state: State, buf: seq<byte>)
    ensures var rest := DecodeStep(state, buf).rest;
            |rest| <= |buf| && buf == buf[..|buf| - |rest|] + rest
  {
    hide Parse;
  }

  /** Whether more input can change the outcome of the call already due. */
  ghost predicate Stable(state: State, buf: seq<byte>) {
    match state
    case ParseCommand => true
    case ParseJob(remaining) => remaining <= |buf|
    case DiscardToNewline => FindCrlf(buf).Some?
  }

  /** An answer other than "not yet" is final, whatever follows, exactly in the
      stable situations. */
  lemma PrefixStability(state: State, buf: seq<byte>, more: seq<byte>)
    requires !DecodeStep(state, buf).answer.Pending? && more != []
    ensures var step := DecodeStep(state, buf);
            DecodeStep(state, buf + more) == Step(step.answer, step.state, step.rest + more)
            <==> Stable(state, buf)
  {
    hide Parse, FindCrlf;
    match state
    case ParseCommand =>
      CommandStable(buf, more);
    case ParseJob(remaining) =>
      JobStable(remaining, buf, more);
    case DiscardToNewline =>
      DiscardStable(buf, more);
  }

  /** More input continues a body chunk that took the whole buffer. */
  lemma JobStable(remaining: nat, buf: seq<byte>, more: seq<byte>)
    requires !DecodeStep(ParseJob(remaining), buf).answer.Pending? && more != []
    ensures var step := DecodeStep(ParseJob(remaining), buf);
            DecodeStep(ParseJob(remaining), buf + more) == Step(step.answer, step.state, step.rest + more)
            <==> remaining <= |buf|
  {
    hide Parse, FindCrlf;
    if remaining == 0 {
      assert (buf + more)[2..] == buf[2..] + more;
    } else if remaining <= |buf| {
      assert (buf + more)[..remaining] == buf[..remaining];
      assert (buf + more)[remaining..] == buf[remaining..] + more;
    } else {
      assert |buf + more| > |buf|;
    }
  }

  /** Without a CRLF, all but the buffer's last byte goes. */
  lemma DiscardStable(buf: seq<byte>, more: seq<byte>)
    requires buf != [] && more != []
    ensures var step := DiscardStep(buf);
            DiscardStep(buf + more) == Step(step.answer, step.state, step.rest + more)
            <==> FindCrlf(buf).Some?
  {
    hide FindCrlf, NoCrlf;
    var idx := FindCrlf(buf);
    if idx.Some? {
      FindCrlfExtends(buf, more);
      assert (buf + more)[idx.value + 2..] == buf[idx.value + 2..] + more;
    } else if FindCrlf(buf + more).None? {
      assert |DiscardStep(buf + more).rest| == 1;
    }
  }

  lemma CommandStable(buf: seq<byte>, more: seq<byte>)
    requires !CommandStep(buf).answer.Pending?
    ensures CommandStep(buf + more) ==
            Step(CommandStep(buf).answer, CommandStep(buf).state, CommandStep(buf).rest + more)
  {
    hide Parse, FindCrlf, NoCrlf;
    if FindCrlf(Window(buf)).Some? {
      var idx := FindCrlf(Window(buf)).value;
      WindowExtends(buf, more);
      FindCrlfExtends(Window(buf), Window(buf + more)[|Window(buf)|..]);
      assert (buf + more)[..idx] == buf[..idx];
      assert (buf + more)[idx + 2..] == buf[idx + 2..] + more;
    } else {
      assert Window(buf + more) == Window(buf);
    }
  }

  lemma WindowExtends(buf: seq<byte>, more: seq<byte>)
    ensures |Window(buf)| <= |Window(buf + more)|
    ensures Window(buf + more) == Window(buf) + Window(buf + more)[|Window(buf)|..]
  {
    assert Window(buf + more)[..|Window(buf)|] == Window(buf);
  }
}
