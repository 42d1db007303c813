/** The incremental decoder of a client's byte stream. */
module Decoder {
  import opened Base
  import opened Bytes
  import opened Buffers
  import opened Protocol
  import opened Parser

  datatype State =
    | ParseCommand
    | ParseJob(remaining: nat)
    | DiscardToNewline

  datatype Event =
    | Item(cmd: Command)
    | PutChunk(data: seq<byte>)
    | PutEnd
    | Discarded

  /** One decode call answers "not yet", an event, or an error. */
  datatype Answer = Pending | Got(event: Event) | Failed(error: Response)

  datatype Step = Step(answer: Answer, state: State, rest: seq<byte>)

  function Min(a: nat, b: nat): nat {
    if a <= b then a else b
  }

  /** The bytes inspected for the end of a command line. */
  function Window(buf: seq<byte>): seq<byte> {
    buf[..Min(MAX_LINE, |buf|)]
  }

  ghost function CommandStep(buf: seq<byte>): Step {
    match FindCrlf(Window(buf))
    case Some(idx) =>
      var rest := buf[idx + 2..];
      (match Parse(buf[..idx])
       case Err(e) => Step(Failed(e), ParseCommand, rest)
       case Ok(cmd) => Step(Got(Item(cmd)), if cmd.Put? then ParseJob(cmd.nBytes) else ParseCommand, rest))
    case None =>
      if |buf| >= MAX_LINE then Step(Failed(BadFormat), DiscardToNewline, buf)
      else Step(Pending, ParseCommand, buf)
  }

  function JobEndStep(buf: seq<byte>): Step {
    if |buf| < 2 then Step(Pending, ParseJob(0), buf)
    else if buf[0] == CR && buf[1] == LF then Step(Got(PutEnd), ParseCommand, buf[2..])
    else Step(Failed(ExpectedCRLF), DiscardToNewline, buf)
  }

  function JobStep(remaining: nat, buf: seq<byte>): Step {
    if buf == [] then Step(Pending, ParseJob(remaining), buf)
    else
      var n := Min(remaining, |buf|);
      Step(Got(PutChunk(buf[..n])), ParseJob(remaining - n), buf[n..])
  }

  function DiscardStep(buf: seq<byte>): Step {
    if buf == [] then Step(Pending, DiscardToNewline, buf)
    else
      match FindCrlf(buf)
      case Some(idx) => Step(Got(Discarded), ParseCommand, buf[idx + 2..])
      case None => Step(Got(Discarded), DiscardToNewline, buf[|buf| - 1..])
  }

  /** One decode call, as a function of state and buffer. */
  ghost function DecodeStep(state: State, buf: seq<byte>): Step {
    match state
    case ParseCommand => CommandStep(buf)
    case ParseJob(remaining) => if remaining == 0 then JobEndStep(buf) else JobStep(remaining, buf)
    case DiscardToNewline => DiscardStep(buf)
  }

  class Decoder {
    var state: State

    constructor ()
      ensures state == ParseCommand
    {
      state := ParseCommand;
    }

    method Decode(src: Buffer) returns (answer: Answer)
      modifies this, src
      ensures Step(answer, state, src.data) == DecodeStep(old(state), old(src.data))
    {
      match state {
        case ParseCommand =>
          var idx := FindPosition(Window(src.data));
          if idx.Some? {
            var line := src.SplitTo(idx.value);
            src.Advance(2);
            var parsed := TryFrom(line);
            if parsed.Err? {
              return Failed(parsed.error);
            }
            var cmd := parsed.value;
            if cmd.Put? {
              state := ParseJob(cmd.nBytes);
            }
            return Got(Item(cmd));
          }
          if |src.data| >= MAX_LINE {
            state := DiscardToNewline;
            return Failed(BadFormat);
          }
          return Pending;

        case ParseJob(remaining) =>
          if remaining == 0 {
            if |src.data| < 2 {
              return Pending;
            }
            if src.data[0] == CR && src.data[1] == LF {
              src.Advance(2);
              state := ParseCommand;
              return Got(PutEnd);
            }
            state := DiscardToNewline;
            return Failed(ExpectedCRLF);
          }
          if |src.data| == 0 {
            return Pending;
          }
          var takeLen := Min(remaining, |src.data|);
          state := ParseJob(remaining - takeLen);
          var chunk := src.SplitTo(takeLen);
          return Got(PutChunk(chunk));

        case DiscardToNewline =>
          if |src.data| == 0 {
            return Pending;
          }
          var idx := FindPosition(src.data);
          if idx.Some? {
            src.Advance(idx.value + 2);
            state := ParseCommand;
          } else {
            src.Advance(|src.data| - 1);
          }
          return Got(Discarded);
      }
    }
  }
}
