/** What whole streams decode to: well-formed requests, and input that has to
    be skipped first. */
module Streams {
  import opened Base
  import opened Bytes
  import opened Protocol
  import opened Parser
  import opened Grammar
  import opened Decoder
  import opened Reference
  import opened Simulation
  import opened Runs
  import opened Events
  import P = Pieces
  import W = Wording

  // ---------- well-formed requests ----------

  /** A command, and for a `put` the job's body. */
  datatype Request = Request(cmd: Command, body: seq<byte>)

  predicate WellFormed(r: Request) {
    Valid(r.cmd) && |r.body| == if r.cmd.Put? then r.cmd.nBytes else 0
  }

  /** A request as a client writes it. */
  function Wire(r: Request): seq<byte> {
    Print(r.cmd) + Ascii("\r\n") + if r.cmd.Put? then r.body + Ascii("\r\n") else []
  }

  function Says(r: Request): seq<Symbol> {
    [Order(r.cmd)] + if r.cmd.Put? then Bodies(r.body) + [End] else []
  }

  /** The normalised answers to a request. */
  function Answers(r: Request): seq<Answer> {
    [Got(Item(r.cmd))] +
    if !r.cmd.Put? then []
    else (if r.body == [] then [] else [Got(PutChunk(r.body))]) + [Got(PutEnd)]
  }

  function WireAll(rs: seq<Request>): seq<byte> {
    if rs == [] then [] else Wire(rs[0]) + WireAll(rs[1..])
  }

  function SaysAll(rs: seq<Request>): seq<Symbol> {
    if rs == [] then [] else Says(rs[0]) + SaysAll(rs[1..])
  }

  function AnswersAll(rs: seq<Request>): seq<Answer> {
    if rs == [] then [] else Answers(rs[0]) + AnswersAll(rs[1..])
  }

  /** A printed command is a line in its own right, inside the window. */
  lemma PrintedLine(c: Command)
    requires Valid(c)
    ensures |Print(c)| + 2 <= MAX_LINE && NoCrlf(Print(c))
  {
    hide Print, Parse;
    LineBound(c);
    ParseOfPrint(c);
    AcceptedVisible(Print(c));
  }

  /** A request is a piece of a stream. */
  function PieceOf(r: Request): P.Piece {
    if r.cmd.Put? then P.WithBody(Print(r.cmd), r.body) else P.Plain(Print(r.cmd))
  }

  function PiecesOf(rs: seq<Request>): seq<P.Piece> {
    if rs == [] then [] else [PieceOf(rs[0])] + PiecesOf(rs[1..])
  }

  lemma RequestIsPiece(r: Request)
    requires WellFormed(r)
    ensures P.Sensible(PieceOf(r)) && P.Wire(PieceOf(r)) == Wire(r)
    ensures P.Says(PieceOf(r)) == Says(r) && P.Answers(PieceOf(r)) == Answers(r)
  {
    hide Print, Parse, Valid, Ascii;
    Separators();
    PrintedLine(r.cmd);
    ParseOfPrint(r.cmd);
  }

  lemma {:induction false} RequestsArePieces(rs: seq<Request>)
    requires forall i :: 0 <= i < |rs| ==> WellFormed(rs[i])
    ensures P.AllSensible(PiecesOf(rs)) && P.WireAll(PiecesOf(rs)) == WireAll(rs)
    ensures P.SaysAll(PiecesOf(rs)) == SaysAll(rs) && P.AnswersAll(PiecesOf(rs)) == AnswersAll(rs)
  {
    hide Wire, Says, Answers, WellFormed, PieceOf, P.Sensible, P.Wire, P.Says, P.Answers;
    if rs != [] {
      RequestIsPiece(rs[0]);
      RequestsArePieces(rs[1..]);
      assert PiecesOf(rs)[1..] == PiecesOf(rs[1..]);
    }
  }

  /** The round trip: however the bytes of well-formed requests are cut up and
      whenever decode is called, what has been said is a prefix of exactly
      those requests; at rest, it is all of them, and the decoder is back at
      the start of a command with an empty buffer. */
  lemma RequestRoundTrip(rs: seq<Request>, actions: seq<Action>)
    requires forall i :: 0 <= i < |rs| ==> WellFormed(rs[i])
    requires Fed(actions) == WireAll(rs)
    ensures var c := Exec(INITIAL, actions);
            && Trace(c.log) <= SaysAll(rs)
            && (Quiescent(c.state, c.buf) ==>
                  Trace(c.log) == SaysAll(rs) && Normal(c.log) == AnswersAll(rs)
                  && c.state == ParseCommand && c.buf == [])
  {
    hide WellFormed, WireAll, SaysAll, AnswersAll, Read, Exec, Fed, Trace, Normal, Quiescent, PiecesOf;
    ReadNothing(START);
    hide P.AllSensible, P.WireAll, P.SaysAll, P.AnswersAll;
    RequestsArePieces(rs);
    assert WireAll(rs) + [] == WireAll(rs) && SaysAll(rs) + [] == SaysAll(rs);
    P.PieceStream(PiecesOf(rs), [], actions);
    if Quiescent(Exec(INITIAL, actions).state, Exec(INITIAL, actions).buf) {
      P.PieceStreamEnds(PiecesOf(rs), actions);
    }
  }

  /** Feeding the requests in any pieces and then calling decode often enough
      does deliver all of them. */
  lemma RequestsArrive(rs: seq<Request>, actions: seq<Action>, n: nat)
    requires forall i :: 0 <= i < |rs| ==> WellFormed(rs[i])
    requires Fed(actions) == WireAll(rs)
    requires n >= 2 * |WireAll(rs)| + 1
    ensures Normal(Exec(INITIAL, actions + Calls(n)).log) == AnswersAll(rs)
  {
    hide WellFormed, WireAll, AnswersAll, SaysAll, Exec, Fed, Trace, Taken, Normal, Quiescent, Read;
    ExecAppend(INITIAL, actions, Calls(n));
    FedByCalls(n);
    Conservation(actions);
    DrainReachesQuiescence(Exec(INITIAL, actions), n);
    assert Fed(actions) + [] == Fed(actions);
    RequestRoundTrip(rs, actions + Calls(n));
  }

  /** One line as a client types it, with leading zeros or without, and the body
      after a `put`: however it is cut up, at rest it has become the command. */
  lemma LineArrives(line: seq<byte>, r: Request, actions: seq<Action>)
    requires Parse(line) == Ok(r.cmd) && |line| <= 222
    requires |r.body| == if r.cmd.Put? then r.cmd.nBytes else 0
    requires Fed(actions) == line + Ascii("\r\n") + if r.cmd.Put? then r.body + Ascii("\r\n") else []
    ensures var c := Exec(INITIAL, actions);
            Quiescent(c.state, c.buf) ==> Normal(c.log) == Answers(r) && c.state == ParseCommand && c.buf == []
  {
    hide Parse, Ascii, Exec, Fed, Normal, Quiescent;
    Separators();
    AcceptedVisible(line);
    var p := if r.cmd.Put? then P.WithBody(line, r.body) else P.Plain(line);
    P.OnePiece(p);
    if Quiescent(Exec(INITIAL, actions).state, Exec(INITIAL, actions).buf) {
      P.PieceStreamEnds([p], actions);
    }
  }

  /** A `put` and its job, in the letters of the protocol. */
  lemma PutArrives(tokens: seq<seq<byte>>, pri: u32, delay: u32, ttr: u32, body: seq<byte>, actions: seq<Action>)
    requires |body| <= 4294967295 && W.Numerals(tokens, [pri, delay, ttr, |body|])
    requires |Ascii("put ") + W.Spaced(tokens)| <= 222
    requires Fed(actions) == Ascii("put ") + W.Spaced(tokens) + Ascii("\r\n") + (body + Ascii("\r\n"))
    ensures var c := Exec(INITIAL, actions);
            Quiescent(c.state, c.buf) ==>
              Normal(c.log) == [Got(Item(Put(pri, delay, ttr, |body|)))]
                               + (if body == [] then [] else [Got(PutChunk(body))]) + [Got(PutEnd)]
  {
    hide Parse, Ascii, Exec, Fed, Normal, Quiescent, W.Spaced;
    var line := Ascii("put ") + W.Spaced(tokens);
    W.PutLines(line, pri, delay, ttr, |body|);
    LineArrives(line, Request(Put(pri, delay, ttr, |body|), body), actions);
  }

  // ---------- resynchronisation ----------

  /** From any discarding configuration, a run says nothing until the first
      CRLF of the buffer and the input after it; from there on it says what a
      fresh decoder would, wherever the pieces of input were cut. */
  lemma Resynchronisation(buf: seq<byte>, actions: seq<Action>)
    ensures var s := buf + Fed(actions);
            var d := Exec(Config(DiscardToNewline, buf, []), actions);
            match FindCrlf(s)
            case None => Trace(d.log) == []
            case Some(k) =>
              && Trace(d.log) <= Read(START, s[k + 2..]).out
              && (Quiescent(d.state, d.buf) ==> Trace(d.log) == Read(START, s[k + 2..]).out)
  {
    hide Read, Exec, Fed, Trace, Quiescent, FindCrlf, NoCrlf;
    ReadNothing(Skip(false));
    var s := buf + Fed(actions);
    TraceIsReferencePrefix(DiscardToNewline, buf, actions);
    if FindCrlf(s).Some? {
      SkipEnds(s);
    } else if s != [] {
      SkipGoesOn(false, s);
    }
  }

  /** The same, against an actual fresh decoder's run. */
  lemma ResynchronisesLikeFresh(buf: seq<byte>, actions: seq<Action>, anew: seq<Action>)
    requires FindCrlf(buf + Fed(actions)).Some?
    requires Fed(anew) == (buf + Fed(actions))[FindCrlf(buf + Fed(actions)).value + 2..]
    requires var d := Exec(Config(DiscardToNewline, buf, []), actions); Quiescent(d.state, d.buf)
    requires Quiescent(Exec(INITIAL, anew).state, Exec(INITIAL, anew).buf)
    ensures Trace(Exec(Config(DiscardToNewline, buf, []), actions).log) == Trace(Exec(INITIAL, anew).log)
  {
    hide Read, Exec, Fed, Trace, Quiescent, FindCrlf;
    Resynchronisation(buf, actions);
    TraceIsReferencePrefix(ParseCommand, [], anew);
    assert [] + Fed(anew) == Fed(anew);
  }
}
