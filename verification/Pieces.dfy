/** Streams made of pieces, good and bad in any order, and what the decoder
    says of them however they are cut up; every stream is one, up to a last
    piece that has not ended. */
module Pieces {
  import opened Base
  import opened Bytes
  import opened Protocol
  import opened Parser
  import opened Decoder
  import opened Reference
  import opened Simulation
  import opened Runs
  import opened Events

  datatype Piece =
    | Plain(line: seq<byte>)                                  // a command without a body
    | WithBody(line: seq<byte>, body: seq<byte>)              // a `put` and its job
    | Bad(line: seq<byte>)                                    // a malformed or overlong line
    | Broken(line: seq<byte>, body: seq<byte>, junk: seq<byte>) // a `put` whose body lacks its CRLF

  /** The error a line earns by itself, if any: too long, or not a command. */
  ghost function LineError(line: seq<byte>): Option<Response> {
    if |line| + 2 > MAX_LINE then Some(BadFormat)
    else if Parse(line).Err? then Some(Parse(line).error)
    else None
  }

  ghost function CommandOf(line: seq<byte>): Command
    requires LineError(line).None?
  {
    Parse(line).value
  }

  /** The text of a line that holds a command. */
  ghost predicate IsCommand(line: seq<byte>) {
    NoCrlf(line) && LineError(line).None?
  }

  /** The text of a `put` line for a body of the given size. */
  ghost predicate IsPut(line: seq<byte>, size: nat) {
    IsCommand(line) && CommandOf(line).Put? && CommandOf(line).nBytes == size
  }

  ghost predicate Sensible(p: Piece) {
    match p
    case Plain(line) => IsCommand(line) && !CommandOf(line).Put?
    case WithBody(line, body) => IsPut(line, |body|)
    case Bad(line) => NoCrlf(line) && LineError(line).Some?
    case Broken(line, body, junk) => IsPut(line, |body|) && NoCrlf(junk) && junk != []
  }

  function Wire(p: Piece): seq<byte> {
    match p
    case Plain(line) => line + CRLF
    case WithBody(line, body) => line + CRLF + (body + CRLF)
    case Bad(line) => line + CRLF
    case Broken(line, body, junk) => line + CRLF + (body + (junk + CRLF))
  }

  /** What a piece has the decoder say. */
  ghost function Says(p: Piece): seq<Symbol>
    requires Sensible(p)
  {
    match p
    case Plain(line) => [Order(CommandOf(line))]
    case WithBody(line, body) => [Order(CommandOf(line))] + (Bodies(body) + [End])
    case Bad(line) => [Fault(LineError(line).value)]
    case Broken(line, body, _) => [Order(CommandOf(line))] + (Bodies(body) + [Fault(ExpectedCRLF)])
  }

  function Chunk(body: seq<byte>): seq<Answer> {
    if body == [] then [] else [Got(PutChunk(body))]
  }

  /** The normalised answers to a piece. */
  ghost function Answers(p: Piece): seq<Answer>
    requires Sensible(p)
  {
    match p
    case Plain(line) => [Got(Item(CommandOf(line)))]
    case WithBody(line, body) => [Got(Item(CommandOf(line)))] + Chunk(body) + [Got(PutEnd)]
    case Bad(line) => [Failed(LineError(line).value)]
    case Broken(line, body, _) => [Got(Item(CommandOf(line)))] + Chunk(body) + [Failed(ExpectedCRLF)]
  }

  ghost predicate AllSensible(ps: seq<Piece>) {
    forall i :: 0 <= i < |ps| ==> Sensible(ps[i])
  }

  function WireAll(ps: seq<Piece>): seq<byte> {
    if ps == [] then [] else Wire(ps[0]) + WireAll(ps[1..])
  }

  ghost function SaysAll(ps: seq<Piece>): seq<Symbol>
    requires AllSensible(ps)
  {
    if ps == [] then [] else Says(ps[0]) + SaysAll(ps[1..])
  }

  ghost function AnswersAll(ps: seq<Piece>): seq<Answer>
    requires AllSensible(ps)
  {
    if ps == [] then [] else Answers(ps[0]) + AnswersAll(ps[1..])
  }

  // ---------- one piece ----------

  lemma OnePiece(p: Piece)
    requires Sensible(p)
    ensures AllSensible([p]) && WireAll([p]) == Wire(p) && AnswersAll([p]) == Answers(p)
  {
    hide Sensible, Wire, Answers;
    assert [p][1..] == [];
    assert AllSensible([p]);
    assert AnswersAll([p]) == Answers(p) + AnswersAll([]);
  }

  lemma CommandReads(line: seq<byte>)
    requires IsCommand(line)
    ensures Read(START, line + CRLF)
         == Run(if CommandOf(line).Put? then AfterPut(CommandOf(line).nBytes) else START, [Order(CommandOf(line))])
  {
    hide Read, Parse, FindCrlf;
    TextFound(line);
    LineEnds(line + CRLF);
  }

  lemma LongLineReads(line: seq<byte>)
    requires NoCrlf(line) && |line| + 2 > MAX_LINE
    ensures Read(START, line + CRLF) == Run(START, [Fault(BadFormat)])
  {
    hide Read, FindCrlf, NoCrlf;
    ReadNothing(START);
    var s := line + CRLF;
    TextFound(line);
    BeforeFirstCrlf(s, MAX_LINE);
    var head, tail := s[..MAX_LINE], s[MAX_LINE..];
    assert s == head + tail;
    LineOverflows(head);
    ReadAppend(START, head, tail);
    SkipGoesOn(false, head);
    ReadAppend(Skip(false), head, tail);
    SkipEnds(s);
  }

  lemma BadLineReads(line: seq<byte>)
    requires NoCrlf(line) && LineError(line).Some?
    ensures Read(START, line + CRLF) == Run(START, [Fault(LineError(line).value)])
  {
    hide Read, Parse, FindCrlf;
    if |line| + 2 > MAX_LINE {
      LongLineReads(line);
    } else {
      TextFound(line);
      LineEnds(line + CRLF);
    }
  }

  /** Where CRLF should be, anything else is a fault, and the rest of that line
      is skipped. */
  lemma JunkReads(junk: seq<byte>)
    requires NoCrlf(junk) && junk != []
    ensures Read(Tail, junk + CRLF) == Run(START, [Fault(ExpectedCRLF)])
  {
    hide Read, FindCrlf;
    ReadNothing(START);
    var s := junk + CRLF;
    TextFound(junk);
    var head, tail := [s[0], s[1]], s[2..];
    assert s == head + tail;
    assert !CrlfAt(s, 0);
    TerminatorRead(s[0], s[1]);
    ReadAppend(Tail, head, tail);
    SkipGoesOn(false, head);
    ReadAppend(Skip(false), head, tail);
    SkipEnds(s);
  }

  lemma BodyReads(line: seq<byte>, body: seq<byte>, after: seq<byte>)
    requires IsPut(line, |body|)
    ensures var end := Read(Tail, after);
            Read(START, line + CRLF + (body + after))
            == Run(end.mode, [Order(CommandOf(line))] + (Bodies(body) + end.out))
  {
    CommandReads(line);
    hide Read, Parse, LineError;
    ReadAppend(START, line + CRLF, body + after);
    JobRuns(|body|, body);
    ReadAppend(AfterPut(|body|), body, after);
  }

  lemma PieceReads(p: Piece)
    requires Sensible(p)
    ensures Read(START, Wire(p)) == Run(START, Says(p))
  {
    hide Read, LineError, CommandOf;
    match p
    case Plain(line) => CommandReads(line);
    case WithBody(line, body) =>
      TerminatorRead(CR, LF);
      BodyReads(line, body, CRLF);
    case Bad(line) => BadLineReads(line);
    case Broken(line, body, junk) =>
      JunkReads(junk);
      BodyReads(line, body, junk + CRLF);
  }

  lemma {:induction false} PiecesRead(ps: seq<Piece>)
    requires AllSensible(ps)
    ensures Read(START, WireAll(ps)) == Run(START, SaysAll(ps))
  {
    if ps != [] {
      assert Sensible(ps[0]);
      PieceReads(ps[0]);
      PiecesRead(ps[1..]);
      ReadAppend(START, Wire(ps[0]), WireAll(ps[1..]));
      hide Wire, Says, Sensible, Take;
    }
  }

  lemma PieceGroups(before: seq<Symbol>, p: Piece)
    requires Sensible(p)
    ensures Group(before + Says(p)) == Group(before) + Answers(p)
  {
    hide Group, Parse, NoCrlf;
    match p
    case Plain(line) => GroupSnoc(before, Order(CommandOf(line)));
    case WithBody(line, body) => JobGroups(before, CommandOf(line), body, End);
    case Bad(line) => GroupSnoc(before, Fault(LineError(line).value));
    case Broken(line, body, _) => JobGroups(before, CommandOf(line), body, Fault(ExpectedCRLF));
  }

  lemma JobGroups(before: seq<Symbol>, cmd: Command, body: seq<byte>, last: Symbol)
    requires !last.Body?
    ensures Group(before + ([Order(cmd)] + (Bodies(body) + [last])))
         == Group(before) + ([Got(Item(cmd))] + Chunk(body) + [Saying(last)])
  {
    hide Group;
    GroupSnoc(before, Order(cmd));
    var begun := before + [Order(cmd)];
    var all := begun + Bodies(body);
    if body == [] {
      assert all == begun;
    } else {
      GroupBodies(begun, body);
    }
    GroupSnoc(all, last);
    assert before + ([Order(cmd)] + (Bodies(body) + [last])) == all + [last];
  }

  lemma {:induction false} PiecesGroup(before: seq<Symbol>, ps: seq<Piece>)
    requires AllSensible(ps)
    ensures Group(before + SaysAll(ps)) == Group(before) + AnswersAll(ps)
    decreases |ps|
  {
    hide Says, Answers, Group, Sensible;
    if ps == [] {
      assert before + [] == before;
    } else {
      assert Sensible(ps[0]);
      PieceGroups(before, ps[0]);
      PiecesGroup(before + Says(ps[0]), ps[1..]);
      assert before + SaysAll(ps) == (before + Says(ps[0])) + SaysAll(ps[1..]);
      assert Group(before) + Answers(ps[0]) + AnswersAll(ps[1..])
          == Group(before) + (Answers(ps[0]) + AnswersAll(ps[1..]));
    }
  }

  // ---------- runs over pieces ----------

  /** Whatever follows the pieces, and however all of it is cut up, what has
      been said is a prefix of what the pieces have the decoder say, followed by
      the reading of what comes after as by a fresh decoder; at rest it is all
      of that. So a bad piece gives its one error and spoils nothing else. */
  lemma PieceStream(ps: seq<Piece>, rest: seq<byte>, actions: seq<Action>)
    requires AllSensible(ps) && Fed(actions) == WireAll(ps) + rest
    ensures var c := Exec(INITIAL, actions);
            var all := SaysAll(ps) + Read(START, rest).out;
            Trace(c.log) <= all && (Quiescent(c.state, c.buf) ==> Trace(c.log) == all)
  {
    hide AllSensible, WireAll, SaysAll, Read, Exec, Fed, Trace, Quiescent;
    PiecesRead(ps);
    ReadAppend(START, WireAll(ps), rest);
    TraceIsReferencePrefix(ParseCommand, [], actions);
    assert [] + Fed(actions) == Fed(actions);
  }

  /** When the pieces are the whole stream, the decoder rests with exactly
      their answers, at the start of a command, with an empty buffer. */
  lemma PieceStreamEnds(ps: seq<Piece>, actions: seq<Action>)
    requires AllSensible(ps) && Fed(actions) == WireAll(ps)
    requires Quiescent(Exec(INITIAL, actions).state, Exec(INITIAL, actions).buf)
    ensures var c := Exec(INITIAL, actions);
            Trace(c.log) == SaysAll(ps) && Normal(c.log) == AnswersAll(ps)
            && c.state == ParseCommand && c.buf == []
  {
    hide AllSensible, WireAll, SaysAll, AnswersAll, Read, Exec, Fed, Trace, Normal, Quiescent, DecodeStep;
    var c := Exec(INITIAL, actions);
    PiecesRead(ps);
    TraceIsReferencePrefix(ParseCommand, [], actions);
    assert [] + Fed(actions) == Fed(actions);
    RunAccounts(ParseCommand, [], actions);
    DiscardKeepsAByte(actions);
    QuiescentMode(c.state, c.buf);
    PieceNormal(ps, actions);
  }

  /** A run that has said what the pieces say has their normalised answers. */
  lemma PieceNormal(ps: seq<Piece>, actions: seq<Action>)
    requires AllSensible(ps) && Trace(Exec(INITIAL, actions).log) == SaysAll(ps)
    ensures Normal(Exec(INITIAL, actions).log) == AnswersAll(ps)
  {
    assert Group([]) == [];
    hide AllSensible, SaysAll, AnswersAll, Exec, Trace, Normal, Monitor, Group;
    var log := Exec(INITIAL, actions).log;
    RunObeysGrammar(actions);
    ChunksNonEmpty(log);
    NormalIsGroupedTrace(log);
    PiecesGroup([], ps);
    assert [] + SaysAll(ps) == SaysAll(ps);
    assert [] + AnswersAll(ps) == AnswersAll(ps);
  }

  /** Error containment: after any pieces, good and bad, what follows is decoded
      as by an actual fresh decoder. */
  lemma ErrorContainment(ps: seq<Piece>, rest: seq<byte>, actions: seq<Action>, anew: seq<Action>)
    requires AllSensible(ps) && Fed(actions) == WireAll(ps) + rest && Fed(anew) == rest
    requires Quiescent(Exec(INITIAL, anew).state, Exec(INITIAL, anew).buf)
    ensures var c, fresher := Exec(INITIAL, actions), Exec(INITIAL, anew);
            && Trace(c.log) <= SaysAll(ps) + Trace(fresher.log)
            && (Quiescent(c.state, c.buf) ==> Trace(c.log) == SaysAll(ps) + Trace(fresher.log))
  {
    hide AllSensible, WireAll, SaysAll, Read, Exec, Fed, Trace, Quiescent;
    PieceStream(ps, rest, actions);
    TraceIsReferencePrefix(ParseCommand, [], anew);
    assert [] + rest == rest;
  }

  // ---------- every stream is made of pieces ----------

  /** A `put` is waiting for the rest of its body, for the two bytes after it,
      or for the end of the line that stands in their place. */
  ghost predicate JobUnfinished(n: nat, after: seq<byte>) {
    |after| < n + 2 || (!CrlfAt(after, n) && NoCrlf(after[n..]))
  }

  /** No piece has ended yet. */
  ghost predicate Unfinished(s: seq<byte>) {
    match FindCrlf(s)
    case None => true
    case Some(k) =>
      && LineError(s[..k]).None? && CommandOf(s[..k]).Put?
      && JobUnfinished(CommandOf(s[..k]).nBytes, s[k + 2..])
  }

  /** The first piece of a stream in which one has ended, and what follows. */
  lemma FirstPiece(s: seq<byte>) returns (p: Piece, rest: seq<byte>)
    requires !Unfinished(s)
    ensures Sensible(p) && s == Wire(p) + rest && |rest| < |s|
  {
    hide Parse;
    var k := FindCrlf(s).value;
    var line, after := s[..k], s[k + 2..];
    BeforeFirstCrlf(s, k);
    assert s == line + CRLF + after;
    hide FindCrlf, NoCrlf, CrlfAt;
    if LineError(line).Some? {
      p, rest := Bad(line), after;
    } else if !CommandOf(line).Put? {
      p, rest := Plain(line), after;
    } else {
      p, rest := FirstJob(line, after);
    }
  }

  lemma FirstJob(line: seq<byte>, after: seq<byte>) returns (p: Piece, rest: seq<byte>)
    requires IsCommand(line) && CommandOf(line).Put?
    requires !JobUnfinished(CommandOf(line).nBytes, after)
    ensures Sensible(p) && line + CRLF + after == Wire(p) + rest && |rest| <= |after|
  {
    hide LineError, CommandOf, FindCrlf;
    var n := CommandOf(line).nBytes;
    var body, tail := after[..n], after[n..];
    assert after == body + tail;
    if CrlfAt(after, n) {
      p, rest := WithBody(line, body), tail[2..];
      assert tail == CRLF + rest;
      Regroup(line + CRLF, body, CRLF, rest);
    } else {
      assert !CrlfAt(tail, 0);
      var junk;
      junk, rest := CutAtCrlf(tail);
      p := Broken(line, body, junk);
      Regroup(line + CRLF, body, junk + CRLF, rest);
    }
  }

  lemma Regroup(head: seq<byte>, body: seq<byte>, end: seq<byte>, rest: seq<byte>)
    ensures head + (body + (end + rest)) == head + (body + end) + rest
  {
  }

  /** Every stream whatsoever is pieces followed by an unfinished one. */
  lemma {:induction false} EveryStreamIsPieces(s: seq<byte>) returns (ps: seq<Piece>, rest: seq<byte>)
    ensures AllSensible(ps) && Unfinished(rest) && s == WireAll(ps) + rest
    decreases |s|
  {
    hide Sensible, Wire, Unfinished;
    if Unfinished(s) {
      ps, rest := [], s;
    } else {
      var p, after := FirstPiece(s);
      var more;
      more, rest := EveryStreamIsPieces(after);
      ps := [p] + more;
      assert ps[1..] == more;
      assert Wire(p) + (WireAll(more) + rest) == (Wire(p) + WireAll(more)) + rest;
    }
  }
}
