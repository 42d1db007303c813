/** Whole runs of the decoder: input arriving in any pieces, at any time
    between decode calls. */
module Runs {
  import opened Base
  import opened Bytes
  import opened Buffers
  import opened Decoder
  import opened Reference
  import opened Simulation

  datatype Action = Feed(bytes: seq<byte>) | Call

  /** A decode call's answer, and the bytes it took from the buffer. */
  datatype Entry = Entry(answer: Answer, taken: seq<byte>)

  datatype Config = Config(state: State, buf: seq<byte>, log: seq<Entry>)

  const INITIAL: Config := Config(ParseCommand, [], [])

  /** What a decode call answers, with the bytes it takes off the front. */
  ghost function CallEntry(state: State, buf: seq<byte>): (e: Entry)
    ensures e.answer == DecodeStep(state, buf).answer
    ensures buf == e.taken + DecodeStep(state, buf).rest
  {
    hide Parser.Parse;
    var step := DecodeStep(state, buf);
    StepTakesPrefix(state, buf);
    Entry(step.answer, buf[..|buf| - |step.rest|])
  }

  ghost function Act(c: Config, a: Action): Config {
    match a
    case Feed(bytes) => c.(buf := c.buf + bytes)
    case Call =>
      var step := DecodeStep(c.state, c.buf);
      Config(step.state, step.rest, c.log + [CallEntry(c.state, c.buf)])
  }

  ghost function Exec(c: Config, actions: seq<Action>): Config {
    if actions == [] then c else Act(Exec(c, actions[..|actions| - 1]), actions[|actions| - 1])
  }

  function Delivered(a: Action): seq<byte> {
    if a.Feed? then a.bytes else []
  }

  /** All bytes that the actions deliver. */
  function Fed(actions: seq<Action>): seq<byte> {
    if actions == [] then []
    else
      Fed(actions[..|actions| - 1]) + Delivered(actions[|actions| - 1])
  }

  /** What a log says. */
  function Trace(log: seq<Entry>): seq<Symbol> {
    if log == [] then [] else Trace(log[..|log| - 1]) + Symbols(log[|log| - 1].answer)
  }

  /** The bytes that a log's calls took, in order. */
  function Taken(log: seq<Entry>): seq<byte> {
    if log == [] then [] else Taken(log[..|log| - 1]) + log[|log| - 1].taken
  }

  function Calls(n: nat): seq<Action> {
    seq(n, _ => Call)
  }

  lemma LogSnoc(log: seq<Entry>, e: Entry)
    ensures Trace(log + [e]) == Trace(log) + Symbols(e.answer)
    ensures Taken(log + [e]) == Taken(log) + e.taken
  {
    assert (log + [e])[..|log|] == log;
  }

  lemma {:induction false} ExecAppend(c: Config, a: seq<Action>, b: seq<Action>)
    ensures Exec(c, a + b) == Exec(Exec(c, a), b)
    ensures Fed(a + b) == Fed(a) + Fed(b)
    decreases |b|
  {
    hide Act, Delivered;
    if b == [] {
      assert a + b == a;
    } else {
      var init, last := b[..|b| - 1], b[|b| - 1];
      ExecAppend(c, a, init);
      assert (a + b)[..|a + b| - 1] == a + init;
      assert (a + b)[|a + b| - 1] == last;
      assert Fed(a) + (Fed(init) + Delivered(last)) == (Fed(a) + Fed(init)) + Delivered(last);
    }
  }

  lemma {:induction false} FedByCalls(n: nat)
    ensures Fed(Calls(n)) == []
  {
    if n > 0 {
      FedByCalls(n - 1);
      assert Calls(n)[..n - 1] == Calls(n - 1);
    }
  }

  // ---------- chunking does not matter ----------

  /** What a configuration has said, and what the reference reader would still
      say of its buffer, together are what it says of `all` bytes from `mode`. */
  ghost predicate Accounts(c: Config, mode: Mode, all: seq<byte>) {
    var after := Read(ModeOf(c.state), c.buf);
    Read(mode, all) == Run(after.mode, Trace(c.log) + after.out)
  }

  lemma FeedAccounts(c: Config, mode: Mode, all: seq<byte>, bytes: seq<byte>)
    requires Accounts(c, mode, all)
    ensures Accounts(Act(c, Feed(bytes)), mode, all + bytes)
  {
    hide DecodeStep, Take, Read;
    ReadAppend(mode, all, bytes);
    ReadAppend(ModeOf(c.state), c.buf, bytes);
  }

  lemma CallAccounts(c: Config, mode: Mode, all: seq<byte>)
    requires Accounts(c, mode, all)
    ensures Accounts(Act(c, Call), mode, all)
  {
    hide DecodeStep, Read, Symbols, Trace;
    StepAgrees(c.state, c.buf);
    var e, c' := CallEntry(c.state, c.buf), Act(c, Call);
    LogSnoc(c.log, e);
    var after := Read(ModeOf(c'.state), c'.buf);
    assert Trace(c'.log) == Trace(c.log) + Symbols(e.answer);
    assert Trace(c.log) + (Symbols(e.answer) + after.out) == Trace(c'.log) + after.out;
  }

  lemma ActAccounts(c: Config, a: Action, mode: Mode, all: seq<byte>)
    requires Accounts(c, mode, all)
    ensures Accounts(Act(c, a), mode, all + Delivered(a))
  {
    hide DecodeStep, Accounts;
    match a
    case Feed(bytes) => FeedAccounts(c, mode, all, bytes);
    case Call =>
      assert all + [] == all;
      CallAccounts(c, mode, all);
  }

  lemma {:induction false} RunAccounts(state: State, buf: seq<byte>, actions: seq<Action>)
    ensures Accounts(Exec(Config(state, buf, []), actions), ModeOf(state), buf + Fed(actions))
    decreases |actions|
  {
    hide Act, Read, Delivered;
    if actions == [] {
      assert buf + [] == buf;
    } else {
      var before, last := actions[..|actions| - 1], actions[|actions| - 1];
      RunAccounts(state, buf, before);
      ActAccounts(Exec(Config(state, buf, []), before), last, ModeOf(state), buf + Fed(before));
      assert buf + Fed(actions) == (buf + Fed(before)) + Delivered(last);
    }
  }

  /** Chunking independence: for every interleaving of input and decode calls,
      and every continuation of the stream, the trace so far followed by the
      reference reading of what is left is the reference reading of it all. */
  lemma ChunkingIndependence(state: State, buf: seq<byte>, actions: seq<Action>, future: seq<byte>)
    ensures var c := Exec(Config(state, buf, []), actions);
            Trace(c.log) + Read(ModeOf(c.state), c.buf + future).out
            == Read(ModeOf(state), buf + Fed(actions) + future).out
  {
    hide DecodeStep, Read, Exec, Fed, Trace;
    RunAccounts(state, buf, actions);
    FeedAccounts(Exec(Config(state, buf, []), actions), ModeOf(state), buf + Fed(actions), future);
  }

  /** The trace so far is always a prefix of the reference trace of the bytes
      fed so far, and is all of it whenever the decoder is quiescent. */
  lemma TraceIsReferencePrefix(state: State, buf: seq<byte>, actions: seq<Action>)
    ensures var c := Exec(Config(state, buf, []), actions);
            var all := Read(ModeOf(state), buf + Fed(actions)).out;
            Trace(c.log) <= all && (Quiescent(c.state, c.buf) ==> Trace(c.log) == all)
  {
    hide DecodeStep, Read, Exec, Fed, Trace, Quiescent;
    var c := Exec(Config(state, buf, []), actions);
    RunAccounts(state, buf, actions);
    if Quiescent(c.state, c.buf) {
      QuiescentIsSilent(c.state, c.buf);
    }
  }

  // ---------- reachable configurations ----------

  lemma ActConserves(c: Config, a: Action)
    ensures Taken(Act(c, a).log) + Act(c, a).buf == Taken(c.log) + c.buf + Delivered(a)
  {
    hide DecodeStep;
    if a.Call? {
      LogSnoc(c.log, CallEntry(c.state, c.buf));
    }
  }

  /** Nothing is lost: the bytes taken and the bytes buffered are those fed. */
  lemma {:induction false} Conservation(actions: seq<Action>)
    ensures var c := Exec(INITIAL, actions); Taken(c.log) + c.buf == Fed(actions)
    decreases |actions|
  {
    hide Act;
    if actions != [] {
      Conservation(actions[..|actions| - 1]);
      ActConserves(Exec(INITIAL, actions[..|actions| - 1]), actions[|actions| - 1]);
    }
  }

  /** While discarding there is always a byte in the buffer, so that decode
      never answers "not yet" there. */
  lemma {:induction false} DiscardKeepsAByte(actions: seq<Action>)
    ensures var c := Exec(INITIAL, actions);
            c.state.DiscardToNewline? ==> c.buf != [] && DecodeStep(c.state, c.buf).answer == Got(Discarded)
    decreases |actions|
  {
    hide Parser.Parse;
    if actions != [] {
      DiscardKeepsAByte(actions[..|actions| - 1]);
    }
  }

  // ---------- progress ----------

  lemma {:induction false} QuiescentForever(c: Config, n: nat)
    requires Quiescent(c.state, c.buf)
    ensures var d := Exec(c, Calls(n)); d.state == c.state && d.buf == c.buf
  {
    hide DecodeStep, Quiescent;
    if n > 0 {
      assert Calls(n)[..n - 1] == Calls(n - 1);
      QuiescentForever(c, n - 1);
      QuiescentIsSilent(c.state, c.buf);
    }
  }

  /** Any number of decode calls beyond the fuel leaves nothing to decode. */
  lemma {:induction false} DrainReachesQuiescence(c: Config, n: nat)
    requires n >= Fuel(c.state, c.buf)
    ensures var d := Exec(c, Calls(n)); Quiescent(d.state, d.buf)
    decreases n
  {
    hide DecodeStep, Quiescent;
    Progress(c.state, c.buf);
    if Quiescent(c.state, c.buf) {
      QuiescentForever(c, n);
    } else {
      var c1 := Act(c, Call);
      assert Exec(c, [Call]) == c1 by {
        assert [Call][..0] == [];
      }
      assert Calls(n) == [Call] + Calls(n - 1);
      ExecAppend(c, [Call], Calls(n - 1));
      DrainReachesQuiescence(c1, n - 1);
    }
  }

  /** After any run, enough further decode calls complete the reference trace. */
  lemma DrainCompletesTrace(actions: seq<Action>, n: nat)
    requires n >= Fuel(Exec(INITIAL, actions).state, Exec(INITIAL, actions).buf)
    ensures var c := Exec(INITIAL, actions + Calls(n));
            Quiescent(c.state, c.buf) && Trace(c.log) == Read(START, Fed(actions)).out
  {
    hide DecodeStep, Read, Exec, Fed, Trace, Quiescent;
    ExecAppend(INITIAL, actions, Calls(n));
    FedByCalls(n);
    DrainReachesQuiescence(Exec(INITIAL, actions), n);
    TraceIsReferencePrefix(ParseCommand, [], actions + Calls(n));
    assert [] + Fed(actions + Calls(n)) == Fed(actions);
  }

  // ---------- two runs over the same bytes ----------

  lemma QuiescentMode(state: State, buf: seq<byte>)
    requires Quiescent(state, buf) && (state.DiscardToNewline? ==> buf != [])
    ensures Read(ModeOf(state), buf).mode ==
            match state
            case ParseCommand => Line(buf)
            case ParseJob(remaining) =>
              if remaining > 0 then Job(remaining) else if buf == [] then Tail else TailLf(buf[0])
            case DiscardToNewline => Skip(buf[0] == CR)
    ensures state.ParseJob? ==> |buf| <= if state.remaining == 0 then 1 else 0
    ensures state.DiscardToNewline? ==> |buf| == 1
  {
    hide Parser.Parse;
    match state
    case ParseCommand =>
      assert Window(buf) == buf;
      FreshLine(buf);
    case ParseJob(remaining) =>
      if remaining == 0 && |buf| == 1 {
        assert buf == [buf[0]];
        ReadOne(Tail, buf[0]);
      }
    case DiscardToNewline =>
      assert buf == [buf[0]];
      ReadOne(Skip(false), buf[0]);
  }

  /** Two runs over the same bytes, however cut up, that have both come to rest
      have said the same things and rest in the same configuration. */
  lemma ChunkingAgreement(a1: seq<Action>, a2: seq<Action>)
    requires Fed(a1) == Fed(a2)
    requires Quiescent(Exec(INITIAL, a1).state, Exec(INITIAL, a1).buf)
    requires Quiescent(Exec(INITIAL, a2).state, Exec(INITIAL, a2).buf)
    ensures var c1, c2 := Exec(INITIAL, a1), Exec(INITIAL, a2);
            Trace(c1.log) == Trace(c2.log) && c1.state == c2.state && c1.buf == c2.buf
  {
    var c1, c2 := Exec(INITIAL, a1), Exec(INITIAL, a2);
    hide DecodeStep, Quiescent, Read, Exec, Fed, Trace, Taken;
    TraceIsReferencePrefix(ParseCommand, [], a1);
    TraceIsReferencePrefix(ParseCommand, [], a2);
    RunAccounts(ParseCommand, [], a1);
    RunAccounts(ParseCommand, [], a2);
    DiscardKeepsAByte(a1);
    DiscardKeepsAByte(a2);
    QuiescentMode(c1.state, c1.buf);
    QuiescentMode(c2.state, c2.buf);
    Conservation(a1);
    Conservation(a2);
    if c1.state.DiscardToNewline? {
      assert c1.buf[0] == Fed(a1)[|Fed(a1)| - 1] == c2.buf[0];
    } else if c1.state.ParseJob? && c1.buf != [] {
      assert c1.buf == [c1.buf[0]] && c2.buf == [c2.buf[0]];
    }
  }

  // ---------- the decoder object ----------

  function AnswersOf(log: seq<Entry>): seq<Answer> {
    seq(|log|, i requires 0 <= i < |log| => log[i].answer)
  }

  /** Playing actions against a decoder object is a run of the model. */
  method Replay(actions: seq<Action>) returns (answers: seq<Answer>, state: State, rest: seq<byte>)
    ensures var c := Exec(INITIAL, actions);
            answers == AnswersOf(c.log) && state == c.state && rest == c.buf
  {
    var decoder := new Decoder();
    var src := new Buffer();
    answers := [];
    for i := 0 to |actions|
      invariant fresh(decoder) && fresh(src)
      invariant var c := Exec(INITIAL, actions[..i]);
                answers == AnswersOf(c.log) && decoder.state == c.state && src.data == c.buf
    {
      hide DecodeStep;
      assert actions[..i + 1][..i] == actions[..i];
      match actions[i] {
        case Feed(bytes) => src.PutSlice(bytes);
        case Call =>
          var answer := decoder.Decode(src);
          answers := answers + [answer];
      }
    }
    assert actions[..|actions|] == actions;
    return answers, decoder.state, src.data;
  }
}
