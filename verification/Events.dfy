/** The sequence of answers a run gives: its grammar, its tie to the bytes of
    the stream, and its normal form. */
module Events {
  import opened Base
  import opened Bytes
  import opened Protocol
  import opened Parser
  import opened Decoder
  import opened Reference
  import opened Simulation
  import opened Runs

  // ---------- the grammar of answers ----------

  datatype Phase =
    | Idle
    | InJob(size: nat, got: seq<byte>)
    | Skipping

  /** A command line with its CRLF, which is its first, inside the window. */
  ghost predicate IsLine(taken: seq<byte>) {
    2 <= |taken| <= MAX_LINE && FindCrlf(taken) == Some(|taken| - 2)
  }

  function LineOf(taken: seq<byte>): seq<byte>
    requires |taken| >= 2
  {
    taken[..|taken| - 2]
  }

  /** Which answer, taking which bytes, may come in a phase, and what follows. */
  ghost function Accept(phase: Phase, e: Entry): Option<Phase> {
    match e.answer
    case Pending =>
      if !phase.Skipping? && e.taken == [] then Some(phase) else None
    case Got(Item(cmd)) =>
      if phase.Idle? && IsLine(e.taken) && Parse(LineOf(e.taken)) == Ok(cmd)
      then Some(if cmd.Put? then InJob(cmd.nBytes, []) else Idle)
      else None
    case Got(PutChunk(data)) =>
      if phase.InJob? && data != [] && e.taken == data && |phase.got| + |data| <= phase.size
      then Some(InJob(phase.size, phase.got + data))
      else None
    case Got(PutEnd) =>
      if phase.InJob? && |phase.got| == phase.size && e.taken == CRLF then Some(Idle) else None
    case Got(Discarded) =>
      if !phase.Skipping? then None
      else if |e.taken| >= 2 && FindCrlf(e.taken) == Some(|e.taken| - 2) then Some(Idle)
      else if FindCrlf(e.taken).None? then Some(Skipping)
      else None
    case Failed(error) =>
      if phase.Idle? && IsLine(e.taken) && Parse(LineOf(e.taken)) == Err(error) then Some(Idle)
      else if phase.Idle? && e.taken == [] && error == BadFormat then Some(Skipping)
      else if phase.InJob? && |phase.got| == phase.size && e.taken == [] && error == ExpectedCRLF
      then Some(Skipping)
      else None
  }

  ghost function Monitor(log: seq<Entry>): Option<Phase> {
    if log == [] then Some(Idle)
    else
      var phase := Monitor(log[..|log| - 1]);
      if phase.None? then None else Accept(phase.value, log[|log| - 1])
  }

  ghost predicate PhaseFits(phase: Phase, state: State) {
    match state
    case ParseCommand => phase.Idle?
    case ParseJob(remaining) => phase.InJob? && |phase.got| + remaining == phase.size
    case DiscardToNewline => phase.Skipping?
  }

  /** One call's answer is admissible in the phase of the decoder's state. */
  ghost predicate Accepted(phase: Phase, state: State, buf: seq<byte>) {
    var next := Accept(phase, CallEntry(state, buf));
    next.Some? && PhaseFits(next.value, DecodeStep(state, buf).state)
  }

  lemma TakenIs(state: State, buf: seq<byte>, n: nat)
    requires n <= |buf| && DecodeStep(state, buf).rest == buf[n..]
    ensures CallEntry(state, buf) == Entry(DecodeStep(state, buf).answer, buf[..n])
  {
    hide DecodeStep;
    var e := CallEntry(state, buf);
    assert |e.taken| == n;
    assert buf[..n] == (e.taken + buf[n..])[..n] == e.taken;
  }

  lemma CommandAccepted(buf: seq<byte>)
    ensures Accepted(Idle, ParseCommand, buf)
  {
    hide Parse, FindCrlf, CallEntry;
    if FindCrlf(Window(buf)).Some? {
      FirstLine(buf);
      var idx := FindCrlf(Window(buf)).value;
      TakenIs(ParseCommand, buf, idx + 2);
      assert LineOf(buf[..idx + 2]) == buf[..idx];
    } else {
      TakenIs(ParseCommand, buf, 0);
    }
  }

  lemma JobAccepted(phase: Phase, remaining: nat, buf: seq<byte>)
    requires PhaseFits(phase, ParseJob(remaining))
    ensures Accepted(phase, ParseJob(remaining), buf)
  {
    hide CommandStep, DiscardStep, CallEntry;
    if remaining == 0 {
      if |buf| >= 2 && buf[0] == CR && buf[1] == LF {
        TakenIs(ParseJob(remaining), buf, 2);
        assert buf[..2] == CRLF;
      } else {
        TakenIs(ParseJob(remaining), buf, 0);
      }
    } else {
      TakenIs(ParseJob(remaining), buf, Min(remaining, |buf|));
    }
  }

  lemma DiscardAccepted(buf: seq<byte>)
    requires buf != []
    ensures Accepted(Skipping, DiscardToNewline, buf)
  {
    hide CommandStep, CallEntry;
    if FindCrlf(buf).Some? {
      FindCrlfPrefix(buf);
      TakenIs(DiscardToNewline, buf, FindCrlf(buf).value + 2);
    } else {
      NoCrlfSlice(buf, 0, |buf| - 1);
      TakenIs(DiscardToNewline, buf, |buf| - 1);
    }
  }

  lemma CallAccepted(phase: Phase, state: State, buf: seq<byte>)
    requires PhaseFits(phase, state) && (state.DiscardToNewline? ==> buf != [])
    ensures Accepted(phase, state, buf)
  {
    hide Accepted;
    match state
    case ParseCommand => CommandAccepted(buf);
    case ParseJob(remaining) => JobAccepted(phase, remaining, buf);
    case DiscardToNewline => DiscardAccepted(buf);
  }

  /** Every run obeys the grammar, in the phase that its state says. */
  lemma {:induction false} RunObeysGrammar(actions: seq<Action>)
    ensures var c := Exec(INITIAL, actions);
            var phase := Monitor(c.log);
            phase.Some? && PhaseFits(phase.value, c.state)
    decreases |actions|
  {
    hide DecodeStep, Accept;
    if actions != [] {
      var before, last := actions[..|actions| - 1], actions[|actions| - 1];
      var b := Exec(INITIAL, before);
      RunObeysGrammar(before);
      if last.Call? {
        DiscardKeepsAByte(before);
        CallAccepted(Monitor(b.log).value, b.state, b.buf);
        var c := Act(b, last);
        assert c.log[..|c.log| - 1] == b.log;
      }
    }
  }

  // ---------- job bodies ----------

  predicate IsChunk(a: Answer) {
    a.Got? && a.event.PutChunk?
  }

  /** `log[j]` is a `put` of `size` bytes, and only its chunks follow. */
  predicate PutAt(log: seq<Entry>, j: nat, size: nat) {
    && j < |log|
    && log[j].answer.Got? && log[j].answer.event.Item?
    && log[j].answer.event.cmd.Put? && log[j].answer.event.cmd.nBytes == size
    && forall k :: j < k < |log| ==>
         log[k].answer.Pending? || IsChunk(log[k].answer)
  }

  /** Inside a job, an answer either opens it or adds its bytes to it. */
  lemma InJobAnswer(before: Phase, e: Entry)
    requires Accept(before, e).Some? && Accept(before, e).value.InJob?
    ensures var after := Accept(before, e).value;
            if before.InJob? then
              && after.size == before.size && after.got == before.got + e.taken
              && (e.answer.Pending? || IsChunk(e.answer))
              && Symbols(e.answer) == Bodies(e.taken)
              && (|before.got| <= before.size ==> |after.got| <= after.size)
            else
              && after.got == []
              && e.answer.Got? && e.answer.event.Item? && e.answer.event.cmd.Put?
              && e.answer.event.cmd.nBytes == after.size
  {
    hide Parse;
    assert Bodies([]) == [];
  }

  /** Since the `put` at `j`, exactly the bytes `got` were taken and said. */
  ghost predicate Gathered(log: seq<Entry>, j: nat, size: nat, got: seq<byte>) {
    && PutAt(log, j, size)
    && Taken(log) == Taken(log[..j + 1]) + got
    && Trace(log) == Trace(log[..j + 1]) + Bodies(got)
    && |got| <= size
  }

  lemma GatheringStarts(before: seq<Entry>, e: Entry, size: nat)
    requires PutAt(before + [e], |before|, size)
    ensures Gathered(before + [e], |before|, size, [])
  {
    assert (before + [e])[..|before| + 1] == before + [e];
    assert Bodies([]) == [];
  }

  lemma GatheringGoesOn(before: seq<Entry>, e: Entry, j: nat, size: nat, got: seq<byte>)
    requires Gathered(before, j, size, got)
    requires e.answer.Pending? || IsChunk(e.answer)
    requires Symbols(e.answer) == Bodies(e.taken) && |got + e.taken| <= size
    ensures Gathered(before + [e], j, size, got + e.taken)
  {
    hide Symbols, Taken, Trace;
    LogSnoc(before, e);
    assert (before + [e])[..j + 1] == before[..j + 1];
    BodiesAppend(got, e.taken);
    var t := Taken(before[..j + 1]);
    assert t + got + e.taken == t + (got + e.taken);
    var u := Trace(before[..j + 1]);
    assert u + Bodies(got) + Bodies(e.taken) == u + (Bodies(got) + Bodies(e.taken));
  }

  lemma {:induction false} JobHistory(log: seq<Entry>) returns (j: nat)
    requires Monitor(log).Some? && Monitor(log).value.InJob?
    ensures Gathered(log, j, Monitor(log).value.size, Monitor(log).value.got)
    decreases |log|
  {
    var before, last := log[..|log| - 1], log[|log| - 1];
    assert log == before + [last];
    var phase, after := Monitor(before).value, Monitor(log).value;
    hide Accept, Symbols, Gathered, Monitor;
    InJobAnswer(phase, last);
    if phase.InJob? {
      j := JobHistory(before);
      GatheredFits(before, j, phase.size, phase.got);
      GatheringGoesOn(before, last, j, phase.size, phase.got);
    } else {
      j := |before|;
      GatheringStarts(before, last, after.size);
    }
  }

  lemma GatheredFits(log: seq<Entry>, j: nat, size: nat, got: seq<byte>)
    requires Gathered(log, j, size, got)
    ensures |got| <= size
  {
  }

  /** A job that ends is whole: the end is preceded by a `put` and by chunks
      only; the bytes of the stream between the command line and the end are
      exactly as many as announced, and a CRLF follows them. */
  lemma JobBodyIntegrity(actions: seq<Action>, i: nat) returns (j: nat, body: seq<byte>)
    requires i < |Exec(INITIAL, actions).log|
    requires Exec(INITIAL, actions).log[i].answer == Got(PutEnd)
    ensures j < i && PutAt(Exec(INITIAL, actions).log[..i], j, |body|)
    ensures Taken(Exec(INITIAL, actions).log[..j + 1]) + body + CRLF <= Fed(actions)
    ensures Trace(Exec(INITIAL, actions).log[..i]) == Trace(Exec(INITIAL, actions).log[..j + 1]) + Bodies(body)
  {
    hide Accept, Exec, Act, Taken, Trace, Fed;
    var c := Exec(INITIAL, actions);
    RunObeysGrammar(actions);
    MonitorPrefix(c.log, i + 1);
    var upTo := c.log[..i];
    assert c.log[..i + 1] == upTo + [c.log[i]];
    EndNeedsWholeBody(upTo, c.log[i]);
    j := JobHistory(upTo);
    body := Monitor(upTo).value.got;
    assert upTo[..j + 1] == c.log[..j + 1];
    LogSnoc(upTo, c.log[i]);
    assert Taken(c.log[..i + 1]) == Taken(c.log[..j + 1]) + body + CRLF;
    TakenPrefix(c.log, i + 1);
    Conservation(actions);
  }

  /** While a body is being read, the bytes read so far directly follow a `put`
      and are never more than it announced. */
  lemma JobInProgress(actions: seq<Action>) returns (j: nat, got: seq<byte>)
    requires Exec(INITIAL, actions).state.ParseJob?
    ensures var c := Exec(INITIAL, actions);
            && PutAt(c.log, j, |got| + c.state.remaining)
            && Taken(c.log[..j + 1]) + got + c.buf == Fed(actions)
            && Trace(c.log) == Trace(c.log[..j + 1]) + Bodies(got)
  {
    hide Accept, Exec, Taken, Trace, Fed, Monitor;
    var c := Exec(INITIAL, actions);
    RunObeysGrammar(actions);
    j := JobHistory(c.log);
    got := Monitor(c.log).value.got;
    Conservation(actions);
  }

  lemma EndNeedsWholeBody(log: seq<Entry>, e: Entry)
    requires Monitor(log + [e]).Some? && e.answer == Got(PutEnd)
    ensures Monitor(log).Some? && Monitor(log).value.InJob?
    ensures |Monitor(log).value.got| == Monitor(log).value.size && e.taken == CRLF
  {
    assert (log + [e])[..|log|] == log;
  }

  lemma {:induction false} MonitorPrefix(log: seq<Entry>, n: nat)
    requires n <= |log| && Monitor(log).Some?
    ensures Monitor(log[..n]).Some?
    decreases |log|
  {
    hide Accept;
    if n < |log| {
      MonitorPrefix(log[..|log| - 1], n);
      assert log[..|log| - 1][..n] == log[..n];
    } else {
      assert log[..n] == log;
    }
  }

  lemma {:induction false} TakenPrefix(log: seq<Entry>, n: nat)
    requires n <= |log|
    ensures Taken(log[..n]) <= Taken(log)
    decreases |log|
  {
    if n < |log| {
      TakenPrefix(log[..|log| - 1], n);
      assert log[..|log| - 1][..n] == log[..n];
    } else {
      assert log[..n] == log;
    }
  }

  // ---------- normal form ----------

  /** Adds an answer to a normalised sequence: waiting and discarding leave no
      trace, and a chunk joins a chunk before it. */
  function Merge(answers: seq<Answer>, a: Answer): seq<Answer> {
    match a
    case Pending => answers
    case Got(Discarded) => answers
    case Got(PutChunk(data)) =>
      if answers != [] && IsChunk(answers[|answers| - 1])
      then answers[..|answers| - 1] + [Got(PutChunk(answers[|answers| - 1].event.data + data))]
      else answers + [a]
    case _ => answers + [a]
  }

  function Normal(log: seq<Entry>): seq<Answer> {
    if log == [] then [] else Merge(Normal(log[..|log| - 1]), log[|log| - 1].answer)
  }

  /** The answer that says one symbol. */
  function Saying(s: Symbol): Answer {
    match s
    case Order(cmd) => Got(Item(cmd))
    case Body(b) => Got(PutChunk([b]))
    case End => Got(PutEnd)
    case Fault(error) => Failed(error)
  }

  function Group(trace: seq<Symbol>): seq<Answer> {
    if trace == [] then [] else Merge(Group(trace[..|trace| - 1]), Saying(trace[|trace| - 1]))
  }

  function SymbolsOfAll(answers: seq<Answer>): seq<Symbol> {
    if answers == [] then []
    else SymbolsOfAll(answers[..|answers| - 1]) + Symbols(answers[|answers| - 1])
  }

  lemma GroupSnoc(trace: seq<Symbol>, s: Symbol)
    ensures Group(trace + [s]) == Merge(Group(trace), Saying(s))
  {
    assert (trace + [s])[..|trace|] == trace;
  }

  lemma {:induction false} GroupBodies(trace: seq<Symbol>, data: seq<byte>)
    requires data != []
    ensures Group(trace + Bodies(data)) == Merge(Group(trace), Got(PutChunk(data)))
    decreases |data|
  {
    hide Merge;
    var init, last := data[..|data| - 1], data[|data| - 1];
    assert Bodies(data) == Bodies(init) + [Body(last)];
    assert trace + Bodies(data) == (trace + Bodies(init)) + [Body(last)];
    GroupSnoc(trace + Bodies(init), Body(last));
    if init == [] {
      assert trace + Bodies(init) == trace;
      assert data == [last];
    } else {
      GroupBodies(trace, init);
      assert init + [last] == data;
      MergeTwice(Group(trace), init, [last]);
    }
  }

  lemma MergeTwice(answers: seq<Answer>, d1: seq<byte>, d2: seq<byte>)
    ensures Merge(Merge(answers, Got(PutChunk(d1))), Got(PutChunk(d2)))
         == Merge(answers, Got(PutChunk(d1 + d2)))
  {
    if answers != [] && IsChunk(answers[|answers| - 1]) {
      var d := answers[|answers| - 1].event.data;
      assert d + d1 + d2 == d + (d1 + d2);
    }
  }

  /** Normalising a log is grouping what it says. */
  lemma {:induction false} NormalIsGroupedTrace(log: seq<Entry>)
    requires forall i :: 0 <= i < |log| && IsChunk(log[i].answer) ==> log[i].answer.event.data != []
    ensures Normal(log) == Group(Trace(log))
    decreases |log|
  {
    if log != [] {
      hide Merge;
      var before, last := log[..|log| - 1], log[|log| - 1].answer;
      NormalIsGroupedTrace(before);
      if IsChunk(last) {
        GroupBodies(Trace(before), last.event.data);
      } else {
        MergeSilentOrSaying(Normal(before), last);
        if Symbols(last) == [] {
          assert Trace(log) == Trace(before);
        } else {
          GroupSnoc(Trace(before), Symbols(last)[0]);
        }
      }
    }
  }

  lemma MergeSilentOrSaying(answers: seq<Answer>, a: Answer)
    requires !IsChunk(a)
    ensures Symbols(a) == [] ==> Merge(answers, a) == answers
    ensures Symbols(a) != [] ==> Symbols(a) == [Symbols(a)[0]] && Saying(Symbols(a)[0]) == a
  {
  }

  lemma SymbolsSnoc(answers: seq<Answer>, a: Answer)
    ensures SymbolsOfAll(answers + [a]) == SymbolsOfAll(answers) + Symbols(a)
  {
    assert (answers + [a])[..|answers|] == answers;
  }

  lemma JoinedChunksSay(init: seq<Answer>, d1: seq<byte>, d2: seq<byte>)
    ensures SymbolsOfAll(init + [Got(PutChunk(d1 + d2))])
         == SymbolsOfAll(init + [Got(PutChunk(d1))]) + Bodies(d2)
  {
    hide SymbolsOfAll, Bodies;
    BodiesAppend(d1, d2);
    SymbolsSnoc(init, Got(PutChunk(d1)));
    SymbolsSnoc(init, Got(PutChunk(d1 + d2)));
    var said := SymbolsOfAll(init);
    assert said + (Bodies(d1) + Bodies(d2)) == (said + Bodies(d1)) + Bodies(d2);
  }

  lemma MergeSays(answers: seq<Answer>, a: Answer)
    ensures SymbolsOfAll(Merge(answers, a)) == SymbolsOfAll(answers) + Symbols(a)
  {
    hide SymbolsOfAll, Bodies;
    if IsChunk(a) && answers != [] && IsChunk(answers[|answers| - 1]) {
      var init, last := answers[..|answers| - 1], answers[|answers| - 1];
      assert init + [last] == answers;
      JoinedChunksSay(init, last.event.data, a.event.data);
    } else {
      SymbolsSnoc(answers, a);
      assert SymbolsOfAll(answers) + [] == SymbolsOfAll(answers);
    }
  }

  /** Normalising loses nothing that was said. */
  lemma {:induction false} NormalSaysTheSame(log: seq<Entry>)
    ensures SymbolsOfAll(Normal(log)) == Trace(log)
    decreases |log|
  {
    if log != [] {
      NormalSaysTheSame(log[..|log| - 1]);
      MergeSays(Normal(log[..|log| - 1]), log[|log| - 1].answer);
    }
  }

  lemma {:induction false} ChunksNonEmpty(log: seq<Entry>)
    requires Monitor(log).Some?
    ensures forall i :: 0 <= i < |log| && IsChunk(log[i].answer) ==> log[i].answer.event.data != []
    decreases |log|
  {
    hide Parse;
    if log != [] {
      ChunksNonEmpty(log[..|log| - 1]);
    }
  }

  /** Two runs' normalised answers are equal exactly when their traces are. */
  lemma NormalFormDecidesTrace(a1: seq<Action>, a2: seq<Action>)
    ensures Normal(Exec(INITIAL, a1).log) == Normal(Exec(INITIAL, a2).log)
       <==> Trace(Exec(INITIAL, a1).log) == Trace(Exec(INITIAL, a2).log)
  {
    hide Exec, Normal, Trace, Monitor, Group;
    RunObeysGrammar(a1);
    RunObeysGrammar(a2);
    ChunksNonEmpty(Exec(INITIAL, a1).log);
    ChunksNonEmpty(Exec(INITIAL, a2).log);
    NormalIsGroupedTrace(Exec(INITIAL, a1).log);
    NormalIsGroupedTrace(Exec(INITIAL, a2).log);
    NormalSaysTheSame(Exec(INITIAL, a1).log);
    NormalSaysTheSame(Exec(INITIAL, a2).log);
  }
}
