/** Everything a server sends on a connection, job bodies included: when a
    client can read it back. */
module Sessions {
  import opened Base
  import opened Bytes
  import opened Protocol
  import opened Encoder
  import opened Replies

  /** A response by itself, or one that hands out a job, with the chunks in
      which the job's body is written. */
  datatype Sending =
    | Alone(response: Response)
    | Job(head: Response, chunks: seq<seq<byte>>)

  predicate HandsOutJob(r: Response) {
    r.Reserved? || r.Found?
  }

  /** Job-bearing responses come with their job, and others without one. */
  predicate Shaped(s: Sending) {
    match s
    case Alone(r) => !HandsOutJob(r) && !r.JobChunk? && !r.JobEnd?
    case Job(head, _) => HandsOutJob(head)
  }

  function Join(chunks: seq<seq<byte>>): seq<byte> {
    if chunks == [] then [] else chunks[0] + Join(chunks[1..])
  }

  /** What the sender can check: job bodies and tube names hold no CRLF. */
  ghost predicate Clean(s: Sending) {
    match s
    case Alone(r) => r.Using? ==> NoCrlf(r.tube)
    case Job(_, chunks) => NoCrlf(Join(chunks))
  }

  function Chunks(chunks: seq<seq<byte>>): seq<Response> {
    if chunks == [] then [] else [JobChunk(chunks[0])] + Chunks(chunks[1..])
  }

  /** The responses handed to the encoder. */
  function Responses(s: Sending): seq<Response> {
    match s
    case Alone(r) => [r]
    case Job(head, chunks) => [head] + Chunks(chunks) + [JobEnd]
  }

  function ResponsesAll(ss: seq<Sending>): seq<Response> {
    if ss == [] then [] else Responses(ss[0]) + ResponsesAll(ss[1..])
  }

  ghost predicate AllShaped(ss: seq<Sending>) {
    forall i :: 0 <= i < |ss| ==> Shaped(ss[i])
  }

  ghost predicate AllClean(ss: seq<Sending>) {
    forall i :: 0 <= i < |ss| ==> Clean(ss[i])
  }

  // ---------- the client's reader ----------

  datatype Message =
    | Single(reply: Reply)
    | JobMessage(word: seq<byte>, id: nat, body: seq<byte>)

  datatype MessageReading = MessageReading(message: Message, rest: seq<byte>)

  const RESERVED: seq<byte> := Ascii("RESERVED")
  const FOUND: seq<byte> := Ascii("FOUND")

  /** Reads one reply, and after `RESERVED` and `FOUND` a body up to the next
      CRLF. */
  function ReadMessage(s: seq<byte>): Option<MessageReading> {
    var r := ReadReply(s);
    if r.None? then None
    else
      match r.value.reply
      case Numbered(word, id) =>
        if word != RESERVED && word != FOUND then Some(MessageReading(Single(r.value.reply), r.value.rest))
        else
          var k := FindCrlf(r.value.rest);
          if k.None? then None
          else Some(MessageReading(JobMessage(word, id, r.value.rest[..k.value]), r.value.rest[k.value + 2..]))
      case _ => Some(MessageReading(Single(r.value.reply), r.value.rest))
  }

  function ReadMessages(s: seq<byte>): Option<seq<Message>>
    decreases |s|
  {
    if s == [] then Some([])
    else
      var first := ReadMessage(s);
      if first.None? || |first.value.rest| >= |s| then None
      else
        var more := ReadMessages(first.value.rest);
        if more.None? then None else Some([first.value.message] + more.value)
  }

  /** What the client should read of a sending. */
  function MessageOf(s: Sending): Message
    requires Shaped(s)
  {
    match s
    case Alone(r) => Single(ReplyOf(r))
    case Job(head, chunks) => JobMessage(Ascii(NumberLabel(head)), NumberOf(head), Join(chunks))
  }

  ghost function MessagesOf(ss: seq<Sending>): (messages: seq<Message>)
    requires AllShaped(ss)
    ensures |messages| == |ss|
  {
    if ss == [] then [] else [MessageOf(ss[0])] + MessagesOf(ss[1..])
  }

  // ---------- one sending ----------

  lemma {:induction false} WireAllAppend(a: seq<Response>, b: seq<Response>)
    ensures WireAll(a + b) == WireAll(a) + WireAll(b)
  {
    hide Wire;
    if a == [] {
      assert a + b == b;
    } else {
      WireAllAppend(a[1..], b);
      assert (a + b)[1..] == a[1..] + b;
      var first, more, last := Wire(a[0]), WireAll(a[1..]), WireAll(b);
      assert first + (more + last) == (first + more) + last;
    }
  }

  lemma {:induction false} WireOfChunks(chunks: seq<seq<byte>>)
    ensures WireAll(Chunks(chunks)) == Join(chunks)
  {
    if chunks != [] {
      WireOfChunks(chunks[1..]);
    }
  }

  lemma WireAlone(r: Response)
    ensures WireAll([r]) == Wire(r)
  {
    hide Wire;
    assert [r][1..] == [];
  }

  /** However it is chunked, a job is its body's bytes between the line that
      hands it out and a CRLF. */
  lemma WireOfSending(s: Sending)
    ensures WireAll(Responses(s)) ==
            match s
            case Alone(r) => Wire(r)
            case Job(head, chunks) => Wire(head) + (Join(chunks) + CRLF)
  {
    assert Wire(JobEnd) == CRLF;
    hide Wire, WireAll;
    match s
    case Alone(r) => WireAlone(r);
    case Job(head, chunks) =>
      WireAllAppend([head] + Chunks(chunks), [JobEnd]);
      WireAllAppend([head], Chunks(chunks));
      WireAlone(head);
      WireAlone(JobEnd);
      WireOfChunks(chunks);
  }

  /** The words before jobs belong to the job-bearing responses alone. */
  lemma JobWords(r: Response)
    requires IsNumbered(r)
    ensures Ascii(NumberLabel(r)) == RESERVED || Ascii(NumberLabel(r)) == FOUND <==> HandsOutJob(r)
  {
    assert NumberOf(r) < U64_LIMIT;
    var reserved, found := Reserved(NumberOf(r)), Found(NumberOf(r));
    assert NumberLabel(reserved) == "RESERVED" && NumberLabel(found) == "FOUND";
    hide Ascii;
    if Ascii(NumberLabel(r)) == RESERVED {
      NumberedInjective(r, reserved);
    } else if Ascii(NumberLabel(r)) == FOUND {
      NumberedInjective(r, found);
    }
  }

  /** A job is read up to the first CRLF after its line. */
  lemma JobReads(head: Response, body: seq<byte>, rest: seq<byte>)
    requires HandsOutJob(head) && NoCrlf(body)
    ensures ReadMessage(Wire(head) + (body + CRLF + rest))
         == Some(MessageReading(JobMessage(Ascii(NumberLabel(head)), NumberOf(head), body), rest))
  {
    NumberedReads(head, body + CRLF + rest);
    JobWords(head);
    LineFound(body, rest);
    hide ReadReply, FindCrlf, Wire;
  }

  /** A job's body comes back exactly when it holds no CRLF. */
  lemma JobReadsBack(head: Response, body: seq<byte>, rest: seq<byte>)
    requires HandsOutJob(head)
    ensures ReadMessage(Wire(head) + (body + CRLF + rest))
         == Some(MessageReading(JobMessage(Ascii(NumberLabel(head)), NumberOf(head), body), rest))
       <==> NoCrlf(body)
  {
    JobIsReadUpToCrlf(head, body, rest);
  }

  /** Of any other body, a proper part is taken for the whole. */
  lemma JobIsReadUpToCrlf(head: Response, body: seq<byte>, rest: seq<byte>)
    requires HandsOutJob(head)
    ensures var r := ReadMessage(Wire(head) + (body + CRLF + rest));
            && r.Some?
            && (NoCrlf(body) ==> r.value == MessageReading(JobMessage(Ascii(NumberLabel(head)), NumberOf(head), body), rest))
            && (!NoCrlf(body) ==> r.value.message != JobMessage(Ascii(NumberLabel(head)), NumberOf(head), body))
  {
    hide ReadMessage, Wire, Ascii;
    if NoCrlf(body) {
      JobReads(head, body, rest);
    } else {
      var part, more := CutAtCrlf(body);
      assert |part| < |body|;
      JobReads(head, part, more + CRLF + rest);
      assert body + CRLF + rest == part + CRLF + (more + CRLF + rest);
    }
  }

  /** A reply without a job is read as such. */
  lemma AloneReads(r: Response, rest: seq<byte>)
    requires Shaped(Alone(r)) && Clean(Alone(r))
    ensures ReadMessage(Wire(r) + rest) == Some(MessageReading(Single(ReplyOf(r)), rest))
  {
    ResponseReads(r, rest);
    if IsNumbered(r) {
      JobWords(r);
    }
    hide ReadReply, FindCrlf, Wire, Ascii, StatusLabel, NumberLabel;
  }

  /** Of a tube name with a CRLF, a proper part is taken for the whole. */
  lemma UsingIsCut(tube: seq<byte>, rest: seq<byte>)
    requires !NoCrlf(tube)
    ensures var r := ReadMessage(Wire(Using(tube)) + rest);
            r.Some? && r.value.message != Single(Tube(tube))
  {
    var part, more := CutAtCrlf(tube);
    assert |part| < |tube|;
    AloneReads(Using(part), more + CRLF + rest);
    UsingCut(tube, part, more, rest);
    hide ReadMessage, Wire, Ascii, USING, NoCrlf;
  }

  /** A sending is read back, and nothing after it is touched, exactly when it
      is clean; otherwise the client takes it for something else. */
  lemma SendingReads(s: Sending, rest: seq<byte>)
    requires Shaped(s)
    ensures var r := ReadMessage(WireAll(Responses(s)) + rest);
            && r.Some?
            && (Clean(s) ==> r.value == MessageReading(MessageOf(s), rest))
            && (!Clean(s) ==> r.value.message != MessageOf(s))
  {
    WireOfSending(s);
    hide ReadMessage, Wire, WireAll, Responses, Ascii, StatusLabel, NumberLabel, Join, NoCrlf, USING, OK;
    match s
    case Alone(r) =>
      if Clean(s) {
        AloneReads(r, rest);
      } else {
        UsingIsCut(r.tube, rest);
      }
    case Job(head, chunks) =>
      JobIsReadUpToCrlf(head, Join(chunks), rest);
      assert Wire(head) + (Join(chunks) + CRLF) + rest == Wire(head) + (Join(chunks) + CRLF + rest);
  }

  // ---------- a session ----------

  lemma SessionCons(ss: seq<Sending>)
    requires ss != []
    ensures WireAll(ResponsesAll(ss)) == WireAll(Responses(ss[0])) + WireAll(ResponsesAll(ss[1..]))
  {
    hide Responses, WireAll;
    WireAllAppend(Responses(ss[0]), ResponsesAll(ss[1..]));
  }

  lemma SendingNonEmpty(s: Sending)
    requires Shaped(s)
    ensures WireAll(Responses(s)) != []
  {
    WireOfSending(s);
    hide WireAll, Responses;
  }

  /** A session, jobs and all, reads back as its messages exactly when every
      job body and every tube name in it is free of CRLF. */
  lemma {:induction false} SessionReadsBack(ss: seq<Sending>)
    requires AllShaped(ss)
    ensures ReadMessages(WireAll(ResponsesAll(ss))) == Some(MessagesOf(ss)) <==> AllClean(ss)
  {
    if ss != [] {
      hide WireAll, Responses, ResponsesAll, ReadMessage, MessageOf, Clean, Shaped;
      assert Shaped(ss[0]);
      var rest := WireAll(ResponsesAll(ss[1..]));
      SessionCons(ss);
      SendingReads(ss[0], rest);
      SendingNonEmpty(ss[0]);
      SessionReadsBack(ss[1..]);
      CleanCons(ss);
      assert MessagesOf(ss)[0] == MessageOf(ss[0]) && MessagesOf(ss)[1..] == MessagesOf(ss[1..]);
    } else {
      assert WireAll(ResponsesAll(ss)) == [];
    }
  }

  lemma CleanCons(ss: seq<Sending>)
    requires ss != []
    ensures AllClean(ss) <==> Clean(ss[0]) && AllClean(ss[1..])
  {
    hide Clean;
    if Clean(ss[0]) && AllClean(ss[1..]) {
      forall i | 0 <= i < |ss| ensures Clean(ss[i]) {
        if i > 0 {
          assert ss[i] == ss[1..][i - 1];
        }
      }
    }
  }

  /** A sending as far as the client can see: chunk boundaries are lost. */
  function SeenSending(s: Sending): Sending {
    match s
    case Alone(r) => Alone(Seen(r))
    case Job(head, chunks) => Job(head, [Join(chunks)])
  }

  lemma MessageDecides(a: Sending, b: Sending)
    requires Shaped(a) && Shaped(b)
    ensures MessageOf(a) == MessageOf(b) <==> SeenSending(a) == SeenSending(b)
  {
    if a.Alone? && b.Alone? {
      hide ReplyOf, Seen;
      ReplyDecides(a.response, b.response);
    } else if a.Job? && b.Job? {
      hide Ascii, NumberLabel, NumberOf;
      if MessageOf(a) == MessageOf(b) {
        NumberedInjective(a.head, b.head);
      }
      assert [Join(a.chunks)][0] == Join(a.chunks) && [Join(b.chunks)][0] == Join(b.chunks);
    }
  }

  lemma {:induction false} MessagesAt(ss: seq<Sending>, i: nat)
    requires AllShaped(ss) && i < |ss|
    ensures Shaped(ss[i]) && MessagesOf(ss)[i] == MessageOf(ss[i])
  {
    hide MessageOf, Shaped;
    assert Shaped(ss[i]);
    if i > 0 {
      MessagesAt(ss[1..], i - 1);
    }
  }

  lemma SeenDecidesSendingWire(a: Sending, b: Sending)
    requires SeenSending(a) == SeenSending(b)
    ensures WireAll(Responses(a)) == WireAll(Responses(b))
  {
    WireOfSending(a);
    WireOfSending(b);
    hide Wire, WireAll, Responses, Seen;
    if a.Alone? {
      WireOfSeen(a.response);
      WireOfSeen(b.response);
    } else {
      assert [Join(a.chunks)][0] == [Join(b.chunks)][0];
    }
  }

  lemma {:induction false} SeenDecidesSession(s1: seq<Sending>, s2: seq<Sending>)
    requires |s1| == |s2| && forall i :: 0 <= i < |s1| ==> SeenSending(s1[i]) == SeenSending(s2[i])
    ensures WireAll(ResponsesAll(s1)) == WireAll(ResponsesAll(s2))
  {
    if s1 != [] {
      hide WireAll, Responses, ResponsesAll, SeenSending;
      SessionCons(s1);
      SessionCons(s2);
      SeenDecidesSendingWire(s1[0], s2[0]);
      SeenDecidesSession(s1[1..], s2[1..]);
    } else {
      assert s1 == s2;
    }
  }

  /** Two clean sessions are the same bytes exactly when they are, as far as the
      client can see, the same responses and jobs, chunks joined. */
  lemma SessionsUniquelyDecodable(s1: seq<Sending>, s2: seq<Sending>)
    requires AllShaped(s1) && AllShaped(s2) && AllClean(s1) && AllClean(s2)
    ensures WireAll(ResponsesAll(s1)) == WireAll(ResponsesAll(s2)) <==>
            |s1| == |s2| && forall i :: 0 <= i < |s1| ==> SeenSending(s1[i]) == SeenSending(s2[i])
  {
    hide WireAll, ResponsesAll, ReadMessages, MessagesOf, MessageOf, SeenSending, Shaped;
    if WireAll(ResponsesAll(s1)) == WireAll(ResponsesAll(s2)) {
      SessionReadsBack(s1);
      SessionReadsBack(s2);
      forall i | 0 <= i < |s1| ensures SeenSending(s1[i]) == SeenSending(s2[i]) {
        MessagesAt(s1, i);
        MessagesAt(s2, i);
        MessageDecides(s1[i], s2[i]);
      }
    } else if |s1| == |s2| && forall i :: 0 <= i < |s1| ==> SeenSending(s1[i]) == SeenSending(s2[i]) {
      SeenDecidesSession(s1, s2);
    }
  }
}
