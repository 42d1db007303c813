/** Reading responses back: a stream of responses has one reading only. */
module Replies {
  import opened Base
  import opened Bytes
  import opened Decimal
  import opened Protocol
  import opened Parser
  import opened Grammar
  import opened Encoder

  /** What a client sees in a response, without knowing its request. */
  datatype Reply =
    | Status(word: seq<byte>)
    | Numbered(word: seq<byte>, n: nat)
    | Tube(name: seq<byte>)
    | Data(data: seq<byte>)

  datatype Reading = Reading(reply: Reply, rest: seq<byte>)

  /** Reads one reply off the front: a line, and after `OK <n>` its `n` bytes
      of data and their CRLF. */
  function ReadReply(s: seq<byte>): Option<Reading> {
    var k := FindCrlf(s);
    if k.None? then None
    else
      var line, rest := s[..k.value], s[k.value + 2..];
      var word, tail := FirstToken(line), AfterToken(line);
      if tail == [] then Some(Reading(Status(word), rest))
      else if word == USING then Some(Reading(Tube(tail[1..]), rest))
      else if tail[1..] == [] || !AllDigits(tail[1..]) then None
      else
        var n := Value(tail[1..]);
        if word != OK then Some(Reading(Numbered(word, n), rest))
        else if |rest| >= n + 2 && CrlfAt(rest, n) then Some(Reading(Data(rest[..n]), rest[n + 2..]))
        else None
  }

  function ReadReplies(s: seq<byte>): (r: Option<seq<Reply>>)
    decreases |s|
  {
    if s == [] then Some([])
    else
      var first := ReadReply(s);
      if first.None? || |first.value.rest| >= |s| then None
      else
        var more := ReadReplies(first.value.rest);
        if more.None? then None else Some([first.value.reply] + more.value)
  }

  /** The reply that a response amounts to. */
  function ReplyOf(r: Response): Reply
    requires !r.JobChunk? && !r.JobEnd?
  {
    if r.Using? then Tube(r.tube)
    else if IsNumbered(r) then Numbered(Ascii(NumberLabel(r)), NumberOf(r))
    else if IsStatus(r) then Status(Ascii(StatusLabel(r)))
    else if r.yaml.Some? then Data(r.yaml.value)
    else Status(Ascii(StatusLabel(InternalError)))
  }

  /** Responses that say by themselves where they end. */
  ghost predicate Framed(r: Response) {
    !r.JobChunk? && !r.JobEnd? && (r.Using? ==> NoCrlf(r.tube))
  }

  function WireAll(rs: seq<Response>): seq<byte> {
    if rs == [] then [] else Wire(rs[0]) + WireAll(rs[1..])
  }

  // ---------- one response ----------

  ghost predicate IsWord(word: seq<byte>) {
    forall i :: 0 <= i < |word| ==> SP < word[i]
  }

  lemma LongStatusLabelShape(r: Response)
    requires IsStatus(r) && |StatusLabel(r)| > 10
    ensures IsPlain(StatusLabel(r))
  {
  }

  lemma ShortStatusLabelShape(r: Response)
    requires IsStatus(r) && |StatusLabel(r)| <= 10
    ensures IsPlain(StatusLabel(r))
  {
  }

  lemma StatusShape(r: Response)
    requires IsStatus(r)
    ensures IsWord(Ascii(StatusLabel(r)))
  {
    hide StatusLabel;
    if |StatusLabel(r)| > 10 {
      LongStatusLabelShape(r);
    } else {
      ShortStatusLabelShape(r);
    }
  }

  lemma NumberLabelShape(r: Response)
    requires IsNumbered(r)
    ensures IsPlain(NumberLabel(r))
  {
  }

  lemma NumberShape(r: Response)
    requires IsNumbered(r)
    ensures IsWord(Ascii(NumberLabel(r)))
  {
    hide NumberLabel;
    NumberLabelShape(r);
  }

  lemma OkAndUsingShape()
    ensures IsWord(OK) && IsWord(USING) && |OK| == 2 && |USING| == 5
  {
    assert forall i :: 0 <= i < |"OK"| ==> ' ' < "OK"[i] < 128 as char;
    assert forall i :: 0 <= i < |"USING"| ==> ' ' < "USING"[i] < 128 as char;
  }

  /** Bytes above CR and LF make no CRLF, and a CRLF-free end adds none. */
  lemma VisibleNoCrlf(s: seq<byte>, t: seq<byte>)
    requires forall i :: 0 <= i < |s| ==> CR < s[i]
    requires NoCrlf(t)
    ensures NoCrlf(s + t)
  {
    forall i: nat ensures !CrlfAt(s + t, i) {
      if i >= |s| {
        assert !CrlfAt(t, i - |s|);
      }
    }
  }

  /** The reader on a line made of a word and an argument. */
  lemma WordAndArgument(word: seq<byte>, arg: seq<byte>, rest: seq<byte>)
    requires IsWord(word) && NoCrlf(arg)
    ensures var s, line := LineWire(word, arg) + rest, word + ([SP] + arg);
            && FindCrlf(s) == Some(|line|) && s[..|line|] == line && s[|line| + 2..] == rest
            && FirstToken(line) == word && AfterToken(line) == [SP] + arg
            && ([SP] + arg)[1..] == arg
  {
    hide FindCrlf;
    var line := word + [SP] + arg;
    VisibleNoCrlf(word + [SP], arg);
    LineFound(line, rest);
    assert line == word + ([SP] + arg);
    SplitAtSpace(word, [SP] + arg);
  }

  lemma DigitsNoCrlf(s: seq<byte>)
    requires AllDigits(s)
    ensures NoCrlf(s)
  {
  }

  lemma StatusReads(r: Response, rest: seq<byte>)
    requires IsStatus(r)
    ensures ReadReply(StatusWire(r) + rest) == Some(Reading(ReplyOf(r), rest))
  {
    hide StatusLabel, FindCrlf, Ascii;
    var word := Ascii(StatusLabel(r));
    StatusShape(r);
    VisibleNoCrlf(word, []);
    assert word + [] == word;
    LineFound(word, rest);
    SplitAtSpace(word, []);
  }

  lemma NumberedReads(r: Response, rest: seq<byte>)
    requires IsNumbered(r)
    ensures ReadReply(Wire(r) + rest) == Some(Reading(ReplyOf(r), rest))
  {
    var word, digits := Ascii(NumberLabel(r)), Spell(NumberOf(r));
    NumberLabelIsOwn(r);
    hide NumberLabel, FindCrlf, Spell, Ascii, FirstToken, AfterToken, LineWire;
    NumberShape(r);
    DigitsNoCrlf(digits);
    WordAndArgument(word, digits, rest);
    ValueOfSpell(NumberOf(r));
  }

  /** No numbered response is taken for `OK` or `USING`. */
  lemma NumberLabelIsOwn(r: Response)
    requires IsNumbered(r)
    ensures Ascii(NumberLabel(r)) != OK && Ascii(NumberLabel(r)) != USING
  {
    assert Ascii(NumberLabel(r))[0] as int == NumberLabel(r)[0] as int;
    assert USING[0] as int == 'U' as int;
  }

  lemma DataReads(data: seq<byte>, rest: seq<byte>)
    ensures ReadReply(DataWire(data) + rest) == Some(Reading(Data(data), rest))
  {
    hide FindCrlf, NoCrlf, Spell, Value, AllDigits, Ascii, FirstToken, AfterToken, OK, USING, DataWire, LineWire;
    var digits := Spell(|data|);
    OkAndUsingShape();
    DigitsNoCrlf(digits);
    WordAndArgument(OK, digits, data + CRLF + rest);
    ValueOfSpell(|data|);
    DataWireShape(data, rest);
  }

  lemma DataWireShape(data: seq<byte>, rest: seq<byte>)
    ensures var after := data + CRLF + rest;
            && DataWire(data) + rest == LineWire(OK, Spell(|data|)) + after
            && after[..|data|] == data && CrlfAt(after, |data|) && after[|data| + 2..] == rest
  {
    hide Spell, Ascii, OK, LineWire;
    SplitsAgain(LineWire(OK, Spell(|data|)), data, CRLF, rest);
  }

  lemma SplitsAgain(a: seq<byte>, b: seq<byte>, c: seq<byte>, d: seq<byte>)
    ensures a + b + c + d == a + (b + c + d)
    ensures (b + c + d)[..|b|] == b
    ensures (b + c + d)[|b| + |c|..] == d
  {
    assert (b + c + d)[..|b|] == b;
  }

  lemma UsingReads(tube: seq<byte>, rest: seq<byte>)
    requires NoCrlf(tube)
    ensures ReadReply(LineWire(USING, tube) + rest) == Some(Reading(Tube(tube), rest))
  {
    OkAndUsingShape();
    hide FindCrlf, Ascii, FirstToken, AfterToken, OK, USING, LineWire;
    WordAndArgument(USING, tube, rest);
  }

  /** A tube name comes back from `USING` exactly when it holds no CRLF. */
  lemma UsingReadsBack(tube: seq<byte>, rest: seq<byte>)
    ensures ReadReply(Wire(Using(tube)) + rest) == Some(Reading(Tube(tube), rest)) <==> NoCrlf(tube)
  {
    hide ReadReply, LineWire, NoCrlf;
    if NoCrlf(tube) {
      UsingReads(tube, rest);
    } else {
      var part, more := CutAtCrlf(tube);
      assert |part| < |tube|;
      UsingReads(part, more + CRLF + rest);
      UsingCut(tube, part, more, rest);
    }
  }

  lemma UsingCut(tube: seq<byte>, part: seq<byte>, more: seq<byte>, rest: seq<byte>)
    requires tube == part + CRLF + more
    ensures LineWire(USING, tube) + rest == LineWire(USING, part) + (more + CRLF + rest)
  {
    hide Ascii, USING;
  }

  /** The names that the command parser lets through hold no CRLF. */
  lemma NamesAreCrlfFree(name: seq<byte>)
    requires IsName(name)
    ensures NoCrlf(name)
  {
  }

  lemma ResponseReads(r: Response, rest: seq<byte>)
    requires Framed(r)
    ensures ReadReply(Wire(r) + rest) == Some(Reading(ReplyOf(r), rest))
  {
    hide ReadReply;
    if IsNumbered(r) {
      NumberedReads(r, rest);
    } else if r.Using? {
      UsingReads(r.tube, rest);
    } else if IsStatus(r) {
      StatusReads(r, rest);
    } else if r.yaml.Some? {
      DataReads(r.yaml.value, rest);
    } else {
      StatusReads(InternalError, rest);
    }
  }

  // ---------- a stream of responses ----------

  ghost function ReplyOfAll(rs: seq<Response>): (replies: seq<Reply>)
    requires forall i :: 0 <= i < |rs| ==> Framed(rs[i])
    ensures |replies| == |rs|
  {
    if rs == [] then []
    else
      assert Framed(rs[0]);
      [ReplyOf(rs[0])] + ReplyOfAll(rs[1..])
  }

  lemma {:induction false} ReplyOfAllAt(rs: seq<Response>, i: nat)
    requires forall i :: 0 <= i < |rs| ==> Framed(rs[i])
    requires i < |rs|
    ensures ReplyOfAll(rs)[i] == ReplyOf(rs[i])
  {
    hide ReplyOf;
    if i > 0 {
      ReplyOfAllAt(rs[1..], i - 1);
    }
  }

  /** Concatenated responses read back as exactly their replies. */
  lemma {:induction false} ResponsesReadBack(rs: seq<Response>)
    requires forall i :: 0 <= i < |rs| ==> Framed(rs[i])
    ensures ReadReplies(WireAll(rs)) == Some(ReplyOfAll(rs))
  {
    hide Wire, ReadReply, ReplyOf;
    if rs != [] {
      var rest := WireAll(rs[1..]);
      ResponseReads(rs[0], rest);
      WireNonEmpty(rs[0]);
      ResponsesReadBack(rs[1..]);
    }
  }

  lemma WireNonEmpty(r: Response)
    requires Framed(r)
    ensures Wire(r) != []
  {
  }

  // ---------- which responses are told apart ----------

  /** A response as far as the client can see: the four `OK` responses differ
      only in what was asked, and data that cannot be serialised is reported
      as an internal error. */
  function Seen(r: Response): Response {
    if !IsOk(r) then r else if r.yaml.Some? then OkStats(r.yaml) else InternalError
  }

  /** The bare-word response with the given length, first and third letter. */
  function StatusNamed(length: nat, first: char, third: char): Response {
    match length
    case 6 => if first == 'B' then Buried else if first == 'K' then Kicked else Paused
    case 7 => if first == 'D' then Deleted else Touched
    case 8 => if first == 'D' then Draining else Released
    case 9 => if first == 'N' then NotFound else TimedOut
    case 10 => BadFormat
    case 11 => if first == 'J' then JobTooBig else NotIgnored
    case 13 => if first == 'D' then DeadlineSoon else if first == 'E' then ExpectedCRLF else OutOfMemory
    case 14 => InternalError
    case _ => UnknownCommand
  }

  lemma StatusNamedLabel(r: Response)
    requires IsStatus(r)
    ensures |StatusLabel(r)| >= 3 && StatusLabel(r)[0] < 128 as char && StatusLabel(r)[2] < 128 as char
    ensures StatusNamed(|StatusLabel(r)|, StatusLabel(r)[0], StatusLabel(r)[2]) == r
  {
  }

  lemma StatusInjective(a: Response, b: Response)
    requires IsStatus(a) && IsStatus(b) && Ascii(StatusLabel(a)) == Ascii(StatusLabel(b))
    ensures a == b
  {
    hide StatusLabel, StatusNamed;
    StatusNamedLabel(a);
    StatusNamedLabel(b);
    assert StatusLabel(a)[0] as int == Ascii(StatusLabel(a))[0] as int == StatusLabel(b)[0] as int;
    assert StatusLabel(a)[2] as int == Ascii(StatusLabel(a))[2] as int == StatusLabel(b)[2] as int;
  }

  function NumberedNamed(length: nat, first: char, third: char, n: u64): Response {
    match length
    case 5 => Found(n)
    case 6 => if first == 'B' then BuriedID(n) else KickedCount(n)
    case _ => if first == 'I' then Inserted(n)
              else if first == 'R' then Reserved(n)
              else Watching(if n < U32_LIMIT then n else 0)
  }

  lemma NumberedNamedLabel(r: Response)
    requires IsNumbered(r)
    ensures |NumberLabel(r)| >= 3 && NumberLabel(r)[0] < 128 as char && NumberLabel(r)[2] < 128 as char
    ensures NumberOf(r) < U64_LIMIT
    ensures NumberedNamed(|NumberLabel(r)|, NumberLabel(r)[0], NumberLabel(r)[2], NumberOf(r)) == r
  {
  }

  lemma NumberedInjective(a: Response, b: Response)
    requires IsNumbered(a) && IsNumbered(b)
    requires Ascii(NumberLabel(a)) == Ascii(NumberLabel(b)) && NumberOf(a) == NumberOf(b)
    ensures a == b
  {
    hide NumberLabel, NumberedNamed, NumberOf;
    NumberedNamedLabel(a);
    NumberedNamedLabel(b);
    assert NumberLabel(a)[0] as int == Ascii(NumberLabel(a))[0] as int == NumberLabel(b)[0] as int;
    assert NumberLabel(a)[2] as int == Ascii(NumberLabel(a))[2] as int == NumberLabel(b)[2] as int;
  }

  /** The reply tells responses apart as far as the client can see them. */
  lemma ReplyDecides(a: Response, b: Response)
    requires !a.JobChunk? && !a.JobEnd? && !b.JobChunk? && !b.JobEnd?
    ensures ReplyOf(a) == ReplyOf(b) <==> Seen(a) == Seen(b)
  {
    hide StatusLabel, NumberLabel, Ascii, NumberOf;
    var x, y := Seen(a), Seen(b);
    assert ReplyOf(a) == ReplyOf(x) && ReplyOf(b) == ReplyOf(y);
    if ReplyOf(x) == ReplyOf(y) {
      match ReplyOf(x)
      case Status(_) => StatusInjective(x, y);
      case Numbered(_, _) => NumberedInjective(x, y);
      case Tube(_) => assert x == Using(x.tube) && y == Using(y.tube);
      case Data(_) => assert x == OkStats(x.yaml) && y == OkStats(y.yaml);
    }
  }

  /** Unique decodability: two streams of framed responses are the same bytes
      exactly when they are, as far as the client can see, the same responses. */
  lemma UniquelyDecodable(r1: seq<Response>, r2: seq<Response>)
    requires forall i :: 0 <= i < |r1| ==> Framed(r1[i])
    requires forall i :: 0 <= i < |r2| ==> Framed(r2[i])
    ensures WireAll(r1) == WireAll(r2) <==>
            |r1| == |r2| && forall i :: 0 <= i < |r1| ==> Seen(r1[i]) == Seen(r2[i])
  {
    hide ReplyOf, ReplyOfAll, Seen, ReadReplies, WireAll;
    if WireAll(r1) == WireAll(r2) {
      ResponsesReadBack(r1);
      ResponsesReadBack(r2);
      forall i | 0 <= i < |r1| ensures Seen(r1[i]) == Seen(r2[i]) {
        ReplyOfAllAt(r1, i);
        ReplyOfAllAt(r2, i);
        ReplyDecides(r1[i], r2[i]);
      }
    } else if |r1| == |r2| && forall i :: 0 <= i < |r1| ==> Seen(r1[i]) == Seen(r2[i]) {
      SeenDecidesWire(r1, r2);
    }
  }

  lemma WireOfSeen(r: Response)
    ensures Wire(Seen(r)) == Wire(r)
  {
    hide StatusWire, LineWire, DataWire;
  }

  lemma {:induction false} SeenDecidesWire(r1: seq<Response>, r2: seq<Response>)
    requires |r1| == |r2| && forall i :: 0 <= i < |r1| ==> Seen(r1[i]) == Seen(r2[i])
    ensures WireAll(r1) == WireAll(r2)
  {
    if r1 != [] {
      hide Wire, Seen;
      WireOfSeen(r1[0]);
      WireOfSeen(r2[0]);
      SeenDecidesWire(r1[1..], r2[1..]);
    }
  }

  /** Job bodies are sent without a length, so a stream with bodies in it has
      more than one reading: here an empty body before a `BURIED` line, and a
      body that holds such a line. */
  lemma BodiesAreAmbiguous(id: u64)
    ensures var r1 := [Reserved(id), JobChunk([]), JobEnd, Buried];
            var r2 := [Reserved(id), JobChunk(CRLF + Ascii("BURIED")), JobEnd];
            WireAll(r1) == WireAll(r2)
  {
    var word := Ascii("BURIED");
    var t1, t2 := [JobChunk([]), JobEnd, Buried], [JobChunk(CRLF + word), JobEnd];
    BuriedWire();
    hide Wire, WireAll, Ascii;
    JobWires(word);
    WireCons(JobChunk([]), [JobEnd, Buried]);
    WirePair(JobEnd, Buried);
    WirePair(JobChunk(CRLF + word), JobEnd);
    assert [JobChunk([])] + [JobEnd, Buried] == t1;
    assert WireAll(t1) == WireAll(t2);
    WireCons(Reserved(id), t1);
    WireCons(Reserved(id), t2);
    assert [Reserved(id)] + t1 == [Reserved(id), JobChunk([]), JobEnd, Buried];
    assert [Reserved(id)] + t2 == [Reserved(id), JobChunk(CRLF + word), JobEnd];
  }

  lemma BuriedWire()
    ensures Wire(Buried) == Ascii("BURIED") + CRLF
  {
  }

  lemma JobWires(word: seq<byte>)
    ensures Wire(JobChunk([])) == [] && Wire(JobEnd) == CRLF
    ensures Wire(JobChunk(CRLF + word)) == CRLF + word
  {
  }

  lemma WireCons(r: Response, rs: seq<Response>)
    ensures WireAll([r] + rs) == Wire(r) + WireAll(rs)
  {
  }

  lemma WirePair(a: Response, b: Response)
    ensures WireAll([a, b]) == Wire(a) + Wire(b)
  {
    hide Wire;
    WireCons(a, [b]);
    WireCons(b, []);
    assert [a] + [b] == [a, b] && [b] + [] == [b];
  }
}
