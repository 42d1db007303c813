/** The command-line parser: what it accepts, and the cursor that reads it. */
module Parser {
  import opened Base
  import opened Bytes
  import opened Decimal
  import opened Protocol
  import opened CommandTable

  predicate IsNameSafe(c: byte, isFirst: bool) {
    || 'a' as byte <= c <= 'z' as byte
    || 'A' as byte <= c <= 'Z' as byte
    || IsDigit(c)
    || c == '+' as byte || c == '/' as byte || c == ';' as byte || c == '.' as byte
    || c == '$' as byte || c == '_' as byte || c == '(' as byte || c == ')' as byte
    || (c == '-' as byte && !isFirst)
  }

  /** The alphabet of names, in the letters of the protocol document; a hyphen
      is refused in front and nowhere else. */
  lemma NameAlphabet(c: byte, isFirst: bool)
    ensures IsNameSafe(c, isFirst) <==>
            var x := c as char;
            && ('a' <= x <= 'z' || 'A' <= x <= 'Z' || '0' <= x <= '9' || x in "-+/;.$_()")
            && !(isFirst && x == '-')
  {
  }

  const MAX_NAME: nat := 200

  predicate IsName(s: seq<byte>) {
    && (forall i :: 0 <= i < |s| ==> IsNameSafe(s[i], i == 0))
    && |s| <= MAX_NAME
  }

  /** The argument that one token stands for. */
  ghost function ReadToken(kind: Kind, token: seq<byte>): (r: Result<Arg, Response>)
    ensures r.Ok? ==> r.value.Kind() == kind
  {
    match kind
    case Number32 =>
      var n := ReadNumber(token, U32_LIMIT);
      if n.Some? then Ok(Int32(n.value)) else Err(BadFormat)
    case Number64 =>
      var n := ReadNumber(token, U64_LIMIT);
      if n.Some? then Ok(Int64(n.value)) else Err(BadFormat)
    case TubeName =>
      if IsName(token) then Ok(Name(token)) else Err(BadFormat)
  }

  function FirstToken(s: seq<byte>): seq<byte> {
    s[..FindSpace(s)]
  }

  function AfterToken(s: seq<byte>): seq<byte> {
    s[FindSpace(s)..]
  }

  /** One argument: exactly one space, then a non-empty token of its kind. */
  ghost function NextArg(kind: Kind, s: seq<byte>): (r: Result<Arg, Response>)
    ensures r.Ok? ==> r.value.Kind() == kind
    ensures r.Err? ==> r.error == BadFormat
  {
    if s == [] || s[0] != SP || FirstToken(s[1..]) == [] then Err(BadFormat)
    else ReadToken(kind, FirstToken(s[1..]))
  }

  /** What is left once an argument has been read, well-formed or not. */
  function AfterArg(s: seq<byte>): seq<byte> {
    if s == [] || s[0] != SP then s else AfterToken(s[1..])
  }

  ghost function ReadArgs(kinds: seq<Kind>, s: seq<byte>): (r: Result<(seq<Arg>, seq<byte>), Response>)
    ensures r.Ok? ==> Matches(kinds, r.value.0)
    ensures r.Err? ==> r.error == BadFormat
  {
    if kinds == [] then Ok(([], s))
    else
      var arg :- NextArg(kinds[0], s);
      var (args, rest) :- ReadArgs(kinds[1..], AfterArg(s));
      Ok(([arg] + args, rest))
  }

  /** The command a keyword makes of the text after it, and what is left. */
  ghost function ReadCommand(k: Keyword, s: seq<byte>): Result<(Command, seq<byte>), Response> {
    var (args, rest) :- ReadArgs(Kinds(k), s);
    Ok((Build(k, args), rest))
  }

  /** The whole parser, as a function of the line. */
  ghost function Parse(line: seq<byte>): Result<Command, Response> {
    if FirstToken(line) == [] then Err(BadFormat)
    else
      var k := Lookup(FirstToken(line));
      if k.None? then Err(UnknownCommand)
      else
        var (cmd, rest) :- ReadCommand(k.value, AfterToken(line));
        if rest == [] then Ok(cmd) else Err(BadFormat)
  }

  /** `ReadArgs` on an explicit list of kinds, one argument at a time. */
  lemma ReadArgsCons(kind: Kind, kinds: seq<Kind>, s: seq<byte>)
    ensures ReadArgs([kind] + kinds, s) ==
            (var arg :- NextArg(kind, s);
             var (args, rest) :- ReadArgs(kinds, AfterArg(s));
             Ok(([arg] + args, rest)))
  {
    assert ([kind] + kinds)[1..] == kinds;
  }

  lemma ReadOneArg(kind: Kind, s: seq<byte>)
    ensures ReadArgs([kind], s) == (var arg :- NextArg(kind, s); Ok(([arg], AfterArg(s))))
  {
    ReadArgsCons(kind, [], s);
    assert [kind] + [] == [kind];
    assert forall arg: Arg :: [arg] + [] == [arg];
  }

  lemma ReadTwoArgs(k1: Kind, k2: Kind, s: seq<byte>)
    ensures ReadArgs([k1, k2], s) ==
            (var a1 :- NextArg(k1, s);
             var a2 :- NextArg(k2, AfterArg(s));
             Ok(([a1, a2], AfterArg(AfterArg(s)))))
  {
    ReadArgsCons(k1, [k2], s);
    ReadOneArg(k2, AfterArg(s));
    assert [k1] + [k2] == [k1, k2];
    var tail := ReadArgs([k2], AfterArg(s));
    if NextArg(k1, s).Ok? && tail.Ok? {
      var a1, a := NextArg(k1, s).value, tail.value.0;
      assert [a1] + a == [a1, a[0]];
    }
  }

  lemma ReadThreeArgs(k1: Kind, k2: Kind, k3: Kind, s: seq<byte>)
    ensures ReadArgs([k1, k2, k3], s) ==
            (var a1 :- NextArg(k1, s);
             var a2 :- NextArg(k2, AfterArg(s));
             var a3 :- NextArg(k3, AfterArg(AfterArg(s)));
             Ok(([a1, a2, a3], AfterArg(AfterArg(AfterArg(s))))))
  {
    ReadArgsCons(k1, [k2, k3], s);
    ReadTwoArgs(k2, k3, AfterArg(s));
    assert [k1] + [k2, k3] == [k1, k2, k3];
    var tail := ReadArgs([k2, k3], AfterArg(s));
    if NextArg(k1, s).Ok? && tail.Ok? {
      var a1, a := NextArg(k1, s).value, tail.value.0;
      assert [a1] + a == [a1, a[0], a[1]];
    }
  }

  lemma ReadFourArgs(k1: Kind, k2: Kind, k3: Kind, k4: Kind, s: seq<byte>)
    ensures ReadArgs([k1, k2, k3, k4], s) ==
            (var a1 :- NextArg(k1, s);
             var (a, rest) :- ReadArgs([k2, k3, k4], AfterArg(s));
             Ok(([a1, a[0], a[1], a[2]], rest)))
  {
    assert [k1, k2, k3, k4][1..] == [k2, k3, k4];
    var tail := ReadArgs([k2, k3, k4], AfterArg(s));
    if NextArg(k1, s).Ok? && tail.Ok? {
      var a1, a := NextArg(k1, s).value, tail.value.0;
      assert [a1] + a == [a1, a[0], a[1], a[2]];
    }
  }

  /** The parser's cursor over the rest of the line. */
  class ParseState {
    var from: seq<byte>

    constructor (value: seq<byte>)
      ensures from == value
    {
      from := value;
    }

    /** The result, provided that nothing is left to read. */
    function ExpectDoneAnd<R>(result: R): Result<R, Response>
      reads this
    {
      if from == [] then Ok(result) else Err(BadFormat)
    }

    /** Takes bytes up to the next space or the end; nothing at the end. */
    method NextToken() returns (r: Option<seq<byte>>)
      modifies this
      ensures r == if old(from) == [] then None else Some(FirstToken(old(from)))
      ensures from == AfterToken(old(from))
    {
      if from == [] {
        return None;
      }
      var idx := SpacePosition(from);
      r := Some(from[..idx]);
      from := from[idx..];
    }

    method ExpectNextToken() returns (r: Result<seq<byte>, Response>)
      modifies this
      ensures r == if FirstToken(old(from)) == [] then Err(BadFormat) else Ok(FirstToken(old(from)))
      ensures from == AfterToken(old(from))
    {
      var token := NextToken();
      if token.None? || token.value == [] {
        return Err(BadFormat);
      }
      return Ok(token.value);
    }

    method ExpectSpace() returns (r: Result<(), Response>)
      modifies this
      ensures if old(from) == [] || old(from)[0] != SP
              then r == Err(BadFormat) && from == old(from)
              else r == Ok(()) && from == old(from)[1..]
    {
      if from == [] || from[0] != SP {
        return Err(BadFormat);
      }
      from := from[1..];
      return Ok(());
    }

    method ExpectNextU32() returns (r: Result<u32, Response>)
      modifies this
      ensures match NextArg(Number32, old(from))
              case Ok(arg) => r == Ok(arg.n32)
              case Err(e) => r == Err(e)
      ensures from == AfterArg(old(from))
    {
      var _ :- ExpectSpace();
      var token :- ExpectNextToken();
      var n := ReadDigits(token, U32_LIMIT);
      return if n.Some? then Ok(n.value) else Err(BadFormat);
    }

    method ExpectNextU64() returns (r: Result<u64, Response>)
      modifies this
      ensures match NextArg(Number64, old(from))
              case Ok(arg) => r == Ok(arg.n64)
              case Err(e) => r == Err(e)
      ensures from == AfterArg(old(from))
    {
      var _ :- ExpectSpace();
      var token :- ExpectNextToken();
      var n := ReadDigits(token, U64_LIMIT);
      return if n.Some? then Ok(n.value) else Err(BadFormat);
    }

    method ExpectNextName() returns (r: Result<seq<byte>, Response>)
      modifies this
      ensures match NextArg(TubeName, old(from))
              case Ok(arg) => r == Ok(arg.name)
              case Err(e) => r == Err(e)
      ensures from == AfterArg(old(from))
    {
      var _ :- ExpectSpace();
      var token :- ExpectNextToken();
      return if IsName(token) then Ok(token) else Err(BadFormat);
    }

    /** The arms of the command table that read a single argument. */
    method ExpectOneArgument(k: Keyword) returns (r: Result<Command, Response>)
      requires |Kinds(k)| == 1
      modifies this
      ensures match ReadCommand(k, old(from))
              case Ok((cmd, rest)) => r == Ok(cmd) && from == rest
              case Err(e) => r == Err(e)
    {
      hide ReadArgs, NextArg, AfterArg;
      ReadOneArg(Kinds(k)[0], from);
      match k {
        case KDelete =>
          var id :- ExpectNextU64();
          return Ok(Delete(id));
        case KKick =>
          var bound :- ExpectNextU64();
          return Ok(Kick(bound));
        case KKickJob =>
          var id :- ExpectNextU64();
          return Ok(KickJob(id));
        case KPeek =>
          var id :- ExpectNextU64();
          return Ok(Peek(id));
        case KReserveJob =>
          var id :- ExpectNextU64();
          return Ok(ReserveJob(id));
        case KStatsJob =>
          var id :- ExpectNextU64();
          return Ok(StatsJob(id));
        case KTouch =>
          var id :- ExpectNextU64();
          return Ok(Touch(id));
        case KReserveWithTimeout =>
          var timeout :- ExpectNextU32();
          return Ok(ReserveWithTimeout(timeout));
        case KUse =>
          var tube :- ExpectNextName();
          return Ok(Use(tube));
        case KWatch =>
          var tube :- ExpectNextName();
          return Ok(Watch(tube));
        case KIgnore =>
          var tube :- ExpectNextName();
          return Ok(Ignore(tube));
        case KStatsTube =>
          var tube :- ExpectNextName();
          return Ok(StatsTube(tube));
      }
    }

    /** The arms of the command table that read two arguments. */
    method ExpectTwoArguments(k: Keyword) returns (r: Result<Command, Response>)
      requires |Kinds(k)| == 2
      modifies this
      ensures match ReadCommand(k, old(from))
              case Ok((cmd, rest)) => r == Ok(cmd) && from == rest
              case Err(e) => r == Err(e)
    {
      hide ReadArgs, NextArg, AfterArg;
      match k {
        case KBury =>
          ReadTwoArgs(Number64, Number32, from);
          var id :- ExpectNextU64();
          var pri :- ExpectNextU32();
          return Ok(Bury(id, pri));
        case KPauseTube =>
          ReadTwoArgs(TubeName, Number32, from);
          var tube :- ExpectNextName();
          var delay :- ExpectNextU32();
          return Ok(PauseTube(tube, delay));
      }
    }

    /** The arms of the command table that read more than two arguments. */
    method ExpectMoreArguments(k: Keyword) returns (r: Result<Command, Response>)
      requires |Kinds(k)| > 2
      modifies this
      ensures match ReadCommand(k, old(from))
              case Ok((cmd, rest)) => r == Ok(cmd) && from == rest
              case Err(e) => r == Err(e)
    {
      hide ReadArgs, NextArg, AfterArg;
      match k {
        case KRelease =>
          ReadThreeArgs(Number64, Number32, Number32, from);
          var id :- ExpectNextU64();
          var pri :- ExpectNextU32();
          var delay :- ExpectNextU32();
          return Ok(Release(id, pri, delay));
        case KPut =>
          ReadFourArgs(Number32, Number32, Number32, Number32, from);
          ReadThreeArgs(Number32, Number32, Number32, AfterArg(from));
          var pri :- ExpectNextU32();
          var delay :- ExpectNextU32();
          var ttr :- ExpectNextU32();
          var nBytes :- ExpectNextU32();
          return Ok(Put(pri, delay, ttr, nBytes));
      }
    }

    /** The arms of the command table: reads the arguments of keyword `k`. */
    method ExpectArguments(k: Keyword) returns (r: Result<Command, Response>)
      modifies this
      ensures match ReadCommand(k, old(from))
              case Ok((cmd, rest)) => r == Ok(cmd) && from == rest
              case Err(e) => r == Err(e)
    {
      match k {
        case KListTubeUsed => return Ok(ListTubeUsed);
        case KListTubesWatched => return Ok(ListTubesWatched);
        case KListTubes => return Ok(ListTubes);
        case KPeekBuried => return Ok(PeekBuried);
        case KPeekDelayed => return Ok(PeekDelayed);
        case KPeekReady => return Ok(PeekReady);
        case KQuit => return Ok(Quit);
        case KReserve => return Ok(Reserve);
        case KStats => return Ok(StatsServer);
        case KBury | KPauseTube =>
          r := ExpectTwoArguments(k);
        case KRelease | KPut =>
          r := ExpectMoreArguments(k);
        case _ =>
          r := ExpectOneArgument(k);
      }
    }
  }

  /** Parses one command line. */
  method TryFrom(value: seq<byte>) returns (r: Result<Command, Response>)
    ensures r == Parse(value)
  {
    var ps := new ParseState(value);
    var token :- ps.ExpectNextToken();
    var k := Lookup(token);
    if k.None? {
      return Err(UnknownCommand);
    }
    var cmd :- ps.ExpectArguments(k.value);
    return ps.ExpectDoneAnd(cmd);
  }
}
