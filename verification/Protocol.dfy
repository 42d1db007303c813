/** The commands and responses of the protocol, as values. */
module Protocol {
  import opened Base

  /** The longest command line, CRLF included. */
  const MAX_LINE: nat := 224

  datatype Command =
    | Put(pri: u32, delay: u32, ttr: u32, nBytes: u32)
    | Reserve
    | ReserveWithTimeout(timeout: u32)
    | ReserveJob(id: u64)
    | Release(id: u64, pri: u32, delay: u32)
    | Delete(id: u64)
    | Bury(id: u64, pri: u32)
    | Touch(id: u64)
    | Watch(tube: seq<byte>)
    | Ignore(tube: seq<byte>)
    | Peek(id: u64)
    | PeekReady
    | PeekDelayed
    | PeekBuried
    | Kick(bound: u64)
    | KickJob(id: u64)
    | StatsJob(id: u64)
    | StatsTube(tube: seq<byte>)
    | StatsServer
    | ListTubes
    | ListTubeUsed
    | ListTubesWatched
    | Quit
    | PauseTube(tube: seq<byte>, delay: u32)
    | Use(tube: seq<byte>)

  /** The four data-carrying `Ok*` responses hold the YAML text that the
      serialiser produces, or `None` when serialisation fails. */
  datatype Response =
    | OutOfMemory
    | InternalError
    | BadFormat
    | UnknownCommand
    | Inserted(id: u64)
    | BuriedID(id: u64)
    | ExpectedCRLF
    | JobTooBig
    | Draining
    | Using(tube: seq<byte>)
    | DeadlineSoon
    | TimedOut
    | Reserved(id: u64)
    | Found(id: u64)
    | JobChunk(data: seq<byte>)
    | JobEnd
    | NotFound
    | Deleted
    | Released
    | Buried
    | Touched
    | Watching(watched: u32)
    | NotIgnored
    | KickedCount(count: u64)
    | Kicked
    | OkStatsJob(yaml: Option<seq<byte>>)
    | OkStats(yaml: Option<seq<byte>>)
    | OkStatsTube(yaml: Option<seq<byte>>)
    | OkListTubes(yaml: Option<seq<byte>>)
    | Paused
}

/** The command table: each keyword's spelling and argument list, and how a
    command is taken apart into, and built from, its arguments. */
module CommandTable {
  import opened Base
  import opened Bytes
  import opened Protocol

  datatype Keyword =
    | KPut | KReserve | KReserveWithTimeout | KReserveJob | KRelease | KDelete
    | KBury | KTouch | KWatch | KIgnore | KPeek | KPeekReady | KPeekDelayed
    | KPeekBuried | KKick | KKickJob | KStatsJob | KStatsTube | KStats
    | KListTubes | KListTubeUsed | KListTubesWatched | KQuit | KPauseTube | KUse

  datatype Kind = Number32 | Number64 | TubeName

  datatype Arg = Int32(n32: u32) | Int64(n64: u64) | Name(name: seq<byte>) {
    function Kind(): Kind {
      match this
      case Int32(_) => Number32
      case Int64(_) => Number64
      case Name(_) => TubeName
    }
  }

  function Word(k: Keyword): string {
    match k
    case KPut => "put"
    case KReserve => "reserve"
    case KReserveWithTimeout => "reserve-with-timeout"
    case KReserveJob => "reserve-job"
    case KRelease => "release"
    case KDelete => "delete"
    case KBury => "bury"
    case KTouch => "touch"
    case KWatch => "watch"
    case KIgnore => "ignore"
    case KPeek => "peek"
    case KPeekReady => "peek-ready"
    case KPeekDelayed => "peek-delayed"
    case KPeekBuried => "peek-buried"
    case KKick => "kick"
    case KKickJob => "kick-job"
    case KStatsJob => "stats-job"
    case KStatsTube => "stats-tube"
    case KStats => "stats"
    case KListTubes => "list-tubes"
    case KListTubeUsed => "list-tube-used"
    case KListTubesWatched => "list-tubes-watched"
    case KQuit => "quit"
    case KPauseTube => "pause-tube"
    case KUse => "use"
  }

  /** The bytes of a keyword on the wire. */
  function Spelling(k: Keyword): seq<byte> {
    Ascii(Word(k))
  }

  /** The arguments that follow a keyword, in order. */
  function Kinds(k: Keyword): seq<Kind> {
    match k
    case KPut => [Number32, Number32, Number32, Number32]
    case KReserveWithTimeout => [Number32]
    case KReserveJob | KDelete | KTouch | KPeek | KKick | KKickJob | KStatsJob => [Number64]
    case KRelease => [Number64, Number32, Number32]
    case KBury => [Number64, Number32]
    case KWatch | KIgnore | KStatsTube | KUse => [TubeName]
    case KPauseTube => [TubeName, Number32]
    case KReserve | KPeekReady | KPeekDelayed | KPeekBuried | KStats
       | KListTubes | KListTubeUsed | KListTubesWatched | KQuit => []
  }

  predicate Matches(kinds: seq<Kind>, args: seq<Arg>) {
    |args| == |kinds| && forall i :: 0 <= i < |args| ==> args[i].Kind() == kinds[i]
  }

  /** The command a keyword makes of its arguments. */
  function Build(k: Keyword, args: seq<Arg>): Command
    requires Matches(Kinds(k), args)
  {
    match k
    case KPut => Put(args[0].n32, args[1].n32, args[2].n32, args[3].n32)
    case KReserve => Reserve
    case KReserveWithTimeout => ReserveWithTimeout(args[0].n32)
    case KReserveJob => ReserveJob(args[0].n64)
    case KRelease => Release(args[0].n64, args[1].n32, args[2].n32)
    case KDelete => Delete(args[0].n64)
    case KBury => Bury(args[0].n64, args[1].n32)
    case KTouch => Touch(args[0].n64)
    case KWatch => Watch(args[0].name)
    case KIgnore => Ignore(args[0].name)
    case KPeek => Peek(args[0].n64)
    case KPeekReady => PeekReady
    case KPeekDelayed => PeekDelayed
    case KPeekBuried => PeekBuried
    case KKick => Kick(args[0].n64)
    case KKickJob => KickJob(args[0].n64)
    case KStatsJob => StatsJob(args[0].n64)
    case KStatsTube => StatsTube(args[0].name)
    case KStats => StatsServer
    case KListTubes => ListTubes
    case KListTubeUsed => ListTubeUsed
    case KListTubesWatched => ListTubesWatched
    case KQuit => Quit
    case KPauseTube => PauseTube(args[0].name, args[1].n32)
    case KUse => Use(args[0].name)
  }

  function KeywordOf(c: Command): Keyword {
    match c
    case Put(_, _, _, _) => KPut
    case Reserve => KReserve
    case ReserveWithTimeout(_) => KReserveWithTimeout
    case ReserveJob(_) => KReserveJob
    case Release(_, _, _) => KRelease
    case Delete(_) => KDelete
    case Bury(_, _) => KBury
    case Touch(_) => KTouch
    case Watch(_) => KWatch
    case Ignore(_) => KIgnore
    case Peek(_) => KPeek
    case PeekReady => KPeekReady
    case PeekDelayed => KPeekDelayed
    case PeekBuried => KPeekBuried
    case Kick(_) => KKick
    case KickJob(_) => KKickJob
    case StatsJob(_) => KStatsJob
    case StatsTube(_) => KStatsTube
    case StatsServer => KStats
    case ListTubes => KListTubes
    case ListTubeUsed => KListTubeUsed
    case ListTubesWatched => KListTubesWatched
    case Quit => KQuit
    case PauseTube(_, _) => KPauseTube
    case Use(_) => KUse
  }

  /** A command's arguments in wire order. */
  function ArgsOf(c: Command): (args: seq<Arg>)
    ensures Matches(Kinds(KeywordOf(c)), args)
  {
    match c
    case Put(pri, delay, ttr, nBytes) => [Int32(pri), Int32(delay), Int32(ttr), Int32(nBytes)]
    case ReserveWithTimeout(timeout) => [Int32(timeout)]
    case ReserveJob(id) => [Int64(id)]
    case Delete(id) => [Int64(id)]
    case Touch(id) => [Int64(id)]
    case Peek(id) => [Int64(id)]
    case KickJob(id) => [Int64(id)]
    case StatsJob(id) => [Int64(id)]
    case Kick(bound) => [Int64(bound)]
    case Release(id, pri, delay) => [Int64(id), Int32(pri), Int32(delay)]
    case Bury(id, pri) => [Int64(id), Int32(pri)]
    case Watch(tube) => [Name(tube)]
    case Ignore(tube) => [Name(tube)]
    case StatsTube(tube) => [Name(tube)]
    case Use(tube) => [Name(tube)]
    case PauseTube(tube, delay) => [Name(tube), Int32(delay)]
    case Reserve | PeekReady | PeekDelayed | PeekBuried | StatsServer
       | ListTubes | ListTubeUsed | ListTubesWatched | Quit => []
  }

  /** Taking a command apart and building it again gives the same command. */
  lemma BuildOfParts(c: Command)
    ensures Build(KeywordOf(c), ArgsOf(c)) == c
  {
  }

  lemma PartsOfBuild(k: Keyword, args: seq<Arg>)
    requires Matches(Kinds(k), args)
    ensures KeywordOf(Build(k, args)) == k
    ensures ArgsOf(Build(k, args)) == args
  {
  }

  /** The keyword with the given length, first and third letter. */
  function Identify(length: nat, first: char, third: char): Keyword {
    match length
    case 3 => if first == 'p' then KPut else KUse
    case 4 => if first == 'q' then KQuit else if first == 'k' then KKick else if first == 'p' then KPeek else KBury
    case 5 => if first == 't' then KTouch else if first == 'w' then KWatch else KStats
    case 6 => if first == 'd' then KDelete else KIgnore
    case 7 => if third == 's' then KReserve else KRelease
    case 8 => KKickJob
    case 9 => KStatsJob
    case 10 => if first == 'l' then KListTubes else if first == 's' then KStatsTube
               else if third == 'e' then KPeekReady else KPauseTube
    case 11 => if first == 'p' then KPeekBuried else KReserveJob
    case 12 => KPeekDelayed
    case 14 => KListTubeUsed
    case 18 => KListTubesWatched
    case _ => KReserveWithTimeout
  }

  lemma IdentifyWord(k: Keyword)
    ensures |Word(k)| >= 3 && Word(k)[0] < 128 as char && Word(k)[2] < 128 as char
    ensures Identify(|Word(k)|, Word(k)[0], Word(k)[2]) == k
  {
  }

  /** No two keywords are spelt alike. */
  lemma SpellingInjective(j: Keyword, k: Keyword)
    requires Spelling(j) == Spelling(k)
    ensures j == k
  {
    hide Word, Identify;
    IdentifyWord(j);
    IdentifyWord(k);
    assert Word(j)[0] as int == Spelling(j)[0] as int == Word(k)[0] as int;
    assert Word(j)[2] as int == Spelling(j)[2] as int == Word(k)[2] as int;
  }

  /** The keyword a token spells. */
  function Lookup(token: seq<byte>): (r: Option<Keyword>)
    ensures r.Some? ==> token == Spelling(r.value)
    ensures r.None? ==> forall k :: token != Spelling(k)
  {
    assert forall j, k :: Spelling(j) == token == Spelling(k) ==> j == k by {
      hide Spelling;
      forall j, k | Spelling(j) == token == Spelling(k) ensures j == k {
        SpellingInjective(j, k);
      }
    }
    if k :| token == Spelling(k) then Some(k) else None
  }
}
