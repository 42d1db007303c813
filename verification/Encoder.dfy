/** The encoder of server responses. */
module Encoder {
  import opened Base
  import opened Bytes
  import opened Buffers
  import opened Decimal
  import opened Protocol

  datatype EncodeError = Serde

  predicate IsOk(r: Response) {
    r.OkStatsJob? || r.OkStats? || r.OkStatsTube? || r.OkListTubes?
  }

  /** Responses that carry a number. */
  predicate IsNumbered(r: Response) {
    || r.BuriedID? || r.Inserted? || r.KickedCount? || r.Watching?
    || r.Reserved? || r.Found?
  }

  /** Responses that are a bare word. */
  predicate IsStatus(r: Response) {
    !IsOk(r) && !IsNumbered(r) && !r.Using? && !r.JobChunk? && !r.JobEnd?
  }

  function NumberOf(r: Response): nat
    requires IsNumbered(r)
  {
    match r
    case BuriedID(id) => id
    case Inserted(id) => id
    case KickedCount(count) => count
    case Watching(watched) => watched
    case Reserved(id) => id
    case Found(id) => id
  }

  /** The word of a bare-word response. */
  function StatusLabel(r: Response): string
    requires IsStatus(r)
  {
    match r
    case BadFormat => "BAD_FORMAT"
    case Buried => "BURIED"
    case DeadlineSoon => "DEADLINE_SOON"
    case Deleted => "DELETED"
    case Draining => "DRAINING"
    case ExpectedCRLF => "EXPECTED_CRLF"
    case InternalError => "INTERNAL_ERROR"
    case JobTooBig => "JOB_TOO_BIG"
    case Kicked => "KICKED"
    case NotFound => "NOT_FOUND"
    case NotIgnored => "NOT_IGNORED"
    case OutOfMemory => "OUT_OF_MEMORY"
    case Paused => "PAUSED"
    case Released => "RELEASED"
    case TimedOut => "TIMED_OUT"
    case Touched => "TOUCHED"
    case UnknownCommand => "UNKNOWN_COMMAND"
  }

  /** The word before the number of a numbered response. */
  function NumberLabel(r: Response): string
    requires IsNumbered(r)
  {
    match r
    case BuriedID(_) => "BURIED"
    case Inserted(_) => "INSERTED"
    case KickedCount(_) => "KICKED"
    case Watching(_) => "WATCHING"
    case Reserved(_) => "RESERVED"
    case Found(_) => "FOUND"
  }

  const OK: seq<byte> := Ascii("OK")
  const USING: seq<byte> := Ascii("USING")

  function StatusWire(r: Response): seq<byte>
    requires IsStatus(r)
  {
    Ascii(StatusLabel(r)) + CRLF
  }

  function LineWire(word: seq<byte>, argument: seq<byte>): seq<byte> {
    word + [SP] + argument + CRLF
  }

  function DataWire(data: seq<byte>): seq<byte> {
    LineWire(OK, Spell(|data|)) + data + CRLF
  }

  /** A response's bytes on the wire. */
  function Wire(r: Response): seq<byte> {
    if r.JobChunk? then r.data
    else if r.JobEnd? then CRLF
    else if r.Using? then LineWire(USING, r.tube)
    else if IsNumbered(r) then LineWire(Ascii(NumberLabel(r)), Spell(NumberOf(r)))
    else if IsStatus(r) then StatusWire(r)
    else if r.yaml.Some? then DataWire(r.yaml.value)
    else StatusWire(InternalError)
  }

  // ---------- the responses in the letters of the protocol ----------

  lemma StatusText(r: Response, text: string)
    requires IsStatus(r) && text == StatusLabel(r) + "\r\n"
    ensures Wire(r) == Ascii(text)
  {
    hide StatusLabel, Ascii;
    Separators();
    AsciiAppend(StatusLabel(r), "\r\n");
  }

  /** The errors any command may meet. */
  lemma ErrorTexts()
    ensures Wire(OutOfMemory) == Ascii("OUT_OF_MEMORY\r\n")
    ensures Wire(InternalError) == Ascii("INTERNAL_ERROR\r\n")
    ensures Wire(BadFormat) == Ascii("BAD_FORMAT\r\n")
    ensures Wire(UnknownCommand) == Ascii("UNKNOWN_COMMAND\r\n")
  {
    hide Ascii, Wire;
    StatusText(OutOfMemory, "OUT_OF_MEMORY\r\n");
    StatusText(InternalError, "INTERNAL_ERROR\r\n");
    StatusText(BadFormat, "BAD_FORMAT\r\n");
    StatusText(UnknownCommand, "UNKNOWN_COMMAND\r\n");
  }

  /** What `put` may be answered, but for the job's id. */
  lemma PutTexts()
    ensures Wire(Buried) == Ascii("BURIED\r\n")
    ensures Wire(ExpectedCRLF) == Ascii("EXPECTED_CRLF\r\n")
    ensures Wire(JobTooBig) == Ascii("JOB_TOO_BIG\r\n")
    ensures Wire(Draining) == Ascii("DRAINING\r\n")
  {
    hide Ascii, Wire;
    StatusText(Buried, "BURIED\r\n");
    StatusText(ExpectedCRLF, "EXPECTED_CRLF\r\n");
    StatusText(JobTooBig, "JOB_TOO_BIG\r\n");
    StatusText(Draining, "DRAINING\r\n");
  }

  /** What `reserve` and `ignore` may be answered. */
  lemma ReserveTexts()
    ensures Wire(DeadlineSoon) == Ascii("DEADLINE_SOON\r\n")
    ensures Wire(TimedOut) == Ascii("TIMED_OUT\r\n")
    ensures Wire(NotFound) == Ascii("NOT_FOUND\r\n")
    ensures Wire(NotIgnored) == Ascii("NOT_IGNORED\r\n")
  {
    hide Ascii, Wire;
    StatusText(DeadlineSoon, "DEADLINE_SOON\r\n");
    StatusText(TimedOut, "TIMED_OUT\r\n");
    StatusText(NotFound, "NOT_FOUND\r\n");
    StatusText(NotIgnored, "NOT_IGNORED\r\n");
  }

  /** What is answered to commands on one job. */
  lemma JobTexts()
    ensures Wire(Deleted) == Ascii("DELETED\r\n")
    ensures Wire(Released) == Ascii("RELEASED\r\n")
    ensures Wire(Touched) == Ascii("TOUCHED\r\n")
  {
    hide Ascii, Wire;
    StatusText(Deleted, "DELETED\r\n");
    StatusText(Released, "RELEASED\r\n");
    StatusText(Touched, "TOUCHED\r\n");
  }

  /** `kick-job` and `pause-tube`. */
  lemma KickTexts()
    ensures Wire(Kicked) == Ascii("KICKED\r\n")
    ensures Wire(Paused) == Ascii("PAUSED\r\n")
  {
    hide Ascii, Wire;
    StatusText(Kicked, "KICKED\r\n");
    StatusText(Paused, "PAUSED\r\n");
  }

  lemma LineText(r: Response, word: string)
    requires r.Using? || (IsNumbered(r) && word == NumberLabel(r))
    requires r.Using? ==> word == "USING"
    ensures Wire(r) == Ascii(word + " ") + (if r.Using? then r.tube else Spell(NumberOf(r))) + Ascii("\r\n")
  {
    hide NumberLabel, NumberOf, Ascii, Spell;
    Separators();
    AsciiAppend(word, " ");
  }

  /** The responses that carry a number. */
  lemma NumberTexts(id: u64, watched: u32)
    ensures Wire(BuriedID(id)) == Ascii("BURIED ") + Spell(id) + Ascii("\r\n")
    ensures Wire(Inserted(id)) == Ascii("INSERTED ") + Spell(id) + Ascii("\r\n")
    ensures Wire(KickedCount(id)) == Ascii("KICKED ") + Spell(id) + Ascii("\r\n")
    ensures Wire(Watching(watched)) == Ascii("WATCHING ") + Spell(watched) + Ascii("\r\n")
    ensures Wire(Reserved(id)) == Ascii("RESERVED ") + Spell(id) + Ascii("\r\n")
    ensures Wire(Found(id)) == Ascii("FOUND ") + Spell(id) + Ascii("\r\n")
  {
    hide Ascii, Wire, Spell;
    LineText(BuriedID(id), "BURIED");
    assert "BURIED" + " " == "BURIED ";
    LineText(Inserted(id), "INSERTED");
    assert "INSERTED" + " " == "INSERTED ";
    LineText(KickedCount(id), "KICKED");
    assert "KICKED" + " " == "KICKED ";
    LineText(Watching(watched), "WATCHING");
    assert "WATCHING" + " " == "WATCHING ";
    LineText(Reserved(id), "RESERVED");
    assert "RESERVED" + " " == "RESERVED ";
    LineText(Found(id), "FOUND");
    assert "FOUND" + " " == "FOUND ";
  }

  /** The responses that carry bytes. */
  lemma DataTexts(bytes: seq<byte>)
    ensures Wire(Using(bytes)) == Ascii("USING ") + bytes + Ascii("\r\n")
    ensures Wire(JobChunk(bytes)) == bytes && Wire(JobEnd) == Ascii("\r\n")
  {
    hide Ascii;
    Separators();
    LineText(Using(bytes), "USING");
    assert "USING" + " " == "USING ";
  }

  /** The four responses with data, alike: the data after its length, or the
      internal error. */
  lemma OkTexts(r: Response)
    requires r.OkStatsJob? || r.OkStats? || r.OkStatsTube? || r.OkListTubes?
    ensures r.yaml.Some? ==>
              Wire(r) == Ascii("OK ") + Spell(|r.yaml.value|) + Ascii("\r\n") + r.yaml.value + Ascii("\r\n")
    ensures r.yaml.None? ==> Wire(r) == Ascii("INTERNAL_ERROR\r\n")
  {
    ErrorTexts();
    hide Ascii, Spell;
    Separators();
    AsciiAppend("OK", " ");
    assert "OK" + " " == "OK ";
  }

  // ---------- writing ----------

  /** Writes the serialised data after its length, or reports that it could
      not be serialised. */
  method PutOkAndData(dst: Buffer, yaml: Option<seq<byte>>) returns (r: Result<(), EncodeError>)
    modifies dst
    ensures yaml.Some? ==> r == Ok(()) && dst.data == old(dst.data) + DataWire(yaml.value)
    ensures yaml.None? ==> r == Err(Serde) && dst.data == old(dst.data) + StatusWire(InternalError)
  {
    hide Ascii, Spell;
    match yaml
    case Some(data) =>
      dst.PutSlice(OK);
      dst.PutSlice([SP]);
      dst.PutSlice(Spell(|data|));
      dst.PutSlice(CRLF);
      assert dst.data == old(dst.data) + LineWire(OK, Spell(|data|));
      dst.PutSlice(data);
      dst.PutSlice(CRLF);
      return Ok(());
    case None =>
      dst.PutSlice(StatusWire(InternalError));
      return Err(Serde);
  }

  /** Writes a word, a space and a number as one line. */
  method PutStrAndNumber(dst: Buffer, word: seq<byte>, num: nat)
    modifies dst
    ensures dst.data == old(dst.data) + LineWire(word, Spell(num))
  {
    dst.PutSlice(word);
    dst.PutSlice([SP]);
    dst.PutSlice(Spell(num));
    dst.PutSlice(CRLF);
  }

  /** The arm of `USING`. */
  method PutUsing(dst: Buffer, tube: seq<byte>)
    modifies dst
    ensures dst.data == old(dst.data) + Wire(Using(tube))
  {
    hide Wire, Ascii;
    DataTexts(tube);
    dst.PutSlice(Ascii("USING "));
    dst.PutSlice(tube);
    dst.PutSlice(Ascii("\r\n"));
    assert dst.data == old(dst.data) + (Ascii("USING ") + tube + Ascii("\r\n"));
  }

  /** The arms of the bare words. */
  method PutStatus(dst: Buffer, item: Response)
    requires IsStatus(item)
    modifies dst
    ensures dst.data == old(dst.data) + Wire(item)
  {
    hide Wire, Ascii;
    ErrorTexts();
    PutTexts();
    ReserveTexts();
    JobTexts();
    KickTexts();
    match item {
      case BadFormat => dst.PutSlice(Ascii("BAD_FORMAT\r\n"));
      case Buried => dst.PutSlice(Ascii("BURIED\r\n"));
      case DeadlineSoon => dst.PutSlice(Ascii("DEADLINE_SOON\r\n"));
      case Deleted => dst.PutSlice(Ascii("DELETED\r\n"));
      case Draining => dst.PutSlice(Ascii("DRAINING\r\n"));
      case ExpectedCRLF => dst.PutSlice(Ascii("EXPECTED_CRLF\r\n"));
      case InternalError => dst.PutSlice(Ascii("INTERNAL_ERROR\r\n"));
      case JobTooBig => dst.PutSlice(Ascii("JOB_TOO_BIG\r\n"));
      case Kicked => dst.PutSlice(Ascii("KICKED\r\n"));
      case NotFound => dst.PutSlice(Ascii("NOT_FOUND\r\n"));
      case NotIgnored => dst.PutSlice(Ascii("NOT_IGNORED\r\n"));
      case OutOfMemory => dst.PutSlice(Ascii("OUT_OF_MEMORY\r\n"));
      case Paused => dst.PutSlice(Ascii("PAUSED\r\n"));
      case Released => dst.PutSlice(Ascii("RELEASED\r\n"));
      case TimedOut => dst.PutSlice(Ascii("TIMED_OUT\r\n"));
      case Touched => dst.PutSlice(Ascii("TOUCHED\r\n"));
      case UnknownCommand => dst.PutSlice(Ascii("UNKNOWN_COMMAND\r\n"));
    }
  }

  /** Appends one response to the output; fails only when the data of an `OK`
      response cannot be serialised, and then tells the client of an error. */
  method Encode(item: Response, dst: Buffer) returns (r: Result<(), EncodeError>)
    modifies dst
    ensures dst.data == old(dst.data) + Wire(item)
    ensures r == if IsOk(item) && item.yaml.None? then Err(Serde) else Ok(())
  {
    hide StatusWire, LineWire, DataWire, StatusLabel, Ascii, Spell;
    r := Ok(());
    match item {
      case BuriedID(id) => PutStrAndNumber(dst, Ascii("BURIED"), id);
      case Inserted(id) => PutStrAndNumber(dst, Ascii("INSERTED"), id);
      case KickedCount(count) => PutStrAndNumber(dst, Ascii("KICKED"), count);
      case Watching(watched) => PutStrAndNumber(dst, Ascii("WATCHING"), watched);
      case OkStatsJob(yaml) => r := PutOkAndData(dst, yaml);
      case OkStats(yaml) => r := PutOkAndData(dst, yaml);
      case OkListTubes(yaml) => r := PutOkAndData(dst, yaml);
      case OkStatsTube(yaml) => r := PutOkAndData(dst, yaml);
      case Using(tube) => PutUsing(dst, tube);
      case Reserved(id) => PutStrAndNumber(dst, Ascii("RESERVED"), id);
      case Found(id) => PutStrAndNumber(dst, Ascii("FOUND"), id);
      case JobChunk(data) => dst.PutSlice(data);
      case JobEnd => dst.PutSlice(CRLF);
      case _ => PutStatus(dst, item);
    }
  }
}
