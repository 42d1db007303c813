/** The command lines themselves, in the letters a client types: which lines the
    parser takes for which command, apart from the command table. */
module Wording {
  import opened Base
  import opened Bytes
  import opened Decimal
  import opened Protocol
  import opened CommandTable
  import opened Parser
  import opened Grammar

  /** A decimal numeral, leading zeros allowed. */
  ghost predicate Numeral(token: seq<byte>, n: nat) {
    token != [] && AllDigits(token) && Value(token) == n
  }

  /** The names of the protocol document: at most 200 letters, digits and
      signs, at least one, and no hyphen in front. */
  predicate TubeText(name: seq<byte>) {
    && 1 <= |name| <= 200
    && name[0] as char != '-'
    && forall i :: 0 <= i < |name| ==> NameChar(name[i] as char)
  }

  predicate NameChar(c: char) {
    'a' <= c <= 'z' || 'A' <= c <= 'Z' || '0' <= c <= '9' || c in "-+/;.$_()"
  }

  /** What the parser lets through as a name is what the document calls one. */
  lemma NamesAreTubeTexts(name: seq<byte>)
    ensures name != [] && IsName(name) <==> TubeText(name)
  {
    forall i | 0 <= i < |name|
      ensures IsNameSafe(name[i], i == 0) <==> NameChar(name[i] as char) && !(i == 0 && name[i] as char == '-')
    {
      NameAlphabet(name[i], i == 0);
    }
    if |name| > 0 && IsName(name) {
      assert IsNameSafe(name[0], true);
    }
  }

  // ---------- lines by their arguments ----------

  /** A token stands for an argument. */
  ghost predicate Denotes(token: seq<byte>, arg: Arg) {
    match arg
    case Int32(n) => Numeral(token, n)
    case Int64(n) => Numeral(token, n)
    case Name(name) => token == name && TubeText(name)
  }

  ghost predicate Denote(tokens: seq<seq<byte>>, args: seq<Arg>) {
    |tokens| == |args| && forall i :: 0 <= i < |args| ==> Denotes(tokens[i], args[i])
  }

  lemma DenotesIsMeaning(token: seq<byte>, arg: Arg)
    ensures Denotes(token, arg) <==> Fits(arg.Kind(), token) && Meaning(arg.Kind(), token) == arg
  {
    hide IsName, TubeText, Value;
    NamesAreTubeTexts(token);
  }

  lemma DenoteIsMeanings(tokens: seq<seq<byte>>, k: Keyword, args: seq<Arg>)
    requires Matches(Kinds(k), args)
    ensures Denote(tokens, args) <==> FitsAll(Kinds(k), tokens) && Meanings(Kinds(k), tokens) == args
  {
    hide Kinds, Fits, Meaning, Denotes;
    forall i | 0 <= i < |args| && i < |tokens|
      ensures Denotes(tokens[i], args[i])
         <==> Fits(Kinds(k)[i], tokens[i]) && Meaning(Kinds(k)[i], tokens[i]) == args[i]
    {
      DenotesIsMeaning(tokens[i], args[i]);
    }
    if FitsAll(Kinds(k), tokens) && Meanings(Kinds(k), tokens) == args {
      forall i | 0 <= i < |args| ensures Denotes(tokens[i], args[i]) {
        assert Meanings(Kinds(k), tokens)[i] == Meaning(Kinds(k)[i], tokens[i]);
      }
    }
  }

  /** A line means a command exactly when it is the command's keyword and
      tokens standing for its arguments. */
  lemma LinesOf(line: seq<byte>, c: Command)
    ensures Parse(line) == Ok(c) <==>
            exists tokens :: Denote(tokens, ArgsOf(c)) && line == Sentence(KeywordOf(c), tokens)
  {
    hide Parse, ArgsOf, Kinds, Build, Sentence, Denote, FitsAll, Meanings, KeywordOf;
    if Parse(line) == Ok(c) {
      var k, tokens := ParsesDerivable(line);
      PartsOfBuild(k, Meanings(Kinds(k), tokens));
      DenoteIsMeanings(tokens, k, ArgsOf(c));
    }
    forall tokens | Denote(tokens, ArgsOf(c)) && line == Sentence(KeywordOf(c), tokens)
      ensures Parse(line) == Ok(c)
    {
      DenoteIsMeanings(tokens, KeywordOf(c), ArgsOf(c));
      BuildOfParts(c);
      DerivableParses(line, KeywordOf(c), tokens, c);
    }
  }

  /** Tokens with a space between any two. */
  function Spaced(tokens: seq<seq<byte>>): seq<byte>
    requires tokens != []
  {
    if |tokens| == 1 then tokens[0] else tokens[0] + Ascii(" ") + Spaced(tokens[1..])
  }

  lemma {:induction false} ArgTextIsSpaced(tokens: seq<seq<byte>>)
    requires tokens != []
    ensures ArgText(tokens) == Ascii(" ") + Spaced(tokens)
  {
    Separators();
    hide Ascii;
    if |tokens| > 1 {
      ArgTextIsSpaced(tokens[1..]);
    } else {
      assert ArgText(tokens[1..]) == [];
    }
  }

  lemma BareLine(line: seq<byte>, cmd: Command, text: string)
    requires ArgsOf(cmd) == [] && text == Word(KeywordOf(cmd))
    ensures Parse(line) == Ok(cmd) <==> line == Ascii(text)
  {
    hide Parse, ArgsOf, KeywordOf, Ascii, Denotes;
    LinesOf(line, cmd);
    assert Denote([], ArgsOf(cmd));
    assert Ascii(text) + [] == Ascii(text);
  }

  lemma LineWithArguments(line: seq<byte>, cmd: Command, text: string)
    requires ArgsOf(cmd) != [] && text == Word(KeywordOf(cmd)) + " "
    ensures Parse(line) == Ok(cmd) <==>
            exists tokens :: Denote(tokens, ArgsOf(cmd)) && line == Ascii(text) + Spaced(tokens)
  {
    hide Parse, ArgsOf, KeywordOf, Ascii, Denotes, ArgText, Spaced;
    LinesOf(line, cmd);
    forall tokens | Denote(tokens, ArgsOf(cmd))
      ensures Sentence(KeywordOf(cmd), tokens) == Ascii(text) + Spaced(tokens)
    {
      ArgTextIsSpaced(tokens);
      AsciiAppend(Word(KeywordOf(cmd)), " ");
    }
  }

  /** Tokens that are numerals for the given numbers. */
  ghost predicate Numerals(tokens: seq<seq<byte>>, ns: seq<nat>) {
    |tokens| == |ns| && forall i :: 0 <= i < |ns| ==> Numeral(tokens[i], ns[i])
  }

  predicate Numbers(args: seq<Arg>, ns: seq<nat>) {
    && |args| == |ns|
    && forall i :: 0 <= i < |ns| ==> match args[i]
                                     case Int32(n) => n == ns[i]
                                     case Int64(n) => n == ns[i]
                                     case Name(_) => false
  }

  lemma LineWithNumbers(line: seq<byte>, cmd: Command, text: string, ns: seq<nat>)
    requires ns != [] && Numbers(ArgsOf(cmd), ns) && text == Word(KeywordOf(cmd)) + " "
    ensures Parse(line) == Ok(cmd) <==>
            exists tokens :: Numerals(tokens, ns) && line == Ascii(text) + Spaced(tokens)
  {
    hide Parse, ArgsOf, KeywordOf, Ascii, Spaced, Numeral;
    LineWithArguments(line, cmd, text);
    assert forall tokens :: Numerals(tokens, ns) == Denote(tokens, ArgsOf(cmd));
  }

  lemma LineWithNumber(line: seq<byte>, cmd: Command, text: string, n: nat)
    requires Numbers(ArgsOf(cmd), [n]) && text == Word(KeywordOf(cmd)) + " "
    ensures Parse(line) == Ok(cmd) <==> exists token :: Numeral(token, n) && line == Ascii(text) + token
  {
    hide Parse, ArgsOf, KeywordOf, Ascii, Numeral;
    LineWithNumbers(line, cmd, text, [n]);
    if Parse(line) == Ok(cmd) {
      var tokens :| Numerals(tokens, [n]) && line == Ascii(text) + Spaced(tokens);
      assert Numeral(tokens[0], n);
    }
    forall token | Numeral(token, n) && line == Ascii(text) + token ensures Parse(line) == Ok(cmd) {
      assert Numerals([token], [n]) && Spaced([token]) == token;
    }
  }

  lemma LineWithName(line: seq<byte>, cmd: Command, text: string)
    requires |ArgsOf(cmd)| == 1 && ArgsOf(cmd)[0].Name? && text == Word(KeywordOf(cmd)) + " "
    ensures Parse(line) == Ok(cmd) <==>
            TubeText(ArgsOf(cmd)[0].name) && line == Ascii(text) + ArgsOf(cmd)[0].name
  {
    hide Parse, ArgsOf, KeywordOf, Ascii, TubeText;
    LineWithArguments(line, cmd, text);
    var tube := ArgsOf(cmd)[0].name;
    assert Denote([tube], ArgsOf(cmd)) == TubeText(tube);
    assert Spaced([tube]) == tube;
  }

  // ---------- the lines, keyword by keyword ----------

  /** The three listing commands. */
  lemma ListLines(line: seq<byte>)
    ensures Parse(line) == Ok(ListTubes) <==> line == Ascii("list-tubes")
    ensures Parse(line) == Ok(ListTubeUsed) <==> line == Ascii("list-tube-used")
    ensures Parse(line) == Ok(ListTubesWatched) <==> line == Ascii("list-tubes-watched")
  {
    hide Parse, Ascii;
    BareLine(line, ListTubes, "list-tubes");
    BareLine(line, ListTubeUsed, "list-tube-used");
    BareLine(line, ListTubesWatched, "list-tubes-watched");
  }

  /** Looking at the next job of a kind. */
  lemma PeekLines(line: seq<byte>)
    ensures Parse(line) == Ok(PeekReady) <==> line == Ascii("peek-ready")
    ensures Parse(line) == Ok(PeekDelayed) <==> line == Ascii("peek-delayed")
    ensures Parse(line) == Ok(PeekBuried) <==> line == Ascii("peek-buried")
  {
    hide Parse, Ascii;
    BareLine(line, PeekReady, "peek-ready");
    BareLine(line, PeekDelayed, "peek-delayed");
    BareLine(line, PeekBuried, "peek-buried");
  }

  /** The other commands without arguments. */
  lemma PlainLines(line: seq<byte>)
    ensures Parse(line) == Ok(Reserve) <==> line == Ascii("reserve")
    ensures Parse(line) == Ok(StatsServer) <==> line == Ascii("stats")
    ensures Parse(line) == Ok(Quit) <==> line == Ascii("quit")
  {
    hide Parse, Ascii;
    BareLine(line, Reserve, "reserve");
    BareLine(line, StatsServer, "stats");
    BareLine(line, Quit, "quit");
  }

  /** Commands on one job by its id; leading zeros are allowed in every number. */
  lemma IdLines(line: seq<byte>, id: u64)
    ensures Parse(line) == Ok(Delete(id)) <==> exists token :: Numeral(token, id) && line == Ascii("delete ") + token
    ensures Parse(line) == Ok(Touch(id)) <==> exists token :: Numeral(token, id) && line == Ascii("touch ") + token
    ensures Parse(line) == Ok(Peek(id)) <==> exists token :: Numeral(token, id) && line == Ascii("peek ") + token
  {
    hide Parse, Ascii, Numeral;
    LineWithNumber(line, Delete(id), "delete ", id);
    LineWithNumber(line, Touch(id), "touch ", id);
    LineWithNumber(line, Peek(id), "peek ", id);
  }

  /** The `-job` commands. */
  lemma JobLines(line: seq<byte>, id: u64)
    ensures Parse(line) == Ok(ReserveJob(id)) <==> exists token :: Numeral(token, id) && line == Ascii("reserve-job ") + token
    ensures Parse(line) == Ok(KickJob(id)) <==> exists token :: Numeral(token, id) && line == Ascii("kick-job ") + token
    ensures Parse(line) == Ok(StatsJob(id)) <==> exists token :: Numeral(token, id) && line == Ascii("stats-job ") + token
  {
    hide Parse, Ascii, Numeral;
    LineWithNumber(line, ReserveJob(id), "reserve-job ", id);
    LineWithNumber(line, KickJob(id), "kick-job ", id);
    LineWithNumber(line, StatsJob(id), "stats-job ", id);
  }

  /** `kick <bound>`, wide like an id. */
  lemma KickLines(line: seq<byte>, bound: u64)
    ensures Parse(line) == Ok(Kick(bound)) <==> exists token :: Numeral(token, bound) && line == Ascii("kick ") + token
  {
    hide Parse, Ascii, Numeral;
    LineWithNumber(line, Kick(bound), "kick ", bound);
  }

  /** `reserve-with-timeout <seconds>`. */
  lemma TimeoutLines(line: seq<byte>, timeout: u32)
    ensures Parse(line) == Ok(ReserveWithTimeout(timeout)) <==>
            exists token :: Numeral(token, timeout) && line == Ascii("reserve-with-timeout ") + token
  {
    hide Parse, Ascii, Numeral;
    LineWithNumber(line, ReserveWithTimeout(timeout), "reserve-with-timeout ", timeout);
  }

  /** `use <tube>` and `stats-tube <tube>`. */
  lemma UseLines(line: seq<byte>, tube: seq<byte>)
    ensures Parse(line) == Ok(Use(tube)) <==> TubeText(tube) && line == Ascii("use ") + tube
    ensures Parse(line) == Ok(StatsTube(tube)) <==> TubeText(tube) && line == Ascii("stats-tube ") + tube
  {
    hide Parse, Ascii, TubeText;
    LineWithName(line, Use(tube), "use ");
    LineWithName(line, StatsTube(tube), "stats-tube ");
  }

  /** `watch <tube>` and `ignore <tube>`. */
  lemma WatchLines(line: seq<byte>, tube: seq<byte>)
    ensures Parse(line) == Ok(Watch(tube)) <==> TubeText(tube) && line == Ascii("watch ") + tube
    ensures Parse(line) == Ok(Ignore(tube)) <==> TubeText(tube) && line == Ascii("ignore ") + tube
  {
    hide Parse, Ascii, TubeText;
    LineWithName(line, Watch(tube), "watch ");
    LineWithName(line, Ignore(tube), "ignore ");
  }

  /** `bury <id> <pri>`. */
  lemma BuryLines(line: seq<byte>, id: u64, pri: u32)
    ensures Parse(line) == Ok(Bury(id, pri)) <==>
            exists tokens :: Numerals(tokens, [id, pri]) && line == Ascii("bury ") + Spaced(tokens)
  {
    hide Parse, Ascii;
    LineWithNumbers(line, Bury(id, pri), "bury ", [id, pri]);
  }

  /** `release <id> <pri> <delay>`. */
  lemma ReleaseLines(line: seq<byte>, id: u64, pri: u32, delay: u32)
    ensures Parse(line) == Ok(Release(id, pri, delay)) <==>
            exists tokens :: Numerals(tokens, [id, pri, delay]) && line == Ascii("release ") + Spaced(tokens)
  {
    hide Parse, Ascii;
    LineWithNumbers(line, Release(id, pri, delay), "release ", [id, pri, delay]);
  }

  /** `put <pri> <delay> <ttr> <bytes>`. */
  lemma PutLines(line: seq<byte>, pri: u32, delay: u32, ttr: u32, nBytes: u32)
    ensures Parse(line) == Ok(Put(pri, delay, ttr, nBytes)) <==>
            exists tokens :: Numerals(tokens, [pri, delay, ttr, nBytes]) && line == Ascii("put ") + Spaced(tokens)
  {
    hide Parse, Ascii;
    LineWithNumbers(line, Put(pri, delay, ttr, nBytes), "put ", [pri, delay, ttr, nBytes]);
  }

  /** `pause-tube <tube> <delay>`. */
  lemma PauseLines(line: seq<byte>, tube: seq<byte>, delay: u32)
    ensures Parse(line) == Ok(PauseTube(tube, delay)) <==>
            (TubeText(tube) && exists token :: Numeral(token, delay)
                                 && line == Ascii("pause-tube ") + tube + Ascii(" ") + token)
  {
    hide Parse, Ascii, Numeral, TubeText, Spaced;
    var cmd := PauseTube(tube, delay);
    LineWithArguments(line, cmd, "pause-tube ");
    if Parse(line) == Ok(cmd) {
      var tokens :| Denote(tokens, ArgsOf(cmd)) && line == Ascii("pause-tube ") + Spaced(tokens);
      assert Denotes(tokens[0], Name(tube)) && Denotes(tokens[1], Int32(delay));
      PausedTail(tokens[0], tokens[1]);
      assert tokens == [tokens[0], tokens[1]];
    }
    forall token | TubeText(tube) && Numeral(token, delay)
                     && line == Ascii("pause-tube ") + tube + Ascii(" ") + token
      ensures Parse(line) == Ok(cmd)
    {
      PausedTail(tube, token);
      assert Denote([tube, token], ArgsOf(cmd));
    }
  }

  lemma PausedTail(a: seq<byte>, b: seq<byte>)
    ensures Ascii("pause-tube ") + Spaced([a, b]) == Ascii("pause-tube ") + a + Ascii(" ") + b
  {
    hide Ascii;
    assert [a, b][1..] == [b];
  }

  // ---------- words that are no command ----------

  /** The words of the protocol's commands. */
  const WORDS: seq<string> := [
    "put", "use", "watch", "ignore", "delete", "release", "bury", "touch", "quit",
    "reserve", "reserve-with-timeout", "reserve-job",
    "peek", "peek-ready", "peek-delayed", "peek-buried", "kick", "kick-job",
    "stats", "stats-job", "stats-tube", "list-tubes", "list-tube-used", "list-tubes-watched", "pause-tube"]

  /** Their keywords, in the same order. */
  const KEYWORDS: seq<Keyword> := [
    KPut, KUse, KWatch, KIgnore, KDelete, KRelease, KBury, KTouch, KQuit,
    KReserve, KReserveWithTimeout, KReserveJob,
    KPeek, KPeekReady, KPeekDelayed, KPeekBuried, KKick, KKickJob,
    KStats, KStatsJob, KStatsTube, KListTubes, KListTubeUsed, KListTubesWatched, KPauseTube]

  lemma EveryKeyword(k: Keyword)
    ensures k in KEYWORDS
  {
  }

  lemma FirstWords(i: nat)
    requires i < 12
    ensures Word(KEYWORDS[i]) == WORDS[i]
  {
  }

  lemma OtherWords(i: nat)
    requires 12 <= i < 25
    ensures Word(KEYWORDS[i]) == WORDS[i]
  {
  }

  lemma KeywordsAreWords()
    ensures |KEYWORDS| == |WORDS| == 25
    ensures forall i :: 0 <= i < 25 ==> Word(KEYWORDS[i]) == WORDS[i]
  {
    hide Word;
    forall i | 0 <= i < 25 ensures Word(KEYWORDS[i]) == WORDS[i] {
      if i < 12 {
        FirstWords(i);
      } else {
        OtherWords(i);
      }
    }
  }

  lemma SpellingsAreWords(word: seq<byte>)
    ensures (exists k :: word == Spelling(k)) <==> exists text :: text in WORDS && word == Ascii(text)
  {
    hide Ascii, Word, KEYWORDS, WORDS;
    KeywordsAreWords();
    forall k | word == Spelling(k) ensures exists text :: text in WORDS && word == Ascii(text) {
      EveryKeyword(k);
    }
    forall text | text in WORDS && word == Ascii(text) ensures exists k :: word == Spelling(k) {
      var i :| 0 <= i < 25 && text == WORDS[i];
      assert word == Spelling(KEYWORDS[i]);
    }
  }

  /** A line is an unknown command exactly when its leading word is there and is
      none of the commands' words. */
  lemma UnknownWords(word: seq<byte>, rest: seq<byte>)
    requires SpaceFree(word) && (rest == [] || rest[0] == SP)
    ensures Parse(word + rest) == Err(UnknownCommand) <==>
            word != [] && forall text :: text in WORDS ==> word != Ascii(text)
  {
    hide Parse, Spelling, Ascii, WORDS, SpaceFree;
    ErrorClassification(word, rest);
    SpellingsAreWords(word);
  }

  // ---------- the largest numbers ----------

  /** A number is read back from its decimal spelling exactly up to the largest
      of its width. */
  lemma NumberLimits(n: nat)
    ensures NextArg(Number32, Ascii(" ") + Spell(n)) == if n <= 4294967295 then Ok(Int32(n)) else Err(BadFormat)
    ensures NextArg(Number64, Ascii(" ") + Spell(n))
         == if n <= 18446744073709551615 then Ok(Int64(n)) else Err(BadFormat)
  {
    hide Ascii, Spell, Value;
    Separators();
    var s := [SP] + Spell(n);
    assert s[1..] == Spell(n) == Spell(n) + [];
    ValueOfSpell(n);
    assert SpaceFree(Spell(n));
    SplitAtSpace(Spell(n), []);
  }

  lemma FiveLetters(text: string)
    requires |text| == 5 && forall i :: 0 <= i < 5 ==> '0' <= text[i] <= '9'
    ensures AllDigits(Ascii(text))
    ensures Value(Ascii(text)) == 10000 * (text[0] as int - 48) + 1000 * (text[1] as int - 48)
                                  + 100 * (text[2] as int - 48) + 10 * (text[3] as int - 48) + (text[4] as int - 48)
  {
    var s := Ascii(text);
    assert s[..0] == [];
    assert s[..1][..0] == s[..0] && Value(s[..1]) == Digit(s[0]);
    assert s[..2][..1] == s[..1] && Value(s[..2]) == 10 * Value(s[..1]) + Digit(s[1]);
    assert s[..3][..2] == s[..2] && Value(s[..3]) == 10 * Value(s[..2]) + Digit(s[2]);
    assert s[..4][..3] == s[..3] && Value(s[..4]) == 10 * Value(s[..3]) + Digit(s[3]);
  }

  lemma TenLetters(s: string, t: string)
    requires |s| == |t| == 5
    requires forall i :: 0 <= i < 5 ==> '0' <= s[i] <= '9' && '0' <= t[i] <= '9'
    ensures AllDigits(Ascii(s + t))
    ensures Value(Ascii(s + t)) == 100000 * Value(Ascii(s)) + Value(Ascii(t))
  {
    hide Value, Ascii;
    FiveLetters(s);
    FiveLetters(t);
    AsciiAppend(s, t);
    ValueAppend(Ascii(s), Ascii(t));
    assert Pow10(5) == 100000;
  }

  /** The largest 32-bit number and the next one, as texts. */
  lemma Largest32()
    ensures ReadNumber(Ascii("4294967295"), U32_LIMIT) == Some(4294967295)
    ensures ReadNumber(Ascii("4294967296"), U32_LIMIT) == None
  {
    hide Value, Ascii;
    TenLetters("42949", "67295");
    TenLetters("42949", "67296");
    FiveLetters("42949");
    FiveLetters("67295");
    FiveLetters("67296");
    assert "42949" + "67295" == "4294967295";
    assert "42949" + "67296" == "4294967296";
  }

  lemma TenMoreLetters(s: string, t: string, u: string)
    requires |t| == |u| == 5 && AllDigits(Ascii(s))
    requires forall i :: 0 <= i < 5 ==> '0' <= t[i] <= '9' && '0' <= u[i] <= '9'
    ensures AllDigits(Ascii(s + (t + u)))
    ensures Value(Ascii(s + (t + u))) == 10000000000 * Value(Ascii(s)) + Value(Ascii(t + u))
  {
    hide Value, Ascii;
    TenLetters(t, u);
    AsciiAppend(s, t + u);
    ValueAppend(Ascii(s), Ascii(t + u));
    assert Pow10(5) == 100000;
    assert Pow10(10) == 10000000000;
  }

  lemma Front64()
    ensures AllDigits(Ascii("1844674407")) && Value(Ascii("1844674407")) == 1844674407
  {
    hide Value, Ascii;
    TenLetters("18446", "74407");
    FiveLetters("18446");
    FiveLetters("74407");
    assert "18446" + "74407" == "1844674407";
  }

  /** The largest 64-bit number and the next one, as texts. */
  lemma Largest64()
    ensures ReadNumber(Ascii("18446744073709551615"), U64_LIMIT) == Some(18446744073709551615)
    ensures ReadNumber(Ascii("18446744073709551616"), U64_LIMIT) == None
  {
    hide Value, Ascii;
    Front64();
    TenMoreLetters("1844674407", "37095", "51615");
    TenMoreLetters("1844674407", "37095", "51616");
    TenLetters("37095", "51615");
    TenLetters("37095", "51616");
    FiveLetters("37095");
    FiveLetters("51615");
    FiveLetters("51616");
    assert "1844674407" + ("37095" + "51615") == "18446744073709551615";
    assert "1844674407" + ("37095" + "51616") == "18446744073709551616";
  }
}
