/** The language of command lines, stated apart from the parser, and the
    canonical printer; the parser accepts exactly this language. */
module Grammar {
  import opened Base
  import opened Bytes
  import opened Decimal
  import opened Protocol
  import opened CommandTable
  import opened Parser

  /** A token that may stand for an argument of the given kind. */
  ghost predicate Fits(kind: Kind, token: seq<byte>) {
    && token != []
    && match kind
       case Number32 => AllDigits(token) && Value(token) < U32_LIMIT
       case Number64 => AllDigits(token) && Value(token) < U64_LIMIT
       case TubeName => IsName(token)
  }

  ghost predicate FitsAll(kinds: seq<Kind>, tokens: seq<seq<byte>>) {
    |tokens| == |kinds| && forall i :: 0 <= i < |tokens| ==> Fits(kinds[i], tokens[i])
  }

  /** The argument a fitting token denotes. */
  ghost function Meaning(kind: Kind, token: seq<byte>): (arg: Arg)
    requires Fits(kind, token)
    ensures arg.Kind() == kind
  {
    match kind
    case Number32 => Int32(Value(token))
    case Number64 => Int64(Value(token))
    case TubeName => Name(token)
  }

  ghost function Meanings(kinds: seq<Kind>, tokens: seq<seq<byte>>): (args: seq<Arg>)
    requires FitsAll(kinds, tokens)
    ensures Matches(kinds, args)
  {
    seq(|kinds|, i requires 0 <= i < |kinds| => Meaning(kinds[i], tokens[i]))
  }

  /** Each token after one space. */
  function ArgText(tokens: seq<seq<byte>>): (s: seq<byte>)
    ensures s == [] || s[0] == SP
  {
    if tokens == [] then [] else [SP] + tokens[0] + ArgText(tokens[1..])
  }

  /** A keyword followed by its argument tokens. */
  function Sentence(k: Keyword, tokens: seq<seq<byte>>): seq<byte> {
    Spelling(k) + ArgText(tokens)
  }

  /** `k` and `tokens` derive `line`, and the derivation denotes `cmd`. */
  ghost predicate Derives(line: seq<byte>, k: Keyword, tokens: seq<seq<byte>>, cmd: Command) {
    && FitsAll(Kinds(k), tokens)
    && line == Sentence(k, tokens)
    && cmd == Build(k, Meanings(Kinds(k), tokens))
  }

  ghost predicate SpaceFree(s: seq<byte>) {
    forall i :: 0 <= i < |s| ==> s[i] != SP
  }

  lemma SplitAtSpace(token: seq<byte>, rest: seq<byte>)
    requires SpaceFree(token)
    requires rest == [] || rest[0] == SP
    ensures FirstToken(token + rest) == token
    ensures AfterToken(token + rest) == rest
  {
    FindSpaceIs(token + rest, |token|);
  }

  ghost predicate IsPlain(w: string) {
    forall i :: 0 <= i < |w| ==> ' ' < w[i] < 128 as char
  }

  lemma LongWordShape(k: Keyword)
    requires |Word(k)| > 10
    ensures |Word(k)| <= 20 && IsPlain(Word(k))
  {
  }

  lemma ShortWordShape(k: Keyword)
    requires |Word(k)| <= 10
    ensures 3 <= |Word(k)| && IsPlain(Word(k))
  {
  }

  lemma WordShape(k: Keyword)
    ensures 3 <= |Word(k)| <= 20 && IsPlain(Word(k))
  {
    hide Word, IsPlain;
    if |Word(k)| > 10 {
      LongWordShape(k);
    } else {
      ShortWordShape(k);
    }
  }

  lemma SpellingShape(k: Keyword)
    ensures 3 <= |Spelling(k)| <= 20
    ensures forall i :: 0 <= i < |Spelling(k)| ==> SP < Spelling(k)[i]
  {
    hide Word;
    WordShape(k);
  }

  lemma FitsShape(kind: Kind, token: seq<byte>)
    requires Fits(kind, token)
    ensures forall i :: 0 <= i < |token| ==> SP < token[i]
  {
  }

  lemma MeaningsCons(kinds: seq<Kind>, tokens: seq<seq<byte>>)
    requires kinds != [] && FitsAll(kinds, tokens)
    ensures Meanings(kinds, tokens)
         == [Meaning(kinds[0], tokens[0])] + Meanings(kinds[1..], tokens[1..])
  {
  }

  /** The first token of an argument text, as the parser's cursor sees it. */
  lemma ArgTextCons(kind: Kind, tokens: seq<seq<byte>>)
    requires tokens != [] && Fits(kind, tokens[0])
    ensures var s := ArgText(tokens);
            && s != [] && s[0] == SP
            && FirstToken(s[1..]) == tokens[0]
            && AfterArg(s) == ArgText(tokens[1..])
            && NextArg(kind, s) == Ok(Meaning(kind, tokens[0]))
  {
    var s := ArgText(tokens);
    assert s[1..] == tokens[0] + ArgText(tokens[1..]);
    FitsShape(kind, tokens[0]);
    SplitAtSpace(tokens[0], ArgText(tokens[1..]));
  }

  lemma {:induction false} ArgTextReads(kinds: seq<Kind>, tokens: seq<seq<byte>>)
    requires FitsAll(kinds, tokens)
    ensures ReadArgs(kinds, ArgText(tokens)) == Ok((Meanings(kinds, tokens), []))
    decreases |kinds|
  {
    if kinds != [] {
      hide NextArg, AfterArg, ArgText, Fits, Meaning, Meanings;
      ArgTextCons(kinds[0], tokens);
      ArgTextReads(kinds[1..], tokens[1..]);
      MeaningsCons(kinds, tokens);
    }
  }

  lemma {:induction false} ReadsArgText(kinds: seq<Kind>, s: seq<byte>) returns (tokens: seq<seq<byte>>)
    requires ReadArgs(kinds, s).Ok? && ReadArgs(kinds, s).value.1 == []
    ensures FitsAll(kinds, tokens)
    ensures s == ArgText(tokens)
    ensures ReadArgs(kinds, s).value.0 == Meanings(kinds, tokens)
    decreases |kinds|
  {
    if kinds == [] {
      tokens := [];
    } else {
      hide Meanings, Meaning;
      var token := FirstToken(s[1..]);
      NextArgFits(kinds[0], s);
      var more := ReadsArgText(kinds[1..], AfterArg(s));
      tokens := [token] + more;
      assert tokens[1..] == more;
      MeaningsCons(kinds, tokens);
    }
  }

  lemma NextArgFits(kind: Kind, s: seq<byte>)
    requires NextArg(kind, s).Ok?
    ensures var token := FirstToken(s[1..]);
            && Fits(kind, token) && NextArg(kind, s).value == Meaning(kind, token)
            && s == [SP] + token + AfterArg(s)
  {
  }

  /** Completeness: every derivable line parses to what it denotes. */
  lemma DerivableParses(line: seq<byte>, k: Keyword, tokens: seq<seq<byte>>, cmd: Command)
    requires Derives(line, k, tokens, cmd)
    ensures Parse(line) == Ok(cmd)
  {
    hide Spelling, ReadArgs, Meanings, FitsAll, Lookup, ArgText, FirstToken, AfterToken, Build;
    SpellingShape(k);
    SplitAtSpace(Spelling(k), ArgText(tokens));
    assert FirstToken(line) == Spelling(k);
    SpellingInjective(Lookup(Spelling(k)).value, k);
    ArgTextReads(Kinds(k), tokens);
  }

  /** Soundness: every accepted line has a derivation. */
  lemma ParsesDerivable(line: seq<byte>) returns (k: Keyword, tokens: seq<seq<byte>>)
    requires Parse(line).Ok?
    ensures Derives(line, k, tokens, Parse(line).value)
  {
    hide Spelling, ReadArgs, Meanings, FitsAll, Lookup;
    k := Lookup(FirstToken(line)).value;
    tokens := ReadsArgText(Kinds(k), AfterToken(line));
    assert line == FirstToken(line) + AfterToken(line);
  }

  /** The parser accepts exactly the derivable lines, with their meaning. */
  lemma ParserLanguage(line: seq<byte>, cmd: Command)
    ensures Parse(line) == Ok(cmd) <==> exists k, tokens :: Derives(line, k, tokens, cmd)
  {
    if Parse(line) == Ok(cmd) {
      var k, tokens := ParsesDerivable(line);
    }
    forall k, tokens | Derives(line, k, tokens, cmd) ensures Parse(line) == Ok(cmd) {
      DerivableParses(line, k, tokens, cmd);
    }
  }

  lemma {:induction false} ArgTextUnique(kinds: seq<Kind>, t1: seq<seq<byte>>, t2: seq<seq<byte>>)
    requires FitsAll(kinds, t1) && FitsAll(kinds, t2)
    requires ArgText(t1) == ArgText(t2)
    ensures t1 == t2
    decreases |kinds|
  {
    if kinds != [] {
      hide NextArg, AfterArg, ArgText, Fits, FirstToken;
      ArgTextCons(kinds[0], t1);
      ArgTextCons(kinds[0], t2);
      ArgTextUnique(kinds[1..], t1[1..], t2[1..]);
      assert t1 == [t1[0]] + t1[1..];
      assert t2 == [t2[0]] + t2[1..];
    }
  }

  /** A line has at most one derivation. */
  lemma DerivationUnique(line: seq<byte>, k1: Keyword, t1: seq<seq<byte>>, c1: Command,
                         k2: Keyword, t2: seq<seq<byte>>, c2: Command)
    requires Derives(line, k1, t1, c1) && Derives(line, k2, t2, c2)
    ensures k1 == k2 && t1 == t2 && c1 == c2
  {
    SpellingShape(k1);
    SpellingShape(k2);
    SplitAtSpace(Spelling(k1), ArgText(t1));
    SplitAtSpace(Spelling(k2), ArgText(t2));
    SpellingInjective(k1, k2);
    ArgTextUnique(Kinds(k1), t1, t2);
  }

  /** Which error a line gets depends only on its leading space-free word. */
  lemma ErrorClassification(word: seq<byte>, rest: seq<byte>)
    requires SpaceFree(word) && (rest == [] || rest[0] == SP)
    ensures Parse(word + rest) == Err(UnknownCommand) <==> word != [] && forall k :: word != Spelling(k)
    ensures Parse(word + rest).Err? ==> Parse(word + rest).error in {UnknownCommand, BadFormat}
  {
    SplitAtSpace(word, rest);
  }

  // ---------- the canonical printer ----------

  /** Commands whose tube name is one the protocol allows. */
  predicate Valid(c: Command) {
    forall i :: 0 <= i < |ArgsOf(c)| ==> ValidArg(ArgsOf(c)[i])
  }

  predicate ValidArg(a: Arg) {
    a.Name? ==> a.name != [] && IsName(a.name)
  }

  function PrintArg(a: Arg): seq<byte> {
    match a
    case Int32(n) => Spell(n)
    case Int64(n) => Spell(n)
    case Name(name) => name
  }

  function PrintArgs(args: seq<Arg>): (tokens: seq<seq<byte>>)
    ensures |tokens| == |args|
    ensures forall i :: 0 <= i < |args| ==> tokens[i] == PrintArg(args[i])
  {
    seq(|args|, i requires 0 <= i < |args| => PrintArg(args[i]))
  }

  /** The line, without its CRLF, that the protocol document gives a command. */
  function Print(c: Command): seq<byte> {
    Sentence(KeywordOf(c), PrintArgs(ArgsOf(c)))
  }

  lemma PrintArgFits(a: Arg)
    requires ValidArg(a)
    ensures Fits(a.Kind(), PrintArg(a)) && Meaning(a.Kind(), PrintArg(a)) == a
  {
    match a
    case Int32(n) => ValueOfSpell(n);
    case Int64(n) => ValueOfSpell(n);
    case Name(_) =>
  }

  lemma PrintDerives(c: Command)
    requires Valid(c)
    ensures Derives(Print(c), KeywordOf(c), PrintArgs(ArgsOf(c)), c)
  {
    var args, kinds := ArgsOf(c), Kinds(KeywordOf(c));
    forall i | 0 <= i < |args|
      ensures Fits(kinds[i], PrintArg(args[i])) && Meaning(kinds[i], PrintArg(args[i])) == args[i]
    {
      PrintArgFits(args[i]);
    }
    assert Meanings(kinds, PrintArgs(args)) == args;
    BuildOfParts(c);
  }

  /** Parsing undoes printing. */
  lemma ParseOfPrint(c: Command)
    requires Valid(c)
    ensures Parse(Print(c)) == Ok(c)
  {
    PrintDerives(c);
    DerivableParses(Print(c), KeywordOf(c), PrintArgs(ArgsOf(c)), c);
  }

  /** A token as the printer would write it: numbers lose their leading zeros. */
  function Canonical(kind: Kind, token: seq<byte>): seq<byte> {
    if kind.TubeName? then token else Strip(token)
  }

  function Canonicals(kinds: seq<Kind>, tokens: seq<seq<byte>>): seq<seq<byte>>
    requires |tokens| == |kinds|
  {
    seq(|kinds|, i requires 0 <= i < |kinds| => Canonical(kinds[i], tokens[i]))
  }

  lemma PrintArgsOfMeaning(k: Keyword, tokens: seq<seq<byte>>, cmd: Command)
    requires FitsAll(Kinds(k), tokens) && cmd == Build(k, Meanings(Kinds(k), tokens))
    ensures Valid(cmd) && KeywordOf(cmd) == k
    ensures PrintArgs(ArgsOf(cmd)) == Canonicals(Kinds(k), tokens)
  {
    var kinds := Kinds(k);
    var args := Meanings(kinds, tokens);
    PartsOfBuild(k, args);
    forall i | 0 <= i < |args|
      ensures ValidArg(args[i]) && PrintArg(args[i]) == Canonical(kinds[i], tokens[i])
    {
      if !kinds[i].TubeName? {
        SpellOfValue(tokens[i]);
      }
    }
  }

  /** Printing an accepted line's command gives the line back, with only the
      leading zeros of its numbers gone; and the command is always valid. */
  lemma PrintOfParse(line: seq<byte>) returns (k: Keyword, tokens: seq<seq<byte>>)
    requires Parse(line).Ok?
    ensures Derives(line, k, tokens, Parse(line).value)
    ensures Valid(Parse(line).value)
    ensures Print(Parse(line).value) == Sentence(k, Canonicals(Kinds(k), tokens))
  {
    k, tokens := ParsesDerivable(line);
    PrintArgsOfMeaning(k, tokens, Parse(line).value);
  }

  /** Two lines mean the same command exactly when they are derived by the same
      keyword from tokens that agree up to leading zeros. */
  lemma ParseInjective(l1: seq<byte>, k1: Keyword, t1: seq<seq<byte>>, c1: Command,
                       l2: seq<byte>, k2: Keyword, t2: seq<seq<byte>>, c2: Command)
    requires Derives(l1, k1, t1, c1) && Derives(l2, k2, t2, c2)
    ensures c1 == c2 <==> k1 == k2 && Canonicals(Kinds(k1), t1) == Canonicals(Kinds(k2), t2)
  {
    hide Build, Meanings, FitsAll, Canonicals, ArgsOf, KeywordOf, Sentence, Valid;
    PrintArgsOfMeaning(k1, t1, c1);
    PrintArgsOfMeaning(k2, t2, c2);
    if Print(c1) == Print(c2) {
      ParseOfPrint(c1);
      ParseOfPrint(c2);
    }
  }

  // ---------- the length of a command line ----------

  lemma NumberLength(n: nat)
    ensures n < U32_LIMIT ==> |Spell(n)| <= 10
    ensures n < U64_LIMIT ==> |Spell(n)| <= 20
    ensures |Spell(n)| <= 9 <==> n < 1_000_000_000
  {
    assert Pow10(9) == 1_000_000_000 by { Pow10Of9(); }
    assert Pow10(10) == 10 * Pow10(9);
    Pow10Of20();
    SpellLength(n, 9);
    SpellLength(n, 10);
    SpellLength(n, 20);
  }

  lemma Pow10Of9()
    ensures Pow10(9) == 1_000_000_000
  {
    assert Pow10(3) == 1000;
    assert Pow10(6) == 1_000_000;
  }

  lemma Pow10Of20()
    ensures Pow10(20) == 100_000_000_000_000_000_000
  {
    Pow10Of9();
    assert Pow10(12) == 1_000_000_000_000;
    assert Pow10(15) == 1_000_000_000_000_000;
    assert Pow10(18) == 1_000_000_000_000_000_000;
  }

  lemma {:induction false} ArgTextLength(tokens: seq<seq<byte>>, limit: nat)
    requires forall i :: 0 <= i < |tokens| ==> |tokens[i]| < limit
    ensures |ArgText(tokens)| <= |tokens| * limit
  {
    if tokens != [] {
      ArgTextLength(tokens[1..], limit);
      assert |tokens| * limit == limit + |tokens[1..]| * limit;
      assert |ArgText(tokens)| == 1 + |tokens[0]| + |ArgText(tokens[1..])|;
    }
  }

  lemma PauseLine(c: Command)
    requires c.PauseTube?
    ensures |Print(c)| == 12 + |c.tube| + |Spell(c.delay)|
  {
    var tokens := PrintArgs(ArgsOf(c));
    assert tokens[1..][1..] == [];
    assert ArgText(tokens) == [SP] + c.tube + ArgText(tokens[1..]);
    assert ArgText(tokens[1..]) == [SP] + Spell(c.delay) + [];
  }

  lemma NamedLine(c: Command)
    requires Valid(c) && Kinds(KeywordOf(c)) == [TubeName]
    ensures |Print(c)| <= 211
  {
    var args := ArgsOf(c);
    assert ValidArg(args[0]) && args[0].Kind() == TubeName;
    assert |Spelling(KeywordOf(c))| <= 10;
    hide Spelling, ArgsOf, KeywordOf, Kinds, ArgText;
    ArgTextLength(PrintArgs(args), 201);
  }

  lemma NumericLine(c: Command)
    requires TubeName !in Kinds(KeywordOf(c))
    ensures |Print(c)| <= 104
  {
    var args := ArgsOf(c);
    SpellingShape(KeywordOf(c));
    assert |Kinds(KeywordOf(c))| <= 4;
    hide Spelling, ArgsOf, KeywordOf, Kinds, ArgText, Spell;
    forall i | 0 <= i < |args| ensures |PrintArg(args[i])| < 21 {
      assert args[i].Kind() in Kinds(KeywordOf(c));
      NumberLength(if args[i].Int32? then args[i].n32 else args[i].n64);
    }
    ArgTextLength(PrintArgs(args), 21);
  }

  /** Every valid command's line, with its CRLF, fits in 224 bytes; only
      `pause-tube` with a 200-byte name and a ten-digit delay fills them. */
  lemma LineBound(c: Command)
    requires Valid(c)
    ensures |Print(c)| + 2 <= MAX_LINE
    ensures |Print(c)| + 2 == MAX_LINE <==>
            c.PauseTube? && |c.tube| == MAX_NAME && c.delay >= 1_000_000_000
  {
    hide Print, Spell;
    if c.PauseTube? {
      assert ValidArg(ArgsOf(c)[0]);
      PauseLine(c);
      NumberLength(c.delay);
    } else if TubeName in Kinds(KeywordOf(c)) {
      NamedLine(c);
    } else {
      NumericLine(c);
    }
  }

  lemma {:induction false} ArgTextVisible(tokens: seq<seq<byte>>)
    requires forall i, j :: 0 <= i < |tokens| && 0 <= j < |tokens[i]| ==> SP <= tokens[i][j]
    ensures forall i :: 0 <= i < |ArgText(tokens)| ==> SP <= ArgText(tokens)[i]
  {
    if tokens != [] {
      ArgTextVisible(tokens[1..]);
    }
  }

  /** An accepted line holds no control byte, so no CR or LF. */
  lemma AcceptedVisible(line: seq<byte>)
    requires Parse(line).Ok?
    ensures forall i :: 0 <= i < |line| ==> SP <= line[i]
  {
    hide Parse, Spelling, Fits, Meanings, Build, Kinds;
    var k, tokens := ParsesDerivable(line);
    SpellingShape(k);
    forall i, j | 0 <= i < |tokens| && 0 <= j < |tokens[i]| ensures SP <= tokens[i][j] {
      FitsShape(Kinds(k)[i], tokens[i]);
    }
    ArgTextVisible(tokens);
  }
}
