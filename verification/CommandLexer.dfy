/**
  The command-line lexer of the ACE adapter: a five-state machine that splits a string into
  arguments at white space and honours single and double quotes.

  The loop is proved to compute the fold `Scan`. What that fold means is stated against an
  independent grammar: a command line is a sequence of tokens (a space, a bare character, or
  one quoted run), and its words are the maximal runs of non-space tokens.
  */
module CommandLexer {

  datatype ParsingState = Init | InWhitespace | InArgument | InSingleQuote | InDoubleQuote

  /** What the loop carries: the state, the argument being built, the finished arguments. */
  datatype Scanner = Scanner(state: ParsingState, lastArg: string, args: seq<string>)

  const SINGLE_QUOTE: char := '\''
  const DOUBLE_QUOTE: char := '"'

  /** `isspace` in the C locale. */
  predicate IsSpace(c: char) {
    c == ' ' || c == '\t' || c == '\n' || c == '\r' || c == '\U{0B}' || c == '\U{0C}'
  }

  predicate IsQuote(c: char) {
    c == SINGLE_QUOTE || c == DOUBLE_QUOTE
  }

  predicate InQuote(s: ParsingState) {
    s.InSingleQuote? || s.InDoubleQuote?
  }

  /** One turn of the loop. */
  function Step(s: Scanner, c: char): Scanner {
    match s.state
    case InSingleQuote =>
      if c == SINGLE_QUOTE then s.(state := InArgument) else s.(lastArg := s.lastArg + [c])
    case InDoubleQuote =>
      if c == DOUBLE_QUOTE then s.(state := InArgument) else s.(lastArg := s.lastArg + [c])
    case InArgument =>
      if IsSpace(c) then Scanner(InWhitespace, "", s.args + [s.lastArg])
      else if c == SINGLE_QUOTE then s.(state := InSingleQuote)
      else if c == DOUBLE_QUOTE then s.(state := InDoubleQuote)
      else s.(lastArg := s.lastArg + [c])
    case _ =>
      if IsSpace(c) then s.(state := InWhitespace)
      else if c == SINGLE_QUOTE then s.(state := InSingleQuote)
      else if c == DOUBLE_QUOTE then s.(state := InDoubleQuote)
      else Scanner(InArgument, s.lastArg + [c], s.args)
  }

  function Scan(s: Scanner, text: string): Scanner
    decreases |text|
  {
    if text == "" then s else Scan(Step(s, text[0]), text[1..])
  }

  function Start(args: seq<string>): Scanner {
    Scanner(Init, "", args)
  }

  class Lexer {
    const str: string

    constructor (text: string)
      ensures str == text
    {
      str := text;
    }

    /** Appends the arguments to those the caller passes in; on a missing closing quote the
        whole vector, the caller's part included, is cleared. */
    method GetAllArguments(before: seq<string>) returns (ok: bool, args: seq<string>)
      ensures var end := Scan(Start(before), str);
              && ok == !InQuote(end.state)
              && args == if InQuote(end.state) then []
                         else if end.state.InArgument? then end.args + [end.lastArg]
                         else end.args
    {
      var state := Init;
      var lastArg := "";
      args := before;
      var i := 0;
      assert str[0..] == str;
      while i < |str|
        invariant 0 <= i <= |str|
        invariant Scan(Start(before), str) == Scan(Scanner(state, lastArg, args), str[i..])
      {
        var c := str[i];
        assert str[i..][1..] == str[i + 1..];
        match state {
          case Init =>
            if IsSpace(c) {
              state := InWhitespace;
            } else if c == SINGLE_QUOTE {
              state := InSingleQuote;
            } else if c == DOUBLE_QUOTE {
              state := InDoubleQuote;
            } else {
              state := InArgument;
              lastArg := lastArg + [c];
            }
          case InWhitespace =>
            if c == SINGLE_QUOTE {
              state := InSingleQuote;
            } else if c == DOUBLE_QUOTE {
              state := InDoubleQuote;
            } else if !IsSpace(c) {
              state := InArgument;
              lastArg := lastArg + [c];
            }
          case InArgument =>
            if IsSpace(c) {
              args := args + [lastArg];
              lastArg := "";
              state := InWhitespace;
            } else if c == SINGLE_QUOTE {
              state := InSingleQuote;
            } else if c == DOUBLE_QUOTE {
              state := InDoubleQuote;
            } else {
              lastArg := lastArg + [c];
            }
          case InSingleQuote =>
            if c == SINGLE_QUOTE {
              state := InArgument;
            } else {
              lastArg := lastArg + [c];
            }
          case InDoubleQuote =>
            if c == DOUBLE_QUOTE {
              state := InArgument;
            } else {
              lastArg := lastArg + [c];
            }
        }
        i := i + 1;
      }
      if state == InArgument {
        args := args + [lastArg];
      } else if state == InSingleQuote || state == InDoubleQuote {
        return false, [];
      }
      ok := true;
    }
  }

  /** What GetAllArguments answers for a fresh vector: None for a missing closing quote. */
  datatype Lexed = Unterminated | Arguments(args: seq<string>)

  function Finish(end: Scanner): Lexed {
    if InQuote(end.state) then Unterminated
    else if end.state.InArgument? then Arguments(end.args + [end.lastArg])
    else Arguments(end.args)
  }

  function Lex(text: string): Lexed {
    Finish(Scan(Start([]), text))
  }

  // ---------------------------------------------------------------- the reference grammar

  datatype Token = Space(c: char) | Bare(c: char) | Single(run: string) | Double(run: string)

  predicate Proper(t: Token) {
    match t
    case Space(c) => c in {' ', '\t', '\n', '\r', '\U{0B}', '\U{0C}'}
    case Bare(c) => c !in {' ', '\t', '\n', '\r', '\U{0B}', '\U{0C}', '\'', '"'}
    case Single(run) => '\'' !in run
    case Double(run) => '"' !in run
  }

  predicate ProperLine(line: seq<Token>) {
    forall i :: 0 <= i < |line| ==> Proper(line[i])
  }

  function Render(t: Token): string {
    match t
    case Space(c) => [c]
    case Bare(c) => [c]
    case Single(run) => "'" + run + "'"
    case Double(run) => "\"" + run + "\""
  }

  function RenderLine(line: seq<Token>): string {
    if line == [] then "" else Render(line[0]) + RenderLine(line[1..])
  }

  /** The characters a token contributes to its word. */
  function Meaning(t: Token): string {
    match t
    case Space(_) => ""
    case Bare(c) => [c]
    case Single(run) => run
    case Double(run) => run
  }

  function WordMeaning(word: seq<Token>): string {
    if word == [] then "" else Meaning(word[0]) + WordMeaning(word[1..])
  }

  /** Length of the run of non-space tokens a line starts with. */
  function WordLength(line: seq<Token>): (n: nat)
    ensures n <= |line|
    ensures forall i :: 0 <= i < n ==> !line[i].Space?
    ensures n < |line| ==> line[n].Space?
  {
    if line == [] || line[0].Space? then 0 else 1 + WordLength(line[1..])
  }

  /** The words of a line: the maximal runs of non-space tokens, each with its meaning. */
  function Words(line: seq<Token>): seq<string>
    decreases |line|
  {
    if line == [] then []
    else if line[0].Space? then Words(line[1..])
    else [WordMeaning(line[..WordLength(line)])] + Words(line[WordLength(line)..])
  }

  // ------------------------------------------------------------------------- scanning lemmas

  lemma {:induction false} ScanAppend(s: Scanner, a: string, b: string)
    ensures Scan(s, a + b) == Scan(Scan(s, a), b)
    decreases |a|
  {
    if a == "" {
      assert a + b == b;
    } else {
      assert (a + b)[1..] == a[1..] + b;
      ScanAppend(Step(s, a[0]), a[1..], b);
    }
  }

  lemma {:induction false} ScanQuoted(s: Scanner, run: string)
    requires s.state.InSingleQuote? ==> SINGLE_QUOTE !in run
    requires s.state.InDoubleQuote? ==> DOUBLE_QUOTE !in run
    requires InQuote(s.state)
    ensures Scan(s, run) == s.(lastArg := s.lastArg + run)
    decreases |run|
  {
    if run == "" {
      assert s.lastArg + run == s.lastArg;
    } else {
      ScanQuoted(Step(s, run[0]), run[1..]);
      assert s.lastArg + [run[0]] + run[1..] == s.lastArg + run;
    }
  }

  /** Outside quotes, one proper token moves the scanner as its meaning says. */
  lemma ScanToken(s: Scanner, t: Token)
    requires Proper(t) && !InQuote(s.state) && (s.state.InArgument? || s.lastArg == "")
    ensures Scan(s, Render(t)) ==
            if t.Space? then
              Scanner(InWhitespace, "", if s.state.InArgument? then s.args + [s.lastArg] else s.args)
            else Scanner(InArgument, s.lastArg + Meaning(t), s.args)
  {
    match t
    case Space(c) =>
      assert Scan(s, [c]) == Step(s, c);
    case Bare(c) =>
      assert Scan(s, [c]) == Step(s, c);
    case Single(run) => ScanOneQuote(s, SINGLE_QUOTE, run);
    case Double(run) => ScanOneQuote(s, DOUBLE_QUOTE, run);
  }

  lemma ScanOneQuote(s: Scanner, q: char, run: string)
    requires IsQuote(q) && q !in run && !InQuote(s.state)
    ensures Scan(s, [q] + run + [q]) == Scanner(InArgument, s.lastArg + run, s.args)
  {
    var inQuote := Step(s, q);
    ScanAppend(s, [q] + run, [q]);
    ScanAppend(s, [q], run);
    assert Scan(s, [q]) == inQuote;
    ScanQuoted(inQuote, run);
    assert Scan(inQuote.(lastArg := s.lastArg + run), [q]) == Step(inQuote.(lastArg := s.lastArg + run), q);
  }

  /** The words of a line that continues an argument already begun as `lastArg`. */
  function Continued(lastArg: string, line: seq<Token>): seq<string> {
    var n := WordLength(line);
    [lastArg + WordMeaning(line[..n])] + Words(line[n..])
  }

  lemma ContinuedStep(lastArg: string, line: seq<Token>)
    requires line != [] && !line[0].Space?
    ensures Continued(lastArg, line) == Continued(lastArg + Meaning(line[0]), line[1..])
    ensures Words(line) == Continued("", line)
  {
    var n, rest := WordLength(line), line[1..];
    assert line[..n][1..] == rest[..n - 1] && line[n..] == rest[n - 1..];
    assert lastArg + (Meaning(line[0]) + WordMeaning(rest[..n - 1]))
        == lastArg + Meaning(line[0]) + WordMeaning(rest[..n - 1]);
    assert "" + WordMeaning(line[..n]) == WordMeaning(line[..n]);
  }

  lemma ContinuedStop(lastArg: string, line: seq<Token>)
    requires line == [] || line[0].Space?
    ensures Continued(lastArg, line) == [lastArg] + Words(line)
  {
    assert line[..0] == [] && line[0..] == line;
    assert lastArg + "" == lastArg;
  }

  function Expected(s: Scanner, line: seq<Token>): Lexed {
    Arguments(s.args + if s.state.InArgument? then Continued(s.lastArg, line) else Words(line))
  }

  lemma ExpectedStep(s: Scanner, line: seq<Token>)
    requires line != [] && Proper(line[0]) && !InQuote(s.state) && (s.state.InArgument? || s.lastArg == "")
    ensures Expected(s, line) == Expected(Scan(s, Render(line[0])), line[1..])
  {
    hide Proper, Render, Scan, WordLength, WordMeaning, Continued;
    ScanToken(s, line[0]);
    if line[0].Space? {
      ContinuedStop(s.lastArg, line);
      assert s.args + [s.lastArg] + Words(line[1..]) == s.args + ([s.lastArg] + Words(line[1..]));
    } else {
      ContinuedStep(s.lastArg, line);
    }
  }

  lemma {:induction false} ScanLine(s: Scanner, line: seq<Token>)
    requires ProperLine(line) && !InQuote(s.state) && (s.state.InArgument? || s.lastArg == "")
    ensures Finish(Scan(s, RenderLine(line))) == Expected(s, line)
    decreases |line|
  {
    if line == [] {
      ContinuedStop(s.lastArg, line);
      assert s.args + [] == s.args;
    } else {
      ScanToken(s, line[0]);
      ScanAppend(s, Render(line[0]), RenderLine(line[1..]));
      ScanLine(Scan(s, Render(line[0])), line[1..]);
      ExpectedStep(s, line);
    }
  }

  /** Soundness: every line of the grammar lexes to its words. */
  lemma LexOfRendered(line: seq<Token>)
    requires ProperLine(line)
    ensures Lex(RenderLine(line)) == Arguments(Words(line))
  {
    ScanLine(Start([]), line);
    assert [] + Words(line) == Words(line);
  }

  // ------------------------------------------------------------------------- completeness

  /** Where the quote inQuote at the front of `text` ends, or |text| when it never does. */
  function IndexOf(text: string, c: char): (n: nat)
    ensures n <= |text|
    ensures c !in text[..n]
    ensures n < |text| ==> text[n] == c
  {
    if text == "" || text[0] == c then 0
    else
      var n := IndexOf(text[1..], c) + 1;
      assert text[..n] == [text[0]] + text[1..][..n - 1];
      n
  }

  datatype Parsed = Open | Line(tokens: seq<Token>)

  /** Reads a text as a line of the grammar; Open when the last quote is never closed. */
  function Parse(text: string): Parsed
    decreases |text|
  {
    if text == "" then Line([])
    else if OpensForGood(text) then Open
    else
      var t := FirstToken(text);
      match Parse(text[|Render(t)|..])
      case Open => Open
      case Line(rest) => Line([t] + rest)
  }

  predicate OpensForGood(text: string)
    requires text != ""
  {
    IsQuote(text[0]) && text[0] !in text[1..]
  }

  function FirstToken(text: string): (t: Token)
    requires text != "" && !OpensForGood(text)
    ensures Proper(t) && Render(t) != "" && Render(t) <= text
  {
    if IsQuote(text[0]) then
      var n := IndexOf(text[1..], text[0]);
      assert text[1..][..|text[1..]|] == text[1..];
      var run := text[1..][..n];
      assert [text[0]] + run + [text[0]] <= text;
      if text[0] == SINGLE_QUOTE then Single(run) else Double(run)
    else if IsSpace(text[0]) then Space(text[0])
    else Bare(text[0])
  }

  lemma {:induction false} ParseIsLine(text: string)
    requires Parse(text).Line?
    ensures ProperLine(Parse(text).tokens) && RenderLine(Parse(text).tokens) == text
    decreases |text|
  {
    if text != "" {
      var t := FirstToken(text);
      var rest := text[|Render(t)|..];
      ParseIsLine(rest);
      assert ([t] + Parse(rest).tokens)[1..] == Parse(rest).tokens;
      assert Render(t) + rest == text;
    }
  }

  lemma {:induction false} OpenSplit(text: string) returns (line: seq<Token>, q: char, tail: string)
    requires Parse(text).Open?
    ensures ProperLine(line) && IsQuote(q) && q !in tail && text == RenderLine(line) + [q] + tail
    decreases |text|
  {
    hide RenderLine, Proper;
    NoTokens();
    if OpensForGood(text) {
      line, q, tail := [], text[0], text[1..];
    } else {
      var t := FirstToken(text);
      var rest;
      rest, q, tail := OpenSplit(text[|Render(t)|..]);
      line := [t] + rest;
      RenderCons(t, rest, q, tail);
      assert text == Render(t) + text[|Render(t)|..];
    }
  }

  lemma NoTokens()
    ensures RenderLine([]) == ""
  {
  }

  lemma RenderCons(t: Token, line: seq<Token>, q: char, tail: string)
    ensures RenderLine([t] + line) + [q] + tail == Render(t) + (RenderLine(line) + [q] + tail)
  {
    hide Render;
    assert ([t] + line)[1..] == line;
    var a, b := Render(t), RenderLine(line);
    assert (a + b) + [q] + tail == a + (b + [q] + tail);
  }

  lemma TailUnterminated(line: seq<Token>, q: char, tail: string)
    requires ProperLine(line) && IsQuote(q) && q !in tail
    ensures Lex(RenderLine(line) + [q] + tail).Unterminated?
  {
    var lead := RenderLine(line);
    ScanLine(Start([]), line);
    var s := Scan(Start([]), lead);
    assert lead + [q] + tail == lead + ([q] + tail);
    ScanAppend(Start([]), lead, [q] + tail);
    assert ([q] + tail)[1..] == tail;
    ScanQuoted(Step(s, q), tail);
  }

  /** Completeness: the lexer accepts a text exactly when it is a line of the grammar, and
      then answers that line's words; so two readings of one text have the same words. */
  lemma LexAccepts(text: string)
    ensures Lex(text).Arguments? <==> exists line :: ProperLine(line) && RenderLine(line) == text
    ensures forall line :: ProperLine(line) && RenderLine(line) == text ==> Lex(text) == Arguments(Words(line))
  {
    forall line | ProperLine(line) && RenderLine(line) == text
      ensures Lex(text) == Arguments(Words(line))
    {
      LexOfRendered(line);
    }
    if Parse(text).Line? {
      ParseIsLine(text);
    } else {
      var line, q, tail := OpenSplit(text);
      TailUnterminated(line, q, tail);
    }
  }

  /** The failure exactly: some quote opens outside quotes and does not occur again, that is,
      the text is a proper line, a quote character, and a tail without it. */
  lemma LexRejects(text: string)
    ensures Lex(text).Unterminated? <==>
            exists line, q, tail :: ProperLine(line) && IsQuote(q) && q !in tail
                                    && text == RenderLine(line) + [q] + tail
  {
    if Parse(text).Line? {
      ParseIsLine(text);
      LexOfRendered(Parse(text).tokens);
    } else {
      var line, q, tail := OpenSplit(text);
    }
    forall line, q, tail | ProperLine(line) && IsQuote(q) && q !in tail && text == RenderLine(line) + [q] + tail
      ensures Lex(text).Unterminated?
    {
      TailUnterminated(line, q, tail);
    }
  }

  // ------------------------------------------------------------------------- round trip

  /** Quotes one character with the quote it is not. */
  function QuoteChar(c: char): Token {
    if c == SINGLE_QUOTE then Double([c]) else Single([c])
  }

  /** An argument as tokens: an empty pair of quotes, then every character quoted. */
  function QuoteArg(arg: string): seq<Token> {
    [Single("")] + seq(|arg|, i requires 0 <= i < |arg| => QuoteChar(arg[i]))
  }

  function QuoteAll(args: seq<string>, sep: char): seq<Token> {
    if args == [] then [] else QuoteArg(args[0]) + [Space(sep)] + QuoteAll(args[1..], sep)
  }

  lemma {:induction false} QuotedMeaning(word: seq<Token>, arg: string)
    requires |word| == |arg| && forall i :: 0 <= i < |arg| ==> word[i] == QuoteChar(arg[i])
    ensures WordMeaning(word) == arg
    decreases |arg|
  {
    if arg != "" {
      QuotedMeaning(word[1..], arg[1..]);
      assert [arg[0]] + arg[1..] == arg;
    }
  }

  lemma {:induction false} WordLengthOf(word: seq<Token>, rest: seq<Token>)
    requires forall i :: 0 <= i < |word| ==> !word[i].Space?
    requires rest == [] || rest[0].Space?
    ensures WordLength(word + rest) == |word|
    decreases |word|
  {
    if word == [] {
      assert word + rest == rest;
    } else {
      assert (word + rest)[1..] == word[1..] + rest;
      WordLengthOf(word[1..], rest);
    }
  }

  lemma {:induction false} QuoteAllWords(args: seq<string>, sep: char)
    requires IsSpace(sep)
    ensures ProperLine(QuoteAll(args, sep)) && Words(QuoteAll(args, sep)) == args
    decreases |args|
  {
    if args != [] {
      hide Words, WordMeaning, QuoteChar, Proper;
      var word, more := QuoteArg(args[0]), QuoteAll(args[1..], sep);
      QuoteAllWords(args[1..], sep);
      QuotedIsWord(args[0], sep);
      WordsStep(word, sep, more);
      assert word + [Space(sep)] + more == QuoteAll(args, sep);
    }
  }

  lemma QuotedIsWord(arg: string, sep: char)
    requires IsSpace(sep)
    ensures ProperLine(QuoteArg(arg)) && Proper(Space(sep)) && WordMeaning(QuoteArg(arg)) == arg
    ensures forall i :: 0 <= i < |QuoteArg(arg)| ==> !QuoteArg(arg)[i].Space?
  {
    var word := QuoteArg(arg);
    QuotedMeaning(word[1..], arg);
    assert WordMeaning(word) == "" + arg;
  }

  /** The words of a line that starts with a word and a space. */
  lemma WordsStep(word: seq<Token>, sep: char, more: seq<Token>)
    requires word != [] && forall i :: 0 <= i < |word| ==> !word[i].Space?
    ensures Words(word + [Space(sep)] + more) == [WordMeaning(word)] + Words(more)
  {
    hide WordMeaning;
    var rest := [Space(sep)] + more;
    var line := word + [Space(sep)] + more;
    assert line == word + rest;
    WordLengthOf(word, rest);
    assert line[..|word|] == word && line[|word|..] == rest && rest[1..] == more;
  }

  /** Round trip: quoting any list of strings (empty ones, ones with quotes or spaces) and
      joining with any white space lexes back to that list. */
  lemma LexOfQuoted(args: seq<string>, sep: char)
    requires IsSpace(sep)
    ensures Lex(RenderLine(QuoteAll(args, sep))) == Arguments(args)
  {
    QuoteAllWords(args, sep);
    LexOfRendered(QuoteAll(args, sep));
  }
}
