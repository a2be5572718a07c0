/** src/common/tlm-utils.c: splitting a command line into arguments. */
module CommandLine {
  const VT := 11 as char
  const FF := 12 as char

  /** What g_strstrip takes off, and what \S does not match in PCRE before 8.34. */
  predicate Space(c: char) {
    c in {' ', '\t', '\n', '\r', FF}
  }

  /** What the dot does not match. */
  predicate LineBreak(c: char) {
    c in {'\n', '\r', VT, FF, 0x85 as char, 0x2028 as char, 0x2029 as char}
  }

  // ----- The regular expression ('.*?'|".*?"|\S+) -----

  /** Length of what leads up to and includes the next quote q, with no line break before it; 0 if there is none. */
  function UpToQuote(s: string, q: char): (n: nat)
    ensures n <= |s|
  {
    if s == [] || (s[0] != q && LineBreak(s[0])) then 0
    else if s[0] == q then 1
    else
      var rest := UpToQuote(s[1..], q);
      if rest == 0 then 0 else rest + 1
  }

  function SolidRun(s: string): (n: nat)
    ensures n <= |s|
  {
    if s == [] || Space(s[0]) then 0 else 1 + SolidRun(s[1..])
  }

  /** Length of the match at the beginning of s, 0 if there is none. */
  function MatchLength(s: string): (n: nat)
    ensures n <= |s|
    ensures s != [] && !Space(s[0]) ==> n > 0
  {
    if s != [] && s[0] in {'\'', '"'} && UpToQuote(s[1..], s[0]) > 0 then 1 + UpToQuote(s[1..], s[0]) else SolidRun(s)
  }

  /** g_regex_split: the texts between the matches and, since the pattern is in parentheses, the matches. */
  function Pieces(s: string, between: string): seq<string>
    decreases |s|
  {
    if s == [] then [between]
    else
      var n := MatchLength(s);
      if n > 0 then [between, s[..n]] + Pieces(s[n..], []) else Pieces(s[1..], between + [s[0]])
  }

  // ----- One piece -----

  function Chug(s: string): string {
    if s != [] && Space(s[0]) then Chug(s[1..]) else s
  }

  function Chomp(s: string): string {
    if s != [] && Space(s[|s| - 1]) then Chomp(s[..|s| - 1]) else s
  }

  function Strip(s: string): string {
    Chomp(Chug(s))
  }

  function Unquote(item: string): string
    requires item != []
  {
    if (item[0] == '"' && item[|item| - 1] == '"') || (item[0] == '\'' && item[|item| - 1] == '\'') then
      if |item| == 1 then [] else item[1..|item| - 1]
    else item
  }

  predicate OctalDigit(c: char) {
    '0' <= c <= '7'
  }

  /** At most `most` leading octal digits. */
  function OctalRun(s: string, most: nat): (n: nat)
    ensures n <= |s| && n <= most
    ensures s != [] && OctalDigit(s[0]) && most > 0 ==> n > 0
  {
    if s == [] || most == 0 || !OctalDigit(s[0]) then 0 else 1 + OctalRun(s[1..], most - 1)
  }

  function Octal(s: string): nat
    requires forall i :: 0 <= i < |s| ==> OctalDigit(s[i])
  {
    if s == [] then 0
    else
      assert OctalDigit(s[|s| - 1]);
      8 * Octal(s[..|s| - 1]) + (s[|s| - 1] - '0') as nat
  }

  lemma OctalRunDigits(s: string, most: nat)
    ensures forall i :: 0 <= i < OctalRun(s, most) ==> OctalDigit(s[i])
  {
  }

  /** The character an escape with this letter stands for. */
  function Escaped(c: char): char {
    match c
    case 'b' => 8 as char
    case 'f' => FF
    case 'n' => '\n'
    case 'r' => '\r'
    case 't' => '\t'
    case 'v' => VT
    case _ => c
  }

  /** g_strcompress: escapes are replaced; a lone backslash at the end is dropped. */
  function Compress(s: string): string
    decreases |s|
  {
    if s == [] then []
    else if s[0] != '\\' then [s[0]] + Compress(s[1..])
    else if |s| == 1 then []
    else if OctalDigit(s[1]) then
      OctalRunDigits(s[1..], 3);
      var n := OctalRun(s[1..], 3);
      [(Octal(s[1..][..n]) % 256) as char] + Compress(s[1 + n..])
    else [Escaped(s[1])] + Compress(s[2..])
  }

  // ----- Splitting -----

  /** The arguments in some pieces: blank ones are skipped, quotes and escapes undone. */
  function Arguments(pieces: seq<string>): (args: seq<string>)
    ensures |args| <= |pieces|
  {
    if pieces == [] then []
    else
      var item := Strip(pieces[0]);
      (if item == [] then [] else [Compress(Unquote(item))]) + Arguments(pieces[1..])
  }

  function Split(command: string): seq<string> {
    if command == [] then [] else Arguments(Pieces(command, []))
  }

  /** tlm_utils_split_command_line; the array has as many places as there are pieces, so a null ends it. */
  method SplitCommandLine(command: string) returns (argv: seq<string>, places: nat)
    ensures argv == Split(command)
    ensures command != [] ==> |argv| < places
  {
    argv := [];
    if command == [] {
      return argv, 0;
    }
    var temp := Pieces(command, []);
    places := |temp|;
    var i := 0;
    while i < |temp|
      invariant 0 <= i <= |temp| && Collected(argv, temp, i)
    {
      CollectNext(argv, temp, i);
      var item := Strip(temp[i]);
      if |item| == 0 {
        i := i + 1;
        continue;
      }
      argv := argv + [Compress(Unquote(item))];
      i := i + 1;
    }
    RoomForTerminator(command, []);
  }

  lemma NextPiece(temp: seq<string>, i: nat)
    requires i < |temp|
    ensures var item := Strip(temp[i]);
            Arguments(temp[i..]) == (if item == [] then [] else [Compress(Unquote(item))]) + Arguments(temp[i + 1..])
  {
  }

  /** The arguments so far, followed by those of the pieces ahead, are all the arguments. */
  ghost predicate Collected(argv: seq<string>, temp: seq<string>, i: nat)
    requires i <= |temp|
  {
    argv + Arguments(temp[i..]) == Arguments(temp)
  }

  lemma CollectNext(argv: seq<string>, temp: seq<string>, i: nat)
    requires i < |temp| && Collected(argv, temp, i)
    ensures var item := Strip(temp[i]);
            && (item == [] ==> Collected(argv, temp, i + 1))
            && (item != [] ==> Collected(argv + [Compress(Unquote(item))], temp, i + 1))
  {
    hide Strip, Unquote, Compress;
    NextPiece(temp, i);
    var item, rest := Strip(temp[i]), Arguments(temp[i + 1..]);
    if item != [] {
      assert argv + [Compress(Unquote(item))] + rest == argv + ([Compress(Unquote(item))] + rest);
    }
  }

  predicate Blank(s: string) {
    forall i :: 0 <= i < |s| ==> Space(s[i])
  }

  lemma {:induction false} StripBlank(s: string)
    requires Blank(s)
    ensures Strip(s) == []
  {
    if s != [] {
      StripBlank(s[1..]);
    }
  }

  /** The text before the first match is blank, so fewer arguments than pieces come out. */
  lemma {:induction false} RoomForTerminator(s: string, between: string)
    requires Blank(between)
    ensures |Arguments(Pieces(s, between))| < |Pieces(s, between)|
    decreases |s|
  {
    var pieces := Pieces(s, between);
    StripBlank(between);
    if s == [] {
      assert pieces[1..] == [];
    } else {
      var n := MatchLength(s);
      if n > 0 {
        NextPiece(pieces, 0);
      } else {
        RoomForTerminator(s[1..], between + [s[0]]);
      }
    }
  }

  // ----- Every argument list can be written as a command line -----

  /** Characters a command line can carry through the regular expression one way or the other. */
  predicate Plain(c: char) {
    c != 0 as char && c !in {0x85 as char, 0x2028 as char, 0x2029 as char}
  }

  function EscapeChar(c: char): string {
    if c == '\\' then "\\\\"
    else if c == '"' then "\\042"
    else if c == '\n' then "\\n"
    else if c == '\r' then "\\r"
    else if c == FF then "\\f"
    else if c == VT then "\\v"
    else [c]
  }

  function Escape(arg: string): string {
    if arg == [] then [] else EscapeChar(arg[0]) + Escape(arg[1..])
  }

  function Quote(arg: string): string {
    "\"" + Escape(arg) + "\""
  }

  function Join(args: seq<string>): string {
    if args == [] then [] else Quote(args[0]) + (if |args| == 1 then [] else " " + Join(args[1..]))
  }

  /** The octal escape for a double quote. */
  lemma CompressOctalQuote(rest: string)
    ensures Compress("\\042" + rest) == ['"'] + Compress(rest)
  {
    var s := "\\042" + rest;
    var t := ['0', '4', '2'] + rest;
    assert s[1..] == t && s[4..] == rest;
    OctalRunOfThree(t);
    assert t[..3] == ['0', '4', '2'];
    assert ['0', '4', '2'][..2] == ['0', '4'] && ['0', '4'][..1] == ['0'] && ['0'][..0] == [];
    assert Octal(['0']) == 0 && Octal(['0', '4']) == 4;
    assert Octal(['0', '4', '2']) == 34;
  }

  lemma OctalRunOfThree(t: string)
    requires |t| >= 3 && OctalDigit(t[0]) && OctalDigit(t[1]) && OctalDigit(t[2])
    ensures OctalRun(t, 3) == 3
  {
  }

  lemma CompressEscapeChar(c: char, rest: string)
    ensures Compress(EscapeChar(c) + rest) == [c] + Compress(rest)
  {
    var s := EscapeChar(c) + rest;
    if c == '"' {
      CompressOctalQuote(rest);
    } else if c in {'\\', '\n', '\r', FF, VT} {
      assert s[2..] == rest;
    } else {
      assert s[1..] == rest;
    }
  }

  lemma {:induction false} CompressEscape(arg: string)
    ensures Compress(Escape(arg)) == arg
  {
    if arg != [] {
      CompressEscapeChar(arg[0], Escape(arg[1..]));
      CompressEscape(arg[1..]);
    }
  }

  /** Nothing in an escaped argument ends the quotation early. */
  lemma {:induction false} UpToClosingQuote(arg: string, rest: string)
    requires forall c :: c in arg ==> Plain(c)
    ensures UpToQuote(Escape(arg) + "\"" + rest, '"') == |Escape(arg)| + 1
    decreases |arg|
  {
    if arg == [] {
      assert Escape(arg) + "\"" + rest == "\"" + rest;
    } else {
      var e, s := EscapeChar(arg[0]), Escape(arg[1..]) + "\"" + rest;
      UpToClosingQuote(arg[1..], rest);
      assert Escape(arg) + "\"" + rest == e + s;
      EscapeHarmless(arg[0]);
      SkipHarmless(e, s);
    }
  }

  ghost predicate Harmless(e: string) {
    forall i :: 0 <= i < |e| ==> e[i] != '"' && !LineBreak(e[i])
  }

  lemma EscapeHarmless(c: char)
    requires Plain(c)
    ensures Harmless(EscapeChar(c))
  {
  }

  lemma {:induction false} SkipHarmless(e: string, s: string)
    requires Harmless(e)
    requires UpToQuote(s, '"') > 0
    ensures UpToQuote(e + s, '"') == |e| + UpToQuote(s, '"')
    decreases |e|
  {
    if e == [] {
      assert e + s == s;
    } else {
      assert (e + s)[1..] == e[1..] + s;
      SkipHarmless(e[1..], s);
    }
  }

  /** A quoted argument is one match. */
  lemma QuoteMatches(arg: string, rest: string)
    requires forall c :: c in arg ==> Plain(c)
    ensures MatchLength(Quote(arg) + rest) == |Quote(arg)|
  {
    UpToClosingQuote(arg, rest);
    assert (Quote(arg) + rest)[1..] == Escape(arg) + "\"" + rest;
  }

  /** And it gives the argument back. */
  lemma QuoteArgument(arg: string)
    ensures Strip(Quote(arg)) == Quote(arg) && Compress(Unquote(Quote(arg))) == arg
  {
    var q := Quote(arg);
    assert q[0] == '"' && q[|q| - 1] == '"' && q[1..|q| - 1] == Escape(arg);
    CompressEscape(arg);
  }

  /** A quoted argument in front is split off. */
  lemma SplitFirst(arg: string, tail: string, between: string)
    requires forall c :: c in arg ==> Plain(c)
    requires Blank(between)
    ensures Arguments(Pieces(Quote(arg) + tail, between)) == [arg] + Arguments(Pieces(tail, []))
  {
    var q := Quote(arg);
    var s := q + tail;
    var pieces := Pieces(s, between);
    StripBlank(between);
    QuoteMatches(arg, tail);
    QuoteArgument(arg);
    assert s[..|q|] == q && s[|q|..] == tail;
    assert pieces == [between, q] + Pieces(tail, []);
    NextPiece(pieces, 0);
    NextPiece(pieces, 1);
    assert pieces[0..] == pieces && pieces[2..] == Pieces(tail, []);
  }

  /** What blank text there is between two matches gives no argument. */
  lemma SplitBlank(between: string)
    requires Blank(between)
    ensures Arguments(Pieces([], between)) == []
  {
    StripBlank(between);
    assert [between][1..] == [];
  }

  /** A space between two arguments begins the text before the next match. */
  lemma SkipSpace(rest: string)
    ensures Pieces(" " + rest, []) == Pieces(rest, [' '])
  {
    var s := " " + rest;
    assert s[1..] == rest && MatchLength(s) == 0 && [] + [s[0]] == [' '];
  }

  lemma {:induction false} SplitJoined(args: seq<string>, between: string)
    requires forall i :: 0 <= i < |args| ==> forall c :: c in args[i] ==> Plain(c)
    requires Blank(between)
    ensures Arguments(Pieces(Join(args), between)) == args
    decreases |args|
  {
    hide Arguments, Pieces, Quote, Plain;
    if args == [] {
      SplitBlank(between);
    } else if |args| == 1 {
      assert Join(args) == Quote(args[0]) + [];
      SplitFirst(args[0], [], between);
      SplitBlank([]);
    } else {
      SplitFirst(args[0], " " + Join(args[1..]), between);
      SkipSpace(Join(args[1..]));
      SplitJoined(args[1..], [' ']);
    }
  }

  /**
    Round trip: any list of arguments, empty and space-padded ones and ones with quotes and backslashes included, comes
    back exactly from its command line.
  */
  lemma RoundTrip(args: seq<string>)
    requires forall i :: 0 <= i < |args| ==> forall c :: c in args[i] ==> Plain(c)
    ensures Split(Join(args)) == args
  {
    SplitJoined(args, []);
  }

  /** Without double quotes, backslashes and line breaks, quoting is all it takes. */
  lemma {:induction false} SimpleQuote(arg: string)
    requires forall i :: 0 <= i < |arg| ==> arg[i] != '"' && arg[i] != '\\' && !LineBreak(arg[i])
    ensures Escape(arg) == arg
  {
    if arg != [] {
      SimpleQuote(arg[1..]);
    }
  }

  // ----- What a command line means -----

  /** A word without quotation marks around it, or a text in single or in double quotes. */
  datatype Token = Bare(text: string) | Single(text: string) | Double(text: string)

  predicate IsBlank(c: char) {
    c == ' ' || c == '\t' || c == '\n' || c == '\r' || c == 12 as char
  }

  predicate EndsLine(c: char) {
    c == '\n' || c == 11 as char || c == 12 as char || c == '\r' || c == 0x85 as char || c == 0x2028 as char
    || c == 0x2029 as char
  }

  /** Words hold no white space and begin with no quotation mark; quotations hold no line break and not their own mark. */
  ghost predicate WellWritten(t: Token) {
    match t
    case Bare(w) =>
      w != [] && w[0] != '\'' && w[0] != '"' && forall i :: 0 <= i < |w| ==> !IsBlank(w[i]) && w[i] != '\\'
    case Single(w) => forall i :: 0 <= i < |w| ==> w[i] != '\'' && !EndsLine(w[i]) && w[i] != '\\'
    case Double(w) => forall i :: 0 <= i < |w| ==> w[i] != '"' && !EndsLine(w[i]) && w[i] != '\\'
  }

  function Written(t: Token): string {
    match t
    case Bare(w) => w
    case Single(w) => "'" + w + "'"
    case Double(w) => "\"" + w + "\""
  }

  /** A token, and the white space behind it. */
  datatype Spaced = Spaced(token: Token, gap: string)

  ghost predicate AllBlank(s: string) {
    forall i :: 0 <= i < |s| ==> IsBlank(s[i])
  }

  /** Each token but the last is followed by some white space. */
  ghost predicate WellSpaced(tokens: seq<Spaced>) {
    tokens != [] ==>
      && WellWritten(tokens[0].token) && AllBlank(tokens[0].gap)
      && (|tokens| > 1 ==> tokens[0].gap != [])
      && WellSpaced(tokens[1..])
  }

  function Line(tokens: seq<Spaced>): string {
    if tokens == [] then [] else Written(tokens[0].token) + tokens[0].gap + Line(tokens[1..])
  }

  function Texts(tokens: seq<Spaced>): seq<string> {
    if tokens == [] then [] else [tokens[0].token.text] + Texts(tokens[1..])
  }

  /** A text that begins with white space or is empty. */
  ghost predicate Apart(tail: string) {
    tail == [] || IsBlank(tail[0])
  }

  lemma {:induction false} WordRuns(w: string, tail: string)
    requires (forall i :: 0 <= i < |w| ==> !IsBlank(w[i])) && Apart(tail)
    ensures SolidRun(w + tail) == |w|
  {
    if w == [] {
      assert w + tail == tail;
    } else {
      assert (w + tail)[1..] == w[1..] + tail;
      WordRuns(w[1..], tail);
    }
  }

  lemma {:induction false} RunsToQuote(w: string, q: char, tail: string)
    requires forall i :: 0 <= i < |w| ==> w[i] != q && !EndsLine(w[i])
    ensures UpToQuote(w + [q] + tail, q) == |w| + 1
  {
    var s := w + [q] + tail;
    if w == [] {
      assert s[0] == q;
    } else {
      assert s[1..] == w[1..] + [q] + tail;
      RunsToQuote(w[1..], q, tail);
    }
  }

  /** A quotation is one match, whatever follows. */
  lemma QuotationMatches(w: string, q: char, tail: string)
    requires q == '\'' || q == '"'
    requires forall i :: 0 <= i < |w| ==> w[i] != q && !EndsLine(w[i])
    ensures MatchLength([q] + w + [q] + tail) == |w| + 2
  {
    assert ([q] + w + [q] + tail)[1..] == w + [q] + tail;
    RunsToQuote(w, q, tail);
    hide SolidRun, UpToQuote;
  }

  /** A token is one match. */
  lemma TokenMatches(t: Token, tail: string)
    requires WellWritten(t) && Apart(tail)
    ensures MatchLength(Written(t) + tail) == |Written(t)| > 0
  {
    hide UpToQuote, SolidRun, MatchLength;
    match t
    case Bare(w) => WordMatches(w, tail);
    case Single(w) => QuotationMatches(w, '\'', tail);
    case Double(w) => QuotationMatches(w, '"', tail);
  }

  lemma WordMatches(w: string, tail: string)
    requires WellWritten(Bare(w)) && Apart(tail)
    ensures MatchLength(w + tail) == |w|
  {
    hide UpToQuote, SolidRun;
    assert (w + tail)[0] == w[0];
    WordRuns(w, tail);
  }

  lemma {:induction false} NothingEscaped(w: string)
    requires forall i :: 0 <= i < |w| ==> w[i] != '\\'
    ensures Compress(w) == w
  {
    if w != [] {
      NothingEscaped(w[1..]);
    }
  }

  /** And it means its text. */
  lemma TokenMeans(t: Token)
    requires WellWritten(t)
    ensures var item := Written(t); item != [] && Strip(item) == item && Compress(Unquote(item)) == t.text
  {
    var item, w := Written(t), t.text;
    NothingEscaped(w);
    match t
    case Bare(_) => assert !Space(item[0]) && !Space(item[|item| - 1]);
    case Single(_) => assert item[0] == '\'' == item[|item| - 1] && item[1..|item| - 1] == w;
    case Double(_) => assert item[0] == '"' == item[|item| - 1] && item[1..|item| - 1] == w;
  }

  lemma {:induction false} SkipGap(gap: string, tail: string, between: string)
    requires AllBlank(gap)
    ensures Pieces(gap + tail, between) == Pieces(tail, between + gap)
    decreases |gap|
  {
    if gap == [] {
      assert gap + tail == tail && between + gap == between;
    } else {
      var s := gap + tail;
      assert s[0] == gap[0] && s[1..] == gap[1..] + tail && MatchLength(s) == 0;
      SkipGap(gap[1..], tail, between + [gap[0]]);
      assert between + [gap[0]] + gap[1..] == between + gap;
    }
  }

  /** A token in front is split off. */
  lemma SplitToken(t: Token, tail: string, between: string)
    requires WellWritten(t) && Apart(tail) && AllBlank(between)
    ensures Arguments(Pieces(Written(t) + tail, between)) == [t.text] + Arguments(Pieces(tail, []))
  {
    var q := Written(t);
    var s := q + tail;
    var pieces := Pieces(s, between);
    TokenMatches(t, tail);
    TokenMeans(t);
    assert Blank(between);
    StripBlank(between);
    assert s[..|q|] == q && s[|q|..] == tail;
    hide Pieces, Strip, Unquote, Compress, Written, MatchLength;
    PiecesAfterMatch(s, between, |q|);
    NextPiece(pieces, 0);
    NextPiece(pieces, 1);
    assert pieces[0..] == pieces && pieces[2..] == Pieces(tail, []);
  }

  lemma PiecesAfterMatch(s: string, between: string, n: nat)
    requires n == MatchLength(s) > 0
    ensures Pieces(s, between) == [between, s[..n]] + Pieces(s[n..], [])
  {
  }

  /**
    What a command line means: words, texts in single quotes and texts in double quotes, in any mixture and with any white
    space in front, between and behind, are split into exactly these words and texts.
  */
  lemma {:induction false} MeansItsTokens(front: string, tokens: seq<Spaced>)
    requires AllBlank(front) && WellSpaced(tokens)
    ensures Split(front + Line(tokens)) == Texts(tokens)
  {
    SkipGap(front, Line(tokens), []);
    assert [] + front == front;
    TokensSplit(tokens, front);
    LineNotEmpty(tokens);
  }

  lemma LineNotEmpty(tokens: seq<Spaced>)
    requires WellSpaced(tokens)
    ensures Line(tokens) == [] ==> tokens == []
  {
    if tokens != [] {
      TokenMeans(tokens[0].token);
    }
  }

  lemma {:induction false} TokensSplit(tokens: seq<Spaced>, between: string)
    requires AllBlank(between) && WellSpaced(tokens)
    ensures Arguments(Pieces(Line(tokens), between)) == Texts(tokens)
    decreases |tokens|
  {
    if tokens == [] {
      assert Blank(between);
      SplitBlank(between);
    } else {
      hide Arguments, Pieces, Written, WellWritten;
      var t, gap, rest := tokens[0].token, tokens[0].gap, Line(tokens[1..]);
      assert Line(tokens) == Written(t) + (gap + rest);
      assert Apart(gap + rest) by {
        if gap == [] {
          assert tokens[1..] == [];
        }
      }
      SplitToken(t, gap + rest, between);
      SkipGap(gap, rest, []);
      assert [] + gap == gap;
      TokensSplit(tokens[1..], gap);
    }
  }

  /** Words joined by spaces. */
  function Words(words: seq<string>): seq<Spaced> {
    if words == [] then []
    else [Spaced(Bare(words[0]), if |words| == 1 then "" else " ")] + Words(words[1..])
  }

  lemma {:induction false} WordsWritten(words: seq<string>)
    requires forall i :: 0 <= i < |words| ==> WellWritten(Bare(words[i]))
    ensures WellSpaced(Words(words)) && Texts(Words(words)) == words && |Words(words)| == |words|
  {
    if words != [] {
      WordsWritten(words[1..]);
      assert Words(words)[1..] == Words(words[1..]);
    }
  }

  /** A command without quotation marks is its words. */
  lemma PlainCommand(words: seq<string>)
    requires forall i :: 0 <= i < |words| ==> WellWritten(Bare(words[i]))
    ensures Split(Line(Words(words))) == words
  {
    WordsWritten(words);
    MeansItsTokens([], Words(words));
    assert [] + Line(Words(words)) == Line(Words(words));
  }

  lemma {:induction false} NeverClosed(w: string, q: char)
    requires forall i :: 0 <= i < |w| ==> w[i] != q
    ensures UpToQuote(w, q) == 0
  {
    if w != [] {
      NeverClosed(w[1..], q);
    }
  }

  /** A quotation mark that is not closed is part of its word. */
  lemma UnclosedQuotation(w: string)
    requires |w| >= 2 && (w[0] == '\'' || w[0] == '"')
    requires forall i :: 0 <= i < |w| ==> !IsBlank(w[i]) && w[i] != '\\' && (i > 0 ==> w[i] != w[0])
    ensures Split(w) == [w]
  {
    NeverClosed(w[1..], w[0]);
    WordRuns(w, []);
    NothingEscaped(w);
    assert w + [] == w && w[..|w|] == w && w[|w|..] == [];
    assert MatchLength(w) == |w|;
    hide MatchLength, SolidRun, UpToQuote, Compress;
    PiecesAfterMatch(w, [], |w|);
    NextPiece(Pieces(w, []), 0);
    NextPiece(Pieces(w, []), 1);
    SplitBlank([]);
    assert Pieces(w, [])[0..] == Pieces(w, []) && Pieces(w, [])[2..] == Pieces([], []);
    assert Strip(w) == w && Unquote(w) == w;
  }

  /** A quotation mark alone, or a pair with nothing between, is an empty argument; nothing at all is none. */
  lemma EmptyArguments()
    ensures Split("\"") == [""] && Split("'") == [""] && Split("\"\"") == [""] && Split("''") == [""]
    ensures Split("") == [] && Split(" ") == []
  {
    var double, single := [Spaced(Double(""), "")], [Spaced(Single(""), "")];
    assert Line(double) == "\"\"" && Line(single) == "''" && double[1..] == [] == single[1..];
    MeansItsTokens("", double);
    MeansItsTokens("", single);
    MeansItsTokens(" ", []);
    assert "" + Line(double) == Line(double) && "" + Line(single) == Line(single) && " " + Line([]) == " ";
    LoneMark('"');
    LoneMark('\'');
  }

  lemma LoneMark(q: char)
    requires q == '"' || q == '\''
    ensures Split([q]) == [""]
  {
    assert [q][1..] == [] && [q][..1] == [q];
    assert MatchLength([q]) == 1;
    PiecesAfterMatch([q], [], 1);
    NextPiece(Pieces([q], []), 0);
    NextPiece(Pieces([q], []), 1);
    SplitBlank([]);
    assert Pieces([q], [])[0..] == Pieces([q], []) && Pieces([q], [])[2..] == Pieces([], []);
  }

  lemma EscapedLetter(c: char, rest: string)
    requires !OctalDigit(c)
    ensures Compress(['\\', c] + rest) == [Escaped(c)] + Compress(rest)
  {
    assert (['\\', c] + rest)[2..] == rest;
  }

  /** Escapes, one by one: letters, other characters, and a backslash at the end, which is dropped. */
  lemma EscapesInFigures(c: char, rest: string)
    requires !('0' <= c <= '7')
    ensures Compress(['\\']) == []
    ensures Compress(['\\', c] + rest) ==
            [if c == 'b' then 8 as char else if c == 't' then '\t' else if c == 'n' then '\n' else if c == 'v' then 11 as char
             else if c == 'f' then 12 as char else if c == 'r' then '\r' else c] + Compress(rest)
  {
    EscapedLetter(c, rest);
  }

  /** Three digits in base eight are a character, and a fourth is not part of it. */
  lemma OctalInFigures(a: char, b: char, c: char, rest: string)
    requires OctalDigit(a) && OctalDigit(b) && OctalDigit(c)
    ensures Compress(['\\', a, b, c] + rest) ==
            [((64 * (a - '0') as nat + 8 * (b - '0') as nat + (c - '0') as nat) % 256) as char] + Compress(rest)
  {
    var s, t := ['\\', a, b, c] + rest, [a, b, c] + rest;
    assert s[1..] == t && s[4..] == rest;
    OctalRunOfThree(t);
    assert t[..3] == [a, b, c];
    assert [a, b, c][..2] == [a, b] && [a, b][..1] == [a] && [a][..0] == [];
    assert Octal([a]) == (a - '0') as nat;
    assert Octal([a, b]) == 8 * (a - '0') as nat + (b - '0') as nat;
  }
}
