/** Whatever way a token sequence is laid out, the shell reads it back. */
module ShellRoundTrip {
  import opened Seqs
  import opened ShellLine
  import opened ShellLexer
  import opened ShellParse

  /** A word and the blanks behind it. */
  datatype Spaced = Spaced(word: string, gap: string)

  /** A token as laid out: the words of a command, or an operator and the space behind it. */
  datatype Piece = Command(ws: seq<Spaced>) | Operator(kind: Kind, gap: string)

  function Symbol(k: Kind): string {
    match k
    case RedirIn => "<"
    case RedirOut => ">"
    case RedirAppend => ">>"
    case Pipe => "|"
    case _ => "&"
  }

  function LayWord(w: Spaced): string { w.word + w.gap }

  function Lay(p: Piece): string {
    match p
    case Command(ws) => FlatMap(LayWord, ws)
    case Operator(k, gap) => Symbol(k) + gap
  }

  /** The line: its tokens, and a newline. */
  function LayLine(ps: seq<Piece>): string {
    FlatMap(Lay, ps) + "\n"
  }

  ghost predicate AllBlank(s: string) {
    forall i :: 0 <= i < |s| ==> IsBlank(s[i])
  }

  /** Blanks and line ends. */
  ghost predicate AllSpace(s: string) {
    forall i :: 0 <= i < |s| ==> IsBlank(s[i]) || s[i] == '\n' || s[i] == '\r'
  }

  ghost predicate Ordinary(w: string) {
    w != [] && forall i :: 0 <= i < |w| ==> !IsBlank(w[i]) && !IsSpecial(w[i]) && w[i] != '\0'
  }

  /** Words are ordinary and kept apart by blanks; behind the last one there may be none. */
  ghost predicate WellSpaced(ws: seq<Spaced>) {
    forall i :: 0 <= i < |ws| ==> Ordinary(ws[i].word) && AllBlank(ws[i].gap) && (i + 1 < |ws| ==> ws[i].gap != [])
  }

  /** A command fits the token buffer; the line may be broken behind a redirection or a pipe. */
  ghost predicate PieceOk(p: Piece) {
    match p
    case Command(ws) => ws != [] && WellSpaced(ws) && |ws| < NARGS && |Lay(p)| < TOKEN_LEN
    case Operator(k, gap) =>
      if k == Background then AllBlank(gap)
      else (k == RedirIn || k == RedirOut || k == RedirAppend || k == Pipe) && AllSpace(gap)
  }

  /** Commands do not touch each other, and a `>` does not run into another one. */
  ghost predicate Separate(p: Piece, next: Piece) {
    match p
    case Command(_) => next.Operator?
    case Operator(k, gap) => k == RedirOut && gap == [] ==> next.Command? || Symbol(next.kind)[0] != '>'
  }

  ghost predicate LineOk(ps: seq<Piece>) {
    && (forall i :: 0 <= i < |ps| ==> PieceOk(ps[i]))
    && (forall i :: 0 < i < |ps| ==> Separate(ps[i - 1], ps[i]))
  }

  /** The block a token is read as. */
  function BlockOf(p: Piece): Block {
    match p
    case Command(ws) => Block(Normal, WordsOf(ws), [])
    case Operator(k, _) => Block(k, [], [])
  }

  function WordsOf(ws: seq<Spaced>): (r: seq<string>)
    ensures |r| == |ws| && forall i :: 0 <= i < |ws| ==> r[i] == ws[i].word
  {
    seq(|ws|, i requires 0 <= i < |ws| => ws[i].word)
  }

  const EOL_BLOCK := Block(Eol, [], [])

  lemma {:induction false} BlanksSkipped(gap: string, s: string)
    requires AllBlank(gap)
    ensures SkipBlanks(gap + s) == SkipBlanks(s)
  {
    if gap == [] {
      assert gap + s == s;
    } else {
      assert (gap + s)[1..] == gap[1..] + s;
      BlanksSkipped(gap[1..], s);
    }
  }

  /** Space in front of a line, or behind a redirection or pipe, is dropped. */
  lemma {:induction false} SpaceDropped(acc: seq<Block>, gap: string, s: string)
    requires |acc| < TOKEN_MAX && s != []
    requires if GoesOn(acc) then AllSpace(gap) else AllBlank(gap)
    ensures ReadLine(acc, gap + s) == ReadLine(acc, s)
  {
    if gap == [] {
      assert gap + s == s;
    } else {
      var rest := gap[1..] + s;
      assert gap + s == [gap[0]] + rest;
      if IsBlank(gap[0]) {
        BlankDropped(acc, gap[0], rest);
      } else {
        NewlineSkipped(acc, gap[0], rest);
      }
      SpaceDropped(acc, gap[1..], s);
    }
  }

  lemma BlankDropped(acc: seq<Block>, c: char, s: string)
    requires IsBlank(c) && s != []
    ensures ReadLine(acc, [c] + s) == ReadLine(acc, s)
  {
    assert ([c] + s)[1..] == s;
    assert Lex([c] + s, TOKEN_LEN) == Lex(s, TOKEN_LEN);
  }

  lemma NewlineSkipped(acc: seq<Block>, c: char, s: string)
    requires (c == '\n' || c == '\r') && GoesOn(acc) && |acc| < TOKEN_MAX
    ensures ReadLine(acc, [c] + s) == ReadLine(acc, s)
  {
    assert ([c] + s)[1..] == s;
    assert Lex([c] + s, TOKEN_LEN) == Token(Eol, [], s);
  }

  /** Splitting a laid-out command gives its words. */
  lemma {:induction false} WordsOfLaid(ws: seq<Spaced>)
    requires WellSpaced(ws)
    ensures Words(FlatMap(LayWord, ws)) == WordsOf(ws)
  {
    if ws == [] {
    } else {
      var w, tail := ws[0], FlatMap(LayWord, ws[1..]);
      WordsOfLaid(ws[1..]);
      FirstOfWords(w.word, w.gap, tail);
      assert FlatMap(LayWord, ws) == w.word + w.gap + tail;
    }
  }

  lemma FirstOfWords(w: string, gap: string, tail: string)
    requires Ordinary(w) && AllBlank(gap) && (gap != [] || tail == [])
    ensures Words(w + gap + tail) == [w] + Words(tail)
  {
    var s := w + gap + tail;
    assert s[0] == w[0];
    assert SkipBlanks(s) == s;
    assert s[|w|..] == gap + tail && s[..|w|] == w;
    assert WordLength(s) == |w| by {
      assert forall i :: 0 <= i < |w| ==> s[i] == w[i];
      assert gap != [] ==> s[|w|] == gap[0];
    }
    BlanksSkipped(gap, tail);
    assert Words(gap + tail) == Words(tail);
  }

  lemma {:induction false} LaidIsPlain(ws: seq<Spaced>)
    requires WellSpaced(ws)
    ensures forall i :: 0 <= i < |FlatMap(LayWord, ws)| ==> !IsSpecial(FlatMap(LayWord, ws)[i])
    ensures ws != [] ==> FlatMap(LayWord, ws) != [] && !IsBlank(FlatMap(LayWord, ws)[0])
  {
    if ws == [] {
    } else {
      LaidIsPlain(ws[1..]);
    }
  }

  lemma LexCommand(ws: seq<Spaced>, rest: string)
    requires ws != [] && WellSpaced(ws) && |Lay(Command(ws))| < TOKEN_LEN && rest != [] && IsSpecial(rest[0])
    ensures Lex(Lay(Command(ws)) + rest, TOKEN_LEN) == Token(Normal, Lay(Command(ws)), rest)
  {
    var text := Lay(Command(ws));
    var s := text + rest;
    LaidIsPlain(ws);
    assert s[0] == text[0];
    assert PlainPrefix(s) == |text| by {
      assert forall i :: 0 <= i < |text| ==> s[i] == text[i];
      assert s[|text|] == rest[0];
    }
  }

  lemma LexOperator(k: Kind, gap: string, rest: string)
    requires PieceOk(Operator(k, gap)) && rest != []
    requires k == RedirOut && gap == [] ==> rest[0] != '>'
    ensures Lex(Lay(Operator(k, gap)) + rest, TOKEN_LEN) == Token(k, [], gap + rest)
  {
    assert Lay(Operator(k, gap)) + rest == Symbol(k) + (gap + rest);
    assert (gap + rest)[0] == if gap == [] then rest[0] else gap[0];
    LexSymbol(k, gap + rest);
  }

  lemma LexSymbol(k: Kind, s: string)
    requires k in {RedirIn, RedirOut, RedirAppend, Pipe, Background} && s != [] && (k == RedirOut ==> s[0] != '>')
    ensures Lex(Symbol(k) + s, TOKEN_LEN) == Token(k, [], s)
  {
    var t := Symbol(k) + s;
    assert SkipBlanks(t) == t && t[|Symbol(k)|..] == s;
  }

  /** The first token of a laid-out line is read as its block. */
  lemma OneBlock(acc: seq<Block>, p: Piece, rest: string)
    requires PieceOk(p) && rest != [] && |acc| + 1 < TOKEN_MAX
    requires p.Command? ==> IsSpecial(rest[0])
    requires p.Operator? && p.kind == RedirOut && p.gap == [] ==> rest[0] != '>'
    ensures ReadLine(acc, Lay(p) + rest) == ReadLine(acc + [BlockOf(p)], rest)
  {
    match p {
      case Command(ws) =>
        LexCommand(ws, rest);
        WordsOfLaid(ws);
        OneToken(acc, Lay(p) + rest, Token(Normal, Lay(p), rest));
      case Operator(k, gap) =>
        LexOperator(k, gap, rest);
        assert Words([]) == [];
        OneToken(acc, Lay(p) + rest, Token(k, [], gap + rest));
        SpaceDropped(acc + [BlockOf(p)], gap, rest);
    }
  }

  lemma OneToken(acc: seq<Block>, s: string, t: Token)
    requires Lex(s, TOKEN_LEN) == t && |acc| < TOKEN_MAX && !Ends(t.kind) && |Words(t.text)| < NARGS
    ensures ReadLine(acc, s) == ReadLine(acc + [ReadBlock(t)], t.rest)
  {
  }

  function BlocksOf(ps: seq<Piece>): (bs: seq<Block>)
    ensures |bs| == |ps| && forall i :: 0 <= i < |ps| ==> bs[i] == BlockOf(ps[i])
  {
    seq(|ps|, i requires 0 <= i < |ps| => BlockOf(ps[i]))
  }

  /** The last token read so far, or to be read. */
  function LastBlock(acc: seq<Block>, ps: seq<Piece>): Block
    requires acc != [] || ps != []
  {
    if ps != [] then BlockOf(ps[|ps| - 1]) else acc[|acc| - 1]
  }

  lemma EndOfLine(acc: seq<Block>, more: string)
    requires 0 < |acc| < TOKEN_MAX && !Continues(acc[|acc| - 1])
    ensures ReadLine(acc, "\n" + more) == Line(acc + [EOL_BLOCK], more)
  {
  }

  lemma {:induction false} ReadsOn(acc: seq<Block>, ps: seq<Piece>, more: string)
    requires LineOk(ps) && 0 < |acc| + |ps| < TOKEN_MAX && !Continues(LastBlock(acc, ps))
    ensures ReadLine(acc, LayLine(ps) + more) == Line(acc + BlocksOf(ps) + [EOL_BLOCK], more)
    decreases |ps|
  {
    if ps == [] {
      assert LayLine(ps) == "\n" && acc + BlocksOf(ps) == acc;
      EndOfLine(acc, more);
    } else {
      StillOk(ps);
      FirstMoved(acc, ps);
      FirstPiece(acc, ps, more);
      ReadsOn(acc + [BlockOf(ps[0])], ps[1..], more);
    }
  }

  lemma FirstMoved(acc: seq<Block>, ps: seq<Piece>)
    requires ps != []
    ensures acc + [BlockOf(ps[0])] + BlocksOf(ps[1..]) == acc + BlocksOf(ps)
    ensures LastBlock(acc + [BlockOf(ps[0])], ps[1..]) == LastBlock(acc, ps)
  {
  }

  lemma StillOk(ps: seq<Piece>)
    requires LineOk(ps) && ps != []
    ensures LineOk(ps[1..])
  {
  }

  lemma FirstPiece(acc: seq<Block>, ps: seq<Piece>, more: string)
    requires LineOk(ps) && |acc| + 1 < TOKEN_MAX && ps != []
    ensures ReadLine(acc, LayLine(ps) + more) == ReadLine(acc + [BlockOf(ps[0])], LayLine(ps[1..]) + more)
  {
    var rest := LayLine(ps[1..]) + more;
    NextStarts(ps);
    OneBlock(acc, ps[0], rest);
    Regroup(Lay(ps[0]), FlatMap(Lay, ps[1..]), "\n", more);
  }

  /** Layout round trip: any acceptable layout of a token sequence, however spaced and broken over
      lines, is read as exactly those tokens with those words, and the input is left behind the
      line. */
  lemma LayoutRoundTrip(lead: string, ps: seq<Piece>, more: string)
    requires LineOk(ps) && 0 < |ps| < TOKEN_MAX && !Continues(BlockOf(ps[|ps| - 1]))
    requires AllSpace(lead)
    ensures ReadLine([], lead + (LayLine(ps) + more)) == Line(BlocksOf(ps) + [EOL_BLOCK], more)
  {
    ReadsOn([], ps, more);
    assert [] + BlocksOf(ps) == BlocksOf(ps);
    LeadDropped(lead, LayLine(ps) + more);
  }

  lemma LeadDropped(lead: string, s: string)
    requires AllSpace(lead) && s != []
    ensures ReadLine([], lead + s) == ReadLine([], s)
  {
    SpaceDropped([], lead, s);
  }

  lemma NextStarts(ps: seq<Piece>)
    requires LineOk(ps) && ps != []
    ensures LayLine(ps[1..]) != []
    ensures ps[0].Command? ==> IsSpecial(LayLine(ps[1..])[0])
    ensures ps[0].Operator? && ps[0].kind == RedirOut && ps[0].gap == [] ==> LayLine(ps[1..])[0] != '>'
  {
  }
}
