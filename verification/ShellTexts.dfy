/** Lines as they are typed, from the text to what is started. */
module ShellTexts {
  import opened Seqs
  import opened ShellLine
  import opened ShellLexer
  import opened ShellParse
  import opened ShellRoundTrip
  import opened ShellExec
  import opened ShellCommand

  /** A word a shell user would take for one: neither blanks nor any of `<`, `>`, `|`, `&`, line ends
      and NUL, and short enough for the token buffer. */
  ghost predicate Plain(w: string) {
    0 < |w| < 200 && forall i :: 0 <= i < |w| ==> w[i] !in {' ', '\t', '<', '>', '|', '&', '\n', '\r', '\0'}
  }

  function OneWord(w: string, gap: string): Piece {
    Command([Spaced(w, gap)])
  }

  lemma OneWordLaid(w: string, gap: string)
    ensures Lay(OneWord(w, gap)) == w + gap
  {
    FlatMapOne(LayWord, Spaced(w, gap));
  }

  lemma OneWordOk(w: string, gap: string)
    requires Plain(w) && (gap == [] || gap == " ")
    ensures PieceOk(OneWord(w, gap))
  {
    OneWordLaid(w, gap);
  }

  /** Two words around an operator, as typed. */
  function Typed(a: string, op: string, b: string): string {
    a + " " + op + " " + b + "\n"
  }

  function Around(a: string, k: Kind, b: string): seq<Piece> {
    [OneWord(a, " "), Operator(k, " "), OneWord(b, [])]
  }

  /** The blocks of such a line, the operator followed by `dir`. */
  function Three(a: string, k: Kind, dir: string, kind: Kind, b: string): seq<Block> {
    [Block(Normal, [a], []), Block(k, [], dir), Block(kind, [b], []), Block(Eol, [], [])]
  }

  /** Which token each operator is. */
  predicate Means(op: string, k: Kind) {
    || (op == "<" && k == RedirIn) || (op == ">" && k == RedirOut) || (op == ">>" && k == RedirAppend)
    || (op == "|" && k == Pipe)
  }

  lemma TwoWordsRead(a: string, op: string, k: Kind, b: string, more: string)
    requires Plain(a) && Plain(b) && Means(op, k)
    ensures ReadLine([], Typed(a, op, b) + more) == Line(Three(a, k, [], Normal, b), more)
  {
    AroundOk(a, k, b);
    LaidAround(a, op, k, b);
    LayoutRoundTrip([], Around(a, k, b), more);
    assert [] + (Typed(a, op, b) + more) == Typed(a, op, b) + more;
    BlocksAround(a, k, b);
  }

  lemma BlocksAround(a: string, k: Kind, b: string)
    ensures BlocksOf(Around(a, k, b)) + [EOL_BLOCK] == Three(a, k, [], Normal, b)
  {
    assert WordsOf([Spaced(a, " ")]) == [a] && WordsOf([Spaced(b, [])]) == [b];
  }

  lemma AroundOk(a: string, k: Kind, b: string)
    requires Plain(a) && Plain(b) && k in {RedirIn, RedirOut, RedirAppend, Pipe}
    ensures LineOk(Around(a, k, b)) && !Continues(BlockOf(OneWord(b, [])))
  {
    OneWordOk(a, " ");
    OneWordOk(b, []);
  }

  lemma LaidAround(a: string, op: string, k: Kind, b: string)
    requires Symbol(k) == op
    ensures LayLine(Around(a, k, b)) == Typed(a, op, b)
  {
    var x, y, z := OneWord(a, " "), Operator(k, " "), OneWord(b, []);
    OneWordLaid(a, " ");
    OneWordLaid(b, []);
    FlatMapCons(Lay, x, [y, z]);
    FlatMapCons(Lay, y, [z]);
    FlatMapOne(Lay, z);
    assert [x] + [y, z] == [x, y, z] && [y] + [z] == [y, z];
  }

  /** What a line of text does, started with the given descriptors and with every file to be had. */
  ghost predicate Does(text: string, ctx: Context, started: seq<Started>, opens: seq<Desc>) {
    AcceptedLine(ReadLine([], text)) &&
    var line := Marked(ReadLine([], text).blocks);
    line[0].kind == Normal &&
    var e := Exec(line, {}, |line|, ctx);
    e.ok && e.started == started && e.opens == opens
  }

  /** `a < w` reads the file `w`. */
  lemma InputText(a: string, w: string, ctx: Context)
    requires Plain(a) && Plain(w)
    ensures Does(Typed(a, "<", w), ctx, [Started(0, File(w, Reading), ctx.fd1)], [File(w, Reading)])
  {
    RedirectedText(a, "<", RedirIn, w, ctx);
  }

  /** `a > w` empties it and writes to it. */
  lemma OutputText(a: string, w: string, ctx: Context)
    requires Plain(a) && Plain(w)
    ensures Does(Typed(a, ">", w), ctx, [Started(0, ctx.fd0, File(w, Truncating))], [File(w, Truncating)])
  {
    RedirectedText(a, ">", RedirOut, w, ctx);
  }

  /** `a >> w` writes at its end. */
  lemma AppendText(a: string, w: string, ctx: Context)
    requires Plain(a) && Plain(w)
    ensures Does(Typed(a, ">>", w), ctx, [Started(0, ctx.fd0, File(w, Appending))], [File(w, Appending)])
  {
    RedirectedText(a, ">>", RedirAppend, w, ctx);
  }

  /** `a | b` starts `b`, which reads the pipe that `a` writes to, and then `a`. */
  lemma PipeText(a: string, b: string, ctx: Context)
    requires Plain(a) && Plain(b)
    ensures Does(Typed(a, "|", b), ctx,
                 [Started(2, PipeRead(ctx.pipes), ctx.fd1), Started(0, ctx.fd0, PipeWrite(ctx.pipes))], [])
  {
    TextIs(a, "|", Pipe, b);
    PipedMarked(a, b);
    PipedStarts(a, b, ctx);
  }

  lemma RedirectedText(a: string, op: string, k: Kind, w: string, ctx: Context)
    requires Plain(a) && Plain(w) && Means(op, k) && k != Pipe
    ensures var f := File(w, if k == RedirIn then Reading else if k == RedirOut then Truncating else Appending);
            Does(Typed(a, op, w), ctx,
                 [Started(0, if k == RedirIn then f else ctx.fd0, if k == RedirIn then ctx.fd1 else f)], [f])
  {
    TextIs(a, op, k, w);
    RedirectedMarked(a, k, w);
    RedirectedStarts(a, k, w, ctx);
  }

  lemma TextIs(a: string, op: string, k: Kind, b: string)
    requires Plain(a) && Plain(b) && Means(op, k)
    ensures ReadLine([], Typed(a, op, b)) == Line(Three(a, k, [], Normal, b), [])
  {
    TwoWordsRead(a, op, k, b, []);
    assert Typed(a, op, b) + [] == Typed(a, op, b);
  }

  lemma RedirectedMarked(a: string, k: Kind, w: string)
    requires k in {RedirIn, RedirOut, RedirAppend}
    ensures Accepted(Three(a, k, [], Normal, w)) && Marked(Three(a, k, [], Normal, w)) == Three(a, k, w, Target, w)
  {
  }

  lemma PipedMarked(a: string, b: string)
    ensures var bs := Three(a, Pipe, [], Normal, b); Accepted(bs) && Marked(bs) == bs
  {
  }

  // ---------------------------------------------------------------- scanning, block by block

  lemma AtCommand(line: seq<Block>, n: nat, fd0: Desc, fd1: Desc)
    requires 0 < n <= |line| && line[0].kind == Normal && line[n - 1].kind == Normal
    ensures Scan(line, {}, n, fd0, fd1) == Scanned(n - 1, fd0, fd1, [], true)
  {
  }

  lemma AtOther(line: seq<Block>, n: nat, fd0: Desc, fd1: Desc)
    requires 1 < n <= |line| && line[0].kind == Normal
    requires line[n - 1].kind in {Target, Pipe, Background, Eol, Eof, Error}
    ensures Scan(line, {}, n, fd0, fd1) == Scan(line, {}, n - 1, fd0, fd1)
  {
    assert [] + Scan(line, {}, n - 1, fd0, fd1).opens == Scan(line, {}, n - 1, fd0, fd1).opens;
  }

  /** The last command of a line, and what is left of it. */
  lemma LastStarted(line: seq<Block>, n: nat, ctx: Context, r: Scanned)
    requires 0 < n <= |line| && line[0].kind == Normal && Scan(line, {}, n, ctx.fd0, ctx.fd1) == r && r.ok && r.c == 0
    ensures var e := Exec(line, {}, n, ctx);
            e.ok && e.opens == r.opens && e.started == [Started(0, r.fd0, r.fd1)]
  {
    assert Exec(line, {}, 0, Context(r.fd0, PipeWrite(ctx.pipes), ctx.pipes + 1)) ==
           Outcome([], [], true, PipeWrite(ctx.pipes));
    assert r.opens + [] == r.opens;
  }

  lemma RedirectedStarts(a: string, k: Kind, w: string, ctx: Context)
    requires k in {RedirIn, RedirOut, RedirAppend}
    ensures var f := File(w, if k == RedirIn then Reading else if k == RedirOut then Truncating else Appending);
            var e := Exec(Three(a, k, w, Target, w), {}, 4, ctx);
            && e.ok && e.opens == [f]
            && e.started == [Started(0, if k == RedirIn then f else ctx.fd0, if k == RedirIn then ctx.fd1 else f)]
  {
    var line := Three(a, k, w, Target, w);
    var f := File(w, if k == RedirIn then Reading else if k == RedirOut then Truncating else Appending);
    var fd0, fd1 := if k == RedirIn then f else ctx.fd0, if k == RedirIn then ctx.fd1 else f;
    AtOther(line, 4, ctx.fd0, ctx.fd1);
    AtOther(line, 3, ctx.fd0, ctx.fd1);
    AtCommand(line, 1, fd0, fd1);
    AtRedirection(line, 2, ctx.fd0, ctx.fd1, f);
    LastStarted(line, 4, ctx, Scanned(0, fd0, fd1, [f], true));
  }

  lemma AtRedirection(line: seq<Block>, n: nat, fd0: Desc, fd1: Desc, f: Desc)
    requires 1 < n <= |line| && line[0].kind == Normal && line[n - 1].kind in {RedirIn, RedirOut, RedirAppend}
    requires f == File(line[n - 1].dir, if line[n - 1].kind == RedirIn then Reading
                                        else if line[n - 1].kind == RedirOut then Truncating else Appending)
    ensures var input := line[n - 1].kind == RedirIn;
            var r := Scan(line, {}, n - 1, if input then f else fd0, if input then fd1 else f);
            Scan(line, {}, n, fd0, fd1) == r.(opens := [f] + r.opens)
  {
  }

  lemma PipedStarts(a: string, b: string, ctx: Context)
    ensures var e := Exec(Three(a, Pipe, [], Normal, b), {}, 4, ctx);
            && e.ok && e.opens == []
            && e.started == [Started(2, PipeRead(ctx.pipes), ctx.fd1), Started(0, ctx.fd0, PipeWrite(ctx.pipes))]
  {
    var line, out := Three(a, Pipe, [], Normal, b), PipeWrite(ctx.pipes);
    var rest := Context(ctx.fd0, out, ctx.pipes + 1);
    AtCommand(line, 1, ctx.fd0, out);
    AtOther(line, 2, ctx.fd0, out);
    LastStarted(line, 2, rest, Scanned(0, ctx.fd0, out, [], true));
    AtCommand(line, 3, ctx.fd0, ctx.fd1);
    AtOther(line, 4, ctx.fd0, ctx.fd1);
    OneStarted(line, 4, ctx, Scanned(2, ctx.fd0, ctx.fd1, [], true), Exec(line, {}, 2, rest));
  }

  lemma OneStarted(line: seq<Block>, n: nat, ctx: Context, r: Scanned, left: Outcome)
    requires 0 < n <= |line| && line[0].kind == Normal && Scan(line, {}, n, ctx.fd0, ctx.fd1) == r && r.ok && r.c > 0
    requires left == Exec(line, {}, r.c, Context(r.fd0, PipeWrite(ctx.pipes), ctx.pipes + 1))
    ensures Exec(line, {}, n, ctx) ==
              Outcome([Started(r.c, PipeRead(ctx.pipes), r.fd1)] + left.started, r.opens + left.opens,
                      left.ok, left.out)
  {
  }

  // ---------------------------------------------------------------- the background

  /** `a &` starts `a`, in the background. */
  lemma BackgroundText(a: string, ctx: Context)
    requires Plain(a)
    ensures Does(a + " &\n", ctx, [Started(0, ctx.fd0, ctx.fd1)], [])
    ensures var bs := ReadLine([], a + " &\n").blocks; |bs| == 3 && bs[1].kind == Background
  {
    var bs := [Block(Normal, [a], []), Block(Background, [], []), Block(Eol, [], [])];
    BackgroundRead(a);
    assert Marked(bs) == bs;
    AtCommand(bs, 1, ctx.fd0, ctx.fd1);
    AtOther(bs, 2, ctx.fd0, ctx.fd1);
    AtOther(bs, 3, ctx.fd0, ctx.fd1);
    LastStarted(bs, 3, ctx, Scanned(0, ctx.fd0, ctx.fd1, [], true));
  }

  lemma BackgroundRead(a: string)
    requires Plain(a)
    ensures ReadLine([], a + " &\n") ==
              Line([Block(Normal, [a], []), Block(Background, [], []), Block(Eol, [], [])], [])
  {
    var ps := [OneWord(a, " "), Operator(Background, [])];
    OneWordOk(a, " ");
    BackgroundLaid(a);
    LayoutRoundTrip([], ps, []);
    assert [] + (LayLine(ps) + []) == a + " &\n";
    BackgroundBlocks(a);
  }

  lemma BackgroundLaid(a: string)
    ensures LayLine([OneWord(a, " "), Operator(Background, [])]) == a + " &\n"
  {
    var x, y := OneWord(a, " "), Operator(Background, []);
    OneWordLaid(a, " ");
    FlatMapCons(Lay, x, [y]);
    FlatMapOne(Lay, y);
    assert [x] + [y] == [x, y];
  }

  lemma BackgroundBlocks(a: string)
    ensures BlocksOf([OneWord(a, " "), Operator(Background, [])]) + [EOL_BLOCK] ==
            [Block(Normal, [a], []), Block(Background, [], []), Block(Eol, [], [])]
  {
    assert WordsOf([Spaced(a, " ")]) == [a];
  }

  // ---------------------------------------------------------------- the end of the input

  /** Input that ends before anything but blanks and line ends is read forever. */
  lemma {:induction false} NothingTyped(gap: string)
    requires AllSpace(gap)
    ensures ReadLine([], gap) == Endless
  {
    if gap == [] {
    } else {
      assert gap == [gap[0]] + gap[1..];
      NothingTyped(gap[1..]);
      if IsBlank(gap[0]) {
        BlankSkipped(gap);
      } else {
        NewlineSkipped([], gap[0], gap[1..]);
      }
    }
  }

  lemma BlankSkipped(s: string)
    requires s != [] && IsBlank(s[0]) && ReadLine([], s[1..]) == Endless
    ensures ReadLine([], s) == Endless
  {
    assert Lex(s, TOKEN_LEN) == Lex(s[1..], TOKEN_LEN);
  }

  /** Input that ends inside the first token makes the program leave its arrays. */
  lemma WordAtEnd(w: string)
    requires Plain(w)
    ensures ReadLine([], w) == Undefined
  {
    assert PlainPrefix(w) == |w|;
    assert SkipBlanks(w) == w;
    assert Lex(w, TOKEN_LEN) == Token(Error, w, []);
  }

  /** Input that ends in a `>` is a line: what stands in front is started, and nothing opened. */
  lemma GreaterAtEnd(a: string, ctx: Context)
    requires Plain(a)
    ensures ReadLine([], a + " >") == Line([Block(Normal, [a], []), Block(Error, [], [])], [])
    ensures Does(a + " >", ctx, [Started(0, ctx.fd0, ctx.fd1)], [])
  {
    var bs := [Block(Normal, [a], []), Block(Error, [], [])];
    GreaterRead(a);
    assert Marked(bs) == bs;
    AtCommand(bs, 1, ctx.fd0, ctx.fd1);
    AtOther(bs, 2, ctx.fd0, ctx.fd1);
    LastStarted(bs, 2, ctx, Scanned(0, ctx.fd0, ctx.fd1, [], true));
  }

  lemma GreaterRead(a: string)
    requires Plain(a)
    ensures ReadLine([], a + " >") == Line([Block(Normal, [a], []), Block(Error, [], [])], [])
  {
    var acc := [Block(Normal, [a], [])];
    OneWordOk(a, " ");
    OneWordLaid(a, " ");
    OneBlock([], OneWord(a, " "), ">");
    assert WordsOf([Spaced(a, " ")]) == [a];
    assert a + " " + ">" == a + " >";
    assert [] + acc == acc;
    GreaterEnds(acc);
    assert acc + [Block(Error, [], [])] == [Block(Normal, [a], []), Block(Error, [], [])];
  }

  lemma GreaterEnds(acc: seq<Block>)
    requires 0 < |acc| < TOKEN_MAX && !Continues(acc[|acc| - 1])
    ensures ReadLine(acc, ">") == Line(acc + [Block(Error, [], [])], [])
  {
    assert Lex(">", TOKEN_LEN) == Token(Error, [], []);
    assert Words([]) == [];
  }

  // ---------------------------------------------------------------- the limits

  /** No character of the token table. */
  ghost predicate Unspecial(s: string) {
    forall i :: 0 <= i < |s| ==> s[i] !in {'<', '>', '|', '&', '\n', '\r'}
  }

  /** A token of 256 characters or more, wherever it stands, makes the program leave its arrays. */
  lemma TokenTooLong(acc: seq<Block>, w: string, more: string)
    requires |w| >= 256 && Unspecial(w) && !IsBlank(w[0])
    ensures ReadLine(acc, w + more) == Undefined
  {
    var s := w + more;
    assert s[0] == w[0] && SkipBlanks(s) == s;
    assert PlainPrefix(s) >= |w| by {
      assert forall i :: 0 <= i < |w| ==> s[i] == w[i];
    }
  }

  /** So does a token of 64 words or more, */
  lemma TooManyWords(ws: seq<Spaced>, more: string)
    requires WellSpaced(ws) && |ws| >= 64 && |Lay(Command(ws))| < 256 && more != [] && IsSpecial(more[0])
    ensures ReadLine([], Lay(Command(ws)) + more) == Undefined
  {
    LexCommand(ws, more);
    WordsOfLaid(ws);
  }

  /** and a line of more than 255 tokens. */
  lemma {:induction false} TooManyTokens(acc: seq<Block>, ps: seq<Piece>, more: string)
    requires LineOk(ps) && |acc| <= 256 && |acc| + |ps| >= 256
    ensures ReadLine(acc, LayLine(ps) + more) == Undefined
    decreases |ps|
  {
    if |acc| == 256 {
    } else if |acc| == 255 {
      LastToken(acc, ps, more);
    } else {
      StillOk(ps);
      FirstPiece(acc, ps, more);
      TooManyTokens(acc + [BlockOf(ps[0])], ps[1..], more);
    }
  }

  lemma LastToken(acc: seq<Block>, ps: seq<Piece>, more: string)
    requires LineOk(ps) && |acc| == 255 && ps != []
    ensures ReadLine(acc, LayLine(ps) + more) == Undefined
  {
    var rest := LayLine(ps[1..]) + more;
    NextStarts(ps);
    Regroup(Lay(ps[0]), FlatMap(Lay, ps[1..]), "\n", more);
    match ps[0] {
      case Command(ws) =>
        LexCommand(ws, rest);
        WordsOfLaid(ws);
        OneToken(acc, Lay(ps[0]) + rest, Token(Normal, Lay(ps[0]), rest));
      case Operator(k, gap) =>
        LexOperator(k, gap, rest);
        assert Words([]) == [];
        OneToken(acc, Lay(ps[0]) + rest, Token(k, [], gap + rest));
    }
  }
}
