/** Reading a command line into blocks, with continuation, and checking its redirections. */
module ShellParse {
  import opened Seqs
  import opened ShellLine
  import opened ShellLexer

  const TOKEN_LEN := 256
  const TOKEN_MAX := 256
  const NARGS := 64

  /** A line that ends in one of these goes on behind the newline. */
  predicate Continues(b: Block) {
    b.kind == RedirIn || b.kind == RedirOut || b.kind == RedirAppend || b.kind == Pipe
  }

  /** A newline behind these blocks does not end the line. */
  predicate GoesOn(bs: seq<Block>) {
    bs == [] || Continues(bs[|bs| - 1])
  }

  function ReadBlock(t: Token): Block {
    Block(t.kind, Words(t.text), [])
  }

  /** What becomes of reading: a line; or the end of the input is read again and again; or memory
      outside the line's arrays is used, because a token is too long or has too many words, there
      are too many tokens, or the input ends inside the first. */
  datatype Line = Line(blocks: seq<Block>, rest: string) | Endless | Undefined

  /** A token that ends a line if anything does. */
  predicate Ends(k: Kind) {
    k == Eol || k == Eof || k == Error
  }

  /** The line at the start of `s`, `acc` being read already. It ends at a newline, at the end of the
      input, or at a token the input ends in, unless that stands in front of it or behind a
      redirection or pipe; there a newline is dropped. */
  function ReadLine(acc: seq<Block>, s: string): Line
    decreases |s|
  {
    var t := Lex(s, TOKEN_LEN);
    var b := ReadBlock(t);
    if |acc| >= TOKEN_MAX || (b.kind == Error && |t.text| >= TOKEN_LEN) || |b.words| >= NARGS then Undefined
    else if !Ends(b.kind) then ReadLine(acc + [b], t.rest)
    else if !GoesOn(acc) then Line(acc + [b], t.rest)
    else if b.kind == Eol then ReadLine(acc, t.rest)
    else if b.kind == Error && acc == [] then Undefined
    else Endless
  }

  /** All tokens of the input, one after the other, the end of the input included. */
  function TokenStream(s: string): seq<Block>
    decreases |s|
  {
    [ReadBlock(Lex(s, TOKEN_LEN))] + if s == [] then [] else TokenStream(Lex(s, TOKEN_LEN).rest)
  }

  /** The tokens read for a line, newlines included. */
  function TokensRead(acc: seq<Block>, s: string): seq<Block>
    decreases |s|
  {
    var t := Lex(s, TOKEN_LEN);
    var b := ReadBlock(t);
    if |acc| >= TOKEN_MAX then []
    else if !Ends(b.kind) then [b] + TokensRead(acc + [b], t.rest)
    else if GoesOn(acc) && b.kind == Eol then [b] + TokensRead(acc, t.rest)
    else [b]
  }

  function DropEols(b: Block): seq<Block> {
    if b.kind == Eol then [] else [b]
  }

  ghost predicate NoEnds(bs: seq<Block>) {
    forall i :: 0 <= i < |bs| ==> !Ends(bs[i].kind)
  }

  /** The blocks end in their only newline or end of input, which follows neither a redirection nor
      a pipe. */
  ghost predicate EndsOnce(bs: seq<Block>) {
    |bs| >= 2 && NoEnds(bs[..|bs| - 1]) && Ends(bs[|bs| - 1].kind) && !Continues(bs[|bs| - 2])
  }

  lemma {:induction false} LineShape(acc: seq<Block>, s: string)
    requires ReadLine(acc, s).Line? && NoEnds(acc)
    ensures EndsOnce(ReadLine(acc, s).blocks)
    decreases |s|
  {
    var t := Lex(s, TOKEN_LEN);
    var b := ReadBlock(t);
    if !Ends(b.kind) {
      OneMore(acc, b);
      LineShape(acc + [b], t.rest);
    } else if GoesOn(acc) {
      LineShape(acc, t.rest);
    } else {
      EndedOnce(acc, b);
    }
  }

  lemma OneMore(acc: seq<Block>, b: Block)
    requires NoEnds(acc) && !Ends(b.kind)
    ensures NoEnds(acc + [b])
  {
  }

  lemma EndedOnce(acc: seq<Block>, b: Block)
    requires NoEnds(acc) && !GoesOn(acc) && Ends(b.kind)
    ensures EndsOnce(acc + [b])
  {
    assert (acc + [b])[..|acc|] == acc;
  }

  /** A line consists of all the tokens read for it, without the newlines in front of the last. */
  lemma {:induction false} LineIsTokens(acc: seq<Block>, s: string)
    requires ReadLine(acc, s).Line?
    ensures TokensRead(acc, s) != [] && ReadLine(acc, s).blocks == Tokens(acc, TokensRead(acc, s))
    decreases |s|
  {
    var t := Lex(s, TOKEN_LEN);
    var b := ReadBlock(t);
    if !Ends(b.kind) {
      LineIsTokens(acc + [b], t.rest);
      TokenKept(acc, b, TokensRead(acc + [b], t.rest));
    } else if GoesOn(acc) {
      LineIsTokens(acc, t.rest);
      TokenDropped(acc, b, TokensRead(acc, t.rest));
    } else {
      LastToken(acc, b);
    }
  }

  /** The tokens read for a line are the first ones of the input. */
  lemma {:induction false} ReadsFirstTokens(acc: seq<Block>, s: string)
    ensures TokensRead(acc, s) <= TokenStream(s)
    decreases |s|
  {
    var t := Lex(s, TOKEN_LEN);
    var b := ReadBlock(t);
    if |acc| < TOKEN_MAX {
      if !Ends(b.kind) {
        ReadsFirstTokens(acc + [b], t.rest);
      } else if GoesOn(acc) && b.kind == Eol {
        ReadsFirstTokens(acc, t.rest);
      }
    }
  }

  /** The blocks read before token `i` of a line. */
  function BlocksBefore(acc: seq<Block>, ts: seq<Block>, i: nat): seq<Block>
    requires i <= |ts|
  {
    acc + FlatMap(DropEols, ts[..i])
  }

  /** A newline is dropped exactly when nothing, or a redirection or pipe, stands before it; any
      other newline ends the line. */
  lemma {:induction false} NewlineDropped(acc: seq<Block>, s: string, i: nat)
    requires ReadLine(acc, s).Line?
    requires i < |TokensRead(acc, s)| && TokensRead(acc, s)[i].kind == Eol
    ensures GoesOn(BlocksBefore(acc, TokensRead(acc, s), i)) <==> i < |TokensRead(acc, s)| - 1
    decreases |s|
  {
    var t := Lex(s, TOKEN_LEN);
    var b := ReadBlock(t);
    ReadOn(acc, s);
    if i == 0 {
      FirstNewline(acc, s);
    } else if !Ends(b.kind) {
      NewlineDropped(acc + [b], t.rest, i - 1);
      LaterNewline(acc, b, TokensRead(acc + [b], t.rest), i);
    } else {
      NewlineDropped(acc, t.rest, i - 1);
      LaterNewline(acc, b, TokensRead(acc, t.rest), i);
    }
  }

  lemma FirstNewline(acc: seq<Block>, s: string)
    requires ReadLine(acc, s).Line? && TokensRead(acc, s) != [] && TokensRead(acc, s)[0].kind == Eol
    ensures GoesOn(BlocksBefore(acc, TokensRead(acc, s), 0)) <==> 0 < |TokensRead(acc, s)| - 1
  {
    ReadOn(acc, s);
    assert acc + [] == acc;
    if GoesOn(acc) { SomeRead(acc, Lex(s, TOKEN_LEN).rest); }
  }

  lemma LaterNewline(acc: seq<Block>, b: Block, ts: seq<Block>, i: nat)
    requires 0 < i <= |ts|
    requires GoesOn(BlocksBefore(if b.kind == Eol then acc else acc + [b], ts, i - 1)) <==> i - 1 < |ts| - 1
    ensures GoesOn(BlocksBefore(acc, [b] + ts, i)) <==> i < |[b] + ts| - 1
  {
    ShiftBefore(acc, b, ts, i);
  }

  /** How reading a line goes on behind its first token. */
  lemma ReadOn(acc: seq<Block>, s: string)
    requires ReadLine(acc, s).Line?
    ensures var t := Lex(s, TOKEN_LEN);
            var b := ReadBlock(t);
            if !Ends(b.kind) then
              ReadLine(acc + [b], t.rest).Line? && TokensRead(acc, s) == [b] + TokensRead(acc + [b], t.rest)
            else if GoesOn(acc) then
              b.kind == Eol && ReadLine(acc, t.rest).Line? && TokensRead(acc, s) == [b] + TokensRead(acc, t.rest)
            else
              TokensRead(acc, s) == [b]
  {
  }

  lemma SomeRead(acc: seq<Block>, s: string)
    requires ReadLine(acc, s).Line?
    ensures TokensRead(acc, s) != []
  {
  }

  lemma ShiftBefore(acc: seq<Block>, b: Block, ts: seq<Block>, i: nat)
    requires 0 < i <= |ts| + 1
    ensures BlocksBefore(acc, [b] + ts, i) == BlocksBefore(if b.kind == Eol then acc else acc + [b], ts, i - 1)
  {
    assert ([b] + ts)[..i] == [b] + ts[..i - 1];
    FlatMapCons(DropEols, b, ts[..i - 1]);
    Associate(acc, [b], FlatMap(DropEols, ts[..i - 1]));
  }

  /** Blocks read already, the tokens that follow but the newlines, and the last token. */
  function Tokens(acc: seq<Block>, ts: seq<Block>): seq<Block>
    requires ts != []
  {
    BlocksBefore(acc, ts, |ts| - 1) + [ts[|ts| - 1]]
  }

  lemma TokenKept(acc: seq<Block>, b: Block, ts: seq<Block>)
    requires b.kind != Eol && ts != []
    ensures Tokens(acc + [b], ts) == Tokens(acc, [b] + ts)
  {
    ShiftBefore(acc, b, ts, |ts|);
  }

  lemma TokenDropped(acc: seq<Block>, b: Block, ts: seq<Block>)
    requires b.kind == Eol && ts != []
    ensures Tokens(acc, ts) == Tokens(acc, [b] + ts)
  {
    ShiftBefore(acc, b, ts, |ts|);
  }

  lemma LastToken(acc: seq<Block>, b: Block)
    ensures Tokens(acc, [b]) == acc + [b]
  {
    assert acc + [] == acc;
  }

  /** Only a command block, or the token the input ends in, has words. */
  ghost predicate WordsMatchKind(b: Block) {
    b.words != [] ==> b.kind == Normal || b.kind == Error
  }

  lemma {:induction false} LineWords(acc: seq<Block>, s: string)
    requires ReadLine(acc, s).Line?
    requires forall i :: 0 <= i < |acc| ==> WordsMatchKind(acc[i]) && acc[i].kind != Target
    ensures var bs := ReadLine(acc, s).blocks;
            forall i :: 0 <= i < |bs| ==> WordsMatchKind(bs[i]) && bs[i].kind != Target
    decreases |s|
  {
    var t := Lex(s, TOKEN_LEN);
    var b := ReadBlock(t);
    assert WordsMatchKind(b) && b.kind != Target by {
      assert t.kind != Normal && t.kind != Error ==> t.text == [];
      assert Words([]) == [];
    }
    if !Ends(b.kind) {
      LineWords(acc + [b], t.rest);
    } else if GoesOn(acc) {
      LineWords(acc, t.rest);
    }
  }

  // ---------------------------------------------------------------- checking redirections

  /** What the parser accepts: the line starts with words, every redirection stands between two
      commands, and `&` stands only before the end of the line. */
  predicate Accepted(bs: seq<Block>) {
    && bs != [] && bs[0].words != []
    && forall i :: 1 <= i < |bs| - 1 ==> BlockAccepted(bs, i)
  }

  predicate BlockAccepted(bs: seq<Block>, i: nat)
    requires 1 <= i < |bs| - 1
  {
    && (IsRedirection(bs[i]) ==> bs[i - 1].kind == Normal && bs[i + 1].kind == Normal)
    && (bs[i].kind == Background ==> i == |bs| - 2)
  }

  /** Which lines that can be read are accepted: they begin with words, every `<`, `>` and `>>` stands
      between two command tokens, and `&` stands last before the end. */
  lemma AcceptedExactly(bs: seq<Block>)
    requires EndsOnce(bs) && forall i :: 0 <= i < |bs| ==> WordsMatchKind(bs[i])
    ensures Accepted(bs) <==>
              && bs[0].words != []
              && (forall i :: 0 <= i < |bs| && bs[i].kind in {RedirIn, RedirOut, RedirAppend} ==>
                    0 < i && i + 1 < |bs| && bs[i - 1].kind == Normal && bs[i + 1].kind == Normal)
              && (forall i :: 0 <= i < |bs| && bs[i].kind == Background ==> i == |bs| - 2)
  {
    if Accepted(bs) {
      forall i | 0 <= i < |bs| && bs[i].kind in {RedirIn, RedirOut, RedirAppend, Background}
        ensures 1 <= i < |bs| - 1 && BlockAccepted(bs, i)
      {
      }
    } else if bs[0].words != [] {
      var i :| 1 <= i < |bs| - 1 && !BlockAccepted(bs, i);
      assert IsRedirection(bs[i]) || bs[i].kind == Background;
    }
  }

  function FirstWord(b: Block): string {
    if b.words == [] then [] else b.words[0]
  }

  predicate Redirects(bs: seq<Block>, i: int) {
    1 <= i < |bs| - 1 && IsRedirection(bs[i])
  }

  /** The line as the parser leaves it: the block behind each redirection is its target, and the
      redirection holds the target's first word. */
  function Marked(bs: seq<Block>): (r: seq<Block>)
    ensures |r| == |bs| && forall i :: 0 <= i < |bs| ==> r[i] == MarkedBlock(bs, i)
  {
    seq(|bs|, i requires 0 <= i < |bs| => MarkedBlock(bs, i))
  }

  function MarkedBlock(bs: seq<Block>, i: nat): Block
    requires i < |bs|
  {
    Block(if Redirects(bs, i - 1) then Target else bs[i].kind, bs[i].words,
          if Redirects(bs, i) then FirstWord(bs[i + 1]) else bs[i].dir)
  }

  /** An accepted line is fit for execution: it starts with a command, and exactly the blocks
      behind redirections are marked as their targets. */
  lemma AcceptedIsExecutable(bs: seq<Block>)
    requires Accepted(bs) && bs[0].kind != Error
    requires forall i :: 0 <= i < |bs| ==> WordsMatchKind(bs[i]) && bs[i].kind != Target
    ensures Marked(bs)[0].kind == Normal
    ensures forall i :: 0 <= i < |bs| ==> (Marked(bs)[i].kind == Target <==> Redirects(bs, i - 1))
    ensures forall i :: Redirects(bs, i) ==> IsRedirection(Marked(bs)[i]) && Marked(bs)[i].dir == FirstWord(bs[i + 1])
  {
    forall i | Redirects(bs, i) ensures IsRedirection(Marked(bs)[i]) {
      assert Redirects(bs, i - 1) ==> BlockAccepted(bs, i - 1);
    }
  }

  // ---------------------------------------------------------------- the program

  /** The words of a token, split inside a buffer of its own. */
  method Split(text: string) returns (words: seq<string>)
    ensures words == Words(text)
  {
    var buf := Buffer(text);
    TerminatorIgnored(text, []);
    assert text + "\0" + [] == text + "\0";
    ghost var ws := Words(buf[..]);
    var argv := GetArgs(buf);
    words := Arguments(buf, argv, ws);
  }

  /** The token as a C string. */
  method Buffer(text: string) returns (buf: array<char>)
    ensures fresh(buf) && buf[..] == text + "\0"
  {
    buf := new char[|text| + 1];
    for i := 0 to |text|
      invariant forall j :: 0 <= j < i ==> buf[j] == text[j]
    {
      buf[i] := text[i];
    }
    buf[|text|] := '\0';
  }

  method Arguments(buf: array<char>, argv: seq<nat>, ghost ws: seq<string>) returns (words: seq<string>)
    requires |argv| == |ws| && forall k :: 0 <= k < |argv| ==> WordAt(buf[..], argv[k], ws[k])
    ensures words == ws
  {
    words := [];
    for k := 0 to |argv|
      invariant words == ws[..k]
    {
      var w := CString(buf, argv[k], ws[k]);
      assert ws[..k + 1] == ws[..k] + [ws[k]];
      words := words + [w];
    }
    assert ws[..|argv|] == ws;
  }

  method CString(buf: array<char>, at: nat, ghost w: string) returns (r: string)
    requires WordAt(buf[..], at, w)
    ensures r == w
  {
    assert forall j :: 0 <= j < |w| ==> w[j] == buf[at..at + |w|][j];
    var end := at;
    while buf[end] != '\0'
      invariant at <= end <= at + |w|
      decreases at + |w| - end
    {
      end := end + 1;
    }
    r := buf[at..end];
  }

  /** A terminator behind a string changes none of its words. */
  lemma {:induction false} TerminatorIgnored(s: string, tail: string)
    ensures Words(s + "\0" + tail) == Words(s)
    decreases |s|
  {
    var z := s + "\0" + tail;
    SkipToTerminator(s, tail);
    var t := SkipBlanks(s);
    if t != [] && t[0] != '\0' {
      var n := WordLength(t);
      var u := t + "\0" + tail;
      assert WordLength(u) == n by {
        assert forall i :: 0 <= i < n ==> u[i] == t[i];
        assert u[n] == if n < |t| then t[n] else '\0';
      }
      assert u[..n] == t[..n] && u[n..] == t[n..] + "\0" + tail;
      TerminatorIgnored(t[n..], tail);
    }
  }

  lemma {:induction false} SkipToTerminator(s: string, tail: string)
    ensures SkipBlanks(s + "\0" + tail) == SkipBlanks(s) + "\0" + tail
  {
    var z := s + "\0" + tail;
    if s != [] && IsBlank(s[0]) {
      assert z[1..] == s[1..] + "\0" + tail;
      SkipToTerminator(s[1..], tail);
    }
  }

  datatype Status = GotLine | ReadsForever | Overrun

  class Shell {
    const input: Input
    const blocks: array<Block>
    var nblock: nat
    var bg: bool

    constructor (input: Input)
      ensures this.input == input && blocks.Length == TOKEN_MAX && fresh(blocks)
    {
      this.input := input;
      blocks := new Block[TOKEN_MAX](i => Block(Error, [], []));
      nblock, bg := 0, false;
    }

    /** Reads blocks up to the end of a line; a newline that ends nothing is overwritten by the
        token that follows it. Where the program reads on forever, or leaves its arrays, this is
        reported instead. */
    method ReadCommand() returns (status: Status)
      requires blocks.Length == TOKEN_MAX
      modifies this, blocks, input
      ensures status == match ReadLine([], old(input.rest))
                        case Line(_, _) => GotLine
                        case Endless => ReadsForever
                        case Undefined => Overrun
      ensures var line := ReadLine([], old(input.rest));
              line.Line? ==> nblock <= TOKEN_MAX && blocks[..nblock] == line.blocks && input.rest == line.rest
    {
      var i := 0;
      while true
        invariant i <= TOKEN_MAX && ReadLine(blocks[..i], input.rest) == ReadLine([], old(input.rest))
        decreases |input.rest|
      {
        if i == TOKEN_MAX { return Overrun; }
        ghost var acc := blocks[..i];
        var kind, len := ReadOne(i);
        assert blocks[..i + 1] == acc + [blocks[i]];
        if (kind == Error && len >= TOKEN_LEN) || |blocks[i].words| >= NARGS { return Overrun; }
        if !Ends(kind) {
          i := i + 1;
        } else if nblock > 1 && !Continues(blocks[i - 1]) {
          return GotLine;
        } else if kind == Error && i == 0 {
          return Overrun;
        } else if kind != Eol {
          return ReadsForever;
        }
      }
    }

    /** Reads one token into block `i`. */
    method ReadOne(i: nat) returns (kind: Kind, len: nat)
      requires i < blocks.Length
      modifies this`nblock, blocks, input
      ensures var t := Lex(old(input.rest), TOKEN_LEN);
              blocks[i] == ReadBlock(t) && kind == t.kind && len == |t.text| && input.rest == t.rest
      ensures blocks[..i] == old(blocks[..i]) && nblock == i + 1
    {
      var text;
      kind, text := input.GetToken(TOKEN_LEN);
      var words := Split(text);
      blocks[i] := Block(kind, words, []);
      nblock, len := i + 1, |text|;
    }

    /** Marks the redirection targets, or refuses the line. */
    method ParseLine() returns (ok: bool)
      requires 0 < nblock <= blocks.Length
      requires forall i :: 0 <= i < nblock ==> blocks[i].kind != Target
      modifies this, blocks
      ensures ok <==> Accepted(old(blocks[..nblock]))
      ensures nblock == old(nblock)
      ensures ok ==> blocks[..nblock] == Marked(old(blocks[..nblock]))
      ensures ok ==> (bg <==> nblock >= 3 && old(blocks[nblock - 2].kind) == Background)
    {
      if blocks[0].words == [] { return false; }
      bg := false;
      ghost var bs := blocks[..nblock];
      var i := 1;
      while i < nblock - 1
        invariant 1 <= i && (nblock >= 2 ==> i <= nblock - 1) && nblock == |bs|
        invariant AcceptedUpTo(bs, i)
        invariant MarkedTo(blocks[..], bs, i)
        invariant bg <==> i >= 2 && i == nblock - 1 && bs[i - 1].kind == Background
      {
        var able := CheckBlock(i, bs);
        if !able { return false; }
        i := i + 1;
      }
      assert blocks[..nblock] == Marked(bs);
      return true;
    }

    /** Checks block `i`, and marks its target if it is a redirection. */
    method CheckBlock(i: nat, ghost bs: seq<Block>) returns (ok: bool)
      requires 1 <= i < |bs| - 1 && nblock == |bs| <= blocks.Length
      requires AcceptedUpTo(bs, i) && MarkedTo(blocks[..], bs, i)
      requires forall j :: 0 <= j < |bs| ==> bs[j].kind != Target
      modifies this`bg, blocks
      ensures ok <==> BlockAccepted(bs, i)
      ensures ok ==> MarkedTo(blocks[..], bs, i + 1)
      ensures ok ==> bg == (old(bg) || bs[i].kind == Background)
    {
      var b := blocks[i];
      KindsSoFar(bs, i);
      if IsRedirection(b) {
        if (blocks[i - 1].kind == Normal || blocks[i - 1].kind == Target) && blocks[i + 1].kind == Normal {
          blocks[i + 1] := blocks[i + 1].(kind := Target);
          blocks[i] := blocks[i].(dir := FirstWord(blocks[i + 1]));
        } else {
          return false;
        }
      } else if b.kind == Background {
        if i == nblock - 2 {
          bg := true;
        } else {
          return false;
        }
      }
      return true;
    }
  }

  /** The redirections before block `i` have been marked. */
  ghost predicate MarkedTo(blocks: seq<Block>, bs: seq<Block>, i: nat) {
    |bs| <= |blocks| && forall j :: 0 <= j < |bs| ==> blocks[j] == MarkedUpTo(bs, i, j)
  }

  ghost predicate AcceptedUpTo(bs: seq<Block>, i: nat) {
    forall j :: 1 <= j < i && j < |bs| - 1 ==> BlockAccepted(bs, j)
  }

  /** At block `i` the marks made so far hide nothing: a block is still a redirection or `&`
      exactly if it was read as one, and both neighbours show whether they were read as commands. */
  lemma KindsSoFar(bs: seq<Block>, i: nat)
    requires 1 <= i < |bs| - 1 && AcceptedUpTo(bs, i)
    requires forall j :: 0 <= j < |bs| ==> bs[j].kind != Target
    ensures var b := MarkedUpTo(bs, i, i);
            && (IsRedirection(b) <==> IsRedirection(bs[i])) && (b.kind == Background <==> bs[i].kind == Background)
    ensures var p := MarkedUpTo(bs, i, i - 1).kind; (p == Normal || p == Target) <==> bs[i - 1].kind == Normal
    ensures MarkedUpTo(bs, i, i + 1).kind == bs[i + 1].kind
  {
    assert Redirects(bs, i - 1) ==> BlockAccepted(bs, i - 1);
    assert Redirects(bs, i - 2) ==> BlockAccepted(bs, i - 2);
  }

  /** Block `j` once the redirections before block `i` have been marked. */
  function MarkedUpTo(bs: seq<Block>, i: nat, j: nat): Block
    requires j < |bs|
  {
    Block(if j - 1 < i && Redirects(bs, j - 1) then Target else bs[j].kind, bs[j].words,
          if j < i && Redirects(bs, j) then FirstWord(bs[j + 1]) else bs[j].dir)
  }
}
