/** What redirections do: which file a command reads and writes, how it is opened, and what that does to
    its contents. */
module ShellRedirects {
  import opened Seqs
  import opened ShellLine
  import opened ShellLexer
  import opened ShellParse
  import opened ShellExec
  import opened ShellCommand

  /** `>` empties the file it opens, `>>` goes on at its end, and `<` reads. */
  function Opened(b: Block): Desc
    requires b.kind in {RedirIn, RedirOut, RedirAppend}
  {
    match b.kind
    case RedirIn => File(b.dir, Reading)
    case RedirOut => File(b.dir, Truncating)
    case RedirAppend => File(b.dir, Appending)
  }

  // ---------------------------------------------------------------- standard input and output

  /** Block `i` is the leftmost block from `a` up to `b` of one of the given kinds. */
  ghost predicate LeftmostOf(line: seq<Block>, a: nat, b: nat, kinds: set<Kind>, i: nat) {
    a <= i < b <= |line| && line[i].kind in kinds && forall j :: a <= j < i ==> line[j].kind !in kinds
  }

  lemma {:induction false} LeftmostInIs(line: seq<Block>, a: nat, b: nat, d: Desc, i: nat)
    requires LeftmostOf(line, a, b, {RedirIn}, i)
    ensures LeftmostIn(line, a, b, d) == Opened(line[i])
    decreases i - a
  {
    if a == i {
    } else {
      LeftmostInIs(line, a + 1, b, d, i);
    }
  }

  lemma {:induction false} LeftmostOutIs(line: seq<Block>, a: nat, b: nat, d: Desc, i: nat)
    requires LeftmostOf(line, a, b, {RedirOut, RedirAppend}, i)
    ensures LeftmostOut(line, a, b, d) == Opened(line[i])
    decreases i - a
  {
    if a == i {
    } else {
      LeftmostOutIs(line, a + 1, b, d, i);
    }
  }

  lemma {:induction false} NoneLeft(line: seq<Block>, a: nat, b: nat, d: Desc)
    requires a <= b <= |line|
    ensures (forall j :: a <= j < b ==> line[j].kind != RedirIn) ==> LeftmostIn(line, a, b, d) == d
    ensures (forall j :: a <= j < b ==> line[j].kind !in {RedirOut, RedirAppend}) ==> LeftmostOut(line, a, b, d) == d
    decreases b - a
  {
    if a == b {
    } else {
      NoneLeft(line, a + 1, b, d);
    }
  }

  /** A line is accepted, and reads as the given blocks; the blocks behind redirections are marked. */
  ghost predicate Reads(s: string, bs: seq<Block>, line: seq<Block>) {
    AcceptedLine(ReadLine([], s)) && bs == ReadLine([], s).blocks && line == Marked(bs)
  }

  /** In the line that is executed a redirection keeps its kind, and its file is the first word of
      the command token behind it. */
  lemma RedirectionRead(s: string, bs: seq<Block>, line: seq<Block>, i: nat)
    requires Reads(s, bs, line) && i < |line| && line[i].kind in {RedirIn, RedirOut, RedirAppend}
    ensures 0 < i && i + 1 < |bs| && bs[i].kind == line[i].kind && bs[i + 1].kind == Normal
    ensures bs[i + 1].words != [] ==> line[i].dir == bs[i + 1].words[0]
  {
    AcceptedStarts(s);
    LineShape([], s);
    MarkedRedirection(bs, i);
  }

  lemma MarkedRedirection(bs: seq<Block>, i: nat)
    requires Accepted(bs) && EndsOnce(bs) && Marked(bs)[0].kind == Normal
    requires i < |bs| && Marked(bs)[i].kind in {RedirIn, RedirOut, RedirAppend}
    ensures 0 < i && i + 1 < |bs| && bs[i].kind == Marked(bs)[i].kind && bs[i + 1].kind == Normal
    ensures bs[i + 1].words != [] ==> Marked(bs)[i].dir == bs[i + 1].words[0]
  {
    assert Marked(bs)[i] == MarkedBlock(bs, i);
    assert BlockAccepted(bs, i);
  }

  /** Where the commands of an accepted line write to. A command behind which, before the next command,
      stands `> w` or `>> w` writes to the file `w` of the leftmost of these, emptied or at its end. */
  lemma OutputFile(s: string, bs: seq<Block>, line: seq<Block>, ctx: Context, c: nat, i: nat)
    requires Reads(s, bs, line) && c < |line|
    requires LeftmostOf(line, c + 1, NextCommand(line, c + 1), {RedirOut, RedirAppend}, i)
    ensures i + 1 < |bs| &&
            (bs[i + 1].words != [] ==>
               Wired(line, ctx, c).output ==
                 File(bs[i + 1].words[0], if bs[i].kind == RedirOut then Truncating else Appending))
  {
    RedirectionRead(s, bs, line, i);
    OutputIsFile(line, ctx, c, i);
  }

  lemma OutputIsFile(line: seq<Block>, ctx: Context, c: nat, i: nat)
    requires c < |line| && LeftmostOf(line, c + 1, NextCommand(line, c + 1), {RedirOut, RedirAppend}, i)
    ensures Wired(line, ctx, c).output == Opened(line[i])
  {
    var next := NextCommand(line, c + 1);
    LeftmostOutIs(line, c + 1, next,
                  if next == |line| then ctx.fd1 else PipeWrite(ctx.pipes + CommandsFrom(line, next + 1)), i);
  }

  /** The first command of an accepted line reads the file of the leftmost `< w` on the line. */
  lemma InputFile(s: string, bs: seq<Block>, line: seq<Block>, ctx: Context, i: nat)
    requires Reads(s, bs, line) && LeftmostOf(line, 0, |line|, {RedirIn}, i)
    ensures i + 1 < |bs| &&
            (bs[i + 1].words != [] ==> Wired(line, ctx, 0).input == File(bs[i + 1].words[0], Reading))
  {
    LeftmostInIs(line, 0, |line|, ctx.fd0, i);
    RedirectionRead(s, bs, line, i);
  }

  /** What no redirection decides: the first command reads what the line inherits, any other reads the
      pipe its left neighbour writes to, and the last one writes to what the line inherits. */
  lemma OtherwiseWired(line: seq<Block>, ctx: Context, c: nat)
    requires c < |line| && line[0].kind == Normal
    ensures (forall j :: 0 <= j < |line| ==> line[j].kind != RedirIn) ==> Wired(line, ctx, 0).input == ctx.fd0
    ensures c > 0 ==> Wired(line, ctx, c).input.PipeRead?
    ensures var next := NextCommand(line, c + 1);
            (forall j :: c < j < next ==> line[j].kind !in {RedirOut, RedirAppend}) ==>
              if next == |line| then Wired(line, ctx, c).output == ctx.fd1
              else Wired(line, ctx, next).input.PipeRead?
                   && Wired(line, ctx, c).output == PipeWrite(Wired(line, ctx, next).input.id)
  {
    var next := NextCommand(line, c + 1);
    NoneLeft(line, 0, |line|, ctx.fd0);
    NoneLeft(line, c + 1, next,
             if next == |line| then ctx.fd1 else PipeWrite(ctx.pipes + CommandsFrom(line, next + 1)));
  }

  // ---------------------------------------------------------------- what is opened

  /** How many redirections stand from `a` up to `b`. */
  function Redirections(line: seq<Block>, a: nat, b: nat): nat
    requires a <= b <= |line|
    decreases b - a
  {
    if a == b then 0
    else Redirections(line, a, b - 1) + if line[b - 1].kind in {RedirIn, RedirOut, RedirAppend} then 1 else 0
  }

  /** The files opened are those of the redirections, each once, from right to left: redirection `i`
      is opened after exactly those to its right. */
  lemma {:induction false} OpenedInOrder(line: seq<Block>, n: nat, stop: nat, i: nat)
    requires stop <= i < n <= |line| && line[i].kind in {RedirIn, RedirOut, RedirAppend}
    ensures |OpenedDown(line, n, stop)| == Redirections(line, stop, n)
    ensures Redirections(line, i + 1, n) < |OpenedDown(line, n, stop)|
    ensures OpenedDown(line, n, stop)[Redirections(line, i + 1, n)] == Opened(line[i])
  {
    OpenedCount(line, n, stop);
    if i == n - 1 {
      assert Redirections(line, n, n) == 0;
    } else {
      OpenedInOrder(line, n - 1, stop, i);
      OneMoreOpened(line, n, stop, i);
    }
  }

  lemma OneMoreOpened(line: seq<Block>, n: nat, stop: nat, i: nat)
    requires stop <= i < n - 1 < |line|
    requires Redirections(line, i + 1, n - 1) < |OpenedDown(line, n - 1, stop)|
    ensures Redirections(line, i + 1, n) < |OpenedDown(line, n, stop)|
    ensures OpenedDown(line, n, stop)[Redirections(line, i + 1, n)] ==
            OpenedDown(line, n - 1, stop)[Redirections(line, i + 1, n - 1)]
  {
  }

  lemma {:induction false} OpenedCount(line: seq<Block>, n: nat, stop: nat)
    requires stop <= n <= |line|
    ensures |OpenedDown(line, n, stop)| == Redirections(line, stop, n)
  {
    if n == stop {
    } else {
      OpenedCount(line, n - 1, stop);
    }
  }

  // ---------------------------------------------------------------- what becomes of the files

  /** Files and their contents. */
  type Disk = map<string, string>

  /** Opening a file, as the system does it: a missing one is created unless it is to be read. */
  function AfterOpen(disk: Disk, d: Desc): Disk {
    if !d.File? || d.mode == Reading then disk
    else if d.mode == Truncating || d.name !in disk then disk[d.name := []]
    else disk
  }

  function AfterOpens(disk: Disk, opens: seq<Desc>): Disk {
    Fold(AfterOpen, disk, opens)
  }

  /** Some block from `a` up to `b` is of the kind, and names the file. */
  ghost predicate Names(line: seq<Block>, a: nat, b: nat, kind: Kind, name: string)
    requires b <= |line|
  {
    exists i :: a <= i < b && line[i].kind == kind && line[i].dir == name
  }

  /** One that some `>` names is empty, whatever it held; one that only `>>` names keeps its contents,
      and is created empty if there was none; and all others, those named by `<` included, are as
      they were. */
  ghost predicate FileAfter(line: seq<Block>, n: nat, stop: nat, disk: Disk, name: string, after: Disk)
    requires stop <= n <= |line|
  {
    if Names(line, stop, n, RedirOut, name) then name in after && after[name] == []
    else if name in disk then name in after && after[name] == disk[name]
    else if Names(line, stop, n, RedirAppend, name) then name in after && after[name] == []
    else name !in after
  }

  /** What starting a line does to the files its redirections name. */
  lemma {:induction false} FilesAfter(line: seq<Block>, n: nat, stop: nat, disk: Disk, name: string)
    requires stop <= n <= |line|
    ensures FileAfter(line, n, stop, disk, name, AfterOpens(disk, OpenedDown(line, n, stop)))
  {
    if n == stop {
    } else {
      var first := AfterOpens(disk, OpenedBy(line[n - 1]));
      FilesAfter(line, n - 1, stop, first, name);
      FoldJoins(AfterOpen, disk, OpenedBy(line[n - 1]), OpenedDown(line, n - 1, stop));
      OneOpened(line[n - 1], disk);
      FileStep(line, n, stop, disk, first, name, AfterOpens(first, OpenedDown(line, n - 1, stop)));
    }
  }

  lemma OneOpened(b: Block, disk: Disk)
    ensures AfterOpens(disk, OpenedBy(b)) ==
              match b.kind
              case RedirOut => disk[b.dir := []]
              case RedirAppend => if b.dir in disk then disk else disk[b.dir := []]
              case _ => disk
  {
    if b.kind in {RedirIn, RedirOut, RedirAppend} {
      FoldOne(AfterOpen, disk, Opened(b));
    }
  }

  lemma FileStep(line: seq<Block>, n: nat, stop: nat, disk: Disk, first: Disk, name: string, after: Disk)
    requires stop < n <= |line| && FileAfter(line, n - 1, stop, first, name, after)
    requires first == match line[n - 1].kind
                      case RedirOut => disk[line[n - 1].dir := []]
                      case RedirAppend => if line[n - 1].dir in disk then disk else disk[line[n - 1].dir := []]
                      case _ => disk
    ensures FileAfter(line, n, stop, disk, name, after)
  {
    NamesStep(line, n, stop, RedirOut, name);
    NamesStep(line, n, stop, RedirAppend, name);
  }

  lemma NamesStep(line: seq<Block>, n: nat, stop: nat, kind: Kind, name: string)
    requires stop < n <= |line|
    ensures Names(line, stop, n, kind, name) <==>
              Names(line, stop, n - 1, kind, name) || (line[n - 1].kind == kind && line[n - 1].dir == name)
  {
  }
}
