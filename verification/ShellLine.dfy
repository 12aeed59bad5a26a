/** The blocks of a command line, and the wiring its commands are to be started with. */
module ShellLine {

  datatype Kind = Normal | Target | RedirIn | RedirOut | RedirAppend | Pipe | Background | Eol | Eof | Error

  /** One token of the line: its words, and for a redirection the name it redirects to. */
  datatype Block = Block(kind: Kind, words: seq<string>, dir: string)

  datatype Mode = Reading | Truncating | Appending

  /** What a file descriptor refers to. */
  datatype Desc = Inherited(fd: nat) | File(name: string, mode: Mode) | PipeRead(id: nat) | PipeWrite(id: nat)

  /** A command as started: its block, and its standard input and output. */
  datatype Started = Started(pos: nat, input: Desc, output: Desc)

  predicate RedirectsOutput(b: Block) {
    b.kind == RedirOut || b.kind == RedirAppend
  }

  predicate IsRedirection(b: Block) {
    b.kind == RedirIn || RedirectsOutput(b)
  }

  function FileOf(b: Block): Desc {
    File(b.dir, if b.kind == RedirIn then Reading else if b.kind == RedirOut then Truncating else Appending)
  }

  // ---------------------------------------------------------------- the wiring, declared

  /** The leftmost file that the blocks from `a` up to `b` redirect input from, or else `d`. */
  function LeftmostIn(line: seq<Block>, a: nat, b: nat, d: Desc): Desc
    requires a <= b <= |line|
    decreases b - a
  {
    if a == b then d else if line[a].kind == RedirIn then FileOf(line[a]) else LeftmostIn(line, a + 1, b, d)
  }

  /** The leftmost file that they redirect output to, or else `d`. */
  function LeftmostOut(line: seq<Block>, a: nat, b: nat, d: Desc): Desc
    requires a <= b <= |line|
    decreases b - a
  {
    if a == b then d
    else if RedirectsOutput(line[a]) then FileOf(line[a])
    else LeftmostOut(line, a + 1, b, d)
  }

  /** The first command block at or after `a`, or the end of the line. */
  function NextCommand(line: seq<Block>, a: nat): (c: nat)
    requires a <= |line|
    ensures a <= c <= |line|
    ensures c < |line| ==> line[c].kind == Normal
    ensures forall i :: a <= i < c ==> line[i].kind != Normal
    decreases |line| - a
  {
    if a == |line| || line[a].kind == Normal then a else NextCommand(line, a + 1)
  }

  /** How many commands stand at or after `a`. */
  function CommandsFrom(line: seq<Block>, a: nat): nat
    requires a <= |line|
    decreases |line| - a
  {
    if a == |line| then 0 else (if line[a].kind == Normal then 1 else 0) + CommandsFrom(line, a + 1)
  }

  /** The process state a line is started in: its two descriptors, and the next pipe. */
  datatype Context = Context(fd0: Desc, fd1: Desc, pipes: nat)

  /** The wiring of the command at block `c`. The first command reads the leftmost input file of
      the whole line; every other reads the pipe numbered by the commands to its right. Each
      writes its own leftmost output file, or the pipe of the next command, or, for the last
      command, the inherited output. */
  function Wired(line: seq<Block>, ctx: Context, c: nat): Started
    requires c < |line|
  {
    var next := NextCommand(line, c + 1);
    Started(c,
            if c == 0 then LeftmostIn(line, 0, |line|, ctx.fd0) else PipeRead(ctx.pipes + CommandsFrom(line, c + 1)),
            LeftmostOut(line, c + 1, next,
                        if next == |line| then ctx.fd1 else PipeWrite(ctx.pipes + CommandsFrom(line, next + 1))))
  }

  /** The commands of blocks `stop` up to `n`, wired, the rightmost first. */
  function WiredDown(line: seq<Block>, ctx: Context, n: nat, stop: nat): seq<Started>
    requires n <= |line|
  {
    if n <= stop then []
    else (if line[n - 1].kind == Normal then [Wired(line, ctx, n - 1)] else []) + WiredDown(line, ctx, n - 1, stop)
  }

  /** The files opened for the redirections of blocks `stop` up to `n`, the rightmost first. */
  function OpenedDown(line: seq<Block>, n: nat, stop: nat): seq<Desc>
    requires n <= |line|
  {
    if n <= stop then []
    else OpenedBy(line[n - 1]) + OpenedDown(line, n - 1, stop)
  }

  function OpenedBy(b: Block): seq<Desc> {
    if IsRedirection(b) then [FileOf(b)] else []
  }

  /** One past the rightmost redirection, left of block `n`, to a file that cannot be opened. */
  function StopAt(line: seq<Block>, bad: set<Desc>, n: nat): (stop: nat)
    requires n <= |line|
    ensures stop <= n
  {
    if n == 0 then 0
    else if IsRedirection(line[n - 1]) && FileOf(line[n - 1]) in bad then n
    else StopAt(line, bad, n - 1)
  }

  lemma {:induction false} StopAtIsRightmost(line: seq<Block>, bad: set<Desc>, n: nat)
    requires n <= |line|
    ensures var stop := StopAt(line, bad, n);
            && stop <= n && (stop > 0 ==> IsRedirection(line[stop - 1]) && FileOf(line[stop - 1]) in bad)
            && forall i :: stop <= i < n ==> !(IsRedirection(line[i]) && FileOf(line[i]) in bad)
  {
    if n == 0 {
    } else {
      StopAtIsRightmost(line, bad, n - 1);
    }
  }
}
