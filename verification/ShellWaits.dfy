/** Who can write to the pipes of a pipeline once the recursion is at its end and the waiting begins:
    a command sees the end of its input only if nobody but commands that end can write to it. */
module ShellWaits {
  import opened ShellLine
  import opened ShellExec
  import opened ShellCommand

  /** The pipes of the line are new: the inherited output is none of them. */
  predicate FreshPipes(ctx: Context) {
    ctx.fd1.PipeWrite? ==> ctx.fd1.id < ctx.pipes
  }

  /** `s` reads a pipe of the line, as every command but the first does. */
  predicate ReadsPipe(s: Started) {
    s.pos > 0 && s.input.PipeRead?
  }

  /** The process that waits for `s` could itself still write what `s` reads. */
  predicate WaiterWrites(e: Outcome, s: Started) {
    ReadsPipe(s) && e.out == PipeWrite(s.input.id)
  }

  /** Right of the rightmost file that cannot be opened there is a command, and no output
      redirection stands between them. */
  predicate Stuck(line: seq<Block>, bad: set<Desc>) {
    var stop := StopAt(line, bad, |line|);
    var c := NextCommand(line, stop);
    stop > 0 && c < |line| && forall i :: stop <= i < c ==> !RedirectsOutput(line[i])
  }

  lemma {:induction false} FewerCommands(line: seq<Block>, a: nat, b: nat)
    requires a <= b <= |line|
    ensures CommandsFrom(line, a) >= CommandsFrom(line, b)
    ensures a < b && line[a].kind == Normal ==> CommandsFrom(line, a) > CommandsFrom(line, b)
    decreases b - a
  {
    if a == b {
    } else {
      FewerCommands(line, a + 1, b);
    }
  }

  lemma LaterPipe(line: seq<Block>, c: nat, d: nat)
    requires c < d < |line| && line[d].kind == Normal
    ensures CommandsFrom(line, c + 1) > CommandsFrom(line, d + 1)
  {
    FewerCommands(line, c + 1, d);
    FewerCommands(line, d, d + 1);
  }

  /** Different commands read different pipes. */
  lemma OnePipeEach(line: seq<Block>, c: nat, d: nat)
    requires c < |line| && d < |line| && line[c].kind == Normal && line[d].kind == Normal
    ensures CommandsFrom(line, c + 1) == CommandsFrom(line, d + 1) ==> c == d
  {
    if c < d {
      LaterPipe(line, c, d);
    } else if d < c {
      LaterPipe(line, d, c);
    }
  }

  lemma {:induction false} OutOrOwn(line: seq<Block>, a: nat, b: nat, d: Desc)
    requires a <= b <= |line|
    ensures if forall i :: a <= i < b ==> !RedirectsOutput(line[i]) then LeftmostOut(line, a, b, d) == d
            else LeftmostOut(line, a, b, d).File?
    decreases b - a
  {
    if a == b {
    } else {
      OutOrOwn(line, a + 1, b, d);
    }
  }

  /** What a command writes to: a file, the inherited output, or the pipe of the next command. */
  lemma OutputIs(line: seq<Block>, ctx: Context, c: nat)
    requires c < |line|
    ensures var (out, next) := (Wired(line, ctx, c).output, NextCommand(line, c + 1));
            || out.File?
            || (next == |line| && out == ctx.fd1)
            || (next < |line| && out == PipeWrite(ctx.pipes + CommandsFrom(line, next + 1)))
  {
    var next := NextCommand(line, c + 1);
    var right := if next == |line| then ctx.fd1 else PipeWrite(ctx.pipes + CommandsFrom(line, next + 1));
    OutOrOwn(line, c + 1, next, right);
  }

  /** Whatever the line: of the commands started, only the next one to the left can write what a
      command reads. */
  lemma OnlyLeftNeighbourWrites(line: seq<Block>, ctx: Context, c: nat, d: nat)
    requires FreshPipes(ctx) && c < |line| && 0 < d < |line| && line[c].kind == Normal && line[d].kind == Normal
    ensures ReadsPipe(Wired(line, ctx, d))
    ensures Wired(line, ctx, c).output == PipeWrite(Wired(line, ctx, d).input.id) ==> NextCommand(line, c + 1) == d
  {
    OutputIs(line, ctx, c);
    InputIs(line, ctx, d);
    if NextCommand(line, c + 1) < |line| { OnePipeEach(line, NextCommand(line, c + 1), d); }
  }

  lemma InputIs(line: seq<Block>, ctx: Context, d: nat)
    requires 0 < d < |line|
    ensures Wired(line, ctx, d).pos == d && Wired(line, ctx, d).input == PipeRead(ctx.pipes + CommandsFrom(line, d + 1))
  {
  }

  /** The waits end: no command that was started waits for input its own waiter could write, if and
      only if the line is not stuck. A line all of whose files can be opened never is. */
  lemma WaitsEnd(line: seq<Block>, bad: set<Desc>, ctx: Context)
    requires line != [] && line[0].kind == Normal && FreshPipes(ctx)
    ensures var e := Exec(line, bad, |line|, ctx);
            (forall s :: s in e.started ==> !WaiterWrites(e, s)) <==> !Stuck(line, bad)
  {
    var e, stop := Exec(line, bad, |line|, ctx), StopAt(line, bad, |line|);
    PipelineIsWired(line, bad, ctx);
    WiringFollows(line, bad, ctx);
    var c := NextCommand(line, stop);
    if Stuck(line, bad) {
      StuckHolds(line, bad, ctx);
      assert Wirings(line, ctx)[c] in e.started;
    } else {
      forall s | s in e.started ensures !WaiterWrites(e, s) {
        NotHeld(line, bad, ctx, s.pos);
      }
    }
  }

  lemma StuckHolds(line: seq<Block>, bad: set<Desc>, ctx: Context)
    requires Stuck(line, bad)
    ensures var stop := StopAt(line, bad, |line|);
            var s := Wired(line, ctx, NextCommand(line, stop));
            ReadsPipe(s) && FinalOut(line, ctx, stop) == PipeWrite(s.input.id)
  {
    var stop := StopAt(line, bad, |line|);
    var c := NextCommand(line, stop);
    OutOrOwn(line, stop, c, At(line, ctx, c).fd1);
  }

  lemma NotHeld(line: seq<Block>, bad: set<Desc>, ctx: Context, p: nat)
    requires line != [] && line[0].kind == Normal && FreshPipes(ctx) && !Stuck(line, bad)
    requires StopAt(line, bad, |line|) <= p < |line| && line[p].kind == Normal
    ensures var s := Wired(line, ctx, p);
            !(ReadsPipe(s) && FinalOut(line, ctx, StopAt(line, bad, |line|)) == PipeWrite(s.input.id))
  {
    var stop := StopAt(line, bad, |line|);
    var c := NextCommand(line, stop);
    OutOrOwn(line, stop, c, At(line, ctx, c).fd1);
    if stop == 0 && p > 0 {
      FewerCommands(line, 1, p);
      FewerCommands(line, p, p + 1);
    }
  }

  const MISSING := File("missing", Reading)

  /** `a < missing | b` */
  const STUCK_LINE := [Block(Normal, ["a"], []), Block(RedirIn, [], "missing"), Block(Target, ["missing"], []),
                       Block(Pipe, [], []), Block(Normal, ["b"], []), Block(Eol, [], [])]

  /** The failing input: `b` is started, and waits for the pipe that its own waiter could write. */
  lemma StuckPipeline(ctx: Context)
    requires FreshPipes(ctx)
    ensures var e := Exec(STUCK_LINE, {MISSING}, |STUCK_LINE|, ctx);
            exists s :: s in e.started && WaiterWrites(e, s)
  {
    IsStuck();
    WaitsEnd(STUCK_LINE, {MISSING}, ctx);
  }

  lemma IsStuck()
    ensures Stuck(STUCK_LINE, {MISSING})
  {
    var stop := StopAt(STUCK_LINE, {MISSING}, |STUCK_LINE|);
    StopAtIsRightmost(STUCK_LINE, {MISSING}, |STUCK_LINE|);
    assert IsRedirection(STUCK_LINE[1]) && FileOf(STUCK_LINE[1]) == MISSING;
    assert stop == 2;
    assert NextCommand(STUCK_LINE, 2) == 4;
  }
}
