/** From the text of a line to the processes it starts. */
module ShellCommand {
  import opened ShellLine
  import opened ShellLexer
  import opened ShellParse
  import opened ShellExec

  /** For every block, the wiring it would be started with. */
  ghost function Wirings(line: seq<Block>, ctx: Context): (w: seq<Started>)
    ensures |w| == |line| && forall c :: 0 <= c < |line| ==> w[c] == Wired(line, ctx, c) && w[c].pos == c
  {
    seq(|line|, c requires 0 <= c < |line| => Wired(line, ctx, c))
  }

  /** Every start is a command of `line` between `stop` and `n`, wired as in `w`. */
  ghost predicate OnlyDeclared(line: seq<Block>, w: seq<Started>, n: nat, stop: nat, started: seq<Started>)
    requires n <= |line| == |w|
  {
    forall x :: x in started ==> stop <= x.pos < n && line[x.pos].kind == Normal && x == w[x.pos]
  }

  ghost predicate RightToLeft(started: seq<Started>) {
    forall i, j :: 0 <= i < j < |started| ==> started[i].pos > started[j].pos
  }

  ghost predicate NoneMissing(line: seq<Block>, w: seq<Started>, n: nat, stop: nat, started: seq<Started>)
    requires n <= |line| == |w|
  {
    forall c :: stop <= c < n && line[c].kind == Normal ==> w[c] in started
  }

  /** Of the commands between `stop` and `n` none is missing, none is started twice, and every one
      is wired as in `w`. */
  ghost predicate StartsEachOnce(line: seq<Block>, w: seq<Started>, n: nat, stop: nat, started: seq<Started>)
    requires n <= |line| == |w|
  {
    OnlyDeclared(line, w, n, stop, started) && RightToLeft(started) && NoneMissing(line, w, n, stop, started)
  }

  lemma {:induction false} WiredOnce(line: seq<Block>, ctx: Context, n: nat, stop: nat)
    requires n <= |line|
    ensures StartsEachOnce(line, Wirings(line, ctx), n, stop, WiredDown(line, ctx, n, stop))
  {
    if n <= stop {
    } else {
      WiredOnce(line, ctx, n - 1, stop);
      AddBlock(line, Wirings(line, ctx), n, stop, WiredDown(line, ctx, n - 1, stop));
    }
  }

  lemma AddBlock(line: seq<Block>, w: seq<Started>, n: nat, stop: nat, v: seq<Started>)
    requires stop < n <= |line| == |w| && StartsEachOnce(line, w, n - 1, stop, v) && w[n - 1].pos == n - 1
    ensures StartsEachOnce(line, w, n, stop, (if line[n - 1].kind == Normal then [w[n - 1]] else []) + v)
  {
  }

  predicate AcceptedLine(line: Line) {
    line.Line? && Accepted(line.blocks)
  }

  /** Every line the parser accepts is executed as declared: if its files can be opened, exactly
      its commands are started, each once, with the declared input and output; if not, exactly the
      commands to the right of the rightmost file that cannot be opened are. */
  lemma AcceptedLineIsWired(s: string, bad: set<Desc>, ctx: Context)
    requires AcceptedLine(ReadLine([], s))
    ensures var line := Marked(ReadLine([], s).blocks);
            line[0].kind == Normal &&
            var e := Exec(line, bad, |line|, ctx);
            && StartsEachOnce(line, Wirings(line, ctx), |line|, StopAt(line, bad, |line|), e.started)
            && (e.ok <==> forall i :: 0 <= i < |line| && IsRedirection(line[i]) ==> FileOf(line[i]) !in bad)
  {
    AcceptedStarts(s);
    WiringFollows(Marked(ReadLine([], s).blocks), bad, ctx);
  }

  lemma NoTargetYet(s: string)
    requires ReadLine([], s).Line?
    ensures var bs := ReadLine([], s).blocks;
            bs != [] && forall i :: 0 <= i < |bs| ==> bs[i].kind != Target
  {
    LineWords([], s);
    LineShape([], s);
  }

  lemma AcceptedStarts(s: string)
    requires AcceptedLine(ReadLine([], s))
    ensures var line := Marked(ReadLine([], s).blocks);
            line != [] && line[0].kind == Normal
  {
    LineWords([], s);
    LineShape([], s);
    AcceptedIsExecutable(ReadLine([], s).blocks);
  }

  lemma WiringFollows(line: seq<Block>, bad: set<Desc>, ctx: Context)
    requires line != [] && line[0].kind == Normal
    ensures var e := Exec(line, bad, |line|, ctx);
            && StartsEachOnce(line, Wirings(line, ctx), |line|, StopAt(line, bad, |line|), e.started)
            && (e.ok <==> forall i :: 0 <= i < |line| && IsRedirection(line[i]) ==> FileOf(line[i]) !in bad)
  {
    PipelineIsWired(line, bad, ctx);
    WiredOnce(line, ctx, |line|, StopAt(line, bad, |line|));
  }

  class Runner {
    const shell: Shell
    const process: Process

    constructor (s: string, bad: set<Desc>)
      ensures shell.input.rest == s && shell.blocks.Length == TOKEN_MAX && process.bad == bad
      ensures process.started == [] && process.opens == [] && process.fd0 == Inherited(0) && process.fd1 == Inherited(1)
      ensures fresh(shell) && fresh(shell.blocks) && fresh(shell.input) && fresh(process)
      ensures process.pipes == 0
    {
      var input := new Input(s);
      var sh := new Shell(input);
      var p := new Process(bad);
      shell, process := sh, p;
    }

    /** Reads a line and checks it. */
    method ReadAndCheck() returns (accepted: bool)
      requires shell.blocks.Length == TOKEN_MAX
      modifies shell, shell.blocks, shell.input
      ensures accepted == AcceptedLine(ReadLine([], old(shell.input.rest)))
      ensures accepted ==>
                var line := Marked(ReadLine([], old(shell.input.rest)).blocks);
                && shell.nblock <= TOKEN_MAX && shell.blocks[..shell.nblock] == line
                && line != [] && line[0].kind == Normal
    {
      ghost var s := shell.input.rest;
      ghost var line := ReadLine([], s);
      var status := shell.ReadCommand();
      if status != GotLine { return false; }
      NoTargetYet(s);
      assert forall i :: 0 <= i < shell.nblock ==> shell.blocks[i] == line.blocks[i];
      accepted := shell.ParseLine();
      if accepted { AcceptedStarts(s); }
    }

    /** Reads a line, checks it, and starts its commands. A line that is refused starts and opens
        nothing. */
    method RunLine() returns (accepted: bool, ok: bool)
      requires shell.blocks.Length == TOKEN_MAX
      modifies shell, shell.blocks, shell.input, process
      ensures accepted == AcceptedLine(ReadLine([], old(shell.input.rest)))
      ensures accepted ==> Marked(ReadLine([], old(shell.input.rest)).blocks)[0].kind == Normal
      ensures accepted ==>
                var line := Marked(ReadLine([], old(shell.input.rest)).blocks);
                var e := Exec(line, process.bad, |line|, old(Context(process.fd0, process.fd1, process.pipes)));
                && ok == e.ok && process.started == old(process.started) + e.started
                && process.opens == old(process.opens) + e.opens && process.fd1 == e.out
      ensures !accepted ==> !ok && unchanged(process)
    {
      accepted := ReadAndCheck();
      if !accepted { return false, false; }
      var blocks := shell.blocks[..shell.nblock];
      ok := process.ExecRecursive(blocks, |blocks| - 1);
    }
  }
}
