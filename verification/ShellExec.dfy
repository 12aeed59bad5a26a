/** Starting a pipeline: a recursion from right to left that redirects its own standard input and
    output before it starts each command. */
module ShellExec {
  import opened Seqs
  import opened ShellLine

  /** The commands started, the files opened, whether all could be, and what the process that started
      them is left with as its own standard output. */
  datatype Outcome = Outcome(started: seq<Started>, opens: seq<Desc>, ok: bool, out: Desc)

  /** What the recursion makes of the blocks left of `n`, given its current descriptors. */
  datatype Scanned = Scanned(c: nat, fd0: Desc, fd1: Desc, opens: seq<Desc>, ok: bool)

  /** From block `n` leftwards to the next command, applying the redirections on the way. */
  function Scan(line: seq<Block>, bad: set<Desc>, n: nat, fd0: Desc, fd1: Desc): (r: Scanned)
    requires 0 < n <= |line| && line[0].kind == Normal
    ensures r.c < n && (r.ok ==> line[r.c].kind == Normal)
  {
    var b := line[n - 1];
    if b.kind == Normal then Scanned(n - 1, fd0, fd1, [], true)
    else if IsRedirection(b) && FileOf(b) in bad then Scanned(n - 1, fd0, fd1, [], false)
    else
      var r := Scan(line, bad, n - 1, In(b, fd0), Out(b, fd1));
      r.(opens := OpenedBy(b) + r.opens)
  }

  /** Standard input after a block's redirection, and standard output. */
  function In(b: Block, d: Desc): Desc {
    if b.kind == RedirIn then FileOf(b) else d
  }

  function Out(b: Block, d: Desc): Desc {
    if RedirectsOutput(b) then FileOf(b) else d
  }

  function Exec(line: seq<Block>, bad: set<Desc>, n: nat, ctx: Context): Outcome
    requires n <= |line| && (n > 0 ==> line[0].kind == Normal)
  {
    if n == 0 then Outcome([], [], true, ctx.fd1)
    else
      var r := Scan(line, bad, n, ctx.fd0, ctx.fd1);
      if !r.ok then Outcome([], r.opens, false, r.fd1)
      else
        var rest := Exec(line, bad, r.c, Context(r.fd0, PipeWrite(ctx.pipes), ctx.pipes + 1));
        Outcome([Started(r.c, if r.c == 0 then r.fd0 else PipeRead(ctx.pipes), r.fd1)] + rest.started,
                r.opens + rest.opens, rest.ok, rest.out)
  }

  // ---------------------------------------------------------------- the program

  class Process {
    var fd0: Desc
    var fd1: Desc
    var pipes: nat
    var started: seq<Started>
    var opens: seq<Desc>
    /** The files that cannot be opened. */
    const bad: set<Desc>

    constructor (bad: set<Desc>)
      ensures fd0 == Inherited(0) && fd1 == Inherited(1) && pipes == 0
      ensures started == [] && opens == [] && this.bad == bad
    {
      fd0, fd1, pipes, started, opens := Inherited(0), Inherited(1), 0, [], [];
      this.bad := bad;
    }

    method Open(f: Desc) returns (ok: bool)
      modifies this`opens
      ensures ok <==> f !in bad
      ensures opens == if ok then old(opens) + [f] else old(opens)
    {
      ok := f !in bad;
      if ok { opens := opens + [f]; }
    }

    /** Applies one block's redirection, if it is one, to this process. */
    method Apply(b: Block) returns (ok: bool)
      modifies this`fd0, this`fd1, this`opens
      ensures ok <==> !(IsRedirection(b) && FileOf(b) in bad)
      ensures opens == old(opens) + if ok then OpenedBy(b) else []
      ensures if ok then fd0 == In(b, old(fd0)) && fd1 == Out(b, old(fd1)) else fd0 == old(fd0) && fd1 == old(fd1)
    {
      if IsRedirection(b) {
        ok := Open(FileOf(b));
        if !ok { return; }
        if b.kind == RedirIn { fd0 := FileOf(b); } else { fd1 := FileOf(b); }
      }
      return true;
    }

    /** Walks left from block `pos` to the next command, redirecting this process on the way. */
    method Redirect(line: seq<Block>, pos: nat) returns (c: nat, ok: bool)
      requires pos < |line| && line[0].kind == Normal
      modifies this`fd0, this`fd1, this`opens
      ensures var r := Scan(line, bad, pos + 1, old(fd0), old(fd1));
              ok == r.ok && opens == old(opens) + r.opens && c == r.c && fd0 == r.fd0 && fd1 == r.fd1
    {
      c := pos;
      while line[c].kind != Normal
        invariant c <= pos
        invariant var r, r0 := Scan(line, bad, c + 1, fd0, fd1), Scan(line, bad, pos + 1, old(fd0), old(fd1));
                  r0.ok == r.ok && r0.c == r.c && r0.fd0 == r.fd0 && r0.fd1 == r.fd1
                  && opens + r.opens == old(opens) + r0.opens
        decreases c
      {
        ghost var before, b := opens, line[c];
        var able := Apply(line[c]);
        if !able { return c, false; }
        Associate(before, OpenedBy(b), Scan(line, bad, c, fd0, fd1).opens);
        c := c - 1;
      }
      return c, true;
    }

    /** Starts the command of the rightmost command block up to `pos`, and turns this process's
        output into the pipe that command reads from. */
    method StartRightmost(line: seq<Block>, pos: nat) returns (c: nat, ok: bool)
      requires pos < |line| && line[0].kind == Normal
      modifies this
      ensures var r := Scan(line, bad, pos + 1, old(fd0), old(fd1));
              && ok == r.ok && opens == old(opens) + r.opens
              && if ok then
                   && c == r.c && fd0 == r.fd0 && fd1 == PipeWrite(old(pipes)) && pipes == old(pipes) + 1
                   && started == old(started) + [Started(c, if c == 0 then r.fd0 else PipeRead(old(pipes)), r.fd1)]
                 else started == old(started) && fd1 == r.fd1
    {
      var pipe := pipes;
      pipes := pipes + 1;
      c, ok := Redirect(line, pos);
      if !ok { return; }
      started := started + [Started(c, if c == 0 then fd0 else PipeRead(pipe), fd1)];
      fd1 := PipeWrite(pipe);
    }

    /** Starts the command of the rightmost command block up to `pos`, then, writing into the pipe
        it reads from, the commands to its left. */
    method ExecRecursive(line: seq<Block>, pos: int) returns (ok: bool)
      requires -1 <= pos < |line| && (pos >= 0 ==> line[0].kind == Normal)
      modifies this
      ensures var e := Exec(line, bad, pos + 1, old(Context(fd0, fd1, pipes)));
              ok == e.ok && started == old(started) + e.started && opens == old(opens) + e.opens && fd1 == e.out
      decreases pos + 1
    {
      if pos < 0 { return true; }
      var c, redirected := StartRightmost(line, pos);
      if !redirected { return false; }
      ExecJoins(line, bad, pos + 1, old(Context(fd0, fd1, pipes)), old(started), old(opens));
      var left: int := c as int - 1;
      ok := ExecRecursive(line, left);
    }
  }

  /** One start and what follows it, put behind earlier starts. */
  lemma ExecJoins(line: seq<Block>, bad: set<Desc>, n: nat, ctx: Context, s: seq<Started>, o: seq<Desc>)
    requires 0 < n <= |line| && line[0].kind == Normal && Scan(line, bad, n, ctx.fd0, ctx.fd1).ok
    ensures var e, r := Exec(line, bad, n, ctx), Scan(line, bad, n, ctx.fd0, ctx.fd1);
            var rest := Exec(line, bad, r.c, Context(r.fd0, PipeWrite(ctx.pipes), ctx.pipes + 1));
            && e.ok == rest.ok && e.out == rest.out && o + r.opens + rest.opens == o + e.opens
            && s + [Started(r.c, if r.c == 0 then r.fd0 else PipeRead(ctx.pipes), r.fd1)] + rest.started
               == s + e.started
  {
    var r := Scan(line, bad, n, ctx.fd0, ctx.fd1);
    var rest := Exec(line, bad, r.c, Context(r.fd0, PipeWrite(ctx.pipes), ctx.pipes + 1));
    Associate(s, [Started(r.c, if r.c == 0 then r.fd0 else PipeRead(ctx.pipes), r.fd1)], rest.started);
    Associate(o, r.opens, rest.opens);
  }

  // ---------------------------------------------------------------- the wiring is as declared

  lemma {:induction false} LeftmostSplits(line: seq<Block>, a: nat, m: nat, b: nat, d: Desc)
    requires a <= m <= b <= |line|
    ensures LeftmostIn(line, a, b, d) == LeftmostIn(line, a, m, LeftmostIn(line, m, b, d))
    ensures LeftmostOut(line, a, b, d) == LeftmostOut(line, a, m, LeftmostOut(line, m, b, d))
    decreases m - a
  {
    if a == m {
    } else {
      LeftmostSplits(line, a + 1, m, b, d);
    }
  }

  /** A scan passes no command, and opens the files of the blocks it passes. */
  lemma {:induction false} ScanPasses(line: seq<Block>, bad: set<Desc>, n: nat, fd0: Desc, fd1: Desc)
    requires 0 < n <= |line| && line[0].kind == Normal
    ensures var r := Scan(line, bad, n, fd0, fd1);
            && (forall i :: r.c < i < n ==> line[i].kind != Normal)
            && r.opens == OpenedDown(line, n, r.c + 1)
  {
    var b := line[n - 1];
    if b.kind != Normal && !(IsRedirection(b) && FileOf(b) in bad) {
      ScanPasses(line, bad, n - 1, In(b, fd0), Out(b, fd1));
    }
  }

  /** A scan stops at the nearest command, unless a file before it cannot be opened. */
  lemma {:induction false} ScanStops(line: seq<Block>, bad: set<Desc>, n: nat, fd0: Desc, fd1: Desc)
    requires 0 < n <= |line| && line[0].kind == Normal
    ensures var r := Scan(line, bad, n, fd0, fd1);
            if r.ok then StopAt(line, bad, n) == StopAt(line, bad, r.c) else StopAt(line, bad, n) == r.c + 1
  {
    var b := line[n - 1];
    if b.kind != Normal && !(IsRedirection(b) && FileOf(b) in bad) {
      ScanStops(line, bad, n - 1, In(b, fd0), Out(b, fd1));
    }
  }

  /** The descriptors after a scan: the leftmost redirections it passed. */
  lemma {:induction false} ScanRedirects(line: seq<Block>, bad: set<Desc>, n: nat, fd0: Desc, fd1: Desc)
    requires 0 < n <= |line| && line[0].kind == Normal
    ensures var r := Scan(line, bad, n, fd0, fd1);
            r.fd0 == LeftmostIn(line, r.c + 1, n, fd0) && r.fd1 == LeftmostOut(line, r.c + 1, n, fd1)
  {
    var b := line[n - 1];
    if b.kind == Normal || (IsRedirection(b) && FileOf(b) in bad) {
    } else {
      var d0, d1 := In(b, fd0), Out(b, fd1);
      ScanRedirects(line, bad, n - 1, d0, d1);
      ScanOn(line, bad, n, fd0, fd1);
      OneBack(line, Scan(line, bad, n - 1, d0, d1).c + 1, n, fd0, fd1);
    }
  }

  lemma ScanOn(line: seq<Block>, bad: set<Desc>, n: nat, fd0: Desc, fd1: Desc)
    requires 0 < n <= |line| && line[0].kind == Normal
    requires line[n - 1].kind != Normal && !(IsRedirection(line[n - 1]) && FileOf(line[n - 1]) in bad)
    ensures var r, r' := Scan(line, bad, n, fd0, fd1),
                         Scan(line, bad, n - 1, In(line[n - 1], fd0), Out(line[n - 1], fd1));
            r.c == r'.c && r.fd0 == r'.fd0 && r.fd1 == r'.fd1
  {
  }

  /** One more block to the right is redirected to first. */
  lemma OneBack(line: seq<Block>, a: nat, n: nat, fd0: Desc, fd1: Desc)
    requires a < n <= |line|
    ensures LeftmostIn(line, a, n, fd0) == LeftmostIn(line, a, n - 1, In(line[n - 1], fd0))
    ensures LeftmostOut(line, a, n, fd1) == LeftmostOut(line, a, n - 1, Out(line[n - 1], fd1))
  {
    LeftmostSplits(line, a, n - 1, n, fd0);
    LeftmostSplits(line, a, n - 1, n, fd1);
    assert LeftmostIn(line, n - 1, n, fd0) == In(line[n - 1], fd0);
    assert LeftmostOut(line, n - 1, n, fd1) == Out(line[n - 1], fd1);
  }

  /** The descriptors with which the recursion reaches block `n`. */
  function At(line: seq<Block>, ctx: Context, n: nat): Context
    requires n <= |line|
  {
    Context(LeftmostIn(line, n, |line|, ctx.fd0),
            if n == |line| then ctx.fd1 else PipeWrite(ctx.pipes + CommandsFrom(line, n + 1)),
            ctx.pipes + CommandsFrom(line, n))
  }

  lemma {:induction false} SkipCommands(line: seq<Block>, a: nat, n: nat)
    requires a <= n <= |line| && forall i :: a <= i < n ==> line[i].kind != Normal
    requires n == |line| || line[n].kind == Normal
    ensures CommandsFrom(line, a) == CommandsFrom(line, n) && NextCommand(line, a) == n
    decreases n - a
  {
    if a == n {
    } else {
      SkipCommands(line, a + 1, n);
    }
  }

  lemma {:induction false} SkipWired(line: seq<Block>, ctx: Context, a: nat, n: nat, stop: nat)
    requires stop <= a <= n <= |line| && forall i :: a <= i < n ==> line[i].kind != Normal
    ensures WiredDown(line, ctx, n, stop) == WiredDown(line, ctx, a, stop)
    decreases n - a
  {
    if a == n {
    } else {
      SkipWired(line, ctx, a, n - 1, stop);
    }
  }

  lemma {:induction false} OpenedSplits(line: seq<Block>, n: nat, m: nat, stop: nat)
    requires stop <= m <= n <= |line|
    ensures OpenedDown(line, n, stop) == OpenedDown(line, n, m) + OpenedDown(line, m, stop)
    decreases n - m
  {
    if m == n {
    } else {
      OpenedSplits(line, n - 1, m, stop);
    }
  }

  /** A successful scan leads from the descriptors at `n` to those at the command it found. */
  lemma ScanAt(line: seq<Block>, bad: set<Desc>, ctx: Context, n: nat)
    requires 0 < n <= |line| && line[0].kind == Normal
    requires n == |line| || line[n].kind == Normal
    requires Scan(line, bad, n, At(line, ctx, n).fd0, At(line, ctx, n).fd1).ok
    ensures var at := At(line, ctx, n);
            var r := Scan(line, bad, n, at.fd0, at.fd1);
            && At(line, ctx, r.c) == Context(r.fd0, PipeWrite(at.pipes), at.pipes + 1)
            && Wired(line, ctx, r.c) == Started(r.c, if r.c == 0 then r.fd0 else PipeRead(at.pipes), r.fd1)
  {
    var at := At(line, ctx, n);
    var r := Scan(line, bad, n, at.fd0, at.fd1);
    ScanPasses(line, bad, n, at.fd0, at.fd1);
    ScanRedirects(line, bad, n, at.fd0, at.fd1);
    SkipCommands(line, r.c + 1, n);
    LeftmostSplits(line, r.c + 1, n, |line|, ctx.fd0);
  }

  /** The process's own standard output after the blocks from `stop` on: the leftmost file that
      the blocks in front of the next command redirect to, or else that command's pipe. */
  function FinalOut(line: seq<Block>, ctx: Context, stop: nat): Desc
    requires stop <= |line|
  {
    LeftmostOut(line, stop, NextCommand(line, stop), At(line, ctx, NextCommand(line, stop)).fd1)
  }

  /** Reached at block `n`, the recursion starts, opens and leaves what is declared. */
  ghost predicate IsWired(line: seq<Block>, bad: set<Desc>, ctx: Context, n: nat)
    requires n <= |line| && line != [] && line[0].kind == Normal
  {
    var e, stop := Exec(line, bad, n, At(line, ctx, n)), StopAt(line, bad, n);
    && e.started == WiredDown(line, ctx, n, stop)
    && e.opens == OpenedDown(line, n, stop)
    && (e.ok <==> stop == 0) && e.out == FinalOut(line, ctx, stop)
  }

  lemma {:induction false} ExecWired(line: seq<Block>, bad: set<Desc>, ctx: Context, n: nat)
    requires n <= |line| && line != [] && line[0].kind == Normal
    requires n == |line| || line[n].kind == Normal
    ensures IsWired(line, bad, ctx, n)
  {
    if n == 0 {
    } else {
      var r := Scan(line, bad, n, At(line, ctx, n).fd0, At(line, ctx, n).fd1);
      if r.ok {
        ExecWired(line, bad, ctx, r.c);
        StartWired(line, bad, ctx, n);
      } else {
        StuckWired(line, bad, ctx, n);
      }
    }
  }

  lemma StartWired(line: seq<Block>, bad: set<Desc>, ctx: Context, n: nat)
    requires 0 < n <= |line| && line[0].kind == Normal && (n == |line| || line[n].kind == Normal)
    requires var r := Scan(line, bad, n, At(line, ctx, n).fd0, At(line, ctx, n).fd1);
             r.ok && IsWired(line, bad, ctx, r.c)
    ensures IsWired(line, bad, ctx, n)
  {
    var at := At(line, ctx, n);
    var c := Scan(line, bad, n, at.fd0, at.fd1).c;
    ScanAt(line, bad, ctx, n);
    ScanPasses(line, bad, n, at.fd0, at.fd1);
    ScanStops(line, bad, n, at.fd0, at.fd1);
    ExecStarts(line, bad, n, at, Wired(line, ctx, c), At(line, ctx, c));
    NextWired(line, ctx, n, c, StopAt(line, bad, n));
  }

  /** One step of the recursion, from context `at` to context `next`. */
  lemma ExecStarts(line: seq<Block>, bad: set<Desc>, n: nat, at: Context, command: Started, next: Context)
    requires 0 < n <= |line| && line[0].kind == Normal && Scan(line, bad, n, at.fd0, at.fd1).ok
    requires var r := Scan(line, bad, n, at.fd0, at.fd1);
             && next == Context(r.fd0, PipeWrite(at.pipes), at.pipes + 1)
             && command == Started(r.c, if r.c == 0 then r.fd0 else PipeRead(at.pipes), r.fd1)
    ensures var r := Scan(line, bad, n, at.fd0, at.fd1);
            var rest := Exec(line, bad, r.c, next);
            Exec(line, bad, n, at) == Outcome([command] + rest.started, r.opens + rest.opens, rest.ok, rest.out)
  {
  }

  lemma NextWired(line: seq<Block>, ctx: Context, n: nat, c: nat, stop: nat)
    requires stop <= c < n <= |line| && line[c].kind == Normal && forall i :: c < i < n ==> line[i].kind != Normal
    ensures WiredDown(line, ctx, n, stop) == [Wired(line, ctx, c)] + WiredDown(line, ctx, c, stop)
    ensures OpenedDown(line, n, stop) == OpenedDown(line, n, c + 1) + OpenedDown(line, c, stop)
  {
    SkipWired(line, ctx, c + 1, n, stop);
    OpenedSplits(line, n, c + 1, stop);
    AddCommand(line, ctx, c, stop);
  }

  lemma StuckWired(line: seq<Block>, bad: set<Desc>, ctx: Context, n: nat)
    requires 0 < n <= |line| && line[0].kind == Normal && (n == |line| || line[n].kind == Normal)
    requires !Scan(line, bad, n, At(line, ctx, n).fd0, At(line, ctx, n).fd1).ok
    ensures IsWired(line, bad, ctx, n)
  {
    StuckStarts(line, bad, ctx, n, At(line, ctx, n));
    StuckEnds(line, bad, n, At(line, ctx, n));
    StuckOut(line, bad, ctx, n);
  }

  /** A scan that fails starts nothing, and opens the files up to the one it fails at. */
  lemma StuckStarts(line: seq<Block>, bad: set<Desc>, ctx: Context, n: nat, at: Context)
    requires 0 < n <= |line| && line[0].kind == Normal && !Scan(line, bad, n, at.fd0, at.fd1).ok
    ensures var e, stop := Exec(line, bad, n, at), StopAt(line, bad, n);
            e.started == WiredDown(line, ctx, n, stop) && e.opens == OpenedDown(line, n, stop)
  {
    ExecStops(line, bad, n, at);
    ScanPasses(line, bad, n, at.fd0, at.fd1);
    ScanStops(line, bad, n, at.fd0, at.fd1);
    NoneWired(line, ctx, StopAt(line, bad, n), n);
  }

  lemma StuckEnds(line: seq<Block>, bad: set<Desc>, n: nat, at: Context)
    requires 0 < n <= |line| && line[0].kind == Normal && !Scan(line, bad, n, at.fd0, at.fd1).ok
    ensures var e, r := Exec(line, bad, n, at), Scan(line, bad, n, at.fd0, at.fd1);
            !e.ok && e.out == r.fd1 && StopAt(line, bad, n) == r.c + 1
  {
    ExecStops(line, bad, n, at);
    ScanStops(line, bad, n, at.fd0, at.fd1);
  }

  lemma NoneWired(line: seq<Block>, ctx: Context, stop: nat, n: nat)
    requires stop <= n <= |line| && forall i :: stop <= i < n ==> line[i].kind != Normal
    ensures WiredDown(line, ctx, n, stop) == []
  {
    SkipWired(line, ctx, stop, n, stop);
  }

  lemma StuckOut(line: seq<Block>, bad: set<Desc>, ctx: Context, n: nat)
    requires 0 < n <= |line| && line[0].kind == Normal && (n == |line| || line[n].kind == Normal)
    ensures var r := Scan(line, bad, n, At(line, ctx, n).fd0, At(line, ctx, n).fd1);
            r.fd1 == FinalOut(line, ctx, r.c + 1)
  {
    var at := At(line, ctx, n);
    ScanPasses(line, bad, n, at.fd0, at.fd1);
    ScanRedirects(line, bad, n, at.fd0, at.fd1);
    SkipCommands(line, Scan(line, bad, n, at.fd0, at.fd1).c + 1, n);
  }

  lemma ExecStops(line: seq<Block>, bad: set<Desc>, n: nat, at: Context)
    requires 0 < n <= |line| && line[0].kind == Normal && !Scan(line, bad, n, at.fd0, at.fd1).ok
    ensures var r := Scan(line, bad, n, at.fd0, at.fd1);
            Exec(line, bad, n, at) == Outcome([], r.opens, false, r.fd1)
  {
  }

  lemma AddCommand(line: seq<Block>, ctx: Context, c: nat, stop: nat)
    requires stop <= c < |line| && line[c].kind == Normal
    ensures WiredDown(line, ctx, c + 1, stop) == [Wired(line, ctx, c)] + WiredDown(line, ctx, c, stop)
    ensures OpenedDown(line, c + 1, stop) == OpenedDown(line, c, stop)
  {
  }

  /** Every line that starts with a command is wired as declared. If all its files can be opened,
      every command is started, each once, and every redirection target is opened, right to left.
      Otherwise the commands to the right of the rightmost unopenable target are started, wired
      the same way, and no other. */
  lemma PipelineIsWired(line: seq<Block>, bad: set<Desc>, ctx: Context)
    requires line != [] && line[0].kind == Normal
    ensures var e, stop := Exec(line, bad, |line|, ctx), StopAt(line, bad, |line|);
            && e.started == WiredDown(line, ctx, |line|, stop)
            && e.opens == OpenedDown(line, |line|, stop) && e.out == FinalOut(line, ctx, stop)
            && (e.ok <==> forall i :: 0 <= i < |line| && IsRedirection(line[i]) ==> FileOf(line[i]) !in bad)
  {
    ExecWired(line, bad, ctx, |line|);
    StopAtIsRightmost(line, bad, |line|);
    assert At(line, ctx, |line|) == ctx;
  }

  /** Neighbouring commands are connected: unless the left one's output is redirected, it writes
      into the pipe the right one reads. */
  lemma NeighboursShareAPipe(line: seq<Block>, ctx: Context, c: nat)
    requires c < |line| && NextCommand(line, c + 1) < |line|
    ensures var d := NextCommand(line, c + 1);
            var (left, right) := (Wired(line, ctx, c), Wired(line, ctx, d));
            && right.input.PipeRead?
            && (left.output == PipeWrite(right.input.id)
                || exists i :: c < i < d && RedirectsOutput(line[i]) && left.output == FileOf(line[i]))
  {
    var d := NextCommand(line, c + 1);
    OutIsOwn(line, c + 1, d, PipeWrite(ctx.pipes + CommandsFrom(line, d + 1)));
  }

  lemma {:induction false} OutIsOwn(line: seq<Block>, a: nat, b: nat, d: Desc)
    requires a <= b <= |line|
    ensures LeftmostOut(line, a, b, d) == d
            || exists i :: a <= i < b && RedirectsOutput(line[i]) && LeftmostOut(line, a, b, d) == FileOf(line[i])
    decreases b - a
  {
    if a >= b {
    } else {
      OutIsOwn(line, a + 1, b, d);
    }
  }
}
