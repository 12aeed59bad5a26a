/** What the cache's operations do, said outright: initial statuses, single flags, queues, and the
    blocks that start held. */
module BufferLaws {
  import opened Seqs
  import opened BufferPool
  import opened BufferRuns

  // ---------------------------------------------------------------- the status byte

  /** The byte that a status is kept in. */
  function ByteOf(s: Stat): bv8 {
    (if s.locked then 1 else 0) | (if s.valid then 2 else 0) | (if s.dwr then 4 else 0)
    | (if s.krdwr then 8 else 0) | (if s.waited then 16 else 0) | (if s.aged then 32 else 0)
  }

  lemma ByteIsRead(s: Stat)
    ensures Flags(ByteOf(s)) == s
  {
  }

  /** Setting or clearing one flag of a block: its buffer gets that flag and keeps the other five,
      and nothing else changes. */
  lemma ChangeSetsOneFlag(v: Pool, b: nat, f: Flag, val: bool, j: nat)
    requires Inv(v) && j < |v.blk|
    ensures var w, s := Step(v, Change(b, f, val)), v.stat[j];
            && w.blk == v.blk && w.queue == v.queue && w.free == v.free && |w.stat| == |v.stat|
            && w.stat[j] ==
                 if v.blk[j] != b then s
                 else match f
                      case Locked => Stat(val, s.valid, s.dwr, s.krdwr, s.waited, s.aged)
                      case Valid => Stat(s.locked, val, s.dwr, s.krdwr, s.waited, s.aged)
                      case Dwr => Stat(s.locked, s.valid, val, s.krdwr, s.waited, s.aged)
                      case Krdwr => Stat(s.locked, s.valid, s.dwr, val, s.waited, s.aged)
                      case Waited => Stat(s.locked, s.valid, s.dwr, s.krdwr, val, s.aged)
                      case Old => Stat(s.locked, s.valid, s.dwr, s.krdwr, s.waited, val)
  {
    FindUnique(v.blk, j);
  }

  // ---------------------------------------------------------------- hash queues

  /** A buffer is on the queue numbered by its block modulo the number of queues, and on no other. */
  lemma QueueOfBlock(v: Pool, i: nat, h: nat)
    requires Inv(v) && i < |v.blk| && h < |v.queue|
    ensures i in v.queue[h] <==> h == v.blk[i] % |v.queue|
  {
    assert OnItsQueue(v, i);
  }

  /** A miss takes its victim `r`, and no other buffer, off the queue of its former block and puts it
      at the end of the queue of the new one. */
  lemma MissMovesVictim(v: Pool, b: nat, r: nat) returns (k: nat)
    requires Inv(v) && b !in v.blk && GetBlk(v, b).1 == r
    ensures var w, m := GetBlk(v, b).0, |v.queue|;
            && r < |v.blk| && |w.queue| == m
            && var g := v.blk[r] % m;
               && k < |v.queue[g]| && v.queue[g][k] == r
               && forall h :: 0 <= h < m ==>
                    w.queue[h] == (if h == g then Cut(v.queue[h], k) else v.queue[h]) + if h == b % m then [r] else []
  {
    k := UnqueueCuts(v, r);
    MissQueues(v, b, r);
  }

  lemma MissQueues(v: Pool, b: nat, r: nat)
    requires Inv(v) && b !in v.blk && GetBlk(v, b).1 == r
    ensures r < |v.blk| && GetBlk(v, b).0.queue == Enqueue(Unqueue(v, r), b, r).queue
  {
    var d := DwrPrefix(v.free, v.stat);
    DrainKeepsInv(v, d);
    VictimQueues(Drained(v, d), b, r);
  }

  lemma VictimQueues(v: Pool, b: nat, r: nat)
    requires Shape(v) && v.free != [] && v.free[0] == r
    ensures Replace(v, b).queue == Enqueue(Unqueue(v, r), b, r).queue
  {
  }

  // ---------------------------------------------------------------- the start

  ghost predicate Ascending(s: seq<nat>) {
    forall k, l :: 0 <= k < l < |s| ==> s[k] < s[l]
  }

  lemma {:induction false} FiledInOrder(blks: seq<nat>, m: nat)
    requires m > 0
    ensures forall h :: 0 <= h < m ==> Ascending(QueuesOf(blks, m)[h])
  {
    if blks == [] {
    } else {
      FiledInOrder(blks[..|blks| - 1], m);
    }
  }

  /** The cache as initialised: buffer `i` holds the i-th block with valid contents and no other
      mark, locked unless its block is listed as free; the free list is the listed blocks in order,
      and every queue has its buffers in order. */
  ghost predicate StartsAs(v: Pool, blks: seq<nat>, m: nat, free: seq<nat>) {
    && v.blk == blks && |v.stat| == |blks| && |v.queue| == m && |v.free| == |free|
    && (forall k :: 0 <= k < |free| ==> v.free[k] < |blks| && blks[v.free[k]] == free[k])
    && (forall i :: 0 <= i < |blks| ==> v.stat[i] == Stat(blks[i] !in free, true, false, false, false, false))
    && (forall h :: 0 <= h < m ==> Ascending(v.queue[h]))
    && (forall h, i :: 0 <= h < m && 0 <= i < |blks| ==> (i in v.queue[h] <==> h == blks[i] % m))
  }

  lemma InitialPoolStarts(blks: seq<nat>, m: nat, free: seq<nat>)
    requires m > 0 && NoDup(blks) && NoDup(free) && forall k :: 0 <= k < |free| ==> free[k] in blks
    ensures Inv(InitialPool(blks, m, free)) && StartsAs(InitialPool(blks, m, free), blks, m, free)
  {
    var v, ids := InitialPool(blks, m, free), BuffersOf(blks, free);
    PartlyFreedInv(blks, m, ids);
    FiledInOrder(blks, m);
    forall i | 0 <= i < |blks| ensures i in ids <==> blks[i] in free {
      if blks[i] in free {
        var k :| 0 <= k < |free| && free[k] == blks[i];
        FindUnique(blks, i);
        assert ids[k] == i;
      }
    }
    forall h, i | 0 <= h < m && 0 <= i < |blks| ensures i in v.queue[h] <==> h == blks[i] % m {
      QueueOfBlock(v, i, h);
    }
  }

  // ---------------------------------------------------------------- blocks that start held

  /** A status but for the waited mark. */
  ghost predicate SameButWaited(s: Stat, t: Stat) {
    s.(waited := false) == t.(waited := false)
  }

  /** Whatever happens to other blocks, a held buffer keeps its status, except that a request for its
      block marks it awaited. */
  lemma HeldKeepsStatus(v: Pool, op: Op, i: nat)
    requires Inv(v) && OpDisciplined(op) && i < |v.blk| && v.stat[i].locked && !Releases(v, op, i)
    requires op.Change? ==> op.b != v.blk[i]
    ensures SameButWaited(v.stat[i], Step(v, op).stat[i])
  {
    FindUnique(v.blk, i);
    match op
    case Get(b) =>
      if b in v.blk {
        var k := HitTouchesOneBuffer(v, b, Find(v.blk, b));
      } else {
        assert i !in v.free;
        MissStatus(v, b, i);
      }
    case Release(b) =>
    case Change(b, f, val) => ChangeSetsOneFlag(v, b, f, val, i);
  }

  /** Nothing in the run gives buffer `i` back or changes a flag of its block. */
  ghost predicate LeftAlone(v: Pool, ops: seq<Op>, i: nat)
    requires Inv(v) && Disciplined(ops) && i < |v.blk|
  {
    forall j :: 0 <= j < |ops| ==> !Releases(Run(v, ops[..j]), ops[j], i) && (ops[j].Change? ==> ops[j].b != v.blk[i])
  }

  lemma {:induction false} HeldAlong(v: Pool, ops: seq<Op>, i: nat)
    requires Inv(v) && Disciplined(ops) && i < |v.blk| && v.stat[i].locked && LeftAlone(v, ops, i)
    ensures var w := Run(v, ops); w.blk[i] == v.blk[i] && SameButWaited(v.stat[i], w.stat[i])
  {
    if ops == [] {
    } else {
      var init, op := ops[..|ops| - 1], ops[|ops| - 1];
      forall j | 0 <= j < |init|
        ensures !Releases(Run(v, init[..j]), init[j], i) && (init[j].Change? ==> init[j].b != v.blk[i])
      {
        assert init[..j] == ops[..j] && init[j] == ops[j];
      }
      HeldAlong(v, init, i);
      assert ops[..|init|] == init;
      HeldKeepsStatus(Run(v, init), op, i);
      HeldUntilReleased(Run(v, init), op, i);
    }
  }

  /** A block that is held from the start can be given back after any run that left it alone: its
      buffer is then unlocked, valid and not marked otherwise, and last on the free list. */
  lemma HeldFromStart(blks: seq<nat>, m: nat, free: seq<nat>, ops: seq<Op>, i: nat)
    requires m > 0 && NoDup(blks) && NoDup(free) && forall k :: 0 <= k < |free| ==> free[k] in blks
    requires i < |blks| && blks[i] !in free && Disciplined(ops)
    requires Inv(InitialPool(blks, m, free)) && LeftAlone(InitialPool(blks, m, free), ops, i)
    ensures var v := Run(InitialPool(blks, m, free), ops);
            var w := Step(v, Release(blks[i]));
            && |w.stat| == |blks| && w.stat[i] == Stat(false, true, false, false, false, false)
            && w.free == v.free + [i]
  {
    var start := InitialPool(blks, m, free);
    InitialPoolStarts(blks, m, free);
    HeldAlong(start, ops, i);
    ReleaseTouchesOneBuffer(Run(start, ops), i);
  }
}
