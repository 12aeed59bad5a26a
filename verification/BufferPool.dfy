/** The buffer cache as a value: which block each buffer holds, its status, the hash queues and
    the free list. The heap program in BufferCache.dfy is proved to compute these functions. */
module BufferPool {
  import opened Seqs

  // ---------------------------------------------------------------- status byte

  datatype Stat = Stat(locked: bool, valid: bool, dwr: bool, krdwr: bool, waited: bool, aged: bool)

  const NO_FLAGS := Stat(false, false, false, false, false, false)

  datatype Flag = Locked | Valid | Dwr | Krdwr | Waited | Old

  function Mask(f: Flag): bv8 {
    match f
    case Locked => 0x01
    case Valid => 0x02
    case Dwr => 0x04
    case Krdwr => 0x08
    case Waited => 0x10
    case Old => 0x20
  }

  /** The six named bits of a status byte. */
  function Flags(s: bv8): Stat {
    Stat(s & 0x01 != 0, s & 0x02 != 0, s & 0x04 != 0, s & 0x08 != 0, s & 0x10 != 0, s & 0x20 != 0)
  }

  function SetMask(s: bv8, mask: bv8, val: bool): bv8 {
    if val then s | mask else s & !mask
  }

  function Has(s: Stat, f: Flag): bool {
    match f
    case Locked => s.locked
    case Valid => s.valid
    case Dwr => s.dwr
    case Krdwr => s.krdwr
    case Waited => s.waited
    case Old => s.aged
  }

  function With(s: Stat, f: Flag, val: bool): Stat {
    match f
    case Locked => s.(locked := val)
    case Valid => s.(valid := val)
    case Dwr => s.(dwr := val)
    case Krdwr => s.(krdwr := val)
    case Waited => s.(waited := val)
    case Old => s.(aged := val)
  }

  /** Masking the byte tells a status. */
  lemma MaskTellsFlag(s: bv8, f: Flag)
    ensures Has(Flags(s), f) <==> s & Mask(f) != 0
  {
  }

  /** Masking a bit in or out changes that status and no other. */
  lemma SetMaskSetsOneFlag(s: bv8, f: Flag, val: bool)
    ensures Flags(SetMask(s, Mask(f), val)) == With(Flags(s), f, val)
  {
  }

  // ---------------------------------------------------------------- lists of buffer numbers

  ghost predicate NoDup<T>(s: seq<T>) {
    forall i, j :: 0 <= i < j < |s| ==> s[i] != s[j]
  }

  /** `s` without the first occurrence of `x`. */
  function Without<T(==)>(s: seq<T>, x: T): seq<T> {
    if s == [] then [] else if s[0] == x then s[1..] else [s[0]] + Without(s[1..], x)
  }

  lemma {:induction false} WithoutAt<T>(s: seq<T>, k: nat)
    requires NoDup(s) && k < |s|
    ensures Without(s, s[k]) == s[..k] + s[k + 1..]
    ensures NoDup(Without(s, s[k]))
    ensures forall y :: y in Without(s, s[k]) <==> y in s && y != s[k]
  {
    if k == 0 {
    } else {
      WithoutAt(s[1..], k - 1);
      assert s[..k] == [s[0]] + s[1..][..k - 1];
    }
    CutMembers(s, k);
  }

  lemma CutMembers<T>(s: seq<T>, k: nat)
    requires NoDup(s) && k < |s|
    ensures var r := s[..k] + s[k + 1..]; NoDup(r) && forall y :: y in r <==> y in s && y != s[k]
  {
    var r := s[..k] + s[k + 1..];
    forall y ensures y in r <==> y in s && y != s[k] {
      if y in s && y != s[k] {
        var j :| 0 <= j < |s| && s[j] == y;
        assert r[if j < k then j else j - 1] == y;
      }
    }
  }

  /** The buffer holding block `b`, or -1. */
  ghost function Find(blk: seq<nat>, b: nat): (r: int)
    ensures -1 <= r < |blk|
    ensures r == -1 <==> b !in blk
    ensures r != -1 ==> blk[r] == b
  {
    if b in blk then var i :| 0 <= i < |blk| && blk[i] == b; i else -1
  }

  lemma FindUnique(blk: seq<nat>, i: nat)
    requires NoDup(blk) && i < |blk|
    ensures Find(blk, blk[i]) == i
  {
  }

  // ---------------------------------------------------------------- the pool

  datatype Pool = Pool(blk: seq<nat>, stat: seq<Stat>, queue: seq<seq<nat>>, free: seq<nat>)

  function Hash(b: nat, m: nat): (h: nat)
    requires m > 0
    ensures h < m
  {
    b % m
  }

  /** Every list entry is a buffer number, no list repeats one, and a queue holds only buffers
      whose block hashes to it (so no buffer is on two queues). */
  ghost predicate Shape(v: Pool) {
    && |v.stat| == |v.blk| && |v.queue| > 0
    && (forall h, k :: 0 <= h < |v.queue| && 0 <= k < |v.queue[h]| ==>
          v.queue[h][k] < |v.blk| && Hash(v.blk[v.queue[h][k]], |v.queue|) == h)
    && (forall h :: 0 <= h < |v.queue| ==> NoDup(v.queue[h]))
    && (forall k :: 0 <= k < |v.free| ==> v.free[k] < |v.blk|)
    && NoDup(v.free)
  }

  /** Every buffer is on the queue of its block, and no block is held twice. */
  ghost predicate Mapped(v: Pool)
    requires Shape(v)
  {
    && NoDup(v.blk)
    && forall i {:trigger OnItsQueue(v, i)} :: 0 <= i < |v.blk| ==> OnItsQueue(v, i)
  }

  ghost predicate OnItsQueue(v: Pool, i: nat)
    requires |v.queue| > 0 && i < |v.blk|
  {
    i in v.queue[Hash(v.blk[i], |v.queue|)]
  }

  /** A buffer is on the free list exactly when it is unlocked. */
  ghost predicate FreeIsUnlocked(v: Pool)
    requires Shape(v)
  {
    forall i :: 0 <= i < |v.blk| ==> (i in v.free <==> !v.stat[i].locked)
  }

  ghost predicate Inv(v: Pool) {
    Shape(v) && Mapped(v) && FreeIsUnlocked(v)
  }

  // ---------------------------------------------------------------- operations

  /** How many buffers at the front of the free list await a delayed write. */
  function DwrPrefix(free: seq<nat>, stat: seq<Stat>): (k: nat)
    requires forall j :: 0 <= j < |free| ==> free[j] < |stat|
    ensures k <= |free|
    ensures forall j :: 0 <= j < k ==> stat[free[j]].dwr
    ensures k < |free| ==> !stat[free[k]].dwr
  {
    if free == [] || !stat[free[0]].dwr then 0 else 1 + DwrPrefix(free[1..], stat)
  }

  function SetFlagAt(stat: seq<Stat>, i: nat, f: Flag, val: bool): seq<Stat>
    requires i < |stat|
  {
    stat[i := With(stat[i], f, val)]
  }

  function LockAll(stat: seq<Stat>, ids: seq<nat>): (r: seq<Stat>)
    ensures |r| == |stat|
    ensures forall i :: 0 <= i < |stat| ==> r[i] == if i in ids then With(stat[i], Locked, true) else stat[i]
  {
    seq(|stat|, i requires 0 <= i < |stat| => if i in ids then With(stat[i], Locked, true) else stat[i])
  }

  function Unqueue(v: Pool, i: nat): Pool
    requires Shape(v) && i < |v.blk|
  {
    var h := Hash(v.blk[i], |v.queue|);
    v.(queue := v.queue[h := Without(v.queue[h], i)])
  }

  function Enqueue(v: Pool, b: nat, i: nat): Pool
    requires |v.queue| > 0 && i < |v.blk|
  {
    var h := Hash(b, |v.queue|);
    v.(blk := v.blk[i := b], queue := v.queue[h := v.queue[h] + [i]])
  }

  /** Buffer `i` takes over block `b`. */
  function Rebind(v: Pool, b: nat, i: nat): Pool
    requires Shape(v) && i < |v.blk|
  {
    Enqueue(Unqueue(v, i), b, i)
  }

  /** The first free buffer, locked and off the list. */
  function TakeFirst(v: Pool): Pool
    requires Shape(v) && |v.free| > 0
  {
    v.(stat := SetFlagAt(v.stat, v.free[0], Locked, true), free := v.free[1..])
  }

  /** Taking the first free buffer for block `b`. */
  function Replace(v: Pool, b: nat): Pool
    requires Shape(v) && |v.free| > 0
  {
    var rebound := Rebind(TakeFirst(v), b, v.free[0]);
    rebound.(stat := SetFlagAt(rebound.stat, v.free[0], Valid, false))
  }

  /** The pool once the first `k` free buffers are locked and off the free list. */
  function Drained(v: Pool, k: nat): Pool
    requires k <= |v.free|
  {
    v.(stat := LockAll(v.stat, v.free[..k]), free := v.free[k..])
  }

  /** What a request for block `b` does: the new pool, and the buffer handed out or -1. */
  ghost function GetBlk(v: Pool, b: nat): (Pool, int)
    requires Shape(v)
  {
    var i := Find(v.blk, b);
    if i >= 0 && v.stat[i].locked then
      (v.(stat := SetFlagAt(v.stat, i, Waited, true)), -1)
    else if i >= 0 then
      (v.(stat := SetFlagAt(v.stat, i, Locked, true), free := Without<nat>(v.free, i)), i)
    else
      var k := DwrPrefix(v.free, v.stat);
      if k == |v.free| then (Drained(v, k), -1) else (Replace(Drained(v, k), b), v.free[k])
  }

  ghost function Brelse(v: Pool, b: nat): Pool
    requires Shape(v)
  {
    var i := Find(v.blk, b);
    if i < 0 || !v.stat[i].locked then v
    else PutBack(v.(stat := SetFlagAt(v.stat, i, Waited, false)), i)
  }

  /** Buffer `i` goes to the tail of the free list, or to its head if it is marked old, and is
      unlocked; a buffer without valid contents stays as it is. */
  function PutBack(v: Pool, i: nat): Pool
    requires i < |v.blk| == |v.stat|
  {
    if !v.stat[i].valid then v
    else if !v.stat[i].aged then v.(stat := SetFlagAt(v.stat, i, Locked, false), free := v.free + [i])
    else v.(stat := SetFlagAt(SetFlagAt(v.stat, i, Locked, false), i, Old, false), free := [i] + v.free)
  }

  ghost function ChangeStat(v: Pool, b: nat, f: Flag, val: bool): Pool
    requires Shape(v)
  {
    var i := Find(v.blk, b);
    if i < 0 then v else v.(stat := SetFlagAt(v.stat, i, f, val))
  }

  datatype Op = Get(b: nat) | Release(b: nat) | Change(b: nat, f: Flag, val: bool)

  ghost function Step(v: Pool, op: Op): (w: Pool)
    requires Shape(v)
    ensures |w.blk| == |v.blk| && |w.queue| == |v.queue|
  {
    match op
    case Get(b) => GetBlk(v, b).0
    case Release(b) => Brelse(v, b)
    case Change(b, f, val) => ChangeStat(v, b, f, val)
  }

  /** No operation sets or clears the lock bit by hand. */
  ghost predicate Disciplined(ops: seq<Op>) {
    forall j :: 0 <= j < |ops| ==> OpDisciplined(ops[j])
  }

  ghost predicate OpDisciplined(op: Op) {
    op.Change? ==> op.f != Locked
  }

  // ---------------------------------------------------------------- the invariant

  lemma UnqueueQueues(v: Pool, i: nat)
    requires Shape(v) && Mapped(v) && i < |v.blk|
    ensures var q := Unqueue(v, i).queue;
            && |q| == |v.queue|
            && (forall h :: 0 <= h < |q| ==> NoDup(q[h]))
            && (forall h, j :: 0 <= h < |q| ==> (j in q[h] <==> j in v.queue[h] && j != i))
  {
    var h := Hash(v.blk[i], |v.queue|);
    assert OnItsQueue(v, i);
    var k :| 0 <= k < |v.queue[h]| && v.queue[h][k] == i;
    WithoutAt(v.queue[h], k);
    forall g, j | 0 <= g < |v.queue|
      ensures j in Unqueue(v, i).queue[g] <==> j in v.queue[g] && j != i
    {
      assert g != h ==> i !in v.queue[g];
    }
  }

  lemma UnqueueCuts(v: Pool, i: nat) returns (k: nat)
    requires Shape(v) && Mapped(v) && i < |v.blk|
    ensures var h := Hash(v.blk[i], |v.queue|);
            && k < |v.queue[h]| && v.queue[h][k] == i
            && Unqueue(v, i) == v.(queue := v.queue[h := v.queue[h][..k] + v.queue[h][k + 1..]])
  {
    var h := Hash(v.blk[i], |v.queue|);
    assert OnItsQueue(v, i);
    k :| 0 <= k < |v.queue[h]| && v.queue[h][k] == i;
    WithoutAt(v.queue[h], k);
  }

  lemma FreeCuts(v: Pool, i: nat) returns (k: nat)
    requires Shape(v) && i in v.free
    ensures k < |v.free| && v.free[k] == i && Without(v.free, i) == Cut(v.free, k)
    ensures Shape(v.(free := Cut(v.free, k)))
  {
    k :| 0 <= k < |v.free| && v.free[k] == i;
    WithoutAt(v.free, k);
    CutKeepsShape(v, k);
  }

  lemma CutKeepsShape(v: Pool, k: nat)
    requires Shape(v) && k < |v.free|
    ensures Shape(v.(free := Cut(v.free, k)))
  {
    CutMembers(v.free, k);
  }

  lemma UnqueueKeepsShape(v: Pool, i: nat)
    requires Shape(v) && Mapped(v) && i < |v.blk|
    ensures Shape(Unqueue(v, i))
    ensures forall g :: 0 <= g < |v.queue| ==> i !in Unqueue(v, i).queue[g]
  {
    UnqueueQueues(v, i);
    var u := Unqueue(v, i);
    forall h, k | 0 <= h < |u.queue| && 0 <= k < |u.queue[h]|
      ensures u.queue[h][k] < |u.blk| && Hash(u.blk[u.queue[h][k]], |u.queue|) == h
    {
      assert u.queue[h][k] in u.queue[h];
      assert u.queue[h][k] in v.queue[h];
    }
  }

  lemma EnqueueKeepsShape(v: Pool, b: nat, i: nat)
    requires Shape(v) && i < |v.blk|
    requires forall g :: 0 <= g < |v.queue| ==> i !in v.queue[g]
    ensures Shape(Enqueue(v, b, i))
  {
  }

  lemma RebindKeepsInv(v: Pool, b: nat, i: nat)
    requires Inv(v) && i < |v.blk| && b !in v.blk
    ensures Inv(Rebind(v, b, i))
  {
    UnqueueQueues(v, i);
    UnqueueKeepsShape(v, i);
    var u := Unqueue(v, i);
    EnqueueKeepsShape(u, b, i);
    var w := Rebind(v, b, i);
    forall j | 0 <= j < |w.blk| ensures OnItsQueue(w, j) {
      if j != i {
        assert OnItsQueue(v, j) && OnItsQueue(u, j);
      }
    }
  }

  /** Status and free-list changes do not touch the queues. */
  lemma SameQueues(v: Pool, w: Pool)
    requires Shape(v) && w.blk == v.blk && w.queue == v.queue
    ensures Shape(w) && Mapped(v) ==> Mapped(w)
  {
    if Shape(w) && Mapped(v) {
      forall i | 0 <= i < |w.blk| ensures OnItsQueue(w, i) {
        assert OnItsQueue(v, i);
      }
    }
  }

  lemma DrainKeepsInv(v: Pool, k: nat)
    requires Inv(v) && k <= |v.free|
    ensures Inv(Drained(v, k))
  {
    SameQueues(v, Drained(v, k));
    forall i | 0 <= i < |v.blk| ensures i in v.free[k..] <==> i in v.free && i !in v.free[..k] {
      assert v.free == v.free[..k] + v.free[k..];
    }
  }

  lemma TakeKeepsInv(v: Pool, k: nat)
    requires Inv(v) && k < |v.free|
    ensures Inv(v.(stat := SetFlagAt(v.stat, v.free[k], Locked, true), free := Without(v.free, v.free[k])))
  {
    WithoutAt(v.free, k);
    SameQueues(v, v.(stat := SetFlagAt(v.stat, v.free[k], Locked, true), free := Without(v.free, v.free[k])));
  }

  lemma FlagKeepsInv(v: Pool, i: nat, f: Flag, val: bool)
    requires Inv(v) && i < |v.blk|
    ensures Inv(v.(stat := SetFlagAt(v.stat, i, f, val))) <==> f != Locked || v.stat[i].locked == val
  {
    var w := v.(stat := SetFlagAt(v.stat, i, f, val));
    SameQueues(v, w);
    if f == Locked && v.stat[i].locked != val {
      assert (i in w.free) != !w.stat[i].locked;
    }
  }

  lemma ReplaceKeepsInv(v: Pool, b: nat)
    requires Inv(v) && |v.free| > 0 && b !in v.blk
    ensures Inv(Replace(v, b))
  {
    var victim := v.free[0];
    assert Without(v.free, victim) == v.free[1..];
    TakeKeepsInv(v, 0);
    var taken := TakeFirst(v);
    RebindKeepsInv(taken, b, victim);
    FlagKeepsInv(Rebind(taken, b, victim), victim, Valid, false);
  }

  // ---------------------------------------------------------------- one request, loop by loop

  lemma TakeFirstSteps(v: Pool)
    requires Shape(v) && |v.free| > 0
    ensures var f := v.free[0];
            var s := SetFlagAt(v.stat, f, Locked, true);
            TakeFirst(v) == v.(stat := SetFlagAt(s, f, Locked, true), free := Without(v.free, f))
  {
  }

  lemma DrainedNone(v: Pool)
    requires Shape(v)
    ensures Drained(v, 0) == v
  {
  }

  lemma DrainedOneMore(v: Pool, k: nat)
    requires Inv(v) && k < |v.free|
    ensures Inv(Drained(v, k)) && Drained(v, k).free[0] == v.free[k]
    ensures TakeFirst(Drained(v, k)) == Drained(v, k + 1) && Inv(Drained(v, k + 1))
    ensures Drained(v, k + 1).stat[v.free[k]].dwr == v.stat[v.free[k]].dwr
  {
    DrainKeepsInv(v, k);
    DrainKeepsInv(v, k + 1);
    assert v.free[..k + 1] == v.free[..k] + [v.free[k]];
    assert TakeFirst(Drained(v, k)).stat == Drained(v, k + 1).stat;
  }

  /** A hit on an unlocked buffer, whose lock bit is set before and while it is taken off. */
  lemma GetBlkHit(v: Pool, b: nat)
    requires Inv(v) && b in v.blk && !v.stat[Find(v.blk, b)].locked
    ensures var i := Find(v.blk, b);
            var s := SetFlagAt(v.stat, i, Locked, true);
            GetBlk(v, b).0 == v.(stat := SetFlagAt(s, i, Locked, true), free := Without<nat>(v.free, i))
  {
  }

  /** A miss after `k` delayed-write buffers were drained ends as the specification says. */
  lemma GetBlkMiss(v: Pool, b: nat, k: nat)
    requires Inv(v) && k <= |v.free| && b !in v.blk
    requires forall j :: 0 <= j < k ==> v.stat[v.free[j]].dwr
    ensures k == |v.free| ==> GetBlk(v, b) == (Drained(v, k), -1)
    ensures k < |v.free| && !v.stat[v.free[k]].dwr ==>
              Shape(Drained(v, k)) && Drained(v, k).free != [] && GetBlk(v, b) == (Replace(Drained(v, k), b), v.free[k])
  {
  }

  lemma GetBlkKeepsInv(v: Pool, b: nat)
    requires Inv(v)
    ensures Inv(GetBlk(v, b).0)
  {
    var i := Find(v.blk, b);
    if i >= 0 && v.stat[i].locked {
      FlagKeepsInv(v, i, Waited, true);
    } else if i >= 0 {
      var k :| 0 <= k < |v.free| && v.free[k] == i;
      TakeKeepsInv(v, k);
    } else {
      var k := DwrPrefix(v.free, v.stat);
      DrainKeepsInv(v, k);
      if k < |v.free| {
        ReplaceKeepsInv(Drained(v, k), b);
      }
    }
  }

  lemma BrelseKeepsInv(v: Pool, b: nat)
    requires Inv(v)
    ensures Inv(Brelse(v, b))
  {
    var i := Find(v.blk, b);
    var w := Brelse(v, b);
    SameQueues(v, w);
    if i >= 0 && v.stat[i].locked {
      assert i !in v.free;
      forall j | 0 <= j < |v.blk| ensures j in w.free <==> !w.stat[j].locked {
        assert j in w.free <==> j in v.free || (v.stat[i].valid && j == i);
      }
    }
  }

  /** Every operation that leaves the lock bit to the cache keeps the invariant. Setting or clearing
      that bit by hand keeps it exactly when the block is not cached or its bit is that already. */
  lemma StepKeepsInv(v: Pool, op: Op)
    requires Inv(v)
    ensures OpDisciplined(op) ==> Inv(Step(v, op))
    ensures !OpDisciplined(op) ==>
              (Inv(Step(v, op)) <==> forall i :: 0 <= i < |v.blk| && v.blk[i] == op.b ==> v.stat[i].locked == op.val)
  {
    match op
    case Get(b) => GetBlkKeepsInv(v, b);
    case Release(b) => BrelseKeepsInv(v, b);
    case Change(b, f, val) =>
      var i := Find(v.blk, b);
      if i >= 0 {
        FlagKeepsInv(v, i, f, val);
      }
  }

  // ---------------------------------------------------------------- initialisation

  /** The queues after filing buffers 0, 1, ... under the given blocks, in that order. */
  ghost function QueuesOf(blks: seq<nat>, m: nat): (q: seq<seq<nat>>)
    requires m > 0
    ensures |q| == m
    ensures forall h, k :: 0 <= h < m && 0 <= k < |q[h]| ==> q[h][k] < |blks| && Hash(blks[q[h][k]], m) == h
  {
    if blks == [] then seq(m, i => [])
    else
      var q := QueuesOf(blks[..|blks| - 1], m);
      var h := Hash(blks[|blks| - 1], m);
      q[h := q[h] + [|blks| - 1]]
  }

  lemma {:induction false} QueuesOfShape(blks: seq<nat>, m: nat)
    requires m > 0
    ensures forall h :: 0 <= h < m ==> NoDup(QueuesOf(blks, m)[h])
    ensures forall i :: 0 <= i < |blks| ==> i in QueuesOf(blks, m)[Hash(blks[i], m)]
  {
    if blks == [] {
    } else {
      var init := blks[..|blks| - 1];
      QueuesOfShape(init, m);
      var q, n, h := QueuesOf(init, m), |init|, Hash(blks[|init|], m);
      FiledNext(q, n, h);
      assert QueuesOf(blks, m) == q[h := q[h] + [n]];
      forall i | 0 <= i < |blks| ensures i in QueuesOf(blks, m)[Hash(blks[i], m)] {
        if i < n { FiledStays(q, n, h, Hash(init[i], m), i); }
      }
    }
  }

  lemma FiledStays(q: seq<seq<nat>>, n: nat, h: nat, g: nat, i: nat)
    requires h < |q| && g < |q| && i in q[g]
    ensures i in q[h := q[h] + [n]][g]
  {
  }

  /** Filing one more buffer, `n`, at the end of queue `h`. */
  lemma FiledNext(q: seq<seq<nat>>, n: nat, h: nat)
    requires h < |q| && forall g :: 0 <= g < |q| ==> NoDup(q[g])
    requires forall g, k :: 0 <= g < |q| && 0 <= k < |q[g]| ==> q[g][k] < n
    ensures var q' := q[h := q[h] + [n]];
            (forall g :: 0 <= g < |q'| ==> NoDup(q'[g])) && n in q'[h]
  {
  }

  /** The buffers holding the listed blocks, in list order. */
  ghost function BuffersOf(blks: seq<nat>, wanted: seq<nat>): (ids: seq<nat>)
    requires forall k :: 0 <= k < |wanted| ==> wanted[k] in blks
    ensures |ids| == |wanted|
    ensures forall k :: 0 <= k < |ids| ==> ids[k] < |blks| && blks[ids[k]] == wanted[k]
  {
    seq(|wanted|, k requires 0 <= k < |wanted| => Find(blks, wanted[k]))
  }

  /** The pool `init` builds: every buffer filed and valid, the listed ones free, in order. */
  ghost function InitialPool(blks: seq<nat>, m: nat, free: seq<nat>): Pool
    requires m > 0 && forall k :: 0 <= k < |free| ==> free[k] in blks
  {
    PartlyFreed(blks, m, BuffersOf(blks, free))
  }

  ghost function PartlyFreed(blks: seq<nat>, m: nat, ids: seq<nat>): Pool
    requires m > 0
  {
    Pool(blks, seq(|blks|, i requires 0 <= i < |blks| => InitialStat(ids, i)), QueuesOf(blks, m), ids)
  }

  function InitialStat(free: seq<nat>, i: nat): Stat {
    NO_FLAGS.(valid := true, locked := i !in free)
  }

  /** Pool `v` once its first `i` buffers are filed, nothing being free yet. */
  ghost function Filed(v: Pool, blks: seq<nat>, m: nat, i: nat): Pool
    requires m > 0 && |v.blk| == |v.stat| == |blks| && i <= |blks|
  {
    Pool(blks[..i] + v.blk[i..],
         seq(i, j requires 0 <= j < i => InitialStat([], j)) + v.stat[i..],
         QueuesOf(blks[..i], m), [])
  }

  lemma FileOneMore(v: Pool, blks: seq<nat>, m: nat, i: nat)
    requires m > 0 && |v.blk| == |v.stat| == |blks| && i < |blks|
    ensures var u := Filed(v, blks, m, i);
            var w := Enqueue(u, blks[i], i);
            && (forall g :: 0 <= g < m ==> i !in u.queue[g])
            && w.(stat := w.stat[i := InitialStat([], i)]) == Filed(v, blks, m, i + 1)
  {
    assert blks[..i + 1][..i] == blks[..i];
    var u := Filed(v, blks, m, i);
    assert u.blk[i := blks[i]] == Filed(v, blks, m, i + 1).blk;
    assert u.stat[i := InitialStat([], i)] == Filed(v, blks, m, i + 1).stat;
  }

  lemma PartlyFreedInv(blks: seq<nat>, m: nat, ids: seq<nat>)
    requires m > 0 && NoDup(blks) && NoDup(ids) && forall k :: 0 <= k < |ids| ==> ids[k] < |blks|
    ensures Inv(PartlyFreed(blks, m, ids))
  {
    QueuesOfShape(blks, m);
    forall i | 0 <= i < |blks| ensures OnItsQueue(PartlyFreed(blks, m, ids), i) {
    }
  }

  lemma FreeOneMore(blks: seq<nat>, m: nat, free: seq<nat>, k: nat)
    requires m > 0 && NoDup(blks) && NoDup(free) && k < |free|
    requires forall j :: 0 <= j < |free| ==> free[j] in blks
    ensures var ids := BuffersOf(blks, free);
            var v, i := PartlyFreed(blks, m, ids[..k]), Find(blks, free[k]);
            && Inv(v) && i == ids[k] && ids[k] !in ids[..k]
            && v.(stat := SetFlagAt(v.stat, i, Locked, false), free := ids[..k] + [ids[k]])
               == PartlyFreed(blks, m, ids[..k + 1])
  {
    var ids := BuffersOf(blks, free);
    PartlyFreedInv(blks, m, ids[..k]);
    var v, w := PartlyFreed(blks, m, ids[..k]), PartlyFreed(blks, m, ids[..k + 1]);
    assert ids[..k + 1] == ids[..k] + [ids[k]];
    assert SetFlagAt(v.stat, ids[k], Locked, false) == w.stat;
  }

  /** The failing input: right after initialisation, setting the lock bit of a free block. */
  lemma HandSetLockBreaks(blks: seq<nat>, m: nat, free: seq<nat>, k: nat)
    requires m > 0 && NoDup(blks) && NoDup(free) && k < |free|
    requires forall j :: 0 <= j < |free| ==> free[j] in blks
    ensures Inv(InitialPool(blks, m, free))
    ensures !Inv(Step(InitialPool(blks, m, free), Change(free[k], Locked, true)))
  {
    var v, ids := InitialPool(blks, m, free), BuffersOf(blks, free);
    assert ids[..|free|] == ids;
    PartlyFreedInv(blks, m, ids);
    StepKeepsInv(v, Change(free[k], Locked, true));
    assert ids[k] in ids && v.blk[ids[k]] == free[k] && !v.stat[ids[k]].locked;
  }
}
