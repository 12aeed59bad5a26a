/** What holds along whole runs of cache operations. */
module BufferRuns {
  import opened BufferPool

  ghost function Run(v: Pool, ops: seq<Op>): (w: Pool)
    requires Inv(v) && Disciplined(ops)
    ensures Inv(w) && |w.blk| == |v.blk| && |w.queue| == |v.queue|
  {
    if ops == [] then v
    else
      var w := Run(v, ops[..|ops| - 1]);
      StepKeepsInv(w, ops[|ops| - 1]);
      Step(w, ops[|ops| - 1])
  }

  /** `op` gives buffer `i` back to the free list. */
  ghost predicate Releases(v: Pool, op: Op, i: nat)
    requires i < |v.blk| == |v.stat|
  {
    op == Release(v.blk[i]) && v.stat[i].locked && v.stat[i].valid
  }

  ghost predicate NothingReleased(v: Pool, op: Op)
    requires |v.blk| == |v.stat|
  {
    forall i :: 0 <= i < |v.blk| ==> !Releases(v, op, i)
  }

  // ---------------------------------------------------------------- held buffers

  /** A locked buffer keeps its block through every operation, and is unlocked by exactly one:
      a release of its own block while its contents are valid. */
  lemma HeldUntilReleased(v: Pool, op: Op, i: nat)
    requires Inv(v) && OpDisciplined(op) && i < |v.blk| && v.stat[i].locked
    ensures Step(v, op).blk[i] == v.blk[i]
    ensures Step(v, op).stat[i].locked <==> !Releases(v, op, i)
  {
    FindUnique(v.blk, i);
    assert i !in v.free;
    if op.Get? {
      HeldThroughGet(v, op.b, i);
    }
  }

  lemma HeldThroughGet(v: Pool, b: nat, i: nat)
    requires Inv(v) && i < |v.blk| && v.stat[i].locked && i !in v.free
    ensures GetBlk(v, b).0.blk[i] == v.blk[i] && GetBlk(v, b).0.stat[i].locked
  {
  }

  /** Along a run, a buffer held at the start and not yet released still holds its block, and a
      search for that block still finds it. */
  lemma {:induction false} HeldAlongRun(v: Pool, ops: seq<Op>, i: nat)
    requires Inv(v) && Disciplined(ops) && i < |v.blk| && v.stat[i].locked
    requires forall j :: 0 <= j < |ops| ==> !Releases(Run(v, ops[..j]), ops[j], i)
    ensures var w := Run(v, ops);
            && w.stat[i].locked && w.blk[i] == v.blk[i]
            && Find(w.blk, v.blk[i]) == i
            && i in w.queue[Hash(v.blk[i], |w.queue|)]
  {
    if ops == [] {
    } else {
      var init := ops[..|ops| - 1];
      forall j | 0 <= j < |init| ensures !Releases(Run(v, init[..j]), init[j], i) {
        assert init[..j] == ops[..j];
      }
      HeldAlongRun(v, init, i);
      HeldUntilReleased(Run(v, init), ops[|ops| - 1], i);
    }
    StillFound(Run(v, ops), i);
  }

  lemma StillFound(w: Pool, i: nat)
    requires Inv(w) && i < |w.blk|
    ensures Find(w.blk, w.blk[i]) == i && i in w.queue[Hash(w.blk[i], |w.queue|)]
  {
    FindUnique(w.blk, i);
    assert OnItsQueue(w, i);
  }

  /** A request never hands out a buffer that is already held, and what it hands out is locked
      and holds the requested block. */
  lemma GrantIsExclusive(v: Pool, b: nat)
    requires Inv(v)
    ensures var (w, r) := GetBlk(v, b);
            r >= 0 ==> r < |v.blk| && !v.stat[r].locked && w.stat[r].locked && w.blk[r] == b
  {
  }

  /** A hit touches one buffer, the one that holds the block: held, it is marked awaited and nothing
      is handed out; free, it is locked, handed out and cut from the free list, whose order stays. */
  lemma HitTouchesOneBuffer(v: Pool, b: nat, i: nat) returns (k: nat)
    requires Inv(v) && i < |v.blk| && v.blk[i] == b
    ensures k <= |v.free|
    ensures var (w, r) := GetBlk(v, b);
            && w.blk == v.blk && w.queue == v.queue && |w.stat| == |v.stat|
            && (forall j :: 0 <= j < |v.stat| && j != i ==> w.stat[j] == v.stat[j])
            && if v.stat[i].locked then
                 r == -1 && w.free == v.free && w.stat[i] == v.stat[i].(waited := true)
               else
                 r == i && w.stat[i] == v.stat[i].(locked := true)
                 && k < |v.free| && v.free[k] == i && w.free == v.free[..k] + v.free[k + 1..]
  {
    k := 0;
    FindUnique(v.blk, i);
    if !v.stat[i].locked {
      k := PlaceOf(v.free, i);
      WithoutAt(v.free, k);
    }
  }

  /** A release touches one buffer, the one that holds the block, and only if it is held: nobody
      awaits it any more, and if its contents are valid it is unlocked, no longer marked old, and
      back on the free list, at the front if it was marked old and else at the end. */
  lemma ReleaseTouchesOneBuffer(v: Pool, i: nat)
    requires Inv(v) && i < |v.blk| && v.stat[i].locked
    ensures var w, s := Brelse(v, v.blk[i]), v.stat[i];
            && w.blk == v.blk && w.queue == v.queue && |w.stat| == |v.stat|
            && (forall j :: 0 <= j < |v.stat| && j != i ==> w.stat[j] == v.stat[j])
            && if s.valid then
                 w.stat[i] == s.(locked := false, waited := false, aged := false)
                 && w.free == (if s.aged then [i] + v.free else v.free + [i])
               else
                 w.stat[i] == s.(waited := false) && w.free == v.free
  {
  }

  /** Releasing a block that is not cached or not held changes nothing. */
  lemma IdleReleaseDoesNothing(v: Pool, b: nat)
    requires Inv(v) && forall i :: 0 <= i < |v.blk| && v.blk[i] == b ==> !v.stat[i].locked
    ensures Brelse(v, b) == v
  {
  }

  /** A miss locks exactly the delayed-write buffers in front of the victim and the victim itself,
      whose contents are no longer valid, and changes no other status. It remaps one block: `b` is
      now in the victim, the victim's former block is nowhere, and every other block stays where
      it was. */
  lemma MissRemapsOneBlock(v: Pool, b: nat, c: nat, j: nat)
    requires Inv(v) && b !in v.blk && j < |v.blk|
    ensures var (w, r) := GetBlk(v, b);
            var k := DwrPrefix(v.free, v.stat);
            && (r == -1 <==> k == |v.free|)
            && (r == -1 <==> forall i :: 0 <= i < |v.blk| && !v.stat[i].locked ==> v.stat[i].dwr)
            && (r >= 0 ==> k < |v.free| && v.free[k] == r && w.free == v.free[k + 1..])
            && |w.stat| == |v.stat| && |w.blk| == |v.blk|
            && w.stat[j] == (if j == r then v.stat[j].(locked := true, valid := false)
                             else v.stat[j].(locked := v.stat[j].locked || j in v.free[..k]))
            && Find(w.blk, c) ==
                 if r == -1 || (c != b && c != v.blk[r]) then Find(v.blk, c) else if c == b then r else -1
  {
    var (w, r) := GetBlk(v, b);
    GetBlkKeepsInv(v, b);
    MissStatus(v, b, j);
    var k := DwrPrefix(v.free, v.stat);
    if k < |v.free| {
      MissFind(v, b, c, r);
    } else {
      forall i | 0 <= i < |v.blk| && !v.stat[i].locked ensures v.stat[i].dwr {
        assert i in v.free;
      }
    }
  }

  lemma MissStatus(v: Pool, b: nat, j: nat)
    requires Inv(v) && b !in v.blk && j < |v.blk|
    ensures var (w, r) := GetBlk(v, b);
            && |w.stat| == |v.stat|
            && w.stat[j] == if j == r then v.stat[j].(locked := true, valid := false)
                            else v.stat[j].(locked := v.stat[j].locked || j in v.free[..DwrPrefix(v.free, v.stat)])
  {
    var k := DwrPrefix(v.free, v.stat);
    DrainKeepsInv(v, k);
    if k < |v.free| {
      ReplaceStatus(Drained(v, k), b, j);
    }
  }

  lemma ReplaceStatus(v: Pool, b: nat, j: nat)
    requires Shape(v) && |v.free| > 0 && j < |v.blk|
    ensures |Replace(v, b).stat| == |v.stat|
    ensures Replace(v, b).stat[j] == if j == v.free[0] then v.stat[j].(locked := true, valid := false) else v.stat[j]
  {
  }

  lemma MissFind(v: Pool, b: nat, c: nat, r: nat)
    requires Inv(v) && b !in v.blk && r < |v.blk|
    ensures Find(v.blk[r := b], c) == if c == b then r else if c == v.blk[r] then -1 else Find(v.blk, c)
  {
    var blk' := v.blk[r := b];
    assert blk'[r] == b;
    forall i | 0 <= i < |blk'| && i != r ensures blk'[i] == v.blk[i] != v.blk[r] {
    }
    if c != b && c != v.blk[r] {
      if c in v.blk {
        FindUnique(v.blk, Find(v.blk, c));
        assert blk'[Find(v.blk, c)] == c;
      }
    }
  }

  /** Giving back a buffer just obtained from the cache undoes the request, except that the
      buffer is now the last to be reused. */
  lemma ReleaseUndoesHit(v: Pool, b: nat)
    requires Inv(v) && b in v.blk
    requires var s := v.stat[Find(v.blk, b)]; !s.locked && s.valid && !s.aged && !s.waited
    ensures Shape(GetBlk(v, b).0)
    ensures Brelse(GetBlk(v, b).0, b)
         == v.(free := Without<nat>(v.free, Find(v.blk, b)) + [Find(v.blk, b) as nat])
  {
    var i := Find(v.blk, b);
    GetBlkKeepsInv(v, b);
    var g := GetBlk(v, b).0;
    var w := Brelse(g, b);
    assert g.stat[i] == With(v.stat[i], Locked, true);
    assert w.stat == v.stat;
  }

  // ---------------------------------------------------------------- replacement order

  /** For every buffer, when it was last put on the free list, and whether it was marked old. */
  datatype Past = Past(at: seq<int>, aged: seq<bool>)

  /** The releases of a run. Release times are operation numbers; a buffer that was free from
      the start has its place in the initial list, counted up to -1, as its time. */
  ghost function History(v: Pool, ops: seq<Op>): (h: Past)
    requires Inv(v) && Disciplined(ops)
    ensures |h.at| == |h.aged| == |v.blk|
    ensures forall i :: 0 <= i < |v.blk| ==> h.at[i] <= |ops|
  {
    if ops == [] then
      Past(seq(|v.blk|, i requires 0 <= i < |v.blk| => if i in v.free then PlaceOf(v.free, i) - |v.free| else 0),
           seq(|v.blk|, i => false))
    else
      var init, op := ops[..|ops| - 1], ops[|ops| - 1];
      var w, h := Run(v, init), History(v, init);
      var r := if op.Release? then Find(w.blk, op.b) else -1;
      if r >= 0 && Releases(w, op, r) then Past(h.at[r := |ops|], h.aged[r := w.stat[r].aged]) else h
  }

  ghost function PlaceOf(s: seq<nat>, x: nat): (k: nat)
    requires x in s
    ensures k < |s| && s[k] == x
  {
    if s[0] == x then 0 else 1 + PlaceOf(s[1..], x)
  }

  /** Buffer `i` is reused before `j`: old releases come first, the latest of them in front, and
      the others follow, the earliest of them in front. */
  ghost predicate ReusedBefore(h: Past, i: nat, j: nat)
    requires i < |h.at| == |h.aged| && j < |h.at|
  {
    if h.aged[i] then h.aged[j] ==> h.at[i] > h.at[j]
    else !h.aged[j] && h.at[i] < h.at[j]
  }

  ghost predicate InReuseOrder(h: Past, free: seq<nat>)
    requires |h.at| == |h.aged| && forall k :: 0 <= k < |free| ==> free[k] < |h.at|
  {
    forall k, l :: 0 <= k < l < |free| ==> ReusedBefore(h, free[k], free[l])
  }

  /** `free'` is `free` with a stretch of buffers taken off. */
  ghost predicate OnlyShrinks(free: seq<nat>, free': seq<nat>) {
    exists k, l :: 0 <= k <= l <= |free| && free' == free[..k] + free[l..]
  }

  lemma ShrinkKeepsOrder(h: Past, free: seq<nat>, free': seq<nat>)
    requires |h.at| == |h.aged| && forall k :: 0 <= k < |free| ==> free[k] < |h.at|
    requires InReuseOrder(h, free) && OnlyShrinks(free, free')
    ensures (forall k :: 0 <= k < |free'| ==> free'[k] < |h.at|) && InReuseOrder(h, free')
  {
  }

  lemma ReleaseKeepsOrder(h: Past, free: seq<nat>, r: nat, t: int, aged: bool)
    requires |h.at| == |h.aged| && forall k :: 0 <= k < |free| ==> free[k] < |h.at|
    requires InReuseOrder(h, free)
    requires r < |h.at| && r !in free && forall i :: 0 <= i < |h.at| ==> h.at[i] < t
    ensures InReuseOrder(Past(h.at[r := t], h.aged[r := aged]), if aged then [r] + free else free + [r])
  {
    var h' := Past(h.at[r := t], h.aged[r := aged]);
    var free' := if aged then [r] + free else free + [r];
    var d := if aged then 1 else 0;
    forall k | 0 <= k < |free| ensures free[k] != r {
      assert free[k] in free;
    }
    forall k, l | 0 <= k < l < |free'| ensures ReusedBefore(h', free'[k], free'[l]) {
      if k >= d && l < |free| + d {
        assert ReusedBefore(h, free[k - d], free[l - d]);
      }
    }
  }

  /** What one operation does to the free list: a release adds its buffer at one end, anything
      else only takes buffers off. */
  lemma FreeListStep(v: Pool, op: Op)
    requires Inv(v) && OpDisciplined(op)
    ensures NothingReleased(v, op) ==> OnlyShrinks(v.free, Step(v, op).free)
    ensures forall i :: 0 <= i < |v.blk| && Releases(v, op, i) ==>
              && Find(v.blk, op.b) == i && i !in v.free
              && Step(v, op).free == (if v.stat[i].aged then [i] + v.free else v.free + [i])
  {
    forall i | 0 <= i < |v.blk| && Releases(v, op, i)
      ensures Find(v.blk, op.b) == i && i !in v.free
      ensures Step(v, op).free == (if v.stat[i].aged then [i] + v.free else v.free + [i])
    {
      FindUnique(v.blk, i);
      ReleaseTouchesOneBuffer(v, i);
    }
    if NothingReleased(v, op) {
      if op.Get? {
        RequestShrinks(v, op.b);
      } else {
        NothingShrinks(v, op);
      }
    }
  }

  lemma RequestShrinks(v: Pool, b: nat)
    requires Inv(v)
    ensures OnlyShrinks(v.free, GetBlk(v, b).0.free)
  {
    var i, free' := Find(v.blk, b), GetBlk(v, b).0.free;
    if i < 0 {
      var k := DwrPrefix(v.free, v.stat);
      assert free' == v.free[..0] + v.free[if k < |v.free| then k + 1 else k..];
    } else {
      var k := HitTouchesOneBuffer(v, b, i);
      assert free' == v.free[..k] + v.free[if v.stat[i].locked then k else k + 1..];
    }
  }

  lemma NothingShrinks(v: Pool, op: Op)
    requires Inv(v) && !op.Get? && NothingReleased(v, op)
    ensures OnlyShrinks(v.free, Step(v, op).free)
  {
    var i := Find(v.blk, op.b);
    assert op.Release? && i >= 0 ==> !Releases(v, op, i);
    assert Step(v, op).free == v.free[..0] + v.free[0..];
  }

  /** Replacement order over every run: the free list holds first the buffers released while
      marked old, newest first, then the others, oldest release first. */
  lemma {:induction false} FreeListInReuseOrder(v: Pool, ops: seq<Op>)
    requires Inv(v) && Disciplined(ops)
    ensures InReuseOrder(History(v, ops), Run(v, ops).free)
  {
    if ops == [] {
    } else {
      var init, op := ops[..|ops| - 1], ops[|ops| - 1];
      var w, h := Run(v, init), History(v, init);
      FreeListInReuseOrder(v, init);
      FreeListStep(w, op);
      if NothingReleased(w, op) {
        assert History(v, ops) == h;
        ShrinkKeepsOrder(h, w.free, Step(w, op).free);
      } else {
        var r: nat := Find(w.blk, op.b);
        assert Releases(w, op, r);
        assert History(v, ops) == Past(h.at[r := |ops|], h.aged[r := w.stat[r].aged]);
        ReleaseKeepsOrder(h, w.free, r, |ops|, w.stat[r].aged);
      }
    }
  }

  /** If a request for `b` misses, it takes over the first buffer, in reuse order, among the free
      ones that do not await a delayed write. */
  ghost predicate TakesFirst(w: Pool, h: Past, b: nat)
    requires Shape(w) && |h.at| == |h.aged| == |w.blk|
  {
    var r := GetBlk(w, b).1;
    b !in w.blk ==> forall j :: j in w.free && !w.stat[j].dwr && j != r ==> 0 <= r < |h.at| && ReusedBefore(h, r, j)
  }

  lemma VictimIsFirstInReuseOrder(v: Pool, ops: seq<Op>, b: nat)
    requires Inv(v) && Disciplined(ops)
    ensures TakesFirst(Run(v, ops), History(v, ops), b)
  {
    FreeListInReuseOrder(v, ops);
    FirstIsTaken(Run(v, ops), History(v, ops), b);
  }

  lemma FirstIsTaken(w: Pool, h: Past, b: nat)
    requires Shape(w) && |h.at| == |h.aged| == |w.blk| && InReuseOrder(h, w.free)
    ensures TakesFirst(w, h, b)
  {
    var k := DwrPrefix(w.free, w.stat);
    var r := GetBlk(w, b).1;
    if b !in w.blk {
      forall j | j in w.free && !w.stat[j].dwr && j != r ensures 0 <= r < |h.at| && ReusedBefore(h, r, j) {
        var l := PlaceOf(w.free, j);
        assert k <= l;
        assert k < l ==> ReusedBefore(h, w.free[k], w.free[l]);
      }
    }
  }

  /** No buffer is marked old when it is released. */
  ghost predicate NeverReleasesOld(v: Pool, ops: seq<Op>)
    requires Inv(v) && Disciplined(ops)
  {
    forall n, i :: 0 <= n < |ops| && 0 <= i < |v.blk| && Releases(Run(v, ops[..n]), ops[n], i) ==>
      !Run(v, ops[..n]).stat[i].aged
  }

  /** If a request for `b` misses, it takes over the least recently released of those buffers. */
  ghost predicate TakesLeastRecent(w: Pool, h: Past, b: nat)
    requires Shape(w) && |h.at| == |w.blk|
  {
    var r := GetBlk(w, b).1;
    b !in w.blk ==> forall j :: j in w.free && !w.stat[j].dwr && j != r ==> 0 <= r < |h.at| && h.at[r] < h.at[j]
  }

  /** A run that never releases a buffer marked old replaces buffers least recently released first. */
  lemma VictimIsLeastRecentlyReleased(v: Pool, ops: seq<Op>, b: nat)
    requires Inv(v) && Disciplined(ops) && NeverReleasesOld(v, ops)
    ensures TakesLeastRecent(Run(v, ops), History(v, ops), b)
  {
    VictimIsFirstInReuseOrder(v, ops, b);
    NeverOld(v, ops);
    FirstIsLeastRecent(Run(v, ops), History(v, ops), b);
  }

  lemma FirstIsLeastRecent(w: Pool, h: Past, b: nat)
    requires Shape(w) && |h.at| == |h.aged| == |w.blk| && forall i :: 0 <= i < |w.blk| ==> !h.aged[i]
    requires TakesFirst(w, h, b)
    ensures TakesLeastRecent(w, h, b)
  {
  }

  lemma {:induction false} NeverOld(v: Pool, ops: seq<Op>)
    requires Inv(v) && Disciplined(ops) && NeverReleasesOld(v, ops)
    ensures forall i :: 0 <= i < |v.blk| ==> !History(v, ops).aged[i]
  {
    if ops == [] {
    } else {
      var init := ops[..|ops| - 1];
      forall n, j | 0 <= n < |init| && 0 <= j < |v.blk| && Releases(Run(v, init[..n]), init[n], j)
        ensures !Run(v, init[..n]).stat[j].aged
      {
        assert init[..n] == ops[..n] && init[n] == ops[n];
      }
      NeverOld(v, init);
      assert ops[..|init|] == init;
    }
  }
}
