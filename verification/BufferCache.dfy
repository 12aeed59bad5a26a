/** The buffer cache program: headers linked into circular hash queues and a circular free list
    through the same objects, updated in place. */
module BufferCache {
  import opened BufferPool
  import opened BufferLaws
  import opened Seqs
  import R = BufferRuns

  class BufHeader {
    var blkno: nat
    var stat: Stat
    var hashFp: BufHeader?
    var hashBp: BufHeader?
    var freeFp: BufHeader?
    var freeBp: BufHeader?

    constructor ()
      ensures fresh(this)
    {
      blkno, stat := 0, NO_FLAGS;
      hashFp, hashBp, freeFp, freeBp := null, null, null, null;
    }
  }

  method AllocHeaders(n: nat) returns (hs: seq<BufHeader>)
    ensures |hs| == n && fresh(hs) && forall i, j :: 0 <= i < j < n ==> hs[i] != hs[j]
  {
    hs := [];
    for i := 0 to n
      invariant |hs| == i && fresh(hs) && forall j, k :: 0 <= j < k < i ==> hs[j] != hs[k]
    {
      var h := new BufHeader();
      hs := hs + [h];
    }
  }

  class Cache {
    const buffer: seq<BufHeader>
    const hashHead: seq<BufHeader>
    const freelist: BufHeader
    ghost var view: Pool

    constructor (bufSize: nat, hashSize: nat)
      requires hashSize > 0
      ensures Distinct() && |buffer| == bufSize && |hashHead| == hashSize
      ensures fresh(buffer) && fresh(hashHead) && fresh(freelist)
    {
      var bs := AllocHeaders(bufSize);
      var hs := AllocHeaders(hashSize);
      var f := new BufHeader();
      buffer, hashHead, freelist := bs, hs, f;
      view := Pool([], [], [], []);
    }

    // ---------------------------------------------------------------- representation

    ghost predicate Distinct() {
      && |hashHead| > 0
      && (forall i, j :: 0 <= i < j < |buffer| ==> buffer[i] != buffer[j])
      && (forall i, j :: 0 <= i < j < |hashHead| ==> hashHead[i] != hashHead[j])
      && (forall i, h :: 0 <= i < |buffer| && 0 <= h < |hashHead| ==> buffer[i] != hashHead[h])
      && (forall i :: 0 <= i < |buffer| ==> buffer[i] != freelist)
    }

    ghost predicate Sized()
      reads this`view
    {
      Distinct() && |view.blk| == |buffer| && |view.queue| == |hashHead| && Shape(view)
    }

    ghost predicate Numbers(q: seq<nat>) {
      forall k :: 0 <= k < |q| ==> q[k] < |buffer|
    }

    /** The k-th header of a ring with the given head, or the head itself at either end. */
    ghost function Node(head: BufHeader, q: seq<nat>, k: int): BufHeader
      requires Numbers(q)
    {
      if 0 <= k < |q| then buffer[q[k]] else head
    }

    /** Following the hash links from a queue head and back visits exactly `q`, in order. */
    ghost predicate HashRing(head: BufHeader, q: seq<nat>)
      requires Numbers(q)
      reads buffer`hashFp, buffer`hashBp, head`hashFp, head`hashBp
    {
      && (forall k {:trigger Node(head, q, k).hashFp} ::
            -1 <= k < |q| ==> Node(head, q, k).hashFp == Node(head, q, k + 1))
      && (forall k {:trigger Node(head, q, k).hashBp} ::
            0 <= k <= |q| ==> Node(head, q, k).hashBp == Node(head, q, k - 1))
    }

    ghost predicate QueueNumbers(queue: seq<seq<nat>>) {
      |queue| == |hashHead| && forall h :: 0 <= h < |queue| ==> Numbers(queue[h])
    }

    ghost predicate HashLinked(queue: seq<seq<nat>>)
      requires QueueNumbers(queue)
      reads buffer`hashFp, buffer`hashBp, hashHead`hashFp, hashHead`hashBp
    {
      forall h :: 0 <= h < |hashHead| ==> HashRing(hashHead[h], queue[h])
    }

    /** Following the free links from the list head and back visits exactly `q`, in order. */
    ghost predicate FreeRing(q: seq<nat>)
      requires Numbers(q)
      reads buffer`freeFp, buffer`freeBp, freelist`freeFp, freelist`freeBp
    {
      && (forall k {:trigger Node(freelist, q, k).freeFp} ::
            -1 <= k < |q| ==> Node(freelist, q, k).freeFp == Node(freelist, q, k + 1))
      && (forall k {:trigger Node(freelist, q, k).freeBp} ::
            0 <= k <= |q| ==> Node(freelist, q, k).freeBp == Node(freelist, q, k - 1))
    }

    ghost predicate FieldsMatch()
      requires Sized()
      reads this`view, buffer`blkno, buffer`stat
    {
      forall i :: 0 <= i < |buffer| ==> buffer[i].blkno == view.blk[i] && buffer[i].stat == view.stat[i]
    }

    /** The heap is the value `view`. */
    ghost predicate Valid()
      reads this`view, buffer, hashHead, freelist
    {
      Sized() && HashLinked(view.queue) && FreeRing(view.free) && FieldsMatch()
    }

    // ---------------------------------------------------------------- status bits

    method SetFlag(p: BufHeader, f: Flag, val: bool, ghost i: nat)
      requires Valid() && i < |buffer| && p == buffer[i]
      modifies this`view, p`stat
      ensures Valid()
      ensures view == old(view).(stat := SetFlagAt(old(view).stat, i, f, val))
    {
      p.stat := With(p.stat, f, val);
      view := view.(stat := SetFlagAt(view.stat, i, f, val));
    }

    // ---------------------------------------------------------------- hash queues

    method SearchHash(blkno: nat) returns (p: BufHeader?)
      requires Valid() && Mapped(view)
      ensures p == if Find(view.blk, blkno) == -1 then null else buffer[Find(view.blk, blkno)]
    {
      var h := blkno % |hashHead|;
      assert h == Hash(blkno, |view.queue|);
      ghost var q := view.queue[h];
      ghost var k := 0;
      assert HashRing(hashHead[h], q) && hashHead[h] == Node(hashHead[h], q, -1);
      p := hashHead[h].hashFp;
      while p != hashHead[h]
        invariant 0 <= k <= |q| && p == Node(hashHead[h], q, k)
        invariant forall j :: 0 <= j < k ==> view.blk[q[j]] != blkno
        decreases |q| - k
      {
        if p.blkno == blkno {
          FindUnique(view.blk, q[k]);
          return p;
        }
        assert Node(hashHead[h], q, k).hashFp == Node(hashHead[h], q, k + 1);
        p := p.hashFp;
        k := k + 1;
      }
      assert k == |q|;
      forall i | 0 <= i < |view.blk| ensures view.blk[i] != blkno {
        assert OnItsQueue(view, i);
      }
      return null;
    }

    /** What a ring needs of its entries: buffer numbers, none twice, and a head of its own. */
    ghost predicate RingShape(head: BufHeader, q: seq<nat>) {
      && Distinct() && Numbers(q) && NoDup(q)
      && forall i :: 0 <= i < |buffer| ==> buffer[i] != head
    }

    /** Links a header in before the head of a queue, that is, at its tail. */
    method InsertTail(head: BufHeader, new_: BufHeader, ghost q: seq<nat>, ghost i: nat)
      requires RingShape(head, q) && i < |buffer| && new_ == buffer[i] && i !in q
      requires HashRing(head, q)
      modifies new_`hashFp, new_`hashBp, head`hashBp, Node(head, q, |q| - 1)`hashFp
      ensures HashRing(head, q + [i])
    {
      ghost var q' := q + [i];
      ghost var n := |q|;
      assert Node(head, q, n).hashBp == Node(head, q, n - 1);
      new_.hashBp := head.hashBp;
      new_.hashFp := head;
      head.hashBp.hashFp := new_;
      head.hashBp := new_;
      forall k | -1 <= k < |q'| ensures Node(head, q', k).hashFp == Node(head, q', k + 1) {
        assert k < n - 1 ==> old(Node(head, q, k).hashFp) == Node(head, q, k + 1);
      }
      forall k | 0 <= k <= |q'| ensures Node(head, q', k).hashBp == Node(head, q', k - 1) {
        assert k < n ==> old(Node(head, q, k).hashBp) == Node(head, q, k - 1);
      }
    }

    lemma NodesAfterCut(head: BufHeader, q: seq<nat>, k: nat)
      requires RingShape(head, q) && k < |q|
      ensures Numbers(Cut(q, k))
      ensures forall j {:trigger Node(head, Cut(q, k), j)} :: -1 <= j <= |q| - 1 ==>
                Node(head, Cut(q, k), j) == Node(head, q, if j < k then j else j + 1)
      ensures forall j {:trigger Node(head, q, j)} :: -1 <= j <= |q| && j != k ==> Node(head, q, j) != buffer[q[k]]
      ensures forall j {:trigger Node(head, q, j)} :: -1 <= j <= |q| && Node(head, q, j) == Node(head, q, k - 1) ==>
                j == k - 1 || (k == 0 && j == |q|)
      ensures forall j {:trigger Node(head, q, j)} :: -1 <= j <= |q| && Node(head, q, j) == Node(head, q, k + 1) ==>
                j == k + 1 || (k + 1 == |q| && j == -1)
    {
    }

    /** Takes header `q[k]` out of the queue it is on. */
    method UnlinkHash(p: BufHeader, ghost head: BufHeader, ghost q: seq<nat>, ghost k: nat)
      requires RingShape(head, q) && k < |q| && p == buffer[q[k]]
      requires HashRing(head, q)
      modifies p`hashFp, p`hashBp, Node(head, q, k - 1)`hashFp, Node(head, q, k + 1)`hashBp
      ensures Numbers(Cut(q, k)) && HashRing(head, Cut(q, k))
      ensures p.hashFp == null && p.hashBp == null
    {
      ghost var q' := Cut(q, k);
      NodesAfterCut(head, q, k);
      assert Node(head, q, k).hashBp == Node(head, q, k - 1) && Node(head, q, k).hashFp == Node(head, q, k + 1);
      p.hashBp.hashFp := p.hashFp;
      p.hashFp.hashBp := p.hashBp;
      p.hashFp := null;
      p.hashBp := null;
      forall j | -1 <= j < |q'| ensures Node(head, q', j).hashFp == Node(head, q', j + 1) {
        ghost var l := if j < k then j else j + 1;
        assert old(Node(head, q, l).hashFp) == Node(head, q, l + 1);
      }
      forall j | 0 <= j <= |q'| ensures Node(head, q', j).hashBp == Node(head, q', j - 1) {
        ghost var l := if j < k then j else j + 1;
        assert old(Node(head, q, l).hashBp) == Node(head, q, l - 1);
      }
    }

    // ---------------------------------------------------------------- the queues as a whole

    /** Queue `h` shares no header with another queue. */
    ghost predicate Apart(queue: seq<seq<nat>>, h: nat)
      requires QueueNumbers(queue) && h < |queue|
    {
      && RingShape(hashHead[h], queue[h])
      && forall g, k, l :: 0 <= g < |queue| && g != h ==>
           Node(hashHead[g], queue[g], k) != Node(hashHead[h], queue[h], l)
    }

    lemma QueuesApart(h: nat)
      requires Sized() && h < |hashHead|
      ensures Apart(view.queue, h)
    {
    }

    /** Appending to one queue leaves the links of the others as they were. */
    method AppendToQueue(queue_: BufHeader, new_: BufHeader, ghost queue: seq<seq<nat>>, ghost h: nat, ghost i: nat)
      requires QueueNumbers(queue) && h < |queue| && Apart(queue, h) && HashLinked(queue)
      requires queue_ == hashHead[h] && i < |buffer| && new_ == buffer[i]
      requires forall g :: 0 <= g < |queue| ==> i !in queue[g]
      modifies buffer`hashFp, buffer`hashBp, hashHead`hashFp, hashHead`hashBp
      ensures QueueNumbers(queue[h := queue[h] + [i]]) && HashLinked(queue[h := queue[h] + [i]])
    {
      InsertTail(queue_, new_, queue[h], i);
      forall g | 0 <= g < |queue| && g != h ensures HashRing(hashHead[g], queue[g]) {
        assert old(HashRing(hashHead[g], queue[g]));
        forall k | -1 <= k < |queue[g]|
          ensures Node(hashHead[g], queue[g], k).hashFp == Node(hashHead[g], queue[g], k + 1)
        {
          assert old(Node(hashHead[g], queue[g], k).hashFp) == Node(hashHead[g], queue[g], k + 1);
        }
        forall k | 0 <= k <= |queue[g]|
          ensures Node(hashHead[g], queue[g], k).hashBp == Node(hashHead[g], queue[g], k - 1)
        {
          assert old(Node(hashHead[g], queue[g], k).hashBp) == Node(hashHead[g], queue[g], k - 1);
        }
      }
    }

    /** Cutting from one queue leaves the links of the others as they were. */
    method CutFromQueue(p: BufHeader, ghost queue: seq<seq<nat>>, ghost h: nat, ghost k: nat)
      requires QueueNumbers(queue) && h < |queue| && Apart(queue, h) && HashLinked(queue)
      requires k < |queue[h]| && p == buffer[queue[h][k]]
      modifies buffer`hashFp, buffer`hashBp, hashHead`hashFp, hashHead`hashBp
      ensures QueueNumbers(queue[h := Cut(queue[h], k)]) && HashLinked(queue[h := Cut(queue[h], k)])
    {
      assert p == Node(hashHead[h], queue[h], k);
      UnlinkHash(p, hashHead[h], queue[h], k);
      forall g | 0 <= g < |queue| && g != h ensures HashRing(hashHead[g], queue[g]) {
        assert old(HashRing(hashHead[g], queue[g]));
        forall k | -1 <= k < |queue[g]|
          ensures Node(hashHead[g], queue[g], k).hashFp == Node(hashHead[g], queue[g], k + 1)
        {
          assert old(Node(hashHead[g], queue[g], k).hashFp) == Node(hashHead[g], queue[g], k + 1);
        }
        forall k | 0 <= k <= |queue[g]|
          ensures Node(hashHead[g], queue[g], k).hashBp == Node(hashHead[g], queue[g], k - 1)
        {
          assert old(Node(hashHead[g], queue[g], k).hashBp) == Node(hashHead[g], queue[g], k - 1);
        }
      }
    }

    /** Files header `i` under block `blkno`, at the tail of its queue. */
    method AddBufToHashlist(blkno: nat, new_: BufHeader, ghost i: nat)
      requires Valid() && i < |buffer| && new_ == buffer[i]
      requires forall g :: 0 <= g < |hashHead| ==> i !in view.queue[g]
      modifies this`view, new_`blkno, buffer`hashFp, buffer`hashBp, hashHead`hashFp, hashHead`hashBp
      ensures Valid() && view == Enqueue(old(view), blkno, i)
    {
      var h := blkno % |hashHead|;
      assert h == Hash(blkno, |view.queue|);
      QueuesApart(h);
      EnqueueKeepsShape(view, blkno, i);
      new_.blkno := blkno;
      AppendToQueue(hashHead[h], new_, view.queue, h, i);
      view := Enqueue(view, blkno, i);
    }

    method RemoveFromHash(p: BufHeader, ghost i: nat)
      requires Valid() && Mapped(view) && i < |buffer| && p == buffer[i]
      modifies this`view, buffer`hashFp, buffer`hashBp, hashHead`hashFp, hashHead`hashBp
      ensures Valid() && view == Unqueue(old(view), i)
      ensures forall g :: 0 <= g < |hashHead| ==> i !in view.queue[g]
    {
      ghost var h := Hash(view.blk[i], |view.queue|);
      ghost var k := UnqueueCuts(view, i);
      UnqueueKeepsShape(view, i);
      QueuesApart(h);
      CutFromQueue(p, view.queue, h, k);
      view := Unqueue(view, i);
    }

    // ---------------------------------------------------------------- free list

    method InsertFreelistHead(new_: BufHeader, ghost i: nat)
      requires Valid() && i < |buffer| && new_ == buffer[i] && i !in view.free
      modifies this`view, new_`stat, buffer`freeFp, buffer`freeBp, freelist`freeFp, freelist`freeBp
      ensures Valid()
      ensures view == old(view).(stat := SetFlagAt(old(view).stat, i, Locked, false), free := [i] + old(view).free)
    {
      SetFlag(new_, Locked, false, i);
      PutFirst(new_, i);
    }

    method InsertFreelistTail(new_: BufHeader, ghost i: nat)
      requires Valid() && i < |buffer| && new_ == buffer[i] && i !in view.free
      modifies this`view, new_`stat, buffer`freeFp, buffer`freeBp, freelist`freeFp, freelist`freeBp
      ensures Valid()
      ensures view == old(view).(stat := SetFlagAt(old(view).stat, i, Locked, false), free := old(view).free + [i])
    {
      SetFlag(new_, Locked, false, i);
      PutLast(new_, i);
    }

    method RemoveFromFreelist(p: BufHeader, ghost i: nat)
      requires Valid() && i < |buffer| && p == buffer[i] && i in view.free
      modifies this`view, p`stat, buffer`freeFp, buffer`freeBp, freelist`freeFp, freelist`freeBp
      ensures Valid()
      ensures view == old(view).(stat := SetFlagAt(old(view).stat, i, Locked, true), free := Without(old(view).free, i))
    {
      SetFlag(p, Locked, true, i);
      ghost var k := FreeCuts(view, i);
      CutFromFree(p, k);
    }

    /** Takes the header at position `k` out of the free ring. */
    method CutFromFree(p: BufHeader, ghost k: nat)
      requires Valid() && k < |view.free| && p == buffer[view.free[k]] && Shape(view.(free := Cut(view.free, k)))
      modifies this`view, buffer`freeFp, buffer`freeBp, freelist`freeFp, freelist`freeBp
      ensures Valid() && view == old(view).(free := Cut(old(view).free, k))
    {
      UnlinkFree(p, view.free, k);
      view := view.(free := Cut(view.free, k));
    }

    method PutFirst(new_: BufHeader, ghost i: nat)
      requires Valid() && i < |buffer| && new_ == buffer[i] && i !in view.free
      modifies this`view, buffer`freeFp, buffer`freeBp, freelist`freeFp, freelist`freeBp
      ensures Valid() && view == old(view).(free := [i] + old(view).free)
    {
      LinkFreeHead(new_, view.free, i);
      view := view.(free := [i] + view.free);
    }

    method PutLast(new_: BufHeader, ghost i: nat)
      requires Valid() && i < |buffer| && new_ == buffer[i] && i !in view.free
      modifies this`view, buffer`freeFp, buffer`freeBp, freelist`freeFp, freelist`freeBp
      ensures Valid() && view == old(view).(free := old(view).free + [i])
    {
      LinkFreeTail(new_, view.free, i);
      view := view.(free := view.free + [i]);
    }

    method LinkFreeHead(new_: BufHeader, ghost q: seq<nat>, ghost i: nat)
      requires RingShape(freelist, q) && i < |buffer| && new_ == buffer[i] && i !in q
      requires FreeRing(q)
      modifies new_`freeFp, new_`freeBp, freelist`freeFp, Node(freelist, q, 0)`freeBp
      ensures FreeRing([i] + q)
    {
      ghost var q' := [i] + q;
      assert freelist == Node(freelist, q, -1) && Node(freelist, q, -1).freeFp == Node(freelist, q, 0);
      new_.freeBp := freelist;
      new_.freeFp := freelist.freeFp;
      freelist.freeFp.freeBp := new_;
      freelist.freeFp := new_;
      forall k | -1 <= k < |q'| ensures Node(freelist, q', k).freeFp == Node(freelist, q', k + 1) {
        assert k > 0 ==> old(Node(freelist, q, k - 1).freeFp) == Node(freelist, q, k);
      }
      forall k | 0 <= k <= |q'| ensures Node(freelist, q', k).freeBp == Node(freelist, q', k - 1) {
        assert k > 1 ==> old(Node(freelist, q, k - 1).freeBp) == Node(freelist, q, k - 2);
      }
    }

    method LinkFreeTail(new_: BufHeader, ghost q: seq<nat>, ghost i: nat)
      requires RingShape(freelist, q) && i < |buffer| && new_ == buffer[i] && i !in q
      requires FreeRing(q)
      modifies new_`freeFp, new_`freeBp, freelist`freeBp, Node(freelist, q, |q| - 1)`freeFp
      ensures FreeRing(q + [i])
    {
      ghost var q' := q + [i];
      ghost var n := |q|;
      assert freelist == Node(freelist, q, n) && Node(freelist, q, n).freeBp == Node(freelist, q, n - 1);
      new_.freeBp := freelist.freeBp;
      new_.freeFp := freelist;
      freelist.freeBp.freeFp := new_;
      freelist.freeBp := new_;
      forall k | -1 <= k < |q'| ensures Node(freelist, q', k).freeFp == Node(freelist, q', k + 1) {
        assert k < n - 1 ==> old(Node(freelist, q, k).freeFp) == Node(freelist, q, k + 1);
      }
      forall k | 0 <= k <= |q'| ensures Node(freelist, q', k).freeBp == Node(freelist, q', k - 1) {
        assert k < n ==> old(Node(freelist, q, k).freeBp) == Node(freelist, q, k - 1);
      }
    }

    method UnlinkFree(p: BufHeader, ghost q: seq<nat>, ghost k: nat)
      requires RingShape(freelist, q) && k < |q| && p == buffer[q[k]]
      requires FreeRing(q)
      modifies p`freeFp, p`freeBp, Node(freelist, q, k - 1)`freeFp, Node(freelist, q, k + 1)`freeBp
      ensures Numbers(Cut(q, k)) && FreeRing(Cut(q, k))
      ensures p.freeFp == null && p.freeBp == null
    {
      ghost var q' := Cut(q, k);
      NodesAfterCut(freelist, q, k);
      assert Node(freelist, q, k).freeBp == Node(freelist, q, k - 1);
      assert Node(freelist, q, k).freeFp == Node(freelist, q, k + 1);
      p.freeBp.freeFp := p.freeFp;
      p.freeFp.freeBp := p.freeBp;
      p.freeFp := null;
      p.freeBp := null;
      forall j | -1 <= j < |q'| ensures Node(freelist, q', j).freeFp == Node(freelist, q', j + 1) {
        ghost var l := if j < k then j else j + 1;
        assert old(Node(freelist, q, l).freeFp) == Node(freelist, q, l + 1);
      }
      forall j | 0 <= j <= |q'| ensures Node(freelist, q', j).freeBp == Node(freelist, q', j - 1) {
        ghost var l := if j < k then j else j + 1;
        assert old(Node(freelist, q, l).freeBp) == Node(freelist, q, l - 1);
      }
    }

    function GetOldestBuffer(): (p: BufHeader?)
      requires Valid()
      reads this`view, buffer, hashHead, freelist
      ensures p == Node(freelist, view.free, 0)
    {
      assert freelist == Node(freelist, view.free, -1);
      freelist.freeFp
    }

    predicate IsFreelistEmpty()
      requires Valid()
      reads this`view, buffer, hashHead, freelist
      ensures IsFreelistEmpty() <==> view.free == []
    {
      assert freelist == Node(freelist, view.free, -1);
      freelist.freeFp == freelist
    }

    // ---------------------------------------------------------------- the cache operations

    /** Locks the header at the front of the free list and takes it off. */
    method TakeOldest() returns (p: BufHeader)
      requires Valid() && view.free != []
      modifies this`view, buffer`stat, buffer`freeFp, buffer`freeBp, freelist`freeFp, freelist`freeBp
      ensures Valid() && view == TakeFirst(old(view)) && p == buffer[old(view).free[0]]
    {
      ghost var f := view.free[0];
      p := GetOldestBuffer();
      SetFlag(p, Locked, true, f);
      RemoveFromFreelist(p, f);
      assert view == TakeFirst(old(view)) by { TakeFirstSteps(old(view)); }
    }

    /** Moves a header just taken to the queue of block `blkno`. */
    method Reuse(p: BufHeader, blkno: nat, ghost f: nat)
      requires Valid() && Mapped(view) && f < |buffer| && p == buffer[f]
      modifies this`view, buffer, hashHead
      ensures Valid()
      ensures view == var w := Rebind(old(view), blkno, f); w.(stat := SetFlagAt(w.stat, f, Flag.Valid, false))
    {
      RemoveFromHash(p, f);
      AddBufToHashlist(blkno, p, f);
      SetFlag(p, Flag.Valid, false, f);
    }

    /** The block is cached in header `p`: take it, or mark it awaited if it is held. */
    method TakeHit(p: BufHeader, blkno: nat) returns (r: BufHeader?)
      requires Valid() && Inv(view) && blkno in view.blk && p == buffer[Find(view.blk, blkno)]
      modifies this`view, buffer, freelist
      ensures Valid()
      ensures view == BufferPool.GetBlk(old(view), blkno).0
      ensures var i := BufferPool.GetBlk(old(view), blkno).1;
              r == if i == -1 then null else p
    {
      ghost var i: nat := Find(view.blk, blkno);
      if p.stat.locked {
        SetFlag(p, Waited, true, i);
        return null;
      }
      GetBlkHit(view, blkno);
      SetFlag(p, Locked, true, i);
      RemoveFromFreelist(p, i);
      return p;
    }

    /** The block is not cached: one turn of the loop, after `j` delayed-write buffers of the
        original pool `v` have been drained. */
    method TakeMiss(blkno: nat, ghost v: Pool, ghost j: nat) returns (done: bool, r: BufHeader?)
      requires Valid() && Inv(v) && blkno !in v.blk && j <= |v.free| && view == Drained(v, j)
      requires forall k :: 0 <= k < j ==> v.stat[v.free[k]].dwr
      modifies this`view, buffer, hashHead, freelist
      ensures Valid()
      ensures done ==> view == BufferPool.GetBlk(v, blkno).0
      ensures done ==> var i := BufferPool.GetBlk(v, blkno).1; r == if i == -1 then null else buffer[i]
      ensures !done ==> j < |v.free| && v.stat[v.free[j]].dwr && view == Drained(v, j + 1)
    {
      GetBlkMiss(v, blkno, j);
      if IsFreelistEmpty() {
        return true, null;
      }
      DrainedOneMore(v, j);
      var p := TakeOldest();
      if p.stat.dwr {
        return false, null;
      }
      Reuse(p, blkno, v.free[j]);
      return true, p;
    }

    /** Requests block `blkno`. The loop takes delayed-write buffers off the free list until it
        meets one that can be reused. */
    method GetBlk(blkno: nat) returns (r: BufHeader?)
      requires Valid() && Inv(view)
      modifies this`view, buffer, hashHead, freelist
      ensures Valid() && Inv(view)
      ensures view == BufferPool.GetBlk(old(view), blkno).0
      ensures var i := BufferPool.GetBlk(old(view), blkno).1;
              r == if i == -1 then null else buffer[i]
    {
      ghost var v := view;
      GetBlkKeepsInv(v, blkno);
      DrainedNone(v);
      ghost var j := 0;
      while true
        invariant Valid() && 0 <= j <= |v.free| && view == Drained(v, j)
        invariant forall k :: 0 <= k < j ==> v.stat[v.free[k]].dwr
        invariant j > 0 ==> blkno !in v.blk
        decreases |v.free| - j
      {
        DrainKeepsInv(v, j);
        var p := SearchHash(blkno);
        if p != null {
          r := TakeHit(p, blkno);
          return r;
        }
        var done;
        done, r := TakeMiss(blkno, v, j);
        if done { return r; }
        j := j + 1;
      }
    }

    method Brelse(blkno: nat)
      requires Valid() && Inv(view)
      modifies this`view, buffer, hashHead, freelist
      ensures Valid() && Inv(view)
      ensures view == BufferPool.Brelse(old(view), blkno)
    {
      BrelseKeepsInv(view, blkno);
      var buf := SearchHash(blkno);
      if buf == null { return; }
      ghost var i: nat := Find(view.blk, blkno);
      if !buf.stat.locked { return; }
      assert !view.stat[i].waited ==> SetFlagAt(view.stat, i, Waited, false) == view.stat;
      if buf.stat.waited {
        SetFlag(buf, Waited, false, i);
      }
      assert view == old(view).(stat := SetFlagAt(old(view).stat, i, Waited, false));
      PutBack(buf, i);
    }

    /** The end of a release: link the header in at the end its status calls for, then unlock it. */
    method PutBack(buf: BufHeader, ghost i: nat)
      requires Valid() && i < |buffer| && buf == buffer[i] && i !in view.free
      modifies this`view, buffer, freelist
      ensures Valid() && view == BufferPool.PutBack(old(view), i)
    {
      if buf.stat.valid && !buf.stat.aged {
        InsertFreelistTail(buf, i);
      } else if buf.stat.valid && buf.stat.aged {
        InsertFreelistHead(buf, i);
        SetFlag(buf, Old, false, i);
      } else {
        return;
      }
      SetFlag(buf, Locked, false, i);
    }

    method SetStat(blkno: nat, f: Flag)
      requires Valid() && Mapped(view)
      modifies this`view, buffer`stat
      ensures Valid() && view == ChangeStat(old(view), blkno, f, true)
    {
      var buf := SearchHash(blkno);
      if buf == null { return; }
      SetFlag(buf, f, true, Find(view.blk, blkno));
    }

    method ResetStat(blkno: nat, f: Flag)
      requires Valid() && Mapped(view)
      modifies this`view, buffer`stat
      ensures Valid() && view == ChangeStat(old(view), blkno, f, false)
    {
      var buf := SearchHash(blkno);
      if buf == null { return; }
      SetFlag(buf, f, false, Find(view.blk, blkno));
    }

    // ---------------------------------------------------------------- runs

    method PerformOne(op: Op)
      requires Valid() && Inv(view) && OpDisciplined(op)
      modifies this`view, buffer, hashHead, freelist
      ensures Valid() && Inv(view) && view == Step(old(view), op)
    {
      StepKeepsInv(view, op);
      match op
      case Get(b) =>
        var _ := GetBlk(b);
      case Release(b) =>
        Brelse(b);
      case Change(b, f, val) =>
        if val { SetStat(b, f); } else { ResetStat(b, f); }
    }

    /** Any run of operations on the heap is the run the theorems about runs speak of. */
    method Perform(ops: seq<Op>)
      requires Valid() && Inv(view) && Disciplined(ops)
      modifies this`view, buffer, hashHead, freelist
      ensures Valid() && Inv(view) && view == R.Run(old(view), ops)
    {
      for i := 0 to |ops|
        invariant Valid() && Inv(view) && view == R.Run(old(view), ops[..i])
      {
        assert ops[..i + 1][..i] == ops[..i];
        PerformOne(ops[i]);
      }
      assert ops[..|ops|] == ops;
    }

    // ---------------------------------------------------------------- initialisation

    /** Empties all rings; the buffers keep whatever their fields held. */
    method ResetRings()
      requires Distinct()
      modifies this`view, hashHead`hashFp, hashHead`hashBp, freelist`freeFp, freelist`freeBp
      ensures Valid() && view.free == [] && view.queue == QueuesOf([], |hashHead|)
    {
      for h := 0 to |hashHead|
        invariant forall g :: 0 <= g < h ==> hashHead[g].hashFp == hashHead[g] && hashHead[g].hashBp == hashHead[g]
      {
        hashHead[h].hashFp := hashHead[h];
        hashHead[h].hashBp := hashHead[h];
      }
      freelist.freeFp := freelist;
      freelist.freeBp := freelist;
      view := Pool(seq(|buffer|, i requires 0 <= i < |buffer| reads buffer => buffer[i].blkno),
                   seq(|buffer|, i requires 0 <= i < |buffer| reads buffer => buffer[i].stat),
                   QueuesOf([], |hashHead|), []);
    }

    method ClearStat(p: BufHeader, ghost i: nat)
      requires Valid() && i < |buffer| && p == buffer[i]
      modifies this`view, p`stat
      ensures Valid() && view == old(view).(stat := old(view).stat[i := NO_FLAGS])
    {
      p.stat := NO_FLAGS;
      view := view.(stat := view.stat[i := NO_FLAGS]);
    }

    /** Files buffer `i` under its first block, valid and locked. */
    method InitHeader(i: nat, blkno: nat)
      requires Valid() && i < |buffer|
      requires forall g :: 0 <= g < |hashHead| ==> i !in view.queue[g]
      modifies this`view, buffer, hashHead`hashFp, hashHead`hashBp
      ensures Valid() && view == var w := Enqueue(old(view), blkno, i); w.(stat := w.stat[i := InitialStat([], i)])
    {
      AddBufToHashlist(blkno, buffer[i], i);
      ClearStat(buffer[i], i);
      SetFlag(buffer[i], Flag.Valid, true, i);
      SetFlag(buffer[i], Locked, true, i);
    }

    method FileAll(initBlkno: seq<nat>)
      requires Distinct() && |initBlkno| == |buffer|
      modifies this`view, buffer, hashHead, freelist
      ensures Valid() && view == PartlyFreed(initBlkno, |hashHead|, [])
    {
      ResetRings();
      ghost var v := view;
      assert view == Filed(v, initBlkno, |hashHead|, 0);
      for i := 0 to |buffer|
        invariant Valid() && view == Filed(v, initBlkno, |hashHead|, i)
      {
        FileOneMore(v, initBlkno, |hashHead|, i);
        InitHeader(i, initBlkno[i]);
      }
      assert initBlkno[..|buffer|] == initBlkno;
      assert view == PartlyFreed(initBlkno, |hashHead|, []);
    }

    /** Sets the cache up from a list of blocks, one per buffer, and the blocks that start free. */
    method InitBuf(initBlkno: seq<nat>, initFree: seq<nat>)
      requires Distinct() && |initBlkno| == |buffer| && NoDup(initBlkno)
      requires NoDup(initFree) && forall k :: 0 <= k < |initFree| ==> initFree[k] in initBlkno
      modifies this`view, buffer, hashHead, freelist
      ensures Valid() && Inv(view)
      ensures view == InitialPool(initBlkno, |hashHead|, initFree) && StartsAs(view, initBlkno, |hashHead|, initFree)
    {
      FileAll(initBlkno);
      ghost var m, ids := |hashHead|, BuffersOf(initBlkno, initFree);
      assert view == PartlyFreed(initBlkno, m, ids[..0]);
      for k := 0 to |initFree|
        invariant Valid() && view == PartlyFreed(initBlkno, m, ids[..k])
      {
        FreeOne(initBlkno, initFree, k);
      }
      assert ids[..|initFree|] == ids;
      InitialPoolStarts(initBlkno, m, initFree);
    }

    /** Puts the buffer of the k-th block that starts free on the free list. */
    method FreeOne(ghost initBlkno: seq<nat>, initFree: seq<nat>, k: nat)
      requires Valid() && NoDup(initBlkno) && NoDup(initFree) && k < |initFree|
      requires forall j :: 0 <= j < |initFree| ==> initFree[j] in initBlkno
      requires view == PartlyFreed(initBlkno, |hashHead|, BuffersOf(initBlkno, initFree)[..k])
      modifies this`view, buffer, freelist
      ensures Valid() && view == PartlyFreed(initBlkno, |hashHead|, BuffersOf(initBlkno, initFree)[..k + 1])
    {
      FreeOneMore(initBlkno, |hashHead|, initFree, k);
      var p := SearchHash(initFree[k]);
      InsertFreelistTail(p, BuffersOf(initBlkno, initFree)[k]);
    }
  }
}
