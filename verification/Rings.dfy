/** Circular doubly linked lists with a head of their own. */
module Rings {
  import opened Seqs

  class Cell<T> {
    var fp: Cell?<T>
    var bp: Cell?<T>
    const item: T

    constructor (item: T)
      ensures this.item == item
    {
      this.item := item;
      fp, bp := null, null;
    }

    /** The head of an empty list. */
    constructor Head(item: T)
      ensures this.item == item && Ring(this, [])
    {
      this.item := item;
      fp, bp := this, this;
    }
  }

  /** The k-th cell of a list, or the head itself at either end. */
  ghost function At<T>(head: Cell<T>, q: seq<Cell<T>>, k: int): Cell<T> {
    if 0 <= k < |q| then q[k] else head
  }

  ghost predicate Apart<T>(head: Cell<T>, q: seq<Cell<T>>) {
    (forall i, j :: 0 <= i < j < |q| ==> q[i] != q[j]) && forall i :: 0 <= i < |q| ==> q[i] != head
  }

  /** Following the links from the head and back visits exactly `q`, in order. */
  ghost predicate Ring<T>(head: Cell<T>, q: seq<Cell<T>>)
    reads head`fp, head`bp, q`fp, q`bp
  {
    && Apart(head, q)
    && (forall k {:trigger At(head, q, k).fp} :: -1 <= k < |q| ==> At(head, q, k).fp == At(head, q, k + 1))
    && (forall k {:trigger At(head, q, k).bp} :: 0 <= k <= |q| ==> At(head, q, k).bp == At(head, q, k - 1))
  }

  method InsertTail<T>(head: Cell<T>, new_: Cell<T>, ghost q: seq<Cell<T>>)
    requires Ring(head, q) && new_ != head && new_ !in q
    modifies new_`fp, new_`bp, head`bp, At(head, q, |q| - 1)`fp
    ensures Ring(head, q + [new_])
  {
    ghost var q', n := q + [new_], |q|;
    assert At(head, q, n).bp == At(head, q, n - 1);
    head.bp.fp := new_;
    new_.bp := head.bp;
    head.bp := new_;
    new_.fp := head;
    forall k | -1 <= k < |q'| ensures At(head, q', k).fp == At(head, q', k + 1) {
      assert k < n - 1 ==> old(At(head, q, k).fp) == At(head, q, k + 1);
    }
    forall k | 0 <= k <= |q'| ensures At(head, q', k).bp == At(head, q', k - 1) {
      assert k < n ==> old(At(head, q, k).bp) == At(head, q, k - 1);
    }
  }

  method InsertHead<T>(head: Cell<T>, new_: Cell<T>, ghost q: seq<Cell<T>>)
    requires Ring(head, q) && new_ != head && new_ !in q
    modifies new_`fp, new_`bp, head`fp, At(head, q, 0)`bp
    ensures Ring(head, [new_] + q)
  {
    ghost var q' := [new_] + q;
    assert At(head, q, -1).fp == At(head, q, 0);
    new_.bp := head;
    new_.fp := head.fp;
    head.fp.bp := new_;
    head.fp := new_;
    forall k | -1 <= k < |q'| ensures At(head, q', k).fp == At(head, q', k + 1) {
      assert k > 0 ==> old(At(head, q, k - 1).fp) == At(head, q, k);
    }
    forall k | 0 <= k <= |q'| ensures At(head, q', k).bp == At(head, q', k - 1) {
      assert k > 1 ==> old(At(head, q, k - 1).bp) == At(head, q, k - 2);
    }
  }

  lemma AfterCut<T>(head: Cell<T>, q: seq<Cell<T>>, k: nat)
    requires Apart(head, q) && k < |q|
    ensures Apart(head, Cut(q, k))
    ensures forall j {:trigger At(head, Cut(q, k), j)} :: -1 <= j <= |q| - 1 ==>
              At(head, Cut(q, k), j) == At(head, q, if j < k then j else j + 1)
    ensures forall j {:trigger At(head, q, j)} :: -1 <= j <= |q| && j != k ==> At(head, q, j) != q[k]
    ensures forall j {:trigger At(head, q, j)} :: -1 <= j <= |q| && At(head, q, j) == At(head, q, k - 1) ==>
              j == k - 1 || (k == 0 && j == |q|)
    ensures forall j {:trigger At(head, q, j)} :: -1 <= j <= |q| && At(head, q, j) == At(head, q, k + 1) ==>
              j == k + 1 || (k + 1 == |q| && j == -1)
  {
  }

  /** Takes the first cell out of the list. */
  method TakeFirst<T>(head: Cell<T>, ghost q: seq<Cell<T>>) returns (p: Cell<T>)
    requires Ring(head, q) && q != []
    modifies head`fp, At(head, q, 1)`bp
    ensures p == q[0] && Ring(head, q[1..])
  {
    assert At(head, q, -1).fp == At(head, q, 0) && At(head, q, 0).fp == At(head, q, 1);
    AfterCut(head, q, 0);
    p := head.fp;
    head.fp.fp.bp := head;
    head.fp := head.fp.fp;
    ghost var q' := q[1..];
    assert Cut(q, 0) == q';
    forall k | -1 <= k < |q'| ensures At(head, q', k).fp == At(head, q', k + 1) {
      assert k >= 0 ==> old(At(head, q, k + 1).fp) == At(head, q, k + 2);
    }
    forall k | 0 <= k <= |q'| ensures At(head, q', k).bp == At(head, q', k - 1) {
      assert k > 0 ==> old(At(head, q, k + 1).bp) == At(head, q, k);
    }
  }

  /** Takes a cell out of the list, wherever it stands; its own links stay as they are. */
  method Unlink<T>(p: Cell<T>, ghost head: Cell<T>, ghost q: seq<Cell<T>>, ghost k: nat)
    requires Ring(head, q) && k < |q| && p == q[k]
    modifies At(head, q, k - 1)`fp, At(head, q, k + 1)`bp
    ensures Ring(head, Cut(q, k))
  {
    ghost var q' := Cut(q, k);
    AfterCut(head, q, k);
    assert At(head, q, k).bp == At(head, q, k - 1) && At(head, q, k).fp == At(head, q, k + 1);
    p.bp.fp := p.fp;
    p.fp.bp := p.bp;
    forall j | -1 <= j < |q'| ensures At(head, q', j).fp == At(head, q', j + 1) {
      ghost var l := if j < k then j else j + 1;
      assert old(At(head, q, l).fp) == At(head, q, l + 1);
    }
    forall j | 0 <= j <= |q'| ensures At(head, q', j).bp == At(head, q', j - 1) {
      ghost var l := if j < k then j else j + 1;
      assert old(At(head, q, l).bp) == At(head, q, l - 1);
    }
  }

  /** Counts the cells of a list. */
  method Length<T>(head: Cell<T>, ghost q: seq<Cell<T>>) returns (n: nat)
    requires Ring(head, q)
    ensures n == |q|
  {
    n := 0;
    assert At(head, q, -1).fp == At(head, q, 0);
    var p := head.fp;
    while p != head
      invariant n <= |q| && p == At(head, q, n)
      decreases |q| - n
    {
      assert At(head, q, n).fp == At(head, q, n + 1);
      n := n + 1;
      p := p.fp;
    }
  }
}
