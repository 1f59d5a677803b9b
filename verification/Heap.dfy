/** The binary heap behind both task queues: `container/heap` sift-up and sift-down over a slice,
    with the ordering the scheduler's and the worker's queue share (higher priority first, then
    the smaller tick: an enqueue time in the scheduler, an arrival number in the worker). */
module Heap {

  datatype Entry<T> = Entry(priority: int, tick: int, value: T)

  predicate Less<T>(a: Entry<T>, b: Entry<T>) {
    if a.priority != b.priority then a.priority > b.priority else a.tick < b.tick
  }

  function Parent(k: nat): (p: nat)
    ensures k > 0 ==> p < k
  {
    if k == 0 then 0 else (k - 1) / 2
  }

  ghost predicate HeapOrdered<T>(h: seq<Entry<T>>) {
    forall k :: 0 < k < |h| ==> !Less(h[k], h[Parent(k)])
  }

  function Swap<T>(h: seq<T>, i: nat, j: nat): (r: seq<T>)
    requires i < |h| && j < |h|
    ensures |r| == |h| && r[i] == h[j] && r[j] == h[i]
    ensures forall k :: 0 <= k < |h| && k != i && k != j ==> r[k] == h[k]
    ensures multiset(r) == multiset(h)
  {
    var r := h[i := h[j]][j := h[i]];
    assert multiset(r) == multiset(h) by { SwapKeepsMultiset(h, i, j); }
    r
  }

  lemma SwapKeepsMultiset<T>(h: seq<T>, i: nat, j: nat)
    requires i < |h| && j < |h|
    ensures multiset(h[i := h[j]][j := h[i]]) == multiset(h)
  {
  }

  /** Nothing in a heap outranks its first element: no priority is higher, and among those of the same
      priority no tick is smaller. */
  lemma {:induction false} HeadIsFirst<T>(h: seq<Entry<T>>, k: nat)
    requires HeapOrdered(h) && k < |h|
    ensures !Less(h[k], h[0])
    ensures h[0].priority > h[k].priority || (h[0].priority == h[k].priority && h[0].tick <= h[k].tick)
  {
    if k > 0 {
      HeadIsFirst(h, Parent(k));
    }
  }

  /** Heap order everywhere except at position j, whose children its parent bounds. */
  ghost predicate OrderedExceptAt<T>(h: seq<Entry<T>>, j: nat) {
    && (forall k :: 0 < k < |h| && k != j ==> !Less(h[k], h[Parent(k)]))
    && (forall k :: 0 < k < |h| && Parent(k) == j && j > 0 ==> !Less(h[k], h[Parent(j)]))
  }

  lemma SwapUpKeepsOrder<T>(h: seq<Entry<T>>, j: nat)
    requires 0 < j < |h| && OrderedExceptAt(h, j) && Less(h[j], h[Parent(j)])
    ensures OrderedExceptAt(Swap(h, Parent(j), j), Parent(j))
  {
    var i := Parent(j);
    var r := Swap(h, i, j);
    forall k | 0 < k < |h| && k != i ensures !Less(r[k], r[Parent(k)]) {
      if k != j {
        assert !Less(h[k], h[Parent(k)]);
      }
    }
    forall k | 0 < k < |h| && Parent(k) == i && i > 0 ensures !Less(r[k], r[Parent(i)]) {
      assert !Less(h[i], h[Parent(i)]);
      if k != j {
        assert !Less(h[k], h[Parent(k)]);
      }
    }
  }

  /** heap.Push: append, then sift up. */
  method Push<T>(h: seq<Entry<T>>, x: Entry<T>) returns (r: seq<Entry<T>>)
    requires HeapOrdered(h)
    ensures HeapOrdered(r)
    ensures multiset(r) == multiset(h) + multiset{x}
    ensures |r| == |h| + 1
  {
    r := h + [x];
    var j := |r| - 1;
    while true
      invariant 0 <= j < |r| == |h| + 1
      invariant multiset(r) == multiset(h) + multiset{x}
      invariant OrderedExceptAt(r, j)
      decreases j
    {
      var i := Parent(j);
      if i == j || !Less(r[j], r[i]) {
        break;
      }
      SwapUpKeepsOrder(r, j);
      r := Swap(r, i, j);
      j := i;
    }
  }

  /** Heap order everywhere except below position i, where the parent of i bounds its children. */
  ghost predicate OrderedExceptBelow<T>(h: seq<Entry<T>>, i: nat) {
    && (forall k :: 0 < k < |h| && Parent(k) != i ==> !Less(h[k], h[Parent(k)]))
    && (forall k :: 0 < k < |h| && Parent(k) == i && i > 0 ==> !Less(h[k], h[Parent(i)]))
  }

  method SiftDown<T>(h: seq<Entry<T>>) returns (r: seq<Entry<T>>)
    requires OrderedExceptBelow(h, 0)
    ensures HeapOrdered(r) && multiset(r) == multiset(h) && |r| == |h|
  {
    r := h;
    var n := |h|;
    var i := 0;
    while true
      invariant |r| == n && 0 <= i && (n > 0 ==> i < n)
      invariant multiset(r) == multiset(h)
      invariant OrderedExceptBelow(r, i)
      decreases n - i
    {
      var left := 2 * i + 1;
      if left >= n {
        SettledIsOrdered(r, i);
        break;
      }
      var right := left + 1;
      var j := if right < n && Less(r[right], r[left]) then right else left;
      if !Less(r[j], r[i]) {
        SettledIsOrdered(r, i);
        break;
      }
      SwapDownKeepsOrder(r, i, j);
      r := Swap(r, i, j);
      i := j;
    }
  }

  lemma SettledIsOrdered<T>(h: seq<Entry<T>>, i: nat)
    requires OrderedExceptBelow(h, i)
    requires 2 * i + 1 < |h| ==> i < |h| && !Less(h[2 * i + 1], h[i])
    requires 2 * i + 2 < |h| ==> i < |h| && !Less(h[2 * i + 2], h[i])
    ensures HeapOrdered(h)
  {
    forall k | 0 < k < |h| ensures !Less(h[k], h[Parent(k)]) {
      if Parent(k) == i {
        assert k == 2 * i + 1 || k == 2 * i + 2;
      }
    }
  }

  lemma SwapDownKeepsOrder<T>(h: seq<Entry<T>>, i: nat, j: nat)
    requires i < |h| && j < |h| && 0 < j && Parent(j) == i && OrderedExceptBelow(h, i)
    requires Less(h[j], h[i])
    requires 2 * i + 1 < |h| && !Less(h[2 * i + 1], h[j])
    requires 2 * i + 2 < |h| ==> !Less(h[2 * i + 2], h[j])
    ensures OrderedExceptBelow(Swap(h, i, j), j)
  {
    var r := Swap(h, i, j);
    forall k | 0 < k < |h| && Parent(k) != j ensures !Less(r[k], r[Parent(k)]) {
      if Parent(k) == i {
        assert k == 2 * i + 1 || k == 2 * i + 2;
      } else if k != i {
        assert !Less(h[k], h[Parent(k)]);
      }
    }
    forall k | 0 < k < |h| && Parent(k) == j && j > 0 ensures !Less(r[k], r[Parent(j)]) {
      assert !Less(h[k], h[Parent(k)]);
    }
  }

  /** heap.Pop: move the last element to the front, sift it down, return the old front. */
  method Pop<T>(h: seq<Entry<T>>) returns (x: Entry<T>, r: seq<Entry<T>>)
    requires HeapOrdered(h) && |h| > 0
    ensures HeapOrdered(r)
    ensures x == h[0]
    ensures multiset(h) == multiset(r) + multiset{x}
    ensures |r| == |h| - 1
    ensures forall y :: y in h ==> !Less(y, x)
    ensures forall y :: y in h ==> x.priority > y.priority || (x.priority == y.priority && x.tick <= y.tick)
  {
    var n := |h| - 1;
    x := h[0];
    forall k: nat | k < |h| ensures !Less(h[k], x) {
      HeadIsFirst(h, k);
    }
    var swapped := Swap(h, 0, n);
    assert swapped == swapped[..n] + [x];
    r := swapped[..n];
    r := SiftDown(r);
  }
}
