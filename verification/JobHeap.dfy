/**
  The bounded page selection's max-heap (server/server.go, maxJobHeap, over Go's
  container/heap): the entry that sorts last is at the root.
 */
module JobHeap {
  import opened JobOrder

  predicate Le(a: Key, b: Key) {
    !Less(b, a)
  }

  lemma LeTransitive(a: Key, b: Key, c: Key)
    requires Le(a, b) && Le(b, c)
    ensures Le(a, c)
  {
    KeyOrder(a, b, c);
    KeyOrder(c, a, b);
  }

  lemma LessIsLe(a: Key, b: Key)
    requires Less(a, b)
    ensures Le(a, b)
  {
    KeyOrder(a, b, a);
  }

  function Parent(i: nat): nat
    requires i > 0
  {
    (i - 1) / 2
  }

  ghost predicate Ordered(h: seq<Key>, k: nat) {
    0 < k < |h| ==> Le(h[k], h[Parent(k)])
  }

  ghost predicate IsHeap(h: seq<Key>) {
    forall k: nat :: Ordered(h, k)
  }

  lemma {:induction false} RootIsMax(h: seq<Key>, i: nat)
    requires IsHeap(h) && i < |h|
    ensures Le(h[i], h[0])
  {
    if i == 0 {
      KeyOrder(h[0], h[0], h[0]);
    } else {
      assert Ordered(h, i);
      RootIsMax(h, Parent(i));
      LeTransitive(h[i], h[Parent(i)], h[0]);
    }
  }

  function Swap(h: seq<Key>, i: nat, j: nat): seq<Key>
    requires i < |h| && j < |h|
  {
    h[i := h[j]][j := h[i]]
  }

  lemma SwapPermutes(h: seq<Key>, i: nat, j: nat)
    requires i < |h| && j < |h|
    ensures multiset(Swap(h, i, j)) == multiset(h)
  {
  }

  /** Heap order except that `j` may exceed its parent; its children respect that parent. */
  ghost predicate UpInv(h: seq<Key>, j: nat) {
    && (forall k: nat :: k != j ==> Ordered(h, k))
    && (forall k: nat :: 0 < k < |h| && 0 < j < |h| && Parent(k) == j ==> Le(h[k], h[Parent(j)]))
  }

  /** Heap order except that `i` may be below its children; they respect its parent. */
  ghost predicate DownInv(h: seq<Key>, i: nat) {
    && (forall k: nat :: k > 0 && Parent(k) != i ==> Ordered(h, k))
    && (forall k: nat :: 0 < k < |h| && 0 < i < |h| && Parent(k) == i ==> Le(h[k], h[Parent(i)]))
  }

  lemma UpStep(h: seq<Key>, j: nat)
    requires 0 < j < |h| && UpInv(h, j) && Less(h[Parent(j)], h[j])
    ensures UpInv(Swap(h, Parent(j), j), Parent(j))
  {
    var i := Parent(j);
    var h' := Swap(h, i, j);
    LessIsLe(h[i], h[j]);
    forall k: nat | k != i ensures Ordered(h', k) {
      assert Ordered(h, k) || k == j;
      if 0 < k < |h| && k != j && Parent(k) == i {
        LeTransitive(h[k], h[i], h[j]);
      }
    }
    forall k: nat | 0 < k < |h| && 0 < i && Parent(k) == i ensures Le(h'[k], h'[Parent(i)]) {
      assert Ordered(h, i);
      if k != j {
        assert Ordered(h, k);
        LeTransitive(h[k], h[i], h[Parent(i)]);
      }
    }
  }

  lemma DownStep(h: seq<Key>, i: nat, j: nat)
    requires 0 < j < |h| && Parent(j) == i && DownInv(h, i) && Less(h[i], h[j])
    requires forall k: nat :: 0 < k < |h| && Parent(k) == i ==> Le(h[k], h[j])
    ensures DownInv(Swap(h, i, j), j)
  {
    var h' := Swap(h, i, j);
    LessIsLe(h[i], h[j]);
    forall k: nat | k > 0 && Parent(k) != j ensures Ordered(h', k) {
      assert Parent(k) != i ==> Ordered(h, k);
    }
    forall k: nat | 0 < k < |h| && Parent(k) == j ensures Le(h'[k], h'[Parent(j)]) {
      assert Ordered(h, k);
    }
  }

  lemma LargerChild(h: seq<Key>, i: nat, j: nat)
    requires 2 * i + 1 <= j <= 2 * i + 2 && j < |h|
    requires 2 * i + 1 < |h| ==> Le(h[2 * i + 1], h[j])
    requires 2 * i + 2 < |h| ==> Le(h[2 * i + 2], h[j])
    ensures forall k: nat :: 0 < k < |h| && Parent(k) == i ==> Le(h[k], h[j])
  {
  }

  /** maxJobHeap with the container/heap operations on it. */
  class MaxJobHeap {
    var items: seq<Key>

    ghost predicate Valid()
      reads this
    {
      IsHeap(items)
    }

    constructor ()
      ensures Valid() && items == []
    {
      items := [];
    }

    /** heap.Push: append and sift up. */
    method Push(e: Key)
      requires Valid()
      modifies this
      ensures Valid() && multiset(items) == multiset(old(items)) + multiset{e}
    {
      assert forall k: nat :: k < |items| ==> Ordered(items, k);
      items := items + [e];
      var j: nat := |items| - 1;
      forall k: nat | k != j ensures Ordered(items, k) {
        assert Ordered(old(items), k);
      }
      while j > 0 && Less(items[Parent(j)], items[j])
        invariant j < |items| && UpInv(items, j)
        invariant multiset(items) == multiset(old(items)) + multiset{e}
      {
        UpStep(items, j);
        SwapPermutes(items, Parent(j), j);
        items := Swap(items, Parent(j), j);
        j := Parent(j);
      }
    }

    /** Sift the root down. */
    method Down()
      requires items != [] && DownInv(items, 0)
      modifies this
      ensures Valid() && multiset(items) == multiset(old(items))
    {
      var i: nat := 0;
      while 2 * i + 1 < |items|
        invariant i < |items| && DownInv(items, i)
        invariant multiset(items) == multiset(old(items))
        decreases |items| - i
      {
        var j := 2 * i + 1;
        KeyOrder(items[j], items[j], items[j]);
        if j + 1 < |items| {
          KeyOrder(items[j], items[j + 1], items[j]);
          if Less(items[j], items[j + 1]) {
            j := j + 1;
            KeyOrder(items[j], items[j], items[j]);
          }
        }
        LargerChild(items, i, j);
        if !Less(items[i], items[j]) {
          Settled(items, i, j);
          return;
        }
        DownStep(items, i, j);
        SwapPermutes(items, i, j);
        items := Swap(items, i, j);
        i := j;
      }
      forall k: nat ensures Ordered(items, k) {
      }
    }

    /** Overwrite the root and heap.Fix it. */
    method ReplaceTop(e: Key)
      requires Valid() && items != []
      modifies this
      ensures Valid() && multiset(items) == multiset(old(items)) - multiset{old(items[0])} + multiset{e}
    {
      items := items[0 := e];
      forall k: nat | k > 0 && Parent(k) != 0 ensures Ordered(items, k) {
        assert Ordered(old(items), k);
      }
      Down();
    }

    /** heap.Pop: the entry that sorts last. */
    method Pop() returns (top: Key)
      requires Valid() && items != []
      modifies this
      ensures Valid() && top == old(items[0])
      ensures multiset(items) == multiset(old(items)) - multiset{top}
      ensures |items| == |old(items)| - 1
    {
      top := items[0];
      var n := |items| - 1;
      var last := items[n];
      assert items == items[..n] + [last];
      items := items[..n];
      if n > 0 {
        items := items[0 := last];
        forall k: nat | k > 0 && Parent(k) != 0 ensures Ordered(items, k) {
          assert Ordered(old(items), k);
        }
        Down();
        assert |multiset(items)| == n;
      }
    }
  }

  lemma Settled(h: seq<Key>, i: nat, j: nat)
    requires j < |h| && i < |h| && DownInv(h, i) && Le(h[j], h[i])
    requires forall k: nat :: 0 < k < |h| && Parent(k) == i ==> Le(h[k], h[j])
    ensures IsHeap(h)
  {
    forall k: nat ensures Ordered(h, k) {
      if 0 < k < |h| && Parent(k) == i {
        LeTransitive(h[k], h[j], h[i]);
      }
    }
  }
}
