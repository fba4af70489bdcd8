// The binary heap of container/heap, as the watermark's offsetHeap and the buffer's ageHeap instantiate it:
// entries ordered by an integer key, each knowing its own position so that it can be removed from the middle.
module IndexedHeap {
  type TraceId = nat

  /** offsetEntry and bufferedTrace: an immutable key and trace id, a payload, and a position only Swap and Push write. */
  class Entry<P> {
    const key: int
    const id: TraceId
    var data: P
    var heapIndex: nat

    constructor (key: int, id: TraceId, data: P)
      ensures this.key == key && this.id == id && this.data == data
    {
      this.key, this.id, this.data, heapIndex := key, id, data, 0;
    }
  }

  /** The entry at k > 0 is not below its parent. */
  ghost predicate Edge<P>(h: seq<Entry<P>>, k: nat)
    requires k < |h|
  {
    k > 0 ==> h[(k - 1) / 2].key <= h[k].key
  }

  ghost predicate Ordered<P>(h: seq<Entry<P>>, n: nat)
    requires n <= |h|
  {
    forall k | 0 <= k < n :: Edge(h, k)
  }

  /** A child k of i does not lie below i's own parent. */
  ghost predicate Bridge<P>(h: seq<Entry<P>>, i: nat, k: nat)
    requires i < |h| && k < |h|
  {
    k > 0 && (k - 1) / 2 == i && i > 0 ==> h[(i - 1) / 2].key <= h[k].key
  }

  ghost predicate ChildOf(k: nat, i: nat) {
    k > 0 && (k - 1) / 2 == i
  }

  /** Among the first n entries only the entry at i may be out of place, towards its parent or its children. */
  ghost predicate OrderedBut<P>(h: seq<Entry<P>>, i: nat, n: nat)
    requires i < |h| && n <= |h|
  {
    && (forall k | 0 <= k < n && k != i && !ChildOf(k, i) :: Edge(h, k))
    && (forall k | 0 <= k < n :: Bridge(h, i, k))
  }

  ghost predicate ChildrenFine<P>(h: seq<Entry<P>>, i: nat, n: nat)
    requires n <= |h|
  {
    forall k | 0 <= k < n && ChildOf(k, i) :: Edge(h, k)
  }

  ghost predicate Indexed<P>(h: seq<Entry<P>>)
    reads (set e | e in h)`heapIndex
  {
    forall k | 0 <= k < |h| :: h[k].heapIndex == k
  }

  ghost predicate SameEntries<P>(a: seq<Entry<P>>, b: seq<Entry<P>>) {
    |a| == |b| && (forall e | e in a :: e in b) && (forall e | e in b :: e in a)
  }

  lemma {:induction false} RootIsLeast<P>(h: seq<Entry<P>>, k: nat)
    requires Ordered(h, |h|) && k < |h|
    ensures h[0].key <= h[k].key
  {
    if k > 0 {
      RootIsLeast(h, (k - 1) / 2);
      assert Edge(h, k);
    }
  }

  /** Exchanging a misplaced entry with a larger parent moves the only misplacement up. */
  lemma SwappedUp<P>(h: seq<Entry<P>>, g: seq<Entry<P>>, j: nat, n: nat)
    requires 0 < j < n <= |h| && OrderedBut(h, j, n) && ChildrenFine(h, j, n)
    requires h[j].key < h[(j - 1) / 2].key && g == h[j := h[(j - 1) / 2]][(j - 1) / 2 := h[j]]
    ensures OrderedBut(g, (j - 1) / 2, n) && ChildrenFine(g, (j - 1) / 2, n)
  {
    var i := (j - 1) / 2;
    forall k | 0 <= k < n && k != i ensures Edge(g, k) {
      if k != j && !ChildOf(k, j) {
        assert Edge(h, k);
      } else if ChildOf(k, j) {
        assert Bridge(h, j, k);
      }
    }
    forall k | 0 <= k < n ensures Bridge(g, i, k) {
      if ChildOf(k, i) && i > 0 {
        assert Edge(h, i);
        if k != j {
          assert Edge(h, k);
        }
      }
    }
  }

  /** Exchanging a misplaced entry with its least child c moves the only misplacement down, and i is fine. */
  lemma SwappedDown<P>(h: seq<Entry<P>>, g: seq<Entry<P>>, i: nat, c: nat, n: nat)
    requires i < n <= |h| && c < n && ChildOf(c, i) && OrderedBut(h, i, n) && h[c].key < h[i].key
    requires forall k | 0 <= k < n && ChildOf(k, i) :: h[c].key <= h[k].key
    requires g == h[i := h[c]][c := h[i]]
    ensures OrderedBut(g, c, n) && Edge(g, c)
  {
    forall k | 0 <= k < n && k != c && !ChildOf(k, c) ensures Edge(g, k) {
      if k == i {
        assert Bridge(h, i, c);
      } else if !ChildOf(k, i) {
        assert Edge(h, k);
      }
    }
    forall k | 0 <= k < n ensures Bridge(g, c, k) {
      if ChildOf(k, c) {
        assert Edge(h, k);
      }
    }
  }

  lemma NothingAbove<P>(h: seq<Entry<P>>, j: nat, n: nat)
    requires j < n <= |h| && OrderedBut(h, j, n) && ChildrenFine(h, j, n) && Edge(h, j)
    ensures Ordered(h, n)
  {
  }

  lemma NothingBelow<P>(h: seq<Entry<P>>, i: nat, n: nat)
    requires i < n <= |h| && OrderedBut(h, i, n) && ChildrenFine(h, i, n) && Edge(h, i)
    ensures Ordered(h, n)
  {
  }

  lemma SwapKeeps<P>(h: seq<Entry<P>>, i: nat, j: nat)
    requires i < |h| && j < |h|
    ensures SameEntries(h[i := h[j]][j := h[i]], h)
  {
    var g := h[i := h[j]][j := h[i]];
    forall e | e in h ensures e in g {
      var k :| 0 <= k < |h| && h[k] == e;
      assert g[if k == i then j else if k == j then i else k] == e;
    }
  }

  lemma Appended<P>(h: seq<Entry<P>>, x: Entry<P>)
    requires Ordered(h, |h|)
    ensures OrderedBut(h + [x], |h|, |h| + 1) && ChildrenFine(h + [x], |h|, |h| + 1)
  {
    forall k | 0 <= k < |h| ensures Edge(h + [x], k) {
      assert Edge(h, k);
    }
  }

  /** Moving the last entry into position i disturbs only i among the rest. */
  lemma Exchanged<P>(h: seq<Entry<P>>, g: seq<Entry<P>>, i: nat, n: nat)
    requires Ordered(h, |h|) && i <= n == |h| - 1 && g == h[i := h[n]][n := h[i]]
    ensures i < n ==> OrderedBut(g, i, n)
    ensures i == n ==> Ordered(g, n)
  {
    forall k | 0 <= k < n && k != i && !ChildOf(k, i) ensures Edge(g, k) {
      assert Edge(h, k);
    }
    if i < n {
      forall k | 0 <= k < n ensures Bridge(g, i, k) {
        assert Edge(h, k) && Edge(h, i);
      }
    }
  }

  lemma LeastChild<P>(h: seq<Entry<P>>, i: nat, j: nat, n: nat)
    requires 2 * i + 1 < n <= |h|
    requires j == if 2 * i + 2 < n && h[2 * i + 2].key < h[2 * i + 1].key then 2 * i + 2 else 2 * i + 1
    ensures ChildOf(j, i) && forall k | 0 <= k < n && ChildOf(k, i) :: h[j].key <= h[k].key
    ensures !(h[j].key < h[i].key) ==> ChildrenFine(h, i, n)
  {
    forall k | 0 <= k < n && ChildOf(k, i) ensures k == 2 * i + 1 || k == 2 * i + 2 {}
  }

  lemma NoChild<P>(h: seq<Entry<P>>, i: nat, n: nat)
    requires i < n <= |h| && 2 * i + 1 >= n
    ensures ChildrenFine(h, i, n)
  {
  }

  lemma Shrunk<P>(h: seq<Entry<P>>)
    requires h != [] && Indexed(h)
    ensures var n := |h| - 1;
            Indexed(h[..n]) && (set e | e in h[..n]) == (set e | e in h) - {h[n]} && (Ordered(h, n) ==> Ordered(h[..n], n))
  {
    var n := |h| - 1;
    assert h == h[..n] + [h[n]];
    forall k | 0 <= k < n && Ordered(h, n) ensures Edge(h[..n], k) {
      assert Edge(h, k);
    }
  }

  /** An index beside a heap maps exactly the heap's entries, each under its own trace id. */
  ghost predicate Keyed<P>(entries: set<Entry<P>>, byTrace: map<TraceId, Entry<P>>) {
    && (forall id | id in byTrace :: byTrace[id].id == id && byTrace[id] in entries)
    && (forall e | e in entries :: e.id in byTrace && byTrace[e.id] == e)
  }

  class Heap<P> {
    var h: seq<Entry<P>>

    ghost predicate Valid()
      reads this, (set e | e in h)`heapIndex
    {
      Indexed(h) && Ordered(h, |h|)
    }

    ghost function Entries(): set<Entry<P>>
      reads this
    {
      set e | e in h
    }

    constructor ()
      ensures Valid() && h == []
    {
      h := [];
    }

    method Swap(i: nat, j: nat)
      requires i < |h| && j < |h| && Indexed(h)
      modifies this, (set e | e in h)`heapIndex
      ensures h == old(h)[i := old(h[j])][j := old(h[i])]
      ensures Indexed(h) && SameEntries(h, old(h))
    {
      h := h[i := h[j]][j := h[i]];
      h[i].heapIndex := i;
      h[j].heapIndex := j;
      SwapKeeps(old(h), i, j);
      forall k | 0 <= k < |h| ensures h[k].heapIndex == k {
        assert old(h[k].heapIndex) == k && old(h[i].heapIndex) == i && old(h[j].heapIndex) == j;
      }
    }

    method Up(j0: nat, ghost n: nat)
      requires j0 < n <= |h| && Indexed(h) && OrderedBut(h, j0, n) && ChildrenFine(h, j0, n)
      modifies this, (set e | e in h)`heapIndex
      ensures Indexed(h) && SameEntries(h, old(h)) && Ordered(h, n) && h[n..] == old(h)[n..]
    {
      hide Ordered, OrderedBut, ChildrenFine;
      var j: nat := j0;
      while true
        invariant j < n <= |h| && Indexed(h) && OrderedBut(h, j, n) && ChildrenFine(h, j, n)
        invariant SameEntries(h, old(h)) && h[n..] == old(h)[n..]
        decreases j
      {
        var i: nat := if j == 0 then 0 else (j - 1) / 2;
        if i == j || !(h[j].key < h[i].key) {
          break;
        }
        ghost var before := h;
        Swap(i, j);
        SwappedUp(before, h, j, n);
        j := i;
      }
      NothingAbove(h, j, n);
    }

    method Down(i0: nat, n: nat) returns (moved: bool)
      requires i0 < n <= |h| && Indexed(h) && OrderedBut(h, i0, n)
      modifies this, (set e | e in h)`heapIndex
      ensures Indexed(h) && SameEntries(h, old(h)) && h[n..] == old(h)[n..]
      ensures moved ==> Ordered(h, n)
      ensures !moved ==> h == old(h) && OrderedBut(h, i0, n) && ChildrenFine(h, i0, n)
    {
      hide Ordered, OrderedBut, ChildOf, ChildrenFine, Edge;
      var i: nat := i0;
      while true
        invariant i0 <= i < n <= |h| && Indexed(h) && OrderedBut(h, i, n)
        invariant SameEntries(h, old(h)) && h[n..] == old(h)[n..]
        invariant if i > i0 then Edge(h, i) else h == old(h)
        decreases n - i
      {
        var j1 := 2 * i + 1;
        if j1 >= n {
          NoChild(h, i, n);
          break;
        }
        var j := j1;
        if j1 + 1 < n && h[j1 + 1].key < h[j1].key {
          j := j1 + 1;
        }
        LeastChild(h, i, j, n);
        if !(h[j].key < h[i].key) {
          break;
        }
        ghost var before := h;
        Swap(i, j);
        SwappedDown(before, h, i, j, n);
        i := j;
      }
      moved := i > i0;
      if moved {
        NothingBelow(h, i, n);
      }
    }

    /** heap.Push: append, then sift up. */
    method Push(x: Entry<P>)
      requires Valid() && x !in h
      modifies this, x`heapIndex, (set e | e in h)`heapIndex
      ensures Valid() && Entries() == old(Entries()) + {x} && |h| == old(|h|) + 1
    {
      hide Ordered, OrderedBut, ChildrenFine;
      Appended(h, x);
      x.heapIndex := |h|;
      h := h + [x];
      Up(|h| - 1, |h|);
    }

    /** heap.Remove(h, i): the entry at i, wherever earlier operations left it. */
    method Remove(i: nat) returns (x: Entry<P>)
      requires Valid() && i < |h|
      modifies this, (set e | e in h)`heapIndex
      ensures x == old(h[i]) && Valid() && Entries() == old(Entries()) - {x} && |h| == old(|h|) - 1
    {
      hide Ordered, OrderedBut, ChildrenFine;
      var n := |h| - 1;
      Exchanged(h, h[i := h[n]][n := h[i]], i, n);
      if n != i {
        Swap(i, n);
        var moved := Down(i, n);
        if !moved {
          Up(i, n);
        }
        assert h[n] == h[n..][0] == old(h)[i];
      } else {
        assert h[i := h[n]][n := h[i]] == h;
      }
      x := h[n];
      Shrunk(h);
      h := h[..n];
    }

    /** heap.Pop: an entry with the least key. */
    method Pop() returns (x: Entry<P>)
      requires Valid() && h != []
      modifies this, (set e | e in h)`heapIndex
      ensures x in old(Entries()) && (forall e | e in old(Entries()) :: x.key <= e.key)
      ensures x == old(h[0]) && Valid() && Entries() == old(Entries()) - {x} && |h| == old(|h|) - 1
    {
      hide Ordered, OrderedBut, ChildrenFine;
      forall k | 0 <= k < |h| ensures h[0].key <= h[k].key {
        RootIsLeast(h, k);
      }
      var n := |h| - 1;
      Exchanged(h, h[0 := h[n]][n := h[0]], 0, n);
      Swap(0, n);
      if n > 0 {
        var moved := Down(0, n);
        if !moved {
          NothingBelow(h, 0, n);
        }
        assert h[n] == h[n..][0] == old(h)[0];
      }
      x := h[n];
      Shrunk(h);
      h := h[..n];
    }
  }
}
