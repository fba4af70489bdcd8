// The per-partition offset watermark: an indexed heap of first-seen offsets with a trace-id index beside it,
// proved against a plain finite map from trace to first-seen offset.
module Watermark {
  import opened IndexedHeap
  import opened Options

  /** What one tracked trace contributes: the offset it was first seen at, and when. */
  datatype Seen = Seen(offset: int, at: int)

  /** The specification state of one partition, and of all of them. */
  type Floors = map<TraceId, Seen>

  type AllFloors = map<int, Floors>

  function FloorsOf(w: AllFloors, partition: int): Floors {
    if partition in w then w[partition] else map[]
  }

  function Tracked(f: Floors, id: TraceId, seen: Seen): Floors {
    if id in f then f else f[id := seen]
  }

  function Resolved(w: AllFloors, partition: int, id: TraceId): AllFloors {
    if partition in w then w[partition := w[partition] - {id}] else w
  }

  /** offset is one less than the least tracked offset; None when nothing is tracked. */
  ghost predicate IsSafe(f: Floors, safe: Option<int>) {
    match safe
    case None => f == map[]
    case Some(o) =>
      && (exists id :: id in f && f[id].offset == o + 1)
      && (forall id | id in f :: o < f[id].offset)
  }

  function Below(f: Floors, threshold: int): set<TraceId> {
    set id | id in f && f[id].offset < threshold
  }

  datatype StaleEntry = StaleEntry(partition: int, offset: int, id: TraceId, age: int)

  ghost predicate IsStale(f: Floors, partition: int, maxAge: int, now: int, s: StaleEntry) {
    && s.id in f && s == StaleEntry(partition, f[s.id].offset, s.id, now - f[s.id].at)
    && s.age >= maxAge
  }

  ghost predicate Distinct<T>(q: seq<T>) {
    forall i, j | 0 <= i < j < |q| :: q[i] != q[j]
  }

  lemma SameMap<K, V>(a: map<K, V>, b: map<K, V>)
    requires a.Keys == b.Keys
    requires forall k | k in a.Keys :: a[k] == b[k]
    ensures a == b
  {
  }

  lemma SomeElement(s: set<int>)
    ensures s == {} || exists x :: x in s
  {
    if forall x :: x !in s {
      assert s == {};
    }
  }

  class PartitionWatermark {
    const heap: Heap<int>
    var byTrace: map<TraceId, Entry<int>>

    ghost var Repr: set<object>

    ghost predicate Valid()
      reads this, Repr
    {
      && this in Repr && heap in Repr && heap.Entries() <= Repr
      && heap.Valid() && Keyed(heap.Entries(), byTrace)
    }

    ghost function View(): Floors
      requires Valid()
      reads this, Repr
    {
      map id | id in byTrace :: Seen(byTrace[id].key, byTrace[id].data)
    }

    constructor ()
      ensures Valid() && fresh(Repr) && View() == map[]
    {
      heap := new Heap();
      byTrace := map[];
      Repr := {this, heap};
    }

    method Track(offset: int, id: TraceId, now: int)
      requires Valid()
      modifies Repr
      ensures Valid() && fresh(Repr - old(Repr))
      ensures View() == Tracked(old(View()), id, Seen(offset, now))
    {
      hide Ordered, Indexed;
      if id in byTrace {
        return;
      }
      var e := new Entry(offset, id, now);
      byTrace := byTrace[id := e];
      heap.Push(e);
      Repr := Repr + {e};
    }

    /** Forget one entry; its heapIndex says where it is by now. */
    method Drop(e: Entry<int>)
      requires Valid() && e in heap.Entries()
      modifies this`byTrace, heap, heap.Entries()`heapIndex
      ensures Valid() && Repr == old(Repr) && heap.Entries() == old(heap.Entries()) - {e}
      ensures byTrace == old(byTrace) - {e.id} && View() == old(View()) - {e.id}
    {
      hide Ordered;
      byTrace := byTrace - {e.id};
      var _ := heap.Remove(e.heapIndex);
    }

    method Resolve(id: TraceId)
      requires Valid()
      modifies Repr
      ensures Valid() && Repr == old(Repr)
      ensures View() == old(View()) - {id}
    {
      hide Ordered, Indexed;
      if id in byTrace {
        Drop(byTrace[id]);
      }
    }

    /** Collect every entry below the threshold, then remove them one by one while the heap shifts underneath. */
    method ClearBelow(threshold: int) returns (ids: seq<TraceId>)
      requires Valid()
      modifies Repr
      ensures Valid() && Repr == old(Repr)
      ensures Distinct(ids) && (set id | id in ids) == Below(old(View()), threshold)
      ensures View() == old(View()) - Below(old(View()), threshold)
    {
      hide Ordered;
      var cleared: seq<Entry<int>> := [];
      for i := 0 to |heap.h|
        invariant forall e | e in cleared :: e in heap.h[..i]
        invariant forall e | e in heap.h[..i] :: e in cleared <==> e.key < threshold
        invariant forall e | e in cleared :: e.key < threshold
        invariant Distinct(cleared)
      {
        if heap.h[i].key < threshold {
          assert forall k | 0 <= k < i :: heap.h[k].heapIndex != heap.h[i].heapIndex;
          cleared := cleared + [heap.h[i]];
        }
      }
      assert heap.h[..|heap.h|] == heap.h;
      ids := RemoveAll(cleared);
    }

    method RemoveAll(cleared: seq<Entry<int>>) returns (ids: seq<TraceId>)
      requires Valid() && Distinct(cleared) && forall e | e in cleared :: e in heap.Entries()
      modifies Repr
      ensures Valid() && Repr == old(Repr)
      ensures Distinct(ids) && |ids| == |cleared| && (forall i | 0 <= i < |ids| :: ids[i] == cleared[i].id)
      ensures View() == old(View()) - (set id | id in ids)
    {
      hide Ordered, Indexed;
      ids := [];
      for i := 0 to |cleared|
        invariant Valid() && Repr == old(Repr) && heap.Entries() <= old(heap.Entries())
        invariant forall k | i <= k < |cleared| :: cleared[k] in heap.Entries()
        invariant |ids| == i && forall k | 0 <= k < i :: ids[k] == cleared[k].id && ids[k] !in byTrace
        invariant Distinct(ids)
        invariant View() == old(View()) - (set id | id in ids)
      {
        var e := cleared[i];
        ids := ids + [e.id];
        Drop(e);
      }
    }

    method SafeOffset() returns (safe: Option<int>)
      requires Valid()
      ensures IsSafe(View(), safe)
    {
      if heap.h == [] {
        assert byTrace == map[];
        return None;
      }
      forall k | 0 <= k < |heap.h| ensures heap.h[0].key <= heap.h[k].key {
        RootIsLeast(heap.h, k);
      }
      assert heap.h[0].id in View();
      safe := Some(heap.h[0].key - 1);
    }

    method StaleIn(partition: int, maxAge: int, now: int) returns (out: seq<StaleEntry>)
      requires Valid()
      ensures Distinct(out) && forall s :: s in out <==> IsStale(View(), partition, maxAge, now, s)
    {
      hide Ordered;
      out := [];
      for i := 0 to |heap.h|
        invariant forall s | s in out :: IsStale(View(), partition, maxAge, now, s)
        invariant forall e | e in heap.h[..i] && now - e.data >= maxAge :: StaleEntry(partition, e.key, e.id, now - e.data) in out
        invariant Distinct(out) && forall s | s in out :: byTrace[s.id] in heap.h[..i]
      {
        var e := heap.h[i];
        assert e in heap.Entries();
        assert e !in heap.h[..i] && byTrace[e.id] == e;
        if now - e.data >= maxAge {
          out := out + [StaleEntry(partition, e.key, e.id, now - e.data)];
        }
      }
      forall s | IsStale(View(), partition, maxAge, now, s) ensures s in out {
        assert byTrace[s.id] in heap.Entries();
        assert byTrace[s.id] in heap.h[..|heap.h|];
      }
    }
  }

  class OffsetWatermark {
    var partitions: map<int, PartitionWatermark>
    ghost var Repr: set<object>

    ghost predicate Valid()
      reads this, Repr
      ensures Valid() ==> this in Repr
    {
      && this in Repr
      && (forall p | p in partitions :: partitions[p] in Repr && partitions[p].heap in Repr)
      && (forall p | p in partitions :: partitions[p].Repr <= Repr && this !in partitions[p].Repr)
      && (forall p | p in partitions :: partitions[p].Valid())
      && (forall p, q | p in partitions && q in partitions && p != q :: partitions[p].Repr !! partitions[q].Repr)
    }

    ghost function View(): (v: AllFloors)
      requires Valid()
      reads this, Repr
      ensures v.Keys == partitions.Keys
    {
      map p | p in partitions :: partitions[p].View()
    }

    constructor ()
      ensures Valid() && fresh(Repr) && View() == map[]
    {
      partitions := map[];
      Repr := {this};
    }

    /** A partition's watermark is made on first use. */
    method Create(partition: int)
      requires Valid() && partition !in partitions
      modifies this
      ensures Valid() && fresh(Repr - old(Repr)) && partition in partitions
      ensures View().Keys == old(View()).Keys + {partition} && View()[partition] == map[]
      ensures forall p | p in old(View()) :: View()[p] == old(View())[p]
    {
      hide Ordered, Indexed, Keyed;
      var pw := new PartitionWatermark();
      partitions := partitions[partition := pw];
      Repr := Repr + pw.Repr;
    }

    method TrackIn(partition: int, offset: int, id: TraceId, now: int)
      requires Valid() && partition in partitions
      modifies Repr
      ensures Valid() && fresh(Repr - old(Repr))
      ensures View().Keys == old(View()).Keys
      ensures View()[partition] == Tracked(old(View())[partition], id, Seen(offset, now))
      ensures forall p | p in View() && p != partition :: View()[p] == old(View())[p]
    {
      hide Ordered, Indexed, Keyed, Tracked;
      var pw := partitions[partition];
      pw.Track(offset, id, now);
      Repr := Repr + pw.Repr;
    }

    method Track(partition: int, offset: int, id: TraceId, now: int)
      requires Valid()
      modifies Repr
      ensures Valid() && fresh(Repr - old(Repr))
      ensures View() == old(View())[partition := Tracked(FloorsOf(old(View()), partition), id, Seen(offset, now))]
    {
      hide Ordered, Indexed, Keyed, Tracked, View, Valid;
      ghost var before := View();
      if partition !in partitions {
        Create(partition);
      }
      assert View()[partition] == FloorsOf(before, partition);
      assert forall p | p in before :: p != partition ==> View()[p] == before[p];
      TrackIn(partition, offset, id, now);
      assert forall p | p in before :: p != partition ==> View()[p] == before[p];
      SameMap(View(), before[partition := View()[partition]]);
    }

    method Resolve(partition: int, id: TraceId)
      requires Valid()
      modifies Repr
      ensures Valid() && Repr == old(Repr)
      ensures View() == Resolved(old(View()), partition, id)
    {
      hide Ordered, Indexed, Keyed;
      if partition in partitions {
        ghost var before := View();
        partitions[partition].Resolve(id);
        forall p | p in partitions && p != partition ensures partitions[p].View() == before[p] {}
        SameMap(View(), before[partition := partitions[partition].View()]);
      }
    }

    method SafeOffset(partition: int) returns (safe: Option<int>)
      requires Valid()
      ensures IsSafe(FloorsOf(View(), partition), safe)
    {
      if partition !in partitions {
        return None;
      }
      safe := partitions[partition].SafeOffset();
    }

    method ClearBelow(partition: int, threshold: int) returns (ids: seq<TraceId>)
      requires Valid()
      modifies Repr
      ensures Valid() && Repr == old(Repr)
      ensures Distinct(ids) && (set id | id in ids) == Below(FloorsOf(old(View()), partition), threshold)
      ensures FloorsOf(View(), partition) == FloorsOf(old(View()), partition) - (set id | id in ids)
      ensures forall p | p != partition :: FloorsOf(View(), p) == FloorsOf(old(View()), p)
    {
      hide Ordered, Indexed, Keyed;
      if partition !in partitions {
        return [];
      }
      ids := partitions[partition].ClearBelow(threshold);
    }

    ghost predicate Collected(out: seq<StaleEntry>, rest: set<int>, maxAge: int, now: int)
      requires Valid()
      reads this, Repr
    {
      forall s :: s in out <==> s.partition !in rest && IsStale(FloorsOf(View(), s.partition), s.partition, maxAge, now, s)
    }

    /** Partitions in any order, as a Go map gives them; each entry once. */
    method StaleCandidates(maxAge: int, now: int) returns (out: seq<StaleEntry>)
      requires Valid()
      ensures Distinct(out)
      ensures forall s :: s in out <==> IsStale(FloorsOf(View(), s.partition), s.partition, maxAge, now, s)
    {
      hide Ordered, Indexed, Keyed;
      out := [];
      var rest := partitions.Keys;
      while rest != {}
        invariant rest <= partitions.Keys
        invariant Collected(out, rest, maxAge, now) && Distinct(out)
        decreases |rest|
      {
        SomeElement(rest);
        var p :| p in rest;
        rest := rest - {p};
        var found := partitions[p].StaleIn(p, maxAge, now);
        DistinctConcat(out, found);
        out := out + found;
      }
    }
  }

  lemma DistinctConcat<T>(p: seq<T>, q: seq<T>)
    requires Distinct(p) && Distinct(q) && forall x | x in p :: x !in q
    ensures Distinct(p + q)
  {
    forall i, j | 0 <= i < j < |p + q| ensures (p + q)[i] != (p + q)[j] {
      assert i < |p| <= j ==> p[i] in p && q[j - |p|] in q;
    }
  }
}
