// The in-flight trace buffer: an age heap and an index over it, a byte count, and the cache of recent decisions.
// The class below is proved against the value-level operations that come first.
module TraceBuffer {
  import opened IndexedHeap
  import opened Options

  /** A row as far as assembly looks at it; partition and offset say which record it came from. */
  datatype Span = Span(
    id: TraceId, size: nat, root: bool, start: int, duration: int, weight: real, partition: int, offset: int)

  datatype Decision = Decision(sample: bool, probability: real) {
    /** 1/p, and 1 for a deterministic keep. */
    function Weight(): (w: real)
      ensures Upweighs(probability, w)
    {
      if probability <= 0.0 then 1.0 else 1.0 / probability
    }
  }

  /** A kept trace counts for as many as it stands for: weight times probability is one trace. */
  predicate Upweighs(probability: real, weight: real) {
    if probability > 0.0 then weight * probability == 1.0 else weight == 1.0
  }

  datatype Config = Config(
    maxTraces: int, maxBytes: int, discard: bool, decisionWait: int, decidedCacheSize: int, decidedCacheTTL: int)

  datatype Trace = Trace(spans: seq<Span>, firstSeen: int, bytes: int)

  datatype Decided = Decided(sampled: bool, weight: real, at: int)

  datatype Buf = Buf(
    inflight: map<TraceId, Trace>, totalBytes: int, decided: map<TraceId, Decided>, order: seq<(TraceId, int)>)

  const EMPTY := Buf(map[], 0, map[], [])

  // ---- What each operation does ----

  function WithSpan(t: Trace, s: Span): Trace {
    Trace(t.spans + [s], t.firstSeen, t.bytes + s.size)
  }

  function TraceAt(b: Buf, id: TraceId, now: int): Trace {
    if id in b.inflight then b.inflight[id] else Trace([], now, 0)
  }

  /** A span of an undecided trace joins its trace, or starts one. */
  function Admitted(b: Buf, s: Span, now: int): Buf {
    b.(inflight := b.inflight[s.id := WithSpan(TraceAt(b, s.id, now), s)], totalBytes := b.totalBytes + s.size)
  }

  predicate OverCap(cfg: Config, b: Buf) {
    |b.inflight| > cfg.maxTraces || b.totalBytes > cfg.maxBytes
  }

  ghost predicate Oldest(b: Buf, id: TraceId) {
    id in b.inflight && forall x | x in b.inflight :: b.inflight[id].firstSeen <= b.inflight[x].firstSeen
  }

  function Removed(b: Buf, id: TraceId): Buf {
    if id in b.inflight then b.(inflight := b.inflight - {id}, totalBytes := b.totalBytes - b.inflight[id].bytes) else b
  }

  /** When the oldest in-flight trace was first seen, if there is any. */
  ghost predicate OldestAge(b: Buf, oldest: Option<int>) {
    && (oldest.None? <==> b.inflight == map[])
    && (oldest.Some? ==> exists id :: Oldest(b, id) && b.inflight[id].firstSeen == oldest.value)
  }

  predicate Stale(cfg: Config, order: seq<(TraceId, int)>, now: int) {
    && order != []
    && ((cfg.decidedCacheTTL > 0 && now - order[0].1 > cfg.decidedCacheTTL)
        || (cfg.decidedCacheSize > 0 && |order| > cfg.decidedCacheSize))
  }

  /** Decided-cache entries past the age or count bound go, oldest first. */
  function Trimmed(cfg: Config, b: Buf, now: int): Buf
    decreases |b.order|
  {
    if !Stale(cfg, b.order, now) then b
    else Trimmed(cfg, b.(decided := b.decided - {b.order[0].0}, order := b.order[1..]), now)
  }

  /** The i-th entry is too old, or one too many with those behind it. */
  ghost predicate Overdue(cfg: Config, order: seq<(TraceId, int)>, now: int, i: nat)
    requires i < |order|
  {
    || (cfg.decidedCacheTTL > 0 && now > order[i].1 + cfg.decidedCacheTTL)
    || (cfg.decidedCacheSize > 0 && |order| - i > cfg.decidedCacheSize)
  }

  ghost function IdsOf(order: seq<(TraceId, int)>): set<TraceId> {
    set x | x in order :: x.0
  }

  /** What goes is the front as long as it is overdue, and exactly the decisions it names. */
  lemma {:induction false} TrimmedExactly(cfg: Config, b: Buf, now: int) returns (k: nat)
    ensures k <= |b.order| && (forall i | 0 <= i < k :: Overdue(cfg, b.order, now, i))
    ensures k < |b.order| ==> !Overdue(cfg, b.order, now, k)
    ensures Trimmed(cfg, b, now) == b.(decided := b.decided - IdsOf(b.order[..k]), order := b.order[k..])
    decreases |b.order|
  {
    if b.order != [] && Overdue(cfg, b.order, now, 0) {
      var c := b.(decided := b.decided - {b.order[0].0}, order := b.order[1..]);
      var j := TrimmedExactly(cfg, c, now);
      k := j + 1;
      forall i | 0 <= i < k ensures Overdue(cfg, b.order, now, i) {
        assert i > 0 ==> Overdue(cfg, c.order, now, i - 1);
      }
      assert k < |b.order| ==> !Overdue(cfg, c.order, now, j);
      assert b.order[..k] == [b.order[0]] + c.order[..j];
      assert IdsOf(b.order[..k]) == {b.order[0].0} + IdsOf(c.order[..j]);
      assert b.order[k..] == c.order[j..];
      assert b.decided - IdsOf(b.order[..k]) == c.decided - IdsOf(c.order[..j]);
    } else {
      k := 0;
      assert IdsOf(b.order[..0]) == {} && b.decided - {} == b.decided;
    }
  }

  function Recorded(cfg: Config, b: Buf, id: TraceId, d: Decision, now: int): Buf {
    Trimmed(cfg, b.(decided := b.decided[id := Decided(d.sample, d.Weight(), now)], order := b.order + [(id, now)]), now)
  }

  function Ready(cfg: Config, b: Buf, now: int): set<TraceId> {
    set id | id in b.inflight && now - b.inflight[id].firstSeen >= cfg.decisionWait
  }

  datatype Popped = Popped(id: TraceId, trace: Trace)

  function RemovedAll(b: Buf, popped: seq<Popped>): Buf {
    if popped == [] then b else Removed(RemovedAll(b, popped[..|popped| - 1]), popped[|popped| - 1].id)
  }

  /** Distinct in-flight traces, oldest first. */
  ghost predicate TakesOldest(b: Buf, popped: seq<Popped>) {
    && (forall p | p in popped :: p.id in b.inflight && p.trace == b.inflight[p.id])
    && (forall i, j | 0 <= i < j < |popped| ::
          popped[i].id != popped[j].id && popped[i].trace.firstSeen <= popped[j].trace.firstSeen)
  }

  /** Exactly the ready traces, oldest first. */
  ghost predicate PopsReady(cfg: Config, b: Buf, now: int, popped: seq<Popped>) {
    TakesOldest(b, popped) && forall id :: id in Ready(cfg, b, now) <==> exists p :: p in popped && p.id == id
  }

  lemma {:induction false} RemovedAllKeeps(b: Buf, popped: seq<Popped>)
    ensures RemovedAll(b, popped).decided == b.decided && RemovedAll(b, popped).order == b.order
    ensures forall id :: id in RemovedAll(b, popped).inflight <==> id in b.inflight && forall p | p in popped :: p.id != id
    ensures forall id | id in RemovedAll(b, popped).inflight :: RemovedAll(b, popped).inflight[id] == b.inflight[id]
  {
    if popped != [] {
      var n := |popped| - 1;
      RemovedAllKeeps(b, popped[..n]);
      assert popped == popped[..n] + [popped[n]];
    }
  }

  /** A prefix of the sweep: what was popped was ready, and nothing left behind is older. */
  ghost predicate PoppedSoFar(cfg: Config, b: Buf, now: int, popped: seq<Popped>) {
    && TakesOldest(b, popped)
    && (forall p | p in popped :: now - p.trace.firstSeen >= cfg.decisionWait)
    && (forall p, id | p in popped && id in RemovedAll(b, popped).inflight ::
          p.trace.firstSeen <= RemovedAll(b, popped).inflight[id].firstSeen)
  }

  lemma PopNone(cfg: Config, b: Buf, now: int)
    ensures PoppedSoFar(cfg, b, now, []) && RemovedAll(b, []) == b
  {
  }

  lemma PopNext(cfg: Config, b: Buf, now: int, popped: seq<Popped>, t: Popped)
    requires PoppedSoFar(cfg, b, now, popped)
    requires Oldest(RemovedAll(b, popped), t.id) && t.trace == RemovedAll(b, popped).inflight[t.id]
    requires now - t.trace.firstSeen >= cfg.decisionWait
    ensures PoppedSoFar(cfg, b, now, popped + [t])
    ensures RemovedAll(b, popped + [t]) == Removed(RemovedAll(b, popped), t.id)
  {
    hide RemovedAll;
    RemovedAllStep(b, popped, t);
    RemovedAllKeeps(b, popped);
    RemovedAllKeeps(b, popped + [t]);
  }

  lemma RemovedAllStep(b: Buf, popped: seq<Popped>, t: Popped)
    ensures RemovedAll(b, popped + [t]) == Removed(RemovedAll(b, popped), t.id)
  {
    assert (popped + [t])[..|popped|] == popped;
  }

  lemma PoppedAll(cfg: Config, b: Buf, now: int, popped: seq<Popped>, oldest: Option<int>)
    requires PoppedSoFar(cfg, b, now, popped)
    requires OldestAge(RemovedAll(b, popped), oldest) && (oldest.Some? ==> now - oldest.value < cfg.decisionWait)
    ensures PopsReady(cfg, b, now, popped)
  {
    hide RemovedAll;
    RemovedAllKeeps(b, popped);
  }

  /** The root starts no later and ends no sooner. */
  ghost predicate Covers(root: Span, s: Span) {
    root.start <= s.start && s.start + s.duration <= root.start + root.duration
  }

  predicate Within(s: Span, root: Span) {
    root.start <= s.start && s.start + s.duration <= root.start + root.duration
  }

  ghost predicate FirstRoot(spans: seq<Span>, i: nat) {
    i < |spans| && spans[i].root && forall j | 0 <= j < i :: !spans[j].root
  }

  /** The first root span covers every buffered span. */
  ghost predicate RootClosed(spans: seq<Span>) {
    exists i: nat :: FirstRoot(spans, i) && forall s | s in spans :: Covers(spans[i], s)
  }

  method RootClosureComplete(spans: seq<Span>) returns (complete: bool)
    ensures complete <==> RootClosed(spans)
  {
    var r := 0;
    while r < |spans| && !spans[r].root
      invariant r <= |spans| && forall j | 0 <= j < r :: !spans[j].root
    {
      r := r + 1;
    }
    if r == |spans| {
      return false;
    }
    assert FirstRoot(spans, r) && forall i: nat | FirstRoot(spans, i) :: i == r;
    for i := 0 to |spans|
      invariant forall j | 0 <= j < i :: Covers(spans[r], spans[j])
    {
      if !Within(spans[i], spans[r]) {
        assert spans[i] in spans && !Covers(spans[r], spans[i]);
        return false;
      }
    }
    complete := true;
  }

  // ---- The buffer itself ----

  datatype Assembled = Assembled(spans: seq<Span>, bytes: int)

  datatype IngestResult = Buffered | LateAttached | LateDropped

  class Buffer {
    const cfg: Config
    const byAge: Heap<Assembled>
    var inflight: map<TraceId, Entry<Assembled>>
    var totalBytes: int
    var decided: map<TraceId, Decided>
    var decidedOrder: seq<(TraceId, int)>
    ghost var Repr: set<object>

    /** The age heap holds exactly the in-flight map's values, ordered and correctly indexed. */
    ghost predicate Valid()
      reads this, Repr
      ensures Valid() ==> this in Repr
    {
      && this in Repr && byAge in Repr && byAge.Entries() <= Repr
      && byAge.Valid() && Keyed(byAge.Entries(), inflight)
    }

    ghost function View(): (b: Buf)
      requires Valid()
      reads this, Repr
      ensures b.inflight.Keys == inflight.Keys && b.totalBytes == totalBytes && b.decided == decided && b.order == decidedOrder
    {
      Buf(map id | id in inflight :: Trace(inflight[id].data.spans, inflight[id].key, inflight[id].data.bytes),
          totalBytes, decided, decidedOrder)
    }

    constructor (cfg: Config)
      ensures Valid() && fresh(Repr) && View() == EMPTY && this.cfg == cfg
    {
      this.cfg := cfg;
      byAge := new Heap();
      inflight, totalBytes, decided, decidedOrder := map[], 0, map[], [];
      new;
      Repr := {this, byAge};
    }

    /** The in-flight trace of id, started now if there is none. */
    method Start(id: TraceId, now: int) returns (t: Entry<Assembled>)
      requires Valid()
      modifies Repr
      ensures Valid() && fresh(Repr - old(Repr)) && id in inflight && t == inflight[id]
      ensures View() == old(View()).(inflight := old(View()).inflight[id := TraceAt(old(View()), id, now)])
    {
      hide Ordered, Indexed;
      if id in inflight {
        return inflight[id];
      }
      t := new Entry(now, id, Assembled([], 0));
      inflight := inflight[id := t];
      byAge.Push(t);
      Repr := Repr + {t};
    }

    /** Add one span to a trace in flight. */
    method Append(s: Span)
      requires Valid() && s.id in inflight
      modifies Repr
      ensures Valid() && Repr == old(Repr)
      ensures View() == old(View()).(
                inflight := old(View()).inflight[s.id := WithSpan(old(View()).inflight[s.id], s)],
                totalBytes := old(View()).totalBytes + s.size)
    {
      hide Ordered, Indexed;
      var t := inflight[s.id];
      t.data := Assembled(t.data.spans + [s], t.data.bytes + s.size);
      totalBytes := totalBytes + s.size;
      assert forall x | x in inflight && x != s.id :: inflight[x] != t;
    }

    method Join(s: Span, now: int)
      requires Valid()
      modifies Repr
      ensures Valid() && fresh(Repr - old(Repr)) && View() == Admitted(old(View()), s, now)
    {
      hide Ordered, Indexed, Keyed, View, Valid;
      var _ := Start(s.id, now);
      Append(s);
    }

    /** byAge[0]. */
    method OldestTrace() returns (id: Option<TraceId>)
      requires Valid()
      ensures id.Some? ==> Oldest(View(), id.value)
      ensures id.None? ==> inflight == map[]
    {
      if byAge.h == [] {
        assert inflight == map[];
        return None;
      }
      forall k | 0 <= k < |byAge.h| ensures byAge.h[0].key <= byAge.h[k].key {
        RootIsLeast(byAge.h, k);
      }
      assert byAge.h[0] in byAge.Entries();
      id := Some(byAge.h[0].id);
    }

    /** The first critical section of Ingest: classify, admit, and name the trace to evict if a cap is exceeded. */
    method Admit(s: Span, now: int) returns (result: IngestResult, weight: real, victim: Option<TraceId>)
      requires Valid()
      modifies Repr
      ensures Valid() && fresh(Repr - old(Repr))
      ensures s.id in old(View()).decided ==>
        && View() == old(View()) && victim == None
        && result == (if old(View()).decided[s.id].sampled then LateAttached else LateDropped)
        && weight == (if old(View()).decided[s.id].sampled then old(View()).decided[s.id].weight else 0.0)
      ensures s.id !in old(View()).decided ==>
        && View() == Admitted(old(View()), s, now) && result == Buffered
        && (victim.Some? <==> OverCap(cfg, View()))
        && (victim.Some? ==> Oldest(View(), victim.value))
    {
      hide Ordered, Indexed, Keyed, Oldest, View, Valid, TraceAt, WithSpan;
      victim, weight := None, 0.0;
      if s.id in decided {
        if decided[s.id].sampled {
          return LateAttached, decided[s.id].weight, None;
        }
        return LateDropped, 0.0, None;
      }
      result := Buffered;
      Join(s, now);
      if |inflight| > cfg.maxTraces || totalBytes > cfg.maxBytes {
        victim := OldestTrace();
      }
    }

    /** Take a trace out of the index, the heap and the byte count. */
    method Detach(id: TraceId) returns (t: Trace)
      requires Valid() && id in inflight
      modifies Repr
      ensures Valid() && Repr == old(Repr)
      ensures t == old(View()).inflight[id] && View() == Removed(old(View()), id)
    {
      hide Ordered;
      var e := inflight[id];
      t := Trace(e.data.spans, e.key, e.data.bytes);
      inflight := inflight - {id};
      var _ := byAge.Remove(e.heapIndex);
      totalBytes := totalBytes - t.bytes;
    }

    /** resolve up to the decision: the evicted trace's spans, if it is still there. */
    method Resolve(id: TraceId) returns (spans: Option<seq<Span>>)
      requires Valid()
      modifies Repr
      ensures Valid() && Repr == old(Repr)
      ensures View() == Removed(old(View()), id)
      ensures spans == if id in old(View()).inflight then Some(old(View()).inflight[id].spans) else None
    {
      hide View, Valid;
      if id !in inflight {
        return None;
      }
      var t := Detach(id);
      spans := Some(t.spans);
    }

    method TryEarlyExit(id: TraceId) returns (spans: Option<seq<Span>>)
      requires Valid()
      modifies Repr
      ensures Valid() && Repr == old(Repr)
      ensures id in old(View()).inflight && RootClosed(old(View()).inflight[id].spans) ==>
        spans == Some(old(View()).inflight[id].spans) && View() == Removed(old(View()), id)
      ensures !(id in old(View()).inflight && RootClosed(old(View()).inflight[id].spans)) ==>
        spans == None && View() == old(View())
    {
      hide RootClosed, Ordered, Indexed, Keyed;
      if id !in inflight {
        return None;
      }
      var complete := RootClosureComplete(inflight[id].data.spans);
      if !complete {
        return None;
      }
      var t := Detach(id);
      spans := Some(t.spans);
    }

    method PopOldest() returns (t: Popped)
      requires Valid() && byAge.h != []
      modifies Repr
      ensures Valid() && Repr == old(Repr) && Oldest(old(View()), t.id) && t.trace == old(View()).inflight[t.id]
      ensures View() == Removed(old(View()), t.id)
      ensures t.trace.firstSeen == old(byAge.h[0].key) && inflight.Keys < old(inflight.Keys)
    {
      hide Ordered, Indexed;
      var e := byAge.Pop();
      inflight := inflight - {e.id};
      totalBytes := totalBytes - e.data.bytes;
      t := Popped(e.id, Trace(e.data.spans, e.key, e.data.bytes));
    }

    ghost function RootKey(): Option<int>
      reads byAge
    {
      if byAge.h == [] then None else Some(byAge.h[0].key)
    }

    lemma RootIsOldest()
      requires Valid()
      ensures OldestAge(View(), RootKey())
    {
      hide Ordered, Indexed;
      forall k | 0 <= k < |byAge.h| ensures byAge.h[0].key <= byAge.h[k].key {
        RootIsLeast(byAge.h, k);
      }
      assert forall id | id in inflight :: inflight[id] in byAge.Entries();
      if byAge.h != [] {
        assert byAge.h[0] in byAge.Entries();
        assert Oldest(View(), byAge.h[0].id);
      }
    }

    method PopReady(now: int) returns (ready: seq<Popped>)
      requires Valid()
      modifies Repr
      ensures Valid() && Repr == old(Repr)
      ensures PopsReady(cfg, old(View()), now, ready) && View() == RemovedAll(old(View()), ready)
    {
      hide Ordered, Indexed, Keyed, RemovedAll, Oldest, PoppedSoFar, View, Removed;
      ready := [];
      PopNone(cfg, View(), now);
      RootIsOldest();
      while byAge.h != [] && now - byAge.h[0].key >= cfg.decisionWait
        invariant Valid() && Repr == old(Repr) && View() == RemovedAll(old(View()), ready)
        invariant PoppedSoFar(cfg, old(View()), now, ready)
        invariant OldestAge(View(), RootKey())
        decreases inflight.Keys
      {
        var t := PopOldest();
        PopNext(cfg, old(View()), now, ready, t);
        ready := ready + [t];
        RootIsOldest();
      }
      PoppedAll(cfg, old(View()), now, ready, RootKey());
    }

    method EvictDecided(now: int)
      requires Valid()
      modifies this`decided, this`decidedOrder
      ensures Valid() && Repr == old(Repr) && View() == Trimmed(cfg, old(View()), now)
    {
      hide Ordered, Indexed, Keyed;
      while Stale(cfg, decidedOrder, now)
        invariant Valid() && Repr == old(Repr)
        invariant Trimmed(cfg, View(), now) == Trimmed(cfg, old(View()), now)
        decreases |decidedOrder|
      {
        ghost var before := View();
        decided := decided - {decidedOrder[0].0};
        decidedOrder := decidedOrder[1..];
        assert View().inflight == before.inflight;
      }
    }

    method RecordDecision(id: TraceId, d: Decision, now: int)
      requires Valid()
      modifies this
      ensures Valid() && Repr == old(Repr) && View() == Recorded(cfg, old(View()), id, d, now)
    {
      hide Ordered, Indexed, Keyed, Trimmed, Upweighs;
      ghost var before := View();
      decided := decided[id := Decided(d.sample, d.Weight(), now)];
      decidedOrder := decidedOrder + [(id, now)];
      assert View().inflight == before.inflight;
      EvictDecided(now);
    }

    method Tracks(id: TraceId) returns (known: bool)
      requires Valid()
      ensures known <==> id in View().inflight || id in View().decided
    {
      known := id in inflight || id in decided;
    }
  }
}
