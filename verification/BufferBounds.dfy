/** How large the trace buffer can get over a whole run, and what its counters and its decided-cache say. */
module BufferBounds {
  import opened Assembly
  import opened AssemblyInvariants
  import opened CommitProtocol
  import opened IndexedHeap
  import opened Options
  import opened TraceBuffer
  import opened Watermark

  // ---- Sums over the in-flight traces ----

  ghost function Sum(m: map<TraceId, int>): int {
    if m == map[] then 0
    else
      var k :| k in m;
      m[k] + Sum(m - {k})
  }

  lemma {:induction false} SumRemove(m: map<TraceId, int>, k: TraceId)
    requires k in m
    ensures Sum(m) == m[k] + Sum(m - {k})
    decreases |m|
  {
    var c :| c in m && Sum(m) == m[c] + Sum(m - {c});
    if c != k {
      SumRemove(m - {c}, k);
      assert k in m - {c};
      SumRemove(m - {k}, c);
      assert (m - {c}) - {k} == (m - {k}) - {c};
    }
  }

  lemma SumSet(m: map<TraceId, int>, k: TraceId, v: int)
    ensures Sum(m[k := v]) == Sum(m - {k}) + v
  {
    SumRemove(m[k := v], k);
    assert m[k := v] - {k} == m - {k};
  }

  lemma {:induction false} SumAtMost(a: map<TraceId, int>, b: map<TraceId, int>, c: map<TraceId, int>, size: nat)
    requires a.Keys == b.Keys == c.Keys && forall k | k in a :: a[k] <= b[k] + size * c[k]
    ensures Sum(a) <= Sum(b) + size * Sum(c)
    decreases |a|
  {
    if a == map[] {
      assert b == map[] && c == map[];
    } else {
      var k :| k in a;
      SumRemove(a, k);
      SumRemove(b, k);
      SumRemove(c, k);
      SumAtMost(a - {k}, b - {k}, c - {k}, size);
      assert size * (c[k] + Sum(c - {k})) == size * c[k] + size * Sum(c - {k});
    }
  }

  lemma {:induction false} SumOfOnes(m: map<TraceId, int>)
    requires forall k | k in m :: m[k] >= 1
    ensures Sum(m) >= |m|
    decreases |m|
  {
    if m != map[] {
      var k :| k in m;
      SumRemove(m, k);
      SumOfOnes(m - {k});
      assert (m - {k}).Keys == m.Keys - {k};
    }
  }

  lemma {:induction false} SumExactlyOnes(m: map<TraceId, int>)
    requires forall k | k in m :: m[k] == 1
    ensures Sum(m) == |m|
    decreases |m|
  {
    if m != map[] {
      var k :| k in m;
      SumRemove(m, k);
      SumExactlyOnes(m - {k});
      assert (m - {k}).Keys == m.Keys - {k};
    }
  }

  function TotalSize(spans: seq<Span>): nat {
    if spans == [] then 0 else TotalSize(spans[..|spans| - 1]) + spans[|spans| - 1].size
  }

  lemma TotalSizeAppend(spans: seq<Span>, s: Span)
    ensures TotalSize(spans + [s]) == TotalSize(spans) + s.size
  {
    assert (spans + [s])[..|spans|] == spans;
  }

  lemma {:induction false} TotalSizeAfter(spans: seq<Span>, k: nat, size: nat)
    requires k <= |spans| && forall s | s in spans :: s.size <= size
    ensures TotalSize(spans) <= TotalSize(spans[..k]) + size * (|spans| - k)
    decreases |spans|
  {
    if k == |spans| {
      assert spans[..k] == spans;
    } else {
      var n := |spans| - 1;
      TotalSizeAfter(spans[..n], k, size);
      assert spans[..n][..k] == spans[..k];
      assert spans[n] in spans;
      assert size * (|spans| - k) == size * (n - k) + size;
    }
  }

  function Bytes(b: Buf): map<TraceId, int> {
    map id | id in b.inflight :: b.inflight[id].bytes
  }

  // ---- The counters ----

  /** Each trace's byte count is its spans', and totalBytes is the sum over the buffer. */
  ghost predicate Counted(b: Buf) {
    && (forall id | id in b.inflight :: b.inflight[id].bytes == TotalSize(b.inflight[id].spans))
    && b.totalBytes == Sum(Bytes(b))
  }

  lemma AdmittedCounted(b: Buf, s: Span, now: int)
    requires Counted(b)
    ensures Counted(Admitted(b, s, now))
  {
    hide Sum;
    var a := Admitted(b, s, now);
    TotalSizeAppend(TraceAt(b, s.id, now).spans, s);
    assert Bytes(a) == Bytes(b)[s.id := a.inflight[s.id].bytes];
    SumSet(Bytes(b), s.id, a.inflight[s.id].bytes);
    if s.id in b.inflight {
      SumRemove(Bytes(b), s.id);
    } else {
      assert Bytes(b) - {s.id} == Bytes(b);
    }
  }

  lemma RemovedCounted(b: Buf, id: TraceId)
    requires Counted(b)
    ensures Counted(Removed(b, id))
  {
    if id in b.inflight {
      SumRemove(Bytes(b), id);
      assert Bytes(Removed(b, id)) == Bytes(b) - {id};
    }
  }

  // ---- The ghost split behind the bound ----

  /** How many of a trace's spans were there when the buffer was last under its caps. */
  type Split = map<TraceId, nat>

  ghost predicate Fits(b: Buf, split: Split) {
    split.Keys == b.inflight.Keys && forall id | id in split :: split[id] <= |b.inflight[id].spans|
  }

  function OldSizes(b: Buf, split: Split): map<TraceId, int>
    requires Fits(b, split)
  {
    map id | id in b.inflight :: TotalSize(b.inflight[id].spans[..split[id]])
  }

  /** An old trace weighs one, and so does each of its new spans. */
  function Weight(spans: nat, kept: nat): int {
    (if kept > 0 then 1 else 0) + spans - kept
  }

  function Weights(b: Buf, split: Split): map<TraceId, int>
    requires Fits(b, split)
  {
    map id | id in b.inflight :: Weight(|b.inflight[id].spans|, split[id])
  }

  /** The old part fits the byte cap; old traces plus new spans fit the trace cap. */
  ghost predicate Splits(cfg: Config, b: Buf, split: Split) {
    && Fits(b, split)
    && Sum(OldSizes(b, split)) <= cfg.maxBytes
    && Sum(Weights(b, split)) <= cfg.maxTraces
  }

  ghost predicate Nonempty(b: Buf) {
    forall id | id in b.inflight :: b.inflight[id].spans != []
  }

  ghost predicate Bounded(cfg: Config, b: Buf) {
    Counted(b) && Nonempty(b) && exists split :: Splits(cfg, b, split)
  }

  ghost predicate SizedAtMost(b: Buf, size: nat) {
    forall id, s | id in b.inflight && s in b.inflight[id].spans :: s.size <= size
  }

  lemma BytesPerTrace(b: Buf, split: Split, size: nat, id: TraceId)
    requires Counted(b) && Fits(b, split) && SizedAtMost(b, size) && id in b.inflight
    ensures Bytes(b)[id] <= OldSizes(b, split)[id] + size * Weights(b, split)[id]
  {
    hide Sum;
    var spans := b.inflight[id].spans;
    TotalSizeAfter(spans, split[id], size);
    LargerFactor(size, |spans| - split[id], Weights(b, split)[id]);
  }

  lemma LargerFactor(size: nat, a: int, b: int)
    requires a <= b
    ensures size * a <= size * b
  {
  }

  lemma BoundHolds(cfg: Config, b: Buf, size: nat)
    requires Bounded(cfg, b) && SizedAtMost(b, size)
    ensures |b.inflight| <= cfg.maxTraces && b.totalBytes <= cfg.maxBytes + size * cfg.maxTraces
  {
    hide Sum, TotalSize, Fits, SizedAtMost;
    var split :| Splits(cfg, b, split);
    var weights := Weights(b, split);
    WeighsAtLeastOne(b, split);
    SumOfOnes(weights);
    assert weights.Keys == b.inflight.Keys && |weights| == |b.inflight|;
    forall id | id in b.inflight ensures Bytes(b)[id] <= OldSizes(b, split)[id] + size * weights[id] {
      BytesPerTrace(b, split, size, id);
    }
    assert Bytes(b).Keys == OldSizes(b, split).Keys == weights.Keys;
    SumAtMost(Bytes(b), OldSizes(b, split), weights, size);
    LargerFactor(size, Sum(weights), cfg.maxTraces);
  }

  lemma WeighsAtLeastOne(b: Buf, split: Split)
    requires Fits(b, split) && Nonempty(b)
    ensures forall id | id in Weights(b, split) :: Weights(b, split)[id] >= 1
  {
  }

  /** Under both caps, everything present counts as old. */
  lemma UnderCaps(cfg: Config, b: Buf)
    requires Counted(b) && !OverCap(cfg, b) && Nonempty(b)
    ensures Bounded(cfg, b)
  {
    hide Sum, TotalSize;
    var split: Split := map id | id in b.inflight :: |b.inflight[id].spans|;
    forall id | id in b.inflight ensures b.inflight[id].spans[..split[id]] == b.inflight[id].spans {
    }
    assert OldSizes(b, split) == Bytes(b);
    SumExactlyOnes(Weights(b, split));
    assert Weights(b, split).Keys == b.inflight.Keys && |Weights(b, split)| == |b.inflight|;
    assert Splits(cfg, b, split);
  }

  lemma RemovedSums(b: Buf, split: Split, id: TraceId)
    requires Fits(b, split) && Nonempty(b) && id in b.inflight
    ensures Fits(Removed(b, id), split - {id})
    ensures Sum(OldSizes(Removed(b, id), split - {id})) <= Sum(OldSizes(b, split))
    ensures Sum(Weights(Removed(b, id), split - {id})) <= Sum(Weights(b, split)) - 1
  {
    hide Sum, TotalSize, Weight;
    RemovedMaps(b, split, id);
    SumRemove(OldSizes(b, split), id);
    SumRemove(Weights(b, split), id);
    WeighsAtLeastOne(b, split);
  }

  lemma RemovedMaps(b: Buf, split: Split, id: TraceId)
    requires Fits(b, split) && id in b.inflight
    ensures Fits(Removed(b, id), split - {id})
    ensures OldSizes(Removed(b, id), split - {id}) == OldSizes(b, split) - {id}
    ensures Weights(Removed(b, id), split - {id}) == Weights(b, split) - {id}
  {
    hide TotalSize, Weight;
  }

  lemma RemovedBounded(cfg: Config, b: Buf, id: TraceId)
    requires Bounded(cfg, b)
    ensures Bounded(cfg, Removed(b, id))
  {
    hide Sum, TotalSize, Fits, OldSizes, Weights, Counted;
    if id in b.inflight {
      RemovedCounted(b, id);
      var split :| Splits(cfg, b, split);
      RemovedSums(b, split, id);
      assert Splits(cfg, Removed(b, id), split - {id});
    }
  }

  function Widened(split: Split, id: TraceId): Split {
    split[id := if id in split then split[id] else 0]
  }

  lemma AdmittedMaps(b: Buf, s: Span, now: int, split: Split)
    requires Fits(b, split)
    ensures var a, wider, spans := Admitted(b, s, now), Widened(split, s.id), TraceAt(b, s.id, now).spans;
            && Fits(a, wider) && wider[s.id] <= |spans|
            && OldSizes(a, wider) == OldSizes(b, split)[s.id := TotalSize(spans[..wider[s.id]])]
            && Weights(a, wider) == Weights(b, split)[s.id := Weight(|spans|, wider[s.id]) + 1]
  {
    hide TotalSize;
    var a, wider, spans := Admitted(b, s, now), Widened(split, s.id), TraceAt(b, s.id, now).spans;
    assert (spans + [s])[..wider[s.id]] == spans[..wider[s.id]];
  }

  /** A new span adds exactly one to the weights and nothing to the old part. */
  lemma AdmittedSums(b: Buf, s: Span, now: int, split: Split)
    requires Fits(b, split)
    ensures Fits(Admitted(b, s, now), Widened(split, s.id))
    ensures Sum(OldSizes(Admitted(b, s, now), Widened(split, s.id))) == Sum(OldSizes(b, split))
    ensures Sum(Weights(Admitted(b, s, now), Widened(split, s.id))) == Sum(Weights(b, split)) + 1
  {
    hide Sum, Admitted;
    AdmittedMaps(b, s, now, split);
    var k, spans := Widened(split, s.id)[s.id], TraceAt(b, s.id, now).spans;
    SumSet(OldSizes(b, split), s.id, TotalSize(spans[..k]));
    SumSet(Weights(b, split), s.id, Weight(|spans|, k) + 1);
    if s.id in split {
      SumRemove(OldSizes(b, split), s.id);
      SumRemove(Weights(b, split), s.id);
    } else {
      assert OldSizes(b, split) - {s.id} == OldSizes(b, split);
      assert Weights(b, split) - {s.id} == Weights(b, split);
    }
  }

  /** Admitting a span and evicting some trace leaves old traces plus new spans no more than before. */
  lemma AdmittedEvictedBounded(cfg: Config, b: Buf, s: Span, now: int, victim: TraceId)
    requires Bounded(cfg, b) && victim in Admitted(b, s, now).inflight
    ensures Bounded(cfg, Removed(Admitted(b, s, now), victim))
  {
    hide Sum, TotalSize, Fits, OldSizes, Weights, Counted, Removed, Widened;
    var split :| Splits(cfg, b, split);
    var a := Admitted(b, s, now);
    AdmittedCounted(b, s, now);
    RemovedCounted(a, victim);
    AdmittedSums(b, s, now, split);
    AdmittedNonempty(b, s, now);
    RemovedSums(a, Widened(split, s.id), victim);
    RemovedNonempty(a, victim);
    assert Splits(cfg, Removed(a, victim), Widened(split, s.id) - {victim});
  }

  lemma AdmittedNonempty(b: Buf, s: Span, now: int)
    requires Nonempty(b)
    ensures Nonempty(Admitted(b, s, now))
  {
  }

  lemma RemovedNonempty(b: Buf, id: TraceId)
    requires Nonempty(b)
    ensures Nonempty(Removed(b, id))
  {
  }

  // ---- The decided-cache ----

  function Ids(order: seq<(TraceId, int)>): seq<TraceId> {
    seq(|order|, i requires 0 <= i < |order| => order[i].0)
  }

  ghost predicate Listed(ids: set<TraceId>, order: seq<(TraceId, int)>) {
    Distinct(Ids(order)) && forall id :: id in ids <==> id in Ids(order)
  }

  /** decidedOrder lists exactly the decided traces, once each, within the configured size. */
  ghost predicate CacheRight(cfg: Config, b: Buf) {
    Listed(b.decided.Keys, b.order) && (cfg.decidedCacheSize > 0 ==> |b.order| <= cfg.decidedCacheSize)
  }

  lemma DropOldest(b: Buf)
    requires Listed(b.decided.Keys, b.order) && b.order != []
    ensures Listed((b.decided - {b.order[0].0}).Keys, b.order[1..])
  {
    var ids := Ids(b.order);
    assert Ids(b.order[1..]) == ids[1..];
    assert ids == [ids[0]] + ids[1..];
    forall i | 0 <= i < |ids[1..]| ensures ids[1..][i] != ids[0] {
      assert ids[1..][i] == ids[i + 1];
    }
  }

  lemma {:induction false} TrimmedRight(cfg: Config, b: Buf, now: int)
    requires Listed(b.decided.Keys, b.order)
    ensures CacheRight(cfg, Trimmed(cfg, b, now))
    decreases |b.order|
  {
    hide Listed;
    if Stale(cfg, b.order, now) {
      DropOldest(b);
      TrimmedRight(cfg, b.(decided := b.decided - {b.order[0].0}, order := b.order[1..]), now);
    }
  }

  lemma RecordedRight(cfg: Config, b: Buf, id: TraceId, d: Decision, now: int)
    requires CacheRight(cfg, b) && id !in b.decided
    ensures CacheRight(cfg, Recorded(cfg, b, id, d, now))
  {
    hide Trimmed, Distinct;
    var grown := b.(decided := b.decided[id := Decided(d.sample, d.Weight(), now)], order := b.order + [(id, now)]);
    assert Ids(grown.order) == Ids(b.order) + [id];
    DistinctAppend(Ids(b.order), id);
    assert grown.decided.Keys == b.decided.Keys + {id};
    TrimmedRight(cfg, grown, now);
  }

  lemma DistinctAppend(q: seq<TraceId>, id: TraceId)
    requires Distinct(q) && id !in q
    ensures Distinct(q + [id])
  {
  }

  // ---- Spans of one size ----

  /** Every buffered span has size c, and the byte cap itself holds. */
  ghost predicate Tight(cfg: Config, c: nat, b: Buf) {
    && (forall id, s | id in b.inflight && s in b.inflight[id].spans :: s.size == c)
    && b.totalBytes <= cfg.maxBytes
  }

  lemma EvictionFreesOne(spans: seq<Span>, c: nat)
    requires spans != [] && forall s | s in spans :: s.size == c
    ensures TotalSize(spans) >= c
  {
    assert spans[|spans| - 1] in spans;
  }

  lemma AdmittedEvictedTight(cfg: Config, c: nat, b: Buf, s: Span, now: int, victim: TraceId)
    requires Tight(cfg, c, b) && Counted(b) && Nonempty(b) && s.size == c && victim in Admitted(b, s, now).inflight
    ensures Tight(cfg, c, Removed(Admitted(b, s, now), victim))
  {
    hide Sum, TotalSize;
    var a := Admitted(b, s, now);
    AdmittedCounted(b, s, now);
    forall x | x in a.inflight[victim].spans ensures x.size == c {
    }
    EvictionFreesOne(a.inflight[victim].spans, c);
  }

  // ---- Everything the buffer keeps, step by step ----

  /** c, when given, is the size of every span. */
  ghost predicate Kept(cfg: Config, c: Option<nat>, b: Buf) {
    && Bounded(cfg, b) && CacheRight(cfg, b) && Apart(b)
    && (c.Some? ==> Tight(cfg, c.value, b))
  }

  lemma KeptRemoved(cfg: Config, c: Option<nat>, b: Buf, id: TraceId)
    requires Kept(cfg, c, b)
    ensures Kept(cfg, c, Removed(b, id))
  {
    hide Bounded, Listed;
    RemovedBounded(cfg, b, id);
    BytesNotNegative(cfg, b, id);
  }

  lemma BytesNotNegative(cfg: Config, b: Buf, id: TraceId)
    requires Bounded(cfg, b)
    ensures Removed(b, id).totalBytes <= b.totalBytes
  {
    hide Sum, Splits;
  }

  lemma KeptAdmitted(cfg: Config, c: Option<nat>, b: Buf, s: Span, now: int)
    requires Kept(cfg, c, b) && s.id !in b.decided && !OverCap(cfg, Admitted(b, s, now))
    requires c.Some? ==> s.size == c.value
    ensures Kept(cfg, c, Admitted(b, s, now))
  {
    hide Listed, Splits, Counted;
    AdmittedCounted(b, s, now);
    AdmittedNonempty(b, s, now);
    UnderCaps(cfg, Admitted(b, s, now));
  }

  lemma KeptEvicted(cfg: Config, c: Option<nat>, b: Buf, s: Span, now: int, victim: TraceId)
    requires Kept(cfg, c, b) && s.id !in b.decided && victim in Admitted(b, s, now).inflight
    requires c.Some? ==> s.size == c.value
    ensures Kept(cfg, c, Removed(Admitted(b, s, now), victim))
    ensures victim !in Removed(Admitted(b, s, now), victim).decided
  {
    hide Listed, Splits, Counted, Tight;
    AdmittedEvictedBounded(cfg, b, s, now, victim);
    if c.Some? {
      AdmittedEvictedTight(cfg, c.value, b, s, now, victim);
    }
  }

  lemma KeptRecorded(cfg: Config, c: Option<nat>, b: Buf, id: TraceId, d: Decision, now: int)
    requires Kept(cfg, c, b) && id !in b.inflight && id !in b.decided
    ensures Kept(cfg, c, Recorded(cfg, b, id, d, now))
  {
    hide Recorded, Counted, Splits, Listed;
    RecordedKeeps(cfg, b, id, d, now);
    RecordedRight(cfg, b, id, d, now);
    SameTraces(cfg, b, Recorded(cfg, b, id, d, now));
  }

  lemma SameTraces(cfg: Config, b: Buf, b': Buf)
    requires b'.inflight == b.inflight && b'.totalBytes == b.totalBytes && Bounded(cfg, b)
    ensures Bounded(cfg, b')
  {
    hide Sum, TotalSize;
    var split :| Splits(cfg, b, split);
    assert OldSizes(b', split) == OldSizes(b, split) && Weights(b', split) == Weights(b, split);
    assert Bytes(b') == Bytes(b);
    assert Splits(cfg, b', split);
  }
}
