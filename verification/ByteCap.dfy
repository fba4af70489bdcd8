/** Exactly when the buffer's byte cap holds: after one span, and at every moment of a run. */
module ByteCap {
  import opened Assembly
  import opened AssemblyInvariants
  import opened BufferBounds
  import opened BufferRuns
  import opened CommitProtocol
  import opened FloorHistory
  import opened IndexedHeap
  import opened Options
  import opened TraceBuffer
  import opened Watermark

  /** What id's trace holds once s has joined. */
  function BytesWith(b: Buf, s: Span, id: TraceId): int {
    (if id in b.inflight then b.inflight[id].bytes else 0) + (if id == s.id then s.size else 0)
  }

  /** s completes its trace, and the trace is not the one evicted. */
  ghost predicate LeavesEarly(b: Buf, s: Span, now: int, victim: Option<TraceId>) {
    victim != Some(s.id) && RootClosed(TraceAt(b, s.id, now).spans + [s])
  }

  /** What one ingested span lets go: the evicted trace, and s's own if s completes it. */
  ghost function Freed(b: Buf, s: Span, now: int, victim: Option<TraceId>): int {
    (if victim.Some? then BytesWith(b, s, victim.value) else 0)
    + (if LeavesEarly(b, s, now, victim) then BytesWith(b, s, s.id) else 0)
  }

  /** What does not fit. */
  function Excess(cfg: Config, b: Buf, s: Span): int {
    b.totalBytes + s.size - cfg.maxBytes
  }

  ghost predicate Relieved(cfg: Config, b: Buf, s: Span, now: int, victim: Option<TraceId>) {
    || s.id in b.decided
    || !OverCap(cfg, Admitted(b, s, now))
    || Freed(b, s, now, victim) >= Excess(cfg, b, s)
  }

  lemma {:induction false} SizesNotNegative(spans: seq<Span>)
    ensures TotalSize(spans) >= 0
  {
    if spans != [] {
      SizesNotNegative(spans[..|spans| - 1]);
    }
  }

  lemma FreedNotNegative(b: Buf, s: Span, now: int, victim: Option<TraceId>)
    requires Counted(b)
    ensures Freed(b, s, now, victim) >= 0
  {
    hide TotalSize, Sum, RootClosed;
    forall id | id in b.inflight ensures b.inflight[id].bytes >= 0 {
      SizesNotNegative(b.inflight[id].spans);
    }
  }

  /** The eviction alone keeps the cap exactly if there was no need for one, or the oldest trace covers the excess. */
  lemma EvictionSufficesExactly(cfg: Config, b: Buf, s: Span, now: int, victim: Option<TraceId>)
    requires victim.Some? <==> OverCap(cfg, Admitted(b, s, now))
    requires victim.Some? ==> Oldest(Admitted(b, s, now), victim.value)
    ensures var a := Admitted(b, s, now);
            (if victim.Some? then Removed(a, victim.value) else a).totalBytes <= cfg.maxBytes <==>
            !OverCap(cfg, a) || BytesWith(b, s, victim.value) >= Excess(cfg, b, s)
  {
  }

  lemma ExitBytes(cfg: Config, st: State, id: TraceId, o: Outcome, now: int)
    ensures EarlyExit(cfg, st, id, o, now).buf.totalBytes ==
            st.buf.totalBytes - (if id in st.buf.inflight && RootClosed(st.buf.inflight[id].spans) then st.buf.inflight[id].bytes else 0)
  {
    hide RootClosed, Recorded, Finish;
    if id in st.buf.inflight {
      var without := st.(buf := Removed(st.buf, id));
      DecideBytes(cfg, without, id, st.buf.inflight[id].spans, o, now);
    }
  }

  lemma DecideBytes(cfg: Config, st: State, id: TraceId, spans: seq<Span>, o: Outcome, now: int)
    ensures DecideAndEmit(cfg, st, id, spans, o, now).buf.totalBytes == st.buf.totalBytes
    ensures ForceDecide(cfg, st, id, spans, o, now).buf.totalBytes == st.buf.totalBytes
  {
    hide Recorded, Finish;
    var emitted := Emit(st, id, spans, o);
    RecordedKeeps(cfg, st.buf, id, o.decision, now);
    FinishKeepsBuffer(Record(cfg, emitted, id, o, now), id);
    FinishKeepsBuffer(emitted, id);
  }

  lemma EvictBytes(cfg: Config, st: State, id: TraceId, o: Outcome, now: int)
    requires id in st.buf.inflight
    ensures Evict(cfg, st, id, o, now).buf.totalBytes == st.buf.totalBytes - st.buf.inflight[id].bytes
    ensures Evict(cfg, st, id, o, now).buf.inflight == st.buf.inflight - {id}
  {
    hide ForceDecide, Evict;
    EvictKeepsOthers(cfg, st, id, o, now);
    EvictShape(cfg, st, id, o, now);
    DecideBytes(cfg, st.(buf := Removed(st.buf, id)), id, st.buf.inflight[id].spans, o, now);
  }

  lemma EvictShape(cfg: Config, st: State, id: TraceId, o: Outcome, now: int)
    requires id in st.buf.inflight
    ensures var without := st.(buf := Removed(st.buf, id));
            Evict(cfg, st, id, o, now).buf ==
            if cfg.discard then without.buf else ForceDecide(cfg, without, id, st.buf.inflight[id].spans, o, now).buf
  {
    hide ForceDecide, Removed;
  }

  /** One ingested span adds its size and frees exactly that. */
  lemma IngestBytes(
    cfg: Config, st: State, s: Span, now: int, victim: Option<TraceId>, forced: Outcome, last: Outcome)
    requires s.id !in st.buf.decided && VictimOf(cfg, st, s, now, victim)
    ensures Ingest(cfg, st, s, now, victim, forced, last).buf.totalBytes ==
            st.buf.totalBytes + s.size - Freed(st.buf, s, now, victim)
  {
    hide Evict, EarlyExit, RootClosed, Track, OverCap;
    TrackBuf(st, s, now);
    var admitted := AdmitSpan(Track(st, s, now), s, now);
    var evicted := if victim.Some? then Evict(cfg, admitted, victim.value, forced, now) else admitted;
    if victim.Some? {
      EvictBytes(cfg, admitted, victim.value, forced, now);
    }
    ExitBytes(cfg, evicted, s.id, last, now);
  }

  /** From a buffer within the cap, one span leaves it within the cap exactly if it is relieved. */
  lemma CapAfterIngestExactly(
    cfg: Config, st: State, s: Span, now: int, victim: Option<TraceId>, forced: Outcome, last: Outcome)
    requires Counted(st.buf) && st.buf.totalBytes <= cfg.maxBytes && VictimOf(cfg, st, s, now, victim)
    ensures Ingest(cfg, st, s, now, victim, forced, last).buf.totalBytes <= cfg.maxBytes <==>
            Relieved(cfg, st.buf, s, now, victim)
  {
    hide Ingest, Sum, Freed, TotalSize;
    if s.id in st.buf.decided {
      LateIngest(cfg, st, s, now, victim, forced, last);
    } else {
      IngestBytes(cfg, st, s, now, victim, forced, last);
      FreedNotNegative(st.buf, s, now, victim);
    }
  }

  lemma LateIngest(cfg: Config, st: State, s: Span, now: int, victim: Option<TraceId>, forced: Outcome, last: Outcome)
    requires s.id in st.buf.decided
    ensures Ingest(cfg, st, s, now, victim, forced, last).buf == st.buf
  {
    hide AttachLate, DropLate, Track;
    LateKeepsBuffer(st, s, now, st.buf.decided[s.id].weight, last.ok);
  }

  // ---- Runs ----

  ghost predicate WithinCapAt(home: Home, cfg: Config, events: seq<Event>, k: nat) {
    && k <= |events| && Run(home, cfg, events[..k]).Some?
    && Run(home, cfg, events[..k]).value.st.buf.totalBytes <= cfg.maxBytes
  }

  ghost predicate RelievedAt(home: Home, cfg: Config, events: seq<Event>, k: nat) {
    && k < |events| && Run(home, cfg, events[..k]).Some?
    && var s := Run(home, cfg, events[..k]).value;
       events[k].Handle? ==> s.queue != [] && Relieved(cfg, s.st.buf, s.queue[0], events[k].now, events[k].victim)
  }

  ghost predicate WithinCap(home: Home, cfg: Config, events: seq<Event>) {
    forall k | 0 <= k <= |events| :: WithinCapAt(home, cfg, events, k)
  }

  ghost predicate AlwaysRelieved(home: Home, cfg: Config, events: seq<Event>) {
    forall k | 0 <= k < |events| :: RelievedAt(home, cfg, events, k)
  }

  lemma {:induction false} SweepShrinks(cfg: Config, st: State, popped: seq<Popped>, os: seq<Outcome>, now: int)
    requires |os| == |popped| && Kept(cfg, None, st.buf) && TakesOldest(st.buf, popped)
    ensures Sweep(cfg, st, popped, os, now).buf.totalBytes <= st.buf.totalBytes
  {
    hide Kept, Sweep, DecideAndEmit, Removed, RemovedAll;
    if popped == [] {
      SweepNothing(cfg, st, now);
    } else {
      var k := |popped| - 1;
      var t := Sweep(cfg, st, popped[..k], os[..k], now);
      SweepShrinks(cfg, st, popped[..k], os[..k], now);
      KeptSweep(cfg, None, st, popped[..k], os[..k], now);
      SweepStep(cfg, st, popped, os, now);
      KeptBounded(cfg, t.buf);
      BytesNotNegative(cfg, t.buf, popped[k].id);
      DecideBytes(cfg, t.(buf := Removed(t.buf, popped[k].id)), popped[k].id, popped[k].trace.spans, os[k], now);
    }
  }

  lemma KeptBounded(cfg: Config, b: Buf)
    requires Kept(cfg, None, b)
    ensures Bounded(cfg, b) && Counted(b)
  {
    hide Counted, Splits;
  }

  /** From a state within the cap, an event leaves it exactly by an unrelieved span. */
  lemma CapAfterEvent(home: Home, cfg: Config, s: Sys, e: Event)
    requires Enabled(home, cfg, s, e) && Kept(cfg, None, s.st.buf) && s.st.buf.totalBytes <= cfg.maxBytes
    ensures Apply(cfg, s, e).st.buf.totalBytes <= cfg.maxBytes <==>
            (e.Handle? ==> Relieved(cfg, s.st.buf, s.queue[0], e.now, e.victim))
  {
    hide Kept, Ingest, Sweep, ExpireAll, Relieved, RowsOf, Noted, Committed, VictimOf, StaleOf, Fetchable;
    match e {
      case Handle(now, victim, forced, last) =>
        KeptBounded(cfg, s.st.buf);
        CapAfterIngestExactly(cfg, s.st, s.queue[0], now, victim, forced, last);
      case SweepTick(now, popped, os) => SweepShrinks(cfg, s.st, popped, os, now);
      case WatchdogTick(_, _, stale) => ExpireKeepsBuffer(s.st, stale);
      case _ =>
    }
  }

  lemma FrontWithin(home: Home, cfg: Config, events: seq<Event>, k: nat)
    requires events != [] && k < |events|
    ensures WithinCapAt(home, cfg, events, k) <==> WithinCapAt(home, cfg, events[..|events| - 1], k)
    ensures k < |events| - 1 ==> (RelievedAt(home, cfg, events, k) <==> RelievedAt(home, cfg, events[..|events| - 1], k))
  {
    hide Run, Relieved;
    assert events[..|events| - 1][..k] == events[..k];
  }

  lemma WithinLast(home: Home, cfg: Config, events: seq<Event>)
    requires events != []
    ensures var n := |events| - 1;
            && (WithinCap(home, cfg, events) <==> WithinCap(home, cfg, events[..n]) && WithinCapAt(home, cfg, events, n + 1))
            && (AlwaysRelieved(home, cfg, events) <==>
                AlwaysRelieved(home, cfg, events[..n]) && RelievedAt(home, cfg, events, n))
  {
    hide WithinCapAt, RelievedAt;
    var n := |events| - 1;
    var front := events[..n];
    forall k | 0 <= k <= n ensures WithinCapAt(home, cfg, events, k) <==> WithinCapAt(home, cfg, front, k) {
      FrontWithin(home, cfg, events, k);
    }
    forall k | 0 <= k < n ensures RelievedAt(home, cfg, events, k) <==> RelievedAt(home, cfg, front, k) {
      FrontWithin(home, cfg, events, k);
    }
  }

  /** A run is within the byte cap at every moment exactly if every span it ingests is relieved. */
  lemma {:induction false} ByteCapHoldsExactly(home: Home, cfg: Config, events: seq<Event>)
    requires Run(home, cfg, events).Some? && cfg.maxTraces >= 0 && cfg.maxBytes >= 0
    ensures WithinCap(home, cfg, events) <==> AlwaysRelieved(home, cfg, events)
  {
    hide Enabled, Apply, Relieved, Kept;
    if events == [] {
      assert events[..0] == [];
      assert WithinCapAt(home, cfg, events, 0);
    } else {
      var n := |events| - 1;
      RunFront(home, cfg, events);
      RunKept(home, cfg, None, events[..n]);
      ByteCapHoldsExactly(home, cfg, events[..n]);
      WithinLast(home, cfg, events);
      assert events[..n + 1] == events && events[..n][..n] == events[..n];
      if WithinCap(home, cfg, events[..n]) {
        assert WithinCapAt(home, cfg, events[..n], n);
        CapAfterEvent(home, cfg, Run(home, cfg, events[..n]).value, events[n]);
      }
    }
  }
}
