/** The buffer's bounds and bookkeeping over every run of the commit protocol. */
module BufferRuns {
  import opened Assembly
  import opened AssemblyInvariants
  import opened BufferBounds
  import opened CommitProtocol
  import opened IndexedHeap
  import opened Options
  import opened TraceBuffer
  import opened Watermark

  lemma KeptDecided(cfg: Config, c: Option<nat>, st: State, id: TraceId, spans: seq<Span>, o: Outcome, now: int)
    requires Kept(cfg, c, st.buf) && id !in st.buf.inflight && id !in st.buf.decided
    ensures Kept(cfg, c, DecideAndEmit(cfg, st, id, spans, o, now).buf)
    ensures Kept(cfg, c, ForceDecide(cfg, st, id, spans, o, now).buf)
  {
    hide Kept, Recorded, HasUnsettled;
    KeptRecorded(cfg, c, st.buf, id, o.decision, now);
  }

  lemma KeptAdmission(cfg: Config, c: Option<nat>, st: State, s: Span, now: int, victim: Option<TraceId>, forced: Outcome)
    requires Kept(cfg, c, st.buf) && s.id !in st.buf.decided && (c.Some? ==> s.size == c.value)
    requires VictimOf(cfg, st, s, now, victim)
    ensures var admitted := AdmitSpan(Track(st, s, now), s, now);
            Kept(cfg, c, (if victim.Some? then Evict(cfg, admitted, victim.value, forced, now) else admitted).buf)
  {
    hide Kept, ForceDecide, Tracked, Removed, Admitted;
    var admitted := AdmitSpan(Track(st, s, now), s, now);
    if victim.Some? {
      var id := victim.value;
      var without := admitted.(buf := Removed(admitted.buf, id));
      KeptEvicted(cfg, c, st.buf, s, now, id);
      RemovedGone(admitted.buf, id);
      KeptDecided(cfg, c, without, id, admitted.buf.inflight[id].spans, forced, now);
    } else {
      KeptAdmitted(cfg, c, st.buf, s, now);
    }
  }

  lemma RemovedGone(b: Buf, id: TraceId)
    ensures id !in Removed(b, id).inflight && Removed(b, id).decided == b.decided
  {
  }

  lemma KeptApart(cfg: Config, c: Option<nat>, b: Buf, id: TraceId)
    requires Kept(cfg, c, b) && id in b.inflight
    ensures id !in b.decided
  {
  }

  lemma KeptCompleted(cfg: Config, c: Option<nat>, st: State, id: TraceId, spans: seq<Span>, o: Outcome, now: int)
    requires Kept(cfg, c, st.buf) && id in st.buf.inflight
    ensures Kept(cfg, c, DecideAndEmit(cfg, st.(buf := Removed(st.buf, id)), id, spans, o, now).buf)
  {
    hide Kept, DecideAndEmit, ForceDecide, Removed;
    KeptApart(cfg, c, st.buf, id);
    KeptRemoved(cfg, c, st.buf, id);
    RemovedGone(st.buf, id);
    KeptDecided(cfg, c, st.(buf := Removed(st.buf, id)), id, spans, o, now);
  }

  lemma LateKeepsBuffer(st: State, s: Span, now: int, weight: real, ok: bool)
    ensures AttachLate(Track(st, s, now), s, weight, ok).buf == st.buf && DropLate(Track(st, s, now), s).buf == st.buf
  {
    hide HasUnsettled, Tracked;
  }

  lemma KeptIngest(
    cfg: Config, c: Option<nat>, st: State, s: Span, now: int, victim: Option<TraceId>, forced: Outcome, last: Outcome)
    requires Kept(cfg, c, st.buf) && (c.Some? ==> s.size == c.value) && VictimOf(cfg, st, s, now, victim)
    ensures Kept(cfg, c, Ingest(cfg, st, s, now, victim, forced, last).buf)
  {
    hide Kept, VictimOf, DecideAndEmit, Evict, AttachLate, DropLate, RootClosed, Track, AdmitSpan;
    if s.id in st.buf.decided {
      LateKeepsBuffer(st, s, now, st.buf.decided[s.id].weight, last.ok);
    } else {
      KeptAdmission(cfg, c, st, s, now, victim, forced);
      var admitted := AdmitSpan(Track(st, s, now), s, now);
      var t := if victim.Some? then Evict(cfg, admitted, victim.value, forced, now) else admitted;
      if s.id in t.buf.inflight {
        KeptCompleted(cfg, c, t, s.id, t.buf.inflight[s.id].spans, last, now);
      }
    }
  }

  lemma {:induction false} KeptSweep(cfg: Config, c: Option<nat>, st: State, popped: seq<Popped>, os: seq<Outcome>, now: int)
    requires |os| == |popped| && Kept(cfg, c, st.buf) && TakesOldest(st.buf, popped)
    ensures Kept(cfg, c, Sweep(cfg, st, popped, os, now).buf)
  {
    hide Kept, Sweep, DecideAndEmit, Removed, RemovedAll;
    if popped == [] {
      SweepNothing(cfg, st, now);
    } else {
      var k := |popped| - 1;
      KeptSweep(cfg, c, st, popped[..k], os[..k], now);
      SweepStep(cfg, st, popped, os, now);
      RemovedAllKeeps(st.buf, popped[..k]);
      assert forall p | p in popped[..k] :: p.id != popped[k].id;
      KeptCompleted(cfg, c, Sweep(cfg, st, popped[..k], os[..k], now), popped[k].id, popped[k].trace.spans, os[k], now);
    }
  }

  lemma {:induction false} ExpireKeepsBuffer(st: State, stale: seq<StaleEntry>)
    ensures ExpireAll(st, stale).buf == st.buf
  {
    hide HasUnsettled;
    if stale != [] {
      ExpireKeepsBuffer(st, stale[..|stale| - 1]);
    }
  }

  lemma EmptyKept(cfg: Config, c: Option<nat>)
    requires cfg.maxTraces >= 0 && cfg.maxBytes >= 0
    ensures Kept(cfg, c, EMPTY)
  {
    assert Bytes(EMPTY) == map[];
    UnderCaps(cfg, EMPTY);
  }

  lemma {:induction false} RunKept(home: Home, cfg: Config, c: Option<nat>, events: seq<Event>)
    requires Run(home, cfg, events).Some? && cfg.maxTraces >= 0 && cfg.maxBytes >= 0
    requires c.Some? ==> forall x | x in Delivered(events) :: x.size == c.value
    ensures Kept(cfg, c, Run(home, cfg, events).value.st.buf)
  {
    hide Kept, Fetchable, VictimOf, PopsReady, StaleOf, Ingest, Sweep, ExpireAll, RowsOf, Noted, Committed, Guarded;
    if events == [] {
      EmptyKept(cfg, c);
    } else {
      var n := |events| - 1;
      assert forall x | x in Delivered(events[..n]) :: x in Delivered(events);
      RunKept(home, cfg, c, events[..n]);
      var s := Run(home, cfg, events[..n]).value;
      RunGuarded(home, cfg, events[..n]);
      match events[n] {
        case Poll(_) =>
        case Commit(_, _) =>
        case Handle(now, victim, forced, last) =>
          assert s.queue[0] in Delivered(events[..n]);
          KeptIngest(cfg, c, s.st, s.queue[0], now, victim, forced, last);
        case SweepTick(now, popped, os) =>
          TakesReady(cfg, s.st.buf, now, popped);
          KeptSweep(cfg, c, s.st, popped, os, now);
        case WatchdogTick(_, _, stale) => ExpireKeepsBuffer(s.st, stale);
      }
    }
  }

  // ---- The bounds ----

  lemma BufferedSizes(home: Home, cfg: Config, events: seq<Event>, size: nat)
    requires Run(home, cfg, events).Some? && forall x | x in Delivered(events) :: x.size <= size
    ensures SizedAtMost(Run(home, cfg, events).value.st.buf, size)
  {
    hide Run, Delivered, Guarded;
    var s := Run(home, cfg, events).value;
    RunGuarded(home, cfg, events);
    GuardedSound(home, s);
    forall id, x | id in s.st.buf.inflight && x in s.st.buf.inflight[id].spans ensures x.size <= size {
      BufferedUnder(home, s, id, x);
      Accounted(home, s.st, x);
      assert x in Delivered(events);
    }
  }

  /** At every moment: at most MaxTraces traces, and at most MaxBytes plus one largest span per allowed trace. */
  lemma BufferStaysBounded(home: Home, cfg: Config, events: seq<Event>, size: nat)
    requires Run(home, cfg, events).Some? && cfg.maxTraces >= 0 && cfg.maxBytes >= 0
    requires forall x | x in Delivered(events) :: x.size <= size
    ensures var b := Run(home, cfg, events).value.st.buf;
            |b.inflight| <= cfg.maxTraces && b.totalBytes <= cfg.maxBytes + size * cfg.maxTraces
  {
    hide Run, Delivered, Bounded;
    RunKept(home, cfg, None, events);
    BufferedSizes(home, cfg, events, size);
    BoundHolds(cfg, Run(home, cfg, events).value.st.buf, size);
  }

  /** With spans of one size the byte cap is exact. */
  lemma EqualSpansKeepByteCap(home: Home, cfg: Config, events: seq<Event>, size: nat)
    requires Run(home, cfg, events).Some? && cfg.maxTraces >= 0 && cfg.maxBytes >= 0
    requires forall x | x in Delivered(events) :: x.size == size
    ensures Run(home, cfg, events).value.st.buf.totalBytes <= cfg.maxBytes
  {
    hide Run, Delivered, Bounded;
    RunKept(home, cfg, Some(size), events);
  }

  /** The counters and the decided-cache always tell the truth. */
  lemma BookkeepingIsRight(home: Home, cfg: Config, events: seq<Event>)
    requires Run(home, cfg, events).Some? && cfg.maxTraces >= 0 && cfg.maxBytes >= 0
    ensures var b := Run(home, cfg, events).value.st.buf; Counted(b) && CacheRight(cfg, b) && Apart(b)
  {
    hide Run, Delivered, Splits, Counted, CacheRight, Apart;
    RunKept(home, cfg, None, events);
  }

  // ---- One eviction per span is not always enough for the byte cap ----

  /** spanSize is at least 64; the sizes below are ordinary ones. */
  function Small(id: TraceId, size: nat): Span {
    Span(id, size, false, 0, 1, 1.0, 0, id)
  }

  const SMALL_CAP := Config(10, 1000, true, 5, 10, 0)
  const NEVER := Outcome(Decision(false, 0.0), true)
  const A := Small(1, 100)
  const B := Small(2, 600)
  const C := Small(3, 800)

  /** Three traces of sizes 100, 600 and 800: the third span evicts only the first trace. */
  const OVERFLOW: seq<Event> := [
    Poll([KafkaRecord(0, 1, [A]), KafkaRecord(0, 2, [B]), KafkaRecord(0, 3, [C])]),
    Handle(0, None, NEVER, NEVER), Handle(1, None, NEVER, NEVER), Handle(2, Some(1), NEVER, NEVER)]

  const ONE := Buf(map[1 := Trace([A], 0, 100)], 100, map[], [])
  const TWO := Buf(map[1 := Trace([A], 0, 100), 2 := Trace([B], 1, 600)], 700, map[], [])
  const THREE := Buf(map[1 := Trace([A], 0, 100), 2 := Trace([B], 1, 600), 3 := Trace([C], 2, 800)], 1500, map[], [])
  const LEFT := Buf(map[2 := Trace([B], 1, 600), 3 := Trace([C], 2, 800)], 1400, map[], [])

  lemma AdmissionsGrow()
    ensures Admitted(EMPTY, A, 0) == ONE && Admitted(ONE, B, 1) == TWO && Admitted(TWO, C, 2) == THREE
    ensures Removed(THREE, 1) == LEFT && Oldest(THREE, 1) && OverCap(SMALL_CAP, THREE)
    ensures !OverCap(SMALL_CAP, ONE) && !OverCap(SMALL_CAP, TWO)
  {
    assert [] + [A] == [A] && [] + [B] == [B] && [] + [C] == [C];
    assert |map[1 := 0]| == 1;
    assert THREE.inflight - {1} == LEFT.inflight;
    assert ONE.inflight.Keys == {1} && TWO.inflight.Keys == {1, 2};
    assert |ONE.inflight| == |ONE.inflight.Keys| && |TWO.inflight| == |TWO.inflight.Keys|;
  }

  lemma OpenStays(st: State, s: Span)
    requires s.id in st.buf.inflight ==> st.buf.inflight[s.id].spans == [s]
    requires !s.root
    ensures EarlyExit(SMALL_CAP, st, s.id, NEVER, 0) == st
    ensures !RootClosed([s])
  {
  }

  lemma IngestOpen(st: State, s: Span, now: int, victim: Option<TraceId>)
    requires st.buf.decided == map[] && s.id !in st.buf.inflight && !s.root
    ensures Ingest(SMALL_CAP, st, s, now, victim, NEVER, NEVER).buf ==
            if victim.Some? then Removed(Admitted(st.buf, s, now), victim.value) else Admitted(st.buf, s, now)
  {
    hide Removed, Tracked, RootClosed;
    var admitted := AdmitSpan(Track(st, s, now), s, now);
    assert [] + [s] == [s];
    var t := if victim.Some? then Evict(SMALL_CAP, admitted, victim.value, NEVER, now) else admitted;
    RemovedSpans(admitted.buf, if victim.Some? then victim.value else s.id, s);
    OpenStays(t, s);
  }

  lemma RemovedSpans(b: Buf, id: TraceId, s: Span)
    requires s.id in b.inflight && b.inflight[s.id].spans == [s]
    ensures s.id in Removed(b, id).inflight ==> Removed(b, id).inflight[s.id].spans == [s]
    ensures id !in b.inflight ==> Removed(b, id) == b
  {
  }

  lemma OverflowPolls(home: Home)
    requires home(1) == 0 && home(2) == 0 && home(3) == 0
    ensures Enabled(home, SMALL_CAP, INIT, OVERFLOW[0])
    ensures Apply(SMALL_CAP, INIT, OVERFLOW[0]).st == START && Apply(SMALL_CAP, INIT, OVERFLOW[0]).queue == [A, B, C]
  {
    var a, b, c := KafkaRecord(0, 1, [A]), KafkaRecord(0, 2, [B]), KafkaRecord(0, 3, [C]);
    assert [a, b, c][..2] == [a, b] && [a, b][..1] == [a];
    assert RowsOf([a]) == [A];
    assert RowsOf([a, b]) == RowsOf([a]) + b.rows;
    assert RowsOf([a, b, c]) == RowsOf([a, b]) + c.rows;
  }

  /** The byte cap alone does not bound the buffer: spans of different sizes leave 1400 bytes under a cap of 1000. */
  lemma ByteCapIsExceeded(home: Home)
    requires home(1) == 0 && home(2) == 0 && home(3) == 0
    ensures var s := Run(home, SMALL_CAP, OVERFLOW); s.Some? && s.value.st.buf == LEFT
    ensures LEFT.totalBytes > SMALL_CAP.maxBytes
  {
    hide Admitted, Removed, Ingest, OverCap, Oldest, Fetchable, RowsOf, Noted;
    var e := OVERFLOW;
    AdmissionsGrow();
    OverflowPolls(home);
    var s1 := Apply(SMALL_CAP, INIT, e[0]);
    IngestOpen(s1.st, A, 0, None);
    var s2 := Apply(SMALL_CAP, s1, e[1]);
    IngestOpen(s2.st, B, 1, None);
    var s3 := Apply(SMALL_CAP, s2, e[2]);
    IngestOpen(s3.st, C, 2, Some(1));
    assert e[..1] == [e[0]] && e[..2] == [e[0], e[1]] && e[..3] == [e[0], e[1], e[2]];
    assert [e[0], e[1], e[2]][..2] == [e[0], e[1]] && [e[0], e[1]][..1] == [e[0]];
    assert Run(home, SMALL_CAP, e[..1]) == Some(s1);
    assert Run(home, SMALL_CAP, e[..2]) == Some(s2);
    assert Run(home, SMALL_CAP, e[..3]) == Some(s3);
  }
}
