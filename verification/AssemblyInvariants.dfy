/** What every step of assembly keeps: the watermark covers what is still at risk, and no span is lost or doubled. */
module AssemblyInvariants {
  import opened Assembly
  import opened IndexedHeap
  import opened Options
  import opened TraceBuffer
  import opened Watermark

  type Home = TraceId -> int

  /** The offset partition p is held at for a trace, if it is. */
  function FloorAt(st: State, p: int, id: TraceId): Option<int> {
    if id in FloorsOf(st.floors, p) then Some(FloorsOf(st.floors, p)[id].offset) else None
  }

  /** A trace is noted and tracked together, on its own partition only. */
  ghost predicate IndexAgrees(home: Home, st: State) {
    && (forall id | id in st.partitionOf :: st.partitionOf[id] == home(id))
    && (forall p, id :: FloorAt(st, p, id).Some? <==> p == home(id) && id in st.partitionOf)
  }

  /** The watermark holds x's partition at or below x. */
  ghost predicate Floored(home: Home, st: State, x: Span) {
    FloorAt(st, home(x.id), x.id).Some? && FloorAt(st, home(x.id), x.id).value <= x.offset
  }

  ghost predicate BufferFloored(home: Home, st: State) {
    && (forall id | id in st.buf.inflight :: st.buf.inflight[id].spans != [])
    && (forall id, x | id in st.buf.inflight && x in st.buf.inflight[id].spans :: x.id == id && Floored(home, st, x))
  }

  ghost predicate UnsettledFloored(home: Home, st: State) {
    forall x | Unsettled(st.log, x) :: x.id in st.released || Floored(home, st, x)
  }

  /** No floor without a reason: its trace is in flight or has a span that was evicted or not written. */
  ghost predicate FloorsNeeded(st: State, loose: seq<Span>) {
    forall p, id | FloorAt(st, p, id).Some? :: id in st.buf.inflight || HasUnsettled(st.log, id) || Mentions(loose, id)
  }

  ghost predicate Mentions(spans: seq<Span>, id: TraceId) {
    exists x :: x in spans && x.id == id
  }

  ghost predicate AllOf(spans: seq<Span>, id: TraceId) {
    spans != [] && forall x | x in spans :: x.id == id
  }

  ghost predicate Decides(log: Log, id: TraceId, sample: bool, weight: real) {
    exists e :: e in log.emissions && e.id == id && e.decision.sample == sample && e.decision.Weight() == weight
  }

  ghost predicate DecidesDrop(log: Log, id: TraceId) {
    exists e :: e in log.emissions && e.id == id && !e.decision.sample
  }

  /** The decided-cache repeats real decisions, and late spans were treated by one. */
  ghost predicate CacheFaithful(st: State) {
    && (forall id | id in st.buf.decided :: Decides(st.log, id, st.buf.decided[id].sampled, st.buf.decided[id].weight))
    && (forall a | a in st.log.attached :: Decides(st.log, a.span.id, true, a.weight))
    && (forall x | x in st.log.lateDropped :: DecidesDrop(st.log, x.id))
    && (forall e, x | e in st.log.emissions && x in e.spans :: x.id == e.id)
  }

  function SpansOf(es: seq<Emission>): seq<Span> {
    if es == [] then [] else SpansOf(es[..|es| - 1]) + es[|es| - 1].spans
  }

  function AttachedOf(q: seq<Attachment>): seq<Span> {
    seq(|q|, i requires 0 <= i < |q| => q[i].span)
  }

  function Held(b: Buf, x: Span): nat {
    if x.id in b.inflight then multiset(b.inflight[x.id].spans)[x] else 0
  }

  function Handed(log: Log, x: Span): nat {
    multiset(SpansOf(log.emissions))[x] + multiset(AttachedOf(log.attached))[x]
    + multiset(log.lateDropped)[x] + multiset(log.evicted)[x]
  }

  /** Every ingested span is still buffered or was handed out, exactly as often as it came in. */
  ghost predicate Conserved(st: State, loose: seq<Span>) {
    forall x :: multiset(st.log.ingested)[x] == Held(st.buf, x) + Handed(st.log, x) + multiset(loose)[x]
  }

  /** No trace is both in flight and decided. */
  ghost predicate Apart(b: Buf) {
    forall id | id in b.inflight :: id !in b.decided
  }

  /** The invariant in the middle of a step, with some spans in hand. */
  ghost predicate SoundWith(home: Home, st: State, loose: seq<Span>) {
    && Apart(st.buf)
    && IndexAgrees(home, st)
    && BufferFloored(home, st)
    && (forall x | x in loose :: Floored(home, st, x))
    && UnsettledFloored(home, st)
    && FloorsNeeded(st, loose)
    && CacheFaithful(st)
    && Conserved(st, loose)
  }

  ghost predicate Sound(home: Home, st: State) {
    SoundWith(home, st, [])
  }

  /** s comes from its trace's own partition, at an offset not below any floor there. */
  ghost predicate InOrder(home: Home, st: State, s: Span) {
    && s.partition == home(s.id)
    && forall id | FloorAt(st, s.partition, id).Some? :: FloorAt(st, s.partition, id).value <= s.offset
  }

  // ---- Effects on floors ----

  lemma TrackEffect(home: Home, st: State, s: Span, now: int)
    requires IndexAgrees(home, st) && s.partition == home(s.id)
    ensures IndexAgrees(home, Track(st, s, now))
    ensures forall p, id :: FloorAt(Track(st, s, now), p, id) ==
                            if p == s.partition && id == s.id && FloorAt(st, p, id).None? then Some(s.offset) else FloorAt(st, p, id)
  {
    var t := Track(st, s, now);
    forall p, id
      ensures FloorAt(t, p, id) ==
              if p == s.partition && id == s.id && FloorAt(st, p, id).None? then Some(s.offset) else FloorAt(st, p, id)
    {
    }
    assert FloorAt(st, home(s.id), s.id).Some? <==> s.id in st.partitionOf;
  }

  lemma FinishEffect(home: Home, st: State, id: TraceId)
    requires IndexAgrees(home, st)
    ensures IndexAgrees(home, Finish(st, id))
    ensures forall p, x :: FloorAt(Finish(st, id), p, x) == if x == id then None else FloorAt(st, p, x)
    ensures Finish(st, id).released == st.released + (if id in st.partitionOf && HasUnsettled(st.log, id) then {id} else {})
    ensures Finish(st, id).buf == st.buf && Finish(st, id).log == st.log
  {
    hide HasUnsettled;
    var t := Finish(st, id);
    forall p, x ensures FloorAt(t, p, x) == if x == id then None else FloorAt(st, p, x) {
      assert FloorAt(st, p, x).Some? <==> p == home(x) && x in st.partitionOf;
    }
  }

  lemma ExpireEffect(home: Home, st: State, e: StaleEntry)
    requires IndexAgrees(home, st) && e.partition == home(e.id) && !Known(st.buf, e.id)
    ensures IndexAgrees(home, Expire(st, e))
    ensures forall p, x :: FloorAt(Expire(st, e), p, x) == if x == e.id then None else FloorAt(st, p, x)
  {
    hide HasUnsettled;
    var t := Expire(st, e);
    forall p, x ensures FloorAt(t, p, x) == if x == e.id then None else FloorAt(st, p, x) {
      assert FloorAt(st, p, x).Some? <==> p == home(x) && x in st.partitionOf;
    }
  }

  // ---- What a log entry changes ----

  lemma EmitEffect(st: State, id: TraceId, spans: seq<Span>, o: Outcome)
    ensures var log := Emit(st, id, spans, o).log;
            && (forall x :: Unsettled(log, x) <==> Unsettled(st.log, x) || (!o.ok && x in spans))
            && (forall x :: Handed(log, x) == Handed(st.log, x) + multiset(spans)[x])
  {
    var log := Emit(st, id, spans, o).log;
    var e := Emission(id, spans, o.decision, o.ok);
    assert log.emissions[..|log.emissions| - 1] == st.log.emissions;
    assert e in log.emissions;
    forall x ensures FailedEmission(log, x) <==> FailedEmission(st.log, x) || (!o.ok && x in spans) {
    }
    forall x ensures FailedAttachment(log, x) <==> FailedAttachment(st.log, x) {
    }
  }

  lemma EmitDecides(st: State, id: TraceId, spans: seq<Span>, o: Outcome)
    ensures var log := Emit(st, id, spans, o).log;
            && (forall i, b, w | Decides(st.log, i, b, w) :: Decides(log, i, b, w))
            && (forall i | DecidesDrop(st.log, i) :: DecidesDrop(log, i))
            && Decides(log, id, o.decision.sample, o.decision.Weight())
            && (!o.decision.sample ==> DecidesDrop(log, id))
  {
    var log := Emit(st, id, spans, o).log;
    var e := Emission(id, spans, o.decision, o.ok);
    assert e in log.emissions && forall f | f in st.log.emissions :: f in log.emissions;
  }

  lemma AttachEffect(st: State, s: Span, weight: real, ok: bool)
    ensures var log := st.log.(attached := st.log.attached + [Attachment(s, weight, ok)]);
            && (forall x :: Unsettled(log, x) <==> Unsettled(st.log, x) || (!ok && x == s))
            && (forall x :: Handed(log, x) == Handed(st.log, x) + multiset([s])[x])
  {
    var log := st.log.(attached := st.log.attached + [Attachment(s, weight, ok)]);
    assert Attachment(s, weight, ok) in log.attached;
    assert AttachedOf(log.attached) == AttachedOf(st.log.attached) + [s];
    forall x ensures FailedAttachment(log, x) <==> FailedAttachment(st.log, x) || (!ok && x == s) {
    }
    forall x ensures FailedEmission(log, x) <==> FailedEmission(st.log, x) {
    }
  }

  lemma PlainLogEffect(log: Log, log': Log)
    requires log'.emissions == log.emissions && log'.attached == log.attached
    ensures forall x :: Unsettled(log', x) <==> FailedEmission(log, x) || FailedAttachment(log, x) || x in log'.evicted
    ensures forall i, b, w :: Decides(log', i, b, w) <==> Decides(log, i, b, w)
    ensures forall i :: DecidesDrop(log', i) <==> DecidesDrop(log, i)
  {
  }

  // ---- Spans come in ----

  /** A span just tracked is in hand, and the floors cover it. */
  lemma Tracking(home: Home, st: State, s: Span, now: int)
    requires Sound(home, st) && InOrder(home, st, s)
    ensures SoundWith(home, Track(st, s, now), [s])
  {
    hide FailedEmission, FailedAttachment, Decides, DecidesDrop;
    var t := Track(st, s, now);
    TrackEffect(home, st, s, now);
    PlainLogEffect(st.log, t.log);
    forall x | Floored(home, st, x) ensures Floored(home, t, x) {
    }
    assert [s][0] == s;
  }

  lemma SameFloors(home: Home, st: State, t: State)
    requires t.floors == st.floors && t.partitionOf == st.partitionOf
    ensures forall p, id :: FloorAt(t, p, id) == FloorAt(st, p, id)
    ensures forall x :: Floored(home, t, x) <==> Floored(home, st, x)
    ensures IndexAgrees(home, st) ==> IndexAgrees(home, t)
  {
  }

  lemma AdmittedHolds(b: Buf, s: Span, now: int)
    ensures forall x :: Held(Admitted(b, s, now), x) == Held(b, x) + multiset([s])[x]
  {
  }

  lemma Admitting(home: Home, st: State, s: Span, now: int)
    requires SoundWith(home, st, [s]) && s.id !in st.buf.decided
    ensures Sound(home, AdmitSpan(st, s, now))
  {
    hide Unsettled, Decides, DecidesDrop, HasUnsettled, FloorAt, Floored, Held, Handed, IndexAgrees;
    var t := AdmitSpan(st, s, now);
    SameFloors(home, st, t);
    AdmittedHolds(st.buf, s, now);
    assert [s][0] == s;
    assert BufferFloored(home, t) by {
      forall id, x | id in t.buf.inflight && x in t.buf.inflight[id].spans ensures x.id == id && Floored(home, t, x) {
        assert id != s.id ==> id in st.buf.inflight && x in st.buf.inflight[id].spans;
      }
    }
    assert Conserved(t, []);
  }

  lemma RemovedHolds(b: Buf, id: TraceId)
    requires id in b.inflight && forall x | x in b.inflight[id].spans :: x.id == id
    ensures forall x :: Held(b, x) == Held(Removed(b, id), x) + multiset(b.inflight[id].spans)[x]
  {
    forall x ensures Held(b, x) == Held(Removed(b, id), x) + multiset(b.inflight[id].spans)[x] {
      if x.id != id {
        assert x !in b.inflight[id].spans;
      }
    }
  }

  /** A trace leaves the buffer; its spans are in hand. */
  lemma Taking(home: Home, st: State, id: TraceId)
    requires Sound(home, st) && id in st.buf.inflight
    ensures SoundWith(home, st.(buf := Removed(st.buf, id)), st.buf.inflight[id].spans)
    ensures AllOf(st.buf.inflight[id].spans, id)
  {
    hide Unsettled, Decides, DecidesDrop, HasUnsettled, FloorAt, Floored, Held, Handed, IndexAgrees;
    var t := st.(buf := Removed(st.buf, id));
    SameFloors(home, st, t);
    RemovedHolds(st.buf, id);
    assert st.buf.inflight[id].spans[0] in st.buf.inflight[id].spans;
    assert Mentions(st.buf.inflight[id].spans, id);
  }

  // ---- Spans are handed out ----

  ghost predicate FloorsNeededBut(st: State, but: TraceId) {
    forall p, id | FloorAt(st, p, id).Some? && id != but :: id in st.buf.inflight || HasUnsettled(st.log, id)
  }

  /** Sound except that the floor of a trace no longer in flight may have lost its reason. */
  ghost predicate Finishable(home: Home, st: State, id: TraceId) {
    && Apart(st.buf)
    && IndexAgrees(home, st)
    && BufferFloored(home, st)
    && UnsettledFloored(home, st)
    && FloorsNeededBut(st, id) && id !in st.buf.inflight
    && CacheFaithful(st)
    && Conserved(st, [])
  }

  lemma Finishing(home: Home, st: State, id: TraceId)
    requires Finishable(home, st, id)
    ensures Sound(home, Finish(st, id))
  {
    hide FloorAt, Unsettled, Decides, DecidesDrop, Held, Handed;
    var t := Finish(st, id);
    FinishEffect(home, st, id);
    assert t.released >= st.released;
    forall x | Unsettled(t.log, x) ensures x.id in t.released || Floored(home, t, x) {
      if x.id == id && x.id !in st.released {
        assert Floored(home, st, x);
        assert HasUnsettled(st.log, id);
      }
    }
  }

  lemma EmittingFails(home: Home, st: State, id: TraceId, spans: seq<Span>, o: Outcome)
    requires SoundWith(home, st, spans) && AllOf(spans, id) && !o.ok
    ensures Sound(home, Emit(st, id, spans, o))
  {
    hide FloorAt, Floored, Unsettled, Decides, DecidesDrop, Held, Handed, IndexAgrees;
    var t := Emit(st, id, spans, o);
    SameFloors(home, st, t);
    EmitEffect(st, id, spans, o);
    EmitDecides(st, id, spans, o);
    forall i | HasUnsettled(st.log, i) || Mentions(spans, i) ensures HasUnsettled(t.log, i) {
    }
    EmittedOwn(st, id, spans, o);
  }

  /** Emissions only ever list their own trace's spans. */
  lemma EmittedOwn(st: State, id: TraceId, spans: seq<Span>, o: Outcome)
    requires AllOf(spans, id) && forall e, x | e in st.log.emissions && x in e.spans :: x.id == e.id
    ensures forall e, x | e in Emit(st, id, spans, o).log.emissions && x in e.spans :: x.id == e.id
  {
  }

  lemma EmittingWorks(home: Home, st: State, id: TraceId, spans: seq<Span>, o: Outcome)
    requires SoundWith(home, st, spans) && AllOf(spans, id) && o.ok && id !in st.buf.inflight
    ensures Finishable(home, Emit(st, id, spans, o), id)
  {
    hide FloorAt, Floored, Unsettled, Decides, DecidesDrop, Held, Handed, IndexAgrees;
    var t := Emit(st, id, spans, o);
    SameFloors(home, st, t);
    EmitEffect(st, id, spans, o);
    EmitDecides(st, id, spans, o);
    forall i | i != id && (HasUnsettled(st.log, i) || Mentions(spans, i)) ensures HasUnsettled(t.log, i) {
    }
    EmittedOwn(st, id, spans, o);
  }

  lemma AttachingFails(home: Home, st: State, s: Span, weight: real)
    requires SoundWith(home, st, [s]) && Decides(st.log, s.id, true, weight)
    ensures Sound(home, AttachLate(st, s, weight, false))
  {
    hide FloorAt, Floored, Unsettled, Decides, DecidesDrop, Held, Handed, IndexAgrees;
    var t := AttachLate(st, s, weight, false);
    SameFloors(home, st, t);
    AttachEffect(st, s, weight, false);
    SameDecisions(st.log, t.log);
    assert [s][0] == s;
    forall i | HasUnsettled(st.log, i) || Mentions([s], i) ensures HasUnsettled(t.log, i) {
    }
  }

  lemma SameDecisions(log: Log, log': Log)
    requires log'.emissions == log.emissions
    ensures forall i, b, w :: Decides(log', i, b, w) <==> Decides(log, i, b, w)
    ensures forall i :: DecidesDrop(log', i) <==> DecidesDrop(log, i)
  {
  }

  lemma AttachingWorks(home: Home, st: State, s: Span, weight: real)
    requires SoundWith(home, st, [s]) && Decides(st.log, s.id, true, weight) && s.id !in st.buf.inflight
    ensures Sound(home, AttachLate(st, s, weight, true))
  {
    hide FloorAt, Floored, Unsettled, Decides, DecidesDrop, Held, Handed, IndexAgrees, Finish;
    var t := st.(log := st.log.(attached := st.log.attached + [Attachment(s, weight, true)]));
    SameFloors(home, st, t);
    AttachEffect(st, s, weight, true);
    SameDecisions(st.log, t.log);
    forall i | i != s.id && (HasUnsettled(st.log, i) || Mentions([s], i)) ensures HasUnsettled(t.log, i) {
    }
    Finishing(home, t, s.id);
  }

  lemma DroppingLate(home: Home, st: State, s: Span)
    requires SoundWith(home, st, [s]) && DecidesDrop(st.log, s.id) && s.id !in st.buf.inflight
    ensures Sound(home, DropLate(st, s))
  {
    hide FloorAt, Floored, FailedEmission, FailedAttachment, Decides, DecidesDrop, Held, IndexAgrees, Finish;
    var t := st.(log := st.log.(lateDropped := st.log.lateDropped + [s]));
    SameFloors(home, st, t);
    PlainLogEffect(st.log, t.log);
    forall i | i != s.id && (HasUnsettled(st.log, i) || Mentions([s], i)) ensures HasUnsettled(t.log, i) {
    }
    Finishing(home, t, s.id);
  }

  lemma Discarding(home: Home, st: State, id: TraceId, spans: seq<Span>)
    requires SoundWith(home, st, spans) && AllOf(spans, id)
    ensures Sound(home, st.(log := st.log.(evicted := st.log.evicted + spans)))
  {
    hide FloorAt, Floored, FailedEmission, FailedAttachment, Decides, DecidesDrop, Held, IndexAgrees;
    var t := st.(log := st.log.(evicted := st.log.evicted + spans));
    SameFloors(home, st, t);
    PlainLogEffect(st.log, t.log);
    forall x ensures Unsettled(t.log, x) <==> Unsettled(st.log, x) || x in spans {
    }
    forall i | HasUnsettled(st.log, i) || Mentions(spans, i) ensures HasUnsettled(t.log, i) {
    }
  }

  // ---- The decided-cache ----

  lemma {:induction false} TrimmedKeeps(cfg: Config, b: Buf, now: int)
    ensures Trimmed(cfg, b, now).inflight == b.inflight && Trimmed(cfg, b, now).totalBytes == b.totalBytes
    ensures forall id | id in Trimmed(cfg, b, now).decided ::
              id in b.decided && Trimmed(cfg, b, now).decided[id] == b.decided[id]
    decreases |b.order|
  {
    if Stale(cfg, b.order, now) {
      TrimmedKeeps(cfg, b.(decided := b.decided - {b.order[0].0}, order := b.order[1..]), now);
    }
  }

  lemma Recording(home: Home, st: State, cfg: Config, id: TraceId, o: Outcome, now: int)
    requires Sound(home, st) && Decides(st.log, id, o.decision.sample, o.decision.Weight()) && id !in st.buf.inflight
    ensures Sound(home, Record(cfg, st, id, o, now))
  {
    hide FloorAt, Floored, Unsettled, Decides, DecidesDrop, Handed, IndexAgrees, Trimmed, HasUnsettled;
    var t := Record(cfg, st, id, o, now);
    SameFloors(home, st, t);
    RecordedKeeps(cfg, st.buf, id, o.decision, now);
    forall x ensures Held(t.buf, x) == Held(st.buf, x) {
    }
  }

  lemma RecordedKeeps(cfg: Config, b: Buf, id: TraceId, d: Decision, now: int)
    ensures var r := Recorded(cfg, b, id, d, now);
            && r.inflight == b.inflight && r.totalBytes == b.totalBytes
            && (forall i | i in r.decided && i != id :: i in b.decided && r.decided[i] == b.decided[i])
            && (id in r.decided ==> r.decided[id] == Decided(d.sample, d.Weight(), now))
  {
    TrimmedKeeps(cfg, b.(decided := b.decided[id := Decided(d.sample, d.Weight(), now)], order := b.order + [(id, now)]), now);
  }

  // ---- Whole steps ----

  /** Every floor of t is a floor of st, and nothing was ingested in between. */
  ghost predicate OnlyReleases(st: State, t: State) {
    && t.log.ingested == st.log.ingested
    && forall p, id | FloorAt(t, p, id).Some? :: FloorAt(t, p, id) == FloorAt(st, p, id)
  }

  lemma FinishReleases(home: Home, st: State, id: TraceId)
    requires IndexAgrees(home, st)
    ensures OnlyReleases(st, Finish(st, id))
  {
    hide FloorAt;
    FinishEffect(home, st, id);
  }

  lemma SameReleases(st: State, t: State)
    requires t.floors == st.floors && t.log.ingested == st.log.ingested
    ensures OnlyReleases(st, t)
  {
  }

  lemma ReleasesTwice(st: State, t: State, u: State)
    requires OnlyReleases(st, t) && OnlyReleases(t, u)
    ensures OnlyReleases(st, u)
  {
    hide FloorAt;
  }

  /** A decided trace's spans are written or dropped, and its floor goes only if that worked. */
  lemma Deciding(home: Home, cfg: Config, st: State, id: TraceId, spans: seq<Span>, o: Outcome, now: int)
    requires SoundWith(home, st, spans) && AllOf(spans, id) && id !in st.buf.inflight
    ensures Sound(home, DecideAndEmit(cfg, st, id, spans, o, now))
    ensures Sound(home, ForceDecide(cfg, st, id, spans, o, now))
    ensures OnlyReleases(st, DecideAndEmit(cfg, st, id, spans, o, now))
    ensures OnlyReleases(st, ForceDecide(cfg, st, id, spans, o, now))
  {
    hide SoundWith, Decides, Finishable, HasUnsettled, Resolved, Recorded;
    var emitted := Emit(st, id, spans, o);
    EmitDecides(st, id, spans, o);
    SameReleases(st, emitted);
    if o.ok {
      EmittingWorks(home, st, id, spans, o);
      FinishableAgrees(home, emitted, id);
      Finishing(home, emitted, id);
      FinishReleases(home, emitted, id);
      var done := Finish(emitted, id);
      Recording(home, done, cfg, id, o, now);
      assert Finish(Record(cfg, emitted, id, o, now), id) == Record(cfg, done, id, o, now);
      SameReleases(done, Record(cfg, done, id, o, now));
    } else {
      EmittingFails(home, st, id, spans, o);
      Recording(home, emitted, cfg, id, o, now);
      SameReleases(emitted, Record(cfg, emitted, id, o, now));
    }
  }

  lemma FinishableAgrees(home: Home, st: State, id: TraceId)
    requires Finishable(home, st, id)
    ensures IndexAgrees(home, st)
  {
  }

  lemma Evicting(home: Home, cfg: Config, st: State, id: TraceId, o: Outcome, now: int)
    requires Sound(home, st)
    ensures Sound(home, Evict(cfg, st, id, o, now)) && OnlyReleases(st, Evict(cfg, st, id, o, now))
  {
    hide SoundWith, ForceDecide;
    if id in st.buf.inflight {
      var spans := st.buf.inflight[id].spans;
      var without := st.(buf := Removed(st.buf, id));
      Taking(home, st, id);
      SameReleases(st, without);
      if cfg.discard {
        Discarding(home, without, id, spans);
        SameReleases(st, Evict(cfg, st, id, o, now));
      } else {
        Deciding(home, cfg, without, id, spans, o, now);
        ReleasesTwice(st, without, ForceDecide(cfg, without, id, spans, o, now));
      }
    } else {
      SameReleases(st, st);
    }
  }

  /** Removing one in-flight trace and deciding it, as a sweep or an early exit does. */
  lemma Completing(home: Home, cfg: Config, st: State, id: TraceId, o: Outcome, now: int)
    requires Sound(home, st) && id in st.buf.inflight
    ensures var t := DecideAndEmit(cfg, st.(buf := Removed(st.buf, id)), id, st.buf.inflight[id].spans, o, now);
            Sound(home, t) && OnlyReleases(st, t)
  {
    hide SoundWith, DecideAndEmit;
    var without := st.(buf := Removed(st.buf, id));
    Taking(home, st, id);
    SameReleases(st, without);
    Deciding(home, cfg, without, id, st.buf.inflight[id].spans, o, now);
    ReleasesTwice(st, without, DecideAndEmit(cfg, without, id, st.buf.inflight[id].spans, o, now));
  }

  /** The one floor an ingested span can add is at its own offset. */
  ghost predicate AddsAtMost(st: State, t: State, s: Span) {
    && t.log.ingested == st.log.ingested + [s]
    && forall p, id | FloorAt(t, p, id).Some? ::
         FloorAt(t, p, id) == FloorAt(st, p, id) || (p == s.partition && FloorAt(t, p, id).value == s.offset)
  }

  lemma TrackAdds(home: Home, st: State, s: Span, now: int)
    requires IndexAgrees(home, st) && s.partition == home(s.id)
    ensures AddsAtMost(st, Track(st, s, now), s)
  {
    hide FloorAt;
    TrackEffect(home, st, s, now);
  }

  lemma AddsThenReleases(st: State, t: State, u: State, s: Span)
    requires AddsAtMost(st, t, s) && OnlyReleases(t, u)
    ensures AddsAtMost(st, u, s)
  {
    hide FloorAt;
  }

  lemma IngestingLate(home: Home, st: State, s: Span, now: int, ok: bool)
    requires Sound(home, st) && InOrder(home, st, s) && s.id in st.buf.decided
    ensures var tracked := Track(st, s, now);
            var d := st.buf.decided[s.id];
            var t := if d.sampled then AttachLate(tracked, s, d.weight, ok) else DropLate(tracked, s);
            Sound(home, t) && AddsAtMost(st, t, s)
  {
    hide FloorAt, IndexAgrees, BufferFloored, UnsettledFloored, FloorsNeeded, Conserved, Finish, Tracked;
    var tracked := Track(st, s, now);
    var d := st.buf.decided[s.id];
    Tracking(home, st, s, now);
    TrackAdds(home, st, s, now);
    if d.sampled {
      var logged := tracked.(log := tracked.log.(attached := tracked.log.attached + [Attachment(s, d.weight, ok)]));
      SameReleases(tracked, logged);
      SameFloors(home, tracked, logged);
      FinishReleases(home, logged, s.id);
      ReleasesTwice(tracked, logged, Finish(logged, s.id));
      AddsThenReleases(st, tracked, AttachLate(tracked, s, d.weight, ok), s);
      if ok {
        AttachingWorks(home, tracked, s, d.weight);
      } else {
        AttachingFails(home, tracked, s, d.weight);
      }
    } else {
      var logged := tracked.(log := tracked.log.(lateDropped := tracked.log.lateDropped + [s]));
      SameReleases(tracked, logged);
      SameFloors(home, tracked, logged);
      FinishReleases(home, logged, s.id);
      ReleasesTwice(tracked, logged, Finish(logged, s.id));
      AddsThenReleases(st, tracked, DropLate(tracked, s), s);
      assert Decides(tracked.log, s.id, false, d.weight);
      assert DecidesDrop(tracked.log, s.id);
      DroppingLate(home, tracked, s);
    }
  }

  /** Ingest keeps the invariant, whatever it evicts, decides, attaches or drops. */
  lemma Ingesting(
    home: Home, cfg: Config, st: State, s: Span, now: int, victim: Option<TraceId>, forced: Outcome, last: Outcome)
    requires Sound(home, st) && InOrder(home, st, s)
    ensures Sound(home, Ingest(cfg, st, s, now, victim, forced, last))
    ensures AddsAtMost(st, Ingest(cfg, st, s, now, victim, forced, last), s)
  {
    hide FloorAt, SoundWith, Evict, AttachLate, DropLate, DecideAndEmit, Track, OnlyReleases, AddsAtMost, Removed, RootClosed, InOrder;
    if s.id in st.buf.decided {
      IngestingLate(home, st, s, now, last.ok);
    } else {
      var tracked := Track(st, s, now);
      Tracking(home, st, s, now);
      TrackBuf(st, s, now);
      SoundAgrees(home, st, s);
      TrackAdds(home, st, s, now);
      var admitted := AdmitSpan(tracked, s, now);
      Admitting(home, tracked, s, now);
      SameReleases(tracked, admitted);
      var evicted := if victim.Some? then Evict(cfg, admitted, victim.value, forced, now) else admitted;
      if victim.Some? {
        Evicting(home, cfg, admitted, victim.value, forced, now);
      } else {
        SameReleases(admitted, evicted);
      }
      ReleasesTwice(tracked, admitted, evicted);
      var t := EarlyExit(cfg, evicted, s.id, last, now);
      if s.id in evicted.buf.inflight && RootClosed(evicted.buf.inflight[s.id].spans) {
        Completing(home, cfg, evicted, s.id, last, now);
      } else {
        SameReleases(evicted, t);
      }
      ReleasesTwice(tracked, evicted, t);
      AddsThenReleases(st, tracked, t, s);
    }
  }

  lemma TrackBuf(st: State, s: Span, now: int)
    ensures Track(st, s, now).buf == st.buf
  {
  }

  lemma SoundAgrees(home: Home, st: State, s: Span)
    requires Sound(home, st) && InOrder(home, st, s)
    ensures IndexAgrees(home, st) && s.partition == home(s.id)
  {
  }

  // ---- A sweep tick is one completion after another ----

  function WithTraces(st: State, m: map<TraceId, Trace>, n: int): State {
    st.(buf := st.buf.(inflight := m, totalBytes := n))
  }

  lemma {:induction false} TrimmedIgnoresTraces(cfg: Config, b: Buf, now: int, m: map<TraceId, Trace>, n: int)
    ensures Trimmed(cfg, b.(inflight := m, totalBytes := n), now) == Trimmed(cfg, b, now).(inflight := m, totalBytes := n)
    decreases |b.order|
  {
    if Stale(cfg, b.order, now) {
      TrimmedIgnoresTraces(cfg, b.(decided := b.decided - {b.order[0].0}, order := b.order[1..]), now, m, n);
    }
  }

  lemma DecidingIgnoresTraces(
    cfg: Config, st: State, id: TraceId, spans: seq<Span>, o: Outcome, now: int, m: map<TraceId, Trace>, n: int)
    ensures DecideAndEmit(cfg, WithTraces(st, m, n), id, spans, o, now) ==
            WithTraces(DecideAndEmit(cfg, st, id, spans, o, now), m, n)
    ensures DecideAndEmit(cfg, st, id, spans, o, now).buf.inflight == st.buf.inflight
    ensures DecideAndEmit(cfg, st, id, spans, o, now).buf.totalBytes == st.buf.totalBytes
  {
    hide Trimmed, HasUnsettled, Resolved;
    var d := o.decision;
    var b := st.buf.(decided := st.buf.decided[id := Decided(d.sample, d.Weight(), now)], order := st.buf.order + [(id, now)]);
    TrimmedIgnoresTraces(cfg, b, now, m, n);
    RecordedKeeps(cfg, st.buf, id, d, now);
  }

  lemma {:induction false} DecidingEachIgnoresTraces(
    cfg: Config, st: State, popped: seq<Popped>, os: seq<Outcome>, now: int, m: map<TraceId, Trace>, n: int)
    requires |os| == |popped|
    ensures DecideEach(cfg, WithTraces(st, m, n), popped, os, now) == WithTraces(DecideEach(cfg, st, popped, os, now), m, n)
    ensures DecideEach(cfg, st, popped, os, now).buf.inflight == st.buf.inflight
    ensures DecideEach(cfg, st, popped, os, now).buf.totalBytes == st.buf.totalBytes
  {
    hide DecideAndEmit;
    if popped != [] {
      var k := |popped| - 1;
      DecidingEachIgnoresTraces(cfg, st, popped[..k], os[..k], now, m, n);
      var t := DecideEach(cfg, st, popped[..k], os[..k], now);
      DecidingIgnoresTraces(cfg, t, popped[k].id, popped[k].trace.spans, os[k], now, m, n);
    }
  }

  /** Popping everything first and deciding afterwards equals popping and deciding one trace at a time. */
  lemma SweepStep(cfg: Config, st: State, popped: seq<Popped>, os: seq<Outcome>, now: int)
    requires |os| == |popped| && popped != []
    ensures var k := |popped| - 1;
            var t := Sweep(cfg, st, popped[..k], os[..k], now);
            && t.buf.inflight == RemovedAll(st.buf, popped[..k]).inflight
            && Sweep(cfg, st, popped, os, now) ==
               DecideAndEmit(cfg, t.(buf := Removed(t.buf, popped[k].id)), popped[k].id, popped[k].trace.spans, os[k], now)
  {
    hide DecideAndEmit, DecideEach;
    var k := |popped| - 1;
    var front, all := RemovedAll(st.buf, popped[..k]), RemovedAll(st.buf, popped);
    var start := st.(buf := front);
    assert popped == popped[..k] + [popped[k]];
    RemovedAllStep(st.buf, popped[..k], popped[k]);
    RemovedAllKeeps(st.buf, popped[..k]);
    assert st.(buf := all) == WithTraces(start, all.inflight, all.totalBytes);
    DecidingEachIgnoresTraces(cfg, start, popped[..k], os[..k], now, all.inflight, all.totalBytes);
    var t := DecideEach(cfg, start, popped[..k], os[..k], now);
    assert t.(buf := Removed(t.buf, popped[k].id)) == WithTraces(t, all.inflight, all.totalBytes);
    DecideEachLast(cfg, st.(buf := all), popped, os, now);
  }

  lemma DecideEachLast(cfg: Config, st: State, popped: seq<Popped>, os: seq<Outcome>, now: int)
    requires |os| == |popped| && popped != []
    ensures var n := |popped| - 1;
            DecideEach(cfg, st, popped, os, now) ==
            DecideAndEmit(cfg, DecideEach(cfg, st, popped[..n], os[..n], now), popped[n].id, popped[n].trace.spans, os[n], now)
  {
  }

  lemma {:induction false} Sweeping(home: Home, cfg: Config, st: State, popped: seq<Popped>, os: seq<Outcome>, now: int)
    requires |os| == |popped| && Sound(home, st) && TakesOldest(st.buf, popped)
    ensures Sound(home, Sweep(cfg, st, popped, os, now)) && OnlyReleases(st, Sweep(cfg, st, popped, os, now))
  {
    hide SoundWith, DecideAndEmit, OnlyReleases, Removed, RemovedAll;
    if popped == [] {
      SweepNothing(cfg, st, now);
      SameReleases(st, st);
    } else {
      var k := |popped| - 1;
      Sweeping(home, cfg, st, popped[..k], os[..k], now);
      SweepStep(cfg, st, popped, os, now);
      RemovedAllKeeps(st.buf, popped[..k]);
      assert forall p | p in popped[..k] :: p.id != popped[k].id;
      var t := Sweep(cfg, st, popped[..k], os[..k], now);
      Completing(home, cfg, t, popped[k].id, os[k], now);
      ReleasesTwice(st, t, Sweep(cfg, st, popped, os, now));
    }
  }

  lemma SweepNothing(cfg: Config, st: State, now: int)
    ensures Sweep(cfg, st, [], [], now) == st
  {
  }

  // ---- The watchdog ----

  /** An entry the watchdog gives up on belongs to a trace with an evicted or unwritten span, never to one in flight. */
  lemma GivesUpOnlyUnsettled(home: Home, st: State, maxAge: int, now: int, s: StaleEntry)
    requires Sound(home, st) && IsStale(FloorsOf(st.floors, s.partition), s.partition, maxAge, now, s)
    requires !Known(st.buf, s.id)
    ensures HasUnsettled(st.log, s.id)
  {
    hide HasUnsettled;
    assert FloorAt(st, s.partition, s.id).Some?;
  }

  lemma Expiring(home: Home, st: State, e: StaleEntry)
    requires Sound(home, st) && e.partition == home(e.id)
    ensures Sound(home, Expire(st, e)) && OnlyReleases(st, Expire(st, e))
  {
    hide FloorAt, Unsettled, Decides, DecidesDrop, Held, Handed;
    var t := Expire(st, e);
    if Known(st.buf, e.id) {
      SameReleases(st, t);
    } else {
      ExpireEffect(home, st, e);
      forall x | Unsettled(t.log, x) ensures x.id in t.released || Floored(home, t, x) {
        assert x.id == e.id ==> HasUnsettled(st.log, e.id);
      }
    }
  }

  lemma {:induction false} ExpiringAll(home: Home, st: State, stale: seq<StaleEntry>)
    requires Sound(home, st) && forall e | e in stale :: e.partition == home(e.id)
    ensures Sound(home, ExpireAll(st, stale)) && OnlyReleases(st, ExpireAll(st, stale))
  {
    hide SoundWith, Expire, OnlyReleases;
    if stale == [] {
      SameReleases(st, st);
    } else {
      var n := |stale| - 1;
      ExpiringAll(home, st, stale[..n]);
      var t := ExpireAll(st, stale[..n]);
      Expiring(home, t, stale[n]);
      ReleasesTwice(st, t, Expire(t, stale[n]));
    }
  }

  lemma Watching(home: Home, st: State, maxAge: int, now: int, stale: seq<StaleEntry>)
    requires Sound(home, st) && StaleOf(st, maxAge, now, stale)
    ensures Sound(home, ExpireAll(st, stale)) && OnlyReleases(st, ExpireAll(st, stale))
  {
    hide ExpireAll, BufferFloored, UnsettledFloored, FloorsNeeded, CacheFaithful, Conserved;
    forall e | e in stale ensures e.partition == home(e.id) {
      assert FloorAt(st, e.partition, e.id).Some?;
    }
    ExpiringAll(home, st, stale);
  }
}
