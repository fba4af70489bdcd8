// Tail-sampling assembly as a state machine: the buffer, the watermark and the partition index, together with
// what the outside world was handed. Verdicts and write results are inputs of each step.
module Assembly {
  import opened IndexedHeap
  import opened Options
  import opened TraceBuffer
  import opened Watermark

  /** One call of the emit function: the rows it was given and whether the write was confirmed. */
  datatype Emission = Emission(id: TraceId, spans: seq<Span>, decision: Decision, ok: bool) {
    /** The rows handed over: a sampled trace's carry its weight. */
    function Rows(): seq<Span> {
      if decision.sample then seq(|spans|, i requires 0 <= i < |spans| => spans[i].(weight := decision.Weight())) else spans
    }
  }

  /** The row is the span but for its weight. */
  predicate SameButWeight(row: Span, s: Span) {
    row == s.(weight := row.weight)
  }

  /** One call of the late-attach function. */
  datatype Attachment = Attachment(span: Span, weight: real, ok: bool)

  datatype Log = Log(
    ingested: seq<Span>, emissions: seq<Emission>, attached: seq<Attachment>, lateDropped: seq<Span>, evicted: seq<Span>)

  /** released: traces whose floor went away while a span of theirs was evicted or in a failed write. */
  datatype State = State(
    buf: Buf, partitionOf: map<TraceId, int>, floors: AllFloors, log: Log, released: set<TraceId>)

  const START := State(EMPTY, map[], map[], Log([], [], [], [], []), {})

  /** What the policy chain says of a trace and how its write ends. */
  datatype Outcome = Outcome(decision: Decision, ok: bool)

  // ---- Spans handed out and never confirmed ----

  ghost predicate FailedEmission(log: Log, x: Span) {
    exists e :: e in log.emissions && !e.ok && x in e.spans
  }

  ghost predicate FailedAttachment(log: Log, x: Span) {
    exists a :: a in log.attached && !a.ok && a.span == x
  }

  /** x left the buffer without a confirmed write or a drop decision. */
  ghost predicate Unsettled(log: Log, x: Span) {
    FailedEmission(log, x) || FailedAttachment(log, x) || x in log.evicted
  }

  ghost predicate HasUnsettled(log: Log, id: TraceId) {
    exists x :: Unsettled(log, x) && x.id == id
  }

  // ---- Steps ----

  /** finishTrace: drop the partition note and resolve the watermark. */
  ghost function Finish(st: State, id: TraceId): State {
    if id in st.partitionOf then
      st.(partitionOf := st.partitionOf - {id},
          floors := Resolved(st.floors, st.partitionOf[id], id),
          released := st.released + (if HasUnsettled(st.log, id) then {id} else {}))
    else st
  }

  function Emit(st: State, id: TraceId, spans: seq<Span>, o: Outcome): State {
    st.(log := st.log.(emissions := st.log.emissions + [Emission(id, spans, o.decision, o.ok)]))
  }

  function Record(cfg: Config, st: State, id: TraceId, o: Outcome, now: int): State {
    st.(buf := Recorded(cfg, st.buf, id, o.decision, now))
  }

  /** decideAndEmit: on a failed write neither the decision is recorded nor the floor resolved. */
  ghost function DecideAndEmit(cfg: Config, st: State, id: TraceId, spans: seq<Span>, o: Outcome, now: int): State {
    var emitted := Emit(st, id, spans, o);
    if o.ok then Finish(Record(cfg, emitted, id, o, now), id) else emitted
  }

  /** doForceDecide and what resolve does around it: the decision is recorded even when the write failed. */
  ghost function ForceDecide(cfg: Config, st: State, id: TraceId, spans: seq<Span>, o: Outcome, now: int): State {
    var emitted := Emit(st, id, spans, o);
    Record(cfg, if o.ok then Finish(emitted, id) else emitted, id, o, now)
  }

  ghost function Track(st: State, s: Span, now: int): State {
    st.(partitionOf := if s.id in st.partitionOf then st.partitionOf else st.partitionOf[s.id := s.partition],
        floors := st.floors[s.partition := Tracked(FloorsOf(st.floors, s.partition), s.id, Seen(s.offset, now))],
        log := st.log.(ingested := st.log.ingested + [s]))
  }

  /** Capacity eviction of an in-flight trace. */
  ghost function Evict(cfg: Config, st: State, id: TraceId, o: Outcome, now: int): State {
    if id !in st.buf.inflight then st
    else
      var spans := st.buf.inflight[id].spans;
      var without := st.(buf := Removed(st.buf, id));
      if cfg.discard then without.(log := st.log.(evicted := st.log.evicted + spans))
      else ForceDecide(cfg, without, id, spans, o, now)
  }

  ghost function EarlyExit(cfg: Config, st: State, id: TraceId, o: Outcome, now: int): State {
    if id in st.buf.inflight && RootClosed(st.buf.inflight[id].spans) then
      DecideAndEmit(cfg, st.(buf := Removed(st.buf, id)), id, st.buf.inflight[id].spans, o, now)
    else st
  }

  ghost function AttachLate(st: State, s: Span, weight: real, ok: bool): State {
    var logged := st.(log := st.log.(attached := st.log.attached + [Attachment(s, weight, ok)]));
    if ok then Finish(logged, s.id) else logged
  }

  ghost function DropLate(st: State, s: Span): State {
    Finish(st.(log := st.log.(lateDropped := st.log.lateDropped + [s])), s.id)
  }

  ghost function AdmitSpan(st: State, s: Span, now: int): State {
    st.(buf := Admitted(st.buf, s, now))
  }

  /** Assembler.Ingest. victim is the trace the age heap names when a cap is exceeded. */
  ghost function Ingest(cfg: Config, st: State, s: Span, now: int, victim: Option<TraceId>, forced: Outcome, last: Outcome)
    : State
  {
    var tracked := Track(st, s, now);
    if s.id in st.buf.decided then
      if st.buf.decided[s.id].sampled then AttachLate(tracked, s, st.buf.decided[s.id].weight, last.ok)
      else DropLate(tracked, s)
    else
      var admitted := AdmitSpan(tracked, s, now);
      var evicted := if victim.Some? then Evict(cfg, admitted, victim.value, forced, now) else admitted;
      EarlyExit(cfg, evicted, s.id, last, now)
  }

  ghost predicate VictimOf(cfg: Config, st: State, s: Span, now: int, victim: Option<TraceId>) {
    var b := Admitted(st.buf, s, now);
    s.id !in st.buf.decided ==>
      (victim.Some? <==> OverCap(cfg, b)) && (victim.Some? ==> Oldest(b, victim.value))
  }

  ghost function DecideEach(cfg: Config, st: State, popped: seq<Popped>, os: seq<Outcome>, now: int): State
    requires |os| == |popped|
  {
    if popped == [] then st
    else
      var n := |popped| - 1;
      DecideAndEmit(cfg, DecideEach(cfg, st, popped[..n], os[..n], now), popped[n].id, popped[n].trace.spans, os[n], now)
  }

  /** One tick of RunSweep, as one step: pop every ready trace, then decide them in order. */
  ghost function Sweep(cfg: Config, st: State, popped: seq<Popped>, os: seq<Outcome>, now: int): State
    requires |os| == |popped|
  {
    DecideEach(cfg, st.(buf := RemovedAll(st.buf, popped)), popped, os, now)
  }

  predicate Known(b: Buf, id: TraceId) {
    id in b.inflight || id in b.decided
  }

  /** Giving up on one stale entry whose trace the buffer no longer knows. */
  ghost function Expire(st: State, e: StaleEntry): State {
    if Known(st.buf, e.id) then st
    else
      st.(floors := Resolved(st.floors, e.partition, e.id), partitionOf := st.partitionOf - {e.id},
          released := st.released + (if HasUnsettled(st.log, e.id) then {e.id} else {}))
  }

  ghost function ExpireAll(st: State, stale: seq<StaleEntry>): State {
    if stale == [] then st else Expire(ExpireAll(st, stale[..|stale| - 1]), stale[|stale| - 1])
  }

  ghost predicate StaleOf(st: State, maxAge: int, now: int, stale: seq<StaleEntry>) {
    forall s :: s in stale <==> IsStale(FloorsOf(st.floors, s.partition), s.partition, maxAge, now, s)
  }
}
