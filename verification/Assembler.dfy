/** The assembler as an object over its buffer and watermark, each method one step of the state machine. */
module Assembler {
  import opened Assembly
  import opened AssemblyInvariants
  import opened CommitProtocol
  import opened IndexedHeap
  import opened Options
  import opened TraceBuffer
  import opened Watermark

  function Drawn(outcomes: nat -> Outcome, n: nat): seq<Outcome> {
    seq(n, i requires 0 <= i < n => outcomes(i))
  }

  class TraceAssembler {
    const cfg: Config
    const buffer: Buffer
    const wm: OffsetWatermark
    var partitionOf: map<TraceId, int>
    ghost var log: Log
    ghost var released: set<TraceId>
    ghost var Repr: set<object>

    ghost predicate Valid()
      reads this, Repr
      ensures Valid() ==> this in Repr
    {
      && this in Repr && buffer in Repr && wm in Repr
      && buffer.Repr <= Repr && wm.Repr <= Repr && buffer.Repr !! wm.Repr && this !in buffer.Repr && this !in wm.Repr
      && buffer.Valid() && wm.Valid() && buffer.cfg == cfg
    }

    ghost function View(): State
      requires Valid()
      reads this, Repr
    {
      State(buffer.View(), partitionOf, wm.View(), log, released)
    }

    constructor (cfg: Config)
      ensures Valid() && fresh(Repr) && View() == START && this.cfg == cfg
    {
      this.cfg := cfg;
      var b := new Buffer(cfg);
      var w := new OffsetWatermark();
      buffer, wm := b, w;
      partitionOf, log, released := map[], Log([], [], [], [], []), {};
      Repr := {this} + b.Repr + w.Repr;
    }

    /** finishTrace */
    method FinishTrace(id: TraceId)
      requires Valid()
      modifies Repr
      ensures Valid() && fresh(Repr - old(Repr))
      ensures View() == Finish(old(View()), id)
    {
      hide HasUnsettled, Buffer.View, Buffer.Valid, OffsetWatermark.View, OffsetWatermark.Valid;
      if id in partitionOf {
        var partition := partitionOf[id];
        partitionOf := partitionOf - {id};
        wm.Resolve(partition, id);
        released := released + (if HasUnsettled(log, id) then {id} else {});
      }
    }

    /** applyWeightAndEmit: write the weight into every row of a sampled trace, then hand the rows over. */
    method ApplyWeightAndEmit(id: TraceId, spans: seq<Span>, o: Outcome) returns (rows: seq<Span>)
      requires Valid()
      modifies this
      ensures Valid() && Repr == old(Repr) && View() == Emit(old(View()), id, spans, o)
      ensures rows == Emission(id, spans, o.decision, o.ok).Rows()
      ensures |rows| == |spans|
      ensures forall i | 0 <= i < |spans| ::
                if o.decision.sample then Upweighs(o.decision.probability, rows[i].weight) && SameButWeight(rows[i], spans[i])
                else rows[i] == spans[i]
    {
      hide Buffer.View, Buffer.Valid, OffsetWatermark.View, OffsetWatermark.Valid, Upweighs;
      rows := spans;
      if o.decision.sample {
        var weight := o.decision.Weight();
        for i := 0 to |rows|
          invariant |rows| == |spans| && Valid() && View() == old(View()) && Repr == old(Repr)
          invariant forall j | 0 <= j < i :: rows[j] == spans[j].(weight := weight)
          invariant forall j | i <= j < |spans| :: rows[j] == spans[j]
        {
          rows := rows[i := rows[i].(weight := weight)];
        }
      }
      log := log.(emissions := log.emissions + [Emission(id, spans, o.decision, o.ok)]);
    }

    method RecordDecision(id: TraceId, o: Outcome, now: int)
      requires Valid()
      modifies Repr
      ensures Valid() && Repr == old(Repr) && View() == Record(cfg, old(View()), id, o, now)
    {
      hide Buffer.View, Buffer.Valid, OffsetWatermark.View, OffsetWatermark.Valid, Recorded;
      buffer.RecordDecision(id, o.decision, now);
    }

    method Complete(id: TraceId, spans: seq<Span>, o: Outcome, now: int)
      requires Valid()
      modifies Repr
      ensures Valid() && fresh(Repr - old(Repr)) && View() == DecideAndEmit(cfg, old(View()), id, spans, o, now)
    {
      hide Valid, View, Record, Finish, Emit;
      var _ := ApplyWeightAndEmit(id, spans, o);
      if o.ok {
        RecordDecision(id, o, now);
        FinishTrace(id);
      }
    }

    method Force(id: TraceId, spans: seq<Span>, o: Outcome, now: int)
      requires Valid()
      modifies Repr
      ensures Valid() && fresh(Repr - old(Repr)) && View() == ForceDecide(cfg, old(View()), id, spans, o, now)
    {
      hide Valid, View, Record, Finish, Emit;
      var _ := ApplyWeightAndEmit(id, spans, o);
      if o.ok {
        FinishTrace(id);
      }
      RecordDecision(id, o, now);
    }

    /** resolve: make room by deciding or discarding the named trace. */
    method MakeRoom(id: TraceId, o: Outcome, now: int)
      requires Valid()
      modifies Repr
      ensures Valid() && fresh(Repr - old(Repr)) && View() == Evict(cfg, old(View()), id, o, now)
    {
      hide ForceDecide;
      var spans := TakeTrace(id);
      match spans {
        case None =>
        case Some(q) =>
          if cfg.discard {
            Discard(q);
          } else {
            Force(id, q, o, now);
          }
      }
    }

    method TakeTrace(id: TraceId) returns (spans: Option<seq<Span>>)
      requires Valid()
      modifies Repr
      ensures Valid() && Repr == old(Repr) && View() == old(View()).(buf := Removed(old(View()).buf, id))
      ensures spans == if id in old(View()).buf.inflight then Some(old(View()).buf.inflight[id].spans) else None
    {
      hide Buffer.View, Buffer.Valid, OffsetWatermark.View, OffsetWatermark.Valid;
      spans := buffer.Resolve(id);
    }

    method Discard(spans: seq<Span>)
      requires Valid()
      modifies this
      ensures Valid() && Repr == old(Repr)
      ensures View() == old(View()).(log := old(View()).log.(evicted := old(View()).log.evicted + spans))
    {
      hide Buffer.View, Buffer.Valid, OffsetWatermark.View, OffsetWatermark.Valid;
      log := log.(evicted := log.evicted + spans);
    }

    method TryEarlyExit(id: TraceId, o: Outcome, now: int)
      requires Valid()
      modifies Repr
      ensures Valid() && fresh(Repr - old(Repr)) && View() == EarlyExit(cfg, old(View()), id, o, now)
    {
      hide DecideAndEmit, RootClosed;
      var spans := TakeClosed(id);
      if spans.Some? {
        Complete(id, spans.value, o, now);
      }
    }

    method TakeClosed(id: TraceId) returns (spans: Option<seq<Span>>)
      requires Valid()
      modifies Repr
      ensures Valid() && Repr == old(Repr)
      ensures id in old(View()).buf.inflight && RootClosed(old(View()).buf.inflight[id].spans) ==>
        && spans == Some(old(View()).buf.inflight[id].spans)
        && View() == old(View()).(buf := Removed(old(View()).buf, id))
      ensures !(id in old(View()).buf.inflight && RootClosed(old(View()).buf.inflight[id].spans)) ==>
        spans == None && View() == old(View())
    {
      hide Buffer.View, Buffer.Valid, OffsetWatermark.View, OffsetWatermark.Valid, RootClosed;
      spans := buffer.TryEarlyExit(id);
    }

    method TrackOffset(s: Span, now: int)
      requires Valid()
      modifies Repr
      ensures Valid() && fresh(Repr - old(Repr))
      ensures var f := old(View()).floors;
              View() == old(View()).(floors :=
                f[s.partition := Tracked(FloorsOf(f, s.partition), s.id, Seen(s.offset, now))])
    {
      hide Buffer.View, Buffer.Valid, OffsetWatermark.View, OffsetWatermark.Valid, Tracked, FloorsOf;
      wm.Track(s.partition, s.offset, s.id, now);
      Repr := Repr + wm.Repr;
    }

    method NotePartition(s: Span)
      requires Valid()
      modifies this
      ensures Valid() && Repr == old(Repr)
      ensures View() == old(View()).(
                partitionOf := if s.id in old(View()).partitionOf then old(View()).partitionOf
                               else old(View()).partitionOf[s.id := s.partition],
                log := old(View()).log.(ingested := old(View()).log.ingested + [s]))
    {
      hide Buffer.View, Buffer.Valid, OffsetWatermark.View, OffsetWatermark.Valid;
      if s.id !in partitionOf {
        partitionOf := partitionOf[s.id := s.partition];
      }
      log := log.(ingested := log.ingested + [s]);
    }

    method NoteSpan(s: Span, now: int)
      requires Valid()
      modifies Repr
      ensures Valid() && fresh(Repr - old(Repr)) && View() == Track(old(View()), s, now)
    {
      hide Valid, View, Tracked, FloorsOf;
      NotePartition(s);
      TrackOffset(s, now);
    }

    method Late(s: Span, sampled: bool, weight: real, ok: bool)
      requires Valid()
      modifies Repr
      ensures Valid() && fresh(Repr - old(Repr))
      ensures View() == if sampled then AttachLate(old(View()), s, weight, ok) else DropLate(old(View()), s)
    {
      hide Buffer.View, Buffer.Valid, OffsetWatermark.View, OffsetWatermark.Valid, Finish;
      if sampled {
        log := log.(attached := log.attached + [Attachment(s, weight, ok)]);
        if ok {
          FinishTrace(s.id);
        }
      } else {
        log := log.(lateDropped := log.lateDropped + [s]);
        FinishTrace(s.id);
      }
    }

    method Admit(s: Span, now: int) returns (result: IngestResult, weight: real, victim: Option<TraceId>)
      requires Valid()
      modifies Repr
      ensures Valid() && fresh(Repr - old(Repr))
      ensures var b := old(View()).buf;
              if s.id in b.decided then
                && View() == old(View()) && victim == None
                && result == (if b.decided[s.id].sampled then LateAttached else LateDropped)
                && (b.decided[s.id].sampled ==> weight == b.decided[s.id].weight)
              else
                && View() == AdmitSpan(old(View()), s, now) && result == Buffered
                && (victim.Some? <==> OverCap(cfg, View().buf))
                && (victim.Some? ==> Oldest(View().buf, victim.value))
    {
      hide Buffer.View, Buffer.Valid, OffsetWatermark.View, OffsetWatermark.Valid, Admitted, Oldest;
      result, weight, victim := buffer.Admit(s, now);
      Repr := Repr + buffer.Repr;
    }

    /** Ingest; victim is the trace evicted to make room, if any. */
    method Ingest(s: Span, now: int, forced: Outcome, last: Outcome) returns (ghost victim: Option<TraceId>)
      requires Valid()
      modifies Repr
      ensures Valid() && fresh(Repr - old(Repr))
      ensures VictimOf(cfg, old(View()), s, now, victim)
      ensures View() == Assembly.Ingest(cfg, old(View()), s, now, victim, forced, last)
    {
      hide View, Valid, Oldest, Admitted, AttachLate, DropLate, Evict, EarlyExit, RootClosed, Tracked;
      NoteSpan(s, now);
      var result, weight, evict := Admit(s, now);
      victim := evict;
      match result {
        case LateAttached => Late(s, true, weight, last.ok);
        case LateDropped => Late(s, false, weight, last.ok);
        case Buffered =>
          if evict.Some? {
            MakeRoom(evict.value, forced, now);
          }
          TryEarlyExit(s.id, last, now);
      }
    }

    method PopReady(now: int) returns (popped: seq<Popped>)
      requires Valid()
      modifies Repr
      ensures Valid() && Repr == old(Repr)
      ensures PopsReady(cfg, old(View()).buf, now, popped)
      ensures View() == old(View()).(buf := RemovedAll(old(View()).buf, popped))
    {
      hide Buffer.View, Buffer.Valid, OffsetWatermark.View, OffsetWatermark.Valid, PopsReady, RemovedAll;
      popped := buffer.PopReady(now);
    }

    /** One tick of RunSweep; the i-th popped trace meets outcomes(i). */
    method SweepTick(now: int, outcomes: nat -> Outcome) returns (popped: seq<Popped>)
      requires Valid()
      modifies Repr
      ensures Valid() && fresh(Repr - old(Repr))
      ensures PopsReady(cfg, old(View()).buf, now, popped)
      ensures View() == Sweep(cfg, old(View()), popped, Drawn(outcomes, |popped|), now)
    {
      hide View, Valid, PopsReady, RemovedAll, DecideAndEmit;
      popped := PopReady(now);
      ghost var st := View();
      ghost var os := Drawn(outcomes, |popped|);
      assert popped[..0] == [] && os[..0] == [];
      for i := 0 to |popped|
        invariant Valid() && fresh(Repr - old(Repr))
        invariant View() == DecideEach(cfg, st, popped[..i], os[..i], now)
      {
        Complete(popped[i].id, popped[i].trace.spans, outcomes(i), now);
        assert popped[..i + 1][..i] == popped[..i] && os[..i + 1][..i] == os[..i];
        assert os[i] == outcomes(i) && os[..i + 1][i] == os[i];
        DecideEachLast(cfg, st, popped[..i + 1], os[..i + 1], now);
      }
      assert popped[..|popped|] == popped && os[..|os|] == os;
    }

    method GiveUp(e: StaleEntry)
      requires Valid()
      modifies Repr
      ensures Valid() && Repr == old(Repr) && View() == Expire(old(View()), e)
    {
      hide Buffer.View, Buffer.Valid, OffsetWatermark.View, OffsetWatermark.Valid, HasUnsettled;
      var known := buffer.Tracks(e.id);
      if known {
        return;
      }
      wm.Resolve(e.partition, e.id);
      partitionOf := partitionOf - {e.id};
      released := released + (if HasUnsettled(log, e.id) then {e.id} else {});
    }

    method Candidates(maxAge: int, now: int) returns (stale: seq<StaleEntry>)
      requires Valid()
      ensures StaleOf(View(), maxAge, now, stale)
    {
      hide OffsetWatermark.View, OffsetWatermark.Valid, IsStale;
      stale := wm.StaleCandidates(maxAge, now);
    }

    /** checkWatermarkOnce */
    method CheckWatermarkOnce(now: int, maxAge: int) returns (stale: seq<StaleEntry>)
      requires Valid()
      modifies Repr
      ensures Valid() && Repr == old(Repr)
      ensures StaleOf(old(View()), maxAge, now, stale) && View() == ExpireAll(old(View()), stale)
    {
      hide View, Valid, Expire, StaleOf;
      stale := Candidates(maxAge, now);
      assert stale[..0] == [];
      for i := 0 to |stale|
        invariant Valid() && Repr == old(Repr) && View() == ExpireAll(old(View()), stale[..i])
      {
        GiveUp(stale[i]);
        assert stale[..i + 1][..i] == stale[..i];
      }
      assert stale[..|stale|] == stale;
    }

    method SafeCommitOffset(partition: int) returns (ceiling: Option<int>)
      requires Valid()
      ensures IsSafe(FloorsOf(View().floors, partition), ceiling)
    {
      hide OffsetWatermark.View, OffsetWatermark.Valid, IsSafe;
      ceiling := wm.SafeOffset(partition);
    }
  }

  // ---- The poll loop's bookkeeping ----

  class Consumer {
    var pending: map<int, int>
    var committed: map<int, int>

    constructor ()
      ensures pending == map[] && committed == map[]
    {
      pending, committed := map[], map[];
    }

    /** Remember the highest offset fetched per partition; a partition's first offset may be 0. */
    method Note(batch: seq<KafkaRecord>)
      modifies this`pending
      ensures pending == Noted(old(pending), batch)
    {
      assert batch[..|batch|] == batch;
      for i := 0 to |batch|
        invariant pending == Noted(old(pending), batch[..i])
      {
        assert batch[..i + 1][..i] == batch[..i];
        var r := batch[i];
        if r.partition !in pending || r.offset > pending[r.partition] {
          pending := pending[r.partition := r.offset];
        }
      }
    }

    /** The offsets one cycle asks to commit, partitions in any order. */
    method Collect(assembler: TraceAssembler) returns (commits: map<int, int>, ghost ceilings: map<int, Option<int>>)
      requires assembler.Valid()
      ensures ceilings.Keys == pending.Keys
      ensures forall p | p in ceilings :: IsSafe(FloorsOf(assembler.View().floors, p), ceilings[p])
      ensures Asked(pending, committed, ceilings, commits)
    {
      hide TraceAssembler.View, TraceAssembler.Valid, IsSafe, FloorsOf;
      ceilings, commits := map[], map[];
      var rest := pending.Keys;
      while rest != {}
        invariant rest <= pending.Keys && ceilings.Keys == pending.Keys - rest
        invariant forall p | p in ceilings :: IsSafe(FloorsOf(assembler.View().floors, p), ceilings[p])
        invariant Asked(pending, committed, ceilings, commits)
        decreases |rest|
      {
        SomeElement(rest);
        var p :| p in rest;
        rest := rest - {p};
        var highest := pending[p];
        var ceiling := assembler.SafeCommitOffset(p);
        ceilings := ceilings[p := ceiling];
        var commitOffset := highest;
        if ceiling.Some? && ceiling.value < highest {
          commitOffset := ceiling.value;
        }
        if !(commitOffset < 0 || commitOffset <= Position(committed, p) - 1) {
          commits := commits[p := commitOffset];
        }
      }
    }

    /** One commit cycle over every partition with a pending offset; ok is how CommitRecords ends. */
    method CommitCycle(assembler: TraceAssembler, ok: bool) returns (ghost ceilings: map<int, Option<int>>)
      requires assembler.Valid()
      modifies this`committed
      ensures ceilings.Keys == pending.Keys
      ensures forall p | p in ceilings :: IsSafe(old(FloorsOf(assembler.View().floors, p)), ceilings[p])
      ensures committed == if ok then Committed(pending, old(committed), ceilings) else old(committed)
    {
      hide TraceAssembler.View, TraceAssembler.Valid, IsSafe, FloorsOf, Asked;
      var commits, found := Collect(assembler);
      ceilings := found;
      if ok {
        AskedIsCommitted(pending, committed, ceilings, commits);
        committed := committed + map p | p in commits :: commits[p] + 1;
      }
    }
  }

  ghost predicate Asked(pending: map<int, int>, committed: map<int, int>, ceilings: map<int, Option<int>>, commits: map<int, int>) {
    && (forall p | p in ceilings :: p in pending)
    && (forall p | p in commits :: p in ceilings && commits[p] == CommitOffset(pending[p], ceilings[p]))
    && (forall p | p in ceilings :: p in commits <==>
          CommitOffset(pending[p], ceilings[p]) >= 0 && CommitOffset(pending[p], ceilings[p]) > Position(committed, p) - 1)
  }

  lemma AskedIsCommitted(
    pending: map<int, int>, committed: map<int, int>, ceilings: map<int, Option<int>>, commits: map<int, int>)
    requires ceilings.Keys == pending.Keys && Asked(pending, committed, ceilings, commits)
    ensures (committed + map p | p in commits :: commits[p] + 1) == Committed(pending, committed, ceilings)
  {
    hide CommitOffset, Position;
    var a, b := committed + map p | p in commits :: commits[p] + 1, Committed(pending, committed, ceilings);
    forall p ensures p in a <==> p in b {
      assert p in commits <==> Advances(pending, committed, ceilings, p);
    }
    forall p | p in a ensures a[p] == b[p] {
      assert p in commits <==> Advances(pending, committed, ceilings, p);
    }
  }
}
