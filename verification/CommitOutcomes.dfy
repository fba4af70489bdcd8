/** Consequences for whole runs: where every span ends up, what a commit holds back, and when an unwritten span is passed over. */
module CommitOutcomes {
  import opened Assembly
  import opened AssemblyInvariants
  import opened CommitProtocol
  import opened IndexedHeap
  import opened Options
  import opened TraceBuffer
  import opened Watermark

  // ---- One fate per span ----

  datatype Fate = InBuffer | InEmission | InAttachment | InLateDrop | InEviction | InQueue

  function Times(s: Sys, x: Span, f: Fate): nat {
    match f
    case InBuffer => Held(s.st.buf, x)
    case InEmission => multiset(SpansOf(s.st.log.emissions))[x]
    case InAttachment => multiset(AttachedOf(s.st.log.attached))[x]
    case InLateDrop => multiset(s.st.log.lateDropped)[x]
    case InEviction => multiset(s.st.log.evicted)[x]
    case InQueue => multiset(s.queue)[x]
  }

  /** A span fetched once is, at any moment of any run, in exactly one place and there exactly once. */
  lemma OneFate(home: Home, cfg: Config, events: seq<Event>, x: Span) returns (f: Fate)
    requires Run(home, cfg, events).Some? && multiset(Delivered(events))[x] == 1
    ensures var s := Run(home, cfg, events).value; forall g :: Times(s, x, g) == if g == f then 1 else 0
  {
    hide Run, Delivered, Guarded, Held;
    var s := Run(home, cfg, events).value;
    RunGuarded(home, cfg, events);
    GuardedSound(home, s);
    SoundCounts(home, s.st, x);
    assert multiset(s.st.log.ingested + s.queue)[x] == multiset(s.st.log.ingested)[x] + multiset(s.queue)[x];
    f := if Times(s, x, InBuffer) == 1 then InBuffer
         else if Times(s, x, InEmission) == 1 then InEmission
         else if Times(s, x, InAttachment) == 1 then InAttachment
         else if Times(s, x, InLateDrop) == 1 then InLateDrop
         else if Times(s, x, InEviction) == 1 then InEviction
         else InQueue;
  }

  lemma SoundCounts(home: Home, st: State, x: Span)
    requires Sound(home, st)
    ensures multiset(st.log.ingested)[x] == Held(st.buf, x) + Handed(st.log, x)
  {
    hide IndexAgrees, BufferFloored, UnsettledFloored, FloorsNeeded, CacheFaithful, Held, Handed;
    assert multiset(st.log.ingested)[x] == Held(st.buf, x) + Handed(st.log, x) + multiset([])[x];
  }

  /** Some emission of the trace was decided with this verdict, at a probability the weight makes up for. */
  ghost predicate DecidedAt(log: Log, id: TraceId, sample: bool, weight: real) {
    exists e :: e in log.emissions && e.id == id && e.decision.sample == sample && Upweighs(e.decision.probability, weight)
  }

  lemma DecidesAt(log: Log, id: TraceId, sample: bool, weight: real)
    requires Decides(log, id, sample, weight)
    ensures DecidedAt(log, id, sample, weight)
  {
  }

  /** Every row of a sampled trace weighs what its probability asks for and is otherwise the span; a dropped trace's are as they came. */
  lemma RowsUpweighed(e: Emission, i: nat)
    requires i < |e.spans|
    ensures |e.Rows()| == |e.spans|
    ensures e.decision.sample ==> Upweighs(e.decision.probability, e.Rows()[i].weight) && SameButWeight(e.Rows()[i], e.spans[i])
    ensures !e.decision.sample ==> e.Rows()[i] == e.spans[i]
  {
    hide Upweighs;
  }

  // In every run, weight times probability is 1 (or the weight is 1 when the probability is not positive) in every row of every
  // sampled trace, in every cached decision and in every late attachment, each by a decision of its own trace; a span dropped
  // late belongs to a trace decided Drop.
  lemma WeightsMakeUpForSampling(home: Home, cfg: Config, events: seq<Event>)
    requires Run(home, cfg, events).Some?
    ensures var st := Run(home, cfg, events).value.st;
            && (forall e, i | e in st.log.emissions && e.decision.sample && 0 <= i < |e.Rows()| ::
                  Upweighs(e.decision.probability, e.Rows()[i].weight))
            && (forall id | id in st.buf.decided ::
                  DecidedAt(st.log, id, st.buf.decided[id].sampled, st.buf.decided[id].weight))
            && (forall a | a in st.log.attached :: DecidedAt(st.log, a.span.id, true, a.weight))
            && (forall x | x in st.log.lateDropped :: DecidesDrop(st.log, x.id))
  {
    hide Run, Delivered, Decides, DecidedAt, DecidesDrop, IndexAgrees, BufferFloored, UnsettledFloored, FloorsNeeded, Conserved,
         Upweighs;
    var st := Run(home, cfg, events).value.st;
    RunGuarded(home, cfg, events);
    GuardedSound(home, Run(home, cfg, events).value);
    forall e, i | e in st.log.emissions && e.decision.sample && 0 <= i < |e.Rows()|
      ensures Upweighs(e.decision.probability, e.Rows()[i].weight)
    {
      RowsUpweighed(e, i);
    }
    forall id | id in st.buf.decided ensures DecidedAt(st.log, id, st.buf.decided[id].sampled, st.buf.decided[id].weight) {
      DecidesAt(st.log, id, st.buf.decided[id].sampled, st.buf.decided[id].weight);
    }
    forall a | a in st.log.attached ensures DecidedAt(st.log, a.span.id, true, a.weight) {
      DecidesAt(st.log, a.span.id, true, a.weight);
    }
  }

  // ---- Commits hold back exactly what is at risk ----

  /** A reason to hold partition p at offset o: a trace in flight, or one with an evicted or unwritten span. */
  ghost predicate AtRisk(home: Home, st: State, p: int, o: int) {
    exists id :: home(id) == p && FloorAt(st, p, id) == Some(o) && (id in st.buf.inflight || HasUnsettled(st.log, id))
  }

  /** After a commit the position is past everything fetched, or exactly at the first offset of a trace at risk. */
  lemma CommitHoldsExactlyTheRisk(home: Home, cfg: Config, events: seq<Event>, ceilings: map<int, Option<int>>, p: int)
    requires Run(home, cfg, events).Some?
    requires var s := Run(home, cfg, events).value; Enabled(home, cfg, s, Commit(true, ceilings)) && p in s.pending
    ensures var s := Run(home, cfg, events).value;
            var position := Position(Apply(cfg, s, Commit(true, ceilings)).committed, p);
            && (position == s.pending[p] + 1 || AtRisk(home, s.st, p, position))
            && (forall o | AtRisk(home, s.st, p, o) :: position <= o)
            && Position(s.committed, p) <= position
  {
    hide Run, Delivered, Apply, FloorAt, HasUnsettled, Conserved, CacheFaithful, UnsettledFloored, BufferFloored;
    var s := Run(home, cfg, events).value;
    RunGuarded(home, cfg, events);
    CommitReaches(home, cfg, s, ceilings, p);
    CommitAdvances(cfg, s, ceilings, p);
    if FloorsOf(s.st.floors, p) != map[] {
      var position := Position(Apply(cfg, s, Commit(true, ceilings)).committed, p);
      var id :| FloorAt(s.st, p, id) == Some(position);
      assert FloorAt(s.st, p, id).Some?;
      assert AtRisk(home, s.st, p, position);
    }
  }

  lemma CommitAdvances(cfg: Config, s: Sys, ceilings: map<int, Option<int>>, p: int)
    requires ceilings.Keys == s.pending.Keys && p in s.pending
    ensures Position(s.committed, p) <= Position(Apply(cfg, s, Commit(true, ceilings)).committed, p)
  {
    CommittedAtMost(s.pending, s.committed, ceilings, p);
  }

  // ---- Evictions ----

  lemma NotEvicted(cfg: Config, st: State, s: Span, now: int, victim: Option<TraceId>, forced: Outcome, last: Outcome)
    requires !cfg.discard
    ensures Ingest(cfg, st, s, now, victim, forced, last).log.evicted == st.log.evicted
  {
    hide RootClosed, Admitted, Removed, Tracked, Recorded, HasUnsettled, Resolved;
  }

  lemma {:induction false} SweepEvictsNone(cfg: Config, st: State, popped: seq<Popped>, os: seq<Outcome>, now: int)
    requires |os| == |popped|
    ensures DecideEach(cfg, st, popped, os, now).log.evicted == st.log.evicted
  {
    hide Recorded, HasUnsettled, Resolved;
    if popped != [] {
      var n := |popped| - 1;
      SweepEvictsNone(cfg, st, popped[..n], os[..n], now);
    }
  }

  lemma {:induction false} ExpiryEvictsNone(st: State, stale: seq<StaleEntry>)
    ensures ExpireAll(st, stale).log == st.log
  {
    hide HasUnsettled;
    if stale != [] {
      ExpiryEvictsNone(st, stale[..|stale| - 1]);
    }
  }

  /** Spans leave the buffer without a decision only under the discard policy. */
  lemma {:induction false} OnlyDiscardEvicts(home: Home, cfg: Config, events: seq<Event>)
    requires Run(home, cfg, events).Some? && Run(home, cfg, events).value.st.log.evicted != []
    ensures cfg.discard
  {
    hide Fetchable, VictimOf, PopsReady, StaleOf, Ingest, DecideEach, ExpireAll, RemovedAll, RowsOf, Noted, Committed;
    if events != [] && !cfg.discard {
      var n := |events| - 1;
      var s := Run(home, cfg, events[..n]).value;
      match events[n] {
        case Poll(_) =>
        case Commit(_, _) =>
        case Handle(now, victim, forced, last) => NotEvicted(cfg, s.st, s.queue[0], now, victim, forced, last);
        case SweepTick(now, popped, os) => SweepEvictsNone(cfg, s.st.(buf := RemovedAll(s.st.buf, popped)), popped, os, now);
        case WatchdogTick(_, _, stale) => ExpiryEvictsNone(s.st, stale);
      }
      OnlyDiscardEvicts(home, cfg, events[..n]);
    }
  }

  // ---- Runs in which every write succeeds ----

  ghost predicate AllWork(e: Event) {
    match e
    case Handle(_, _, forced, last) => forced.ok && last.ok
    case SweepTick(_, _, outcomes) => forall o | o in outcomes :: o.ok
    case _ => true
  }

  ghost predicate Clean(st: State) {
    && (forall e | e in st.log.emissions :: e.ok)
    && (forall a | a in st.log.attached :: a.ok)
    && st.log.evicted == [] && st.released == {}
  }

  lemma CleanSettles(st: State)
    requires Clean(st)
    ensures forall id :: !HasUnsettled(st.log, id)
  {
  }

  lemma FinishClean(st: State, id: TraceId)
    requires Clean(st)
    ensures Clean(Finish(st, id))
  {
    hide HasUnsettled;
    CleanSettles(st);
  }

  lemma DecideClean(cfg: Config, st: State, id: TraceId, spans: seq<Span>, o: Outcome, now: int)
    requires Clean(st) && o.ok
    ensures Clean(DecideAndEmit(cfg, st, id, spans, o, now)) && Clean(ForceDecide(cfg, st, id, spans, o, now))
  {
    hide Finish, Recorded;
    var emitted := Emit(st, id, spans, o);
    assert Clean(emitted);
    assert Clean(Record(cfg, emitted, id, o, now));
    FinishClean(emitted, id);
    FinishClean(Record(cfg, emitted, id, o, now), id);
  }

  lemma IngestClean(cfg: Config, st: State, s: Span, now: int, victim: Option<TraceId>, forced: Outcome, last: Outcome)
    requires Clean(st) && forced.ok && last.ok && !cfg.discard
    ensures Clean(Ingest(cfg, st, s, now, victim, forced, last))
  {
    hide Finish, DecideAndEmit, ForceDecide, RootClosed, Admitted, Removed, Tracked;
    var tracked := Track(st, s, now);
    assert Clean(tracked);
    if s.id in st.buf.decided {
      var d := st.buf.decided[s.id];
      FinishClean(tracked.(log := tracked.log.(attached := tracked.log.attached + [Attachment(s, d.weight, true)])), s.id);
      FinishClean(tracked.(log := tracked.log.(lateDropped := tracked.log.lateDropped + [s])), s.id);
    } else {
      var admitted := AdmitSpan(tracked, s, now);
      assert Clean(admitted);
      if victim.Some? && victim.value in admitted.buf.inflight {
        var id := victim.value;
        DecideClean(cfg, admitted.(buf := Removed(admitted.buf, id)), id, admitted.buf.inflight[id].spans, forced, now);
      }
      var evicted := if victim.Some? then Evict(cfg, admitted, victim.value, forced, now) else admitted;
      assert Clean(evicted);
      if s.id in evicted.buf.inflight {
        DecideClean(cfg, evicted.(buf := Removed(evicted.buf, s.id)), s.id, evicted.buf.inflight[s.id].spans, last, now);
      }
    }
  }

  lemma {:induction false} DecideEachClean(cfg: Config, st: State, popped: seq<Popped>, os: seq<Outcome>, now: int)
    requires Clean(st) && |os| == |popped| && forall o | o in os :: o.ok
    ensures Clean(DecideEach(cfg, st, popped, os, now))
  {
    hide Clean, DecideAndEmit;
    if popped != [] {
      var n := |popped| - 1;
      assert os[n] in os && forall o | o in os[..n] :: o in os;
      DecideEachClean(cfg, st, popped[..n], os[..n], now);
      DecideClean(cfg, DecideEach(cfg, st, popped[..n], os[..n], now), popped[n].id, popped[n].trace.spans, os[n], now);
    }
  }

  lemma {:induction false} ExpireClean(st: State, stale: seq<StaleEntry>)
    requires Clean(st)
    ensures Clean(ExpireAll(st, stale))
  {
    hide HasUnsettled;
    if stale != [] {
      ExpireClean(st, stale[..|stale| - 1]);
      CleanSettles(ExpireAll(st, stale[..|stale| - 1]));
    }
  }

  lemma {:induction false} RunClean(home: Home, cfg: Config, events: seq<Event>)
    requires Run(home, cfg, events).Some? && !cfg.discard && forall e | e in events :: AllWork(e)
    ensures Clean(Run(home, cfg, events).value.st)
  {
    hide Fetchable, VictimOf, PopsReady, StaleOf, Ingest, DecideEach, ExpireAll, RemovedAll, RowsOf, Noted, Committed;
    if events != [] {
      var n := |events| - 1;
      assert events[n] in events && forall e | e in events[..n] :: e in events;
      RunClean(home, cfg, events[..n]);
      var s := Run(home, cfg, events[..n]).value;
      match events[n] {
        case Poll(_) =>
        case Commit(_, _) =>
        case Handle(now, victim, forced, last) => IngestClean(cfg, s.st, s.queue[0], now, victim, forced, last);
        case SweepTick(now, popped, os) => DecideEachClean(cfg, s.st.(buf := RemovedAll(s.st.buf, popped)), popped, os, now);
        case WatchdogTick(_, _, stale) => ExpireClean(s.st, stale);
      }
    }
  }

  /** Under forced decisions and successful writes, a committed span is written or belongs to a dropped trace. */
  lemma CommittedIsWritten(home: Home, cfg: Config, events: seq<Event>, x: Span)
    requires Run(home, cfg, events).Some? && x in Delivered(events)
    requires !cfg.discard && forall e | e in events :: AllWork(e)
    requires x.offset < Position(Run(home, cfg, events).value.committed, x.partition)
    ensures Confirmed(Run(home, cfg, events).value.st.log, x)
  {
    hide Run, Delivered, Confirmed, AllWork;
    RunClean(home, cfg, events);
    CommittedIsSettled(home, cfg, events, x);
  }

  // ---- How an unwritten span is passed over ----

  /** What a completion does to x's floor: it stays exactly unless the completion is of x's trace and its write worked. */
  lemma FloorKeptExactly(
    home: Home, cfg: Config, st: State, id: TraceId, spans: seq<Span>, o: Outcome, now: int, x: Span)
    requires IndexAgrees(home, st)
    ensures Floored(home, DecideAndEmit(cfg, st, id, spans, o, now), x) <==> Floored(home, st, x) && !(o.ok && x.id == id)
  {
    hide FloorAt, HasUnsettled, Recorded;
    var emitted := Emit(st, id, spans, o);
    SameFloors(home, st, emitted);
    var recorded := Record(cfg, emitted, id, o, now);
    SameFloors(home, emitted, recorded);
    FinishEffect(home, recorded, id);
  }

  const LOST := Span(7, 100, false, 0, 1, 1.0, 0, 0)
  const LATER := Span(7, 100, false, 0, 1, 1.0, 0, 1)
  const FORCED := Config(10, 10000, false, 5, 10, 0)
  const KEEP := Decision(true, 1.0)
  const FAILS := Outcome(KEEP, false)
  const WORKS := Outcome(KEEP, true)

  /** The trace's write fails; a later span of the same trace starts it afresh, is written, and releases the floor. */
  const LOSING_RUN: seq<Event> := [
    Poll([KafkaRecord(0, 0, [LOST]), KafkaRecord(0, 1, [LATER])]),
    Handle(0, None, WORKS, WORKS),
    SweepTick(10, [Popped(7, Trace([LOST], 0, 100))], [FAILS]),
    Handle(20, None, WORKS, WORKS),
    SweepTick(30, [Popped(7, Trace([LATER], 20, 100))], [WORKS]),
    Commit(true, map[0 := None])]

  const HELD := map[7 := Seen(0, 0)]
  const AFTER_1 := Sys(START, map[0 := 1], map[], [LOST, LATER])
  const AFTER_2 := Sys(
    State(Buf(map[7 := Trace([LOST], 0, 100)], 100, map[], []), map[7 := 0], map[0 := HELD],
          Log([LOST], [], [], [], []), {}), map[0 := 1], map[], [LATER])
  const AFTER_3 := Sys(
    State(EMPTY, map[7 := 0], map[0 := HELD],
          Log([LOST], [Emission(7, [LOST], KEEP, false)], [], [], []), {}), map[0 := 1], map[], [LATER])
  const AFTER_4 := Sys(
    State(Buf(map[7 := Trace([LATER], 20, 100)], 100, map[], []), map[7 := 0], map[0 := HELD],
          Log([LOST, LATER], [Emission(7, [LOST], KEEP, false)], [], [], []), {}), map[0 := 1], map[], [])
  const AFTER_5 := Sys(
    State(Buf(map[], 0, map[7 := Decided(true, 1.0, 30)], [(7, 30)]), map[], map[0 := map[]],
          Log([LOST, LATER], [Emission(7, [LOST], KEEP, false), Emission(7, [LATER], KEEP, true)], [], [], []), {7}),
    map[0 := 1], map[], [])
  const AFTER_6 := AFTER_5.(committed := map[0 := 2])

  lemma Step1(home: Home)
    requires home(7) == 0
    ensures Enabled(home, FORCED, INIT, LOSING_RUN[0]) && Apply(FORCED, INIT, LOSING_RUN[0]) == AFTER_1
  {
    var a, b := KafkaRecord(0, 0, [LOST]), KafkaRecord(0, 1, [LATER]);
    assert [a, b][..1] == [a];
    assert RowsOf([a]) == [LOST];
    assert Noted(map[], [a]) == map[0 := 0];
  }

  lemma OpenTrace(x: Span)
    requires !x.root
    ensures !RootClosed([x])
  {
  }

  lemma Step2(home: Home)
    ensures Enabled(home, FORCED, AFTER_1, LOSING_RUN[1]) && Apply(FORCED, AFTER_1, LOSING_RUN[1]) == AFTER_2
  {
    hide RootClosed;
    OpenTrace(LOST);
    var t := Ingest(FORCED, START, LOST, 0, None, WORKS, WORKS);
    assert WithSpan(TraceAt(EMPTY, 7, 0), LOST) == Trace([LOST], 0, 100);
    assert Admitted(EMPTY, LOST, 0) == AFTER_2.st.buf;
    assert t == AFTER_2.st;
  }

  lemma SweepOne(cfg: Config, st: State, p: Popped, o: Outcome, now: int)
    ensures Sweep(cfg, st, [p], [o], now) ==
            DecideAndEmit(cfg, st.(buf := Removed(st.buf, p.id)), p.id, p.trace.spans, o, now)
  {
    hide DecideAndEmit;
    assert [p][..0] == [] && [o][..0] == [] && [] + [p] == [p];
    RemovedAllStep(st.buf, [], p);
    var t := st.(buf := RemovedAll(st.buf, [p]));
    DecideEachLast(cfg, t, [p], [o], now);
    assert DecideEach(cfg, t, [], [], now) == t;
  }

  lemma PopOne(cfg: Config, b: Buf, now: int, p: Popped)
    requires b.inflight == map[p.id := p.trace] && now - p.trace.firstSeen >= cfg.decisionWait
    ensures PopsReady(cfg, b, now, [p])
  {
    assert [p][0] == p;
  }

  lemma Step3(home: Home)
    ensures Enabled(home, FORCED, AFTER_2, LOSING_RUN[2]) && Apply(FORCED, AFTER_2, LOSING_RUN[2]) == AFTER_3
  {
    hide Sweep, PopsReady;
    var p := Popped(7, Trace([LOST], 0, 100));
    PopOne(FORCED, AFTER_2.st.buf, 10, p);
    SweepOne(FORCED, AFTER_2.st, p, FAILS, 10);
    assert Removed(AFTER_2.st.buf, 7) == EMPTY;
  }

  lemma Step4(home: Home)
    ensures Enabled(home, FORCED, AFTER_3, LOSING_RUN[3]) && Apply(FORCED, AFTER_3, LOSING_RUN[3]) == AFTER_4
  {
    hide RootClosed;
    OpenTrace(LATER);
    var t := Ingest(FORCED, AFTER_3.st, LATER, 20, None, WORKS, WORKS);
    assert WithSpan(TraceAt(EMPTY, 7, 20), LATER) == Trace([LATER], 20, 100);
    assert Admitted(EMPTY, LATER, 20) == AFTER_4.st.buf;
    assert t == AFTER_4.st;
  }

  lemma LostIsUnsettled()
    ensures HasUnsettled(AFTER_5.st.log, 7) && !Confirmed(AFTER_5.st.log, LOST)
  {
    var es := AFTER_5.st.log.emissions;
    assert es[0] in es && LOST in es[0].spans;
    assert FailedEmission(AFTER_5.st.log, LOST);
    assert Unsettled(AFTER_5.st.log, LOST);
    assert LOST != LATER;
  }

  lemma Step5(home: Home)
    ensures Enabled(home, FORCED, AFTER_4, LOSING_RUN[4]) && Apply(FORCED, AFTER_4, LOSING_RUN[4]) == AFTER_5
  {
    hide Sweep, PopsReady, HasUnsettled;
    var p := Popped(7, Trace([LATER], 20, 100));
    PopOne(FORCED, AFTER_4.st.buf, 30, p);
    SweepOne(FORCED, AFTER_4.st, p, WORKS, 30);
    LostIsUnsettled();
    var without := AFTER_4.st.(buf := EMPTY);
    assert Removed(AFTER_4.st.buf, 7) == EMPTY;
    var emitted := Emit(without, 7, [LATER], WORKS);
    assert emitted.log == AFTER_5.st.log;
    assert Recorded(FORCED, EMPTY, 7, KEEP, 30) == AFTER_5.st.buf;
    assert map[7 := 0] - {7} == map[];
    assert HELD - {7} == map[];
  }

  lemma Step6(home: Home)
    ensures Enabled(home, FORCED, AFTER_5, LOSING_RUN[5]) && Apply(FORCED, AFTER_5, LOSING_RUN[5]) == AFTER_6
  {
    assert Committed(map[0 := 1], map[], map[0 := None]) == map[0 := 2];
  }

  lemma RunLast(home: Home, cfg: Config, events: seq<Event>, e: Event, s: Sys)
    requires Run(home, cfg, events) == Some(s) && Enabled(home, cfg, s, e)
    ensures Run(home, cfg, events + [e]) == Some(Apply(cfg, s, e))
  {
    hide Enabled, Apply;
    assert (events + [e])[..|events|] == events;
  }

  /** A failed write holds its floor only until another span of its trace succeeds: here the lost span is committed. */
  lemma FailedWriteIsPassedOver(home: Home)
    requires home(7) == 0
    ensures Run(home, FORCED, LOSING_RUN) == Some(AFTER_6)
    ensures LOST.offset < Position(AFTER_6.committed, LOST.partition) && !Confirmed(AFTER_6.st.log, LOST)
    ensures 7 in AFTER_6.st.released
  {
    hide Enabled, Apply, Confirmed, HasUnsettled;
    Step1(home);
    Step2(home);
    Step3(home);
    Step4(home);
    Step5(home);
    Step6(home);
    LostIsUnsettled();
    var e := LOSING_RUN;
    RunLast(home, FORCED, [], e[0], INIT);
    RunLast(home, FORCED, [e[0]], e[1], AFTER_1);
    RunLast(home, FORCED, [e[0]] + [e[1]], e[2], AFTER_2);
    RunLast(home, FORCED, [e[0]] + [e[1]] + [e[2]], e[3], AFTER_3);
    RunLast(home, FORCED, [e[0]] + [e[1]] + [e[2]] + [e[3]], e[4], AFTER_4);
    RunLast(home, FORCED, [e[0]] + [e[1]] + [e[2]] + [e[3]] + [e[4]], e[5], AFTER_5);
    assert [e[0]] + [e[1]] + [e[2]] + [e[3]] + [e[4]] + [e[5]] == e;
  }
}
