/** Which events release a trace's floor, and what the committed positions therefore say about unwritten spans. */
module FloorHistory {
  import opened Assembly
  import opened AssemblyInvariants
  import opened CommitProtocol
  import opened IndexedHeap
  import opened Options
  import opened TraceBuffer
  import opened Watermark

  // ---- Which traces an event finishes ----

  /** A late span: its trace was dropped, or the span was attached. */
  ghost predicate FinishesLate(d: Decided, last: Outcome) {
    d.sampled ==> last.ok
  }

  /** y's trace leaves early and is written: with y, its root interval is closed, and it is not the one evicted. */
  ghost predicate FinishesEarly(st: State, y: Span, now: int, victim: Option<TraceId>, last: Outcome) {
    victim != Some(y.id) && last.ok && RootClosed(TraceAt(st.buf, y.id, now).spans + [y])
  }

  /** Ingesting y finishes id: as its own trace, late or early, or as the trace decided to make room. */
  ghost predicate IngestFinishes(
    cfg: Config, st: State, y: Span, now: int, victim: Option<TraceId>, forced: Outcome, last: Outcome, id: TraceId)
  {
    if y.id in st.buf.decided then id == y.id && FinishesLate(st.buf.decided[y.id], last)
    else (victim == Some(id) && !cfg.discard && forced.ok) || (id == y.id && FinishesEarly(st, y, now, victim, last))
  }

  ghost predicate SweepFinishes(popped: seq<Popped>, os: seq<Outcome>, id: TraceId)
    requires |os| == |popped|
  {
    exists i :: 0 <= i < |popped| && popped[i].id == id && os[i].ok
  }

  ghost predicate ExpiryFinishes(st: State, stale: seq<StaleEntry>, id: TraceId) {
    !Known(st.buf, id) && exists e :: e in stale && e.id == id
  }

  /** The event takes id's floor away, as far as there is one. */
  ghost predicate Finishes(home: Home, cfg: Config, s: Sys, e: Event, id: TraceId)
    requires Enabled(home, cfg, s, e)
  {
    match e
    case Poll(_) => false
    case Handle(now, victim, forced, last) => IngestFinishes(cfg, s.st, s.queue[0], now, victim, forced, last, id)
    case SweepTick(_, popped, os) => SweepFinishes(popped, os, id)
    case WatchdogTick(_, _, stale) => ExpiryFinishes(s.st, stale, id)
    case Commit(_, _) => false
  }

  /** The event ingests y. */
  predicate Ingests(s: Sys, e: Event, y: Span) {
    e.Handle? && s.queue != [] && s.queue[0] == y
  }

  // ---- What each operation does to one trace's floor ----

  function Unless(gone: bool, floor: Option<int>): Option<int> {
    if gone then None else floor
  }

  ghost predicate OnlyLoses(st: State, t: State, id: TraceId, gone: bool) {
    forall p, x :: FloorAt(t, p, x) == Unless(gone && x == id, FloorAt(st, p, x))
  }

  lemma DecidingFloors(home: Home, cfg: Config, st: State, id: TraceId, spans: seq<Span>, o: Outcome, now: int)
    requires IndexAgrees(home, st)
    ensures IndexAgrees(home, DecideAndEmit(cfg, st, id, spans, o, now))
    ensures OnlyLoses(st, DecideAndEmit(cfg, st, id, spans, o, now), id, o.ok)
    ensures IndexAgrees(home, ForceDecide(cfg, st, id, spans, o, now))
    ensures OnlyLoses(st, ForceDecide(cfg, st, id, spans, o, now), id, o.ok)
  {
    hide FloorAt, HasUnsettled, Recorded, IndexAgrees, Finish;
    var emitted := Emit(st, id, spans, o);
    SameFloors(home, st, emitted);
    var recorded := Record(cfg, emitted, id, o, now);
    SameFloors(home, emitted, recorded);
    FinishEffect(home, recorded, id);
    FinishEffect(home, emitted, id);
    SameFloors(home, Finish(emitted, id), Record(cfg, Finish(emitted, id), id, o, now));
  }

  lemma EvictingFloors(home: Home, cfg: Config, st: State, id: TraceId, o: Outcome, now: int)
    requires IndexAgrees(home, st) && id in st.buf.inflight
    ensures IndexAgrees(home, Evict(cfg, st, id, o, now))
    ensures OnlyLoses(st, Evict(cfg, st, id, o, now), id, !cfg.discard && o.ok)
  {
    hide FloorAt, IndexAgrees, ForceDecide, Removed;
    var without := st.(buf := Removed(st.buf, id));
    SameFloors(home, st, without);
    DecidingFloors(home, cfg, without, id, st.buf.inflight[id].spans, o, now);
    SameFloors(home, st, without.(log := st.log.(evicted := st.log.evicted + st.buf.inflight[id].spans)));
  }

  lemma ExitingFloors(home: Home, cfg: Config, st: State, id: TraceId, o: Outcome, now: int)
    requires IndexAgrees(home, st)
    ensures OnlyLoses(st, EarlyExit(cfg, st, id, o, now), id,
                      o.ok && id in st.buf.inflight && RootClosed(st.buf.inflight[id].spans))
  {
    hide FloorAt, IndexAgrees, DecideAndEmit, Removed, RootClosed;
    if id in st.buf.inflight {
      var without := st.(buf := Removed(st.buf, id));
      SameFloors(home, st, without);
      DecidingFloors(home, cfg, without, id, st.buf.inflight[id].spans, o, now);
    }
  }

  lemma LateFloors(home: Home, st: State, s: Span, weight: real, ok: bool)
    requires IndexAgrees(home, st)
    ensures OnlyLoses(st, AttachLate(st, s, weight, ok), s.id, ok) && OnlyLoses(st, DropLate(st, s), s.id, true)
  {
    hide FloorAt, IndexAgrees, Finish;
    var attached := st.(log := st.log.(attached := st.log.attached + [Attachment(s, weight, ok)]));
    var dropped := st.(log := st.log.(lateDropped := st.log.lateDropped + [s]));
    SameFloors(home, st, attached);
    SameFloors(home, st, dropped);
    FinishEffect(home, attached, s.id);
    FinishEffect(home, dropped, s.id);
  }

  /** What Evict leaves of the other traces. */
  lemma EvictKeepsOthers(cfg: Config, st: State, id: TraceId, o: Outcome, now: int)
    requires id in st.buf.inflight
    ensures Evict(cfg, st, id, o, now).buf.inflight == st.buf.inflight - {id}
  {
    hide Recorded, Finish;
    var b := Removed(st.buf, id);
    RecordedKeeps(cfg, b, id, o.decision, now);
    FinishKeepsBuffer(Emit(st.(buf := b), id, st.buf.inflight[id].spans, o), id);
  }

  lemma FinishKeepsBuffer(st: State, id: TraceId)
    ensures Finish(st, id).buf == st.buf
  {
    hide HasUnsettled, Resolved;
  }

  /** A span ingested: its own floor appears if there was none, then exactly the finished traces lose theirs. */
  lemma IngestFloors(
    home: Home, cfg: Config, st: State, y: Span, now: int, victim: Option<TraceId>, forced: Outcome, last: Outcome, id: TraceId)
    requires IndexAgrees(home, st) && y.partition == home(y.id) && VictimOf(cfg, st, y, now, victim)
    ensures FloorAt(Ingest(cfg, st, y, now, victim, forced, last), home(id), id) ==
            Unless(IngestFinishes(cfg, st, y, now, victim, forced, last, id),
                   if id == y.id && FloorAt(st, home(id), id).None? then Some(y.offset) else FloorAt(st, home(id), id))
  {
    hide FloorAt, IndexAgrees, Evict, EarlyExit, AttachLate, DropLate, RootClosed, Track, OverCap;
    var tracked := Track(st, y, now);
    TrackEffect(home, st, y, now);
    TrackBuf(st, y, now);
    if y.id in st.buf.decided {
      LateFloors(home, tracked, y, st.buf.decided[y.id].weight, last.ok);
    } else {
      var admitted := AdmitSpan(tracked, y, now);
      SameFloors(home, tracked, admitted);
      var evicted := if victim.Some? then Evict(cfg, admitted, victim.value, forced, now) else admitted;
      if victim.Some? {
        EvictingFloors(home, cfg, admitted, victim.value, forced, now);
        EvictKeepsOthers(cfg, admitted, victim.value, forced, now);
      }
      ExitingFloors(home, cfg, evicted, y.id, last, now);
    }
  }

  lemma {:induction false} DecideEachFloors(home: Home, cfg: Config, st: State, popped: seq<Popped>, os: seq<Outcome>, now: int, id: TraceId)
    requires |os| == |popped| && IndexAgrees(home, st)
    ensures IndexAgrees(home, DecideEach(cfg, st, popped, os, now))
    ensures FloorAt(DecideEach(cfg, st, popped, os, now), home(id), id) ==
            Unless(SweepFinishes(popped, os, id), FloorAt(st, home(id), id))
  {
    hide FloorAt, IndexAgrees, DecideAndEmit;
    if popped != [] {
      var n := |popped| - 1;
      DecideEachFloors(home, cfg, st, popped[..n], os[..n], now, id);
      var t := DecideEach(cfg, st, popped[..n], os[..n], now);
      DecidingFloors(home, cfg, t, popped[n].id, popped[n].trace.spans, os[n], now);
      SweepFinishesLast(popped, os, id);
    }
  }

  lemma SweepFinishesLast(popped: seq<Popped>, os: seq<Outcome>, id: TraceId)
    requires |os| == |popped| && popped != []
    ensures var n := |popped| - 1;
            SweepFinishes(popped, os, id) <==> SweepFinishes(popped[..n], os[..n], id) || (popped[n].id == id && os[n].ok)
  {
    var n := |popped| - 1;
    if SweepFinishes(popped, os, id) {
      var i :| 0 <= i < |popped| && popped[i].id == id && os[i].ok;
      assert i < n ==> popped[..n][i].id == id && os[..n][i].ok;
    }
  }

  lemma {:induction false} ExpireFloors(home: Home, st: State, stale: seq<StaleEntry>, id: TraceId)
    requires IndexAgrees(home, st) && forall e | e in stale :: e.partition == home(e.id)
    ensures IndexAgrees(home, ExpireAll(st, stale)) && ExpireAll(st, stale).buf == st.buf
    ensures FloorAt(ExpireAll(st, stale), home(id), id) == Unless(ExpiryFinishes(st, stale, id), FloorAt(st, home(id), id))
  {
    hide FloorAt, IndexAgrees, HasUnsettled, Known, Resolved;
    if stale != [] {
      var n := |stale| - 1;
      var t := ExpireAll(st, stale[..n]);
      assert stale == stale[..n] + [stale[n]];
      ExpireFloors(home, st, stale[..n], id);
      if !Known(st.buf, stale[n].id) {
        ExpireEffect(home, t, stale[n]);
      }
    }
  }

  /** Every event: a trace's floor is what it was, or the offset just ingested if it had none, and goes exactly if finished. */
  lemma StepFloors(home: Home, cfg: Config, s: Sys, e: Event, id: TraceId)
    requires Guarded(home, s) && Enabled(home, cfg, s, e)
    ensures FloorAt(Apply(cfg, s, e).st, home(id), id) ==
            Unless(Finishes(home, cfg, s, e, id),
                   if e.Handle? && s.queue[0].id == id && FloorAt(s.st, home(id), id).None? then Some(s.queue[0].offset)
                   else FloorAt(s.st, home(id), id))
  {
    hide FloorAt, Ingest, IngestFinishes, DecideEach, ExpireAll, SweepFinishes, ExpiryFinishes, RemovedAll, VictimOf, PopsReady,
         Sound, Fetchable, Noted, RowsOf, Committed;
    GuardedSound(home, s);
    SoundIndexed(home, s.st);
    match e {
      case Poll(_) =>
      case Commit(_, _) =>
      case Handle(now, victim, forced, last) =>
        assert Ahead(home, s, s.queue[0]);
        IngestFloors(home, cfg, s.st, s.queue[0], now, victim, forced, last, id);
      case SweepTick(now, popped, os) =>
        var t := s.st.(buf := RemovedAll(s.st.buf, popped));
        SameFloors(home, s.st, t);
        DecideEachFloors(home, cfg, t, popped, os, now, id);
      case WatchdogTick(now, maxAge, stale) =>
        StaleAtHome(home, s.st, maxAge, now, stale);
        ExpireFloors(home, s.st, stale, id);
    }
  }

  lemma SoundIndexed(home: Home, st: State)
    requires Sound(home, st)
    ensures IndexAgrees(home, st)
  {
  }

  lemma StaleAtHome(home: Home, st: State, maxAge: int, now: int, stale: seq<StaleEntry>)
    requires IndexAgrees(home, st) && StaleOf(st, maxAge, now, stale)
    ensures forall e | e in stale :: e.partition == home(e.id)
  {
    forall e | e in stale ensures e.partition == home(e.id) {
      assert FloorAt(st, e.partition, e.id).Some?;
    }
  }

  /** Without a span of x's trace coming in, x is held back after an event exactly if it was and the event finishes no such trace. */
  lemma HeldExactly(home: Home, cfg: Config, s: Sys, e: Event, x: Span)
    requires Guarded(home, s) && Enabled(home, cfg, s, e)
    requires e.Handle? ==> s.queue[0].id != x.id
    ensures Floored(home, Apply(cfg, s, e).st, x) <==> Floored(home, s.st, x) && !Finishes(home, cfg, s, e, x.id)
  {
    hide FloorAt, Apply, Finishes, Guarded;
    StepFloors(home, cfg, s, e, x.id);
  }

  // ---- Whole runs ----

  ghost predicate FinishesAt(home: Home, cfg: Config, events: seq<Event>, j: nat, id: TraceId) {
    && j < |events| && Run(home, cfg, events[..j]).Some?
    && Enabled(home, cfg, Run(home, cfg, events[..j]).value, events[j])
    && Finishes(home, cfg, Run(home, cfg, events[..j]).value, events[j], id)
  }

  ghost predicate IngestsAt(home: Home, cfg: Config, events: seq<Event>, j: nat, y: Span) {
    j < |events| && Run(home, cfg, events[..j]).Some? && Ingests(Run(home, cfg, events[..j]).value, events[j], y)
  }

  /** The j-th event ingests y, and neither it nor any later event finishes y's trace. */
  ghost predicate OpenSince(home: Home, cfg: Config, events: seq<Event>, j: nat, y: Span) {
    IngestsAt(home, cfg, events, j, y) && forall i | j <= i < |events| :: !FinishesAt(home, cfg, events, i, y.id)
  }

  lemma RunFront(home: Home, cfg: Config, events: seq<Event>)
    requires events != [] && Run(home, cfg, events).Some?
    ensures var n := |events| - 1;
            && Run(home, cfg, events[..n]).Some?
            && var s := Run(home, cfg, events[..n]).value;
               && Enabled(home, cfg, s, events[n]) && Run(home, cfg, events).value == Apply(cfg, s, events[n])
               && (events[n].Handle? ==> s.queue != [])
  {
    hide Apply;
  }

  lemma CommitKeys(home: Home, cfg: Config, s: Sys, ceilings: map<int, Option<int>>)
    requires Enabled(home, cfg, s, Commit(true, ceilings))
    ensures ceilings.Keys == s.pending.Keys
  {
  }

  lemma SameBefore(home: Home, cfg: Config, events: seq<Event>, j: nat, y: Span, id: TraceId)
    requires j < |events| - 1
    ensures var front := events[..|events| - 1];
            && (IngestsAt(home, cfg, events, j, y) <==> IngestsAt(home, cfg, front, j, y))
            && (FinishesAt(home, cfg, events, j, id) <==> FinishesAt(home, cfg, front, j, id))
  {
    hide Run, Enabled, Finishes;
    assert events[..|events| - 1][..j] == events[..j];
  }

  /** Open after all events: open before the last one and not finished by it, or ingested by it. */
  lemma OpenLast(home: Home, cfg: Config, events: seq<Event>, j: nat, y: Span)
    requires events != []
    ensures var n := |events| - 1;
            OpenSince(home, cfg, events, j, y) <==>
            (if j < n then OpenSince(home, cfg, events[..n], j, y) else IngestsAt(home, cfg, events, j, y))
            && !FinishesAt(home, cfg, events, n, y.id)
  {
    hide IngestsAt, FinishesAt;
    var n := |events| - 1;
    forall i: nat | i < n
      ensures FinishesAt(home, cfg, events, i, y.id) <==> FinishesAt(home, cfg, events[..n], i, y.id)
    {
      SameBefore(home, cfg, events, i, y, y.id);
    }
    if j < n {
      SameBefore(home, cfg, events, j, y, y.id);
    } else if j > n {
      NotAfter(home, cfg, events, j, y);
    }
  }

  lemma NotAfter(home: Home, cfg: Config, events: seq<Event>, j: nat, y: Span)
    requires j >= |events|
    ensures !IngestsAt(home, cfg, events, j, y)
  {
  }

  lemma LastEvent(home: Home, cfg: Config, events: seq<Event>, y: Span, id: TraceId)
    requires events != [] && Run(home, cfg, events).Some?
    ensures var n := |events| - 1;
            && Run(home, cfg, events[..n]).Some?
            && var s := Run(home, cfg, events[..n]).value;
               Enabled(home, cfg, s, events[n])
               && (FinishesAt(home, cfg, events, n, id) <==> Finishes(home, cfg, s, events[n], id))
               && (IngestsAt(home, cfg, events, n, y) <==> events[n].Handle? && s.queue[0] == y)
  {
    hide Run, Finishes, Apply;
    RunFront(home, cfg, events);
  }

  /** In any run a trace's floor is at the offset of one of its open ingestions. */
  lemma {:induction false} FloorIsOpen(home: Home, cfg: Config, events: seq<Event>, id: TraceId) returns (j: nat, y: Span)
    requires Run(home, cfg, events).Some? && FloorAt(Run(home, cfg, events).value.st, home(id), id).Some?
    ensures OpenSince(home, cfg, events, j, y) && y.id == id
    ensures FloorAt(Run(home, cfg, events).value.st, home(id), id) == Some(y.offset)
  {
    hide FloorAt, Finishes, OpenSince, IngestsAt, FinishesAt, Enabled, Apply, Guarded;
    if events == [] {
      assert FloorAt(START, home(id), id).None? by {
        NoFloors(home(id), id);
      }
    } else {
      var n := |events| - 1;
      RunFront(home, cfg, events);
      var s := Run(home, cfg, events[..n]).value;
      RunGuarded(home, cfg, events[..n]);
      StepFloors(home, cfg, s, events[n], id);
      if events[n].Handle? && FloorAt(s.st, home(id), id).None? {
        j, y := n, s.queue[0];
      } else {
        j, y := FloorIsOpen(home, cfg, events[..n], id);
        OpenOnly(home, cfg, events[..n], j, y);
      }
      LastEvent(home, cfg, events, y, id);
      OpenLast(home, cfg, events, j, y);
    }
  }

  lemma OpenOnly(home: Home, cfg: Config, events: seq<Event>, j: nat, y: Span)
    requires OpenSince(home, cfg, events, j, y)
    ensures j < |events|
  {
  }

  lemma NoFloors(p: int, id: TraceId)
    ensures FloorAt(START, p, id).None?
  {
  }

  /** In any run an open ingestion keeps its trace's floor at or below its offset. */
  lemma {:induction false} OpenIsFloored(home: Home, cfg: Config, events: seq<Event>, j: nat, y: Span)
    requires Run(home, cfg, events).Some? && OpenSince(home, cfg, events, j, y)
    ensures Floored(home, Run(home, cfg, events).value.st, y) && y.partition == home(y.id)
  {
    hide FloorAt, Finishes, OpenSince, IngestsAt, FinishesAt, Enabled, Apply, Sound;
    OpenOnly(home, cfg, events, j, y);
    var n := |events| - 1;
    RunFront(home, cfg, events);
    var s := Run(home, cfg, events[..n]).value;
    RunGuarded(home, cfg, events[..n]);
    StepFloors(home, cfg, s, events[n], y.id);
    LastEvent(home, cfg, events, y, y.id);
    OpenLast(home, cfg, events, j, y);
    if j < n {
      OpenIsFloored(home, cfg, events[..n], j, y);
    } else {
      assert Ahead(home, s, s.queue[0]);
    }
  }

  // In any run, x is held back exactly as long as a span of its trace came in, at or before x's offset, and no event
  // since then finished the trace.
  lemma FlooredExactlyWhileOpen(home: Home, cfg: Config, events: seq<Event>, x: Span)
    requires Run(home, cfg, events).Some?
    ensures Floored(home, Run(home, cfg, events).value.st, x) <==>
            exists j, y :: OpenSince(home, cfg, events, j, y) && y.id == x.id && y.offset <= x.offset
  {
    hide FloorAt, Run, OpenSince;
    if Floored(home, Run(home, cfg, events).value.st, x) {
      var j, y := FloorIsOpen(home, cfg, events, x.id);
    }
    forall j, y | OpenSince(home, cfg, events, j, y) && y.id == x.id && y.offset <= x.offset
      ensures Floored(home, Run(home, cfg, events).value.st, x)
    {
      OpenIsFloored(home, cfg, events, j, y);
    }
  }

  /** A span stays at or above the committed position as long as no event since its ingestion finished its trace. */
  lemma OpenIsNotCommitted(home: Home, cfg: Config, events: seq<Event>, j: nat, x: Span)
    requires Run(home, cfg, events).Some? && OpenSince(home, cfg, events, j, x)
    ensures Position(Run(home, cfg, events).value.committed, x.partition) <= x.offset
  {
    hide Run, FloorAt, OpenSince, Sound;
    OpenIsFloored(home, cfg, events, j, x);
    RunGuarded(home, cfg, events);
  }

  ghost predicate OpenUpTo(home: Home, cfg: Config, events: seq<Event>, p: int, offset: int) {
    exists j, y :: OpenSince(home, cfg, events, j, y) && y.partition == p && y.offset <= offset
  }

  /** A commit passes an offset exactly if no span at or below it on its partition is still open. */
  lemma CommitPassesExactly(home: Home, cfg: Config, events: seq<Event>, ceilings: map<int, Option<int>>, p: int, offset: int)
    requires Run(home, cfg, events).Some?
    requires var s := Run(home, cfg, events).value;
             Enabled(home, cfg, s, Commit(true, ceilings)) && p in s.pending && offset <= s.pending[p]
    ensures var s := Run(home, cfg, events).value;
            offset < Position(Apply(cfg, s, Commit(true, ceilings)).committed, p) <==> !OpenUpTo(home, cfg, events, p, offset)
  {
    hide Run, Enabled, Apply, FloorAt, OpenSince, Sound;
    var s := Run(home, cfg, events).value;
    RunGuarded(home, cfg, events);
    CommitKeys(home, cfg, s, ceilings);
    CommitReaches(home, cfg, s, ceilings, p);
    var position := Position(Apply(cfg, s, Commit(true, ceilings)).committed, p);
    if position <= offset {
      var id :| FloorAt(s.st, p, id) == Some(position);
      FloorsAtHome(home, s, p, id);
      var j, y := FloorIsOpen(home, cfg, events, id);
      OpenIsFloored(home, cfg, events, j, y);
      assert OpenUpTo(home, cfg, events, p, offset);
    }
    if OpenUpTo(home, cfg, events, p, offset) {
      var j, y :| OpenSince(home, cfg, events, j, y) && y.partition == p && y.offset <= offset;
      OpenIsFloored(home, cfg, events, j, y);
    }
  }

  lemma FloorsAtHome(home: Home, s: Sys, p: int, id: TraceId)
    requires Guarded(home, s) && FloorAt(s.st, p, id).Some?
    ensures p == home(id)
  {
    GuardedSound(home, s);
    SoundIndexed(home, s.st);
  }

  lemma {:induction false} IngestedSometime(home: Home, cfg: Config, events: seq<Event>, x: Span) returns (k: nat)
    requires Run(home, cfg, events).Some? && x in Run(home, cfg, events).value.st.log.ingested
    ensures IngestsAt(home, cfg, events, k, x)
  {
    hide Finishes, IngestsAt, FinishesAt, Enabled, Guarded;
    if events == [] {
      assert false;
    } else {
      var n := |events| - 1;
      RunFront(home, cfg, events);
      var s := Run(home, cfg, events[..n]).value;
      RunGuarded(home, cfg, events[..n]);
      LastEvent(home, cfg, events, x, x.id);
      IngestedStep(home, cfg, s, events[n]);
      if events[n].Handle? && s.queue[0] == x {
        k := n;
      } else {
        k := IngestedSometime(home, cfg, events[..n], x);
        if k >= n {
          NotAfter(home, cfg, events[..n], k, x);
        }
        SameBefore(home, cfg, events, k, x, x.id);
      }
    }
  }

  lemma IngestedStep(home: Home, cfg: Config, s: Sys, e: Event)
    requires Guarded(home, s) && Enabled(home, cfg, s, e)
    ensures Apply(cfg, s, e).st.log.ingested == s.st.log.ingested + (if e.Handle? then [s.queue[0]] else [])
  {
    hide Guarded, Sound, RowsOf, Noted, Ingest, Sweep, ExpireAll, Fetchable, StaleOf, PopsReady, VictimOf, FloorAt;
    GuardedSound(home, s);
    match e {
      case Handle(_, _, _, _) => Handling(home, cfg, s, e);
      case SweepTick(now, popped, outcomes) =>
        TakesReady(cfg, s.st.buf, now, popped);
        Sweeping(home, cfg, s.st, popped, outcomes, now);
      case WatchdogTick(now, maxAge, stale) => Watching(home, s.st, maxAge, now, stale);
      case _ =>
    }
  }

  // In any run, a span below its partition's committed position was ingested, and an event since then finished its
  // trace; it was confirmed, or else it is one of the spans evicted or not written.
  lemma CommittedWasFinished(home: Home, cfg: Config, events: seq<Event>, x: Span) returns (k: nat, j: nat)
    requires Run(home, cfg, events).Some? && x in Delivered(events)
    requires x.offset < Position(Run(home, cfg, events).value.committed, x.partition)
    ensures IngestsAt(home, cfg, events, k, x) && k <= j && FinishesAt(home, cfg, events, j, x.id)
    ensures var log := Run(home, cfg, events).value.st.log; Confirmed(log, x) || Unsettled(log, x)
  {
    hide Run, Delivered, Sound, IngestsAt, FinishesAt, Confirmed, Unsettled;
    var s := Run(home, cfg, events).value;
    RunGuarded(home, cfg, events);
    assert x in s.queue ==> Ahead(home, s, x);
    k := IngestedSometime(home, cfg, events, x);
    GuardedSound(home, s);
    Accounted(home, s.st, x);
    NoBufferedSpanIsCommitted(home, cfg, events);
    if OpenSince(home, cfg, events, k, x) {
      OpenIsNotCommitted(home, cfg, events, k, x);
    }
    j :| k <= j < |events| && FinishesAt(home, cfg, events, j, x.id);
  }
}
