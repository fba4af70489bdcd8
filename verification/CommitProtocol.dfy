// The commit protocol end to end: polls, span handling, sweeps, watchdog ticks and commits in any order,
// each one atomic step. What a committed offset says about the spans below it.
module CommitProtocol {
  import opened Assembly
  import opened AssemblyInvariants
  import opened IndexedHeap
  import opened Options
  import opened TraceBuffer
  import opened Watermark

  /** A Kafka record of the spans topic; a malformed payload has no rows. */
  datatype KafkaRecord = KafkaRecord(partition: int, offset: int, rows: seq<Span>)

  /** pending and committed are the poll loop's maps; queue holds the rows the handler has yet to ingest. */
  datatype Sys = Sys(st: State, pending: map<int, int>, committed: map<int, int>, queue: seq<Span>)

  const INIT := Sys(START, map[], map[], [])

  datatype Event =
    | Poll(batch: seq<KafkaRecord>)
    | Handle(now: int, victim: Option<TraceId>, forced: Outcome, last: Outcome)
    | SweepTick(now: int, popped: seq<Popped>, outcomes: seq<Outcome>)
    | WatchdogTick(now: int, maxAge: int, stale: seq<StaleEntry>)
    | Commit(ok: bool, ceilings: map<int, Option<int>>)

  function RowsOf(batch: seq<KafkaRecord>): seq<Span> {
    if batch == [] then [] else RowsOf(batch[..|batch| - 1]) + batch[|batch| - 1].rows
  }

  /** The highest offset ever fetched per partition. */
  function Noted(pending: map<int, int>, batch: seq<KafkaRecord>): map<int, int> {
    if batch == [] then pending
    else
      var before := Noted(pending, batch[..|batch| - 1]);
      var r := batch[|batch| - 1];
      if r.partition !in before || r.offset > before[r.partition] then before[r.partition := r.offset] else before
  }

  /** The next offset Kafka would redeliver from. */
  function Position(committed: map<int, int>, p: int): int {
    if p in committed then committed[p] else 0
  }

  function CommitOffset(highest: int, ceiling: Option<int>): int {
    if ceiling.Some? && ceiling.value < highest then ceiling.value else highest
  }

  predicate Advances(pending: map<int, int>, committed: map<int, int>, ceilings: map<int, Option<int>>, p: int)
    requires ceilings.Keys == pending.Keys
  {
    && p in pending
    && CommitOffset(pending[p], ceilings[p]) >= 0
    && CommitOffset(pending[p], ceilings[p]) > Position(committed, p) - 1
  }

  function Committed(pending: map<int, int>, committed: map<int, int>, ceilings: map<int, Option<int>>): map<int, int>
    requires ceilings.Keys == pending.Keys
  {
    map p | p in pending.Keys + committed.Keys && (p in committed || Advances(pending, committed, ceilings, p)) ::
      if Advances(pending, committed, ceilings, p) then CommitOffset(pending[p], ceilings[p]) + 1 else committed[p]
  }

  /** Offsets only grow on a partition, and a trace's spans share a partition. */
  ghost predicate Fetchable(home: Home, pending: map<int, int>, batch: seq<KafkaRecord>) {
    && (forall r | r in batch :: r.offset >= 0 && (r.partition in pending ==> r.offset > pending[r.partition]))
    && (forall i, j | 0 <= i < j < |batch| && batch[i].partition == batch[j].partition :: batch[i].offset < batch[j].offset)
    && (forall r, x | r in batch && x in r.rows ::
          x.partition == r.partition && x.offset == r.offset && x.partition == home(x.id))
  }

  ghost predicate Enabled(home: Home, cfg: Config, s: Sys, e: Event) {
    match e
    case Poll(batch) => s.queue == [] && Fetchable(home, s.pending, batch)
    case Handle(now, victim, _, _) => s.queue != [] && VictimOf(cfg, s.st, s.queue[0], now, victim)
    case SweepTick(now, popped, outcomes) => |outcomes| == |popped| && PopsReady(cfg, s.st.buf, now, popped)
    case WatchdogTick(now, maxAge, stale) => StaleOf(s.st, maxAge, now, stale)
    case Commit(_, ceilings) =>
      && s.queue == [] && ceilings.Keys == s.pending.Keys
      && forall p | p in ceilings :: IsSafe(FloorsOf(s.st.floors, p), ceilings[p])
  }

  ghost function Apply(cfg: Config, s: Sys, e: Event): Sys
    requires e.Handle? ==> s.queue != []
    requires e.SweepTick? ==> |e.outcomes| == |e.popped|
    requires e.Commit? ==> e.ceilings.Keys == s.pending.Keys
  {
    match e
    case Poll(batch) => s.(pending := Noted(s.pending, batch), queue := RowsOf(batch))
    case Handle(now, victim, forced, last) =>
      s.(st := Ingest(cfg, s.st, s.queue[0], now, victim, forced, last), queue := s.queue[1..])
    case SweepTick(now, popped, outcomes) => s.(st := Sweep(cfg, s.st, popped, outcomes, now))
    case WatchdogTick(_, _, stale) => s.(st := ExpireAll(s.st, stale))
    case Commit(ok, ceilings) => if ok then s.(committed := Committed(s.pending, s.committed, ceilings)) else s
  }

  /** The state after a run in which every step was possible. */
  ghost function Run(home: Home, cfg: Config, events: seq<Event>): Option<Sys> {
    if events == [] then Some(INIT)
    else
      match Run(home, cfg, events[..|events| - 1])
      case None => None
      case Some(s) =>
        var e := events[|events| - 1];
        if Enabled(home, cfg, s, e) then Some(Apply(cfg, s, e)) else None
  }

  /** All rows fetched during a run, in order. */
  function Delivered(events: seq<Event>): seq<Span> {
    if events == [] then []
    else
      var e := events[|events| - 1];
      Delivered(events[..|events| - 1]) + (if e.Poll? then RowsOf(e.batch) else [])
  }

  // ---- The protocol's own invariant ----

  /** p's committed position and every floor on it, against the rows still to be handled. */
  ghost predicate Ahead(home: Home, s: Sys, x: Span) {
    && x.partition == home(x.id) && x.partition in s.pending && x.offset <= s.pending[x.partition]
    && Position(s.committed, x.partition) <= x.offset
    && forall id | FloorAt(s.st, x.partition, id).Some? :: FloorAt(s.st, x.partition, id).value <= x.offset
  }

  ghost predicate FloorsGuarded(s: Sys) {
    forall p, id | FloorAt(s.st, p, id).Some? ::
      Position(s.committed, p) <= FloorAt(s.st, p, id).value && p in s.pending && FloorAt(s.st, p, id).value <= s.pending[p]
  }

  ghost predicate QueueOrdered(queue: seq<Span>) {
    forall i, j | 0 <= i < j < |queue| && queue[i].partition == queue[j].partition :: queue[i].offset <= queue[j].offset
  }

  ghost predicate CommitsBounded(s: Sys) {
    && (forall p | p in s.pending :: Position(s.committed, p) <= s.pending[p] + 1 && s.pending[p] >= 0)
    && (forall p | p in s.committed :: p in s.pending && s.committed[p] >= 0)
  }

  ghost predicate Guarded(home: Home, s: Sys) {
    && Sound(home, s.st)
    && FloorsGuarded(s)
    && (forall x | x in s.queue :: Ahead(home, s, x))
    && (forall x | x in s.st.log.ingested :: x.partition == home(x.id))
    && QueueOrdered(s.queue)
    && CommitsBounded(s)
  }

  lemma {:induction false} NotedHighest(pending: map<int, int>, batch: seq<KafkaRecord>)
    ensures forall p | p in pending :: p in Noted(pending, batch) && pending[p] <= Noted(pending, batch)[p]
    ensures forall r | r in batch :: r.partition in Noted(pending, batch) && r.offset <= Noted(pending, batch)[r.partition]
    ensures forall p | p in Noted(pending, batch) ::
              (p in pending && Noted(pending, batch)[p] == pending[p])
              || exists r :: r in batch && r.partition == p && r.offset == Noted(pending, batch)[p]
  {
    if batch != [] {
      var n := |batch| - 1;
      NotedHighest(pending, batch[..n]);
      assert batch == batch[..n] + [batch[n]];
      assert batch[n] in batch;
    }
  }

  lemma {:induction false} RowsCome(batch: seq<KafkaRecord>)
    ensures forall x | x in RowsOf(batch) :: exists r :: r in batch && x in r.rows
  {
    if batch != [] {
      var n := |batch| - 1;
      RowsCome(batch[..n]);
      assert batch == batch[..n] + [batch[n]];
    }
  }

  lemma QueueAppend(front: seq<Span>, rows: seq<Span>)
    requires QueueOrdered(front) && forall x, y | x in rows && y in rows :: x.offset == y.offset
    requires forall x, y | x in front && y in rows && x.partition == y.partition :: x.offset <= y.offset
    ensures QueueOrdered(front + rows)
  {
    forall i, j | 0 <= i < j < |front + rows| && (front + rows)[i].partition == (front + rows)[j].partition
      ensures (front + rows)[i].offset <= (front + rows)[j].offset
    {
      if i < |front| <= j {
        assert front[i] in front && rows[j - |front|] in rows;
      }
    }
  }

  lemma LastRecord(home: Home, pending: map<int, int>, batch: seq<KafkaRecord>)
    requires Fetchable(home, pending, batch) && batch != []
    ensures Fetchable(home, pending, batch[..|batch| - 1])
    ensures forall r, x | r in batch && x in r.rows :: x.partition == r.partition && x.offset == r.offset
    ensures var last := batch[|batch| - 1];
            last in batch && forall r | r in batch[..|batch| - 1] :: r in batch && (r.partition == last.partition ==> r.offset < last.offset)
  {
    var n := |batch| - 1;
    forall r | r in batch[..n] ensures r in batch && (r.partition == batch[n].partition ==> r.offset < batch[n].offset) {
      var k :| 0 <= k < n && batch[k] == r;
    }
  }

  lemma {:induction false} RowsOrdered(home: Home, pending: map<int, int>, batch: seq<KafkaRecord>)
    requires Fetchable(home, pending, batch)
    ensures QueueOrdered(RowsOf(batch))
  {
    hide QueueOrdered, Fetchable;
    if batch == [] {
      NothingOrdered();
    } else {
      var n := |batch| - 1;
      LastRecord(home, pending, batch);
      RowsOrdered(home, pending, batch[..n]);
      RowsCome(batch[..n]);
      QueueAppend(RowsOf(batch[..n]), batch[n].rows);
    }
  }

  lemma NothingOrdered()
    ensures QueueOrdered([])
  {
  }

  lemma Polling(home: Home, cfg: Config, s: Sys, batch: seq<KafkaRecord>)
    requires Guarded(home, s) && Enabled(home, cfg, s, Poll(batch))
    ensures Guarded(home, Apply(cfg, s, Poll(batch)))
  {
    hide FloorAt, SoundWith, RowsOf, Noted;
    var t := Apply(cfg, s, Poll(batch));
    NotedHighest(s.pending, batch);
    RowsOrdered(home, s.pending, batch);
    RowsCome(batch);
    forall x | x in t.queue ensures Ahead(home, t, x) {
      var r :| r in batch && x in r.rows;
    }
  }

  lemma Handling(home: Home, cfg: Config, s: Sys, e: Event)
    requires Guarded(home, s) && e.Handle? && Enabled(home, cfg, s, e)
    ensures Guarded(home, Apply(cfg, s, e))
    ensures Apply(cfg, s, e).st.log.ingested == s.st.log.ingested + [s.queue[0]]
  {
    hide FloorAt, SoundWith, Ingest;
    var x := s.queue[0];
    assert Ahead(home, s, x);
    Ingesting(home, cfg, s.st, x, e.now, e.victim, e.forced, e.last);
    var t := Apply(cfg, s, e);
    forall y | y in t.queue ensures Ahead(home, t, y) {
      assert Ahead(home, s, y);
      var k :| 1 <= k < |s.queue| && s.queue[k] == y;
    }
  }

  lemma Releasing(home: Home, s: Sys, t: State)
    requires Guarded(home, s) && Sound(home, t) && OnlyReleases(s.st, t)
    ensures Guarded(home, s.(st := t))
  {
    hide FloorAt, SoundWith;
    forall x | x in s.queue ensures Ahead(home, s.(st := t), x) {
      assert Ahead(home, s, x);
    }
  }

  /** A commit moves a position exactly to the lowest floor, or past everything fetched when there is none. */
  lemma CommitReaches(home: Home, cfg: Config, s: Sys, ceilings: map<int, Option<int>>, p: int)
    requires Guarded(home, s) && Enabled(home, cfg, s, Commit(true, ceilings)) && p in s.pending
    ensures var position := Position(Apply(cfg, s, Commit(true, ceilings)).committed, p);
            && (FloorsOf(s.st.floors, p) == map[] ==> position == s.pending[p] + 1)
            && (forall id | FloorAt(s.st, p, id).Some? :: position <= FloorAt(s.st, p, id).value)
            && (FloorsOf(s.st.floors, p) != map[] ==> exists id :: FloorAt(s.st, p, id) == Some(position))
  {
    hide SoundWith;
    var floors, c := FloorsOf(s.st.floors, p), ceilings[p];
    assert IsSafe(floors, c);
    if c.Some? {
      var id :| id in floors && floors[id].offset == c.value + 1;
      var position := Position(Apply(cfg, s, Commit(true, ceilings)).committed, p);
      assert FloorAt(s.st, p, id) == Some(c.value + 1);
      assert CommitOffset(s.pending[p], c) == c.value;
      assert position == c.value + 1;
    }
  }

  lemma Committing(home: Home, cfg: Config, s: Sys, ok: bool, ceilings: map<int, Option<int>>)
    requires Guarded(home, s) && Enabled(home, cfg, s, Commit(ok, ceilings))
    ensures Guarded(home, Apply(cfg, s, Commit(ok, ceilings)))
  {
    hide FloorAt, SoundWith, Committed, FloorsOf, IsSafe;
    if ok {
      var t := Apply(cfg, s, Commit(true, ceilings));
      CommittedKeys(s.pending, s.committed, ceilings);
      forall p, id | FloorAt(t.st, p, id).Some?
        ensures Position(t.committed, p) <= FloorAt(t.st, p, id).value && p in t.pending && FloorAt(t.st, p, id).value <= t.pending[p]
      {
        assert FloorAt(s.st, p, id).Some?;
        CommitReaches(home, cfg, s, ceilings, p);
      }
      forall p | p in t.pending ensures Position(t.committed, p) <= t.pending[p] + 1 {
        CommittedAtMost(s.pending, s.committed, ceilings, p);
      }
    }
  }

  lemma CommittedKeys(pending: map<int, int>, committed: map<int, int>, ceilings: map<int, Option<int>>)
    requires ceilings.Keys == pending.Keys && forall p | p in committed :: p in pending && committed[p] >= 0
    ensures forall p | p in Committed(pending, committed, ceilings) ::
              p in pending && Committed(pending, committed, ceilings)[p] >= 0
  {
  }

  /** Positions never move back, and never past what was fetched. */
  lemma CommittedAtMost(pending: map<int, int>, committed: map<int, int>, ceilings: map<int, Option<int>>, p: int)
    requires ceilings.Keys == pending.Keys && p in pending
    ensures Position(committed, p) <= Position(Committed(pending, committed, ceilings), p)
    ensures Position(committed, p) <= pending[p] + 1 ==> Position(Committed(pending, committed, ceilings), p) <= pending[p] + 1
  {
  }

  // ---- Runs ----

  lemma Stepping(home: Home, cfg: Config, s: Sys, e: Event)
    requires Guarded(home, s) && Enabled(home, cfg, s, e)
    ensures Guarded(home, Apply(cfg, s, e))
    ensures Apply(cfg, s, e).st.log.ingested + Apply(cfg, s, e).queue ==
            (s.st.log.ingested + s.queue) + (if e.Poll? then RowsOf(e.batch) else [])
  {
    hide Guarded, Sound, OnlyReleases, RowsOf, Noted, Ingest, Sweep, ExpireAll, Fetchable, StaleOf, PopsReady, VictimOf;
    GuardedSound(home, s);
    match e {
      case Poll(batch) => Polling(home, cfg, s, batch);
      case Handle(_, _, _, _) =>
        Handling(home, cfg, s, e);
        assert s.queue == [s.queue[0]] + s.queue[1..];
      case SweepTick(now, popped, outcomes) =>
        TakesReady(cfg, s.st.buf, now, popped);
        Sweeping(home, cfg, s.st, popped, outcomes, now);
        Releasing(home, s, Sweep(cfg, s.st, popped, outcomes, now));
        ReleasesKeepIngested(s.st, Sweep(cfg, s.st, popped, outcomes, now));
      case WatchdogTick(now, maxAge, stale) =>
        Watching(home, s.st, maxAge, now, stale);
        Releasing(home, s, ExpireAll(s.st, stale));
        ReleasesKeepIngested(s.st, ExpireAll(s.st, stale));
      case Commit(ok, ceilings) => Committing(home, cfg, s, ok, ceilings);
    }
  }

  lemma GuardedSound(home: Home, s: Sys)
    requires Guarded(home, s)
    ensures Sound(home, s.st)
  {
  }

  lemma TakesReady(cfg: Config, b: Buf, now: int, popped: seq<Popped>)
    requires PopsReady(cfg, b, now, popped)
    ensures TakesOldest(b, popped)
  {
  }

  lemma ReleasesKeepIngested(st: State, t: State)
    requires OnlyReleases(st, t)
    ensures t.log.ingested == st.log.ingested
  {
  }

  lemma Starting(home: Home)
    ensures Guarded(home, INIT)
  {
  }

  /** In every run the invariant holds, and what was fetched is what was ingested plus what is still queued. */
  lemma {:induction false} RunGuarded(home: Home, cfg: Config, events: seq<Event>)
    requires Run(home, cfg, events).Some?
    ensures Guarded(home, Run(home, cfg, events).value)
    ensures var s := Run(home, cfg, events).value; Delivered(events) == s.st.log.ingested + s.queue
  {
    hide Guarded, Apply, Enabled, RowsOf;
    if events == [] {
      Starting(home);
    } else {
      var n := |events| - 1;
      RunGuarded(home, cfg, events[..n]);
      Stepping(home, cfg, Run(home, cfg, events[..n]).value, events[n]);
    }
  }

  // ---- What a committed position means ----

  /** x's write was confirmed, or x belongs to a trace decided Drop. */
  ghost predicate Confirmed(log: Log, x: Span) {
    || (exists e :: e in log.emissions && e.ok && x in e.spans)
    || (exists a :: a in log.attached && a.ok && a.span == x)
    || x in log.lateDropped
  }

  lemma {:induction false} EmittedSomewhere(es: seq<Emission>, x: Span)
    ensures x in SpansOf(es) <==> exists e :: e in es && x in e.spans
  {
    if es != [] {
      var n := |es| - 1;
      EmittedSomewhere(es[..n], x);
      assert es == es[..n] + [es[n]];
    }
  }

  /** Every ingested span is buffered, confirmed, or was handed out without success. */
  lemma Accounted(home: Home, st: State, x: Span)
    requires Sound(home, st)
    ensures x in st.log.ingested ==>
              (x.id in st.buf.inflight && x in st.buf.inflight[x.id].spans) || Confirmed(st.log, x) || Unsettled(st.log, x)
    ensures x.id in st.buf.inflight && x in st.buf.inflight[x.id].spans ==> x in st.log.ingested
  {
    hide FloorAt, IndexAgrees, BufferFloored, UnsettledFloored, FloorsNeeded, CacheFaithful;
    EmittedSomewhere(st.log.emissions, x);
    assert multiset(st.log.ingested)[x] == Held(st.buf, x) + Handed(st.log, x) + multiset([])[x];
    if x in AttachedOf(st.log.attached) {
      var k :| 0 <= k < |st.log.attached| && AttachedOf(st.log.attached)[k] == x;
      assert st.log.attached[k] in st.log.attached;
    }
  }

  lemma BufferedAbove(home: Home, s: Sys, x: Span)
    requires Guarded(home, s) && x.id in s.st.buf.inflight && x in s.st.buf.inflight[x.id].spans
    ensures Position(s.committed, x.partition) <= x.offset
  {
    hide UnsettledFloored, FloorsNeeded, CacheFaithful, Conserved, FloorAt;
    Accounted(home, s.st, x);
    assert Floored(home, s.st, x);
  }

  /** No span still in the buffer lies below its partition's committed position, in any run. */
  lemma NoBufferedSpanIsCommitted(home: Home, cfg: Config, events: seq<Event>)
    requires Run(home, cfg, events).Some?
    ensures var s := Run(home, cfg, events).value;
            forall id, x | id in s.st.buf.inflight && x in s.st.buf.inflight[id].spans ::
              Position(s.committed, x.partition) <= x.offset
  {
    hide Guarded, Run;
    var s := Run(home, cfg, events).value;
    RunGuarded(home, cfg, events);
    forall id, x | id in s.st.buf.inflight && x in s.st.buf.inflight[id].spans
      ensures Position(s.committed, x.partition) <= x.offset
    {
      BufferedUnder(home, s, id, x);
      BufferedAbove(home, s, x);
    }
  }

  lemma BufferedUnder(home: Home, s: Sys, id: TraceId, x: Span)
    requires Guarded(home, s) && id in s.st.buf.inflight && x in s.st.buf.inflight[id].spans
    ensures x.id == id
  {
  }

  lemma SettledBelow(home: Home, s: Sys, x: Span)
    requires Guarded(home, s) && x in s.st.log.ingested && x.offset < Position(s.committed, x.partition)
    ensures Confirmed(s.st.log, x) || x.id in s.st.released
  {
    hide BufferFloored, FloorsNeeded, CacheFaithful, Conserved, FloorAt, Unsettled, Confirmed;
    Accounted(home, s.st, x);
    assert Unsettled(s.st.log, x) ==> x.id in s.st.released || Floored(home, s.st, x);
    if x.id in s.st.buf.inflight && x in s.st.buf.inflight[x.id].spans {
      BufferedAbove(home, s, x);
    }
  }

  // In every run, a fetched span below its partition's committed position had its write confirmed or belongs to a
  // dropped trace, unless the floor of its trace was given up while a span of that trace was unwritten.
  lemma CommittedIsSettled(home: Home, cfg: Config, events: seq<Event>, x: Span)
    requires Run(home, cfg, events).Some? && x in Delivered(events)
    requires x.offset < Position(Run(home, cfg, events).value.committed, x.partition)
    ensures var s := Run(home, cfg, events).value; Confirmed(s.st.log, x) || x.id in s.st.released
  {
    hide Run, Delivered, Sound;
    var s := Run(home, cfg, events).value;
    RunGuarded(home, cfg, events);
    assert x in s.queue ==> Ahead(home, s, x);
    SettledBelow(home, s, x);
  }
}
