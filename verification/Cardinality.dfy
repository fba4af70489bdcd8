/** HyperLogLog sketches as functions of the set of values added, and the tracker that keeps one per attribute key. */
module Cardinality {
  import opened Options

  const REGISTERS := 16384
  const TOP_SHIFT := 0x4_0000_0000_0000
  const WORD := 0x1_0000_0000_0000_0000
  const MAX_RANK := 51
  const MAX_TRACKED_KEYS := 10_000

  /** The 64-bit hash of a value; how it mixes bits is not modelled. */
  type Hash = string -> nat

  type Registers = seq<nat>

  /** Estimate as a function of the registers alone. */
  type Estimator = Registers -> real

  function Power(n: nat): nat {
    if n == 0 then 1 else 2 * Power(n - 1)
  }

  /** Leading zeros of x written in n bits. */
  function LeadingZeros(x: nat, n: nat): (z: nat)
    ensures z <= n
  {
    if n == 0 || x >= Power(n - 1) then 0 else 1 + LeadingZeros(x, n - 1)
  }

  /** The top 14 bits pick the register. */
  function Register(x: nat): nat {
    x / TOP_SHIFT
  }

  /** The other 50 bits, shifted up, give the run of zeros; an all-zero tail is capped. */
  function Rank(x: nat): (rho: nat)
    ensures 1 <= rho <= MAX_RANK
  {
    var rho := LeadingZeros((x * REGISTERS) % WORD, 64) + 1;
    if rho > MAX_RANK then MAX_RANK else rho
  }

  const TAIL := 0x4_0000_0000_0000

  lemma {:induction false} PowerAdds(m: nat, n: nat)
    ensures Power(m + n) == Power(m) * Power(n)
  {
    if n > 0 {
      PowerAdds(m, n - 1);
    }
  }

  lemma {:induction false} PowerGrows(m: nat, n: nat)
    requires m <= n
    ensures Power(m) <= Power(n) && Power(m) > 0
  {
    if n > m {
      PowerGrows(m, n - 1);
    } else if m > 0 {
      PowerGrows(m - 1, m - 1);
    }
  }

  /** Leading zeros say between which powers of two a number lies. */
  lemma {:induction false} LeadingZerosIs(x: nat, n: nat)
    requires x < Power(n)
    ensures var z := LeadingZeros(x, n); if x == 0 then z == n else z < n && Power(n - 1 - z) <= x < Power(n - z)
  {
    if n > 0 && x < Power(n - 1) {
      LeadingZerosIs(x, n - 1);
      PowerGrows(0, n - 1);
    } else if n > 0 {
      PowerGrows(0, n - 1);
    }
  }

  lemma PowersAre()
    ensures Power(14) == REGISTERS && Power(50) == TAIL == TOP_SHIFT && Power(64) == WORD
  {
    assert Power(10) == 1024;
    PowerAdds(10, 4);
    PowerAdds(14, 14);
    PowerAdds(28, 22);
    PowerAdds(14, 8);
    PowerAdds(50, 14);
  }

  lemma ShiftedTail(x: nat)
    requires x < WORD
    ensures (x * REGISTERS) % WORD == (x % TAIL) * REGISTERS
  {
    assert x == (x / TAIL) * TAIL + x % TAIL;
    assert x * REGISTERS == (x / TAIL) * WORD + (x % TAIL) * REGISTERS;
    assert (x % TAIL) * REGISTERS < WORD;
  }

  // A 64-bit hash is its register, the top 14 bits, above a tail of 50 bits; the rank says where the tail's first one stands, and
  // is 51 if it has none.
  lemma RankIsFirstOne(x: nat)
    requires x < WORD
    ensures Register(x) < REGISTERS && x == Register(x) * TAIL + x % TAIL
    ensures x % TAIL == 0 ==> Rank(x) == 51
    ensures x % TAIL > 0 ==> Rank(x) <= 50 && Power(50 - Rank(x)) <= x % TAIL < Power(51 - Rank(x))
  {
    hide Power;
    var low := x % TAIL;
    PowersAre();
    ShiftedTail(x);
    var z := LeadingZeros(low * REGISTERS, 64);
    LeadingZerosIs(low * REGISTERS, 64);
    if low > 0 {
      RankOfTail(low, z);
    }
  }

  lemma RankOfTail(low: nat, z: nat)
    requires low > 0 && z < 64 && Power(63 - z) <= low * REGISTERS < Power(64 - z)
    ensures z <= 49 && Power(49 - z) <= low < Power(50 - z)
  {
    hide Power;
    PowersAre();
    if z > 49 {
      PowerGrows(64 - z, 14);
    } else {
      PowerAdds(49 - z, 14);
      PowerAdds(50 - z, 14);
      assert Power(49 - z) * REGISTERS <= low * REGISTERS < Power(50 - z) * REGISTERS;
    }
  }

  function Empty(): Registers {
    seq(REGISTERS, _ => 0)
  }

  // ---- A sketch is a function of a set ----

  /** Value v lands in register i with rank r. */
  ghost predicate Hits(hash: Hash, v: string, i: nat, r: nat) {
    Register(hash(v)) == i && Rank(hash(v)) == r
  }

  /** Register i holds the highest rank of the values landing there, 0 if none does. */
  ghost predicate Holds(hash: Hash, values: set<string>, i: nat, r: nat) {
    && (forall v | v in values && Register(hash(v)) == i :: Rank(hash(v)) <= r)
    && (r > 0 ==> exists v :: v in values && Hits(hash, v, i, r))
  }

  ghost predicate SketchOf(hash: Hash, values: set<string>, regs: Registers) {
    |regs| == REGISTERS && forall i | 0 <= i < REGISTERS :: Holds(hash, values, i, regs[i])
  }

  lemma HoldsUnique(hash: Hash, values: set<string>, i: nat, r: nat, q: nat)
    requires Holds(hash, values, i, r) && Holds(hash, values, i, q)
    ensures r == q
  {
    if r > 0 {
      var v :| v in values && Hits(hash, v, i, r);
    }
    if q > 0 {
      var v :| v in values && Hits(hash, v, i, q);
    }
  }

  /** Whatever the order and the repeats, the values added decide the registers. */
  lemma SketchUnique(hash: Hash, values: set<string>, a: Registers, b: Registers)
    requires SketchOf(hash, values, a) && SketchOf(hash, values, b)
    ensures a == b
  {
    hide Holds;
    forall i | 0 <= i < REGISTERS ensures a[i] == b[i] {
      assert Holds(hash, values, i, a[i]) && Holds(hash, values, i, b[i]);
      HoldsUnique(hash, values, i, a[i], b[i]);
    }
  }

  lemma EmptySketch(hash: Hash)
    ensures SketchOf(hash, {}, Empty())
  {
  }

  function Added(hash: Hash, regs: Registers, value: string): Registers
    requires |regs| == REGISTERS && hash(value) < WORD
  {
    var i, rho := Register(hash(value)), Rank(hash(value));
    if rho > regs[i] then regs[i := rho] else regs
  }

  lemma RegisterInRange(x: nat)
    requires x < WORD
    ensures Register(x) < REGISTERS
  {
  }

  lemma Adding(hash: Hash, values: set<string>, regs: Registers, value: string)
    requires SketchOf(hash, values, regs) && hash(value) < WORD
    ensures SketchOf(hash, values + {value}, Added(hash, regs, value))
  {
    hide Rank, Register;
    RegisterInRange(hash(value));
    var new_ := Added(hash, regs, value);
    forall i | 0 <= i < REGISTERS ensures Holds(hash, values + {value}, i, new_[i]) {
      assert Holds(hash, values, i, regs[i]);
      if new_[i] != regs[i] {
        assert Hits(hash, value, i, new_[i]);
      } else if regs[i] > 0 {
        var v :| v in values && Hits(hash, v, i, regs[i]);
        assert v in values + {value};
      }
    }
  }

  function Max(a: nat, b: nat): nat {
    if b > a then b else a
  }

  function Merged(a: Registers, b: Registers): Registers
    requires |a| == |b| == REGISTERS
  {
    seq(REGISTERS, i requires 0 <= i < REGISTERS => Max(a[i], b[i]))
  }

  lemma HoldsMax(hash: Hash, p: set<string>, q: set<string>, i: nat, a: nat, b: nat)
    requires Holds(hash, p, i, a) && Holds(hash, q, i, b)
    ensures Holds(hash, p + q, i, Max(a, b))
  {
    if b > a {
      var v :| v in q && Hits(hash, v, i, b);
      assert v in p + q;
    } else if a > 0 {
      var v :| v in p && Hits(hash, v, i, a);
      assert v in p + q;
    }
  }

  /** Merging the sketches of two sets gives the sketch of their union. */
  lemma Merging(hash: Hash, p: set<string>, q: set<string>, a: Registers, b: Registers)
    requires SketchOf(hash, p, a) && SketchOf(hash, q, b)
    ensures SketchOf(hash, p + q, Merged(a, b))
  {
    hide Holds;
    forall i | 0 <= i < REGISTERS ensures Holds(hash, p + q, i, Merged(a, b)[i]) {
      HoldsMax(hash, p, q, i, a[i], b[i]);
    }
  }

  /** The sketch itself, with the values it has seen. */
  class HyperLogLog {
    const registers: array<nat>
    ghost var seen: set<string>

    ghost predicate Valid(hash: Hash)
      reads this, registers
    {
      registers.Length == REGISTERS && SketchOf(hash, seen, registers[..])
    }

    constructor (ghost hash: Hash)
      ensures Valid(hash) && fresh(registers) && seen == {} && registers[..] == Empty()
    {
      registers := new nat[REGISTERS](_ => 0);
      seen := {};
      new;
      assert registers[..] == Empty();
      EmptySketch(hash);
    }

    /** Add reports true exactly when a register moved. */
    method Add(hash: Hash, value: string) returns (moved: bool)
      requires Valid(hash) && hash(value) < WORD
      modifies this, registers
      ensures Valid(hash) && seen == old(seen) + {value}
      ensures registers[..] == Added(hash, old(registers[..]), value)
      ensures moved <==> registers[..] != old(registers[..])
    {
      hide Rank, Register, Holds;
      Adding(hash, seen, registers[..], value);
      RegisterInRange(hash(value));
      var idx, rho := Register(hash(value)), Rank(hash(value));
      seen := seen + {value};
      if rho > registers[idx] {
        registers[idx] := rho;
        assert registers[..] == old(registers[..])[idx := rho];
        assert registers[..][idx] != old(registers[..])[idx];
        return true;
      }
      moved := false;
    }

    method Merge(ghost hash: Hash, other: HyperLogLog) returns (changed: bool)
      requires Valid(hash) && other.Valid(hash) && other.registers != registers
      modifies this, registers
      ensures Valid(hash) && seen == old(seen) + other.seen
      ensures registers[..] == Merged(old(registers[..]), other.registers[..])
      ensures changed <==> registers[..] != old(registers[..])
    {
      hide SketchOf;
      Merging(hash, seen, other.seen, registers[..], other.registers[..]);
      seen := seen + other.seen;
      changed := false;
      for i := 0 to REGISTERS
        invariant seen == old(seen) + other.seen
        invariant forall j | 0 <= j < i :: registers[j] == Max(old(registers[j]), other.registers[j])
        invariant forall j | i <= j < REGISTERS :: registers[j] == old(registers[j])
        invariant changed <==> exists j :: 0 <= j < i && registers[j] != old(registers[j])
      {
        if other.registers[i] > registers[i] {
          registers[i] := other.registers[i];
          changed := true;
        }
      }
      assert registers[..] == Merged(old(registers[..]), other.registers[..]);
      if changed {
        ghost var j :| 0 <= j < REGISTERS && registers[j] != old(registers[j]);
        assert registers[..][j] != old(registers[..])[j];
      } else {
        assert registers[..] == old(registers[..]);
      }
    }
  }

  // ---- The tracker ----

  datatype Tracked = Tracked(registers: Registers, estimate: real, lruGen: nat)

  datatype Tracker = Tracker(sketches: map<string, Tracked>, nextGen: nat)

  const UNTRACKED := Tracker(map[], 0)

  ghost predicate Oldest(t: Tracker, key: string) {
    key in t.sketches && forall k | k in t.sketches :: t.sketches[key].lruGen <= t.sketches[k].lruGen
  }

  /** evictLRULocked: the empty key reads as "none found", so it is never the one to go. */
  function Evicted(t: Tracker, oldest: string): Tracker {
    if oldest == "" then t else t.(sketches := t.sketches - {oldest})
  }

  predicate Full(t: Tracker, key: string) {
    key !in t.sketches && |t.sketches| >= MAX_TRACKED_KEYS
  }

  /** Room for the key, and an empty sketch if it has none. */
  function Opened(t: Tracker, key: string, oldest: string): Tracker {
    if key in t.sketches then t
    else
      var r := if |t.sketches| >= MAX_TRACKED_KEYS then Evicted(t, oldest) else t;
      r.(sketches := r.sketches[key := Tracked(Empty(), 0.0, 0)])
  }

  /** Stamp a tracked key and add the value; the estimate is recomputed only when a register moved. */
  function Noted(hash: Hash, estimate: Estimator, t: Tracker, key: string, value: string): Tracker
    requires key in t.sketches && |t.sketches[key].registers| == REGISTERS && hash(value) < WORD
  {
    var before := t.sketches[key];
    var regs := Added(hash, before.registers, value);
    Tracker(t.sketches[key :=
              Tracked(regs, if regs != before.registers then estimate(regs) else before.estimate, t.nextGen + 1)],
            t.nextGen + 1)
  }

  /** Observe */
  function Observed(hash: Hash, estimate: Estimator, t: Tracker, key: string, value: string, oldest: string): Tracker
    requires WellSized(t) && hash(value) < WORD
  {
    Noted(hash, estimate, Opened(t, key, oldest), key, value)
  }

  predicate WellSized(t: Tracker) {
    forall k | k in t.sketches :: |t.sketches[k].registers| == REGISTERS
  }

  ghost predicate Stamped(t: Tracker) {
    && (forall k | k in t.sketches :: t.sketches[k].lruGen <= t.nextGen)
    && (forall j, k | j in t.sketches && k in t.sketches && t.sketches[j].lruGen == t.sketches[k].lruGen :: j == k)
  }

  /** The cached estimate is the estimate of the current registers. */
  ghost predicate CacheExact(estimate: Estimator, t: Tracker) {
    forall k | k in t.sketches :: t.sketches[k].estimate == estimate(t.sketches[k].registers)
  }

  /** values: what was observed for each key since its sketch was last opened. */
  ghost predicate Sketched(hash: Hash, t: Tracker, values: map<string, set<string>>) {
    && values.Keys == t.sketches.Keys
    && forall k | k in t.sketches :: SketchOf(hash, values[k], t.sketches[k].registers)
  }

  function ValuesOpened(t: Tracker, values: map<string, set<string>>, key: string, oldest: string)
    : map<string, set<string>>
    requires values.Keys == t.sketches.Keys
  {
    if key in values then values
    else (if |t.sketches| >= MAX_TRACKED_KEYS && oldest != "" then values - {oldest} else values)[key := {}]
  }

  lemma Opening(hash: Hash, estimate: Estimator, t: Tracker, values: map<string, set<string>>, key: string, oldest: string)
    requires WellSized(t) && CacheExact(estimate, t) && Sketched(hash, t, values) && estimate(Empty()) == 0.0
    ensures var o := Opened(t, key, oldest);
            && key in o.sketches && WellSized(o) && CacheExact(estimate, o)
            && Sketched(hash, o, ValuesOpened(t, values, key, oldest))
  {
    hide SketchOf;
    EmptySketch(hash);
  }

  lemma Noting(hash: Hash, estimate: Estimator, t: Tracker, values: map<string, set<string>>, key: string, value: string)
    requires WellSized(t) && CacheExact(estimate, t) && Sketched(hash, t, values) && hash(value) < WORD && key in t.sketches
    ensures var u := Noted(hash, estimate, t, key, value);
            WellSized(u) && CacheExact(estimate, u) && Sketched(hash, u, values[key := values[key] + {value}])
  {
    hide SketchOf, Added;
    AddedSized(hash, t.sketches[key].registers, value);
    Adding(hash, values[key], t.sketches[key].registers, value);
  }

  /** Every observation keeps the cache exact and each sketch a function of the values behind it. */
  lemma Observing(
    hash: Hash, estimate: Estimator, t: Tracker, values: map<string, set<string>>, key: string, value: string, oldest: string)
    returns (after: map<string, set<string>>)
    requires WellSized(t) && CacheExact(estimate, t) && Sketched(hash, t, values) && hash(value) < WORD
    requires estimate(Empty()) == 0.0
    ensures var u := Observed(hash, estimate, t, key, value, oldest);
            && WellSized(u) && CacheExact(estimate, u) && Sketched(hash, u, after)
            && key in after && after[key] == (if key in values then values[key] else {}) + {value}
            && forall k | k in after && k != key :: k in values && after[k] == values[k]
  {
    hide Sketched, WellSized, CacheExact, Noted, Opened, Empty;
    Opening(hash, estimate, t, values, key, oldest);
    SketchedKeys(hash, t, values);
    var opened_ := ValuesOpened(t, values, key, oldest);
    SketchedKeys(hash, Opened(t, key, oldest), opened_);
    Noting(hash, estimate, Opened(t, key, oldest), opened_, key, value);
    after := opened_[key := opened_[key] + {value}];
  }

  lemma SketchedKeys(hash: Hash, t: Tracker, values: map<string, set<string>>)
    requires Sketched(hash, t, values)
    ensures values.Keys == t.sketches.Keys
  {
  }

  lemma AddedSized(hash: Hash, regs: Registers, value: string)
    requires |regs| == REGISTERS && hash(value) < WORD
    ensures |Added(hash, regs, value)| == REGISTERS
  {
  }

  /** The key cap holds after an observation exactly unless a new key met a full tracker whose oldest key is empty. */
  lemma CapKeptExactly(hash: Hash, estimate: Estimator, t: Tracker, key: string, value: string, oldest: string)
    requires WellSized(t) && hash(value) < WORD && |t.sketches| <= MAX_TRACKED_KEYS
    requires Full(t, key) ==> Oldest(t, oldest)
    ensures |Observed(hash, estimate, t, key, value, oldest).sketches| <= MAX_TRACKED_KEYS <==> !(Full(t, key) && oldest == "")
  {
    hide Added;
    var o := Opened(t, key, oldest);
    var u := Observed(hash, estimate, t, key, value, oldest);
    assert u.sketches.Keys == o.sketches.Keys && |u.sketches| == |u.sketches.Keys|;
    if key !in t.sketches {
      var r := if |t.sketches| >= MAX_TRACKED_KEYS then Evicted(t, oldest) else t;
      assert o.sketches.Keys == r.sketches.Keys + {key};
      assert |r.sketches| == |r.sketches.Keys| && |t.sketches| == |t.sketches.Keys|;
      if Full(t, key) && oldest != "" {
        assert r.sketches.Keys == t.sketches.Keys - {oldest};
      }
    } else {
      assert o.sketches.Keys == t.sketches.Keys;
    }
  }

  /** An observation leaves every sketch whole and every stamp its own, so another may follow. */
  lemma ObservedStamped(hash: Hash, estimate: Estimator, t: Tracker, key: string, value: string, oldest: string)
    requires WellSized(t) && Stamped(t) && hash(value) < WORD
    ensures var u := Observed(hash, estimate, t, key, value, oldest);
            WellSized(u) && Stamped(u) && u.nextGen == t.nextGen + 1 && key in u.sketches
  {
    hide Added, Empty, Opened;
    OpenedStamps(t, key, oldest);
    AddedSized(hash, Opened(t, key, oldest).sketches[key].registers, value);
    var u := Observed(hash, estimate, t, key, value, oldest);
    assert forall k | k in u.sketches && k != key :: k in t.sketches && u.sketches[k] == t.sketches[k];
  }

  lemma OpenedStamps(t: Tracker, key: string, oldest: string)
    requires WellSized(t)
    ensures var o := Opened(t, key, oldest);
            && WellSized(o) && key in o.sketches && o.nextGen == t.nextGen
            && forall k | k in o.sketches && k != key :: k in t.sketches && o.sketches[k] == t.sketches[k]
  {
    hide Empty;
    EmptySized();
  }

  lemma EmptySized()
    ensures |Empty()| == REGISTERS
  {
  }

  // ---- Runs of observations ----

  /** One call of Observe; oldest is what the eviction loop would pick. */
  datatype Observation = Observation(key: string, value: string, oldest: string)

  ghost predicate Hashable(hash: Hash, obs: seq<Observation>) {
    forall o | o in obs :: hash(o.value) < WORD
  }

  ghost function ObservedRun(hash: Hash, estimate: Estimator, obs: seq<Observation>): (t: Tracker)
    requires Hashable(hash, obs)
    ensures WellSized(t) && Stamped(t)
  {
    if obs == [] then UNTRACKED
    else
      var n := |obs| - 1;
      assert forall o | o in obs[..n] :: o in obs;
      var t := ObservedRun(hash, estimate, obs[..n]);
      ObservedStamped(hash, estimate, t, obs[n].key, obs[n].value, obs[n].oldest);
      Observed(hash, estimate, t, obs[n].key, obs[n].value, obs[n].oldest)
  }

  lemma HashableFront(hash: Hash, obs: seq<Observation>, k: nat)
    requires Hashable(hash, obs) && k <= |obs|
    ensures Hashable(hash, obs[..k])
  {
  }

  ghost function TrackerAt(hash: Hash, estimate: Estimator, obs: seq<Observation>, k: nat): Tracker
    requires Hashable(hash, obs) && k <= |obs|
  {
    HashableFront(hash, obs, k);
    ObservedRun(hash, estimate, obs[..k])
  }

  /** Whenever the tracker is full, what is evicted is an oldest key. */
  ghost predicate PicksOldest(hash: Hash, estimate: Estimator, obs: seq<Observation>)
    requires Hashable(hash, obs)
  {
    forall k | 0 <= k < |obs| ::
      Full(TrackerAt(hash, estimate, obs, k), obs[k].key) ==> Oldest(TrackerAt(hash, estimate, obs, k), obs[k].oldest)
  }

  ghost predicate WithinCap(hash: Hash, estimate: Estimator, obs: seq<Observation>)
    requires Hashable(hash, obs)
  {
    forall k | 0 <= k <= |obs| :: WithinCapAt(hash, estimate, obs, k)
  }

  ghost predicate WithinCapAt(hash: Hash, estimate: Estimator, obs: seq<Observation>, k: nat)
    requires Hashable(hash, obs) && k <= |obs|
  {
    |TrackerAt(hash, estimate, obs, k).sketches| <= MAX_TRACKED_KEYS
  }

  /** A new key meets a full tracker whose oldest key is the empty one. */
  ghost predicate Stuck(hash: Hash, estimate: Estimator, obs: seq<Observation>, k: nat)
    requires Hashable(hash, obs) && k < |obs|
  {
    Full(TrackerAt(hash, estimate, obs, k), obs[k].key) && obs[k].oldest == ""
  }

  lemma TrackerNext(hash: Hash, estimate: Estimator, obs: seq<Observation>, k: nat)
    requires Hashable(hash, obs) && k < |obs|
    ensures hash(obs[k].value) < WORD && WellSized(TrackerAt(hash, estimate, obs, k))
    ensures TrackerAt(hash, estimate, obs, k + 1) ==
            Observed(hash, estimate, TrackerAt(hash, estimate, obs, k), obs[k].key, obs[k].value, obs[k].oldest)
  {
    hide Observed;
    assert obs[..k + 1][..k] == obs[..k] && obs[k] in obs;
  }

  /** The values observed for the key from the j-th call on, before the n-th. */
  ghost function Since(obs: seq<Observation>, j: nat, n: nat, key: string): set<string>
    requires n <= |obs|
  {
    set i | j <= i < n && obs[i].key == key :: obs[i].value
  }

  /** The j-th call opened the key, which has been tracked ever since. */
  ghost predicate TrackedSince(hash: Hash, estimate: Estimator, obs: seq<Observation>, j: nat, n: nat, key: string)
    requires Hashable(hash, obs) && n <= |obs|
  {
    && j < n && obs[j].key == key && key !in TrackerAt(hash, estimate, obs, j).sketches
    && forall i | j < i <= n :: key in TrackerAt(hash, estimate, obs, i).sketches
  }

  /** The record is that of exactly these values, and its cached estimate is up to date. */
  ghost predicate RecordOf(hash: Hash, estimate: Estimator, values: set<string>, record: Tracked) {
    SketchOf(hash, values, record.registers) && record.estimate == estimate(record.registers)
  }

  lemma RecordGrows(
    hash: Hash, estimate: Estimator, t: Tracker, values: set<string>, key: string, value: string, oldest: string)
    requires WellSized(t) && hash(value) < WORD && estimate(Empty()) == 0.0
    requires if key in t.sketches then RecordOf(hash, estimate, values, t.sketches[key]) else values == {}
    ensures var u := Observed(hash, estimate, t, key, value, oldest);
            key in u.sketches && RecordOf(hash, estimate, values + {value}, u.sketches[key])
  {
    hide SketchOf, Added, Empty;
    EmptySized();
    EmptySketch(hash);
    var before := Opened(t, key, oldest).sketches[key];
    assert SketchOf(hash, values, before.registers);
    Adding(hash, values, before.registers, value);
  }

  lemma OthersStay(hash: Hash, estimate: Estimator, t: Tracker, key: string, value: string, oldest: string, other: string)
    requires WellSized(t) && hash(value) < WORD && other != key
    requires other in Observed(hash, estimate, t, key, value, oldest).sketches
    ensures other in t.sketches && Observed(hash, estimate, t, key, value, oldest).sketches[other] == t.sketches[other]
  {
    hide Added, Opened;
    OpenedStamps(t, key, oldest);
  }

  lemma SinceNext(obs: seq<Observation>, j: nat, n: nat, key: string)
    requires j <= n < |obs|
    ensures Since(obs, j, n + 1, key) ==
            if obs[n].key == key then Since(obs, j, n, key) + {obs[n].value} else Since(obs, j, n, key)
  {
  }

  // At every moment of every run, a tracked key was opened by one call and stayed since; its registers are the sketch of exactly
  // the values observed for it from that call on, and its cached estimate is theirs.
  lemma {:induction false} TrackedSketches(hash: Hash, estimate: Estimator, obs: seq<Observation>, n: nat, key: string)
    returns (j: nat)
    requires Hashable(hash, obs) && n <= |obs| && estimate(Empty()) == 0.0
    requires key in TrackerAt(hash, estimate, obs, n).sketches
    ensures TrackedSince(hash, estimate, obs, j, n, key)
    ensures RecordOf(hash, estimate, Since(obs, j, n, key), TrackerAt(hash, estimate, obs, n).sketches[key])
    decreases n
  {
    hide TrackerAt, Hashable, RecordOf, Observed, Since, WellSized, Empty;
    NothingTracked(hash, estimate, obs);
    var m := n - 1;
    TrackerNext(hash, estimate, obs, m);
    var t, o := TrackerAt(hash, estimate, obs, m), obs[m];
    if key in t.sketches {
      j := TrackedSketches(hash, estimate, obs, m, key);
    } else {
      j := m;
      NothingSince(obs, m, key);
    }
    SinceNext(obs, j, m, key);
    if o.key == key {
      RecordGrows(hash, estimate, t, Since(obs, j, m, key), key, o.value, o.oldest);
    } else {
      OthersStay(hash, estimate, t, o.key, o.value, o.oldest, key);
    }
  }

  lemma NothingSince(obs: seq<Observation>, n: nat, key: string)
    requires n <= |obs|
    ensures Since(obs, n, n, key) == {}
  {
  }

  /** A run keeps the key cap at every moment exactly if no new key ever meets a full tracker whose oldest key is empty. */
  lemma KeyCapHoldsExactly(hash: Hash, estimate: Estimator, obs: seq<Observation>)
    requires Hashable(hash, obs) && PicksOldest(hash, estimate, obs)
    ensures WithinCap(hash, estimate, obs) <==> forall k | 0 <= k < |obs| :: !Stuck(hash, estimate, obs, k)
  {
    hide Observed, TrackerAt, Hashable, Oldest, WellSized;
    forall k | 0 <= k < |obs| && WithinCapAt(hash, estimate, obs, k)
      ensures WithinCapAt(hash, estimate, obs, k + 1) <==> !Stuck(hash, estimate, obs, k)
    {
      TrackerNext(hash, estimate, obs, k);
      CapKeptExactly(hash, estimate, TrackerAt(hash, estimate, obs, k), obs[k].key, obs[k].value, obs[k].oldest);
    }
    if WithinCap(hash, estimate, obs) {
      forall k | 0 <= k < |obs| ensures !Stuck(hash, estimate, obs, k) {
        assert WithinCapAt(hash, estimate, obs, k) && WithinCapAt(hash, estimate, obs, k + 1);
      }
    }
    if forall k | 0 <= k < |obs| :: !Stuck(hash, estimate, obs, k) {
      NothingTracked(hash, estimate, obs);
      for k := 0 to |obs|
        invariant forall j | 0 <= j <= k :: WithinCapAt(hash, estimate, obs, j)
      {
        assert !Stuck(hash, estimate, obs, k);
      }
    }
  }

  lemma NothingTracked(hash: Hash, estimate: Estimator, obs: seq<Observation>)
    requires Hashable(hash, obs)
    ensures TrackerAt(hash, estimate, obs, 0) == UNTRACKED
  {
    assert obs[..0] == [];
  }

  lemma {:induction false} TracksObserved(hash: Hash, estimate: Estimator, obs: seq<Observation>, k: nat, key: string)
    requires Hashable(hash, obs) && k <= |obs| && key in TrackerAt(hash, estimate, obs, k).sketches
    ensures exists i :: 0 <= i < k && obs[i].key == key
    decreases k
  {
    hide TrackerAt, Hashable, WellSized;
    if k == 0 {
      NothingTracked(hash, estimate, obs);
    } else {
      TrackerNext(hash, estimate, obs, k - 1);
      var t := TrackerAt(hash, estimate, obs, k - 1);
      if key != obs[k - 1].key {
        assert key in t.sketches;
        TracksObserved(hash, estimate, obs, k - 1, key);
      }
    }
  }

  /** Without an empty key the cap holds throughout. */
  lemma NamedKeysKeepCap(hash: Hash, estimate: Estimator, obs: seq<Observation>)
    requires Hashable(hash, obs) && PicksOldest(hash, estimate, obs) && forall o | o in obs :: o.key != ""
    ensures WithinCap(hash, estimate, obs)
  {
    hide TrackerAt, Hashable, WithinCap;
    forall k | 0 <= k < |obs| ensures !Stuck(hash, estimate, obs, k) {
      if Stuck(hash, estimate, obs, k) {
        TracksObserved(hash, estimate, obs, k, "");
      }
    }
    KeyCapHoldsExactly(hash, estimate, obs);
  }

  /** Observations of ever new keys, while the empty key is the oldest. */
  function ObservedAll(hash: Hash, estimate: Estimator, t: Tracker, keys: seq<string>, value: string): Tracker
    requires WellSized(t) && hash(value) < WORD
    ensures WellSized(ObservedAll(hash, estimate, t, keys, value))
  {
    if keys == [] then t
    else
      var u := ObservedAll(hash, estimate, t, keys[..|keys| - 1], value);
      AllSized(hash, estimate, u, keys[|keys| - 1], value);
      Observed(hash, estimate, u, keys[|keys| - 1], value, "")
  }

  lemma AllSized(hash: Hash, estimate: Estimator, t: Tracker, key: string, value: string)
    requires WellSized(t) && hash(value) < WORD
    ensures WellSized(Observed(hash, estimate, t, key, value, ""))
  {
    hide Added;
    var o := Opened(t, key, "");
    AddedSized(hash, o.sketches[key].registers, value);
  }

  lemma EmptyKeyStaysOldest(hash: Hash, estimate: Estimator, t: Tracker, key: string, value: string)
    requires WellSized(t) && Stamped(t) && hash(value) < WORD && key !in t.sketches && Oldest(t, "")
    ensures var u := Observed(hash, estimate, t, key, value, "");
            u.sketches.Keys == t.sketches.Keys + {key} && |u.sketches| == |t.sketches| + 1 && Stamped(u) && Oldest(u, "")
  {
    hide Added, Empty;
    var u := Observed(hash, estimate, t, key, value, "");
    assert u.sketches.Keys == t.sketches.Keys + {key};
    assert |u.sketches| == |u.sketches.Keys| && |t.sketches| == |t.sketches.Keys|;
    assert forall k | k in t.sketches :: k != key && u.sketches[k] == t.sketches[k];
  }

  /** Once the empty key is the oldest, each further new key grows the tracker by one, full or not: nothing is evicted again. */
  lemma {:induction false} EmptyKeyDefeatsCap(hash: Hash, estimate: Estimator, t: Tracker, keys: seq<string>, value: string)
    requires WellSized(t) && Stamped(t) && hash(value) < WORD && Oldest(t, "")
    requires forall i | 0 <= i < |keys| :: keys[i] !in t.sketches
    requires forall i, j | 0 <= i < j < |keys| :: keys[i] != keys[j]
    ensures var u := ObservedAll(hash, estimate, t, keys, value);
            && |u.sketches| == |t.sketches| + |keys| && Stamped(u) && Oldest(u, "")
            && forall k | k in u.sketches :: k in t.sketches || k in keys
  {
    hide Observed, Stamped, Oldest;
    if keys != [] {
      var n := |keys| - 1;
      EmptyKeyDefeatsCap(hash, estimate, t, keys[..n], value);
      var u := ObservedAll(hash, estimate, t, keys[..n], value);
      assert keys == keys[..n] + [keys[n]];
      assert keys[n] !in u.sketches;
      EmptyKeyStaysOldest(hash, estimate, u, keys[n], value);
    }
  }

  /** So from the start: after the empty key, any number of new keys are all kept. */
  lemma EmptyKeyFirst(hash: Hash, estimate: Estimator, keys: seq<string>, value: string)
    requires hash(value) < WORD && "" !in keys
    requires forall i, j | 0 <= i < j < |keys| :: keys[i] != keys[j]
    ensures var t := Observed(hash, estimate, UNTRACKED, "", value, "");
            WellSized(t) && |ObservedAll(hash, estimate, t, keys, value).sketches| == |keys| + 1
  {
    hide Added, Empty, ObservedAll;
    ObservedStamped(hash, estimate, UNTRACKED, "", value, "");
    var t := Observed(hash, estimate, UNTRACKED, "", value, "");
    assert t.sketches.Keys == {""} && |t.sketches| == |t.sketches.Keys|;
    assert Oldest(t, "");
    EmptyKeyDefeatsCap(hash, estimate, t, keys, value);
  }

  class CardinalityTracker {
    var sketches: map<string, Tracked>
    var nextGen: nat

    ghost function View(): Tracker
      reads this
    {
      Tracker(sketches, nextGen)
    }

    constructor ()
      ensures View() == UNTRACKED
    {
      sketches, nextGen := map[], 0;
    }

    /** The loop of evictLRULocked: "" when nothing is found, or when it is the oldest key. */
    method OldestKey() returns (oldestKey: string)
      requires nextGen < WORD - 1 && Stamped(View())
      ensures sketches != map[] ==> Oldest(View(), oldestKey)
    {
      var oldestGen := WORD - 1;
      oldestKey := "";
      var rest := sketches.Keys;
      while rest != {}
        invariant rest <= sketches.Keys
        invariant (rest == sketches.Keys && oldestGen == WORD - 1)
                  || (oldestKey in sketches && sketches[oldestKey].lruGen == oldestGen)
        invariant forall k | k in sketches && k !in rest :: oldestGen <= sketches[k].lruGen
        decreases |rest|
      {
        var k :| k in rest;
        rest := rest - {k};
        if sketches[k].lruGen < oldestGen {
          oldestGen, oldestKey := sketches[k].lruGen, k;
        }
      }
    }

    /** Make room for a new key, and give it an empty sketch. */
    method Open(key: string) returns (ghost oldest: string)
      requires Stamped(View()) && nextGen < WORD - 1
      modifies this
      ensures Full(old(View()), key) ==> Oldest(old(View()), oldest)
      ensures View() == Opened(old(View()), key, oldest)
    {
      hide Empty;
      oldest := "";
      if key !in sketches {
        if |sketches| >= MAX_TRACKED_KEYS {
          var oldestKey := OldestKey();
          oldest := oldestKey;
          if oldestKey != "" {
            sketches := sketches - {oldestKey};
          }
        }
        sketches := sketches[key := Tracked(Empty(), 0.0, 0)];
      }
    }

    method Observe(hash: Hash, estimate: Estimator, key: string, value: string)
      returns (current: real, ghost oldest: string)
      requires hash(value) < WORD && WellSized(View()) && Stamped(View()) && nextGen < WORD - 1
      modifies this
      ensures Full(old(View()), key) ==> Oldest(old(View()), oldest)
      ensures View() == Observed(hash, estimate, old(View()), key, value, oldest)
      ensures key in View().sketches && current == View().sketches[key].estimate
      ensures WellSized(View()) && Stamped(View()) && nextGen == old(nextGen) + 1
    {
      hide Added, Empty, Oldest, Stamped;
      ghost var before := View();
      oldest := Open(key);
      nextGen := nextGen + 1;
      var ts := sketches[key];
      var regs := Added(hash, ts.registers, value);
      current := if regs != ts.registers then estimate(regs) else ts.estimate;
      sketches := sketches[key := Tracked(regs, current, nextGen)];
      ObservedStamped(hash, estimate, before, key, value, oldest);
    }
  }
}
