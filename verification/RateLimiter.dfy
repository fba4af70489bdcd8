/** The per-service token bucket of the rate_limiting policy, in real-valued tokens and seconds. */
module RateLimiter {
  import opened Options

  const MAX_TRACKED_SERVICES := 10_000
  const WORD := 0x1_0000_0000_0000_0000

  datatype Bucket = Bucket(tokens: real, lastFill: real, lruGen: nat)

  datatype Limiter = Limiter(buckets: map<string, Bucket>, nextGen: nat)

  const UNUSED := Limiter(map[], 0)

  ghost predicate Oldest(l: Limiter, service: string) {
    service in l.buckets && forall s | s in l.buckets :: l.buckets[service].lruGen <= l.buckets[s].lruGen
  }

  predicate Full(l: Limiter, service: string) {
    service !in l.buckets && |l.buckets| >= MAX_TRACKED_SERVICES
  }

  /** A bucket for the service: a full one if it has none; the empty service name is never the one evicted. */
  function Opened(l: Limiter, perSec: real, service: string, created: real, oldest: string): Limiter {
    if service in l.buckets then l
    else
      var r := if |l.buckets| >= MAX_TRACKED_SERVICES && oldest != "" then l.(buckets := l.buckets - {oldest}) else l;
      r.(buckets := r.buckets[service := Bucket(perSec, created, 0)])
  }

  /** What some seconds add. */
  function Earned(perSec: real, seconds: real): real {
    seconds * perSec
  }

  function Refilled(b: Bucket, perSec: real, now: real): real {
    var tokens := b.tokens + Earned(perSec, now - b.lastFill);
    if tokens > perSec then perSec else tokens
  }

  /** Evaluate: refill, then let the trace through for one token, or veto it. */
  function Evaluated(l: Limiter, perSec: real, service: string, created: real, now: real, oldest: string): (Limiter, bool) {
    var o := Opened(l, perSec, service, created, oldest);
    var tokens := Refilled(o.buckets[service], perSec, now);
    var admitted := tokens >= 1.0;
    (Limiter(o.buckets[service := Bucket(if admitted then tokens - 1.0 else tokens, now, o.nextGen + 1)], o.nextGen + 1), admitted)
  }

  // ---- Stamps and the cap on services ----

  ghost predicate Stamped(l: Limiter) {
    forall s | s in l.buckets :: l.buckets[s].lruGen <= l.nextGen
  }

  lemma EvaluatedStamped(l: Limiter, perSec: real, service: string, created: real, now: real, oldest: string)
    requires Stamped(l)
    ensures var m := Evaluated(l, perSec, service, created, now, oldest).0;
            Stamped(m) && m.nextGen == l.nextGen + 1 && service in m.buckets
  {
    hide Refilled;
  }

  /** The services cap holds after a call exactly unless a new service met a full limiter whose oldest service is nameless. */
  lemma ServicesKeptExactly(l: Limiter, perSec: real, service: string, created: real, now: real, oldest: string)
    requires |l.buckets| <= MAX_TRACKED_SERVICES && (Full(l, service) ==> Oldest(l, oldest))
    ensures |Evaluated(l, perSec, service, created, now, oldest).0.buckets| <= MAX_TRACKED_SERVICES <==>
            !(Full(l, service) && oldest == "")
  {
    hide Refilled;
    var o := Opened(l, perSec, service, created, oldest);
    var m := Evaluated(l, perSec, service, created, now, oldest).0;
    assert m.buckets.Keys == o.buckets.Keys && |m.buckets| == |m.buckets.Keys| && |l.buckets| == |l.buckets.Keys|;
    if service in l.buckets {
      assert o.buckets.Keys == l.buckets.Keys;
    } else if Full(l, service) && oldest != "" {
      assert o.buckets.Keys == l.buckets.Keys - {oldest} + {service};
    } else {
      assert o.buckets.Keys == l.buckets.Keys + {service};
    }
  }

  /** A limiter whose oldest service is nameless grows by one with each new service, full or not, and stays that way. */
  lemma NamelessStaysOldest(l: Limiter, perSec: real, service: string, created: real, now: real)
    requires Stamped(l) && service !in l.buckets && Oldest(l, "")
    ensures var m := Evaluated(l, perSec, service, created, now, "").0;
            |m.buckets| == |l.buckets| + 1 && Stamped(m) && Oldest(m, "") && m.buckets.Keys == l.buckets.Keys + {service}
  {
    hide Refilled;
    var m := Evaluated(l, perSec, service, created, now, "").0;
    assert m.buckets.Keys == l.buckets.Keys + {service};
    assert |m.buckets| == |m.buckets.Keys| && |l.buckets| == |l.buckets.Keys|;
  }

  // ---- Tokens stay within the bucket ----

  ghost predicate Filled(l: Limiter, perSec: real, now: real) {
    forall s | s in l.buckets :: 0.0 <= l.buckets[s].tokens <= perSec && l.buckets[s].lastFill <= now
  }

  lemma EarnedGrows(perSec: real, a: real, b: real)
    requires perSec >= 0.0 && a <= b
    ensures Earned(perSec, a) <= Earned(perSec, b)
    ensures Earned(perSec, 0.0) == 0.0 && Earned(perSec, 1.0) == perSec
  {
  }

  lemma EarnedIs(perSec: real, t: real)
    ensures Earned(perSec, t) == perSec * t
  {
  }

  lemma EarnedAdds(perSec: real, a: real, b: real)
    ensures Earned(perSec, a) + Earned(perSec, b) == Earned(perSec, a + b)
  {
  }

  /** One evaluation keeps every bucket between empty and perSec tokens. */
  lemma Filling(l: Limiter, perSec: real, service: string, created: real, now: real, oldest: string, before: real)
    requires perSec >= 0.0 && Filled(l, perSec, before) && before <= created <= now
    ensures Filled(Evaluated(l, perSec, service, created, now, oldest).0, perSec, now)
  {
    hide Earned;
    var o := Opened(l, perSec, service, created, oldest);
    EarnedGrows(perSec, 0.0, now - o.buckets[service].lastFill);
  }

  // ---- How many traces a bucket lets through ----

  /** One call of Evaluate; oldest is what eviction would pick. */
  datatype Call = Call(service: string, created: real, now: real, oldest: string)

  function After(l: Limiter, perSec: real, calls: seq<Call>): Limiter {
    if calls == [] then l
    else
      var c := calls[|calls| - 1];
      Evaluated(After(l, perSec, calls[..|calls| - 1]), perSec, c.service, c.created, c.now, c.oldest).0
  }

  /** How many of a service's traces the calls let through. */
  function Admitted(l: Limiter, perSec: real, calls: seq<Call>, service: string): nat {
    if calls == [] then 0
    else
      var n := |calls| - 1;
      var c := calls[n];
      var passed := Evaluated(After(l, perSec, calls[..n]), perSec, c.service, c.created, c.now, c.oldest).1;
      Admitted(l, perSec, calls[..n], service) + (if c.service == service && passed then 1 else 0)
  }

  /** The clock only moves forward. */
  ghost predicate Monotone(calls: seq<Call>, start: real) {
    && (forall i | 0 <= i < |calls| :: start <= calls[i].created <= calls[i].now)
    && (forall i, j | 0 <= i < j < |calls| :: calls[i].now <= calls[j].created)
  }

  /** The service's bucket is there after each of the calls. */
  ghost predicate Stays(l: Limiter, perSec: real, calls: seq<Call>, service: string) {
    forall n | 0 < n <= |calls| :: service in After(l, perSec, calls[..n]).buckets
  }

  lemma OthersUntouched(l: Limiter, perSec: real, c: Call, service: string)
    requires c.service != service && service in Evaluated(l, perSec, c.service, c.created, c.now, c.oldest).0.buckets
    ensures service in l.buckets
    ensures Evaluated(l, perSec, c.service, c.created, c.now, c.oldest).0.buckets[service] == l.buckets[service]
  {
  }

  /** A trace let through costs a token; time adds at most perSec a second. */
  lemma OneCall(l: Limiter, perSec: real, c: Call)
    requires perSec >= 0.0 && c.service in l.buckets && l.buckets[c.service].lastFill <= c.now
    ensures var (m, passed) := Evaluated(l, perSec, c.service, c.created, c.now, c.oldest);
            && m.buckets[c.service].lastFill == c.now
            && m.buckets[c.service].tokens + (if passed then 1.0 else 0.0) <=
               l.buckets[c.service].tokens + Earned(perSec, c.now - l.buckets[c.service].lastFill)
  {
    hide Earned;
  }

  /** What one more call adds to admissions plus tokens. */
  lemma OneMoreCall(l: Limiter, perSec: real, c: Call, service: string, first: real, admitted: nat)
    requires perSec >= 0.0 && service in l.buckets && first <= l.buckets[service].lastFill <= c.now
    requires admitted as real + l.buckets[service].tokens <= perSec + Earned(perSec, l.buckets[service].lastFill - first)
    requires service in Evaluated(l, perSec, c.service, c.created, c.now, c.oldest).0.buckets
    ensures var (m, passed) := Evaluated(l, perSec, c.service, c.created, c.now, c.oldest);
            var after := admitted + if c.service == service && passed then 1 else 0;
            && first <= m.buckets[service].lastFill <= c.now
            && after as real + m.buckets[service].tokens <= perSec + Earned(perSec, m.buckets[service].lastFill - first)
  {
    hide Earned, Evaluated;
    if c.service == service {
      OneCall(l, perSec, c);
      EarnedAdds(perSec, c.now - l.buckets[service].lastFill, l.buckets[service].lastFill - first);
    } else {
      OthersUntouched(l, perSec, c, service);
    }
  }

  lemma StaysBefore(l: Limiter, perSec: real, calls: seq<Call>, service: string)
    requires |calls| > 1 && Stays(l, perSec, calls, service)
    ensures Stays(l, perSec, calls[..|calls| - 1], service) && service in After(l, perSec, calls).buckets
  {
    hide After;
    var n := |calls| - 1;
    forall k | 0 < k <= n ensures service in After(l, perSec, calls[..n][..k]).buckets {
      assert calls[..n][..k] == calls[..k];
    }
    assert calls[..|calls|] == calls;
  }

  /** Admissions plus tokens left never exceed one full bucket plus the refill since the first call. */
  lemma {:induction false} Budget(l: Limiter, perSec: real, calls: seq<Call>, service: string, start: real)
    requires perSec >= 0.0 && Filled(l, perSec, start) && Monotone(calls, start)
    requires calls != [] && calls[0].service == service && Stays(l, perSec, calls, service)
    ensures var b := After(l, perSec, calls).buckets;
            && service in b && calls[0].now <= b[service].lastFill <= calls[|calls| - 1].now
            && Admitted(l, perSec, calls, service) as real + b[service].tokens <=
               perSec + Earned(perSec, b[service].lastFill - calls[0].now)
  {
    hide Evaluated, Earned, Stays, Filled;
    var n := |calls| - 1;
    if n == 0 {
      FirstCall(l, perSec, calls, start);
      EarnedGrows(perSec, 0.0, 0.0);
    } else {
      StaysBefore(l, perSec, calls, service);
      Budget(l, perSec, calls[..n], service, start);
      OneMoreCall(After(l, perSec, calls[..n]), perSec, calls[n], service, calls[0].now,
                  Admitted(l, perSec, calls[..n], service));
    }
  }

  /** At the first call the bucket holds at most perSec tokens, however long it stood. */
  lemma FirstCall(l: Limiter, perSec: real, calls: seq<Call>, start: real)
    requires perSec >= 0.0 && Filled(l, perSec, start) && Monotone(calls, start) && |calls| == 1
    ensures var c := calls[0];
            var b := After(l, perSec, calls).buckets;
            && c.service in b && b[c.service].lastFill == c.now
            && Admitted(l, perSec, calls, c.service) as real + b[c.service].tokens <= perSec
  {
    hide Earned;
    assert calls[..0] == [];
  }

  lemma {:induction false} RunFilled(l: Limiter, perSec: real, calls: seq<Call>, start: real)
    requires perSec >= 0.0 && Filled(l, perSec, start) && Monotone(calls, start)
    ensures Filled(After(l, perSec, calls), perSec, if calls == [] then start else calls[|calls| - 1].now)
  {
    if calls != [] {
      var n := |calls| - 1;
      RunFilled(l, perSec, calls[..n], start);
      var c := calls[n];
      Filling(After(l, perSec, calls[..n]), perSec, c.service, c.created, c.now, c.oldest, if n == 0 then start else calls[n - 1].now);
    }
  }

  lemma WindowEarned(l: Limiter, perSec: real, calls: seq<Call>, service: string, start: real)
    requires perSec >= 0.0 && Filled(l, perSec, start) && Monotone(calls, start)
    requires calls != [] && calls[0].service == service && Stays(l, perSec, calls, service)
    ensures Admitted(l, perSec, calls, service) as real <= Earned(perSec, calls[|calls| - 1].now - calls[0].now + 1.0)
  {
    hide Stays, Admitted, After, Earned;
    Budget(l, perSec, calls, service, start);
    RunFilled(l, perSec, calls, start);
    var b := After(l, perSec, calls).buckets[service];
    var t := calls[|calls| - 1].now - calls[0].now;
    EarnedGrows(perSec, b.lastFill - calls[0].now, t);
    EarnedAdds(perSec, t, 1.0);
  }

  /** In a window of T seconds in which its bucket is not evicted, a service gets at most perSec * (T + 1) traces through. */
  lemma WindowBound(l: Limiter, perSec: real, calls: seq<Call>, service: string, start: real)
    requires perSec >= 0.0 && Filled(l, perSec, start) && Monotone(calls, start)
    requires calls != [] && calls[0].service == service && Stays(l, perSec, calls, service)
    ensures var t := calls[|calls| - 1].now - calls[0].now;
            Admitted(l, perSec, calls, service) as real <= perSec * (t + 1.0)
  {
    hide Stays, Admitted, After, Earned, Filled, Monotone;
    WindowEarned(l, perSec, calls, service, start);
    EarnedIs(perSec, calls[|calls| - 1].now - calls[0].now + 1.0);
  }

  // ---- The services cap over runs ----

  lemma AfterNext(l: Limiter, perSec: real, calls: seq<Call>, k: nat)
    requires k < |calls|
    ensures var c := calls[k];
            After(l, perSec, calls[..k + 1]) ==
            Evaluated(After(l, perSec, calls[..k]), perSec, c.service, c.created, c.now, c.oldest).0
  {
    hide Evaluated;
    assert calls[..k + 1][..k] == calls[..k];
  }

  ghost predicate PicksOldest(perSec: real, calls: seq<Call>) {
    forall k | 0 <= k < |calls| ::
      Full(After(UNUSED, perSec, calls[..k]), calls[k].service) ==> Oldest(After(UNUSED, perSec, calls[..k]), calls[k].oldest)
  }

  ghost predicate WithinCapAt(perSec: real, calls: seq<Call>, k: nat)
    requires k <= |calls|
  {
    |After(UNUSED, perSec, calls[..k]).buckets| <= MAX_TRACKED_SERVICES
  }

  ghost predicate StuckAt(perSec: real, calls: seq<Call>, k: nat)
    requires k < |calls|
  {
    Full(After(UNUSED, perSec, calls[..k]), calls[k].service) && calls[k].oldest == ""
  }

  /** A run keeps the services cap at every moment exactly if no new service meets a full limiter whose oldest is nameless. */
  lemma ServicesCapHoldsExactly(perSec: real, calls: seq<Call>)
    requires PicksOldest(perSec, calls)
    ensures (forall k | 0 <= k <= |calls| :: WithinCapAt(perSec, calls, k)) <==>
            forall k | 0 <= k < |calls| :: !StuckAt(perSec, calls, k)
  {
    hide Evaluated, After, Oldest;
    forall k | 0 <= k < |calls| && WithinCapAt(perSec, calls, k)
      ensures WithinCapAt(perSec, calls, k + 1) <==> !StuckAt(perSec, calls, k)
    {
      var c := calls[k];
      AfterNext(UNUSED, perSec, calls, k);
      ServicesKeptExactly(After(UNUSED, perSec, calls[..k]), perSec, c.service, c.created, c.now, c.oldest);
    }
    if forall k | 0 <= k <= |calls| :: WithinCapAt(perSec, calls, k) {
      forall k | 0 <= k < |calls| ensures !StuckAt(perSec, calls, k) {
        assert WithinCapAt(perSec, calls, k) && WithinCapAt(perSec, calls, k + 1);
      }
    }
    if forall k | 0 <= k < |calls| :: !StuckAt(perSec, calls, k) {
      NothingTracked(perSec, calls);
      for k := 0 to |calls|
        invariant forall j | 0 <= j <= k :: WithinCapAt(perSec, calls, j)
      {
        assert !StuckAt(perSec, calls, k);
      }
    }
  }

  lemma NothingTracked(perSec: real, calls: seq<Call>)
    ensures After(UNUSED, perSec, calls[..0]) == UNUSED
  {
    assert calls[..0] == [];
  }

  lemma {:induction false} TracksCalled(perSec: real, calls: seq<Call>, k: nat, service: string)
    requires k <= |calls| && service in After(UNUSED, perSec, calls[..k]).buckets
    ensures exists i :: 0 <= i < k && calls[i].service == service
    decreases k
  {
    hide After, Refilled;
    if k == 0 {
      NothingTracked(perSec, calls);
    } else {
      AfterNext(UNUSED, perSec, calls, k - 1);
      if service != calls[k - 1].service {
        TracksCalled(perSec, calls, k - 1, service);
      }
    }
  }

  /** Without a nameless service the cap holds throughout. */
  lemma NamedServicesKeepCap(perSec: real, calls: seq<Call>)
    requires PicksOldest(perSec, calls) && forall c | c in calls :: c.service != ""
    ensures forall k | 0 <= k <= |calls| :: WithinCapAt(perSec, calls, k)
  {
    hide After, WithinCapAt;
    forall k | 0 <= k < |calls| ensures !StuckAt(perSec, calls, k) {
      if StuckAt(perSec, calls, k) {
        TracksCalled(perSec, calls, k, "");
      }
    }
    ServicesCapHoldsExactly(perSec, calls);
  }

  /** The first call names no service, the others each a new one; "" is what eviction finds. */
  ghost predicate StartsNameless(calls: seq<Call>) {
    && (calls != [] ==> calls[0].service == "")
    && (forall i, j | 0 <= i < j < |calls| :: calls[i].service != calls[j].service)
    && forall i | 0 <= i < |calls| :: calls[i].oldest == ""
  }

  lemma {:induction false} NamelessOldestAfter(perSec: real, calls: seq<Call>, k: nat)
    requires StartsNameless(calls) && 0 < k <= |calls|
    ensures var l := After(UNUSED, perSec, calls[..k]);
            && |l.buckets| == k && Stamped(l) && Oldest(l, "")
            && forall s | s in l.buckets :: exists i :: 0 <= i < k && calls[i].service == s
    decreases k
  {
    hide Evaluated, After, Stamped, Oldest;
    var c := calls[k - 1];
    AfterNext(UNUSED, perSec, calls, k - 1);
    var l := After(UNUSED, perSec, calls[..k - 1]);
    if k == 1 {
      NothingTracked(perSec, calls);
      FirstNameless(perSec, c);
    } else {
      NamelessOldestAfter(perSec, calls, k - 1);
      NamelessStaysOldest(l, perSec, c.service, c.created, c.now);
    }
  }

  lemma FirstNameless(perSec: real, c: Call)
    requires c.service == "" && c.oldest == ""
    ensures var l := Evaluated(UNUSED, perSec, c.service, c.created, c.now, c.oldest).0;
            |l.buckets| == 1 && Stamped(l) && Oldest(l, "") && l.buckets.Keys == {""}
  {
    hide Refilled;
    var l := Evaluated(UNUSED, perSec, c.service, c.created, c.now, c.oldest).0;
    assert l.buckets.Keys == {""} && |l.buckets| == |l.buckets.Keys|;
  }

  /** So a run that starts with a nameless service keeps every one of any number of later services, and evicts as the code does. */
  lemma NamelessFirst(perSec: real, calls: seq<Call>)
    requires StartsNameless(calls)
    ensures PicksOldest(perSec, calls) && |After(UNUSED, perSec, calls).buckets| == |calls|
  {
    hide Evaluated, After, Stamped, Oldest, StartsNameless;
    NothingTracked(perSec, calls);
    forall k | 0 <= k < |calls| && Full(After(UNUSED, perSec, calls[..k]), calls[k].service)
      ensures Oldest(After(UNUSED, perSec, calls[..k]), calls[k].oldest)
    {
      NamelessOldestAfter(perSec, calls, k);
      NoneNamed(calls, k);
    }
    assert calls[..|calls|] == calls;
    if calls != [] {
      NamelessOldestAfter(perSec, calls, |calls|);
    }
  }

  lemma NoneNamed(calls: seq<Call>, k: nat)
    requires StartsNameless(calls) && k < |calls|
    ensures calls[k].oldest == ""
  {
  }

  // ---- Exactly which traces pass ----

  /** The verdicts of a run: true abstains, false vetoes. */
  function Verdicts(perSec: real, calls: seq<Call>): seq<bool> {
    seq(|calls|, k requires 0 <= k < |calls| =>
      var c := calls[k]; Evaluated(After(UNUSED, perSec, calls[..k]), perSec, c.service, c.created, c.now, c.oldest).1)
  }

  /** How many traces of the service passed from the j-th call on, before the n-th. */
  function Admissions(calls: seq<Call>, verdicts: seq<bool>, service: string, j: nat, n: nat): nat
    requires j <= n <= |calls| == |verdicts|
  {
    if j == n then 0
    else Admissions(calls, verdicts, service, j, n - 1) + if calls[n - 1].service == service && verdicts[n - 1] then 1 else 0
  }

  /** What the rate allows from the j-th call to time t: a full bucket and the refill. */
  function Allowance(perSec: real, calls: seq<Call>, j: nat, t: real): real
    requires j < |calls|
  {
    Earned(perSec, t - calls[j].now + 1.0)
  }

  /** What is left of that at the n-th call. */
  function Left(perSec: real, calls: seq<Call>, verdicts: seq<bool>, service: string, j: nat, n: nat, t: real): real
    requires j <= n <= |calls| == |verdicts| && j < |calls|
  {
    Allowance(perSec, calls, j, t) - Admissions(calls, verdicts, service, j, n) as real
  }

  /** The o-th call opened the service's bucket, which was still there before the n-th. */
  ghost predicate OpenSince(perSec: real, calls: seq<Call>, service: string, o: nat, n: nat) {
    && o < n <= |calls| && calls[o].service == service
    && service !in After(UNUSED, perSec, calls[..o]).buckets
    && forall k | o < k <= n :: service in After(UNUSED, perSec, calls[..k]).buckets
  }

  /** Tokens found by the n-th call: the bucket's, refilled and capped. */
  ghost function Found(perSec: real, calls: seq<Call>, n: nat): real
    requires n < |calls|
  {
    var c := calls[n];
    Refilled(Opened(After(UNUSED, perSec, calls[..n]), perSec, c.service, c.created, c.oldest).buckets[c.service], perSec, c.now)
  }

  /** Of the service's calls from the o-th on, before the n-th, f is the last to find a full bucket. */
  ghost predicate LastFull(perSec: real, calls: seq<Call>, service: string, o: nat, n: nat, f: nat)
    requires n <= |calls|
  {
    && o <= f < n && calls[f].service == service && Found(perSec, calls, f) == perSec
    && forall j | f < j < n && calls[j].service == service :: Found(perSec, calls, j) < perSec
  }

  /** The tokens are the least that any stretch of calls since the opening leaves: that since f, the last to find the bucket full. */
  ghost predicate TokensAre(perSec: real, calls: seq<Call>, service: string, o: nat, n: nat, tokens: real, t: real, f: nat)
    requires o < n <= |calls|
  {
    var v := Verdicts(perSec, calls);
    && LastFull(perSec, calls, service, o, n, f) && tokens == Left(perSec, calls, v, service, f, n, t)
    && forall j | o <= j < n && calls[j].service == service :: tokens <= Left(perSec, calls, v, service, j, n, t)
  }

  lemma LeftLater(perSec: real, calls: seq<Call>, v: seq<bool>, service: string, j: nat, n: nat, t: real, u: real)
    requires j <= n < |calls| == |v|
    ensures Left(perSec, calls, v, service, j, n, u) == Left(perSec, calls, v, service, j, n, t) + Earned(perSec, u - t)
    ensures Left(perSec, calls, v, service, j, n + 1, u) ==
            Left(perSec, calls, v, service, j, n, u) - if calls[n].service == service && v[n] then 1.0 else 0.0
    ensures Left(perSec, calls, v, service, n, n, calls[n].now) == perSec
  {
    EarnedAdds(perSec, t - calls[j].now + 1.0, u - t);
    EarnedIs(perSec, 1.0);
    assert calls[n].now - calls[n].now + 1.0 == 1.0;
  }

  lemma CallFinds(perSec: real, calls: seq<Call>, n: nat)
    requires n < |calls|
    ensures var b := After(UNUSED, perSec, calls[..n + 1]).buckets;
            && Verdicts(perSec, calls)[n] == (Found(perSec, calls, n) >= 1.0)
            && calls[n].service in b && b[calls[n].service].lastFill == calls[n].now
            && b[calls[n].service].tokens ==
               Found(perSec, calls, n) - if Verdicts(perSec, calls)[n] then 1.0 else 0.0
  {
    hide Refilled, After, Opened;
    AfterNext(UNUSED, perSec, calls, n);
  }

  lemma NewBucketIsFull(perSec: real, calls: seq<Call>, n: nat)
    requires n < |calls| && perSec >= 0.0 && calls[n].created <= calls[n].now
    requires calls[n].service !in After(UNUSED, perSec, calls[..n]).buckets
    ensures Found(perSec, calls, n) == perSec
  {
    hide After, Earned;
    EarnedGrows(perSec, 0.0, calls[n].now - calls[n].created);
  }

  lemma KeptBucket(perSec: real, calls: seq<Call>, n: nat)
    requires n < |calls| && calls[n].service in After(UNUSED, perSec, calls[..n]).buckets
    ensures var b := After(UNUSED, perSec, calls[..n]).buckets[calls[n].service];
            Found(perSec, calls, n) ==
            var tokens := b.tokens + Earned(perSec, calls[n].now - b.lastFill); if tokens > perSec then perSec else tokens
  {
    hide After, Earned;
  }

  /** One call of the service itself: what it finds is the least left, its own start included. */
  lemma FoundIsLeast(perSec: real, calls: seq<Call>, service: string, o: nat, n: nat, f: nat) returns (g: nat)
    requires n < |calls| && calls[n].service == service && OpenSince(perSec, calls, service, o, n)
    requires var b := After(UNUSED, perSec, calls[..n]).buckets[service];
             TokensAre(perSec, calls, service, o, n, b.tokens, b.lastFill, f)
    ensures LeastLeft(perSec, calls, service, o, n, Found(perSec, calls, n), g)
  {
    hide After, Earned, Found, Verdicts, Allowance, Left;
    var b := After(UNUSED, perSec, calls[..n]).buckets[service];
    var v, t := Verdicts(perSec, calls), calls[n].now;
    VerdictsSize(perSec, calls);
    KeptBucket(perSec, calls, n);
    forall j | o <= j < n && calls[j].service == service
      ensures Left(perSec, calls, v, service, j, n, t) == Left(perSec, calls, v, service, j, n, b.lastFill) + Earned(perSec, t - b.lastFill)
    {
      LeftLater(perSec, calls, v, service, j, n, b.lastFill, t);
    }
    LeftLater(perSec, calls, v, service, n, n, t, t);
    g := if b.tokens + Earned(perSec, t - b.lastFill) >= perSec then n else f;
  }

  lemma VerdictsSize(perSec: real, calls: seq<Call>)
    ensures |Verdicts(perSec, calls)| == |calls|
  {
  }

  /** found is the least that any stretch from a call of the service up to the n-th leaves there: that since g, the last full one. */
  ghost predicate LeastLeft(perSec: real, calls: seq<Call>, service: string, o: nat, n: nat, found: real, g: nat)
    requires n < |calls|
  {
    var v := Verdicts(perSec, calls);
    && LastFull(perSec, calls, service, o, n + 1, g) && found == Left(perSec, calls, v, service, g, n, calls[n].now)
    && forall j | o <= j <= n && calls[j].service == service :: found <= Left(perSec, calls, v, service, j, n, calls[n].now)
  }

  lemma SpentAfter(perSec: real, calls: seq<Call>, service: string, o: nat, n: nat, g: nat)
    requires o <= n < |calls| && calls[n].service == service
    requires LeastLeft(perSec, calls, service, o, n, Found(perSec, calls, n), g)
    ensures var b := After(UNUSED, perSec, calls[..n + 1]).buckets;
            service in b && TokensAre(perSec, calls, service, o, n + 1, b[service].tokens, b[service].lastFill, g)
  {
    hide After, Earned, Found, Verdicts, Allowance, Left;
    var v, t := Verdicts(perSec, calls), calls[n].now;
    VerdictsSize(perSec, calls);
    CallFinds(perSec, calls, n);
    forall j | o <= j <= n && calls[j].service == service
      ensures Left(perSec, calls, v, service, j, n + 1, t) == Left(perSec, calls, v, service, j, n, t) - if v[n] then 1.0 else 0.0
    {
      LeftLater(perSec, calls, v, service, j, n, t, t);
    }
  }

  /** A call of another service leaves the bucket and what is left alone. */
  lemma OtherCall(perSec: real, calls: seq<Call>, service: string, o: nat, n: nat, f: nat)
    requires n < |calls| && calls[n].service != service && OpenSince(perSec, calls, service, o, n + 1) && o < n
    requires var b := After(UNUSED, perSec, calls[..n]).buckets;
             service in b && TokensAre(perSec, calls, service, o, n, b[service].tokens, b[service].lastFill, f)
    ensures var b := After(UNUSED, perSec, calls[..n + 1]).buckets;
            service in b && TokensAre(perSec, calls, service, o, n + 1, b[service].tokens, b[service].lastFill, f)
  {
    hide After, Evaluated, Earned, Verdicts, Allowance, Left;
    var b := After(UNUSED, perSec, calls[..n]).buckets[service];
    var v := Verdicts(perSec, calls);
    VerdictsSize(perSec, calls);
    AfterNext(UNUSED, perSec, calls, n);
    OthersUntouched(After(UNUSED, perSec, calls[..n]), perSec, calls[n], service);
    forall j | o <= j < n && calls[j].service == service
      ensures Left(perSec, calls, v, service, j, n + 1, b.lastFill) == Left(perSec, calls, v, service, j, n, b.lastFill)
    {
      LeftLater(perSec, calls, v, service, j, n, b.lastFill, b.lastFill);
    }
  }

  ghost predicate ClockForward(calls: seq<Call>) {
    forall k | 0 <= k < |calls| :: calls[k].created <= calls[k].now
  }

  lemma OpeningLeaves(perSec: real, calls: seq<Call>, n: nat)
    requires n < |calls| && perSec >= 0.0 && calls[n].created <= calls[n].now
    requires calls[n].service !in After(UNUSED, perSec, calls[..n]).buckets
    ensures LeastLeft(perSec, calls, calls[n].service, n, n, Found(perSec, calls, n), n)
  {
    hide After, Earned, Found, Verdicts, Allowance, Left;
    VerdictsSize(perSec, calls);
    NewBucketIsFull(perSec, calls, n);
    LeftLater(perSec, calls, Verdicts(perSec, calls), calls[n].service, n, n, calls[n].now, calls[n].now);
  }

  lemma OpenBefore(perSec: real, calls: seq<Call>, service: string, o: nat, n: nat)
    requires OpenSince(perSec, calls, service, o, n) && o < n - 1
    ensures OpenSince(perSec, calls, service, o, n - 1)
  {
    hide After;
  }

  lemma {:induction false} TokensInRun(perSec: real, calls: seq<Call>, service: string, o: nat, n: nat) returns (f: nat)
    requires perSec >= 0.0 && ClockForward(calls) && OpenSince(perSec, calls, service, o, n)
    ensures service in After(UNUSED, perSec, calls[..n]).buckets
    ensures var b := After(UNUSED, perSec, calls[..n]).buckets[service];
            TokensAre(perSec, calls, service, o, n, b.tokens, b.lastFill, f)
    decreases n
  {
    hide After, Found, TokensAre, LeastLeft;
    if n == o + 1 {
      OpeningLeaves(perSec, calls, o);
      SpentAfter(perSec, calls, service, o, o, o);
      f := o;
    } else {
      OpenBefore(perSec, calls, service, o, n);
      f := TokensInRun(perSec, calls, service, o, n - 1);
      if calls[n - 1].service == service {
        f := FoundIsLeast(perSec, calls, service, o, n - 1, f);
        SpentAfter(perSec, calls, service, o, n - 1, f);
      } else {
        OtherCall(perSec, calls, service, o, n - 1, f);
      }
    }
  }

  /** The n-th call opens its service's bucket, or the o-th did and it was kept. */
  ghost predicate OpenedAt(perSec: real, calls: seq<Call>, o: nat, n: nat)
    requires n < |calls|
  {
    if o == n then calls[n].service !in After(UNUSED, perSec, calls[..n]).buckets
    else OpenSince(perSec, calls, calls[n].service, o, n)
  }

  lemma {:induction false} TrackedIsOpen(perSec: real, calls: seq<Call>, service: string, n: nat) returns (o: nat)
    requires n <= |calls| && service in After(UNUSED, perSec, calls[..n]).buckets
    ensures OpenSince(perSec, calls, service, o, n)
    decreases n
  {
    hide After, Evaluated;
    NothingTracked(perSec, calls);
    assert n > 0;
    var m := n - 1;
    AfterNext(UNUSED, perSec, calls, m);
    if service in After(UNUSED, perSec, calls[..m]).buckets {
      o := TrackedIsOpen(perSec, calls, service, m);
    } else {
      o := m;
      NewcomerCalls(After(UNUSED, perSec, calls[..m]), perSec, calls[m], service);
    }
  }

  lemma NewcomerCalls(l: Limiter, perSec: real, c: Call, service: string)
    requires service !in l.buckets && service in Evaluated(l, perSec, c.service, c.created, c.now, c.oldest).0.buckets
    ensures service == c.service
  {
  }

  lemma LeastAt(perSec: real, calls: seq<Call>, n: nat) returns (o: nat, f: nat)
    requires perSec >= 0.0 && ClockForward(calls) && n < |calls|
    ensures OpenedAt(perSec, calls, o, n) && LeastLeft(perSec, calls, calls[n].service, o, n, Found(perSec, calls, n), f)
  {
    hide After, Verdicts, Found, OpenSince, TokensAre, LeastLeft;
    var service := calls[n].service;
    if service in After(UNUSED, perSec, calls[..n]).buckets {
      o := TrackedIsOpen(perSec, calls, service, n);
      OpensBefore(perSec, calls, service, o, n);
      f := TokensInRun(perSec, calls, service, o, n);
      f := FoundIsLeast(perSec, calls, service, o, n, f);
    } else {
      o, f := n, n;
      OpeningLeaves(perSec, calls, n);
    }
  }

  /** One more trace at the n-th call keeps the stretch from the j-th on within the rate. */
  predicate Fits(perSec: real, calls: seq<Call>, verdicts: seq<bool>, j: nat, n: nat)
    requires j <= n < |calls| == |verdicts|
  {
    Admissions(calls, verdicts, calls[n].service, j, n) as real + 1.0 <= perSec * (calls[n].now - calls[j].now + 1.0)
  }

  lemma FitsIfLeft(perSec: real, calls: seq<Call>, v: seq<bool>, j: nat, n: nat)
    requires j <= n < |calls| == |v|
    ensures Fits(perSec, calls, v, j, n) <==> Left(perSec, calls, v, calls[n].service, j, n, calls[n].now) >= 1.0
  {
    hide Admissions;
    EarnedIs(perSec, calls[n].now - calls[j].now + 1.0);
  }

  // In every run: a trace passes exactly if admitting it keeps every stretch of calls of its service, from any one since the
  // bucket was opened up to this one, within the rate; and exactly if it keeps the stretch since the bucket was last full so.
  lemma PassesExactly(perSec: real, calls: seq<Call>, n: nat) returns (o: nat, f: nat)
    requires perSec >= 0.0 && ClockForward(calls) && n < |calls|
    ensures OpenedAt(perSec, calls, o, n) && LastFull(perSec, calls, calls[n].service, o, n + 1, f)
    ensures var v := Verdicts(perSec, calls);
            && |v| == |calls| && (v[n] <==> Fits(perSec, calls, v, f, n))
            && (v[n] <==> forall j | o <= j <= n && calls[j].service == calls[n].service :: Fits(perSec, calls, v, j, n))
  {
    hide After, Verdicts, Found, OpenedAt, Left, Fits;
    var v := Verdicts(perSec, calls);
    VerdictsSize(perSec, calls);
    CallFinds(perSec, calls, n);
    o, f := LeastAt(perSec, calls, n);
    forall j | o <= j <= n && calls[j].service == calls[n].service
      ensures Fits(perSec, calls, v, j, n) <==> Left(perSec, calls, v, calls[n].service, j, n, calls[n].now) >= 1.0
    {
      FitsIfLeft(perSec, calls, v, j, n);
    }
  }

  lemma OpensBefore(perSec: real, calls: seq<Call>, service: string, o: nat, n: nat)
    requires OpenSince(perSec, calls, service, o, n)
    ensures o < n
  {
  }

  /** At a rate of one a second or more, the trace that opens a bucket passes. */
  lemma FirstTracePasses(perSec: real, calls: seq<Call>, n: nat)
    requires perSec >= 1.0 && ClockForward(calls) && n < |calls|
    requires calls[n].service !in After(UNUSED, perSec, calls[..n]).buckets
    ensures |Verdicts(perSec, calls)| == |calls| && Verdicts(perSec, calls)[n]
  {
    hide After, Verdicts, Found;
    VerdictsSize(perSec, calls);
    NewBucketIsFull(perSec, calls, n);
    CallFinds(perSec, calls, n);
  }

  /** No call of the service from the m-th on, before the n-th, finds more than a full bucket's worth. */
  ghost predicate NeverCapped(perSec: real, calls: seq<Call>, service: string, m: nat, n: nat)
    requires n <= |calls| && forall k | m <= k <= n :: service in After(UNUSED, perSec, calls[..k]).buckets
  {
    forall k | m <= k < n && calls[k].service == service ::
      var b := After(UNUSED, perSec, calls[..k]).buckets[service];
      b.tokens + Earned(perSec, calls[k].now - b.lastFill) <= perSec
  }

  lemma {:induction false} TokensEarned(perSec: real, calls: seq<Call>, service: string, m: nat, n: nat)
    requires m <= n <= |calls| && forall k | m <= k <= n :: service in After(UNUSED, perSec, calls[..k]).buckets
    requires NeverCapped(perSec, calls, service, m, n)
    ensures |Verdicts(perSec, calls)| == |calls|
    ensures var a, b := After(UNUSED, perSec, calls[..m]).buckets[service], After(UNUSED, perSec, calls[..n]).buckets[service];
            Admissions(calls, Verdicts(perSec, calls), service, m, n) as real + b.tokens ==
            a.tokens + Earned(perSec, b.lastFill - a.lastFill)
    decreases n
  {
    hide After, Verdicts, Found, Earned, Evaluated;
    VerdictsSize(perSec, calls);
    if m == n {
      EarnedIs(perSec, 0.0);
    } else {
      var k := n - 1;
      TokensEarned(perSec, calls, service, m, k);
      var a, b := After(UNUSED, perSec, calls[..m]).buckets[service], After(UNUSED, perSec, calls[..k]).buckets[service];
      AfterNext(UNUSED, perSec, calls, k);
      if calls[k].service == service {
        CallFinds(perSec, calls, k);
        KeptBucket(perSec, calls, k);
        EarnedAdds(perSec, b.lastFill - a.lastFill, calls[k].now - b.lastFill);
      } else {
        OthersUntouched(After(UNUSED, perSec, calls[..k]), perSec, calls[k], service);
      }
    }
  }

  /** While a bucket is kept and never capped nothing is lost: admissions plus tokens left are the tokens there were plus the refill. */
  lemma TokensConserved(perSec: real, calls: seq<Call>, service: string, m: nat, n: nat)
    requires m <= n <= |calls| && forall k | m <= k <= n :: service in After(UNUSED, perSec, calls[..k]).buckets
    requires NeverCapped(perSec, calls, service, m, n)
    ensures |Verdicts(perSec, calls)| == |calls|
    ensures var a, b := After(UNUSED, perSec, calls[..m]).buckets[service], After(UNUSED, perSec, calls[..n]).buckets[service];
            Admissions(calls, Verdicts(perSec, calls), service, m, n) as real + b.tokens ==
            a.tokens + perSec * (b.lastFill - a.lastFill)
  {
    hide After, Verdicts, Earned, NeverCapped, Admissions;
    TokensEarned(perSec, calls, service, m, n);
    EarnedIs(perSec, After(UNUSED, perSec, calls[..n]).buckets[service].lastFill
                     - After(UNUSED, perSec, calls[..m]).buckets[service].lastFill);
  }

  lemma NewcomerPasses(l: Limiter, perSec: real, service: string, created: real, now: real, oldest: string)
    requires service !in l.buckets && perSec >= 1.0 && created <= now
    ensures Evaluated(l, perSec, service, created, now, oldest).1
  {
    hide Earned;
    EarnedGrows(perSec, 0.0, now - created);
  }

  // ---- The policy object ----

  class RateLimiter {
    const perSec: real
    var buckets: map<string, Bucket>
    var nextGen: nat

    ghost function View(): Limiter
      reads this
    {
      Limiter(buckets, nextGen)
    }

    constructor (ratePerSecond: real)
      ensures View() == UNUSED && perSec == ratePerSecond
    {
      perSec, buckets, nextGen := ratePerSecond, map[], 0;
    }

    /** The loop of evictLRULocked: "" when nothing is found, or when it is the oldest service. */
    method OldestService() returns (oldestKey: string)
      requires Stamped(View()) && nextGen < WORD - 1
      ensures buckets != map[] ==> Oldest(View(), oldestKey)
    {
      var oldestGen := WORD - 1;
      oldestKey := "";
      var rest := buckets.Keys;
      while rest != {}
        invariant rest <= buckets.Keys
        invariant (rest == buckets.Keys && oldestGen == WORD - 1)
                  || (oldestKey in buckets && buckets[oldestKey].lruGen == oldestGen)
        invariant forall s | s in buckets && s !in rest :: oldestGen <= buckets[s].lruGen
        decreases |rest|
      {
        var s :| s in rest;
        rest := rest - {s};
        if buckets[s].lruGen < oldestGen {
          oldestGen, oldestKey := buckets[s].lruGen, s;
        }
      }
    }

    /** Evaluate for the first span's service, if there is one; true abstains, false vetoes. */
    method Evaluate(first: Option<string>, created: real, now: real) returns (admitted: bool, ghost oldest: string)
      requires Stamped(View()) && nextGen < WORD - 1
      modifies this
      ensures var service := if first.Some? then first.value else "unknown_service";
              && (Full(old(View()), service) ==> Oldest(old(View()), oldest))
              && (View(), admitted) == Evaluated(old(View()), perSec, service, created, now, oldest)
      ensures Stamped(View()) && nextGen == old(nextGen) + 1
      ensures var service := if first.Some? then first.value else "unknown_service";
              service !in old(buckets) && perSec >= 1.0 && created <= now ==> admitted
    {
      hide Earned;
      var service := if first.Some? then first.value else "unknown_service";
      ghost var before := View();
      oldest := Open(service, created);
      if service !in before.buckets && perSec >= 1.0 && created <= now {
        NewcomerPasses(before, perSec, service, created, now, oldest);
      }
      nextGen := nextGen + 1;
      var b := buckets[service];
      var tokens := b.tokens + Earned(perSec, now - b.lastFill);
      if tokens > perSec {
        tokens := perSec;
      }
      admitted := tokens >= 1.0;
      if admitted {
        tokens := tokens - 1.0;
      }
      buckets := buckets[service := Bucket(tokens, now, nextGen)];
    }

    method Open(service: string, created: real) returns (ghost oldest: string)
      requires Stamped(View()) && nextGen < WORD - 1
      modifies this
      ensures Full(old(View()), service) ==> Oldest(old(View()), oldest)
      ensures View() == Opened(old(View()), perSec, service, created, oldest)
    {
      oldest := "";
      if service !in buckets {
        if |buckets| >= MAX_TRACKED_SERVICES {
          var oldestKey := OldestService();
          oldest := oldestKey;
          if oldestKey != "" {
            buckets := buckets - {oldestKey};
          }
        }
        buckets := buckets[service := Bucket(perSec, created, 0)];
      }
    }
  }
}
