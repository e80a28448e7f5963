/**
 The circuit breaker called by any number of threads. A call goes through the gate under the lock, then looks at the
 state without the lock, and if it is not turned away invokes the function and later reports the outcome under the lock.
 */
module BreakerThreads {

  import opened Wrappers
  import opened CircuitBreaker

  type CallId = nat

  datatype Pc = Gated | Rejected | Invoked | Reported

  datatype Event =
    | Enter(call: CallId, now: real)
    | Look(call: CallId)
    | Report(call: CallId, fails: bool, now: real)
    | ResetNow

  datatype World = World(b: Breaker, calls: map<CallId, Pc>)

  /** A call is at this point. */
  predicate At(w: World, q: CallId, pc: Pc) {
    q in w.calls && w.calls[q] == pc
  }

  /** One event; an event of a call that is at another point changes nothing. */
  function Apply(c: Config, w: World, e: Event): World {
    match e
    case Enter(q, now) => if q in w.calls then w else World(TryHalfOpen(w.b, now), w.calls[q := Gated])
    case Look(q) =>
      if At(w, q, Gated) then w.(calls := w.calls[q := if w.b.phase == Open then Rejected else Invoked]) else w
    case Report(q, fails, now) =>
      if At(w, q, Invoked)
      then World(if fails then Failure(c, w.b, now) else Success(c, w.b), w.calls[q := Reported]) else w
    case ResetNow => w.(b := Fresh(c))
  }

  function After(c: Config, events: seq<Event>, n: nat): World
    requires n <= |events|
  {
    if n == 0 then World(Fresh(c), map[]) else Apply(c, After(c, events, n - 1), events[n - 1])
  }

  /** The section under the lock that an event is, if it is one. */
  function SectionOf(w: World, e: Event): Option<Section> {
    match e
    case Enter(q, now) => if q in w.calls then None else Some(Gate(now))
    case Look(_) => None
    case Report(q, fails, now) => if !At(w, q, Invoked) then None else Some(if fails then Failed(now) else Succeeded)
    case ResetNow => Some(WasReset)
  }

  function Sections(c: Config, events: seq<Event>, n: nat): seq<Section>
    requires n <= |events|
  {
    if n == 0 then []
    else
      var added := SectionOf(After(c, events, n - 1), events[n - 1]);
      Sections(c, events, n - 1) + if added.Some? then [added.value] else []
  }

  lemma ApplyIsSection(c: Config, w: World, e: Event, t: Tracked)
    requires w.b == t.b
    ensures Apply(c, w, e).b == if SectionOf(w, e).Some? then Step(c, t, SectionOf(w, e).value).b else t.b
  {
  }

  lemma RunOneMore(c: Config, sections: seq<Section>, s: Section)
    ensures Run(c, sections + [s]) == Step(c, Run(c, sections), s)
  {
    assert (sections + [s])[..|sections|] == sections;
  }

  /**
   The breaker of any number of threads is that of the sections one after the other: gates, reports of what the function
   did, and resets. So all that holds of every sequence of sections holds here.
   */
  lemma {:induction false} BreakerIsOfSections(c: Config, events: seq<Event>, n: nat)
    requires n <= |events|
    ensures After(c, events, n).b == Run(c, Sections(c, events, n)).b
  {
    if n > 0 {
      var before := Sections(c, events, n - 1);
      BreakerIsOfSections(c, events, n - 1);
      ApplyIsSection(c, After(c, events, n - 1), events[n - 1], Run(c, before));
      var added := SectionOf(After(c, events, n - 1), events[n - 1]);
      if added.Some? {
        RunOneMore(c, before, added.value);
      } else {
        assert Sections(c, events, n) == before;
      }
    }
  }

  /** The calls under way. */
  function InFlight(w: World): set<CallId> {
    set q | q in w.calls && w.calls[q] in {Gated, Invoked}
  }

  /** The n-th event is the gate of the probe, the call that turns the open breaker half-open. */
  ghost predicate OpensHalf(c: Config, events: seq<Event>, n: nat, p: CallId) {
    && n < |events| && events[n].Enter? && events[n].call == p
    && After(c, events, n).b.phase == Open && After(c, events, n + 1).b.phase == HalfOpen
  }

  ghost predicate ReportsAt(c: Config, events: seq<Event>, n: nat, q: CallId) {
    n < |events| && events[n].Report? && events[n].call == q && At(After(c, events, n), q, Invoked)
  }

  ghost predicate LooksAt(c: Config, events: seq<Event>, n: nat, q: CallId) {
    n < |events| && events[n] == Look(q) && At(After(c, events, n), q, Gated)
  }

  /** A report of any call, or a reset: what ends a half-open period. */
  ghost predicate EndsAt(c: Config, events: seq<Event>, n: nat) {
    n < |events| && (events[n].ResetNow? || (events[n].Report? && ReportsAt(c, events, n, events[n].call)))
  }

  /** The breaker turns half-open at u for the probe, and nothing has ended the period before v. */
  ghost predicate HalfOpenFrom(c: Config, events: seq<Event>, u: nat, v: nat, p: CallId) {
    u < v <= |events| && OpensHalf(c, events, u, p) && forall i :: u < i < v ==> !EndsAt(c, events, i)
  }

  /** The calls that invoke the function between two events. */
  ghost function InvokedBetween(c: Config, events: seq<Event>, u: nat, v: nat): set<CallId>
    requires u < v <= |events|
  {
    if v == u + 1 then {}
    else
      InvokedBetween(c, events, u, v - 1) +
      if events[v - 1].Look? && LooksAt(c, events, v - 1, events[v - 1].call) && After(c, events, v - 1).b.phase != Open
      then {events[v - 1].call} else {}
  }

  /** Nothing but a report or a reset ends a half-open period. */
  lemma {:induction false} StaysHalfOpen(c: Config, events: seq<Event>, u: nat, v: nat, p: CallId)
    requires HalfOpenFrom(c, events, u, v, p)
    ensures After(c, events, v).b.phase == HalfOpen
    decreases v
  {
    if u + 1 < v {
      StaysHalfOpen(c, events, u, v - 1, p);
      assert !EndsAt(c, events, v - 1);
    }
  }

  /** In a half-open period, every call that looks at the state invokes the function. */
  lemma {:induction false} LookersInvoke(c: Config, events: seq<Event>, u: nat, v: nat, p: CallId, q: CallId)
    requires HalfOpenFrom(c, events, u, v, p)
    ensures q in InvokedBetween(c, events, u, v) <==> exists i :: u < i < v && LooksAt(c, events, i, q)
    decreases v
  {
    if u + 1 < v {
      LookersInvoke(c, events, u, v - 1, p, q);
      StaysHalfOpen(c, events, u, v - 1, p);
    }
  }

  /** A call that reports at v and came through its gate at u looked in between. */
  lemma {:induction false} LookedBefore(c: Config, events: seq<Event>, u: nat, v: nat, q: CallId) returns (i: nat)
    requires u < v <= |events| && At(After(c, events, u + 1), q, Gated) && At(After(c, events, v), q, Invoked)
    ensures u < i < v && LooksAt(c, events, i, q)
    decreases v
  {
    i := v - 1;
    if At(After(c, events, v - 1), q, Invoked) {
      i := LookedBefore(c, events, u, v - 1, q);
    }
  }

  lemma {:induction false} RejectedStays(c: Config, events: seq<Event>, m: nat, n: nat, q: CallId)
    requires m <= n <= |events| && At(After(c, events, m), q, Rejected)
    ensures At(After(c, events, n), q, Rejected)
    decreases n
  {
    if m < n {
      RejectedStays(c, events, m, n - 1, q);
    }
  }

  /** A call that looks while the breaker is open is turned away for good; any other goes on to invoke the function. */
  lemma OpenTurnsAway(c: Config, events: seq<Event>, m: nat, q: CallId)
    requires LooksAt(c, events, m, q)
    ensures After(c, events, m).b.phase != Open ==> At(After(c, events, m + 1), q, Invoked)
    ensures After(c, events, m).b.phase == Open ==> forall n :: m < n <= |events| ==> !ReportsAt(c, events, n, q)
  {
    if After(c, events, m).b.phase == Open {
      forall n: nat | m < n <= |events| ensures !ReportsAt(c, events, n, q) {
        RejectedStays(c, events, m + 1, n, q);
      }
    }
  }

  /**
   When half-open means one probe: of the period that begins with the probe's gate and ends with its report, the probe's
   is the only invocation if and only if no other call looks at the state in between.
   */
  lemma OneProbeIffNobodyElseLooks(c: Config, events: seq<Event>, u: nat, v: nat, p: CallId)
    requires HalfOpenFrom(c, events, u, v, p) && ReportsAt(c, events, v, p)
    ensures InvokedBetween(c, events, u, v) == {p} <==> forall i, q :: u < i < v && LooksAt(c, events, i, q) ==> q == p
  {
    assert At(After(c, events, u + 1), p, Gated);
    var i := LookedBefore(c, events, u, v, p);
    forall q ensures q in InvokedBetween(c, events, u, v) <==> exists i :: u < i < v && LooksAt(c, events, i, q) {
      LookersInvoke(c, events, u, v, p, q);
    }
    if InvokedBetween(c, events, u, v) == {p} {
      forall i, q | u < i < v && LooksAt(c, events, i, q) ensures q == p {
        assert q in InvokedBetween(c, events, u, v);
      }
    }
  }

  /** A first gate, and the look that belongs to it. */
  ghost predicate EntersAt(c: Config, events: seq<Event>, n: nat, q: CallId) {
    n < |events| && events[n].Enter? && events[n].call == q && q !in After(c, events, n).calls
  }

  /** Nothing comes between a call's gate and its look. */
  ghost predicate EntersAtOnce(c: Config, events: seq<Event>) {
    forall n: nat, q :: EntersAt(c, events, n, q) ==> n + 1 < |events| && events[n + 1] == Look(q)
  }

  lemma {:induction false} GatedBefore(c: Config, events: seq<Event>, n: nat, q: CallId) returns (g: nat)
    requires n <= |events| && At(After(c, events, n), q, Gated)
    ensures g < n && EntersAt(c, events, g, q) && forall i :: g < i < n ==> !LooksAt(c, events, i, q)
  {
    if EntersAt(c, events, n - 1, q) {
      g := n - 1;
    } else {
      g := GatedBefore(c, events, n - 1, q);
    }
  }

  /** If gate and look are one step, that is: if and only if no other call's gate falls in between. */
  lemma OneProbeIffNobodyElseEnters(c: Config, events: seq<Event>, u: nat, v: nat, p: CallId)
    requires HalfOpenFrom(c, events, u, v, p) && ReportsAt(c, events, v, p) && EntersAtOnce(c, events)
    ensures InvokedBetween(c, events, u, v) == {p} <==> forall i, q :: u < i < v ==> !EntersAt(c, events, i, q)
  {
    OneProbeIffNobodyElseLooks(c, events, u, v, p);
    assert EntersAt(c, events, u, p);
    forall i, q | u < i < v && LooksAt(c, events, i, q) && q != p
      ensures exists g :: u < g < v && EntersAt(c, events, g, q) {
      var g := GatedBefore(c, events, i, q);
      EntersThenLooks(c, events, g, q);
      assert LooksAt(c, events, g + 1, q);
    }
    forall g, q | u < g < v && EntersAt(c, events, g, q)
      ensures q != p && exists i :: u < i < v && LooksAt(c, events, i, q)
    {
      EntersThenLooks(c, events, g, q);
      KnownStays(c, events, u + 1, g, p);
    }
  }

  lemma EntersThenLooks(c: Config, events: seq<Event>, g: nat, q: CallId)
    requires EntersAtOnce(c, events) && EntersAt(c, events, g, q)
    ensures LooksAt(c, events, g + 1, q)
  {
    assert After(c, events, g + 1) == Apply(c, After(c, events, g), events[g]);
  }

  lemma {:induction false} KnownStays(c: Config, events: seq<Event>, m: nat, n: nat, q: CallId)
    requires m <= n <= |events| && q in After(c, events, m).calls
    ensures q in After(c, events, n).calls
    decreases n
  {
    if m < n {
      KnownStays(c, events, m, n - 1, q);
    }
  }

  // ---------------------------------------------------------------------------
  // How many probes there can be
  // ---------------------------------------------------------------------------

  /** Never more than k calls are under way at the same time. */
  ghost predicate AtMostAtOnce(c: Config, events: seq<Event>, k: nat) {
    forall n :: 0 <= n <= |events| ==> |InFlight(After(c, events, n))| <= k
  }

  /** In a half-open period nobody who invoked the function has come back. */
  lemma {:induction false} InvokedAreInFlight(c: Config, events: seq<Event>, u: nat, v: nat, p: CallId)
    requires HalfOpenFrom(c, events, u, v, p)
    ensures forall q :: q in InvokedBetween(c, events, u, v) ==> At(After(c, events, v), q, Invoked)
    decreases v
  {
    if u + 1 < v {
      InvokedAreInFlight(c, events, u, v - 1, p);
      assert !EndsAt(c, events, v - 1);
    }
  }

  /** A half-open period has no more invocations than calls are under way at once. */
  lemma ProbesBoundedByCalls(c: Config, events: seq<Event>, u: nat, v: nat, p: CallId, k: nat)
    requires HalfOpenFrom(c, events, u, v, p) && AtMostAtOnce(c, events, k)
    ensures |InvokedBetween(c, events, u, v)| <= k
  {
    InvokedAreInFlight(c, events, u, v, p);
    var a, b := InvokedBetween(c, events, u, v), InFlight(After(c, events, v));
    assert a <= b;
    assert b == a + (b - a);
  }

  // The bound is attained: first an outage, one call at a time, and then k calls at once.

  lemma AfterPrefix(c: Config, a: seq<Event>, b: seq<Event>, n: nat)
    requires n <= |a|
    ensures After(c, a + b, n) == After(c, a, n)
  {
    if n > 0 {
      AfterPrefix(c, a, b, n - 1);
    }
  }

  lemma OneMore(c: Config, events: seq<Event>, e: Event)
    ensures After(c, events + [e], |events| + 1) == Apply(c, After(c, events, |events|), e)
  {
    AfterPrefix(c, events, [e], |events|);
  }

  lemma StillAtMost(c: Config, events: seq<Event>, e: Event, k: nat)
    requires AtMostAtOnce(c, events, k) && |InFlight(After(c, events + [e], |events| + 1))| <= k
    ensures AtMostAtOnce(c, events + [e], k)
  {
    forall n | 0 <= n <= |events + [e]| ensures |InFlight(After(c, events + [e], n))| <= k {
      if n <= |events| {
        AfterPrefix(c, events, [e], n);
      }
    }
  }

  /** A run that has come to this world with no more than k calls at once. */
  ghost predicate Comes(c: Config, events: seq<Event>, w: World, k: nat) {
    After(c, events, |events|) == w && AtMostAtOnce(c, events, k)
  }

  lemma ComesOn(c: Config, events: seq<Event>, w: World, e: Event, k: nat)
    requires Comes(c, events, w, k) && |InFlight(Apply(c, w, e))| <= k
    ensures Comes(c, events + [e], Apply(c, w, e), k)
  {
    OneMore(c, events, e);
    StillAtMost(c, events, e, k);
  }

  /** The calls from 0 on that have all come to the same point. */
  function Calls(n: nat, pc: Pc): (r: map<CallId, Pc>)
    ensures forall q: CallId :: (q in r <==> q < n) && (q in r ==> r[q] == pc)
  {
    if n == 0 then map[] else Calls(n - 1, pc)[n - 1 := pc]
  }

  lemma OneFailure(c: Config, events: seq<Event>, b: Breaker, j: nat, k: nat) returns (more: seq<Event>)
    requires k >= 1 && b.phase == Closed && Comes(c, events, World(b, Calls(j, Reported)), k)
    ensures Comes(c, more, World(Failure(c, b, 0.0), Calls(j + 1, Reported)), k)
  {
    var w := World(b, Calls(j, Reported));
    var w1 := World(b, Calls(j, Reported)[j := Gated]);
    var w2 := World(b, Calls(j, Reported)[j := Invoked]);
    assert InFlight(w1) == {j} && InFlight(w2) == {j};
    ComesOn(c, events, w, Enter(j, 0.0), k);
    assert w1.calls[j := Invoked] == w2.calls;
    ComesOn(c, events + [Enter(j, 0.0)], w1, Look(j), k);
    more := events + [Enter(j, 0.0)] + [Look(j)];
    assert w2.calls[j := Reported] == Calls(j + 1, Reported);
    assert InFlight(World(Failure(c, b, 0.0), Calls(j + 1, Reported))) == {};
    ComesOn(c, more, w2, Report(j, true, 0.0), k);
    more := more + [Report(j, true, 0.0)];
  }

  /** As many failures as the threshold, one call after the other. */
  lemma {:induction false} Outage(c: Config, j: nat, k: nat) returns (events: seq<Event>)
    requires 1 <= c.threshold <= c.windowSize && j <= c.threshold && k >= 1
    ensures Comes(c, events, World(if j < c.threshold then Breaker(Closed, AllFailed(j), 0.0, c.initial)
                                   else Breaker(Open, AllFailed(j), 0.0, c.initial), Calls(j, Reported)), k)
  {
    if j == 0 {
      events := [];
      assert Calls(0, Reported) == map[] && InFlight(World(Fresh(c), map[])) == {};
    } else {
      var before := Outage(c, j - 1, k);
      var b := Breaker(Closed, AllFailed(j - 1), 0.0, c.initial);
      FailedWhileClosed(c, b, 0.0, j - 1);
      events := OneFailure(c, before, b, j - 1, k);
    }
  }

  /** The first n calls have reported, the next g have gone through the gate, and i of these have looked. */
  function Crowd(n: nat, g: nat, i: nat): (r: map<CallId, Pc>)
    ensures forall q: CallId :: q in r <==> q < n + g
    ensures forall q: CallId ::
      q in r ==> r[q] == if q < n then Reported else if q < n + i then Invoked else Gated
  {
    if g == 0 then Calls(n, Reported) else Crowd(n, g - 1, i)[n + g - 1 := if g - 1 < i then Invoked else Gated]
  }

  lemma CrowdInFlight(b: Breaker, n: nat, g: nat, i: nat)
    ensures |InFlight(World(b, Crowd(n, g, i)))| == g
  {
    if g == 0 {
      assert InFlight(World(b, Crowd(n, g, i))) == {};
    } else {
      CrowdInFlight(b, n, g - 1, i);
      assert InFlight(World(b, Crowd(n, g, i))) == InFlight(World(b, Crowd(n, g - 1, i))) + {n + g - 1};
    }
  }

  /** All of them go through the gate, and the first of them is the probe. */
  lemma {:induction false} CrowdGates(c: Config, events: seq<Event>, b: Breaker, n: nat, g: nat, k: nat)
    returns (more: seq<Event>)
    requires 1 <= g <= k && b.phase == Open && c.initial - b.openedAt >= b.cooldown
    requires Comes(c, events, World(b, Calls(n, Reported)), k)
    ensures Comes(c, events + more, World(b.(phase := HalfOpen), Crowd(n, g, 0)), k)
    ensures |more| == g && forall i :: 0 <= i < g ==> more[i] == Enter(n + i, c.initial)
  {
    var e := Enter(n + g - 1, c.initial);
    CrowdInFlight(b, n, g, 0);
    if g == 1 {
      assert Calls(n, Reported)[n := Gated] == Crowd(n, 1, 0);
      ComesOn(c, events, World(b, Calls(n, Reported)), e, k);
      more := [e];
    } else {
      var rest := CrowdGates(c, events, b, n, g - 1, k);
      assert Crowd(n, g - 1, 0)[n + g - 1 := Gated] == Crowd(n, g, 0);
      ComesOn(c, events + rest, World(b.(phase := HalfOpen), Crowd(n, g - 1, 0)), e, k);
      assert events + rest + [e] == events + (rest + [e]);
      more := rest + [e];
    }
  }

  /** And then all of them look. */
  lemma {:induction false} CrowdLooks(c: Config, events: seq<Event>, b: Breaker, n: nat, g: nat, i: nat, k: nat)
    returns (more: seq<Event>)
    requires i <= g <= k && b.phase == HalfOpen && Comes(c, events, World(b, Crowd(n, g, 0)), k)
    ensures Comes(c, events + more, World(b, Crowd(n, g, i)), k)
    ensures |more| == i && forall j :: 0 <= j < i ==> more[j] == Look(n + j)
  {
    if i == 0 {
      more := [];
      assert events + [] == events;
    } else {
      var rest := CrowdLooks(c, events, b, n, g, i - 1, k);
      var e := Look(n + i - 1);
      CrowdInFlight(b, n, g, i);
      assert Crowd(n, g, i - 1)[n + i - 1 := Invoked] == Crowd(n, g, i);
      ComesOn(c, events + rest, World(b, Crowd(n, g, i - 1)), e, k);
      assert events + rest + [e] == events + (rest + [e]);
      more := rest + [e];
    }
  }

  /** Between two points without reports, those who are invoked afterwards and were not before have invoked. */
  lemma {:induction false} InvokedSince(c: Config, events: seq<Event>, u: nat, v: nat, q: CallId)
    requires u < v <= |events| && !At(After(c, events, u + 1), q, Invoked) && At(After(c, events, v), q, Invoked)
    ensures q in InvokedBetween(c, events, u, v)
    decreases v
  {
    if !(events[v - 1].Look? && LooksAt(c, events, v - 1, q)) {
      InvokedSince(c, events, u, v - 1, q);
    }
  }

  /** With k calls at once, a half-open period can have k invocations. */
  lemma ManyProbesAtOnce(c: Config, k: nat) returns (events: seq<Event>, u: nat, p: CallId)
    requires 1 <= c.threshold <= c.windowSize && k >= 1
    ensures AtMostAtOnce(c, events, k) && HalfOpenFrom(c, events, u, |events|, p)
    ensures |InvokedBetween(c, events, u, |events|)| == k
  {
    var n: nat := c.threshold;
    var b := Breaker(Open, AllFailed(n), 0.0, c.initial);
    var outage := Outage(c, n, k);
    var gates := CrowdGates(c, outage, b, n, k, k);
    var looks := CrowdLooks(c, outage + gates, b.(phase := HalfOpen), n, k, k, k);
    events, u, p := outage + gates + looks, |outage|, n;
    assert outage + gates + looks == outage + (gates + looks);
    AfterPrefix(c, outage, gates + looks, |outage|);
    assert After(c, events, u) == World(b, Calls(n, Reported));
    assert events[u] == gates[0] == Enter(n, c.initial);
    assert After(c, events, u + 1) == World(b.(phase := HalfOpen), Calls(n, Reported)[n := Gated]);
    forall i | u < i < |events| ensures !EndsAt(c, events, i) {
      assert events[i] == if i < u + k then gates[i - u] else looks[i - u - k];
    }
    ProbesBoundedByCalls(c, events, u, |events|, p, k);
    assert After(c, events, |events|).calls == Crowd(n, k, k);
    forall q | n <= q < n + k ensures q in InvokedBetween(c, events, u, |events|) {
      InvokedSince(c, events, u, |events|, q);
    }
    RangeSize(n, k, InvokedBetween(c, events, u, |events|));
  }

  lemma {:induction false} RangeSize(n: nat, k: nat, s: set<nat>)
    requires forall q :: n <= q < n + k ==> q in s
    ensures |s| >= k
  {
    if k > 0 {
      RangeSize(n, k - 1, s - {n + k - 1});
    }
  }

  /**
   The exact condition, on the callers: every half-open period has at most one invocation, if and only if no two calls
   are ever under way at the same time.
   */
  lemma SingleProbeIffCallsDoNotOverlap(c: Config, k: nat)
    requires 1 <= c.threshold <= c.windowSize
    ensures k <= 1 <==> forall events, u, v, p :: AtMostAtOnce(c, events, k) && HalfOpenFrom(c, events, u, v, p) ==>
      |InvokedBetween(c, events, u, v)| <= 1
  {
    if k <= 1 {
      forall events, u, v, p | AtMostAtOnce(c, events, k) && HalfOpenFrom(c, events, u, v, p)
        ensures |InvokedBetween(c, events, u, v)| <= 1
      {
        ProbesBoundedByCalls(c, events, u, v, p, k);
      }
    } else {
      var events, u, p := ManyProbesAtOnce(c, k);
      assert HalfOpenFrom(c, events, u, |events|, p);
    }
  }
}
