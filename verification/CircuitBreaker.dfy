/**
 The circuit breaker: a rolling window of outcomes that opens the breaker, and a cooldown that doubles with every failed
 probe up to a maximum. Time is a real number read by the caller.
 */
module CircuitBreaker {

  type Duration = r: real | r >= 0.0

  datatype Config = Config(threshold: int, windowSize: nat, initial: Duration, max: Duration)

  datatype Phase = Closed | Open | HalfOpen

  /** The window holds one entry per recorded call, true for a failure. */
  datatype Breaker = Breaker(phase: Phase, window: seq<bool>, openedAt: real, cooldown: real)

  function Fresh(c: Config): Breaker {
    Breaker(Closed, [], 0.0, c.initial)
  }

  /** A bounded queue drops its oldest entries. */
  function Newest(w: seq<bool>, size: nat): (r: seq<bool>)
    ensures |r| == if |w| <= size then |w| else size
  {
    if |w| <= size then w else Newest(w[1..], size)
  }

  function Append(w: seq<bool>, x: bool, size: nat): seq<bool> {
    Newest(w + [x], size)
  }

  /** The number of failures in a window. */
  function Failures(w: seq<bool>): nat {
    multiset(w)[true]
  }

  function Min(a: real, b: real): real {
    if a <= b then a else b
  }

  // The sections under the lock.

  function TryHalfOpen(b: Breaker, now: real): Breaker {
    if b.phase == Open && now - b.openedAt >= b.cooldown then b.(phase := HalfOpen) else b
  }

  function Success(c: Config, b: Breaker): Breaker {
    if b.phase == HalfOpen then Breaker(Closed, [], b.openedAt, c.initial)
    else b.(window := Append(b.window, false, c.windowSize))
  }

  function Failure(c: Config, b: Breaker, now: real): Breaker {
    var w := Append(b.window, true, c.windowSize);
    if b.phase == HalfOpen then Breaker(Open, [], now, Min(b.cooldown * 2.0, c.max))
    else if Failures(w) >= c.threshold then b.(phase := Open, window := w, openedAt := now)
    else b.(window := w)
  }

  /** One call on its own: whether the function was invoked, and the breaker afterwards. */
  function Call(c: Config, b: Breaker, start: real, end: real, fails: bool): (Breaker, bool) {
    var b1 := TryHalfOpen(b, start);
    if b1.phase == Open then (b1, false)
    else (if fails then Failure(c, b1, end) else Success(c, b1), true)
  }

  class CircuitBreaker {
    const config: Config
    var phase: Phase
    var window: seq<bool>
    var openedAt: real
    var currentCooldown: real

    function View(): Breaker
      reads this
    {
      Breaker(phase, window, openedAt, currentCooldown)
    }

    constructor (c: Config)
      ensures config == c && View() == Fresh(c)
    {
      config := c;
      phase, window, openedAt, currentCooldown := Closed, [], 0.0, c.initial;
    }

    method MaybeTransitionToHalfOpen(now: real)
      modifies this
      ensures View() == TryHalfOpen(old(View()), now)
    {
      if phase != Open {
        return;
      }
      if now - openedAt >= currentCooldown {
        phase := HalfOpen;
      }
    }

    method RecordSuccess()
      modifies this
      ensures View() == Success(config, old(View()))
    {
      window := Append(window, false, config.windowSize);
      if phase == HalfOpen {
        phase := Closed;
        currentCooldown := config.initial;
        window := [];
      }
    }

    method CountFailures() returns (failures: nat)
      ensures failures == Failures(window)
    {
      failures := 0;
      for i := 0 to |window|
        invariant failures == Failures(window[..i])
      {
        assert window[..i + 1] == window[..i] + [window[i]];
        if window[i] {
          failures := failures + 1;
        }
      }
      assert window[..|window|] == window;
    }

    method RecordFailure(now: real)
      modifies this
      ensures View() == Failure(config, old(View()), now)
    {
      window := Append(window, true, config.windowSize);
      if phase == HalfOpen {
        currentCooldown := Min(currentCooldown * 2.0, config.max);
        phase := Open;
        openedAt := now;
        window := [];
        return;
      }
      var failures := CountFailures();
      if failures >= config.threshold {
        phase := Open;
        openedAt := now;
      }
    }

    method Reset()
      modifies this
      ensures View() == Fresh(config)
    {
      phase, window, currentCooldown, openedAt := Closed, [], config.initial, 0.0;
    }

    /** A call that nothing interleaves with; `fails` is what the function will do if it is invoked. */
    method Invoke(start: real, end: real, fails: bool) returns (invoked: bool)
      modifies this
      ensures (View(), invoked) == Call(config, old(View()), start, end, fails)
    {
      MaybeTransitionToHalfOpen(start);
      if phase == Open {
        return false;
      }
      if fails {
        RecordFailure(end);
      } else {
        RecordSuccess();
      }
      return true;
    }
  }

  // ---------------------------------------------------------------------------
  // Any number of threads: every run is a sequence of sections under the lock
  // ---------------------------------------------------------------------------

  datatype Section = Gate(now: real) | Succeeded | Failed(now: real) | WasReset

  /** The breaker, with the number of reopenings since it was last closed. */
  datatype Tracked = Tracked(b: Breaker, reopened: nat)

  function Step(c: Config, t: Tracked, s: Section): Tracked {
    var b := match s
             case Gate(now) => TryHalfOpen(t.b, now)
             case Succeeded => Success(c, t.b)
             case Failed(now) => Failure(c, t.b, now)
             case WasReset => Fresh(c);
    Tracked(b, if b.phase == Closed then 0
               else if t.b.phase == HalfOpen && b.phase == Open then t.reopened + 1 else t.reopened)
  }

  function Run(c: Config, sections: seq<Section>): Tracked {
    if sections == [] then Tracked(Fresh(c), 0)
    else Step(c, Run(c, sections[..|sections| - 1]), sections[|sections| - 1])
  }

  /** The cooldown after k reopenings. */
  function Backoff(c: Config, k: nat): (r: real)
    ensures r >= 0.0
  {
    if k == 0 then c.initial else Min(Backoff(c, k - 1) * 2.0, c.max)
  }

  /** The initial cooldown doubled k times. */
  function Doubled(c: Config, k: nat): (r: real)
    ensures r >= 0.0
  {
    if k == 0 then c.initial else 2.0 * Doubled(c, k - 1)
  }

  /** Doubling with a cap in each round is doubling k times with one cap. */
  lemma {:induction false} BackoffClosedForm(c: Config, k: nat)
    requires k > 0 || c.initial <= c.max
    ensures Backoff(c, k) == Min(Doubled(c, k), c.max)
  {
    if k > 1 {
      BackoffClosedForm(c, k - 1);
    }
  }

  lemma {:induction false} NewestFailures(w: seq<bool>, size: nat)
    ensures Failures(Newest(w, size)) <= Failures(w)
  {
    if |w| > size {
      NewestFailures(w[1..], size);
      assert w == [w[0]] + w[1..];
    }
  }

  lemma AppendFailures(w: seq<bool>, x: bool, size: nat)
    ensures Failures(Append(w, x, size)) <= Failures(w) + if x then 1 else 0
  {
    NewestFailures(w + [x], size);
  }

  ghost predicate Inv(c: Config, t: Tracked) {
    && |t.b.window| <= c.windowSize
    && t.b.cooldown == Backoff(c, t.reopened)
    && (t.b.phase == Closed ==> t.reopened == 0 && (Failures(t.b.window) < c.threshold || Failures(t.b.window) == 0))
  }

  lemma StepInv(c: Config, t: Tracked, s: Section)
    requires Inv(c, t)
    ensures Inv(c, Step(c, t, s))
  {
    AppendFailures(t.b.window, false, c.windowSize);
    AppendFailures(t.b.window, true, c.windowSize);
  }

  lemma {:induction false} RunInv(c: Config, sections: seq<Section>)
    ensures Inv(c, Run(c, sections))
  {
    if sections != [] {
      RunInv(c, sections[..|sections| - 1]);
      StepInv(c, Run(c, sections[..|sections| - 1]), sections[|sections| - 1]);
    }
  }

  /**
   However the threads interleave: the window never outgrows its size, the cooldown is the one for the number of
   reopenings since the breaker was last closed, and a closed breaker has the initial cooldown and, for any threshold
   of at least one, fewer failures in its window than the threshold.
   */
  lemma AlwaysConsistent(c: Config, sections: seq<Section>)
    ensures Run(c, sections).reopened > 0 ==> Run(c, sections).b.cooldown <= c.max
    ensures var t := Run(c, sections);
      && |t.b.window| <= c.windowSize
      && t.b.cooldown == (if t.reopened == 0 then c.initial else Min(Doubled(c, t.reopened), c.max))
      && (t.b.phase == Closed ==> t.b.cooldown == c.initial)
      && (t.b.phase == Closed && c.threshold >= 1 ==> Failures(t.b.window) < c.threshold)
  {
    RunInv(c, sections);
    if Run(c, sections).reopened > 0 {
      BackoffClosedForm(c, Run(c, sections).reopened);
    }
  }

  // What the window holds, and when the breaker opens.

  /** The outcomes that count after a section: a probe's outcome and a reset forget those before. */
  function Reported(phase: Phase, reports: seq<bool>, s: Section): seq<bool> {
    if s.Gate? then reports
    else if s.WasReset? || phase == HalfOpen then []
    else reports + [s.Failed?]
  }

  /** The outcomes reported since the breaker was last closed, reopened or reset, oldest first; true is a failure. */
  function Reports(c: Config, sections: seq<Section>): seq<bool> {
    if sections == [] then []
    else
      var rest, last := sections[..|sections| - 1], sections[|sections| - 1];
      Reported(Run(c, rest).b.phase, Reports(c, rest), last)
  }

  /** The last n elements, or all if there are fewer. */
  function Last(w: seq<bool>, n: nat): seq<bool> {
    if |w| <= n then w else w[|w| - n..]
  }

  lemma {:induction false} NewestIsLast(w: seq<bool>, size: nat)
    ensures Newest(w, size) == Last(w, size)
  {
    if |w| > size {
      NewestIsLast(w[1..], size);
    }
  }

  lemma LastOfAppended(w: seq<bool>, x: bool, n: nat)
    ensures Last(Last(w, n) + [x], n) == Last(w + [x], n)
  {
  }

  lemma StepWindow(c: Config, t: Tracked, reports: seq<bool>, s: Section)
    requires t.b.window == Last(reports, c.windowSize)
    ensures Step(c, t, s).b.window == Last(Reported(t.b.phase, reports, s), c.windowSize)
  {
    NewestIsLast(t.b.window + [s.Failed?], c.windowSize);
    LastOfAppended(reports, s.Failed?, c.windowSize);
  }

  /** In every interleaving the window holds the latest outcomes, as many as fit. */
  lemma {:induction false} WindowHoldsLatest(c: Config, sections: seq<Section>)
    ensures Run(c, sections).b.window == Last(Reports(c, sections), c.windowSize)
  {
    if sections != [] {
      var rest, last := sections[..|sections| - 1], sections[|sections| - 1];
      WindowHoldsLatest(c, rest);
      StepWindow(c, Run(c, rest), Reports(c, rest), last);
    }
  }

  /**
   In every interleaving, a failure that is no probe's opens the breaker, or opens it anew, exactly when the latest
   outcomes, this one included, hold at least as many failures as the threshold; otherwise it changes nothing else.
   */
  lemma FailureOpensIff(c: Config, sections: seq<Section>, now: real)
    requires Run(c, sections).b.phase != HalfOpen
    ensures var b, b' := Run(c, sections).b, Run(c, sections + [Failed(now)]).b;
      if Failures(Last(Reports(c, sections) + [true], c.windowSize)) >= c.threshold
      then b'.phase == Open && b'.openedAt == now && b'.cooldown == b.cooldown
      else b'.phase == b.phase && b'.openedAt == b.openedAt && b'.cooldown == b.cooldown
  {
    var after := sections + [Failed(now)];
    assert after[..|sections|] == sections;
    WindowHoldsLatest(c, sections);
    WindowHoldsLatest(c, after);
  }

  /** A probe decides: its success closes the breaker and forgets the past, its failure opens it again for longer. */
  lemma ProbeDecides(c: Config, sections: seq<Section>, now: real)
    requires Run(c, sections).b.phase == HalfOpen
    ensures Run(c, sections + [Succeeded]).b.phase == Closed && Run(c, sections + [Succeeded]).b.cooldown == c.initial
    ensures Reports(c, sections + [Succeeded]) == [] && Reports(c, sections + [Failed(now)]) == []
    ensures var b, b' := Run(c, sections).b, Run(c, sections + [Failed(now)]).b;
      && b'.phase == Open && b'.openedAt == now
      && b'.cooldown == (if 2.0 * b.cooldown <= c.max then 2.0 * b.cooldown else c.max)
  {
    assert (sections + [Succeeded])[..|sections|] == sections;
    assert (sections + [Failed(now)])[..|sections|] == sections;
  }

  predicate EndsWithFailures(w: seq<bool>, k: nat) {
    |w| >= k && forall i :: |w| - k <= i < |w| ==> w[i]
  }

  lemma {:induction false} FailuresAtLeast(w: seq<bool>, k: nat)
    requires EndsWithFailures(w, k)
    ensures Failures(w) >= k
  {
    if k > 0 {
      FailuresAtLeast(w[..|w| - 1], k - 1);
      assert w == w[..|w| - 1] + [w[|w| - 1]];
    }
  }

  /** After a failure, a closed breaker's window ends with one failure more. */
  lemma FailureAddsFailure(c: Config, b: Breaker, now: real, k: nat)
    requires b.phase == Closed && EndsWithFailures(b.window, k) && k < c.windowSize
    ensures var b' := Failure(c, b, now);
      && EndsWithFailures(b'.window, k + 1)
      && (b'.phase == Open || (b'.phase == Closed && Failures(b'.window) < c.threshold))
  {
    NewestIsLast(b.window + [true], c.windowSize);
  }

  function AllFailed(n: nat): (w: seq<bool>)
    ensures |w| == n
  {
    if n == 0 then [] else AllFailed(n - 1) + [true]
  }

  lemma {:induction false} AllFailedCount(n: nat)
    ensures Failures(AllFailed(n)) == n
  {
    if n > 0 {
      AllFailedCount(n - 1);
    }
  }

  /** One more failure when the window holds k failures and nothing else. */
  lemma FailedWhileClosed(c: Config, b: Breaker, now: real, k: nat)
    requires k < c.threshold <= c.windowSize && b.phase == Closed && b.window == AllFailed(k)
    ensures Failure(c, b, now) == if k + 1 < c.threshold then b.(window := AllFailed(k + 1))
                                  else Breaker(Open, AllFailed(k + 1), now, b.cooldown)
  {
    AllFailedCount(k + 1);
  }

  // ---------------------------------------------------------------------------
  // One caller after the other
  // ---------------------------------------------------------------------------

  /** A call, with what the function does if it is invoked. */
  datatype Attempt = Attempt(start: real, end: real, fails: bool)

  /** Attempts one after the other, none ending before it starts. */
  ghost predicate Serial(attempts: seq<Attempt>) {
    && (forall i :: 0 <= i < |attempts| ==> attempts[i].start <= attempts[i].end)
    && (forall i, j :: 0 <= i < j < |attempts| ==> attempts[i].end <= attempts[j].start)
  }

  ghost predicate AllFail(attempts: seq<Attempt>) {
    forall i :: 0 <= i < |attempts| ==> attempts[i].fails
  }

  /** The breaker, and how often the function was invoked so far. */
  datatype History = History(b: Breaker, invoked: nat)

  function Serve(c: Config, h: History, a: Attempt): History {
    var (b, invoked) := Call(c, h.b, a.start, a.end, a.fails);
    History(b, if invoked then h.invoked + 1 else h.invoked)
  }

  /** After the first m calls. */
  function Served(c: Config, attempts: seq<Attempt>, m: nat): History
    requires m <= |attempts|
  {
    if m == 0 then History(Fresh(c), 0) else Serve(c, Served(c, attempts, m - 1), attempts[m - 1])
  }

  /** The m-th call reaches the function. */
  predicate InvokedAt(c: Config, attempts: seq<Attempt>, m: nat)
    requires m < |attempts|
  {
    Served(c, attempts, m + 1).invoked > Served(c, attempts, m).invoked
  }

  /** Which calls reach the function, and which of them leave the breaker open. */
  lemma ServeOne(c: Config, h: History, a: Attempt, after: History)
    requires after == Serve(c, h, a)
    ensures after.invoked > h.invoked <==> h.b.phase != Open || a.start - h.b.openedAt >= h.b.cooldown
    ensures after.invoked > h.invoked && after.b.phase == Open ==> a.fails && after.b.openedAt == a.end
    ensures after.invoked > h.invoked || after == h
  {
  }

  lemma ServeAt(c: Config, attempts: seq<Attempt>, m: nat)
    requires m < |attempts|
    ensures var h, after := Served(c, attempts, m), Served(c, attempts, m + 1);
      && (InvokedAt(c, attempts, m) <==> h.b.phase != Open || attempts[m].start - h.b.openedAt >= h.b.cooldown)
      && (InvokedAt(c, attempts, m) && after.b.phase == Open ==>
           attempts[m].fails && after.b.openedAt == attempts[m].end)
      && (InvokedAt(c, attempts, m) || after == h)
  {
    ServeOne(c, Served(c, attempts, m), attempts[m], Served(c, attempts, m + 1));
  }

  /** Whole calls never leave the breaker half-open behind: each probe decides before the next call comes. */
  lemma {:induction false} NeverLeftHalfOpen(c: Config, attempts: seq<Attempt>, m: nat)
    requires m <= |attempts|
    ensures Served(c, attempts, m).b.phase != HalfOpen
  {
    if m > 0 {
      NeverLeftHalfOpen(c, attempts, m - 1);
    }
  }

  lemma {:induction false} InvocationsGrow(c: Config, attempts: seq<Attempt>, i: nat, m: nat)
    requires i <= m <= |attempts|
    ensures Served(c, attempts, i).invoked <= Served(c, attempts, m).invoked
    decreases m
  {
    if i < m {
      InvocationsGrow(c, attempts, i, m - 1);
    }
  }

  lemma {:induction false} OpenedByInvocation(c: Config, attempts: seq<Attempt>, m: nat) returns (j: nat)
    requires m <= |attempts| && Served(c, attempts, m).b.phase == Open
    ensures j < m && InvokedAt(c, attempts, j) && attempts[j].fails
    ensures Served(c, attempts, m).b.openedAt == attempts[j].end && Served(c, attempts, m) == Served(c, attempts, j + 1)
  {
    j := m - 1;
    ServeAt(c, attempts, j);
    if !InvokedAt(c, attempts, j) {
      j := OpenedByInvocation(c, attempts, j);
    }
  }

  /** An open breaker was opened by the last invocation, which failed, when that invocation ended. */
  lemma OpenedByLastInvocation(c: Config, attempts: seq<Attempt>, m: nat) returns (j: nat)
    requires m <= |attempts| && Served(c, attempts, m).b.phase == Open
    ensures j < m && InvokedAt(c, attempts, j) && attempts[j].fails
    ensures Served(c, attempts, m).b.openedAt == attempts[j].end
    ensures forall i :: j < i < m ==> !InvokedAt(c, attempts, i)
  {
    j := OpenedByInvocation(c, attempts, m);
    forall i | j < i < m ensures !InvokedAt(c, attempts, i) {
      InvocationsGrow(c, attempts, j + 1, i);
      InvocationsGrow(c, attempts, i + 1, m);
    }
  }

  /**
   While the breaker is open, a call reaches the function exactly when the cooldown has passed since the end of the
   last invocation. A breaker that is not open lets every call through.
   */
  lemma InvokedIffCooledDown(c: Config, attempts: seq<Attempt>, m: nat) returns (j: nat)
    requires m < |attempts|
    ensures Served(c, attempts, m).b.phase != Open ==> InvokedAt(c, attempts, m)
    ensures Served(c, attempts, m).b.phase == Open ==>
      && j < m && InvokedAt(c, attempts, j) && (forall i :: j < i < m ==> !InvokedAt(c, attempts, i))
      && (InvokedAt(c, attempts, m) <==> attempts[m].start - attempts[j].end >= Served(c, attempts, m).b.cooldown)
  {
    j := 0;
    ServeAt(c, attempts, m);
    if Served(c, attempts, m).b.phase == Open {
      j := OpenedByLastInvocation(c, attempts, m);
    }
  }

  /** A failing call to a closed breaker whose window holds k failures and nothing else. */
  lemma ServeClosed(c: Config, h: History, a: Attempt, k: nat, after: History)
    requires k < c.threshold <= c.windowSize && a.fails && after == Serve(c, h, a)
    requires h.b == Breaker(Closed, AllFailed(k), h.b.openedAt, c.initial)
    ensures after == History(if k + 1 < c.threshold then Breaker(Closed, AllFailed(k + 1), h.b.openedAt, c.initial)
                             else Breaker(Open, AllFailed(k + 1), a.end, c.initial), h.invoked + 1)
  {
    FailedWhileClosed(c, h.b, a.end, k);
  }

  /** A failing call to an open breaker. */
  lemma ServeOpen(c: Config, h: History, a: Attempt, after: History)
    requires h.b.phase == Open && a.fails && after == Serve(c, h, a)
    ensures after == if a.start - h.b.openedAt >= h.b.cooldown
                     then History(Breaker(Open, [], a.end, Min(h.b.cooldown * 2.0, c.max)), h.invoked + 1) else h
  {
  }

  /** Before the threshold is reached every call goes through, and exactly at the threshold the breaker opens. */
  lemma {:induction false} OpensAtThreshold(c: Config, attempts: seq<Attempt>, m: nat)
    requires AllFail(attempts) && 1 <= c.threshold <= c.windowSize && m <= |attempts| && m <= c.threshold
    ensures Served(c, attempts, m) ==
      History(if m < c.threshold then Breaker(Closed, AllFailed(m), 0.0, c.initial)
              else Breaker(Open, AllFailed(m), attempts[m - 1].end, c.initial), m)
  {
    if m > 0 {
      OpensAtThreshold(c, attempts, m - 1);
      ServeClosed(c, Served(c, attempts, m - 1), attempts[m - 1], m - 1, Served(c, attempts, m));
    }
  }

  /** A failing call to a closed breaker opens it, or leaves it closed with a failure more at the end of the window. */
  lemma FailingCall(c: Config, h: History, a: Attempt, after: History, k: nat)
    requires h.b.phase == Closed && EndsWithFailures(h.b.window, k) && k < c.windowSize
    requires a.fails && after == Serve(c, h, a)
    ensures after.b.phase == Open
      || (after.b.phase == Closed && EndsWithFailures(after.b.window, k + 1) && Failures(after.b.window) < c.threshold)
    ensures after.invoked == h.invoked + 1
  {
    FailureAddsFailure(c, h.b, a.end, k);
  }

  predicate OpenAfter(c: Config, attempts: seq<Attempt>, m: nat)
    requires m <= |attempts|
  {
    Served(c, attempts, m).b.phase == Open
  }

  /** A closed breaker with k failures at the end of its window, and fewer than the threshold if there is any. */
  ghost predicate ClosedWith(c: Config, b: Breaker, k: nat) {
    b.phase == Closed && EndsWithFailures(b.window, k) && (k > 0 ==> Failures(b.window) < c.threshold)
  }

  /** As long as failing calls in a row do not open the breaker, their failures pile up in its window. */
  lemma {:induction false} FailuresPileUp(c: Config, attempts: seq<Attempt>, m: nat, k: nat)
    requires 1 <= c.threshold <= c.windowSize && k <= c.threshold && m + k <= |attempts|
    requires Served(c, attempts, m).b.phase == Closed && forall i :: m <= i < m + k ==> attempts[i].fails
    requires forall j :: m < j <= m + k ==> !OpenAfter(c, attempts, j)
    ensures ClosedWith(c, Served(c, attempts, m + k).b, k)
  {
    if k > 0 {
      FailuresPileUp(c, attempts, m, k - 1);
      assert !OpenAfter(c, attempts, m + k);
      FailingCall(c, Served(c, attempts, m + k - 1), attempts[m + k - 1], Served(c, attempts, m + k), k - 1);
    }
  }

  /** The breaker protects from any closed state on: at most `threshold` failing calls in a row leave it open. */
  lemma FailingRowOpens(c: Config, attempts: seq<Attempt>, m: nat)
    requires 1 <= c.threshold <= c.windowSize && m + c.threshold <= |attempts|
    requires Served(c, attempts, m).b.phase == Closed && forall i :: m <= i < m + c.threshold ==> attempts[i].fails
    ensures exists j :: m < j <= m + c.threshold && OpenAfter(c, attempts, j)
  {
    if forall j :: m < j <= m + c.threshold ==> !OpenAfter(c, attempts, j) {
      FailuresPileUp(c, attempts, m, c.threshold);
      FailuresAtLeast(Served(c, attempts, m + c.threshold).b.window, c.threshold);
    }
  }

  /** And it recovers: once the cooldown has passed, a call that succeeds closes it, with nothing remembered. */
  lemma SuccessAfterCooldownCloses(c: Config, attempts: seq<Attempt>, m: nat)
    requires m < |attempts| && !attempts[m].fails
    requires var b := Served(c, attempts, m).b; b.phase == Open && attempts[m].start - b.openedAt >= b.cooldown
    ensures var b := Served(c, attempts, m + 1).b; b.phase == Closed && b.window == [] && b.cooldown == c.initial
  {
  }

  function BackoffSum(c: Config, k: nat): real {
    if k == 0 then 0.0 else BackoffSum(c, k - 1) + Backoff(c, k - 1)
  }

  /** Cooldowns never get shorter than the first one, and so neither does their sum. */
  lemma {:induction false} BackoffSumGrows(c: Config, k: nat)
    requires c.initial <= c.max
    ensures Backoff(c, k) >= c.initial && BackoffSum(c, k) >= k as real * c.initial
  {
    if k > 0 {
      BackoffSumGrows(c, k - 1);
      assert k as real * c.initial == (k - 1) as real * c.initial + c.initial;
    }
  }

  /** The breaker has been open since then, and its last opening is at least the sum of the cooldowns later. */
  ghost predicate Probed(c: Config, h: History, since: real, now: real) {
    && h.invoked >= c.threshold && h.b.phase == Open && h.b.cooldown == Backoff(c, h.invoked - c.threshold)
    && since + BackoffSum(c, h.invoked - c.threshold) <= h.b.openedAt <= now
  }

  lemma ProbeTakesTime(c: Config, h: History, a: Attempt, after: History, since: real, now: real)
    requires Probed(c, h, since, now) && now <= a.start <= a.end && a.fails && after == Serve(c, h, a)
    ensures Probed(c, after, since, a.end)
  {
    ServeOpen(c, h, a, after);
  }

  /** Once open, the breaker stays open through the outage, and every probe moves its opening past the cooldown. */
  lemma {:induction false} ProbesTakeTime(c: Config, attempts: seq<Attempt>, m: nat)
    requires AllFail(attempts) && 1 <= c.threshold <= c.windowSize && Serial(attempts) && c.threshold <= m <= |attempts|
    ensures Probed(c, Served(c, attempts, m), attempts[c.threshold - 1].end, attempts[m - 1].end)
  {
    if m == c.threshold {
      OpensAtThreshold(c, attempts, m);
    } else {
      ProbesTakeTime(c, attempts, m - 1);
      ProbeTakesTime(c, Served(c, attempts, m - 1), attempts[m - 1], Served(c, attempts, m),
                     attempts[c.threshold - 1].end, attempts[m - 2].end);
    }
  }

  /**
   The load of an outage, from a fresh breaker whose threshold fits its window: the first `threshold` calls reach the
   function and open the breaker, and every k invocations after that take at least the first k cooldowns.
   */
  lemma OutageLoadBounded(c: Config, attempts: seq<Attempt>)
    requires AllFail(attempts) && 1 <= c.threshold <= c.windowSize && c.threshold <= |attempts| && Serial(attempts)
    ensures Served(c, attempts, c.threshold).invoked == c.threshold
    ensures var probes := Served(c, attempts, |attempts|).invoked - c.threshold;
      probes >= 0 && attempts[|attempts| - 1].end - attempts[c.threshold - 1].end >= BackoffSum(c, probes)
  {
    OpensAtThreshold(c, attempts, c.threshold);
    ProbesTakeTime(c, attempts, |attempts|);
  }

  /** The breaker is closed, with a window that fits. */
  predicate ClosedWithin(c: Config, b: Breaker) {
    b.phase == Closed && |b.window| <= c.windowSize
  }

  lemma FailureKeepsClosed(c: Config, b: Breaker, now: real)
    requires c.threshold > c.windowSize && ClosedWithin(c, b)
    ensures ClosedWithin(c, Failure(c, b, now))
  {
    AppendFailures(b.window, true, c.windowSize);
    FailuresAtMostLength(Append(b.window, true, c.windowSize));
  }

  lemma ServeKeepsClosed(c: Config, h: History, a: Attempt, after: History)
    requires c.threshold > c.windowSize && ClosedWithin(c, h.b) && a.fails && after == Serve(c, h, a)
    ensures ClosedWithin(c, after.b) && after.invoked == h.invoked + 1
  {
    FailureKeepsClosed(c, h.b, a.end);
  }

  /** A threshold above the window size is never reached: such a breaker lets every call of an outage through. */
  lemma {:induction false} NeverOpensWhenWindowTooSmall(c: Config, attempts: seq<Attempt>, m: nat)
    requires AllFail(attempts) && c.threshold > c.windowSize && m <= |attempts|
    ensures ClosedWithin(c, Served(c, attempts, m).b) && Served(c, attempts, m).invoked == m
  {
    if m > 0 {
      NeverOpensWhenWindowTooSmall(c, attempts, m - 1);
      ServeKeepsClosed(c, Served(c, attempts, m - 1), attempts[m - 1], Served(c, attempts, m));
    }
  }

  lemma {:induction false} FailuresAtMostLength(w: seq<bool>)
    ensures Failures(w) <= |w|
  {
    if w != [] {
      FailuresAtMostLength(w[1..]);
      assert w == [w[0]] + w[1..];
    }
  }
}
