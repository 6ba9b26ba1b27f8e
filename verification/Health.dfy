/**
 Failure counting, alerts and reconnection of internal/poller/poller.go. Ticks, applies and the reconnecting
 goroutine interleave at the sections they run under the mutex and at the atomic flags.
*/
module Health {
  const ALERT_THRESHOLD := 3

  datatype Alert = Unhealthy | Recovered

  /** Where a goroutine running `reconnect` stands; `current` tells whether the last clearing was before it began. */
  datatype Phase =
    | Spawned
    | Asleep(delay: nat, current: bool)
    | Dialing(current: bool)
    | Connected(current: bool)
    | Returning

  /** `asking` counts the calls of `setLastError` that have left the mutex and not yet looked at `running`, `ready`
      those that have and not yet swapped the flag. The alerts decided, the delays slept since the last clearing, all
      delays slept, and whether the poller was stopped since the last clearing are kept as history. */
  datatype State = State(
    failures: nat, backoff: nat, alerted: bool, running: bool, reconnecting: bool,
    asking: nat, ready: nat, workers: seq<Phase>,
    alerts: seq<Alert>, streak: seq<nat>, delays: seq<nat>, halted: bool)

  const START := State(0, 0, false, true, false, 0, 0, [], [], [], [], false)

  datatype Step =
    | Fail                    // setLastError, under the mutex
    | Ask(canConnect: bool)   // setLastError, the load of the running flag
    | Claim                   // setLastError, the compare-and-swap
    | Clear                   // clearLastError after a tick
    | Start
    | Stop
    | Begin(w: nat)           // reconnect, first section
    | Wake(w: nat)
    | DialFails(w: nat)
    | DialSucceeds(w: nat)
    | Restored(w: nat)        // clearLastError at the end of reconnect
    | Finish(w: nat)          // the deferred reset of the flag

  function CountFailure(s: State): State {
    var failures := s.failures + 1;
    var alert := failures >= ALERT_THRESHOLD && !s.alerted;
    s.(failures := failures, alerted := s.alerted || alert,
       alerts := if alert then s.alerts + [Unhealthy] else s.alerts,
       asking := if failures > 2 then s.asking + 1 else s.asking)
  }

  /** No goroutine counts as begun since this clearing. */
  function Dated(p: Phase): Phase {
    match p
    case Asleep(delay, _) => Asleep(delay, false)
    case Dialing(_) => Dialing(false)
    case Connected(_) => Connected(false)
    case _ => p
  }

  function DatedAll(ps: seq<Phase>): (r: seq<Phase>)
    ensures |r| == |ps| && forall i :: 0 <= i < |ps| ==> r[i] == Dated(ps[i])
  {
    seq(|ps|, i requires 0 <= i < |ps| => Dated(ps[i]))
  }

  function ClearError(s: State): State {
    s.(failures := 0, backoff := 0, alerted := false, streak := [], halted := !s.running,
       workers := DatedAll(s.workers),
       alerts := if s.alerted then s.alerts + [Recovered] else s.alerts)
  }

  function AskReconnect(s: State, canConnect: bool): State
    requires s.asking > 0
  {
    s.(asking := s.asking - 1, ready := if s.running && canConnect then s.ready + 1 else s.ready)
  }

  function ClaimReconnect(s: State): State
    requires s.ready > 0
  {
    var s1 := s.(ready := s.ready - 1);
    if s.reconnecting then s1 else s1.(reconnecting := true, workers := s.workers + [Spawned])
  }

  function BeginReconnect(s: State, w: nat): State
    requires w < |s.workers|
  {
    var delay := if s.backoff == 0 then 5 else s.backoff;
    s.(backoff := delay, workers := s.workers[w := Asleep(delay, true)],
       streak := s.streak + [delay], delays := s.delays + [delay])
  }

  function ReconnectFails(s: State, w: nat): State
    requires w < |s.workers|
  {
    var doubled := s.backoff * 2;
    s.(failures := s.failures + 1, backoff := if doubled > 60 then 60 else doubled,
       workers := s.workers[w := Returning])
  }

  /** One step; a step that cannot be taken changes nothing. */
  function Next(s: State, step: Step): State {
    match step
    case Fail => CountFailure(s)
    case Ask(canConnect) => if s.asking > 0 then AskReconnect(s, canConnect) else s
    case Claim => if s.ready > 0 then ClaimReconnect(s) else s
    case Clear => ClearError(s)
    case Start => s.(running := true)
    case Stop => s.(running := false, halted := true)
    case Begin(w) => if w < |s.workers| && s.workers[w].Spawned? then BeginReconnect(s, w) else s
    case Wake(w) =>
      if w < |s.workers| && s.workers[w].Asleep? then
        s.(workers := s.workers[w := if s.running then Dialing(s.workers[w].current) else Returning])
      else s
    case DialFails(w) => if w < |s.workers| && s.workers[w].Dialing? then ReconnectFails(s, w) else s
    case DialSucceeds(w) =>
      if w < |s.workers| && s.workers[w].Dialing? then s.(workers := s.workers[w := Connected(s.workers[w].current)])
        else s
    case Restored(w) =>
      if w < |s.workers| && s.workers[w].Connected? then ClearError(s.(workers := s.workers[w := Returning])) else s
    case Finish(w) =>
      if w < |s.workers| && s.workers[w].Returning? then
        s.(reconnecting := false, workers := s.workers[..w] + s.workers[w + 1..])
      else s
  }

  function Run(s: State, steps: seq<Step>): State
    decreases |steps|
  {
    if steps == [] then s else Run(Next(s, steps[0]), steps[1..])
  }

  // ----- what every step keeps -----

  /** Alerts alternate, the first being unhealthy; one is outstanding exactly when the flag is set. */
  ghost predicate AlertsAlternate(s: State) {
    && (forall i :: 0 <= i < |s.alerts| ==> s.alerts[i] == if i % 2 == 0 then Unhealthy else Recovered)
    && (s.alerted <==> |s.alerts| % 2 == 1)
    && (s.alerted ==> s.failures >= ALERT_THRESHOLD)
  }

  ghost predicate OneWorker(s: State) {
    |s.workers| == if s.reconnecting then 1 else 0
  }

  /** Twice the delay, at most 60 s. */
  function Twice(delay: nat): nat {
    if delay * 2 > 60 then 60 else delay * 2
  }

  /** The n-th delay of an outage: 5 s, doubled each time, at most 60 s. */
  function Doubled(n: nat): nat {
    if n == 0 then 5 else Twice(Doubled(n - 1))
  }

  /** A goroutine has been given a delay and has neither failed nor come back. */
  predicate InFlight(s: State) {
    s.workers != [] && (s.workers[0].Asleep? || s.workers[0].Dialing? || s.workers[0].Connected?)
  }

  predicate Current(p: Phase) {
    match p
    case Asleep(_, current) => current
    case Dialing(current) => current
    case Connected(current) => current
    case _ => false
  }

  /** Delays begin with 5 s; each repeats the one before it or doubles it. */
  predicate Grows(delays: seq<nat>) {
    && (delays != [] ==> delays[0] == 5)
    && forall i :: 0 <= i < |delays| - 1 ==> delays[i + 1] == delays[i] || delays[i + 1] == Twice(delays[i])
  }

  predicate Doubles(delays: seq<nat>) {
    && (delays != [] ==> delays[0] == 5)
    && forall i :: 0 <= i < |delays| - 1 ==> delays[i + 1] == Twice(delays[i])
  }

  /** `backoff` is the last delay slept, while it is being slept, and from then on the next one. */
  ghost predicate BackoffFollows(s: State) {
    var n := |s.streak|;
    && Grows(s.streak)
    && (n == 0 ==> s.backoff == 0)
    && (InFlight(s) ==> (Current(s.workers[0]) <==> n > 0))
    && (n > 0 && InFlight(s) ==> s.backoff == s.streak[n - 1])
    && (n > 0 && !InFlight(s) ==> s.backoff == s.streak[n - 1] || s.backoff == Twice(s.streak[n - 1]))
    && (!s.halted ==>
          && s.running && Doubles(s.streak)
          && (n > 0 && !InFlight(s) ==> s.backoff == Twice(s.streak[n - 1])))
  }

  /** Every delay ever slept. */
  predicate GoodDelay(d: nat) {
    d in {5, 10, 20, 40, 60}
  }

  predicate GoodDelays(s: State) {
    (forall d <- s.delays :: GoodDelay(d)) && (forall d <- s.streak :: GoodDelay(d))
  }

  /** Doubling step by step is the doubling sequence. */
  lemma {:induction false} DoublesMeaning(delays: seq<nat>, i: nat)
    requires Doubles(delays) && i < |delays|
    ensures delays[i] == Doubled(i)
  {
    if i == 0 {
    } else {
      DoublesMeaning(delays, i - 1);
      assert delays[i - 1 + 1] == Twice(delays[i - 1]);
    }
  }

  lemma AlertsKept(s: State, step: Step)
    requires AlertsAlternate(s)
    ensures AlertsAlternate(Next(s, step))
  {
  }

  lemma OneWorkerKept(s: State, step: Step)
    requires OneWorker(s)
    ensures OneWorker(Next(s, step))
  {
  }

  lemma BeginKeeps(s: State, w: nat)
    requires OneWorker(s) && BackoffFollows(s) && GoodDelays(s) && w < |s.workers| && s.workers[w] == Spawned
    ensures BackoffFollows(BeginReconnect(s, w)) && GoodDelays(BeginReconnect(s, w))
  {
    var n, r := |s.streak|, BeginReconnect(s, w);
    if n > 0 { assert s.streak[n - 1] in s.streak; }
    assert r.streak[n] == r.backoff;
    assert forall i :: 0 <= i < n ==> r.streak[i] == s.streak[i];
  }

  lemma FailKeeps(s: State, w: nat)
    requires OneWorker(s) && BackoffFollows(s) && w < |s.workers| && s.workers[w].Dialing?
    ensures BackoffFollows(ReconnectFails(s, w))
  {
    hide Grows, Doubles;
  }

  lemma ClearKeeps(s: State)
    requires BackoffFollows(s) && GoodDelays(s)
    ensures BackoffFollows(ClearError(s)) && GoodDelays(ClearError(s))
  {
  }

  lemma RestoredKeeps(s: State, w: nat)
    requires OneWorker(s) && BackoffFollows(s) && GoodDelays(s) && w < |s.workers| && s.workers[w].Connected?
    ensures BackoffFollows(ClearError(s.(workers := s.workers[w := Returning])))
    ensures GoodDelays(ClearError(s.(workers := s.workers[w := Returning])))
  {
  }

  lemma BackoffKept(s: State, step: Step)
    requires OneWorker(s) && BackoffFollows(s) && GoodDelays(s)
    ensures BackoffFollows(Next(s, step)) && GoodDelays(Next(s, step))
  {
    hide ClearError, Grows, Doubles, Twice, GoodDelay;
    match step
    case Begin(w) => if w < |s.workers| && s.workers[w].Spawned? { BeginKeeps(s, w); }
    case DialFails(w) => if w < |s.workers| && s.workers[w].Dialing? { FailKeeps(s, w); }
    case Clear => ClearKeeps(s);
    case Restored(w) => if w < |s.workers| && s.workers[w].Connected? { RestoredKeeps(s, w); }
    case _ =>
  }

  lemma {:induction false} RunKeeps(s: State, steps: seq<Step>)
    requires AlertsAlternate(s) && OneWorker(s) && BackoffFollows(s) && GoodDelays(s)
    ensures var r := Run(s, steps); AlertsAlternate(r) && OneWorker(r) && BackoffFollows(r) && GoodDelays(r)
    decreases |steps|
  {
    hide AlertsAlternate, OneWorker, BackoffFollows, GoodDelays, Next;
    if steps == [] {
    } else {
      AlertsKept(s, steps[0]);
      OneWorkerKept(s, steps[0]);
      BackoffKept(s, steps[0]);
      RunKeeps(Next(s, steps[0]), steps[1..]);
    }
  }

  /** Main result. In every interleaving, alerts alternate beginning with unhealthy, the flag means at least three
      counted failures, and at most one reconnect is in flight. Every delay is 5, 10, 20, 40 or 60 seconds; since the
      last clearing they began with 5, and each repeated or doubled the one before it; unless the poller has been
      stopped since then, they have doubled each time, up to 60. */
  lemma EveryInterleaving(steps: seq<Step>)
    ensures var s := Run(START, steps);
      && (forall i :: 0 <= i < |s.alerts| ==> s.alerts[i] == if i % 2 == 0 then Unhealthy else Recovered)
      && (s.alerted <==> |s.alerts| % 2 == 1)
      && (s.alerted ==> s.failures >= ALERT_THRESHOLD)
      && |s.workers| <= 1
      && (forall d <- s.delays :: d in {5, 10, 20, 40, 60})
      && Grows(s.streak)
      && (!s.halted ==> forall i :: 0 <= i < |s.streak| ==> s.streak[i] == Doubled(i))
  {
    RunKeeps(START, steps);
    hide Run, Doubled, Doubles, Grows;
    var s := Run(START, steps);
    if !s.halted {
      forall i | 0 <= i < |s.streak| ensures s.streak[i] == Doubled(i) {
        DoublesMeaning(s.streak, i);
      }
    }
  }

  // ----- what three failures bring -----

  predicate Clears(step: Step) {
    step.Clear? || step.Restored?
  }

  function FailsIn(steps: seq<Step>): nat {
    if steps == [] then 0 else (if steps[0].Fail? then 1 else 0) + FailsIn(steps[1..])
  }

  function DialsIn(steps: seq<Step>): nat {
    if steps == [] then 0 else (if steps[0].DialFails? then 1 else 0) + DialsIn(steps[1..])
  }

  lemma StepCounts(s: State, step: Step)
    requires !Clears(step)
    ensures var t := Next(s, step);
      && t.failures >= s.failures + (if step.Fail? then 1 else 0)
      && t.failures <= s.failures + (if step.Fail? || step.DialFails? then 1 else 0)
      && (s.alerted ==> t.alerted && t.alerts == s.alerts)
      && (!s.alerted && !t.alerted ==> t.alerts == s.alerts)
      && (!s.alerted && t.alerted ==> step.Fail? && t.failures >= 3 && t.alerts == s.alerts + [Unhealthy])
      && (step.Fail? && t.failures >= 3 ==> t.alerted)
  {
  }

  /** Main result. Without a clearing in between, three failures that `setLastError` counts bring the alert, whatever
      else goes on, and exactly one; fewer than three failures of any kind bring none. */
  lemma {:induction false} ThirdFailureAlerts(s: State, steps: seq<Step>)
    requires forall step <- steps :: !Clears(step)
    ensures var t := Run(s, steps);
      && t.failures >= s.failures + FailsIn(steps)
      && t.failures <= s.failures + FailsIn(steps) + DialsIn(steps)
      && (FailsIn(steps) > 0 && s.failures + FailsIn(steps) >= 3 ==> t.alerted)
      && (s.alerted || s.failures + FailsIn(steps) + DialsIn(steps) < 3
          ==> t.alerted == s.alerted && t.alerts == s.alerts)
      && (!s.alerted && t.alerted ==> t.alerts == s.alerts + [Unhealthy])
    decreases |steps|
  {
    hide Next;
    if steps == [] {
    } else {
      assert steps[0] in steps;
      StepCounts(s, steps[0]);
      ThirdFailureAlerts(Next(s, steps[0]), steps[1..]);
    }
  }

  /** A clearing forgets the failures, and announces recovery exactly when there was an alert. */
  lemma ClearForgets(s: State)
    ensures var t := Next(s, Clear);
      && t.failures == 0 && t.backoff == 0 && !t.alerted
      && t.alerts == (if s.alerted then s.alerts + [Recovered] else s.alerts)
  {
  }

  /** Main result. When none is in flight, the third failure of a running poller that can connect starts a
      reconnect. */
  lemma ThirdFailureReconnects(s: State)
    requires s.failures >= 2 && s.running && !s.reconnecting && OneWorker(s)
    ensures var t := Run(s, [Fail, Ask(true), Claim]);
      t.reconnecting && t.workers == [Spawned] && t.running && t.backoff == s.backoff
  {
    RunThree(s, Fail, Ask(true), Claim);
  }

  /** It sleeps the delay, and dials. */
  lemma ReconnectDials(s: State)
    requires s.running && s.workers == [Spawned]
    ensures var t := Run(s, [Begin(0), Wake(0)]);
      && t.workers == [Dialing(true)] && t.delays == s.delays + [if s.backoff == 0 then 5 else s.backoff]
      && t.backoff == (if s.backoff == 0 then 5 else s.backoff) && t.failures == s.failures
      && t.reconnecting == s.reconnecting
  {
    RunTwo(s, Begin(0), Wake(0));
  }

  /** A dial that succeeds clears; one that fails counts, and lets a later failure start another reconnect. */
  lemma ReconnectEnds(s: State)
    requires s.workers == [Dialing(true)]
    ensures var t := Run(s, [DialSucceeds(0), Restored(0), Finish(0)]);
      t.failures == 0 && !t.alerted && !t.reconnecting && t.workers == []
    ensures var t := Run(s, [DialFails(0), Finish(0)]);
      t.failures == s.failures + 1 && !t.reconnecting && t.workers == [] && t.backoff == Twice(s.backoff)
  {
    hide Run;
    RunThree(s, DialSucceeds(0), Restored(0), Finish(0));
    RunTwo(s, DialFails(0), Finish(0));
  }

  lemma RunTwo(s: State, x: Step, y: Step)
    ensures Run(s, [x, y]) == Next(Next(s, x), y)
  {
    hide Next;
    assert [x, y][1..] == [y] && [y][1..] == [];
    var s1 := Next(s, x);
    assert Run(s1, [y]) == Run(Next(s1, y), []);
  }

  lemma RunThree(s: State, x: Step, y: Step, z: Step)
    ensures Run(s, [x, y, z]) == Next(Next(Next(s, x), y), z)
  {
    hide Next;
    assert [x, y, z][1..] == [y, z];
    RunTwo(Next(s, x), y, z);
  }

  /** Before the third failure no reconnect is asked for. */
  lemma TwoFailuresAskNothing(s: State)
    ensures Next(s, Fail).asking == s.asking + (if s.failures >= 2 then 1 else 0)
  {
  }

  // ----- the fields of the poller -----

  /** The poller's health fields. The rest is the state of the goroutines, kept for the proof. */
  class Monitor {
    var consecutiveFailures: nat
    var backoff: nat
    var alertedUnhealthy: bool
    var running: bool
    var reconnecting: bool
    ghost var asking: nat
    ghost var ready: nat
    ghost var workers: seq<Phase>
    ghost var alerts: seq<Alert>
    ghost var streak: seq<nat>
    ghost var delays: seq<nat>
    ghost var halted: bool

    ghost function View(): State
      reads this
    {
      State.State(consecutiveFailures, backoff, alertedUnhealthy, running, reconnecting, asking, ready, workers, alerts,
                  streak, delays,
                  halted)
    }

    constructor ()
      ensures View() == START
    {
      consecutiveFailures, backoff, alertedUnhealthy, running, reconnecting := 0, 0, false, true, false;
      asking, ready, workers, alerts, streak, delays, halted := 0, 0, [], [], [], [], false;
    }

    /** The first section of `setLastError`: the count, and whether to send an alert. */
    method CountError() returns (cf: nat, shouldAlert: bool)
      modifies this
      ensures View() == Next(old(View()), Fail) && cf == consecutiveFailures
      ensures alerts == if shouldAlert then old(alerts) + [Unhealthy] else old(alerts)
    {
      consecutiveFailures := consecutiveFailures + 1;
      cf := consecutiveFailures;
      shouldAlert := cf >= ALERT_THRESHOLD && !alertedUnhealthy;
      if shouldAlert {
        alertedUnhealthy := true;
        alerts := alerts + [Unhealthy];
      }
      if cf > 2 { asking := asking + 1; }
    }

    /** The rest of it, for a call that counted more than two failures: first whether a reconnect is wanted ... */
    method AskReconnect(canConnect: bool) returns (wanted: bool)
      requires asking > 0
      modifies this
      ensures View() == Next(old(View()), Ask(canConnect)) && (wanted <==> ready > old(ready))
    {
      asking := asking - 1;
      wanted := running && canConnect;
      if wanted { ready := ready + 1; }
    }

    /** ... then whether to start it: the compare-and-swap, which one call at a time wins. */
    method ClaimReconnect() returns (start: bool)
      requires ready > 0
      modifies this
      ensures View() == Next(old(View()), Claim) && (start <==> |workers| > |old(workers)|)
    {
      ready := ready - 1;
      start := !reconnecting;
      if start {
        reconnecting := true;
        workers := workers + [Spawned];
      }
    }

    method ClearLastError() returns (wasAlerted: bool)
      modifies this
      ensures View() == Next(old(View()), Clear)
      ensures alerts == if wasAlerted then old(alerts) + [Recovered] else old(alerts)
    {
      wasAlerted := alertedUnhealthy;
      alertedUnhealthy := false;
      consecutiveFailures := 0;
      backoff := 0;
      streak, workers, halted := [], DatedAll(workers), !running;
      if wasAlerted { alerts := alerts + [Recovered]; }
    }

    method ReconnectDelay(ghost w: nat) returns (delay: nat)
      requires w < |workers| && workers[w].Spawned?
      modifies this
      ensures View() == Next(old(View()), Begin(w)) && delay == backoff
    {
      if backoff == 0 { backoff := 5; }
      delay := backoff;
      workers, streak, delays := workers[w := Asleep(delay, true)], streak + [delay], delays + [delay];
    }

    method ReconnectFailed(ghost w: nat)
      requires w < |workers| && workers[w].Dialing?
      modifies this
      ensures View() == Next(old(View()), DialFails(w))
    {
      consecutiveFailures := consecutiveFailures + 1;
      backoff := backoff * 2;
      if backoff > 60 { backoff := 60; }
      workers := workers[w := Returning];
    }
  }
}
