/**
 * src/requests/client.rs: the cooldown deadline shared by all request tasks, at lock granularity.
 *
 * Each lock-held section is one step. A deadline is computed before the lock is taken, so any number of
 * other steps may come between. Times are milliseconds.
 */
module Cooldown {
  import opened Wrappers
  import opened Backoff

  type Task = nat

  // ---------- The lock-held sections ----------

  /** The cooldown is still running. */
  predicate Live(stored: Option<int>, now: int) {
    stored.Some? && stored.value > now
  }

  /** A passed deadline is dropped, a live one kept. */
  function AfterCheck(stored: Option<int>, now: int): Option<int> {
    if Live(stored, now) then stored else None
  }

  function AfterRegister(stored: Option<int>, until: int): Option<int> {
    if stored.Some? && stored.value >= until then stored else Some(until)
  }

  /** now + delay, or now when the addition leaves the clock's range. */
  function Deadline(now: int, delay: nat, maxInstant: int): int {
    if now + delay <= maxInstant then now + delay else now
  }

  /** `after` is the greater of `before` and `until`. */
  predicate IsLater(before: Option<int>, until: int, after: Option<int>) {
    && after.Some? && after.value >= until
    && (before.Some? ==> after.value >= before.value)
    && (after.value == until || after == before)
  }

  const IDLE_MS := 5000

  class RateLimit {
    var rateLimitUntil: Option<int>
    var lastRateLimitAt: Option<int>
    const backoff: WorkerBackoff

    constructor ()
      ensures rateLimitUntil == None && lastRateLimitAt == None && fresh(backoff) && backoff.Valid()
              && backoff.steps == 0
      ensures backoff.minDelay == 500.0 && backoff.maxDelay == 10000.0 && backoff.multiplier == 2.0
    {
      rateLimitUntil, lastRateLimitAt := None, None;
      backoff := new WorkerBackoff(500.0, 10000.0, 2.0);
    }

    /** One turn of wait_for_rate_limit_cooldown: how long to sleep, or None to go on. */
    method Check(now: int) returns (delay: Option<int>)
      modifies this`rateLimitUntil
      ensures rateLimitUntil == AfterCheck(old(rateLimitUntil), now)
      ensures old(rateLimitUntil).Some? && old(rateLimitUntil).value > now ==>
                rateLimitUntil == old(rateLimitUntil) && delay == Some(rateLimitUntil.value - now)
      ensures old(rateLimitUntil).None? || old(rateLimitUntil).value <= now ==>
                rateLimitUntil == None && delay == None
    {
      match rateLimitUntil {
        case Some(until) =>
          if until > now {
            return Some(until - now);
          }
          rateLimitUntil := None;
          return None;
        case None =>
          return None;
      }
    }

    /** Uses the server's hint when it is not zero, the backoff otherwise; `later` is the time of the last lock. */
    method RegisterRateLimit(retryAfter: Option<nat>, unit: real, now: int, maxInstant: int, later: int)
      returns (delay: nat)
      requires backoff.Valid() && 0.0 <= unit < 1.0
      modifies this, backoff
      ensures backoff.Valid() && lastRateLimitAt == Some(later)
      ensures rateLimitUntil == AfterRegister(old(rateLimitUntil), Deadline(now, delay, maxInstant))
      // The greater of the stored deadline and the time `delay` from now, or now when the clock cannot hold that.
      ensures now + delay <= maxInstant ==> IsLater(old(rateLimitUntil), now + delay, rateLimitUntil)
      ensures now + delay > maxInstant ==> IsLater(old(rateLimitUntil), now, rateLimitUntil)
      ensures retryAfter.Some? && retryAfter.value > 0 ==>
                delay == retryAfter.value && backoff.steps == old(backoff.steps)
      ensures !(retryAfter.Some? && retryAfter.value > 0) ==>
                && backoff.steps == old(backoff.steps) + 1
                && delay == SleepMs(DelayAt(backoff.minDelay, backoff.maxDelay, backoff.multiplier,
                    old(backoff.steps)), unit).Floor
    {
      if retryAfter.Some? && retryAfter.value > 0 {
        delay := retryAfter.value;
      } else {
        delay := backoff.StepAndGetSleepDuration(unit);
      }
      var until := if now + delay <= maxInstant then now + delay else now;
      if !(rateLimitUntil.Some? && rateLimitUntil.value >= until) {
        rateLimitUntil := Some(until);
      }
      lastRateLimitAt := Some(later);
    }

    /**
     * After a success: with no live cooldown at `now`, and no rate limit within five seconds before `later`,
     * the backoff starts over.
     */
    method ResetRateLimitBackoffIfIdle(now: int, later: int)
      requires backoff.Valid()
      modifies this`rateLimitUntil, backoff
      ensures backoff.Valid() && rateLimitUntil == AfterCheck(old(rateLimitUntil), now)
      ensures backoff.steps ==
              if !(old(rateLimitUntil).Some? && old(rateLimitUntil).value > now)
                 && (lastRateLimitAt.None? || later - lastRateLimitAt.value > 5000)
              then 0 else old(backoff.steps)
    {
      var delay := Check(now);
      if delay.None? && (lastRateLimitAt.None? || later - lastRateLimitAt.value > IDLE_MS) {
        backoff.Reset();
      }
    }
  }

  // ---------- Interleaved tasks ----------

  /**
   * Where a task stands. `permitAt` is when it took its permit, `clearAt` when its second wait saw no live
   * cooldown, `seen` how many deadlines had been registered by then.
   */
  datatype Stage =
    | Resting
    | FirstWait
    | WantsPermit
    | SecondWait(permitAt: int)
    | Ready(permitAt: int, clearAt: int, seen: nat)
    | Sent(permitAt: int, clearAt: int, seen: nat, sentAt: int)
    | Registering(until: int)
  {
    predicate HoldsPermit() {
      SecondWait? || Ready? || Sent?
    }
  }

  datatype State = State(
    now: int,
    stored: Option<int>,
    permits: nat,
    tasks: map<Task, Stage>,
    registered: seq<int>)
  {
    function Of(t: Task): Stage {
      if t in tasks then tasks[t] else Resting
    }
  }

  datatype Step =
    | Tick(ms: nat)
    | Begin(t: Task)
    | Check(t: Task)
    | Acquire(t: Task)
    | Send(t: Task)
    | Respond(t: Task)
    | Compute(t: Task, delay: nat, maxInstant: int)
    | Register(t: Task)
    | Idle(t: Task)

  function Init(now: int, permits: nat): State {
    State(now, None, permits, map[], [])
  }

  predicate Enabled(s: State, step: Step) {
    match step
    case Tick(_) => true
    case Begin(t) => s.Of(t).Resting?
    case Check(t) => s.Of(t).FirstWait? || s.Of(t).SecondWait?
    case Acquire(t) => s.Of(t).WantsPermit? && s.permits > 0
    case Send(t) => s.Of(t).Ready?
    case Respond(t) => s.Of(t).Sent?
    case Compute(t, _, _) => s.Of(t).Resting?
    case Register(t) => s.Of(t).Registering?
    case Idle(t) => s.Of(t).Resting?
  }

  function Move(s: State, t: Task, stage: Stage): State {
    s.(tasks := s.tasks[t := stage])
  }

  /** The stage after a check that found no live cooldown. */
  function Cleared(s: State, stage: Stage): Stage
    requires stage.FirstWait? || stage.SecondWait?
  {
    if stage.FirstWait? then WantsPermit else Ready(stage.permitAt, s.now, |s.registered|)
  }

  function Apply(s: State, step: Step): State
    requires Enabled(s, step)
  {
    match step
    case Tick(ms) => s.(now := s.now + ms)
    case Begin(t) => Move(s, t, FirstWait)
    case Check(t) =>
      if Live(s.stored, s.now) then s
      else Move(s, t, Cleared(s, s.Of(t))).(stored := AfterCheck(s.stored, s.now))
    case Acquire(t) => Move(s, t, SecondWait(s.now)).(permits := s.permits - 1)
    case Send(t) => Move(s, t, Sent(s.Of(t).permitAt, s.Of(t).clearAt, s.Of(t).seen, s.now))
    case Respond(t) => Move(s, t, Resting).(permits := s.permits + 1)
    case Compute(t, delay, maxInstant) => Move(s, t, Registering(Deadline(s.now, delay, maxInstant)))
    case Register(t) =>
      Move(s, t, Resting).(stored := AfterRegister(s.stored, s.Of(t).until),
          registered := s.registered + [s.Of(t).until])
    case Idle(t) => s.(stored := AfterCheck(s.stored, s.now))
  }

  predicate IsRun(s: State, steps: seq<Step>)
    decreases |steps|, 0
  {
    steps == [] || (IsRun(s, steps[..|steps| - 1]) && Enabled(After(s, steps[..|steps| - 1]), steps[|steps| - 1]))
  }

  function After(s: State, steps: seq<Step>): State
    requires IsRun(s, steps)
    decreases |steps|, 1
  {
    if steps == [] then s else Apply(After(s, steps[..|steps| - 1]), steps[|steps| - 1])
  }

  // ---------- Invariants ----------

  /** No live deadline is dropped or shortened, and none is invented. */
  ghost predicate DeadlineInv(s: State) {
    && (forall d :: d in s.registered && d > s.now ==> s.stored.Some? && s.stored.value >= d)
    && (s.stored.Some? ==> s.stored.value in s.registered)
  }

  /** After its permit a ready task had a moment when everything registered by then had passed. */
  ghost predicate HadClearMoment(s: State, permitAt: int, clearAt: int, seen: nat) {
    && permitAt <= clearAt <= s.now
    && seen <= |s.registered|
    && forall i :: 0 <= i < seen ==> s.registered[i] <= clearAt
  }

  ghost predicate ClearInv(s: State) {
    && (forall t :: s.Of(t).SecondWait? ==> s.Of(t).permitAt <= s.now)
    && (forall t :: s.Of(t).Ready? || s.Of(t).Sent? ==>
          HadClearMoment(s, s.Of(t).permitAt, s.Of(t).clearAt, s.Of(t).seen))
    && (forall t :: s.Of(t).Sent? ==> s.Of(t).clearAt <= s.Of(t).sentAt <= s.now)
  }

  function Holders(s: State): set<Task> {
    set t | t in s.tasks && s.tasks[t].HoldsPermit()
  }

  lemma StepKeepsDeadline(s: State, step: Step)
    requires DeadlineInv(s) && Enabled(s, step)
    ensures DeadlineInv(Apply(s, step))
  {
  }

  /** When a check finds nothing live, nothing registered so far is live. */
  lemma ClearMeansAllPassed(s: State)
    requires DeadlineInv(s) && !Live(s.stored, s.now)
    ensures forall i :: 0 <= i < |s.registered| ==> s.registered[i] <= s.now
  {
    assert forall i :: 0 <= i < |s.registered| ==> s.registered[i] in s.registered;
  }

  lemma StepKeepsClear(s: State, step: Step)
    requires DeadlineInv(s) && ClearInv(s) && Enabled(s, step)
    ensures ClearInv(Apply(s, step))
  {
    var s' := Apply(s, step);
    if step.Tick? || step.Idle? {
      assert forall t :: s'.Of(t) == s.Of(t);
    } else {
      assert forall t :: t != step.t ==> s'.Of(t) == s.Of(t);
      if !Live(s.stored, s.now) {
        ClearMeansAllPassed(s);
      }
    }
  }

  lemma MoveHolders(s: State, t: Task, stage: Stage)
    ensures Holders(Move(s, t, stage)) == if stage.HoldsPermit() then Holders(s) + {t} else Holders(s) - {t}
    ensures t in Holders(s) <==> s.Of(t).HoldsPermit()
  {
  }

  /** A move changes the number of holders by what the task itself takes or gives back. */
  lemma MoveCount(s: State, t: Task, stage: Stage)
    ensures |Holders(Move(s, t, stage))| + (if s.Of(t).HoldsPermit() then 1 else 0)
         == |Holders(s)| + (if stage.HoldsPermit() then 1 else 0)
  {
    var before, after := Holders(s), Holders(Move(s, t, stage));
    MoveHolders(s, t, stage);
    if stage.HoldsPermit() {
      if t in before {
        assert after == before;
      } else {
        assert after == before + {t} && |before + {t}| == |before| + 1;
      }
    } else if t in before {
      assert before == after + {t} && |after + {t}| == |after| + 1;
    } else {
      assert after == before;
    }
  }

  lemma StepKeepsPermits(s: State, step: Step)
    requires Enabled(s, step)
    ensures Apply(s, step).permits + |Holders(Apply(s, step))| == s.permits + |Holders(s)|
  {
    var s' := Apply(s, step);
    if step.Tick? || step.Idle? {
      assert Holders(s') == Holders(s);
    } else {
      var moved := Move(s, step.t, s'.Of(step.t));
      MoveCount(s, step.t, s'.Of(step.t));
      if s'.tasks == moved.tasks {
        assert Holders(s') == Holders(moved);
      } else {
        assert Holders(s') == Holders(s);
      }
    }
  }

  lemma {:induction false} RunKeepsAll(s: State, steps: seq<Step>)
    requires DeadlineInv(s) && ClearInv(s) && IsRun(s, steps)
    ensures DeadlineInv(After(s, steps)) && ClearInv(After(s, steps))
    ensures After(s, steps).permits + |Holders(After(s, steps))| == s.permits + |Holders(s)|
    decreases |steps|
  {
    if steps != [] {
      var before, step := After(s, steps[..|steps| - 1]), steps[|steps| - 1];
      RunKeepsAll(s, steps[..|steps| - 1]);
      StepKeepsDeadline(before, step);
      StepKeepsClear(before, step);
      StepKeepsPermits(before, step);
    }
  }

  // ---------- Whole runs ----------

  ghost predicate IsMax(deadlines: seq<int>, m: int) {
    m in deadlines && forall d :: d in deadlines ==> d <= m
  }

  /** While the latest registered deadline is in the future, it is the stored one, in every interleaving. */
  lemma StoredIsLatestDeadline(now: int, permits: nat, steps: seq<Step>, m: int)
    requires IsRun(Init(now, permits), steps)
    requires var s := After(Init(now, permits), steps); IsMax(s.registered, m) && m > s.now
    ensures After(Init(now, permits), steps).stored == Some(m)
  {
    RunKeepsAll(Init(now, permits), steps);
  }

  lemma {:induction false} RunPrefix(start: State, steps: seq<Step>, n: nat)
    requires IsRun(start, steps) && n <= |steps|
    ensures IsRun(start, steps[..n])
    decreases |steps|
  {
    if n == |steps| {
      assert steps[..n] == steps;
    } else {
      RunPrefix(start, steps[..|steps| - 1], n);
      assert steps[..|steps| - 1][..n] == steps[..n];
    }
  }

  /** The state before the n-th step of a run. */
  function Before(start: State, steps: seq<Step>, n: nat): State
    requires IsRun(start, steps) && n <= |steps|
  {
    RunPrefix(start, steps, n);
    After(start, steps[..n])
  }

  /** The n-th step computes the deadline `until`: its delay from then, or that time if the clock cannot hold more. */
  ghost predicate Computes(start: State, steps: seq<Step>, n: nat, until: int)
    requires IsRun(start, steps)
  {
    && n < |steps| && steps[n].Compute?
    && var now := Before(start, steps, n).now;
    until == if now + steps[n].delay <= steps[n].maxInstant then now + steps[n].delay else now
  }

  ghost predicate Computed(start: State, steps: seq<Step>, until: int)
    requires IsRun(start, steps)
  {
    exists n: nat :: Computes(start, steps, n, until)
  }

  lemma ComputedLonger(start: State, steps: seq<Step>, until: int)
    requires steps != [] && IsRun(start, steps)
    ensures IsRun(start, steps[..|steps| - 1])
    ensures Computed(start, steps[..|steps| - 1], until) ==> Computed(start, steps, until)
  {
    var shorter := steps[..|steps| - 1];
    if Computed(start, shorter, until) {
      var n: nat :| Computes(start, shorter, n, until);
      assert shorter[..n] == steps[..n];
      assert Computes(start, steps, n, until);
    }
  }

  /** No deadline is made up: what is registered, or about to be, was computed by a step of the run. */
  lemma {:induction false} RegisteredWasComputed(now: int, permits: nat, steps: seq<Step>, until: int)
    requires IsRun(Init(now, permits), steps)
    requires var s := After(Init(now, permits), steps);
             until in s.registered || exists t :: s.Of(t) == Registering(until)
    ensures Computed(Init(now, permits), steps, until)
    decreases |steps|
  {
    var start := Init(now, permits);
    if steps != [] {
      var n := |steps| - 1;
      var before, after, step := After(start, steps[..n]), After(start, steps), steps[n];
      ComputedLonger(start, steps, until);
      if step.Compute? && after.Of(step.t) == Registering(until) {
        assert Computes(start, steps, n, until);
      } else if until !in before.registered && until !in after.registered {
        var t :| after.Of(t) == Registering(until);
        assert before.Of(t) == Registering(until);
        RegisteredWasComputed(now, permits, steps[..n], until);
      } else {
        RegisteredWasComputed(now, permits, steps[..n], until);
      }
    }
  }

  lemma StepKeepsComputed(s: State, step: Step, t: Task, until: int)
    requires Enabled(s, step) && (until in s.registered || s.Of(t) == Registering(until))
    ensures var s' := Apply(s, step);
            until in s'.registered || (s'.Of(t) == Registering(until) && step != Register(t))
  {
    var s' := Apply(s, step);
    if step.Tick? || step.Idle? || step.t != t {
      assert s'.Of(t) == s.Of(t);
    }
  }

  /** A computed deadline waits for its own task to register it, and then is registered. */
  lemma {:induction false} ComputedIsRegistered(start: State, steps: seq<Step>, n: nat, until: int)
    requires IsRun(start, steps) && Computes(start, steps, n, until)
    ensures until in After(start, steps).registered
            || (After(start, steps).Of(steps[n].t) == Registering(until) && Register(steps[n].t) !in steps[n..])
    decreases |steps|
  {
    var last := |steps| - 1;
    var before, step, t := After(start, steps[..last]), steps[last], steps[n].t;
    if n < last {
      assert steps[..last][..n] == steps[..n];
      ComputedIsRegistered(start, steps[..last], n, until);
      StepKeepsComputed(before, step, t, until);
      assert steps[n..] == steps[..last][n..] + [step];
    } else {
      assert steps[n..] == [step];
    }
  }

  /**
   * Once a task has registered a delay, no check of any task goes through until the delay is over: the stored
   * deadline is at least the time of the computation plus the delay, whatever the other tasks do in between.
   */
  lemma DelayIsKept(now: int, permits: nat, steps: seq<Step>, n: nat)
    requires IsRun(Init(now, permits), steps) && n < |steps| && steps[n].Compute?
    requires Register(steps[n].t) in steps[n..]
    ensures var at, s := Before(Init(now, permits), steps, n).now, After(Init(now, permits), steps);
            at + steps[n].delay <= steps[n].maxInstant && s.now - at < steps[n].delay ==>
              && s.stored.Some? && s.stored.value >= at + steps[n].delay
              && (forall t :: Enabled(s, Check(t)) ==> Apply(s, Check(t)) == s)
              && (forall t :: Enabled(s, Idle(t)) ==> Apply(s, Idle(t)) == s)
  {
    var start := Init(now, permits);
    var at := Before(start, steps, n).now;
    RunKeepsAll(start, steps);
    if at + steps[n].delay <= steps[n].maxInstant {
      ComputedIsRegistered(start, steps, n, at + steps[n].delay);
    }
  }

  /** The semaphore: permits are conserved, so no more than the configured number of requests is in flight. */
  lemma PermitsConserved(now: int, permits: nat, steps: seq<Step>)
    requires IsRun(Init(now, permits), steps)
    ensures var s := After(Init(now, permits), steps);
            s.permits + |Holders(s)| == permits && |Holders(s)| <= permits
  {
    RunKeepsAll(Init(now, permits), steps);
    assert Holders(Init(now, permits)) == {};
  }

  /** A deadline that is live at `at`, among the first `count` registered. */
  ghost predicate LiveAmong(deadlines: seq<int>, count: nat, at: int) {
    exists i :: 0 <= i < count && i < |deadlines| && deadlines[i] > at
  }

  /**
   * Every sent request had a moment after taking its permit when no deadline registered by then was live.
   * A deadline is live while the request is out exactly when one registered since that moment is.
   */
  lemma SentAfterClearMoment(now: int, permits: nat, steps: seq<Step>, t: Task)
    requires IsRun(Init(now, permits), steps) && After(Init(now, permits), steps).Of(t).Sent?
    ensures var s := After(Init(now, permits), steps);
            var g := s.Of(t);
            && g.permitAt <= g.clearAt <= g.sentAt <= s.now
            && g.seen <= |s.registered| && !LiveAmong(s.registered, g.seen, g.clearAt)
            && (LiveAmong(s.registered, |s.registered|, s.now) <==>
                  LiveAmong(s.registered[g.seen..], |s.registered| - g.seen, s.now))
  {
    RunKeepsAll(Init(now, permits), steps);
    var s := After(Init(now, permits), steps);
    var g := s.Of(t);
    assert HadClearMoment(s, g.permitAt, g.clearAt, g.seen);
    if i :| 0 <= i < |s.registered| && s.registered[i] > s.now {
      assert s.registered[g.seen..][i - g.seen] == s.registered[i];
    }
    if j :| 0 <= j < |s.registered| - g.seen && s.registered[g.seen..][j] > s.now {
      assert s.registered[g.seen + j] > s.now;
    }
  }

  lemma Extend(start: State, steps: seq<Step>, at: State, step: Step) returns (steps': seq<Step>, next: State)
    requires IsRun(start, steps) && After(start, steps) == at && Enabled(at, step)
    ensures IsRun(start, steps') && After(start, steps') == next && next == Apply(at, step)
  {
    steps', next := steps + [step], Apply(at, step);
    assert steps'[..|steps'| - 1] == steps;
  }

  /** A task takes its permit and sends, with nobody and no cooldown in its way. */
  lemma Request(start: State, steps: seq<Step>, at: State, t: Task) returns (steps': seq<Step>, next: State)
    requires IsRun(start, steps) && After(start, steps) == at && at.Of(t).Resting? && at.stored == None
             && at.permits > 0
    ensures IsRun(start, steps') && After(start, steps') == next
    ensures next == Move(at, t, Sent(at.now, at.now, |at.registered|, at.now)).(permits := at.permits - 1)
  {
    steps', next := Extend(start, steps, at, Begin(t));
    steps', next := Extend(start, steps', next, Check(t));
    steps', next := Extend(start, steps', next, Acquire(t));
    steps', next := Extend(start, steps', next, Check(t));
    steps', next := Extend(start, steps', next, Send(t));
    assert next.tasks == at.tasks[t := Sent(at.now, at.now, |at.registered|, at.now)];
  }

  /** A request can go out during a cooldown: another task, limited itself, registers one after the second wait. */
  lemma SentDuringCooldown(now: int) returns (steps: seq<Step>)
    ensures IsRun(Init(now, 1), steps)
    ensures var s := After(Init(now, 1), steps);
            s.Of(1).Sent? && s.Of(1).sentAt == s.now && Live(s.stored, s.now)
  {
    var start := Init(now, 1);
    var s := start;
    steps := [];
    steps, s := Request(start, steps, s, 2);
    steps, s := Extend(start, steps, s, Respond(2));
    steps, s := Extend(start, steps, s, Begin(1));
    steps, s := Extend(start, steps, s, Check(1));
    steps, s := Extend(start, steps, s, Acquire(1));
    steps, s := Extend(start, steps, s, Check(1));
    steps, s := Extend(start, steps, s, Compute(2, 1000, now + 1000));
    steps, s := Extend(start, steps, s, Register(2));
    steps, s := Extend(start, steps, s, Send(1));
  }
}
