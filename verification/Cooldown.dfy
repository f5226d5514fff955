/** worker.py and microsoft_worker.py: deliveries for one account between its lock and its cooldown
    key. Time is in microseconds; the key exists until its expiry. */
module Cooldown {
  import opened Wrappers

  datatype Provider = Gmail | Microsoft

  const SECOND := 1_000_000
  const DEFAULT_TRANSIENT_COOLDOWN_SECONDS := 300
  const GMAIL_RETRY_SAFETY_SECONDS := 300
  const LOCK_TIMEOUT := 7200 * SECOND

  /** int(): toward zero. */
  function Truncated(microseconds: int): int {
    if microseconds >= 0 then microseconds / SECOND else -(-microseconds / SECOND)
  }

  function Ceil(microseconds: int): int {
    -(-microseconds / SECOND)
  }

  /** The expiry given to the key, computed at the time `now`. */
  function CooldownSeconds(provider: Provider, retryAt: Option<int>, now: int): (seconds: int)
    ensures seconds >= DEFAULT_TRANSIENT_COOLDOWN_SECONDS
  {
    var cooldown := DEFAULT_TRANSIENT_COOLDOWN_SECONDS;
    if retryAt.None? then cooldown
    else
      var asked :=
        if provider.Gmail? then Truncated(retryAt.value - now) + GMAIL_RETRY_SAFETY_SECONDS
        else Ceil(retryAt.value - now) + 1;
      if asked > cooldown then asked else cooldown
  }

  /** Neither rounding loses the deadline, however late the key is set. */
  lemma CooldownReachesDeadline(provider: Provider, retryAt: int, now: int, setAt: int)
    requires now <= setAt
    ensures setAt + CooldownSeconds(provider, Some(retryAt), now) * SECOND >= retryAt
  {
  }

  datatype Phase =
    | Holding                                    // has the account lock
    | Cleared(grant: nat)                        // found no cooldown key; may contact the provider
    | Failed(retryAt: Option<int>, grant: nat)   // a transient failure, not recorded in the account row yet
    | Recorded(retryAt: Option<int>)             // recorded, but without its cooldown
    | Finished                                   // about to release the lock
    | Gone                                       // acknowledged, or its process died

  /** The account row as far as conditional writes look at it: paused or refused, and its grant. `due`
      is the deadline of the last transient failure (the time of the failure itself when the provider
      named none); `dropped` says that this failure will never get its cooldown. */
  datatype State = State(
    now: int, expiry: int, holder: Option<nat>, leaseEnd: int, phases: map<nat, Phase>,
    closed: bool, grant: nat, due: int, dropped: bool)

  datatype Step =
    | Tick(dt: nat)
    | Acquire(d: nat)                                // or acknowledge a duplicate
    | Check(d: nat, usable: bool)                    // account status, then the cooldown key
    | Reread(d: nat)                                 // access_token reads the row's grant again
    | Succeed(d: nat)                                // or fail otherwise
    | Fail(d: nat, retryAt: Option<int>)
    | Record(d: nat)                                 // the conditional write; a refused one ends the delivery
    | SetCooldown(d: nat, late: nat)                 // computed now, set `late` afterwards
    | Raise(d: nat)                                  // a commit, a query or the key's write raises instead
    | Release(d: nat)
    | Die(d: nat)
    | Pause | Resume | Reconnect | Rotate            // the owner, and refreshes of other processes

  /** The provider asked to wait, and no key says so yet. */
  predicate InGap(phase: Phase) {
    phase.Failed? || phase.Recorded?
  }

  predicate Active(phase: Phase) {
    phase.Holding? || phase.Cleared? || InGap(phase)
  }

  function PhaseOf(s: State, d: nat): Phase {
    if d in s.phases then s.phases[d] else Gone
  }

  function With(s: State, d: nat, phase: Phase): State {
    s.(phases := s.phases[d := phase])
  }

  /** The lock's lease outlives a living holder's work. */
  predicate LeaseHolds(s: State, dt: nat) {
    s.holder.Some? && Active(PhaseOf(s, s.holder.value)) ==> s.now + dt < s.leaseEnd
  }

  /** The conditional write finds the account paused or refused, or holding another grant. */
  predicate Refused(s: State, d: nat)
    requires PhaseOf(s, d).Failed?
  {
    s.closed || s.phases[d].grant != s.grant
  }

  /** What each step does; a step that is not enabled changes nothing. */
  function Next(provider: Provider, s: State, step: Step): State {
    match step
    case Tick(dt) => if LeaseHolds(s, dt) then s.(now := s.now + dt) else s
    case Acquire(d) =>
      if d in s.phases then s
      else if s.holder.None? || s.now >= s.leaseEnd
      then With(s, d, Holding).(holder := Some(d), leaseEnd := s.now + LOCK_TIMEOUT)
      else With(s, d, Gone)
    case Check(d, usable) =>
      if !PhaseOf(s, d).Holding? then s
      else With(s, d, if usable && !s.closed && s.now >= s.expiry then Cleared(s.grant) else Finished)
    case Reread(d) => if PhaseOf(s, d).Cleared? then With(s, d, Cleared(s.grant)) else s
    case Succeed(d) => if PhaseOf(s, d).Cleared? then With(s, d, Finished) else s
    case Fail(d, retryAt) =>
      if PhaseOf(s, d).Cleared? then
        With(s, d, Failed(retryAt, s.phases[d].grant)).(due := retryAt.GetOr(s.now), dropped := false)
      else s
    case Record(d) =>
      if !PhaseOf(s, d).Failed? then s
      else if Refused(s, d) then With(s, d, Finished).(dropped := true)
      else With(s, d, Recorded(s.phases[d].retryAt))
    case SetCooldown(d, late) =>
      if PhaseOf(s, d).Recorded? && LeaseHolds(s, late) then
        With(s, d, Finished).(
          expiry := s.now + late + CooldownSeconds(provider, s.phases[d].retryAt, s.now) * SECOND,
          now := s.now + late)
      else s
    case Raise(d) => if InGap(PhaseOf(s, d)) then With(s, d, Finished).(dropped := true) else s
    case Release(d) =>
      if !PhaseOf(s, d).Finished? then s
      else With(s, d, Gone).(holder := if s.holder == Some(d) then None else s.holder)
    case Die(d) =>
      if d !in s.phases then s else With(s, d, Gone).(dropped := s.dropped || InGap(s.phases[d]))
    case Pause => s.(closed := true)
    case Resume => s.(closed := false)
    case Reconnect => s.(closed := false, grant := s.grant + 1)
    case Rotate => if s.closed then s else s.(grant := s.grant + 1)
  }

  function Run(provider: Provider, s: State, steps: seq<Step>): State {
    if steps == [] then s else Next(provider, Run(provider, s, steps[..|steps| - 1]), steps[|steps| - 1])
  }

  /** A fresh account at any time, with any key left over from before. */
  function Start(now: int, expiry: int): State {
    State(now, expiry, None, now, map[], false, 0, now, false)
  }

  ghost predicate OneActive(s: State) {
    forall d :: d in s.phases && Active(s.phases[d]) ==> s.holder == Some(d) && s.now < s.leaseEnd
  }

  /** Some delivery still has to record the failure that set this deadline. */
  ghost predicate FailurePending(phases: map<nat, Phase>) {
    exists d :: d in phases && InGap(phases[d])
  }

  /** A failure without its cooldown is either pending or dropped, never both; a key that was set
      outlasts the deadline; and whoever may contact the provider found no key. */
  ghost predicate Guarded(s: State) {
    && (s.holder.Some? ==> s.holder.value in s.phases)
    && (forall d :: d in s.phases && (s.phases[d].Cleared? || InGap(s.phases[d])) ==> s.now >= s.expiry)
    && (forall d :: d in s.phases && InGap(s.phases[d]) ==>
          && !s.dropped && s.due == s.phases[d].retryAt.GetOr(s.due)
          && (s.phases[d].retryAt.None? ==> s.now >= s.due))
    && (s.dropped ==> s.now >= s.expiry)
    && (s.dropped || s.now >= s.due || s.expiry >= s.due || FailurePending(s.phases))
  }

  lemma StepKeepsOneActive(provider: Provider, s: State, step: Step)
    requires OneActive(s)
    ensures OneActive(Next(provider, s, step))
  {
  }

  lemma PendingStays(s: State, d: nat, phase: Phase)
    requires !InGap(PhaseOf(s, d))
    ensures FailurePending(s.phases) ==> FailurePending(s.phases[d := phase])
  {
    if FailurePending(s.phases) {
      var x :| x in s.phases && InGap(s.phases[x]);
      assert InGap(s.phases[d := phase][x]);
    }
  }

  /** The delivery whose failure is pending records it, sets the key or comes to an end. */
  lemma GapStepKeepsGuard(provider: Provider, s: State, step: Step)
    requires OneActive(s) && Guarded(s)
    requires (step.Record? || step.SetCooldown? || step.Raise? || step.Die?) && InGap(PhaseOf(s, step.d))
    ensures Guarded(Next(provider, s, step))
  {
    var s' := Next(provider, s, step);
    var d := step.d;
    assert forall x :: x in s.phases && Active(s.phases[x]) ==> x == d;
    match step
    case Record(_) => assert s'.phases == s.phases || s'.dropped || InGap(s'.phases[d]);
    case SetCooldown(_, _) =>
      if s.phases[d].retryAt.Some? {
        CooldownReachesDeadline(provider, s.due, s.now, s'.now);
      }
    case _ =>
  }

  lemma StepKeepsGuard(provider: Provider, s: State, step: Step)
    requires OneActive(s) && Guarded(s)
    ensures Guarded(Next(provider, s, step))
  {
    var s' := Next(provider, s, step);
    if s' == s {
      return;
    }
    match step
    case Acquire(d) => PendingStays(s, d, s'.phases[d]);
    case Check(d, usable) => PendingStays(s, d, s'.phases[d]);
    case Reread(d) => PendingStays(s, d, s'.phases[d]);
    case Succeed(d) => PendingStays(s, d, Finished);
    case Release(d) => PendingStays(s, d, Gone);
    case Fail(d, retryAt) =>
      assert forall x :: x in s.phases && Active(s.phases[x]) ==> x == d;
      assert InGap(s'.phases[d]);
    case Record(d) => GapStepKeepsGuard(provider, s, step);
    case SetCooldown(d, late) => GapStepKeepsGuard(provider, s, step);
    case Raise(d) => GapStepKeepsGuard(provider, s, step);
    case Die(d) =>
      if InGap(s.phases[d]) {
        GapStepKeepsGuard(provider, s, step);
      } else {
        PendingStays(s, d, Gone);
      }
    case _ =>
  }

  lemma {:induction false} RunKeepsInvariants(provider: Provider, now: int, expiry: int, steps: seq<Step>)
    ensures OneActive(Run(provider, Start(now, expiry), steps)) && Guarded(Run(provider, Start(now, expiry), steps))
  {
    if steps != [] {
      RunKeepsInvariants(provider, now, expiry, steps[..|steps| - 1]);
      var s := Run(provider, Start(now, expiry), steps[..|steps| - 1]);
      StepKeepsOneActive(provider, s, steps[|steps| - 1]);
      StepKeepsGuard(provider, s, steps[|steps| - 1]);
    }
  }

  /** A delivery that contacts the provider found no cooldown key and holds the account lock. */
  predicate MayContact(s: State, d: nat) {
    PhaseOf(s, d).Cleared?
  }

  lemma NothingPendingBeside(s: State, d: nat)
    requires OneActive(s) && MayContact(s, d)
    ensures !FailurePending(s.phases)
  {
    assert forall x :: x in s.phases && Active(s.phases[x]) ==> x == d;
  }

  /** No synchronization contacts the provider before the deadline of the last transient failure,
      unless that very failure was left without its cooldown. */
  lemma NoContactBeforeTheDeadline(provider: Provider, now: int, expiry: int, steps: seq<Step>, d: nat)
    requires var s := Run(provider, Start(now, expiry), steps); MayContact(s, d) && !s.dropped
    ensures var s := Run(provider, Start(now, expiry), steps); s.now >= s.due
  {
    RunKeepsInvariants(provider, now, expiry, steps);
    var s := Run(provider, Start(now, expiry), steps);
    NothingPendingBeside(s, d);
  }

  /** Never two deliveries for one account at work. */
  lemma OneDeliveryAtWork(provider: Provider, now: int, expiry: int, steps: seq<Step>, d: nat, other: nat)
    requires var s := Run(provider, Start(now, expiry), steps);
             d in s.phases && other in s.phases && Active(s.phases[d]) && Active(s.phases[other])
    ensures d == other
  {
    RunKeepsInvariants(provider, now, expiry, steps);
  }

  /** A failure loses its cooldown exactly by an exception or a death before the key is set or by a
      refused conditional write, and the next failure starts afresh. */
  lemma DroppedExactly(provider: Provider, s: State, step: Step)
    requires Guarded(s)
    ensures Next(provider, s, step).dropped <==>
      || ((step.Raise? || step.Die?) && InGap(PhaseOf(s, step.d)))
      || (step.Record? && PhaseOf(s, step.d).Failed? && Refused(s, step.d))
      || (s.dropped && !(step.Fail? && PhaseOf(s, step.d).Cleared?))
  {
  }

  // ---------------------------------------------------------------- when a deadline is missed

  /** A continuation in which the last transient failure stays the last, with the cooldown it has. */
  ghost predicate SameFailure(provider: Provider, s: State, steps: seq<Step>) {
    && (forall i :: 0 <= i < |steps| ==> !steps[i].Fail?)
    && Run(provider, s, steps).dropped == s.dropped
  }

  /** After some such continuation a delivery contacts the provider before the deadline. */
  ghost predicate EarlyContactAfter(provider: Provider, s: State, steps: seq<Step>, d: nat) {
    && SameFailure(provider, s, steps)
    && MayContact(Run(provider, s, steps), d) && Run(provider, s, steps).now < s.due
  }

  /** When the account lock can be taken again: at once, unless a dead process left it to its lease. */
  function LockFreeAt(s: State): int {
    if s.holder.Some? && PhaseOf(s, s.holder.value).Gone? && s.now < s.leaseEnd then s.leaseEnd else s.now
  }

  /** Left by a dead process: the lock stays with it until the lease has run out. */
  ghost predicate HeldByTheDead(s: State, d: nat, leaseEnd: int) {
    d in s.phases && s.phases[d].Gone? && s.holder == Some(d) && s.leaseEnd == leaseEnd
  }

  lemma DeadLockStep(provider: Provider, s: State, step: Step, d: nat, leaseEnd: int)
    requires OneActive(s) && (s.now >= leaseEnd || HeldByTheDead(s, d, leaseEnd))
    ensures var t := Next(provider, s, step);
            t.now >= s.now && (t.now >= leaseEnd || HeldByTheDead(t, d, leaseEnd))
  {
  }

  lemma {:induction false} DeadLockHolds(provider: Provider, s: State, steps: seq<Step>, d: nat, leaseEnd: int)
    requires OneActive(s) && HeldByTheDead(s, d, leaseEnd)
    ensures var t := Run(provider, s, steps);
            OneActive(t) && t.now >= s.now && (t.now >= leaseEnd || HeldByTheDead(t, d, leaseEnd))
  {
    if steps != [] {
      DeadLockHolds(provider, s, steps[..|steps| - 1], d, leaseEnd);
      StepKeepsOneActive(provider, Run(provider, s, steps[..|steps| - 1]), steps[|steps| - 1]);
      DeadLockStep(provider, Run(provider, s, steps[..|steps| - 1]), steps[|steps| - 1], d, leaseEnd);
    }
  }

  lemma StepTakesTime(provider: Provider, s: State, step: Step)
    ensures Next(provider, s, step).now >= s.now
  {
  }

  lemma {:induction false} TimePasses(provider: Provider, s: State, steps: seq<Step>)
    ensures Run(provider, s, steps).now >= s.now
  {
    if steps != [] {
      TimePasses(provider, s, steps[..|steps| - 1]);
      StepTakesTime(provider, Run(provider, s, steps[..|steps| - 1]), steps[|steps| - 1]);
    }
  }

  lemma StepKeepsDeadline(provider: Provider, s: State, step: Step)
    requires !step.Fail?
    ensures Next(provider, s, step).due == s.due && (s.dropped ==> Next(provider, s, step).dropped)
  {
  }

  lemma {:induction false} DeadlineStays(provider: Provider, s: State, steps: seq<Step>)
    requires forall i :: 0 <= i < |steps| ==> !steps[i].Fail?
    ensures Run(provider, s, steps).due == s.due && (s.dropped ==> Run(provider, s, steps).dropped)
  {
    if steps != [] {
      DeadlineStays(provider, s, steps[..|steps| - 1]);
      StepKeepsDeadline(provider, Run(provider, s, steps[..|steps| - 1]), steps[|steps| - 1]);
    }
  }

  lemma {:induction false} GuardContinues(provider: Provider, s: State, steps: seq<Step>)
    requires OneActive(s) && Guarded(s)
    ensures OneActive(Run(provider, s, steps)) && Guarded(Run(provider, s, steps))
  {
    if steps != [] {
      var front := steps[..|steps| - 1];
      GuardContinues(provider, s, front);
      StepKeepsOneActive(provider, Run(provider, s, front), steps[|steps| - 1]);
      StepKeepsGuard(provider, Run(provider, s, front), steps[|steps| - 1]);
    }
  }

  lemma EarlyContactNeedsADrop(provider: Provider, s: State, steps: seq<Step>, d: nat)
    requires OneActive(s) && Guarded(s) && EarlyContactAfter(provider, s, steps, d)
    ensures s.dropped && LockFreeAt(s) < s.due
  {
    var t := Run(provider, s, steps);
    GuardContinues(provider, s, steps);
    DeadlineStays(provider, s, steps);
    TimePasses(provider, s, steps);
    NothingPendingBeside(t, d);
    if s.holder.Some? && PhaseOf(s, s.holder.value).Gone? && s.now < s.leaseEnd {
      DeadLockHolds(provider, s, steps, s.holder.value, s.leaseEnd);
    }
  }

  /** A delivery that has not been seen yet. */
  lemma {:induction false} NewDelivery(seen: set<nat>) returns (d: nat)
    ensures forall x :: x in seen ==> x < d
    decreases |seen|
  {
    if seen == {} {
      d := 0;
    } else {
      var x :| x in seen;
      d := NewDelivery(seen - {x});
      assert forall y :: y in seen ==> y == x || y in seen - {x};
      if d <= x {
        d := x + 1;
      }
    }
  }

  lemma RunOneMore(provider: Provider, s: State, steps: seq<Step>, step: Step)
    ensures Run(provider, s, steps + [step]) == Next(provider, Run(provider, s, steps), step)
  {
    assert (steps + [step])[..|steps|] == steps;
  }

  /** With the failure dropped, a new delivery gets through as soon as the lock can be taken. */
  lemma NextDeliveryContacts(provider: Provider, s: State, steps: seq<Step>) returns (all: seq<Step>, d: nat)
    requires OneActive(s) && Guarded(s) && s.dropped && LockFreeAt(s) < s.due
    requires forall i :: 0 <= i < |steps| ==> !steps[i].Fail?
    requires var t := Run(provider, s, steps);
             t.now == LockFreeAt(s) && t.now >= t.expiry && t.dropped && (t.holder.None? || t.now >= t.leaseEnd)
    ensures EarlyContactAfter(provider, s, all, d)
  {
    var t := Run(provider, s, steps);
    d := NewDelivery(t.phases.Keys);
    RunOneMore(provider, s, steps, Resume);
    RunOneMore(provider, s, steps + [Resume], Acquire(d));
    RunOneMore(provider, s, steps + [Resume] + [Acquire(d)], Check(d, true));
    all := steps + [Resume] + [Acquire(d)] + [Check(d, true)];
  }

  lemma HolderContacts(provider: Provider, s: State, h: nat) returns (steps: seq<Step>)
    requires PhaseOf(s, h).Holding? && s.now >= s.expiry && s.now < s.due
    ensures EarlyContactAfter(provider, s, steps, h)
  {
    var none: seq<Step> := [];
    RunOneMore(provider, s, none, Resume);
    RunOneMore(provider, s, none + [Resume], Check(h, true));
    steps := none + [Resume] + [Check(h, true)];
  }

  lemma SuccessorContacts(provider: Provider, s: State, h: nat) returns (steps: seq<Step>, d: nat)
    requires OneActive(s) && Guarded(s) && s.dropped && LockFreeAt(s) < s.due
    requires s.holder == Some(h) && PhaseOf(s, h).Finished?
    ensures EarlyContactAfter(provider, s, steps, d)
  {
    var none: seq<Step> := [];
    RunOneMore(provider, s, none, Release(h));
    steps, d := NextDeliveryContacts(provider, s, none + [Release(h)]);
  }

  lemma WaitingContacts(provider: Provider, s: State, h: nat) returns (steps: seq<Step>, d: nat)
    requires OneActive(s) && Guarded(s) && s.dropped && LockFreeAt(s) < s.due
    requires s.holder == Some(h) && PhaseOf(s, h).Gone? && s.now < s.leaseEnd
    ensures EarlyContactAfter(provider, s, steps, d)
  {
    var none: seq<Step> := [];
    RunOneMore(provider, s, none, Tick(s.leaseEnd - s.now));
    steps, d := NextDeliveryContacts(provider, s, none + [Tick(s.leaseEnd - s.now)]);
  }

  lemma DropAllowsEarlyContact(provider: Provider, s: State) returns (steps: seq<Step>, d: nat)
    requires OneActive(s) && Guarded(s) && s.dropped && LockFreeAt(s) < s.due
    ensures EarlyContactAfter(provider, s, steps, d)
  {
    steps := [];
    if s.holder.None? || s.now >= s.leaseEnd {
      steps, d := NextDeliveryContacts(provider, s, steps);
      return;
    }
    d := s.holder.value;
    match s.phases[d]
    case Cleared(_) =>
    case Holding => steps := HolderContacts(provider, s, d);
    case Finished => steps, d := SuccessorContacts(provider, s, d);
    case Gone => steps, d := WaitingContacts(provider, s, d);
  }

  /** From any state of any run the provider can be contacted before the deadline of the last
      transient failure exactly when that failure lost its cooldown and the deadline lies beyond the
      time at which the lock can be taken again: at once after an exception or a refused write, at the
      end of the lease after a death. An account that was paused has to be resumed first. */
  lemma DeadlineIsMissedExactly(provider: Provider, now: int, expiry: int, steps: seq<Step>)
    ensures var s := Run(provider, Start(now, expiry), steps);
            (exists more, d :: EarlyContactAfter(provider, s, more, d)) <==> s.dropped && LockFreeAt(s) < s.due
  {
    var s := Run(provider, Start(now, expiry), steps);
    RunKeepsInvariants(provider, now, expiry, steps);
    forall more, d | EarlyContactAfter(provider, s, more, d)
      ensures s.dropped && LockFreeAt(s) < s.due
    {
      EarlyContactNeedsADrop(provider, s, more, d);
    }
    if s.dropped && LockFreeAt(s) < s.due {
      var more, d := DropAllowsEarlyContact(provider, s);
    }
  }

  /** The first delivery of a fresh account has just failed. */
  function JustFailed(wait: nat): State {
    State(0, 0, Some(0), LOCK_TIMEOUT, map[0 := Failed(Some(wait), 0)], false, 0, wait, false)
  }

  lemma FirstFailure(provider: Provider, wait: nat) returns (steps: seq<Step>)
    ensures Run(provider, Start(0, 0), steps) == JustFailed(wait)
    ensures steps == [Acquire(0), Check(0, true), Fail(0, Some(wait))]
  {
    var s, none: seq<Step> := Start(0, 0), [];
    var held := State(0, 0, Some(0), LOCK_TIMEOUT, map[0 := Holding], false, 0, 0, false);
    var cleared := held.(phases := map[0 := Cleared(0)]);
    RunOneMore(provider, s, none, Acquire(0));
    assert Next(provider, s, Acquire(0)) == held;
    RunOneMore(provider, s, none + [Acquire(0)], Check(0, true));
    assert Next(provider, held, Check(0, true)) == cleared by {
      assert held.phases[0 := Cleared(0)] == cleared.phases;
    }
    steps := none + [Acquire(0)] + [Check(0, true)];
    RunOneMore(provider, s, steps, Fail(0, Some(wait)));
    assert Next(provider, cleared, Fail(0, Some(wait))) == JustFailed(wait) by {
      assert cleared.phases[0 := Failed(Some(wait), 0)] == JustFailed(wait).phases;
    }
    steps := steps + [Fail(0, Some(wait))];
  }

  /** An exception in the gap, nobody dies: with any deadline ahead, the redelivery contacts the
      provider at once. */
  lemma ExceptionDropsTheDeadline(provider: Provider, wait: nat) returns (steps: seq<Step>)
    requires wait > 0
    ensures var s := Run(provider, Start(0, 0), steps); MayContact(s, 1) && s.now == 0 && s.due == wait
  {
    var s := Start(0, 0);
    var failed := FirstFailure(provider, wait);
    RunOneMore(provider, s, failed, Raise(0));
    RunOneMore(provider, s, failed + [Raise(0)], Release(0));
    RunOneMore(provider, s, failed + [Raise(0)] + [Release(0)], Acquire(1));
    steps := failed + [Raise(0)] + [Release(0)] + [Acquire(1)];
    RunOneMore(provider, s, steps, Check(1, true));
    steps := steps + [Check(1, true)];
  }

  /** The owner pauses the account in the gap, nothing raises and nobody dies: after the resume the
      next delivery contacts the provider at once. */
  lemma PauseDropsTheDeadline(provider: Provider, wait: nat) returns (steps: seq<Step>)
    requires wait > 0
    ensures var s := Run(provider, Start(0, 0), steps); MayContact(s, 1) && s.now == 0 && s.due == wait
    ensures forall i :: 0 <= i < |steps| ==>
              !steps[i].Raise? && !steps[i].Die? && !steps[i].Reconnect? && !steps[i].Rotate?
  {
    var s := Start(0, 0);
    steps := FirstFailure(provider, wait);
    RunOneMore(provider, s, steps, Pause);
    steps := steps + [Pause];
    RunOneMore(provider, s, steps, Record(0));
    steps := steps + [Record(0)];
    RunOneMore(provider, s, steps, Release(0));
    steps := steps + [Release(0)];
    RunOneMore(provider, s, steps, Resume);
    steps := steps + [Resume];
    RunOneMore(provider, s, steps, Acquire(1));
    steps := steps + [Acquire(1)];
    RunOneMore(provider, s, steps, Check(1, true));
    steps := steps + [Check(1, true)];
  }

  /** A process that dies in the gap: the next delivery has to wait for its lease, but no longer. */
  lemma DroppedDeadline(provider: Provider, wait: nat) returns (steps: seq<Step>)
    requires wait > LOCK_TIMEOUT
    ensures var s := Run(provider, Start(0, 0), steps);
            s.dropped && MayContact(s, 1) && s.due == wait && s.now == LOCK_TIMEOUT < s.due
  {
    var s := Start(0, 0);
    var failed := FirstFailure(provider, wait);
    RunOneMore(provider, s, failed, Die(0));
    RunOneMore(provider, s, failed + [Die(0)], Tick(LOCK_TIMEOUT));
    RunOneMore(provider, s, failed + [Die(0)] + [Tick(LOCK_TIMEOUT)], Acquire(1));
    steps := failed + [Die(0)] + [Tick(LOCK_TIMEOUT)] + [Acquire(1)];
    RunOneMore(provider, s, steps, Check(1, true));
    steps := steps + [Check(1, true)];
  }
}
