/** The analysis outbox: mail/repository.py (queue_analysis), analysis/repository.py (claim,
    complete, fail) and the worker loop around them, for any number of workers. Every committed
    transaction is one step. Time is in seconds. */
module Outbox {
  import opened Wrappers

  const MAX_CLAIMS := 8

  datatype Status = Pending | Processing | Processed | Failed

  /** One outbox row; `claims` remembers when it was claimed. */
  datatype Event = Event(message: nat, status: Status, attempts: nat, availableAt: int, claims: seq<int>)

  /** stored: the messages in the database, used: those that ever were. analyses: with multiplicity.
      holds: the event each worker is working on. */
  datatype State = State(
    now: int, stored: set<nat>, used: set<nat>, analyses: multiset<nat>, events: seq<Event>, holds: map<nat, nat>)

  datatype Step =
    | Tick(dt: nat)
    | Store(message: nat)
    | Queue(message: nat)               // once for every synchronization that sees the message
    | Remove(message: nat)              // the account is deleted, with everything that refers to it
    | Claim(worker: nat, event: nat)
    | Complete(worker: nat)             // the analysis, if one is missing, and the new status together
    | Unanswered(worker: nat)           // the same commit, of which the worker learns only an error
    | Fail(worker: nat)                 // by the event's id, whatever its status is
    | Die(worker: nat)

  function Pow2(n: nat): nat {
    if n == 0 then 1 else 2 * Pow2(n - 1)
  }

  function Backoff(attempts: nat): nat {
    if Pow2(attempts) * 15 < 3600 then Pow2(attempts) * 15 else 3600
  }

  /** The WHERE clause of claim. */
  predicate Claimable(e: Event, now: int) {
    e.status in {Pending, Failed} && e.availableAt <= now && e.attempts < MAX_CLAIMS
  }

  predicate Queued(events: seq<Event>, message: nat) {
    exists i :: 0 <= i < |events| && events[i].message == message
  }

  /** The worker is between its claim and the end of complete. */
  predicate Busy(s: State, w: nat) {
    w in s.holds && s.holds[w] < |s.events| && s.events[s.holds[w]].status == Processing
  }

  function Completed(s: State, i: nat): State
    requires i < |s.events|
  {
    var m := s.events[i].message;
    s.(events := s.events[i := s.events[i].(status := Processed)],
       analyses := if m in s.stored && m !in s.analyses then s.analyses + multiset{m} else s.analyses)
  }

  /** What each step does; a step that is not enabled changes nothing. */
  function Next(s: State, step: Step): State {
    match step
    case Tick(dt) => s.(now := s.now + dt)
    case Store(m) => if m in s.used then s else s.(stored := s.stored + {m}, used := s.used + {m})
    case Queue(m) =>
      if m !in s.stored || Queued(s.events, m) then s
      else s.(events := s.events + [Event(m, Pending, 0, s.now, [])])
    case Remove(m) => s.(stored := s.stored - {m}, analyses := s.analyses[m := 0])
    case Claim(w, i) =>
      if w in s.holds || i >= |s.events| || !Claimable(s.events[i], s.now) then s
      else
        var e := s.events[i];
        s.(events := s.events[i := Event(e.message, Processing, e.attempts + 1, e.availableAt, e.claims + [s.now])],
           holds := s.holds[w := i])
    case Complete(w) => if Busy(s, w) then Completed(s, s.holds[w]).(holds := s.holds - {w}) else s
    case Unanswered(w) => if Busy(s, w) then Completed(s, s.holds[w]) else s
    case Fail(w) =>
      if w !in s.holds || s.holds[w] >= |s.events| then s
      else
        var i := s.holds[w];
        var e := s.events[i];
        s.(events := s.events[i := e.(status := Failed, availableAt := s.now + Backoff(e.attempts))], holds := s.holds - {w})
    case Die(w) => s.(holds := s.holds - {w})
  }

  const START := State(0, {}, {}, multiset{}, [], map[])

  function Run(steps: seq<Step>): State {
    if steps == [] then START else Next(Run(steps[..|steps| - 1]), steps[|steps| - 1])
  }

  /** At most eight claims, each a backoff later than the one before it, and none in the future. */
  ghost predicate WellPaced(e: Event, now: int) {
    && |e.claims| == e.attempts <= MAX_CLAIMS
    && (forall k :: 1 <= k < |e.claims| ==> e.claims[k] >= e.claims[k - 1] + Backoff(k))
    && (e.claims != [] ==> e.claims[|e.claims| - 1] <= now)
    && (e.status == Pending <==> e.claims == [])
    && (e.status == Failed ==> e.availableAt >= e.claims[|e.claims| - 1] + Backoff(|e.claims|))
  }

  ghost predicate AllPaced(s: State) {
    forall i :: 0 <= i < |s.events| ==> WellPaced(s.events[i], s.now)
  }

  /** A message has one event at most. */
  ghost predicate OneEventEach(s: State) {
    forall i, j :: 0 <= i < j < |s.events| ==> s.events[i].message != s.events[j].message
  }

  /** An event being worked on, or completed by a worker that does not know it, has one worker. */
  ghost predicate OneWorkerEach(s: State) {
    && (forall w :: w in s.holds ==> s.holds[w] < |s.events| && s.events[s.holds[w]].status in {Processing, Processed})
    && (forall w, v :: w in s.holds && v in s.holds && s.holds[w] == s.holds[v] ==> w == v)
  }

  /** Processed means analysed exactly once, or gone. */
  ghost predicate Analysed(s: State) {
    && s.stored <= s.used
    && (forall m :: m in s.analyses ==> m in s.stored && s.analyses[m] == 1)
    && (forall i :: 0 <= i < |s.events| ==> s.events[i].message in s.used)
    && (forall i :: 0 <= i < |s.events| && s.events[i].status == Processed && s.events[i].message in s.stored ==>
          s.events[i].message in s.analyses)
  }

  ghost predicate Inv(s: State) {
    AllPaced(s) && OneEventEach(s) && OneWorkerEach(s) && Analysed(s)
  }

  /** A failed event waits out its backoff, so the next claim comes that much later. */
  lemma ClaimKeepsPace(e: Event, now: int)
    requires WellPaced(e, now) && Claimable(e, now)
    ensures WellPaced(Event(e.message, Processing, e.attempts + 1, e.availableAt, e.claims + [now]), now)
  {
    var claims := e.claims + [now];
    forall k | 1 <= k < |claims|
      ensures claims[k] >= claims[k - 1] + Backoff(k)
    {
      if k == |e.claims| {
        assert e.status == Failed;
      }
    }
  }

  lemma FailKeepsPace(e: Event, now: int)
    requires WellPaced(e, now) && e.status in {Processing, Processed}
    ensures WellPaced(e.(status := Failed, availableAt := now + Backoff(e.attempts)), now)
  {
  }

  lemma StepKeepsPace(s: State, step: Step)
    requires AllPaced(s) && OneWorkerEach(s)
    ensures AllPaced(Next(s, step))
  {
    var s' := Next(s, step);
    forall i | 0 <= i < |s'.events|
      ensures WellPaced(s'.events[i], s'.now)
    {
      if i < |s.events| {
        assert WellPaced(s.events[i], s.now);
        if s'.events[i] != s.events[i] {
          match step
          case Claim(w, j) => ClaimKeepsPace(s.events[i], s.now);
          case Fail(w) => FailKeepsPace(s.events[i], s.now);
          case _ =>
        }
      }
    }
  }

  lemma StepKeepsWorkers(s: State, step: Step)
    requires OneWorkerEach(s)
    ensures OneWorkerEach(Next(s, step))
  {
  }

  lemma StepKeepsAnalysed(s: State, step: Step)
    requires Analysed(s) && OneEventEach(s)
    ensures Analysed(Next(s, step)) && OneEventEach(Next(s, step))
  {
  }

  ghost predicate Held(s: State, i: nat) {
    exists w :: w in s.holds && s.holds[w] == i
  }

  /** A processed event changes only when the worker that holds it, unaware of its success, reports
      a failure; and no worker takes hold of it again. */
  lemma ProcessedIsReverted(s: State, step: Step, i: nat)
    requires OneWorkerEach(s) && i < |s.events| && s.events[i].status == Processed
    ensures var s' := Next(s, step);
            && i < |s'.events|
            && (s'.events[i] != s.events[i] <==> step.Fail? && step.worker in s.holds && s.holds[step.worker] == i)
            && (s'.events[i] != s.events[i] ==> s'.events[i].status == Failed)
            && (Held(s', i) ==> Held(s, i))
  {
  }

  lemma {:induction false} RunKeepsInv(steps: seq<Step>)
    ensures Inv(Run(steps))
  {
    if steps != [] {
      var s, step := Run(steps[..|steps| - 1]), steps[|steps| - 1];
      RunKeepsInv(steps[..|steps| - 1]);
      StepKeepsPace(s, step);
      StepKeepsWorkers(s, step);
      StepKeepsAnalysed(s, step);
    }
  }

  lemma RunOneMore(steps: seq<Step>, step: Step)
    ensures Run(steps + [step]) == Next(Run(steps), step)
  {
    assert (steps + [step])[..|steps|] == steps;
  }

  lemma {:induction false} ReleasedForGood(steps: seq<Step>, more: seq<Step>, i: nat)
    requires i < |Run(steps).events| && Run(steps).events[i].status == Processed && !Held(Run(steps), i)
    ensures i < |Run(steps + more).events| && Run(steps + more).events[i] == Run(steps).events[i]
    ensures !Held(Run(steps + more), i)
  {
    if more == [] {
      assert steps + more == steps;
    } else {
      var front, last := more[..|more| - 1], more[|more| - 1];
      ReleasedForGood(steps, front, i);
      RunKeepsInv(steps + front);
      ProcessedIsReverted(Run(steps + front), last, i);
      RunOneMore(steps + front, last);
      assert (steps + front) + [last] == steps + more;
      if last.Fail? && last.worker in Run(steps + front).holds {
        assert Run(steps + front).holds[last.worker] != i;
      }
    }
  }

  /** PROCESSED is final exactly when no worker holds the event any more. */
  lemma ProcessedForGood(steps: seq<Step>, i: nat)
    requires i < |Run(steps).events| && Run(steps).events[i].status == Processed
    ensures !Held(Run(steps), i) <==>
            forall more :: i < |Run(steps + more).events| && Run(steps + more).events[i] == Run(steps).events[i]
  {
    if Held(Run(steps), i) {
      var w :| w in Run(steps).holds && Run(steps).holds[w] == i;
      RunKeepsInv(steps);
      ProcessedIsReverted(Run(steps), Fail(w), i);
      RunOneMore(steps, Fail(w));
    } else {
      forall more
        ensures i < |Run(steps + more).events| && Run(steps + more).events[i] == Run(steps).events[i]
      {
        ReleasedForGood(steps, more, i);
      }
    }
  }

  /** What any run leaves: one event per message, at most eight claims of it, one worker at a time,
      and a processed event whose message still exists has exactly one analysis. */
  lemma OutboxRuns(steps: seq<Step>, i: nat)
    requires i < |Run(steps).events|
    ensures var s := Run(steps); var e := s.events[i];
            && (forall j :: 0 <= j < |s.events| && s.events[j].message == e.message ==> j == i)
            && |e.claims| <= MAX_CLAIMS
            && (forall k :: 1 <= k < |e.claims| ==> e.claims[k] >= e.claims[k - 1] + Backoff(k))
            && (forall w, v :: w in s.holds && v in s.holds && s.holds[w] == s.holds[v] == i ==> w == v)
            && (e.status == Processed ==> e.message !in s.stored || s.analyses[e.message] == 1)
  {
    RunKeepsInv(steps);
    assert WellPaced(Run(steps).events[i], Run(steps).now);
  }

  /** Claiming again and again, the last claim comes at least 3810 seconds after the first. */
  lemma EightClaims(steps: seq<Step>, i: nat)
    requires i < |Run(steps).events| && |Run(steps).events[i].claims| == MAX_CLAIMS
    ensures var claims := Run(steps).events[i].claims; claims[7] - claims[0] >= 3810
    ensures forall later: int :: !Claimable(Run(steps).events[i], later)
  {
    OutboxRuns(steps, i);
    RunKeepsInv(steps);
    assert WellPaced(Run(steps).events[i], Run(steps).now);
    var claims := Run(steps).events[i].claims;
    Backoffs();
    assert claims[1] >= claims[0] + Backoff(1) && claims[2] >= claims[1] + Backoff(2);
    assert claims[3] >= claims[2] + Backoff(3) && claims[4] >= claims[3] + Backoff(4);
    assert claims[5] >= claims[4] + Backoff(5) && claims[6] >= claims[5] + Backoff(6);
    assert claims[7] >= claims[6] + Backoff(7);
  }

  lemma Backoffs()
    ensures Backoff(1) == 30 && Backoff(2) == 60 && Backoff(3) == 120 && Backoff(4) == 240
    ensures Backoff(5) == 480 && Backoff(6) == 960 && Backoff(7) == 1920
  {
    assert Pow2(2) == 4;
    assert Pow2(4) == 16;
    assert Pow2(6) == 64;
  }
}
