/** Every interleaving of token refreshes, synchronizations and the owner's requests on one
    account row. Each committed statement is one atomic step; each worker has its own copy of
    the account. Grants and access tokens are numbered as they are issued, so none comes back.

    Sources: token_manager.py (access_token), auth_state.py (both functions), service.py
    (connect_*), the pause and resume endpoints. Leases of the refresh lock outlive the work of a
    living process; a dead one keeps the lock until its lease has run out. */
module RefreshProtocol {
  import opened Wrappers
  import opened AuthState

  datatype Row = Row(grant: nat, status: Status, token: Option<nat>, alive: bool)

  datatype Phase =
    | Idle
    | Waiting(rejected: Option<nat>)                   // blocked on the refresh lock
    | Holding(rejected: Option<nat>)                   // lock acquired, nothing read yet
    | Exchanging(expected: nat)                        // the grant is on its way to the provider
    | Answered(expected: nat, access: nat, rotated: Option<nat>)
    | Leaving(result: Option<nat>, stamp: Option<nat>) // about to release the lock
    | Refused(grant: nat)                              // holds an error stamped with a refused grant
    | Dead

  /** `read` is the grant the worker's copy of the account holds. */
  datatype Worker = Worker(phase: Phase, read: nat)

  /** published: access tokens some caller may have been given. superseded, refused: what the
      provider did with old grants. lost: grants the provider rotated while the row held them, and
      whose rotation never got published. */
  datatype State = State(
    row: Row, lock: Option<nat>, workers: map<nat, Worker>, nextGrant: nat, nextToken: nat,
    published: set<nat>, superseded: set<nat>, refused: set<nat>, lost: set<nat>)

  datatype Step =
    | Load(p: nat)                              // a new delivery or request reads the account
    | Ask(p: nat, rejected: Option<nat>)        // calls access_token
    | Acquire(p: nat)
    | Reread(p: nat)
    | Grant(p: nat, rotate: bool)               // the provider answers the exchange
    | Refuse(p: nat, invalidGrant: bool)        // the provider or the network refuses it
    | LoseAnswer(p: nat)                        // the provider rotates, but its answer never arrives
    | Publish(p: nat)                           // conditional write of the new tokens, committed
    | Abort(p: nat)                             // reading, writing or committing raises instead
    | Die(p: nat)
    | Lapse                                     // the lease of a dead holder runs out
    | Release(p: nat)
    | WriteStatus(p: nat, status: Status)       // a synchronization's conditional write
    | WriteReauth(p: nat)                       // the conditional write after a refusal
    | Pause | Resume | Reconnect | Expire       // the owner, and time

  predicate Open(status: Status) {
    status in {Connected, Syncing, Error}
  }

  predicate Usable(row: Row, rejected: Option<nat>) {
    row.token.Some? && row.alive && rejected != row.token
  }

  function With(s: State, p: nat, phase: Phase, read: nat): State {
    s.(workers := s.workers[p := Worker(phase, read)])
  }

  function PhaseOf(s: State, p: nat): Phase {
    if p in s.workers then s.workers[p].phase else Idle
  }

  /** The grant whose rotation a phase has in hand and not published yet. */
  function Unpublished(phase: Phase): Option<nat> {
    if phase.Answered? && phase.rotated.Some? then Some(phase.expected) else None
  }

  /** Giving that rotation up matters only while the row still holds the grant. */
  function LostWith(s: State, grant: Option<nat>): set<nat> {
    if grant == Some(s.row.grant) then s.lost + {s.row.grant} else s.lost
  }

  /** What each step does; a step that is not enabled changes nothing. */
  function Next(s: State, step: Step): State {
    match step
    case Load(p) =>
      if PhaseOf(s, p).Idle? then With(s, p, Idle, s.row.grant) else s
    case Ask(p, rejected) =>
      if p in s.workers && s.workers[p].phase.Idle? && (rejected.None? || rejected.value in s.published)
      then With(s, p, Waiting(rejected), s.workers[p].read) else s
    case Acquire(p) =>
      if PhaseOf(s, p).Waiting? && s.lock.None?
      then With(s, p, Holding(s.workers[p].phase.rejected), s.workers[p].read).(lock := Some(p)) else s
    case Reread(p) =>
      if !PhaseOf(s, p).Holding? then s
      else if !Open(s.row.status) then With(s, p, Leaving(None, None), s.row.grant)
      else if Usable(s.row, s.workers[p].phase.rejected) then With(s, p, Leaving(s.row.token, None), s.row.grant)
      else With(s, p, Exchanging(s.row.grant), s.row.grant)
    case Grant(p, rotate) =>
      if !PhaseOf(s, p).Exchanging? then s
      else
        var expected := s.workers[p].phase.expected;
        var rotated := if rotate then Some(s.nextGrant) else None;
        With(s, p, Answered(expected, s.nextToken, rotated), s.workers[p].read)
        .(nextToken := s.nextToken + 1,
          nextGrant := if rotate then s.nextGrant + 1 else s.nextGrant,
          superseded := if rotate then s.superseded + {expected} else s.superseded)
    case Refuse(p, invalidGrant) =>
      if !PhaseOf(s, p).Exchanging? then s
      else
        var expected := s.workers[p].phase.expected;
        With(s, p, Leaving(None, if invalidGrant then Some(expected) else None), s.workers[p].read)
        .(refused := if invalidGrant then s.refused + {expected} else s.refused)
    case Publish(p) =>
      if !PhaseOf(s, p).Answered? then s
      else
        var Answered(expected, access, rotated) := s.workers[p].phase;
        if s.row.grant == expected && Open(s.row.status) then
          var grant := rotated.GetOr(expected);
          With(s, p, Leaving(Some(access), None), grant)
          .(row := s.row.(grant := grant, token := Some(access), alive := true), published := s.published + {access})
        else
          With(s, p, Leaving(None, None), s.row.grant)
          .(lost := LostWith(s, Unpublished(s.workers[p].phase)))
    case LoseAnswer(p) =>
      if !PhaseOf(s, p).Exchanging? then s
      else
        var expected := s.workers[p].phase.expected;
        With(s, p, Leaving(None, None), s.workers[p].read)
        .(superseded := s.superseded + {expected}, nextGrant := s.nextGrant + 1, lost := LostWith(s, Some(expected)))
    case Abort(p) =>
      if PhaseOf(s, p).Holding? || PhaseOf(s, p).Answered? || (PhaseOf(s, p).Leaving? && PhaseOf(s, p).stamp.None?)
      then With(s, p, Leaving(None, None), s.workers[p].read).(lost := LostWith(s, Unpublished(PhaseOf(s, p))))
      else s
    case Die(p) =>
      if p !in s.workers then s
      else With(s, p, Dead, s.workers[p].read).(lost := LostWith(s, Unpublished(PhaseOf(s, p))))
    case Lapse =>
      if s.lock.Some? && PhaseOf(s, s.lock.value).Dead? then s.(lock := None) else s
    case Release(p) =>
      if !PhaseOf(s, p).Leaving? then s
      else
        var stamp := s.workers[p].phase.stamp;
        With(s, p, if stamp.Some? then Refused(stamp.value) else Idle, s.workers[p].read).(lock := None)
    case WriteStatus(p, status) =>
      if p in s.workers && s.workers[p].phase.Idle? && Open(status) then
        if s.row.grant == s.workers[p].read && Open(s.row.status) then s.(row := s.row.(status := status))
        else With(s, p, Idle, s.row.grant)
      else s
    case WriteReauth(p) =>
      if !PhaseOf(s, p).Refused? then s
      else if s.row.grant == s.workers[p].phase.grant && s.row.status != Disconnected
      then With(s, p, Idle, s.workers[p].read).(row := s.row.(status := ReauthRequired, token := None, alive := false))
      else With(s, p, Idle, s.row.grant)
    case Pause => s.(row := s.row.(status := Disconnected))
    case Resume => s.(row := s.row.(status := Connected))
    case Reconnect =>
      s.(row := Row(s.nextGrant, Connected, Some(s.nextToken), true), nextGrant := s.nextGrant + 1,
          nextToken := s.nextToken + 1, published := s.published + {s.nextToken})
    case Expire => s.(row := s.row.(alive := false))
  }

  function Run(s: State, steps: seq<Step>): State
    decreases |steps|
  {
    if steps == [] then s else Run(Next(s, steps[0]), steps[1..])
  }

  const START := State(Row(0, Connected, Some(0), true), None, map[], 1, 1, {0}, {}, {}, {})

  predicate Critical(phase: Phase) {
    phase.Holding? || phase.Exchanging? || phase.Answered? || phase.Leaving?
  }

  /** The grants a phase carries were all issued, and what it claims about them is true. */
  ghost predicate Honest(s: State, phase: Phase) {
    match phase
    case Exchanging(expected) => expected < s.nextGrant && (expected in s.superseded ==> expected in s.lost)
    case Answered(expected, access, rotated) =>
      && expected < s.nextGrant && access < s.nextToken && access !in s.published
      && (rotated.Some? ==> rotated.value < s.nextGrant && rotated.value != s.row.grant
                            && rotated.value !in s.superseded && rotated.value !in s.refused
                            && expected in s.superseded)
      && (rotated.None? && expected in s.superseded ==> expected in s.lost)
    case Leaving(_, stamp) => stamp.Some? ==> stamp.value in s.refused
    case Refused(grant) => grant in s.refused
    case Waiting(rejected) => rejected.Some? ==> rejected.value in s.published
    case Holding(rejected) => rejected.Some? ==> rejected.value in s.published
    case Idle => true
    case Dead => true
  }

  /** A rotation for grant g has been answered and is about to be published. */
  ghost predicate InFlight(s: State, g: nat) {
    && s.lock.Some? && PhaseOf(s, s.lock.value).Answered?
    && PhaseOf(s, s.lock.value).expected == g && PhaseOf(s, s.lock.value).rotated.Some?
  }

  ghost predicate Inv(s: State) {
    && s.row.grant < s.nextGrant
    && (s.row.token.Some? ==> s.row.token.value < s.nextToken)
    && (forall g :: g in s.superseded ==> g < s.nextGrant)
    && (forall g :: g in s.refused ==> g < s.nextGrant)
    && (forall t :: t in s.published ==> t < s.nextToken)
    && s.lost <= s.superseded
    && (s.row.status == ReauthRequired ==> s.row.grant in s.refused)
    && (forall p :: p in s.workers ==>
         && Honest(s, s.workers[p].phase) && s.workers[p].read < s.nextGrant
         && (Critical(s.workers[p].phase) ==> s.lock == Some(p))
         && (s.lock == Some(p) ==> Critical(s.workers[p].phase) || s.workers[p].phase.Dead?))
    && (s.lock.Some? ==> s.lock.value in s.workers)
    && (s.row.grant in s.superseded ==> s.row.grant in s.lost || InFlight(s, s.row.grant))
  }

  lemma LoadKeepsInv(s: State, step: Step)
    requires Inv(s) && step.Load?
    ensures Inv(Next(s, step))
  {
  }

  lemma AskKeepsInv(s: State, step: Step)
    requires Inv(s) && step.Ask?
    ensures Inv(Next(s, step))
  {
  }

  lemma AcquireKeepsInv(s: State, step: Step)
    requires Inv(s) && step.Acquire?
    ensures Inv(Next(s, step))
  {
  }

  lemma RereadKeepsInv(s: State, step: Step)
    requires Inv(s) && step.Reread?
    ensures Inv(Next(s, step))
  {
  }

  lemma GrantKeepsInv(s: State, step: Step)
    requires Inv(s) && step.Grant?
    ensures Inv(Next(s, step))
  {
  }

  lemma RefuseKeepsInv(s: State, step: Step)
    requires Inv(s) && step.Refuse?
    ensures Inv(Next(s, step))
  {
  }

  lemma PublishKeepsInv(s: State, step: Step)
    requires Inv(s) && step.Publish?
    ensures Inv(Next(s, step))
  {
  }

  lemma LoseAnswerKeepsInv(s: State, step: Step)
    requires Inv(s) && step.LoseAnswer?
    ensures Inv(Next(s, step))
  {
  }

  lemma AbortKeepsInv(s: State, step: Step)
    requires Inv(s) && step.Abort?
    ensures Inv(Next(s, step))
  {
  }

  lemma DieKeepsInv(s: State, step: Step)
    requires Inv(s) && step.Die?
    ensures Inv(Next(s, step))
  {
  }

  lemma LapseKeepsInv(s: State, step: Step)
    requires Inv(s) && step.Lapse?
    ensures Inv(Next(s, step))
  {
  }

  lemma ReleaseKeepsInv(s: State, step: Step)
    requires Inv(s) && step.Release?
    ensures Inv(Next(s, step))
  {
  }

  /** A worker that holds no lock forgets what it was doing. */
  lemma IdleKeepsInv(s: State, p: nat, read: nat)
    requires Inv(s) && p in s.workers && !Critical(s.workers[p].phase) && !s.workers[p].phase.Dead? && read < s.nextGrant
    ensures Inv(With(s, p, Idle, read))
  {
  }

  /** A write to the row that leaves its grant. */
  lemma StatusKeepsInv(s: State, row: Row)
    requires Inv(s) && row.grant == s.row.grant && (row.token.Some? ==> row.token == s.row.token)
    requires row.status == ReauthRequired ==> row.grant in s.refused
    ensures Inv(s.(row := row))
  {
  }

  lemma WriteStatusKeepsInv(s: State, step: Step)
    requires Inv(s) && step.WriteStatus?
    ensures Inv(Next(s, step))
  {
    if Next(s, step).row == s.row {
      if Next(s, step) != s {
        IdleKeepsInv(s, step.p, s.row.grant);
      }
    } else {
      StatusKeepsInv(s, s.row.(status := step.status));
    }
  }

  lemma WriteReauthKeepsInv(s: State, step: Step)
    requires Inv(s) && step.WriteReauth?
    ensures Inv(Next(s, step))
  {
    if PhaseOf(s, step.p).Refused? {
      var row := s.row.(status := ReauthRequired, token := None, alive := false);
      if s.row.grant == s.workers[step.p].phase.grant && s.row.status != Disconnected {
        StatusKeepsInv(s, row);
        IdleKeepsInv(s.(row := row), step.p, s.workers[step.p].read);
      } else {
        IdleKeepsInv(s, step.p, s.row.grant);
      }
    }
  }

  lemma OwnerKeepsInv(s: State, step: Step)
    requires Inv(s) && (step.Pause? || step.Resume? || step.Reconnect? || step.Expire?)
    ensures Inv(Next(s, step))
  {
  }

  lemma StepKeepsInv(s: State, step: Step)
    requires Inv(s)
    ensures Inv(Next(s, step))
  {
    match step
    case Load(_) => LoadKeepsInv(s, step);
    case Ask(_, _) => AskKeepsInv(s, step);
    case Acquire(_) => AcquireKeepsInv(s, step);
    case Reread(_) => RereadKeepsInv(s, step);
    case Grant(_, _) => GrantKeepsInv(s, step);
    case Refuse(_, _) => RefuseKeepsInv(s, step);
    case Publish(_) => PublishKeepsInv(s, step);
    case LoseAnswer(_) => LoseAnswerKeepsInv(s, step);
    case Abort(_) => AbortKeepsInv(s, step);
    case Die(_) => DieKeepsInv(s, step);
    case Lapse => LapseKeepsInv(s, step);
    case Release(_) => ReleaseKeepsInv(s, step);
    case WriteStatus(_, _) => WriteStatusKeepsInv(s, step);
    case WriteReauth(_) => WriteReauthKeepsInv(s, step);
    case _ => OwnerKeepsInv(s, step);
  }

  lemma {:induction false} RunKeepsInv(s: State, steps: seq<Step>)
    requires Inv(s)
    ensures Inv(Run(s, steps))
    decreases |steps|
  {
    if steps != [] {
      StepKeepsInv(s, steps[0]);
      RunKeepsInv(Next(s, steps[0]), steps[1..]);
    }
  }

  /** Every state of every run. */
  lemma Reachable(steps: seq<Step>)
    ensures Inv(Run(START, steps))
  {
    RunKeepsInv(START, steps);
  }

  /** No two workers are between acquiring the lock and releasing it, so no two exchanges for the
      account are ever on their way together. */
  lemma SingleFlight(steps: seq<Step>, p: nat, q: nat)
    requires Critical(PhaseOf(Run(START, steps), p)) && Critical(PhaseOf(Run(START, steps), q))
    ensures p == q
  {
    Reachable(steps);
  }

  /** An account is in REAUTH_REQUIRED only with a grant the provider refused: a refusal of an
      older grant never reaches a newer one. */
  lemma RefusalsHitTheirOwnGrant(steps: seq<Step>)
    requires Run(START, steps).row.status == ReauthRequired
    ensures Run(START, steps).row.grant in Run(START, steps).refused
  {
    Reachable(steps);
  }

  /** The step gives up a rotation of g that the provider has made, while the row still holds g: the
      status no longer admits the conditional write, reading or committing raises, the process dies,
      or the answer never arrives. */
  predicate Loses(s: State, step: Step, g: nat) {
    && g == s.row.grant
    && match step
       case Publish(p) => Unpublished(PhaseOf(s, p)) == Some(g) && !Open(s.row.status)
       case Abort(p) => Unpublished(PhaseOf(s, p)) == Some(g)
       case Die(p) => Unpublished(PhaseOf(s, p)) == Some(g)
       case LoseAnswer(p) => PhaseOf(s, p) == Exchanging(g)
       case _ => false
  }

  /** A rotation is lost exactly by such a step. */
  lemma LostExactly(s: State, step: Step, g: nat)
    requires Inv(s)
    ensures g in Next(s, step).lost <==> g in s.lost || Loses(s, step, g)
  {
  }

  /** Some step of the run lost a rotation of g. */
  ghost predicate LostBy(steps: seq<Step>, g: nat) {
    exists i :: 0 <= i < |steps| && Loses(Run(START, steps[..i]), steps[i], g)
  }

  lemma LostByOneMore(steps: seq<Step>, step: Step, g: nat)
    ensures LostBy(steps + [step], g) <==> LostBy(steps, g) || Loses(Run(START, steps), step, g)
  {
    var all := steps + [step];
    assert all[..|steps|] == steps && all[|steps|] == step;
    assert forall i :: 0 <= i < |steps| ==> all[..i] == steps[..i] && all[i] == steps[i];
    if LostBy(steps, g) {
      var i :| 0 <= i < |steps| && Loses(Run(START, steps[..i]), steps[i], g);
      assert Loses(Run(START, all[..i]), all[i], g);
    }
  }

  lemma {:induction false} LostExactlyInRuns(steps: seq<Step>, g: nat)
    ensures g in Run(START, steps).lost <==> LostBy(steps, g)
  {
    if steps != [] {
      var front, last := steps[..|steps| - 1], steps[|steps| - 1];
      assert steps == front + [last];
      LostExactlyInRuns(front, g);
      Reachable(front);
      LostByOneMore(front, last, g);
      OneMore(START, front, last);
      LostExactly(Run(START, front), last, g);
    }
  }

  /** When an exchange leaves for the provider, its grant has been superseded if and only if some
      earlier step of the run lost a rotation of that very grant. */
  lemma SupersededOnlyIfLost(steps: seq<Step>, p: nat)
    requires PhaseOf(Run(START, steps), p).Exchanging?
    ensures var grant := PhaseOf(Run(START, steps), p).expected;
            grant in Run(START, steps).superseded <==> LostBy(steps, grant)
  {
    Reachable(steps);
    LostExactlyInRuns(steps, PhaseOf(Run(START, steps), p).expected);
  }

  predicate Closes(step: Step) {
    step.Pause? || step.WriteReauth?
  }

  /** An exchange whose grant the provider rotated, or may have rotated, does not reach its end. */
  predicate Interrupts(s: State, step: Step) {
    || (step.LoseAnswer? && PhaseOf(s, step.p).Exchanging?)
    || ((step.Abort? || step.Die?) && Unpublished(PhaseOf(s, step.p)).Some?)
  }

  lemma OpenStepLosesNothing(s: State, step: Step)
    requires Inv(s) && Open(s.row.status) && s.lost == {} && !Closes(step) && !Interrupts(s, step)
    ensures Open(Next(s, step).row.status) && Next(s, step).lost == {}
  {
  }

  /** No step of the run pauses the account, records a refusal or interrupts an exchange. */
  ghost predicate Undisturbed(s: State, steps: seq<Step>)
    decreases |steps|
  {
    steps == [] || (!Closes(steps[0]) && !Interrupts(s, steps[0]) && Undisturbed(Next(s, steps[0]), steps[1..]))
  }

  /** While the account stays open and every exchange reaches its end, no rotation is lost, hence no
      exchange ever uses a superseded grant. */
  lemma {:induction false} NothingLostWhileOpen(s: State, steps: seq<Step>)
    requires Inv(s) && Open(s.row.status) && s.lost == {} && Undisturbed(s, steps)
    ensures Open(Run(s, steps).row.status) && Run(s, steps).lost == {}
    decreases |steps|
  {
    if steps != [] {
      StepKeepsInv(s, steps[0]);
      OpenStepLosesNothing(s, steps[0]);
      NothingLostWhileOpen(Next(s, steps[0]), steps[1..]);
    }
  }

  lemma {:induction false} OneMore(s: State, steps: seq<Step>, step: Step)
    ensures Run(s, steps + [step]) == Next(Run(s, steps), step)
    decreases |steps|
  {
    if steps == [] {
      assert steps + [step] == [step];
      assert [step][1..] == [];
      assert Run(Next(s, step), []) == Next(s, step);
    } else {
      assert (steps + [step])[1..] == steps[1..] + [step];
      OneMore(Next(s, steps[0]), steps[1..], step);
    }
  }

  /** A first refresh has sent its exchange. */
  const FIRST_EXCHANGE :=
    State(Row(0, Connected, Some(0), true), Some(1), map[1 := Worker(Exchanging(0), 0)], 1, 1, {0}, {}, {}, {})

  lemma FirstExchange() returns (steps: seq<Step>)
    ensures Run(START, steps) == FIRST_EXCHANGE && forall i :: 0 <= i < |steps| ==> !Closes(steps[i])
  {
    steps := [];
    OneMore(START, steps, Load(1));
    steps := steps + [Load(1)];
    OneMore(START, steps, Ask(1, Some(0)));
    steps := steps + [Ask(1, Some(0))];
    OneMore(START, steps, Acquire(1));
    steps := steps + [Acquire(1)];
    OneMore(START, steps, Reread(1));
    steps := steps + [Reread(1)];
  }

  /** A refresh that is answered with a rotation just after the owner paused the account. */
  lemma AnsweredWhilePaused() returns (steps: seq<Step>)
    ensures Run(START, steps) ==
      State(Row(0, Disconnected, Some(0), true), Some(1), map[1 := Worker(Answered(0, 1, Some(1)), 0)], 2, 2, {0}, {0}, {}, {})
  {
    steps := FirstExchange();
    OneMore(START, steps, Grant(1, true));
    steps := steps + [Grant(1, true)];
    OneMore(START, steps, Pause);
    steps := steps + [Pause];
  }

  /** The loss does happen: a pause between the provider's answer and its publication, then a
      resume, and the next refresh sends the superseded grant. */
  lemma PauseLosesARotation() returns (steps: seq<Step>)
    ensures PhaseOf(Run(START, steps), 1) == Exchanging(0) && 0 in Run(START, steps).superseded
  {
    steps := AnsweredWhilePaused();
    OneMore(START, steps, Publish(1));
    steps := steps + [Publish(1)];
    OneMore(START, steps, Release(1));
    steps := steps + [Release(1)];
    OneMore(START, steps, Resume);
    steps := steps + [Resume];
    assert Run(START, steps) == State(Row(0, Connected, Some(0), true), None, map[1 := Worker(Idle, 0)], 2, 2, {0}, {0}, {}, {0});
    OneMore(START, steps, Ask(1, Some(0)));
    steps := steps + [Ask(1, Some(0))];
    OneMore(START, steps, Acquire(1));
    steps := steps + [Acquire(1)];
    OneMore(START, steps, Reread(1));
    steps := steps + [Reread(1)];
  }

  /** Whoever leaves without a token asks again, and the grant in the row goes out once more. */
  lemma AskedAgain(steps: seq<Step>) returns (all: seq<Step>)
    requires var s := Run(START, steps);
             && s.row == START.row && s.lock == Some(1) && s.published == {0}
             && 1 in s.workers && s.workers[1].phase == Leaving(None, None)
    ensures PhaseOf(Run(START, all), 1) == Exchanging(0) && Run(START, all).superseded == Run(START, steps).superseded
    ensures all == steps + [Release(1), Ask(1, Some(0)), Acquire(1), Reread(1)]
  {
    OneMore(START, steps, Release(1));
    all := steps + [Release(1)];
    OneMore(START, all, Ask(1, Some(0)));
    all := all + [Ask(1, Some(0))];
    OneMore(START, all, Acquire(1));
    all := all + [Acquire(1)];
    OneMore(START, all, Reread(1));
    all := all + [Reread(1)];
  }

  /** Nobody pauses anything: the publication raises, or the answer gets lost, and the next refresh
      of the open account sends the superseded grant. */
  lemma InterruptionLosesARotation(answered: bool) returns (steps: seq<Step>)
    ensures PhaseOf(Run(START, steps), 1) == Exchanging(0) && 0 in Run(START, steps).superseded
    ensures forall i :: 0 <= i < |steps| ==> !Closes(steps[i])
  {
    var sent := FirstExchange();
    if answered {
      OneMore(START, sent, Grant(1, true));
      OneMore(START, sent + [Grant(1, true)], Abort(1));
      steps := AskedAgain(sent + [Grant(1, true)] + [Abort(1)]);
    } else {
      OneMore(START, sent, LoseAnswer(1));
      steps := AskedAgain(sent + [LoseAnswer(1)]);
    }
  }

  /** Background work never revives a paused account. */
  lemma {:induction false} PausedStaysPaused(s: State, steps: seq<Step>)
    requires s.row.status == Disconnected
    requires forall i :: 0 <= i < |steps| ==> !steps[i].Resume? && !steps[i].Reconnect?
    ensures Run(s, steps).row.status == Disconnected
    decreases |steps|
  {
    if steps != [] {
      assert !steps[0].Resume? && !steps[0].Reconnect?;
      PausedStaysPaused(Next(s, steps[0]), steps[1..]);
    }
  }

  /** The grant a worker's next conditional write names: the one stamped on its error, the one it
      sent to the provider, else the one its copy of the account holds. */
  function Named(worker: Worker): nat {
    match worker.phase
    case Refused(grant) => grant
    case Answered(expected, _, _) => expected
    case _ => worker.read
  }

  predicate ByWorker(step: Step) {
    !step.Pause? && !step.Resume? && !step.Reconnect? && !step.Expire? && !step.Lapse?
  }

  /** A worker's step changes the row only while the row holds the grant the worker names. */
  lemma WritesNeedTheCurrentGrant(s: State, step: Step)
    requires Inv(s) && ByWorker(step) && Next(s, step).row != s.row
    ensures step.p in s.workers && Named(s.workers[step.p]) == s.row.grant && s.row.status != Disconnected
  {
  }

  /** g was issued, the row does not hold it and no answer in flight brings it. */
  ghost predicate Replaced(s: State, g: nat) {
    && g < s.nextGrant && g != s.row.grant
    && forall p :: p in s.workers && s.workers[p].phase.Answered? ==> s.workers[p].phase.rotated != Some(g)
  }

  lemma StepKeepsReplaced(s: State, step: Step, g: nat)
    requires Inv(s) && Replaced(s, g)
    ensures Replaced(Next(s, step), g)
  {
  }

  /** A replaced grant never comes back, so a worker that still names it will never write again. */
  lemma {:induction false} ReplacedGrantsStayReplaced(s: State, steps: seq<Step>, g: nat)
    requires Inv(s) && Replaced(s, g)
    ensures Run(s, steps).row.grant != g
    decreases |steps|
  {
    if steps != [] {
      StepKeepsInv(s, steps[0]);
      StepKeepsReplaced(s, steps[0], g);
      ReplacedGrantsStayReplaced(Next(s, steps[0]), steps[1..], g);
    }
  }

  /** About to report that the provider refused the grant g. */
  predicate Blames(phase: Phase, g: nat) {
    (phase.Refused? && phase.grant == g) || (phase.Leaving? && phase.stamp == Some(g))
  }

  /** t is published and alive, nobody is exchanging or about to report the
      current grant, and nobody asks because t was rejected. */
  ghost predicate Shared(s: State, t: nat) {
    && s.row.token == Some(t) && s.row.alive && Open(s.row.status)
    && forall p :: p in s.workers ==>
         && !s.workers[p].phase.Exchanging? && !s.workers[p].phase.Answered? && !Blames(s.workers[p].phase, s.row.grant)
         && (s.workers[p].phase.Waiting? || s.workers[p].phase.Holding? ==> s.workers[p].phase.rejected != Some(t))
  }

  /** Steps that leave the owner, the clock and the token t out of it. */
  predicate Quiet(step: Step, t: nat) {
    !step.Pause? && !step.Reconnect? && !step.Expire? && !(step.Ask? && step.rejected == Some(t))
  }

  /** Right after a successful publication the new token is shared: whoever waits behind the
      exchange cannot have seen it rejected, and an older refusal names an older grant. */
  lemma PublicationIsShared(s: State, p: nat)
    requires Inv(s) && PhaseOf(s, p).Answered?
    requires s.row.grant == PhaseOf(s, p).expected && Open(s.row.status)
    requires PhaseOf(s, p).rotated.Some? || forall q :: q in s.workers ==> !Blames(s.workers[q].phase, s.row.grant)
    ensures Shared(Next(s, Publish(p)), PhaseOf(s, p).access)
    ensures PhaseOf(Next(s, Publish(p)), p) == Leaving(Some(PhaseOf(s, p).access), None)
  {
  }

  /** ... and stays shared: every caller that waited leaves with t, and nothing is exchanged. */
  lemma {:induction false} WaitersGetThePublishedToken(s: State, steps: seq<Step>, t: nat, p: nat)
    requires Inv(s) && Shared(s, t)
    requires forall i :: 0 <= i < |steps| ==> Quiet(steps[i], t)
    ensures Shared(Run(s, steps), t)
    ensures PhaseOf(Run(s, steps), p).Holding? ==> PhaseOf(Next(Run(s, steps), Reread(p)), p) == Leaving(Some(t), None)
    decreases |steps|
  {
    if steps != [] {
      StepKeepsInv(s, steps[0]);
      assert Quiet(steps[0], t);
      QuietStepKeepsShared(s, steps[0], t);
      WaitersGetThePublishedToken(Next(s, steps[0]), steps[1..], t, p);
    }
  }

  lemma QuietStepKeepsShared(s: State, step: Step, t: nat)
    requires Inv(s) && Shared(s, t) && Quiet(step, t)
    ensures Shared(Next(s, step), t)
  {
  }
}
