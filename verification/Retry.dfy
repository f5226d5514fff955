/** The bounded retry loops of gmail.py and microsoft.py. Time is in seconds; the n-th reading of
    the clock comes elapsed(n) after the one before, and a sleep lasts at least as long as asked.
    Retry-After is defined in section 10.2.3 of RFC 9110. */
module Retry {
  import opened Wrappers

  const MAX_ATTEMPTS := 4
  const MAX_RETRY_DELAY := 30.0
  const TRANSIENT_STATUS: set<nat> := {429, 500, 502, 503, 504}

  /** A Retry-After header: digits only, another number, a date, or neither. */
  datatype Header = NoHeader | DigitsOnly(seconds: nat) | Number(value: real) | NotFinite | Date(date: real) | Unreadable

  /** What one HTTP call brings: nothing, or a status with what the loops read of the response.
      `message` is the deadline in Gmail's JSON, `limited` its rate-limit reason on a 403. */
  datatype Reply =
    | NoAnswer
    | Answer(status: nat, header: Header, message: Option<real>, limited: bool)

  datatype Outcome =
    | Success
    | StatusError(status: nat)
    | RefreshError
    | TransientError(retryAt: Option<real>)

  function Later(a: Option<real>, b: Option<real>): Option<real> {
    if a.None? then b else if b.None? then a else if a.value >= b.value then a else b
  }

  /** gmail_retry_at at the time `now`. */
  function GmailRetryAt(reply: Reply, now: real): Option<real>
    requires reply.Answer?
  {
    var fromHeader :=
      match reply.header
      case DigitsOnly(n) => Some(now + n as real)
      case Date(at) => Some(at)
      case _ => None;
    Later(fromHeader, reply.message)
  }

  /** The provider's deadline is no earlier than anything the response asked for. */
  lemma GmailDeadlineIsTheLater(reply: Reply, now: real)
    requires reply.Answer?
    ensures var at := GmailRetryAt(reply, now);
            && (reply.message.Some? ==> at.Some? && at.value >= reply.message.value)
            && (reply.header.Date? ==> at.Some? && at.value >= reply.header.date)
            && (reply.header.DigitsOnly? ==> at.Some? && at.value >= now + reply.header.seconds as real)
            && (at.Some? ==> at == reply.message
                             || (reply.header.Date? && at.value == reply.header.date)
                             || (reply.header.DigitsOnly? && at.value == now + reply.header.seconds as real))
  {
  }

  /** microsoft_retry_at at the time `now`. */
  function MicrosoftRetryAt(header: Header, now: real): Option<real> {
    match header
    case DigitsOnly(n) => Some(now + n as real)
    case Number(x) => if x < 0.0 then None else Some(now + x)
    case Date(at) => Some(at)
    case _ => None
  }

  function Ceiling(attempt: nat): real {
    if attempt == 0 then 1.0 else if attempt == 1 then 2.0 else if attempt == 2 then 4.0
    else if attempt == 3 then 8.0 else if attempt == 4 then 16.0 else MAX_RETRY_DELAY
  }

  function Max(a: real, b: real): real {
    if a >= b then a else b
  }

  /** _retry_delay; `share` is where in [0, 1] the uniform draw falls. */
  function RetryDelay(header: Header, attempt: nat, now: real, share: real): real {
    match header
    case DigitsOnly(n) => n as real
    case Number(x) => Max(x, 0.0)
    case Date(at) => Max(at - now, 0.0)
    case _ => share * Ceiling(attempt)
  }

  lemma ShareOfCeiling(share: real, attempt: nat)
    requires 0.0 <= share <= 1.0
    ensures 0.0 <= share * Ceiling(attempt) <= Ceiling(attempt) <= MAX_RETRY_DELAY
  {
  }

  /** Waiting out a delay read at `now` meets the deadline read earlier from the same header. */
  lemma DelayMeetsDeadline(header: Header, attempt: nat, read: real, now: real, share: real)
    requires read <= now && MicrosoftRetryAt(header, read).Some?
    ensures now + RetryDelay(header, attempt, now, share) >= MicrosoftRetryAt(header, read).value
  {
  }

  datatype Provider = Gmail | Graph

  /** The outside world: the n-th reply, the n-th clock step, the random draw after attempt n. */
  datatype World = World(reply: nat -> Reply, elapsed: nat -> real, share: nat -> real)

  ghost predicate Plausible(world: World) {
    (forall n :: world.elapsed(n) >= 0.0) && (forall n :: 0.0 <= world.share(n) <= 1.0)
  }

  /** The replies that are worth another attempt. */
  predicate Retries(provider: Provider, reply: Reply) {
    reply.NoAnswer? || reply.status in TRANSIENT_STATUS || (provider.Gmail? && reply.status == 403 && reply.limited)
  }

  /** The deadline a reply sets when it arrives at the time `read`. */
  function Deadline(provider: Provider, reply: Reply, read: real): Option<real> {
    if reply.NoAnswer? || !Retries(provider, reply) then None
    else if provider.Gmail? then GmailRetryAt(reply, read)
    else MicrosoftRetryAt(reply.header, read)
  }

  /** The header says itself how long to wait. */
  predicate Readable(header: Header) {
    header.DigitsOnly? || header.Number? || header.Date?
  }

  /** The random part of the backoff after a reply: Graph lets a readable header replace it. */
  function Backoff(provider: Provider, world: World, reply: Reply, attempt: nat): real {
    if provider.Graph? && reply.Answer? && Readable(reply.header) then 0.0
    else world.share(attempt) * Ceiling(attempt)
  }

  /** One HTTP call of a request: in which attempt and when it was sent, when its reply was read, and
      the deadline that the reply set, if it asked for a retry. */
  datatype Call = Call(attempt: nat, sent: real, read: real, deadline: Option<real>)

  predicate Again(provider: Provider, reply: Reply) {
    Retries(provider, reply) || (reply.Answer? && reply.status == 401)
  }

  /** When and in which attempt the call after `call` may go out. */
  ghost predicate Follows(provider: Provider, world: World, call: Call, reply: Reply, attempt: nat, now: real) {
    && Again(provider, reply) && call.sent <= call.read <= now
    && (call.deadline.Some? ==> now >= call.deadline.value)
    && (if Retries(provider, reply)
        then attempt == call.attempt + 1 && now >= call.read + Backoff(provider, world, reply, call.attempt)
        else attempt == call.attempt)
  }

  /** The i-th call: its deadline is the one its reply set, and the call after it follows. */
  ghost predicate InOrder(provider: Provider, world: World, calls: seq<Call>, i: nat) {
    i < |calls| ==>
      && calls[i].deadline == Deadline(provider, world.reply(i), calls[i].read)
      && (i == 0 ==> calls[i].attempt == 0)
      && (i + 1 < |calls| ==> Follows(provider, world, calls[i], world.reply(i), calls[i + 1].attempt, calls[i + 1].sent))
  }

  /** The calls of one request: each deadline is the one its reply set; only a retry or a refused
      token leads to another call; no call is sent before the deadline of the one before it, nor
      before the backoff of its attempt is over. */
  ghost predicate Trace(provider: Provider, world: World, calls: seq<Call>) {
    forall i: nat :: InOrder(provider, world, calls, i)
  }

  /** The next call may go out at `now`. */
  ghost predicate Ready(provider: Provider, world: World, calls: seq<Call>, attempt: nat, now: real) {
    && Trace(provider, world, calls)
    && (if calls == [] then attempt == 0
        else Follows(provider, world, calls[|calls| - 1], world.reply(|calls| - 1), attempt, now))
  }

  /** The last call, in this attempt, has just been answered. */
  ghost predicate Answered(provider: Provider, world: World, calls: seq<Call>, attempt: nat, now: real) {
    && Trace(provider, world, calls) && calls != []
    && var last := calls[|calls| - 1];
       && last.sent <= last.read == now && last.attempt == attempt
       && last.deadline == Deadline(provider, world.reply(|calls| - 1), now)
  }

  /** One HTTP call, answered after one clock step. */
  method Send(provider: Provider, world: World, calls: seq<Call>, attempt: nat, now: real, elapsed: real)
    returns (reply: Reply, more: seq<Call>, later: real)
    requires Ready(provider, world, calls, attempt, now) && elapsed >= 0.0
    ensures reply == world.reply(|calls|) && later == now + elapsed
    ensures |more| == |calls| + 1 && Answered(provider, world, more, attempt, later)
  {
    reply, later := world.reply(|calls|), now + elapsed;
    more := calls + [Call(attempt, now, later, Deadline(provider, reply, later))];
    forall i: nat
      ensures InOrder(provider, world, more, i)
    {
      assert InOrder(provider, world, calls, i);
    }
  }

  lemma WaitedOut(provider: Provider, world: World, calls: seq<Call>, attempt: nat, read: real, now: real)
    requires Answered(provider, world, calls, attempt, read) && read <= now && Retries(provider, world.reply(|calls| - 1))
    requires var deadline := Deadline(provider, world.reply(|calls| - 1), read); deadline.Some? ==> now >= deadline.value
    requires now >= read + Backoff(provider, world, world.reply(|calls| - 1), attempt)
    ensures Ready(provider, world, calls, attempt + 1, now)
  {
  }

  lemma Refreshed(provider: Provider, world: World, calls: seq<Call>, attempt: nat, read: real, now: real)
    requires Answered(provider, world, calls, attempt, read) && read <= now
    requires world.reply(|calls| - 1).Answer? && world.reply(|calls| - 1).status == 401
    ensures Ready(provider, world, calls, attempt, now)
  {
  }

  predicate Succeeds(status: nat) {
    200 <= status < 300
  }

  /** How a request ends, given its last reply and the deadline that reply set. */
  ghost predicate Ends(provider: Provider, outcome: Outcome, last: Reply, deadline: Option<real>) {
    match outcome
    case Success => !Retries(provider, last) && Succeeds(last.status)
    case StatusError(status) => !Retries(provider, last) && last.status == status && !Succeeds(status)
    case RefreshError => last.Answer? && last.status == 401
    case TransientError(retryAt) => Retries(provider, last) && retryAt == deadline
  }

  /** A reply after which another attempt would have to wait too long. */
  ghost predicate TooLong(provider: Provider, reply: Reply, call: Call) {
    if provider.Gmail? then call.deadline.Some? && call.deadline.value > call.read + MAX_RETRY_DELAY
    else reply.Answer? && LongerThanAllowed(reply.header, call.read)
  }

  predicate LongerThanAllowed(header: Header, read: real) {
    match header
    case DigitsOnly(n) => n as real > MAX_RETRY_DELAY
    case Number(x) => x > MAX_RETRY_DELAY
    case Date(at) => at - read > MAX_RETRY_DELAY
    case _ => false
  }

  /** The refresh callback: absent, or yielding a token or not. */
  datatype Refresher = NoRefresher | Refresher(works: bool)

  /** The promise of both loops: at most five calls, one refresh and 90 seconds of sleep, deadlines
      and backoff kept; a transient error only after four attempts or when the wait would be too
      long; a refused token ends the request only without a refresh or after one. */
  ghost predicate Bounded(provider: Provider, world: World, refresher: Refresher, outcome: Outcome, calls: seq<Call>,
                          refreshes: nat, slept: real)
  {
    && 1 <= |calls| <= MAX_ATTEMPTS + refreshes && refreshes <= 1 && 0.0 <= slept <= 90.0
    && Trace(provider, world, calls)
    && (refreshes == 1 ==> refresher == Refresher(true))
    && var last, call := world.reply(|calls| - 1), calls[|calls| - 1];
       && Ends(provider, outcome, last, call.deadline)
       && (outcome.TransientError? ==> |calls| == MAX_ATTEMPTS + refreshes || TooLong(provider, last, call))
       && (outcome.RefreshError? ==> refreshes == 0 && refresher == Refresher(false))
       && (outcome == StatusError(401) ==> refresher.NoRefresher? || refreshes == 1)
  }

  /** Gmail's sleep before the next attempt; the clock is read again for a deadline. */
  method GmailSleep(retryAt: Option<real>, attempt: nat, now: real, elapsed: real, slack: real, share: real)
    returns (delay: real, later: real)
    requires elapsed >= 0.0 && slack >= 0.0 && 0.0 <= share <= 1.0
    requires retryAt.Some? ==> retryAt.value <= now + MAX_RETRY_DELAY
    ensures 0.0 <= delay <= MAX_RETRY_DELAY && later >= now
    ensures retryAt.Some? ==> later >= retryAt.value
    ensures later >= now + share * Ceiling(attempt)
  {
    ShareOfCeiling(share, attempt);
    delay := RetryDelay(NoHeader, attempt, now, share);
    later := now;
    if retryAt.Some? {
      later := later + elapsed;
      delay := Max(delay, retryAt.value - later);
    }
    later := later + delay + slack;
  }

  /** Graph's sleep before the next attempt, unless it would be too long. */
  method GraphSleep(header: Header, attempt: nat, ghost read: real, now: real, slack: real, share: real)
    returns (delay: Option<real>, later: real)
    requires read <= now && slack >= 0.0 && 0.0 <= share <= 1.0
    ensures later >= now
    ensures delay.Some? ==> 0.0 <= delay.value <= MAX_RETRY_DELAY
    ensures delay.Some? && MicrosoftRetryAt(header, read).Some? ==> later >= MicrosoftRetryAt(header, read).value
    ensures delay.Some? && !Readable(header) ==> later >= now + share * Ceiling(attempt)
    ensures delay.None? ==> LongerThanAllowed(header, read)
  {
    ShareOfCeiling(share, attempt);
    var wanted := RetryDelay(header, attempt, now, share);
    if wanted > MAX_RETRY_DELAY {
      return None, now;
    }
    if MicrosoftRetryAt(header, read).Some? {
      DelayMeetsDeadline(header, attempt, read, now, share);
    }
    return Some(wanted), now + wanted + slack;
  }

  /** GmailClient._request */
  method GmailRequest(world: World, start: real, refresher: Refresher)
    returns (outcome: Outcome, calls: seq<Call>, refreshes: nat, slept: real)
    requires Plausible(world)
    ensures Bounded(Gmail, world, refresher, outcome, calls, refreshes, slept)
  {
    calls, refreshes, slept := [], 0, 0.0;
    var now, clock := start, 0;
    var attempt, refreshed := 0, false;
    while attempt < MAX_ATTEMPTS
      invariant 0 <= attempt < MAX_ATTEMPTS && refreshes == if refreshed then 1 else 0
      invariant |calls| == attempt + refreshes
      invariant 0.0 <= slept <= 30.0 * attempt as real
      invariant Ready(Gmail, world, calls, attempt, now) && (refreshed ==> refresher == Refresher(true))
      decreases MAX_ATTEMPTS - attempt, !refreshed
    {
      var reply;
      reply, calls, now := Send(Gmail, world, calls, attempt, now, world.elapsed(clock));
      clock := clock + 1;
      ghost var read := now;
      var retryAt := Deadline(Gmail, reply, now);
      if reply.Answer? && reply.status == 401 && refresher.Refresher? && !refreshed {
        if !refresher.works {
          outcome := RefreshError;
          return;
        }
        now, clock := now + world.elapsed(clock), clock + 1;
        Refreshed(Gmail, world, calls, attempt, read, now);
        refreshed, refreshes := true, 1;
        continue;
      }
      if !Retries(Gmail, reply) {
        outcome := if Succeeds(reply.status) then Success else StatusError(reply.status);
        return;
      }
      now, clock := now + world.elapsed(clock), clock + 1;
      if retryAt.Some? && retryAt.value > now + MAX_RETRY_DELAY {
        outcome := TransientError(retryAt);
        return;
      }
      attempt := attempt + 1;
      if attempt >= MAX_ATTEMPTS {
        outcome := TransientError(retryAt);
        return;
      }
      var delay;
      delay, now := GmailSleep(retryAt, attempt - 1, now, world.elapsed(clock), world.elapsed(clock + 1),
                               world.share(attempt - 1));
      slept, clock := slept + delay, clock + 2;
      WaitedOut(Gmail, world, calls, attempt - 1, read, now);
    }
  }

  /** MicrosoftGraphClient.request, for a path or a continuation of the provider's own origin. */
  method GraphRequest(world: World, start: real, refresher: Refresher)
    returns (outcome: Outcome, calls: seq<Call>, refreshes: nat, slept: real)
    requires Plausible(world)
    ensures Bounded(Graph, world, refresher, outcome, calls, refreshes, slept)
  {
    calls, refreshes, slept := [], 0, 0.0;
    var now, clock, refreshed := start, 0, false;
    for attempt := 0 to MAX_ATTEMPTS
      invariant refreshes == if refreshed then 1 else 0
      invariant |calls| == attempt + refreshes && attempt < MAX_ATTEMPTS
      invariant 0.0 <= slept <= 30.0 * attempt as real
      invariant Ready(Graph, world, calls, attempt, now) && (refreshed ==> refresher == Refresher(true))
    {
      var reply;
      reply, calls, now := Send(Graph, world, calls, attempt, now, world.elapsed(clock));
      clock := clock + 1;
      if reply.Answer? && reply.status == 401 && refresher.Refresher? && !refreshed {
        if !refresher.works {
          outcome := RefreshError;
          return;
        }
        ghost var refused := now;
        now, clock := now + world.elapsed(clock), clock + 1;
        refreshed, refreshes := true, 1;
        Refreshed(Graph, world, calls, attempt, refused, now);
        reply, calls, now := Send(Graph, world, calls, attempt, now, world.elapsed(clock));
        clock := clock + 1;
      }
      ghost var read := now;
      var retryAt, header := Deadline(Graph, reply, now), if reply.Answer? then reply.header else NoHeader;
      if !Retries(Graph, reply) {
        outcome := if Succeeds(reply.status) then Success else StatusError(reply.status);
        return;
      }
      if attempt + 1 == MAX_ATTEMPTS {
        outcome := TransientError(retryAt);
        return;
      }
      now, clock := now + world.elapsed(clock), clock + 1;
      var delay;
      delay, now := GraphSleep(header, attempt, read, now, world.elapsed(clock), world.share(attempt));
      if delay.None? {
        outcome := TransientError(retryAt);
        return;
      }
      slept, clock := slept + delay.value, clock + 1;
      WaitedOut(Graph, world, calls, attempt, read, now);
    }
  }
}
