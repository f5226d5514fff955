/** The Gmail API as the synchronizer may rely on it. Remote changes, writes of other requests,
    token refreshes that commit, refusals and process deaths can happen behind every call. */
module GmailClient {
  import opened Wrappers
  import opened AuthState
  import opened MailStore
  import opened MailLog
  import opened GmailLog
  import opened TokenManager

  /** message_values: the first label in this order names the mailbox. */
  function MailboxOf(labels: set<string>): string {
    if "TRASH" in labels then "trash"
    else if "SPAM" in labels then "spam"
    else if "DRAFT" in labels then "drafts"
    else if "INBOX" in labels then "inbox"
    else if "SENT" in labels then "sent"
    else "archive"
  }

  function MessageFlags(message: Message): Flags {
    Flags("UNREAD" !in message.labels, "STARRED" in message.labels, MailboxOf(message.labels))
  }

  /** A row is a tombstone only if the last lookup of its id found nothing, and the provider flags
      are those of the stored payload. */
  ghost predicate Earned(missing: set<string>, rows: Rows<Message>) {
    forall m :: m in rows ==> (rows[m].deleted ==> m in missing) && rows[m].provider == MessageFlags(rows[m].payload)
  }

  ghost predicate Healthy(log: Log<Message>, snap: Snapshot<Message, Marker>) {
    && Sound(log, snap.view) && Sound(log, snap.disk)
    && Earned(snap.view.missing, snap.view.rows) && Earned(snap.disk.missing, snap.disk.rows)
    && snap.view.history == snap.disk.history
  }

  /** A lookup has just found m, whose row has still to be stored. */
  function Pardoned(snap: Snapshot<Message, Marker>, m: string): Snapshot<Message, Marker> {
    snap.(view := snap.view.(missing := snap.view.missing + {m}))
  }

  lemma HealthSurvives(log: Log<Message>, log': Log<Message>,
                       snap: Snapshot<Message, Marker>, snap': Snapshot<Message, Marker>)
    requires Healthy(log, snap) && log <= log' && Undisturbed(snap, snap')
    ensures Healthy(log', snap')
    ensures Kept(log, snap.view.rows, log', snap'.view.rows)
  {
    GrowthKeepsSoundness(log, log', snap.view, snap'.view);
    GrowthKeepsSoundness(log, log', if SameHalf(snap.disk, snap'.disk) then snap.disk else snap.view, snap'.disk);
    GrowthKeepsCoverage(log, log', snap.view.rows, snap'.view.rows);
  }

  /** Storing what a lookup of m just returned, or burying m when the lookup found nothing. */
  lemma LookupKeepsHealth(log: Log<Message>, snap: Snapshot<Message, Marker>, rows': Rows<Message>, m: string)
    requires Healthy(log, Pardoned(snap, m))
    requires || (Remote(log, m).Some?
                 && rows' == Upserted(snap.view.rows, m, Remote(log, m).value, MessageFlags(Remote(log, m).value)))
             || (Remote(log, m).None? && m in snap.view.missing && rows' == Buried(snap.view.rows, m))
    ensures Healthy(log, snap.(view := snap.view.(rows := rows')))
    ensures Refreshed(log, snap.view.rows, log, rows', m)
  {
    RefreshKeepsCoverage(log, snap.view.rows, rows', m);
    RefreshKeepsSoundness(log, snap.view, snap.view.(rows := rows'), m);
  }

  datatype Record = Record(kind: EventKind, id: string)

  function RecordOf(log: Log<Message>, i: nat): Record
    requires i < |log|
  {
    Record(KindOf(log, i), log[i].id)
  }

  /** Continuations. Only the provider looks inside; `left` says that every walk is finite. */
  datatype ListToken = ListToken(start: nat, listed: set<string>, left: nat)
  datatype HistoryToken = HistoryToken(start: nat, floor: nat, delivered: set<nat>, left: nat)

  datatype ListPage = ListPage(messages: seq<string>, next: Option<ListToken>)
  datatype HistoryPage = HistoryPage(records: seq<Record>, next: Option<HistoryToken>, historyId: Option<nat>)

  /** Ids present now, in the order of their latest changes. */
  function Present(log: Log<Message>, upTo: nat): (ids: seq<string>)
    requires upTo <= |log|
    ensures forall i :: 0 <= i < upTo && Remote(log, log[i].id).Some? ==> log[i].id in ids
  {
    if upTo == 0 then []
    else Present(log, upTo - 1) + if Remote(log, log[upTo - 1].id).Some? then [log[upTo - 1].id] else []
  }

  lemma {:induction false} PresentWasChanged(log: Log<Message>, m: string)
    requires Remote(log, m).Some?
    ensures exists i :: 0 <= i < |log| && log[i].id == m
  {
    if log[|log| - 1].id != m {
      PresentWasChanged(log[..|log| - 1], m);
    }
  }

  function Interval(first: nat, last: nat): (s: set<nat>)
    requires first <= last
    ensures forall i: nat :: i in s <==> first <= i < last
    decreases last - first
  {
    if first == last then {} else {first} + Interval(first + 1, last)
  }

  class GmailClient {
    var log: Log<Message>
    const tokens: AccountTokenManager<Message, Marker>
    const repository: MailRepository<Message, Marker>

    constructor (repository: MailRepository<Message, Marker>)
      ensures this.repository == repository && log == []
      ensures tokens.repository == repository
    {
      this.repository := repository;
      tokens := new AccountTokenManager(repository);
      log := [];
    }

    /** Between two steps of a synchronization, in every reachable state. */
    ghost predicate Good()
      reads this, repository, repository.session, tokens
    {
      && tokens.repository == repository
      && repository.Steady() && Healthy(log, repository.Snap())
    }

    /** The same right after a lookup that found m. */
    ghost predicate GoodBut(m: string)
      reads this, repository, repository.session, tokens
    {
      && tokens.repository == repository
      && repository.Steady() && Healthy(log, Pardoned(repository.Snap(), m))
    }

    ghost function Rows(): Rows<Message>
      reads repository
    {
      repository.rows
    }

    /** The bounded HTTP request under every operation. */
    method Request() returns (failure: Option<Failure>)
      requires Good()
      modifies this`log, repository, repository.session
      ensures Good() && old(log) <= log
      ensures SameHalf(old(repository.Snap()).view, repository.Snap().view)
      ensures Kept(old(log), old(Rows()), log, Rows())
      ensures failure.Some? ==> failure.value.kind !in {HistoryExpired, MessageNotFound}
      ensures failure.Some? && failure.value.kind == InvalidGrant ==> failure.value.stamp.Some?
    {
      ghost var before := repository.Snap();
      var more: Log<Message> := *;
      log := log + more;
      failure := None;
      if * {
        var rejected, now := *, *;
        var token, exchanged := tokens.AccessToken(rejected, now);
        if token.Err? {
          failure := Some(token.error);
        }
      } else {
        repository.Meanwhile();
      }
      HealthSurvives(old(log), log, before, repository.Snap());
      var fails: bool := *;
      if failure == None && fails {
        var kind: ErrorKind := *;
        failure := Some(Failure(if kind in {Transient, Killed} then kind else Unexpected, None));
      }
    }

    method Profile() returns (r: Result<Option<nat>, Failure>)
      requires Good()
      modifies this`log, repository, repository.session
      ensures Good() && old(log) <= log
      ensures SameHalf(old(repository.Snap()).view, repository.Snap().view)
      ensures r.Ok? && r.value.Some? ==> r.value.value == |log|
      ensures r.Err? ==> r.error.kind !in {HistoryExpired, MessageNotFound}
    {
      var failure := Request();
      if failure.Some? {
        return Err(failure.value);
      }
      if * {
        return Ok(None);
      }
      return Ok(Some(|log|));
    }

    /** One page of the listing. All pages together contain every id that exists from the first
        call to the last without changing; they may contain any other id as well. */
    method ListMessages(token: Option<ListToken>) returns (r: Result<ListPage, Failure>)
      requires Good()
      modifies this`log, repository, repository.session
      ensures Good() && old(log) <= log
      ensures SameHalf(old(repository.Snap()).view, repository.Snap().view)
      ensures Kept(old(log), old(Rows()), log, Rows())
      ensures r.Err? ==> r.error.kind !in {HistoryExpired, MessageNotFound}
      ensures r.Ok? && r.value.next.Some? ==>
        var next := r.value.next.value;
        && next.listed == (if token.Some? then token.value.listed else {}) + (set m | m in r.value.messages)
        && (token.Some? ==> next.start == token.value.start && next.left < token.value.left)
        && (token.None? ==> |old(log)| <= next.start <= |log|)
      ensures r.Ok? && r.value.next.None? ==>
        forall m :: Remote(log, m).Some? && !ChangedSince(log, if token.Some? then token.value.start else |log|, m) ==>
          m in r.value.messages || (token.Some? && m in token.value.listed)
    {
      var failure := Request();
      if failure.Some? {
        return Err(failure.value);
      }
      var left: nat := *;
      if token.Some? {
        left := token.value.left;
      }
      var messages: seq<string> := *;
      var more: bool := *;
      if left > 0 && more {
        var start := if token.Some? then token.value.start else |log|;
        var listed := (if token.Some? then token.value.listed else {}) + (set m | m in messages);
        return Ok(ListPage(messages, Some(ListToken(start, listed, left - 1))));
      }
      messages := Present(log, |log|);
      forall m | Remote(log, m).Some?
        ensures m in messages
      {
        PresentWasChanged(log, m);
      }
      return Ok(ListPage(messages, None));
    }

    /** The message as it is now, or the proof that there is none. */
    method GetMessage(m: string) returns (r: Result<Message, Failure>)
      requires Good()
      modifies this`log, repository, repository.session
      ensures old(log) <= log && GoodBut(m) && (r.Err? ==> Good())
      ensures SameHalf(old(repository.Snap()).view.(missing := repository.missing), repository.Snap().view)
      ensures Kept(old(log), old(Rows()), log, Rows())
      ensures r.Ok? ==> Remote(log, m) == Some(r.value) && repository.missing == old(repository.missing) - {m}
      ensures r.Err? && r.error.kind == MessageNotFound ==>
        Remote(log, m) == None && repository.missing == old(repository.missing) + {m}
      ensures r.Err? && r.error.kind != MessageNotFound ==> repository.missing == old(repository.missing)
      ensures r.Err? ==> r.error.kind != HistoryExpired
    {
      var failure := Request();
      if failure.Some? {
        return Err(failure.value);
      }
      match Remote(log, m)
      case Some(message) =>
        repository.missing := repository.missing - {m};
        return Ok(message);
      case None =>
        repository.missing := repository.missing + {m};
        return Err(Failure(MessageNotFound, None));
    }

    /** One page of the changes after `start`. `indexes` are the changes it carries, all of them
        already made. On the last page every change below `bound` has been carried by some page;
        the bound is no older than the walk, and historyId reports it when present. */
    method History(start: nat, token: Option<HistoryToken>)
      returns (r: Result<HistoryPage, Failure>, ghost indexes: set<nat>, ghost bound: nat)
      requires Good() && start <= |log|
      requires token.Some? ==> token.value.start == start && token.value.floor <= |log|
      requires token.Some? ==> forall i :: i in token.value.delivered ==> i < |log|
      modifies this`log, repository, repository.session
      ensures Good() && old(log) <= log
      ensures SameHalf(old(repository.Snap()).view, repository.Snap().view)
      ensures Kept(old(log), old(Rows()), log, Rows())
      ensures r.Err? ==> r.error.kind != MessageNotFound
      ensures r.Ok? ==> forall i :: i in indexes ==> start <= i < |log| && RecordOf(log, i) in r.value.records
      ensures r.Ok? && r.value.next.Some? ==>
        var next := r.value.next.value;
        && next.start == start && next.floor <= |log|
        && (if token.Some? then next.floor == token.value.floor else next.floor >= |old(log)|)
        && next.delivered == (if token.Some? then token.value.delivered else {}) + indexes
        && (token.Some? ==> next.left < token.value.left)
      ensures r.Ok? && r.value.next.None? ==>
        && (if token.Some? then token.value.floor else |old(log)|) <= bound <= |log|
        && (r.value.historyId.Some? ==> r.value.historyId.value == bound)
        && forall i: nat :: start <= i < bound ==> i in indexes || (token.Some? && i in token.value.delivered)
    {
      indexes, bound := {}, 0;
      var failure := Request();
      if failure.Some? {
        return Err(failure.value), {}, 0;
      }
      if * {
        return Err(Failure(HistoryExpired, None)), {}, 0;
      }
      var left: nat := *;
      if token.Some? {
        left := token.value.left;
      }
      var first: nat, last: nat := *, *;
      var whole := !(left > 0 && start <= first <= last <= |log|);
      if whole {
        first, last := start, |log|;
      }
      var changes := log;
      var records := seq(last - first, i requires 0 <= i < last - first => RecordOf(changes, first + i));
      var carried := Interval(first, last);
      indexes := carried;
      forall i | i in indexes
        ensures RecordOf(log, i) in records
      {
        assert records[i - first] == RecordOf(log, i);
      }
      if !whole {
        var delivered := (if token.Some? then token.value.delivered else {}) + carried;
        var floor := if token.Some? then token.value.floor else |log|;
        return Ok(HistoryPage(records, Some(HistoryToken(start, floor, delivered, left - 1)), None)), indexes, 0;
      }
      var historyId: Option<nat> := Some(last);
      if * {
        historyId := None;
      }
      return Ok(HistoryPage(records, None, historyId)), indexes, last;
    }
  }
}
