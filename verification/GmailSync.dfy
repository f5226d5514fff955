/** sync.py: full import, history replay and the run that chooses between them. */
module GmailSync {
  import opened Wrappers
  import opened AuthState
  import opened MailStore
  import opened MailLog
  import opened GmailLog
  import opened TokenManager
  import opened GmailClient
  import opened SyncRuns

  const HISTORY_EVENTS: set<EventKind> := {MessagesAdded, MessagesDeleted, LabelsAdded, LabelsRemoved}

  function Ids(messages: seq<string>): set<string> {
    set m | m in messages
  }

  /** The columns a successful run writes, in one conditional update. */
  function ResultColumns(now: int, cursor: Value): Columns {
    map[AccountStatus := Mode(Connected), LastError := Null, LastSyncedAt := Time(now), HistoryCursor := cursor]
  }

  /** The account row after a run that worked. */
  predicate Settled(columns: Columns, now: int)
    requires Complete(columns)
  {
    && columns[AccountStatus] == Mode(Connected) && columns[LastError] == Null
    && columns[LastSyncedAt] == Time(now) && columns[HistoryCursor].Position?
  }

  /** The columns a failed run writes. */
  function FailureColumns(failure: Failure, message: string): Columns {
    map[AccountStatus := Mode(if failure.kind == InvalidGrant then ReauthRequired else Error), LastError := Text(message)]
  }

  lemma ResultKeepsTypes(columns: Columns, now: int, next: nat)
    requires WellTyped(columns)
    ensures WellTyped(columns + ResultColumns(now, Position(next)))
    ensures (columns + ResultColumns(now, Position(next)))[HistoryCursor] == Position(next)
    ensures Settled(columns + ResultColumns(now, Position(next)), now)
  {
  }

  lemma EveryEventIsRead(kind: EventKind)
    ensures kind in HISTORY_EVENTS
  {
  }

  class GmailSyncService {
    const client: GmailClient

    constructor (client: GmailClient)
      ensures this.client == client
    {
      this.client := client;
    }

    ghost predicate Good()
      reads this, client, client.tokens, client.repository, client.repository.session
    {
      client.Good()
    }

    /** Nothing of this transaction is uncommitted. */
    ghost predicate Committed()
      requires Good()
      reads this, client, client.tokens, client.repository, client.repository.session
    {
      !client.repository.session.locked && client.repository.Snap().view == client.repository.Snap().disk
    }

    /** What no step before the end of a run touches: the cursors and the stored history id. */
    ghost function Bookmarks(): (map<string, Marker>, Value)
      requires client.repository.AccountWellTyped()
      reads this, client, client.tokens, client.repository, client.repository.session
    {
      (client.repository.cursors, client.repository.session.row[HistoryCursor])
    }

    /** _store */
    method StoreMessage(m: string, message: Message, run: SyncRun)
      requires client.GoodBut(m) && run.Balanced()
      requires Remote(client.log, m) == Some(message)
      modifies client.repository`rows, client.repository.session, run
      ensures Good() && run.Balanced() && run.kind == old(run.kind) && run.status == old(run.status)
      ensures Bookmarks() == old(Bookmarks())
      ensures client.repository.rows == Upserted(old(client.repository.rows), m, message, MessageFlags(message))
      ensures Refreshed(client.log, old(client.repository.rows), client.log, client.repository.rows, m)
      ensures run.messagesSeen == old(run.messagesSeen) + 1
      ensures run.messagesCreated == old(run.messagesCreated) + if m in old(client.repository.rows) then 0 else 1
    {
      var created := client.repository.Store(m, message, MessageFlags(message));
      LookupKeepsHealth(client.log, old(client.repository.Snap()), client.repository.rows, m);
      run.Count(created);
    }

    /** The not-found branch of _refresh_message. */
    method BuryMessage(m: string)
      requires Good()
      requires Remote(client.log, m) == None && m in client.repository.missing
      modifies client.repository`rows, client.repository.session
      ensures Good() && Bookmarks() == old(Bookmarks())
      ensures Refreshed(client.log, old(client.repository.rows), client.log, client.repository.rows, m)
    {
      client.repository.MarkDeleted(m);
      LookupKeepsHealth(client.log, old(client.repository.Snap()), client.repository.rows, m);
    }

    /** _refresh_message */
    method RefreshMessage(m: string, run: SyncRun) returns (r: Result<(), Failure>)
      requires Good() && run.Balanced()
      modifies client`log, client.repository, client.repository.session, run
      ensures Good() && run.Balanced() && run.kind == old(run.kind) && run.status == old(run.status)
      ensures Bookmarks() == old(Bookmarks())
      ensures r.Ok? ==> Refreshed(old(client.log), old(client.repository.rows), client.log, client.repository.rows, m)
      ensures r.Err? ==> Kept(old(client.log), old(client.repository.rows), client.log, client.repository.rows)
      ensures r.Err? ==> r.error.kind !in {HistoryExpired, MessageNotFound}
    {
      var reply := client.GetMessage(m);
      ghost var rows := client.repository.rows;
      if reply.Err? {
        if reply.error.kind != MessageNotFound {
          return Err(reply.error);
        }
        BuryMessage(m);
      } else {
        StoreMessage(m, reply.value, run);
      }
      RefreshedLater(old(client.log), old(client.repository.rows), client.log, rows, client.repository.rows, m);
      return Ok(());
    }

    /** The loop "for message_id in ...: _refresh_message" of three places of the source. */
    method RefreshAll(ids: set<string>, run: SyncRun) returns (r: Result<(), Failure>)
      requires Good() && run.Balanced()
      modifies client`log, client.repository, client.repository.session, run
      ensures Good() && run.Balanced() && run.kind == old(run.kind) && run.status == old(run.status)
      ensures Bookmarks() == old(Bookmarks()) && old(client.log) <= client.log
      ensures r.Ok? ==> Pass(old(client.log), old(client.repository.rows), client.log, client.repository.rows, ids)
      ensures r.Err? ==> r.error.kind !in {HistoryExpired, MessageNotFound}
    {
      var todo := ids;
      ghost var done: set<string> := {};
      EmptyPass(client.log, client.repository.rows);
      while todo != {}
        invariant Good() && run.Balanced() && run.kind == old(run.kind) && run.status == old(run.status)
        invariant Bookmarks() == old(Bookmarks())
        invariant Pass(old(client.log), old(client.repository.rows), client.log, client.repository.rows, done)
        invariant done + todo == ids
        decreases todo
      {
        var m :| m in todo;
        ghost var log, rows := client.log, client.repository.rows;
        r := RefreshMessage(m, run);
        if r.Err? {
          return;
        }
        PassOneMore(old(client.log), old(client.repository.rows), log, rows, client.log, client.repository.rows, done, m);
        todo, done := todo - {m}, done + {m};
      }
      assert done == ids;
      r := Ok(());
    }

    /** One iteration of _replay_history: fetch a page of changes and look its messages up. */
    method ReplayPage(cursor: nat, token: Option<HistoryToken>, run: SyncRun)
      returns (r: Result<HistoryPage, Failure>, ghost walked: set<nat>, ghost bound: nat)
      requires Good() && run.Balanced() && AllCovered(client.log, client.repository.rows, cursor)
      requires token.Some? ==> token.value.start == cursor && Walked(client.log, client.repository.rows, token.value.delivered)
      requires token.Some? ==> token.value.floor <= |client.log|
      modifies client`log, client.repository, client.repository.session, run
      ensures Good() && run.Balanced() && run.kind == old(run.kind) && run.status == old(run.status)
      ensures Bookmarks() == old(Bookmarks()) && old(client.log) <= client.log
      ensures r.Err? ==> r.error.kind != MessageNotFound
      ensures r.Ok? ==> AllCovered(client.log, client.repository.rows, cursor)
      ensures r.Ok? ==> Walked(client.log, client.repository.rows, walked)
      ensures r.Ok? && r.value.next.Some? ==> r.value.next.value.start == cursor && r.value.next.value.delivered == walked
      ensures r.Ok? && r.value.next.Some? ==>
        && (if token.Some? then r.value.next.value.floor == token.value.floor else |old(client.log)| <= r.value.next.value.floor)
        && r.value.next.value.floor <= |client.log|
        && (token.Some? ==> r.value.next.value.left < token.value.left)
      ensures r.Ok? && r.value.next.None? ==>
        && (if token.Some? then token.value.floor else |old(client.log)|) <= bound <= |client.log|
        && (r.value.historyId.Some? ==> r.value.historyId.value == bound)
        && forall i: nat :: cursor <= i < bound ==> i in walked
    {
      walked := if token.Some? then token.value.delivered else {};
      ghost var indexes;
      r, indexes, bound := client.History(cursor, token);
      if r.Err? {
        return;
      }
      WalkedThroughCall(old(client.log), old(client.repository.rows), client.log, client.repository.rows, walked);
      ghost var log, rows := client.log, client.repository.rows;
      var ids := set record | record in r.value.records && record.kind in HISTORY_EVENTS :: record.id;
      forall i | i in indexes
        ensures log[i].id in ids
      {
        EveryEventIsRead(KindOf(log, i));
        assert RecordOf(log, i) in r.value.records;
      }
      var refreshed := RefreshAll(ids, run);
      if refreshed.Err? {
        r := Err(refreshed.error);
        return;
      }
      PageIsWalked(log, rows, client.log, client.repository.rows, ids, walked, indexes);
      walked := walked + indexes;
    }

    /** _replay_history: the returned history id covers the store, and whatever did not change
        since the replay began agrees with the provider. */
    method ReplayHistory(cursor: nat, run: SyncRun) returns (r: Result<nat, Failure>)
      requires Good() && run.Balanced() && AllCovered(client.log, client.repository.rows, cursor)
      modifies client`log, client.repository, client.repository.session, run
      ensures Good() && run.Balanced() && run.kind == old(run.kind) && run.status == old(run.status)
      ensures Bookmarks() == old(Bookmarks()) && old(client.log) <= client.log
      ensures r.Ok? ==> AllCovered(client.log, client.repository.rows, r.value)
      ensures r.Ok? ==> AllCovered(client.log, client.repository.rows, |old(client.log)|)
      ensures r.Err? ==> r.error.kind != MessageNotFound
    {
      var token: Option<HistoryToken> := None;
      while true
        invariant Good() && run.Balanced() && run.kind == old(run.kind) && run.status == old(run.status)
        invariant Bookmarks() == old(Bookmarks()) && old(client.log) <= client.log
        invariant AllCovered(client.log, client.repository.rows, cursor)
        invariant token.Some? ==> token.value.start == cursor && Walked(client.log, client.repository.rows, token.value.delivered)
        invariant if token.None? then client.log == old(client.log) else |old(client.log)| <= token.value.floor <= |client.log|
        decreases token.None?, if token.Some? then token.value.left else 0
      {
        var page, walked, bound := ReplayPage(cursor, token, run);
        if page.Err? {
          return Err(page.error);
        }
        token := page.value.next;
        if token.None? {
          var next := page.value.historyId.GetOr(cursor);
          WalkedHistoryCovers(client.log, client.repository.rows, cursor, bound, walked);
          EarlierIsCoveredToo(client.log, client.repository.rows, |old(client.log)|, bound);
          return Ok(next);
        }
      }
    }

    /** The ids a page of the listing has looked up: all of them, or those not yet active. */
    function Wanted(ids: set<string>, existing: set<string>, refreshExisting: bool): set<string> {
      if refreshExisting then ids else ids - existing
    }

    /** The inner loop of _full_sync over one page of the listing. */
    method ImportPage(messages: seq<string>, existing: set<string>, refreshExisting: bool, run: SyncRun)
      returns (r: Result<(), Failure>)
      requires Good() && run.Balanced()
      modifies client`log, client.repository, client.repository.session, run
      ensures Good() && run.Balanced() && run.kind == old(run.kind) && run.status == old(run.status)
      ensures Bookmarks() == old(Bookmarks()) && old(client.log) <= client.log
      ensures r.Ok? ==> Pass(old(client.log), old(client.repository.rows), client.log, client.repository.rows,
                             Wanted(Ids(messages), existing, refreshExisting))
      ensures r.Err? ==> r.error.kind !in {HistoryExpired, MessageNotFound}
    {
      ghost var done: set<string> := {};
      EmptyPass(client.log, client.repository.rows);
      for i := 0 to |messages|
        invariant Good() && run.Balanced() && run.kind == old(run.kind) && run.status == old(run.status)
        invariant Bookmarks() == old(Bookmarks())
        invariant Pass(old(client.log), old(client.repository.rows), client.log, client.repository.rows, done)
        invariant done == Wanted(Ids(messages[..i]), existing, refreshExisting)
      {
        var m := messages[i];
        assert messages[..i + 1] == messages[..i] + [m];
        if !refreshExisting && m in existing {
          continue;
        }
        ghost var log, rows := client.log, client.repository.rows;
        r := RefreshMessage(m, run);
        if r.Err? {
          return;
        }
        PassOneMore(old(client.log), old(client.repository.rows), log, rows, client.log, client.repository.rows, done, m);
        done := done + {m};
      }
      assert messages[..|messages|] == messages;
      r := Ok(());
    }

    /** checkpoint: the import marker and the page are committed together. */
    method Checkpoint()
      requires Good()
      modifies client.repository`savedRows, client.repository`savedCursors, client.repository`savedMissing, client.repository.session
      ensures Good() && Committed() && Bookmarks() == old(Bookmarks())
      ensures client.repository.Snap().view == old(client.repository.Snap()).view
    {
      client.repository.Commit();
    }

    /** One iteration of the listing loop of _full_sync. */
    method FetchListing(token: Option<ListToken>, existing: set<string>, refreshExisting: bool, run: SyncRun)
      returns (r: Result<ListPage, Failure>, ghost start: nat)
      requires Good() && run.Balanced()
      requires token.Some? ==> token.value.start <= |client.log|
      modifies client`log, client.repository, client.repository.session, run
      ensures Good() && run.Balanced() && run.kind == old(run.kind) && run.status == old(run.status)
      ensures Bookmarks() == old(Bookmarks()) && old(client.log) <= client.log
      ensures r.Err? ==> r.error.kind !in {HistoryExpired, MessageNotFound}
      ensures r.Ok? ==> Pass(old(client.log), old(client.repository.rows), client.log, client.repository.rows,
                             Wanted(Ids(r.value.messages), existing, refreshExisting))
      ensures r.Ok? ==> start <= |client.log| && (if token.Some? then start == token.value.start else |old(client.log)| <= start)
      ensures r.Ok? && r.value.next.Some? ==>
        && r.value.next.value.start == start
        && r.value.next.value.listed == (if token.Some? then token.value.listed else {}) + Ids(r.value.messages)
        && (token.Some? ==> r.value.next.value.left < token.value.left)
      ensures r.Ok? && r.value.next.None? ==>
        ListsAll(client.log, start, (if token.Some? then token.value.listed else {}) + Ids(r.value.messages))
      ensures r.Ok? ==> Committed()
    {
      r := client.ListMessages(token);
      start := if token.Some? then token.value.start
               else if r.Ok? && r.value.next.Some? then r.value.next.value.start else |client.log|;
      if r.Err? {
        return;
      }
      ghost var log, rows := client.log, client.repository.rows;
      ghost var listed := (if token.Some? then token.value.listed else {}) + Ids(r.value.messages);
      EmptyPass(old(client.log), old(client.repository.rows));
      PassThroughCall(old(client.log), old(client.repository.rows), old(client.log), old(client.repository.rows), log, rows, {});
      assert r.value.next.None? ==> ListsAll(log, start, listed);
      var imported := ImportPage(r.value.messages, existing, refreshExisting, run);
      if imported.Err? {
        r := Err(imported.error);
        return;
      }
      ghost var ids := Wanted(Ids(r.value.messages), existing, refreshExisting);
      PassInSequence(old(client.log), old(client.repository.rows), log, rows, client.log, client.repository.rows, {}, ids);
      assert {} + ids == ids;
      if r.value.next.None? {
        ListingStaysComplete(log, client.log, start, listed);
      }
      Checkpoint();
    }

    /** The listing loop of _full_sync. */
    method ImportListing(existing: set<string>, refreshExisting: bool, run: SyncRun)
      returns (r: Result<set<string>, Failure>, ghost start: nat)
      requires Good() && run.Balanced()
      modifies client`log, client.repository, client.repository.session, run
      ensures Good() && run.Balanced() && run.kind == old(run.kind) && run.status == old(run.status)
      ensures Bookmarks() == old(Bookmarks()) && old(client.log) <= client.log
      ensures r.Ok? ==> Pass(old(client.log), old(client.repository.rows), client.log, client.repository.rows,
                             Wanted(r.value, existing, refreshExisting))
      ensures r.Ok? ==> |old(client.log)| <= start <= |client.log| && ListsAll(client.log, start, r.value)
      ensures r.Err? ==> r.error.kind !in {HistoryExpired, MessageNotFound}
    {
      var seen: set<string> := {};
      var token: Option<ListToken> := None;
      EmptyPass(client.log, client.repository.rows);
      while true
        invariant Good() && run.Balanced() && run.kind == old(run.kind) && run.status == old(run.status)
        invariant Bookmarks() == old(Bookmarks()) && old(client.log) <= client.log
        invariant Pass(old(client.log), old(client.repository.rows), client.log, client.repository.rows,
                       Wanted(seen, existing, refreshExisting))
        invariant if token.None? then seen == {}
                  else seen == token.value.listed && |old(client.log)| <= token.value.start <= |client.log|
        decreases token.None?, if token.Some? then token.value.left else 0
      {
        ghost var log, rows := client.log, client.repository.rows;
        var page;
        page, start := FetchListing(token, existing, refreshExisting, run);
        if page.Err? {
          r := Err(page.error);
          return;
        }
        var ids := Ids(page.value.messages);
        PassInSequence(old(client.log), old(client.repository.rows), log, rows, client.log, client.repository.rows,
                       Wanted(seen, existing, refreshExisting), Wanted(ids, existing, refreshExisting));
        assert Wanted(seen, existing, refreshExisting) + Wanted(ids, existing, refreshExisting)
            == Wanted(seen + ids, existing, refreshExisting);
        seen := seen + ids;
        token := page.value.next;
        if token.None? {
          r := Ok(seen);
          return;
        }
      }
    }

    /** One attempt of _full_sync from a known baseline: list, verify what was not listed, replay. */
    method ImportFrom(baseline: nat, refreshExisting: bool, existing: set<string>, run: SyncRun) returns (r: Result<nat, Failure>)
      requires Good() && run.Balanced() && baseline <= |client.log|
      requires existing == Active(client.repository.rows)
      requires !refreshExisting ==> ActiveCovered(client.log, client.repository.rows, baseline)
      modifies client`log, client.repository, client.repository.session, run
      ensures Good() && run.Balanced() && run.kind == old(run.kind) && run.status == old(run.status)
      ensures Bookmarks() == old(Bookmarks()) && old(client.log) <= client.log
      ensures r.Ok? ==> AllCovered(client.log, client.repository.rows, r.value)
      ensures r.Ok? ==> AllCovered(client.log, client.repository.rows, |old(client.log)|)
      ensures r.Err? ==> r.error.kind != MessageNotFound
    {
      var listed, start := ImportListing(existing, refreshExisting, run);
      if listed.Err? {
        return Err(listed.error);
      }
      ghost var log, rows := client.log, client.repository.rows;
      var missing := existing - listed.value;
      var verified := RefreshAll(missing, run);
      if verified.Err? {
        return Err(verified.error);
      }
      ghost var wanted := Wanted(listed.value, existing, refreshExisting);
      PassInSequence(old(client.log), old(client.repository.rows), log, rows, client.log, client.repository.rows,
                     wanted, missing);
      ListingStaysComplete(log, client.log, start, listed.value);
      ImportCoversBaseline(old(client.log), old(client.repository.rows), client.log, client.repository.rows,
                           baseline, start, existing, listed.value, wanted + missing);
      ghost var replayed := client.log;
      r := ReplayHistory(baseline, run);
      if r.Ok? {
        EarlierIsCoveredToo(client.log, client.repository.rows, |old(client.log)|, |replayed|);
      }
    }

    /** _initial_state, or a fresh baseline written into the marker. */
    method Baseline(pending: Option<Marker>, existing: set<string>)
      returns (r: Result<(nat, bool), Failure>)
      requires Good() && pending == MarkerOf(client.repository.Snap().view)
      requires existing == Active(client.repository.rows)
      modifies client`log, client.repository, client.repository.session
      ensures Good() && Bookmarks().1 == old(Bookmarks().1) && old(client.log) <= client.log
      ensures existing == Active(client.repository.rows)
      ensures r.Ok? ==> r.value.0 <= |client.log|
      ensures r.Ok? && !r.value.1 ==> ActiveCovered(client.log, client.repository.rows, r.value.0)
      ensures InitialState(pending).Some? ==> r == Ok(InitialState(pending).value)
      ensures InitialState(pending).None? && r.Ok? ==> r.value.1 == (existing != {})
      ensures r.Ok? ==> MarkerOf(client.repository.Snap().view) == Some(Stored(Some(r.value.0), Some(r.value.1)))
      ensures r.Err? ==> r.error.kind !in {HistoryExpired, MessageNotFound}
    {
      var state := InitialState(pending);
      if state.Some? {
        return Ok(state.value);
      }
      var profile := client.Profile();
      if profile.Err? {
        return Err(profile.error);
      }
      if profile.value.None? {
        return Err(Failure(Transient, None));
      }
      var refreshExisting := existing != {};
      SameMailSameActive(old(client.repository.rows), client.repository.rows);
      NewMarkerIsSound(client.log, client.repository.Snap().view, refreshExisting);
      client.repository.SetCursor(INITIAL, Stored(Some(profile.value.value), Some(refreshExisting)));
      return Ok((profile.value.value, refreshExisting));
    }

    /** An expired baseline leaves a marker that permits nothing and forces a new one. */
    method SpoilMarker()
      requires Good()
      modifies client.repository`cursors
      ensures Good() && Bookmarks().1 == old(Bookmarks().1)
      ensures MarkerOf(client.repository.Snap().view) == Some(Unreadable)
      ensures InitialState(MarkerOf(client.repository.Snap().view)) == None
    {
      client.repository.SetCursor(INITIAL, Unreadable);
    }

    /** The end of a run that worked: the object already holds the new cursor, the row does not. */
    ghost predicate Finishing(next: nat)
      reads this, client, client.tokens, client.repository, client.repository.session
    {
      var session := client.repository.session;
      && client.tokens.repository == client.repository
      && client.repository.Valid() && client.repository.AccountWellTyped()
      && Healthy(client.log, client.repository.Snap())
      && session.current[HistoryCursor] == Position(next)
      && Restored(session.current, session.original)[HistoryCursor] == session.row[HistoryCursor]
      && WellTyped(Restored(session.current, session.original))
      && AllCovered(client.log, client.repository.rows, next)
    }

    method HoldCursor(next: nat)
      requires Good() && AllCovered(client.log, client.repository.rows, next)
      modifies client.repository.session`current, client.repository.session`original
      ensures Finishing(next)
      ensures client.repository.Snap() == old(client.repository.Snap())
    {
      client.repository.session.Assign(HistoryCursor, Position(next));
    }

    /** The last two statements of an attempt that worked. */
    method FinishImport(next: nat)
      requires Good() && AllCovered(client.log, client.repository.rows, next)
      modifies client.repository.session`current, client.repository.session`original, client.repository`cursors
      ensures Finishing(next) && MarkerOf(client.repository.Snap().view) == None
    {
      HoldCursor(next);
      client.repository.DeleteCursor(INITIAL);
    }

    /** The body of the attempt loop of _full_sync up to the replay. */
    method Attempt(pending: Option<Marker>, run: SyncRun) returns (r: Result<nat, Failure>)
      requires Good() && run.Balanced() && pending == MarkerOf(client.repository.Snap().view)
      modifies client`log, client.repository, client.repository.session, run
      ensures Good() && run.Balanced() && run.kind == old(run.kind) && run.status == old(run.status)
      ensures Bookmarks().1 == old(Bookmarks().1) && old(client.log) <= client.log
      ensures r.Ok? ==> AllCovered(client.log, client.repository.rows, r.value)
      ensures r.Ok? ==> AllCovered(client.log, client.repository.rows, |old(client.log)|)
      ensures r.Err? ==> r.error.kind != MessageNotFound
    {
      var existing := client.repository.ActiveProviderMessageIds();
      var state := Baseline(pending, existing);
      if state.Err? {
        return Err(state.error);
      }
      ghost var began := client.log;
      r := ImportFrom(state.value.0, state.value.1, existing, run);
      if r.Ok? {
        EarlierIsCoveredToo(client.log, client.repository.rows, |old(client.log)|, |began|);
      }
    }

    /** _full_sync */
    method FullSync(run: SyncRun) returns (r: Result<nat, Failure>)
      requires Good() && run.Balanced()
      modifies client`log, client.repository, client.repository.session, run
      ensures run.Balanced() && run.kind == old(run.kind) && run.status == old(run.status)
      ensures r.Ok? ==> Finishing(r.value) && MarkerOf(client.repository.Snap().view) == None
      ensures r.Ok? ==> AllCovered(client.log, client.repository.rows, |old(client.log)|)
      ensures r.Err? ==> Good() && r.error.kind !in {HistoryExpired, MessageNotFound}
      ensures client.repository.session.row[HistoryCursor] == old(client.repository.session.row[HistoryCursor])
      ensures old(client.log) <= client.log
    {
      var pending := client.repository.Cursor(INITIAL);
      var attempt := 0;
      while true
        invariant Good() && run.Balanced() && run.kind == old(run.kind) && run.status == old(run.status)
        invariant Bookmarks().1 == old(Bookmarks().1) && old(client.log) <= client.log
        invariant pending == MarkerOf(client.repository.Snap().view)
        invariant attempt < 2
        decreases 2 - attempt
      {
        ghost var began := client.log;
        r := Attempt(pending, run);
        if r.Ok? {
          EarlierIsCoveredToo(client.log, client.repository.rows, |old(client.log)|, |began|);
          FinishImport(r.value);
          return;
        }
        if r.error.kind != HistoryExpired {
          return;
        }
        SpoilMarker();
        pending := Some(Unreadable);
        if attempt == 1 {
          return Err(Failure(Transient, None));
        }
        attempt := attempt + 1;
      }
    }

    /** The try body of synchronize: the incremental path falls back to a full import when the
        history expired. */
    method Work(run: SyncRun) returns (r: Result<nat, Failure>)
      requires Good() && run.Balanced()
      requires run.kind == (if client.repository.session.current[HistoryCursor].Position? then Incremental else Initial)
      modifies client`log, client.repository, client.repository.session, run
      ensures run.Balanced() && run.status == old(run.status) && old(client.log) <= client.log
      ensures r.Ok? ==> Finishing(r.value) && AllCovered(client.log, client.repository.rows, |old(client.log)|)
      ensures r.Ok? && run.kind == Initial ==> MarkerOf(client.repository.Snap().view) == None
      ensures r.Err? ==> Good() && r.error.kind !in {HistoryExpired, MessageNotFound}
      ensures client.repository.session.row[HistoryCursor] == old(client.repository.session.row[HistoryCursor])
      ensures run.kind == Incremental ==> client.repository.cursors == old(client.repository.cursors)
    {
      if run.kind == Initial {
        r := FullSync(run);
        return;
      }
      var cursor := client.repository.session.current[HistoryCursor].index;
      r := ReplayHistory(cursor, run);
      if r.Ok? {
        HoldCursor(r.value);
      } else if r.error.kind == HistoryExpired {
        run.kind := Initial;
        ghost var began := client.log;
        r := FullSync(run);
        if r.Ok? {
          EarlierIsCoveredToo(client.log, client.repository.rows, |old(client.log)|, |began|);
        }
      }
    }

    /** The conditional write of a finished run, and the commit that makes it durable together
        with the rows and the removal of the marker. */
    method Succeed(next: nat, now: int) returns (r: Result<(), Failure>)
      requires Finishing(next)
      modifies client.repository.session, client.repository
      ensures Good()
      ensures r.Ok? ==> Committed() && client.repository.rows == old(client.repository.rows)
      ensures r.Ok? ==> client.repository.cursors == old(client.repository.cursors)
      ensures r.Ok? ==> client.repository.session.saved[HistoryCursor] == Position(next)
      ensures r.Ok? ==> Settled(client.repository.session.saved, now)
      ensures r.Err? ==> client.repository.session.saved[HistoryCursor] == old(client.repository.session.saved[HistoryCursor])
    {
      var session := client.repository.session;
      ResultKeepsTypes(session.row, now, next);
      ResultKeepsTypes(Restored(session.current, session.original), now, next);
      NewCursorIsSound(client.log, client.repository.Snap().view, next);
      var applied := client.repository.UpdateAccountState(ResultColumns(now, session.current[HistoryCursor]), None);
      if !applied {
        return Err(Failure(AuthorizationChanged, None));
      }
      if * {
        client.repository.Rollback();  // the commit itself fails
        return Err(Failure(Killed, None));
      }
      client.repository.Commit();
      return Ok(());
    }

    /** The try statement of synchronize. */
    method Run(run: SyncRun, now: int) returns (r: Result<(), Failure>)
      requires Good() && run.Balanced() && run.status == Running
      requires client.repository.Snap().view.history == client.repository.Snap().disk.history
      requires run.kind == (if client.repository.session.current[HistoryCursor].Position? then Incremental else Initial)
      modifies client`log, client.repository, client.repository.session, run
      ensures Good() && run.Balanced() && old(client.log) <= client.log
      ensures r.Ok? ==> Committed() && run.status == Succeeded
      ensures r.Ok? ==> AllCovered(client.log, client.repository.rows, |old(client.log)|)
      ensures r.Ok? ==> Settled(client.repository.session.saved, now)
      ensures r.Ok? && run.kind == Initial ==> MarkerOf(client.repository.Snap().view) == None
      ensures r.Err? ==> client.repository.session.saved[HistoryCursor] == old(client.repository.session.saved[HistoryCursor])
    {
      var work := Work(run);
      if work.Err? {
        return Err(work.error);
      }
      run.status := Succeeded;
      ghost var rows, cursors := client.repository.rows, client.repository.cursors;
      r := Succeed(work.value, now);
      assert r.Ok? ==> client.repository.rows == rows && client.repository.cursors == cursors;
    }

    /** The except branch: the failure is recorded only while the account is still the same. */
    method RecordFailure(failure: Failure, message: string) returns (outcome: Failure)
      requires Good()
      modifies client.repository.session
      ensures Good() && Bookmarks() == old(Bookmarks())
      ensures client.repository.Snap().disk == old(client.repository.Snap()).disk
      ensures
        var session := client.repository.session;
        var admitted := failure.kind != AuthorizationChanged
          && old(Admits(session.row, failure.stamp.GetOr(session.current[RefreshToken].text), FailureColumns(failure, message)));
        && session.row == (if admitted then old(session.row) + FailureColumns(failure, message) else old(session.row))
        && outcome == if admitted || failure.kind == AuthorizationChanged then failure else Failure(AuthorizationChanged, None)
    {
      outcome := failure;
      if failure.kind != AuthorizationChanged {
        var applied := client.repository.UpdateAccountState(FailureColumns(failure, message), failure.stamp);
        if !applied {
          outcome := Failure(AuthorizationChanged, None);
        }
      }
    }

    /** The process dies: only what was committed survives. */
    method Die()
      requires Good()
      modifies client.repository, client.repository.session
      ensures Good() && Committed()
      ensures client.repository.session.saved[HistoryCursor] == old(client.repository.session.saved[HistoryCursor])
    {
      client.repository.Rollback();
    }

    /** The first conditional write of a run, flushed but not yet committed. */
    method Begin() returns (applied: bool)
      requires Good() && Committed()
      modifies client.repository.session
      ensures Good() && Bookmarks() == old(Bookmarks())
      ensures client.repository.Snap() == old(client.repository.Snap())
      ensures client.repository.session.current[HistoryCursor] == old(client.repository.session.current[HistoryCursor])
      ensures applied <==> old(Admits(client.repository.session.row, client.repository.session.current[RefreshToken].text,
                                      map[AccountStatus := Mode(Syncing)]))
      ensures applied ==> client.repository.session.row == old(client.repository.session.row)[AccountStatus := Mode(Syncing)]
    {
      applied := client.repository.UpdateAccountState(map[AccountStatus := Mode(Syncing)], None);
      client.repository.session.Flush();
    }

    /** The except and finally branches of synchronize. */
    method Abort(failure: Failure, message: string) returns (outcome: Failure)
      requires Good()
      modifies client.repository, client.repository.session
      ensures Good() && Committed()
      ensures client.repository.session.saved[HistoryCursor] == old(client.repository.session.saved[HistoryCursor])
      ensures outcome == failure || outcome.kind == AuthorizationChanged
    {
      if failure.kind == Killed {
        Die();
        return failure;
      }
      outcome := RecordFailure(failure, message);
      if * {
        Die();  // the commit itself fails
      } else {
        Checkpoint();
      }
    }

    /** Between two deliveries: the owner, other requests and the provider go on, and the next
        delivery opens a session of its own. */
    method Idle()
      requires Good() && Committed()
      modifies client`log, client.repository, client.repository.session
      ensures Good() && Committed() && old(client.log) <= client.log
    {
      ghost var before := client.repository.Snap();
      var more: Log<Message> := *;
      client.log := client.log + more;
      client.repository.Meanwhile();
      HealthSurvives(old(client.log), client.log, before, client.repository.Snap());
      client.repository.Rollback();
    }

    /** synchronize. Whatever happens, both versions of the database stay sound. A run that
        succeeds leaves every message that has not changed since it began equal to the provider's
        and moves the cursor to a covering position; any other run leaves the stored cursor alone. */
    method Synchronize(now: int, message: string) returns (run: SyncRun, r: Result<(), Failure>)
      requires Good() && Committed()
      modifies client`log, client.repository, client.repository.session
      ensures fresh(run) && run.Balanced()
      ensures Good() && Committed() && old(client.log) <= client.log
      ensures r.Ok? ==> AllCovered(client.log, client.repository.savedRows, |old(client.log)|)
      ensures r.Ok? ==> Settled(client.repository.session.saved, now) && run.status == Succeeded
      ensures r.Err? ==> run.status != Succeeded
      ensures r.Ok? && run.kind == Initial ==> MarkerOf(client.repository.Snap().disk) == None
      ensures r.Err? ==> client.repository.session.saved[HistoryCursor] == old(client.repository.session.saved[HistoryCursor])
    {
      run := new SyncRun(if client.repository.session.current[HistoryCursor].Position? then Incremental else Initial);
      var applied := Begin();
      if !applied {
        Die();  // the exception leaves before the try statement: nothing is committed
        return run, Err(Failure(AuthorizationChanged, None));
      }
      r := Run(run, now);
      if r.Err? {
        run.status := Failed;
        var failure := Abort(r.error, message);
        r := Err(failure);
      }
    }
  }

  /** Any life of a connected account: from the empty store, any number of synchronizations with
      any outcome, and in between anything other requests, the owner and the provider do. */
  method AnyLife(session: AccountSession, rounds: nat) returns (client: GmailClient)
    requires session.Valid() && WellTyped(session.row) && WellTyped(session.saved)
    requires session.Clean() && !session.locked && session.current == session.row && session.row[HistoryCursor] == Null
    modifies session
    ensures fresh(client) && fresh(client.repository) && client.repository.session == session
    ensures client.Good()
    ensures forall c: nat, m ::
      session.saved[HistoryCursor] == Position(c) && !ChangedSince(client.log, c, m) ==>
        Local(client.repository.savedRows, m) == Remote(client.log, m)
    ensures forall h: nat, m ::
      MarkerOf(client.repository.Snap().disk) == Some(Stored(Some(h), Some(false)))
      && m in Active(client.repository.savedRows) && !ChangedSince(client.log, h, m) ==>
        Local(client.repository.savedRows, m) == Remote(client.log, m)
    ensures forall m :: m in client.repository.savedRows ==>
      var row := client.repository.savedRows[m];
      && (row.deleted ==> m in client.repository.savedMissing)
      && row.visible == Seen(row.local, MessageFlags(row.payload))
  {
    var repository := new MailRepository(session);
    client := new GmailClient(repository);
    var service := new GmailSyncService(client);
    for i := 0 to rounds
      invariant client.Good() && service.client == client && fresh(client) && fresh(client.repository)
      invariant client.repository.session == session && service.Committed()
    {
      var now, message := *, *;
      var run, outcome := service.Synchronize(now, message);
      service.Idle();
    }
    SoundnessSpelledOut(client.log, client.repository.Snap().disk);
  }
}