/** microsoft_sync.py: one feed per folder, moves that look like removals, and expired links. */
module MicrosoftSync {
  import opened Wrappers
  import opened AuthState
  import opened MailStore
  import opened MailLog
  import opened DeltaLog
  import opened FolderTree
  import opened TokenManager
  import opened GraphClient
  import opened SyncRuns

  type Cursors = map<string, DeltaLink>

  /** Logs read one after the other between two moments. */
  ghost predicate InTime(first: Log<Message>, logs: seq<Log<Message>>, last: Log<Message>) {
    && first <= last
    && (forall i :: 0 <= i < |logs| ==> first <= logs[i] <= last)
    && (forall i, j :: 0 <= i < j < |logs| ==> logs[i] <= logs[j])
  }

  /** The mail data that `entries`, handled at these logs, make of `rows`. */
  ghost predicate Replayed(first: Log<Message>, logs: seq<Log<Message>>, last: Log<Message>, rows: Rows<Message>,
                           entries: seq<Entry>, mailboxes: map<string, string>, rows': Rows<Message>) {
    && |logs| == |entries| && InTime(first, logs, last)
    && SameMail(AfterEntries(logs, rows, entries, mailboxes), rows')
  }

  lemma OneMoreEntry(first: Log<Message>, logs: seq<Log<Message>>, last: Log<Message>, log: Log<Message>,
                     rows: Rows<Message>, before: Rows<Message>, after: Rows<Message>,
                     entries: seq<Entry>, e: Entry, mailboxes: map<string, string>)
    requires Replayed(first, logs, last, rows, entries, mailboxes, before)
    requires last <= log && SameMail(AfterEntry(log, before, e, mailboxes), after)
    ensures Replayed(first, logs + [log], log, rows, entries + [e], mailboxes, after)
  {
    assert (logs + [log])[..|logs|] == logs && (entries + [e])[..|entries|] == entries;
    SameEntryOnSameMail(log, AfterEntries(logs, rows, entries, mailboxes), before, e, mailboxes);
  }

  /** Only this folder's link changed, to one no older than `since`. */
  ghost predicate Moved(before: Cursors, after: Cursors, folder: string, since: nat) {
    && Key(folder) in after && after == before[Key(folder) := after[Key(folder)]]
    && since <= after[Key(folder)].index
  }

  /** At most this folder's link was dropped. */
  ghost predicate Dropped(before: Cursors, after: Cursors, folder: string) {
    after == before || after == before - {Key(folder)}
  }

  lemma DroppedAndMoved(before: Cursors, after: Cursors, folder: string, since: nat, since': nat)
    requires since <= since'
    ensures Moved(before - {Key(folder)}, after, folder, since') ==> Moved(before, after, folder, since)
    ensures Dropped(before - {Key(folder)}, after, folder) ==> Dropped(before, after, folder)
  {
    assert before - {Key(folder)} - {Key(folder)} == before - {Key(folder)};
    if Moved(before - {Key(folder)}, after, folder, since') {
      assert after == before[Key(folder) := after[Key(folder)]];
    }
  }

  /** The links of the first `count` folders are at least as new as `since`. */
  ghost predicate Reached(cursors: Cursors, folders: seq<Folder>, count: nat, since: nat)
    requires count <= |folders|
  {
    forall i :: 0 <= i < count ==> Key(folders[i].id) in cursors && since <= cursors[Key(folders[i].id)].index
  }

  lemma ReachedOneMore(before: Cursors, after: Cursors, folders: seq<Folder>, count: nat, since: nat, since': nat)
    requires count < |folders| && Reached(before, folders, count, since)
    requires Moved(before, after, folders[count].id, since') && since <= since'
    ensures Reached(after, folders, count + 1, since)
  {
  }

  function SuccessColumns(now: int): Columns {
    map[AccountStatus := Mode(Connected), LastError := Null, LastSyncedAt := Time(now)]
  }

  /** The account row after a run that worked. */
  predicate Settled(columns: Columns, now: int)
    requires Complete(columns)
  {
    columns[AccountStatus] == Mode(Connected) && columns[LastError] == Null && columns[LastSyncedAt] == Time(now)
  }

  /** What a failed run writes: a transient failure restores the status the run began with. */
  function FailureColumns(failure: Failure, previous: Status, message: string): Columns {
    map[AccountStatus := Mode(if failure.kind == Transient then (if previous != Syncing then previous else Connected)
                              else if failure.kind == InvalidGrant then ReauthRequired
                              else Error),
        LastError := Text(message)]
  }

  lemma ValuesKeepTypes(columns: Columns, values: Columns)
    requires WellTyped(columns) && HistoryCursor !in values && RefreshToken !in values
    requires AccountStatus in values ==> values[AccountStatus].Mode?
    ensures WellTyped(columns + values) && (columns + values)[HistoryCursor] == columns[HistoryCursor]
  {
  }

  /** Every folder of the tree has been read at least up to `since`. */
  ghost predicate TreeReached(cursors: Cursors, tree: seq<Folder>, since: nat) {
    forall id :: InTree(tree, id) ==> Key(id) in cursors && since <= cursors[Key(id)].index
  }

  lemma ListedIsReached(cursors: Cursors, folders: seq<Folder>, tree: seq<Folder>, since: nat, since': nat)
    requires Reached(cursors, folders, |folders|, since') && since <= since'
    requires forall id :: InTree(tree, id) <==> exists f :: f in folders && f.id == id
    ensures TreeReached(cursors, tree, since)
  {
    forall id | InTree(tree, id)
      ensures Key(id) in cursors && since <= cursors[Key(id)].index
    {
      var f :| f in folders && f.id == id;
      var i :| 0 <= i < |folders| && folders[i] == f;
    }
  }

  /** Whatever lies in a folder of the tree and did not change after `since` is stored as it is. */
  ghost predicate TreeCurrent(log: Log<Message>, rows: Rows<Message>, tree: seq<Folder>, since: nat) {
    forall m ::
      Remote(log, m).Some? && InTree(tree, Remote(log, m).value.folder) && !ChangedSince(log, since, m) ==>
        Local(rows, m) == Remote(log, m)
  }

  lemma ReachedTreeIsCurrent(log: Log<Message>, store: Store, tree: seq<Folder>, since: nat)
    requires Sound(log, store) && TreeReached(store.cursors, tree, since)
    ensures TreeCurrent(log, store.rows, tree, since)
  {
    forall m | Remote(log, m).Some? && InTree(tree, Remote(log, m).value.folder) && !ChangedSince(log, since, m)
      ensures Local(store.rows, m) == Remote(log, m)
    {
      var folder := Remote(log, m).value.folder;
      assert InFolder(log, m, folder);
      assert Covered(log, store.rows, m, store.cursors[Key(folder)].index);
    }
  }

  class MicrosoftSyncService {
    const client: MicrosoftGraphClient

    constructor (client: MicrosoftGraphClient)
      ensures this.client == client
    {
      this.client := client;
    }

    ghost predicate Good()
      reads this, client, client.tokens, client.repository, client.repository.session
    {
      client.Good()
    }

    /** Nothing of this transaction is uncommitted. */
    ghost predicate Committed()
      requires Good()
      reads this, client, client.tokens, client.repository, client.repository.session
    {
      !client.repository.session.locked && client.repository.Snap().view == client.repository.Snap().disk
    }

    ghost function View(): Store
      requires client.repository.AccountWellTyped()
      reads this, client, client.tokens, client.repository, client.repository.session
    {
      client.repository.Snap().view
    }

    /** The state of the walk of one page: the entries with ids in `done` have been handled since
        the page arrived, when log and store were these. */
    ghost predicate OnPage(log: Log<Message>, store: Store, done: set<string>)
      requires client.repository.AccountWellTyped()
      reads this, client, client.tokens, client.repository, client.repository.session
    {
      && Sound(log, store) && View().cursors == store.cursors
      && Pass(log, store.rows, client.log, View().rows, done)
    }

    method StoreEntry(m: string, message: Message, mailboxes: map<string, string>, run: SyncRun,
                      ghost log: Log<Message>, ghost store: Store, ghost done: set<string>)
      requires client.GoodBut(m) && OnPage(log, store, done) && run.Counted(1)
      requires Remote(log, m) == Some(message) || Remote(client.log, m) == Some(message)
      modifies client.repository`rows, client.repository`missing, client.repository.session, run
      ensures Good() && OnPage(log, store, done + {m}) && run.Counted(0) && run.status == old(run.status)
      ensures client.repository.rows == Handled(old(client.repository.rows), m, Some(message), mailboxes)
      ensures client.repository.missing == old(client.repository.missing) - {m}
      ensures run.messagesCreated == old(run.messagesCreated) + if m in old(client.repository.rows) then 0 else 1
    {
      client.repository.missing := client.repository.missing - {m};
      HandlingKeepsHealth(log, store, client.log, client.repository.Snap(), done, m, Some(message), mailboxes);
      var created := client.repository.Store(m, message, ProviderFlags(message, MailboxIn(mailboxes, message.folder)));
      run.Record(created);
    }

    method BuryEntry(m: string, run: SyncRun, ghost mailboxes: map<string, string>,
                     ghost log: Log<Message>, ghost store: Store, ghost done: set<string>)
      requires Good() && OnPage(log, store, done) && run.Counted(1)
      requires Remote(client.log, m) == None && m in client.repository.missing
      modifies client.repository`rows, client.repository.session, run
      ensures Good() && OnPage(log, store, done + {m}) && run.Counted(0) && run.status == old(run.status)
      ensures client.repository.rows == Buried(old(client.repository.rows), m)
      ensures run.messagesCreated == old(run.messagesCreated)
    {
      HandlingKeepsHealth(log, store, client.log, client.repository.Snap(), done, m, None, mailboxes);
      client.repository.MarkDeleted(m);
      run.Record(false);
    }

    /** The body of the loop over a page: a removal may be a move, so it is looked up by its id. */
    method HandleEntry(e: Entry, mailboxes: map<string, string>, run: SyncRun,
                       ghost log: Log<Message>, ghost store: Store, ghost done: set<string>)
      returns (r: Result<(), Failure>)
      requires Good() && OnPage(log, store, done) && run.Counted(0)
      requires e.Full? ==> Remote(log, e.id) == Some(e.message)
      modifies client`log, client.repository, client.repository.session, run
      ensures Good() && old(client.log) <= client.log && run.status == old(run.status)
      ensures View().cursors == old(View()).cursors
      ensures r.Ok? ==> OnPage(log, store, done + {e.id}) && run.Counted(0)
      ensures r.Ok? ==> SameMail(AfterEntry(client.log, old(client.repository.rows), e, mailboxes), client.repository.rows)
      ensures r.Err? ==> run.Counted(1) && r.error.kind !in {DeltaExpired, MessageNotFound}
    {
      run.messagesSeen := run.messagesSeen + 1;
      if e.Full? {
        StoreEntry(e.id, e.message, mailboxes, run, log, store, done);
        return Ok(());
      }
      ghost var log1, rows1 := client.log, client.repository.rows;
      var reply := client.GetMessage(e.id);
      PassThroughCall(log, store.rows, log1, rows1, client.log, client.repository.rows, done);
      SameEntryOnSameMail(client.log, rows1, client.repository.rows, e, mailboxes);
      if reply.Ok? {
        StoreEntry(e.id, reply.value, mailboxes, run, log, store, done);
      } else if reply.error.kind == MessageNotFound {
        BuryEntry(e.id, run, mailboxes, log, store, done);
      } else {
        return Err(reply.error);
      }
      return Ok(());
    }

    /** The loop over a page. The rows are those of AfterEntries, with the log of each lookup. */
    method HandleEntries(entries: seq<Entry>, mailboxes: map<string, string>, run: SyncRun)
      returns (r: Result<(), Failure>, ghost logs: seq<Log<Message>>)
      requires Good() && run.Counted(0)
      requires forall e :: e in entries && e.Full? ==> Remote(client.log, e.id) == Some(e.message)
      modifies client`log, client.repository, client.repository.session, run
      ensures Good() && old(client.log) <= client.log && run.status == old(run.status)
      ensures View().cursors == old(View()).cursors
      ensures r.Ok? ==> Pass(old(client.log), old(View()).rows, client.log, View().rows, IdsOf(entries)) && run.Counted(0)
      ensures r.Ok? ==> Replayed(old(client.log), logs, client.log, old(View()).rows, entries, mailboxes, View().rows)
      ensures r.Err? ==> run.Counted(1) && r.error.kind !in {DeltaExpired, MessageNotFound}
    {
      ghost var log, store := client.log, View();
      logs := [];
      EmptyPass(log, store.rows);
      for i := 0 to |entries|
        invariant Good() && run.Counted(0) && run.status == old(run.status) && log <= client.log
        invariant OnPage(log, store, IdsOf(entries[..i]))
        invariant Replayed(log, logs, client.log, store.rows, entries[..i], mailboxes, View().rows)
      {
        OneMoreId(entries, i);
        ghost var last, before := client.log, View().rows;
        r := HandleEntry(entries[i], mailboxes, run, log, store, IdsOf(entries[..i]));
        if r.Err? {
          return;
        }
        OneMoreEntry(log, logs, last, client.log, store.rows, before, View().rows, entries[..i], entries[i], mailboxes);
        logs := logs + [client.log];
      }
      assert entries[..|entries|] == entries;
      r := Ok(());
    }

    /** One turn of the page loop of _sync_folder. */
    method WalkPage(folder: string, link: Link, mailboxes: map<string, string>, run: SyncRun)
      returns (r: Result<DeltaPage, Failure>, ghost walked: set<nat>)
      requires Good() && run.Counted(0)
      requires StartOf(link).Some? ==> LinkIs(View(), folder, StartOf(link).value)
      requires link.Next? ==> link.page.since <= |client.log|
      requires Walked(client.log, View().rows, DeliveredBy(link))
      modifies client`log, client.repository, client.repository.session, run
      ensures Good() && old(client.log) <= client.log && run.status == old(run.status)
      ensures View().cursors == old(View()).cursors
      ensures r.Err? ==> (run.Counted(0) || run.Counted(1)) && r.error.kind != MessageNotFound
      ensures r.Err? && r.error.kind == DeltaExpired ==> run.Counted(0)
      ensures r.Ok? ==> Walked(client.log, View().rows, walked) && run.Counted(0)
      ensures r.Ok? && r.value.nextLink.Some? ==>
        var next := r.value.nextLink.value;
        && next.start == StartOf(link) && next.delivered == walked && next.since <= |client.log|
        && (if link.Next? then next.since == link.page.since && next.left < link.page.left else |old(client.log)| <= next.since)
      ensures r.Ok? && r.value.deltaLink.Some? ==>
        var h := r.value.deltaLink.value.index;
        && (if link.Next? then link.page.since else |old(client.log)|) <= h <= |client.log|
        && r.value.deltaLink.value == NextLink(StartOf(link), h)
        && Delivers(client.log, folder, StartOf(link), h, walked)
    {
      walked := DeliveredBy(link);
      ghost var indexes;
      r, indexes := client.Delta(folder, link);
      if r.Err? {
        return;
      }
      WalkedThroughCall(old(client.log), old(View()).rows, client.log, View().rows, walked);
      ghost var log, rows := client.log, View().rows;
      var handled, logs := HandleEntries(r.value.entries, mailboxes, run);
      if handled.Err? {
        r := Err(handled.error);
        return;
      }
      PageIsWalked(log, rows, client.log, View().rows, IdsOf(r.value.entries), walked, indexes);
      walked := walked + indexes;
      if r.value.deltaLink.Some? {
        DeliversLater(log, client.log, folder, StartOf(link), r.value.deltaLink.value.index, walked);
      }
    }

    /** The new delta link replaces the old one, or becomes the folder's first. */
    method StoreLink(folder: string, cursor: Option<DeltaLink>, next: DeltaLink, ghost walked: set<nat>)
      requires Good() && (cursor.Some? ==> LinkIs(View(), folder, cursor.value) && cursor.value.index <= next.index)
      requires next.index <= |client.log| && next == NextLink(cursor, next.index)
      requires Walked(client.log, View().rows, walked) && Delivers(client.log, folder, cursor, next.index, walked)
      modifies client.repository`cursors
      ensures Good() && View().cursors == old(View()).cursors[Key(folder) := next]
    {
      if cursor.Some? {
        assert FolderSound(client.log, View().rows, folder, cursor.value);
      }
      WalkedFolderIsSound(client.log, View().rows, folder, cursor, next.index, walked);
      NewLinkKeepsSoundness(client.log, View(), folder, next);
      client.repository.SetCursor(Key(folder), next);
    }

    /** The page loop of _sync_folder, up to the new delta link. */
    method WalkFolder(folder: string, cursor: Option<DeltaLink>, mailboxes: map<string, string>, run: SyncRun)
      returns (r: Result<(), Failure>)
      requires Good() && run.Counted(0)
      requires cursor == if Key(folder) in View().cursors then Some(View().cursors[Key(folder)]) else None
      modifies client`log, client.repository, client.repository.session, run
      ensures Good() && old(client.log) <= client.log && run.status == old(run.status)
      ensures r.Ok? ==> run.Counted(0) && Moved(old(View()).cursors, View().cursors, folder, |old(client.log)|)
      ensures r.Err? ==> View().cursors == old(View()).cursors && (run.Counted(0) || run.Counted(1))
      ensures r.Err? ==> r.error.kind != MessageNotFound && (r.error.kind == DeltaExpired ==> run.Counted(0))
    {
      var link := if cursor.Some? then Stored(cursor.value) else Begin;
      while true
        invariant Good() && run.Counted(0) && run.status == old(run.status)
        invariant old(client.log) <= client.log && View().cursors == old(View()).cursors
        invariant StartOf(link) == cursor && Walked(client.log, View().rows, DeliveredBy(link))
        invariant if link.Next? then |old(client.log)| <= link.page.since <= |client.log| else client.log == old(client.log)
        decreases !link.Next?, if link.Next? then link.page.left else 0
      {
        var page, walked := WalkPage(folder, link, mailboxes, run);
        if page.Err? {
          return Err(page.error);
        }
        if page.value.deltaLink.Some? {
          StoreLink(folder, cursor, page.value.deltaLink.value, walked);
          return Ok(());
        }
        if page.value.nextLink.None? {
          return Err(Failure(Unexpected, None));
        }
        link := Next(page.value.nextLink.value);
      }
    }

    /** _sync_folder: an expired link is dropped and the folder walked again from the start. */
    method SyncFolder(folder: string, cursor: Option<DeltaLink>, mailboxes: map<string, string>, run: SyncRun)
      returns (r: Result<(), Failure>)
      requires Good() && run.Counted(0)
      requires cursor == if Key(folder) in View().cursors then Some(View().cursors[Key(folder)]) else None
      modifies client`log, client.repository, client.repository.session, run
      ensures Good() && old(client.log) <= client.log && run.status == old(run.status)
      ensures r.Ok? ==> run.Counted(0) && Moved(old(View()).cursors, View().cursors, folder, |old(client.log)|)
      ensures r.Err? ==> Dropped(old(View()).cursors, View().cursors, folder)
      ensures r.Err? && r.error.kind == DeltaExpired ==> Key(folder) !in View().cursors
      ensures r.Err? ==> (run.Counted(0) || run.Counted(1)) && r.error.kind != MessageNotFound
      decreases cursor.Some?
    {
      r := WalkFolder(folder, cursor, mailboxes, run);
      if r.Err? && r.error.kind == DeltaExpired && cursor.Some? {
        client.repository.DeleteCursor(Key(folder));
        client.repository.session.Flush();
        ghost var since := |client.log|;
        r := SyncFolder(folder, None, mailboxes, run);
        DroppedAndMoved(old(View()).cursors, View().cursors, folder, |old(client.log)|, since);
      }
    }

    /** Every page of one level of the folder tree. */
    method ListLevel(level: seq<Folder>) returns (r: Result<seq<Folder>, Failure>)
      requires Good()
      modifies client`log, client.repository, client.repository.session
      ensures Good() && old(client.log) <= client.log && View().cursors == old(View()).cursors
      ensures r.Ok? ==> r.value == level
      ensures r.Err? ==> r.error.kind !in {DeltaExpired, MessageNotFound}
    {
      var folders: seq<Folder> := [];
      var link: Option<FolderLink> := None;
      while true
        invariant Good() && old(client.log) <= client.log && View().cursors == old(View()).cursors
        invariant if link.None? then folders == [] else link.value.offset <= |level| && folders == level[..link.value.offset]
        decreases link.None?, if link.Some? then link.value.left else 0
      {
        var page := client.Folders(level, link);
        if page.Err? {
          return Err(page.error);
        }
        folders := folders + page.value.value;
        link := page.value.nextLink;
        if link.None? {
          return Ok(folders);
        }
      }
    }

    /** _all_folders: every folder of the tree, each exactly once. */
    method AllFolders() returns (r: Result<seq<Folder>, Failure>)
      requires Good()
      modifies client`log, client.repository, client.repository.session
      ensures Good() && old(client.log) <= client.log && View().cursors == old(View()).cursors
      ensures r.Ok? ==> ListsForest(r.value, client.tree)
      ensures r.Ok? ==> forall id :: InTree(client.tree, id) <==> exists f :: f in r.value && f.id == id
      ensures r.Err? ==> r.error.kind !in {DeltaExpired, MessageNotFound}
    {
      r := ListLevel(client.tree);
      if r.Err? {
        return;
      }
      var folders, queue := r.value, Parents(r.value);
      FirstLevel(client.tree);
      while queue != []
        invariant Good() && old(client.log) <= client.log && View().cursors == old(View()).cursors
        invariant Remaining(folders, queue, client.tree) && AllParents(queue)
        decreases Below(queue, Any())
      {
        var parent := queue[|queue| - 1];
        NextLevel(folders, queue, client.tree);
        r := ListLevel(parent.children);
        if r.Err? {
          return;
        }
        folders, queue := folders + r.value, queue[..|queue| - 1] + Parents(r.value);
      }
      NothingRemains(folders, client.tree);
      r := Ok(folders);
    }

    /** The loop of synchronize over the folders. */
    method SyncFolders(folders: seq<Folder>, mailboxes: map<string, string>, run: SyncRun)
      returns (r: Result<bool, Failure>)
      requires Good() && run.Counted(0)
      modifies client`log, client.repository, client.repository.session, run
      ensures Good() && old(client.log) <= client.log && run.status == old(run.status)
      ensures r.Ok? ==> run.Counted(0) && Reached(View().cursors, folders, |folders|, |old(client.log)|)
      ensures r.Err? ==> (run.Counted(0) || run.Counted(1)) && r.error.kind != MessageNotFound
    {
      var hadCursor := false;
      for i := 0 to |folders|
        invariant Good() && old(client.log) <= client.log && run.status == old(run.status) && run.Counted(0)
        invariant Reached(View().cursors, folders, i, |old(client.log)|)
      {
        var cursor := client.repository.Cursor(Key(folders[i].id));
        hadCursor := hadCursor || cursor.Some?;
        ghost var before, since := View().cursors, |client.log|;
        var synced := SyncFolder(folders[i].id, cursor, mailboxes, run);
        if synced.Err? {
          return Err(synced.error);
        }
        ReachedOneMore(before, View().cursors, folders, i, |old(client.log)|, since);
      }
      return Ok(hadCursor);
    }

    /** What the walks start from: every folder, and the mailboxes of the well-known ones. */
    method FoldersAndMailboxes() returns (r: Result<(seq<Folder>, map<string, string>), Failure>)
      requires Good()
      modifies client`log, client.repository, client.repository.session
      ensures Good() && old(client.log) <= client.log
      ensures r.Ok? ==> forall id :: InTree(client.tree, id) <==> exists f :: f in r.value.0 && f.id == id
    {
      var folders := AllFolders();
      if folders.Err? {
        return Err(folders.error);
      }
      var mailboxes := client.FolderMailboxes();
      if mailboxes.Err? {
        return Err(mailboxes.error);
      }
      return Ok((folders.value, mailboxes.value));
    }

    /** The try body of synchronize up to the last account update. */
    method Work(run: SyncRun) returns (r: Result<(), Failure>)
      requires Good() && run.Counted(0)
      modifies client`log, client.repository, client.repository.session, run
      ensures Good() && old(client.log) <= client.log && run.status == old(run.status)
      ensures r.Ok? ==> run.Counted(0) && TreeReached(View().cursors, client.tree, |old(client.log)|)
      ensures r.Err? ==> run.Counted(0) || run.Counted(1)
    {
      var found := FoldersAndMailboxes();
      if found.Err? {
        return Err(found.error);
      }
      ghost var since := |client.log|;
      var hadCursor := SyncFolders(found.value.0, found.value.1, run);
      if hadCursor.Err? {
        return Err(hadCursor.error);
      }
      ListedIsReached(View().cursors, found.value.0, client.tree, |old(client.log)|, since);
      run.kind := if hadCursor.value then Incremental else Initial;
      return Ok(());
    }

    /** A conditional account write leaves the mail data as it is. */
    method WriteAccount(values: Columns, stamp: Option<string>) returns (applied: bool)
      requires Good() && HistoryCursor !in values && RefreshToken !in values
      requires AccountStatus in values ==> values[AccountStatus].Mode?
      modifies client.repository.session
      ensures Good() && client.repository.Snap() == old(client.repository.Snap())
      ensures applied <==> old(Admits(client.repository.session.row,
                                      stamp.GetOr(client.repository.session.current[RefreshToken].text), values))
      ensures applied ==> client.repository.session.row == old(client.repository.session.row) + values
      ensures !applied ==> client.repository.session.row == old(client.repository.session.row)
    {
      var session := client.repository.session;
      ValuesKeepTypes(session.row, values);
      ValuesKeepTypes(session.current, values);
      CleanIsRestored(session.current, session.original);
      applied := client.repository.UpdateAccountState(values, stamp);
    }

    /** The two except branches: a transient failure restores the status the run began with. */
    method RecordFailure(failure: Failure, previous: Status, message: string) returns (outcome: Failure)
      requires Good()
      modifies client.repository.session
      ensures Good() && client.repository.Snap() == old(client.repository.Snap())
      ensures
        var session := client.repository.session;
        var values := FailureColumns(failure, previous, message);
        var admitted := failure.kind != AuthorizationChanged
          && old(Admits(session.row, failure.stamp.GetOr(session.current[RefreshToken].text), values));
        && session.row == (if admitted then old(session.row) + values else old(session.row))
        && outcome == if admitted || failure.kind == AuthorizationChanged then failure else Failure(AuthorizationChanged, None)
    {
      outcome := failure;
      if failure.kind == AuthorizationChanged {
        return;
      }
      var applied := WriteAccount(FailureColumns(failure, previous, message), failure.stamp);
      if !applied {
        outcome := Failure(AuthorizationChanged, None);
      }
    }

    /** The process dies or the session is closed without a commit. */
    method Die()
      requires Good()
      modifies client.repository, client.repository.session
      ensures Good() && Committed()
    {
      client.repository.Rollback();
    }

    /** The finally branch: whatever the run stored is committed, links and rows together. */
    method Finish()
      requires Good()
      modifies client.repository`savedRows, client.repository`savedCursors, client.repository`savedMissing
      modifies client.repository.session
      ensures Good() && Committed() && View() == old(View())
      ensures client.repository.session.saved == old(client.repository.session.row)
    {
      client.repository.Commit();
    }

    /** The try statement of synchronize without its handlers. */
    method Run(run: SyncRun, now: int) returns (r: Result<(), Failure>)
      requires Good() && run.Counted(0)
      modifies client`log, client.repository, client.repository.session, run
      ensures Good() && old(client.log) <= client.log
      ensures r.Ok? ==> run.Balanced() && run.status == Succeeded && Settled(client.repository.session.row, now)
      ensures r.Ok? ==> TreeReached(View().cursors, client.tree, |old(client.log)|)
    {
      r := Work(run);
      if r.Err? {
        return;
      }
      run.status := Succeeded;
      ghost var cursors := View().cursors;
      var applied := WriteAccount(SuccessColumns(now), None);
      assert View().cursors == cursors;
      if !applied {
        r := Err(Failure(AuthorizationChanged, None));
      }
    }

    /** The except and finally branches; the commit itself may fail. */
    method Conclude(r: Result<(), Failure>, run: SyncRun, previous: Status, message: string)
      returns (outcome: Result<(), Failure>)
      requires Good()
      modifies client.repository, client.repository.session, run`status
      ensures Good() && Committed()
      ensures outcome.Ok? ==> r.Ok? && run.status == old(run.status) && View() == old(View())
      ensures outcome.Ok? ==> client.repository.session.saved == old(client.repository.session.row)
      ensures r.Err? ==> outcome.Err? && run.status == Failed
    {
      outcome := r;
      if r.Err? {
        run.status := Failed;
        if r.error.kind == Killed {
          Die();
          return;
        }
        var failure := RecordFailure(r.error, previous, message);
        outcome := Err(failure);
      }
      var committed: bool := *;
      if committed {
        ghost var view := View();
        Finish();
        assert View() == view;
      } else {
        Die();
        outcome := Err(Failure(Killed, None));
      }
    }

    /** The first conditional write of a run, flushed but not yet committed. */
    method BeginRun() returns (applied: bool)
      requires Good()
      modifies client.repository.session
      ensures Good() && client.repository.Snap() == old(client.repository.Snap())
      ensures applied <==> old(Admits(client.repository.session.row, client.repository.session.current[RefreshToken].text,
                                      map[AccountStatus := Mode(Syncing)]))
      ensures applied ==> client.repository.session.row == old(client.repository.session.row)[AccountStatus := Mode(Syncing)]
    {
      applied := WriteAccount(map[AccountStatus := Mode(Syncing)], None);
      client.repository.session.Flush();
    }

    /** synchronize. Both versions of the database stay sound whatever happens, and a run that
        succeeds leaves every message of the tree that has not changed since it began as it is. */
    method Synchronize(now: int, message: string) returns (run: SyncRun, r: Result<(), Failure>)
      requires Good() && Committed()
      modifies client`log, client.repository, client.repository.session
      ensures fresh(run) && Good() && Committed() && old(client.log) <= client.log
      ensures r.Ok? ==> run.Balanced() && run.status == Succeeded && Settled(client.repository.session.saved, now)
      ensures r.Ok? ==> TreeCurrent(client.log, client.repository.savedRows, client.tree, |old(client.log)|)
    {
      run := new SyncRun(Incremental);
      var previous := client.repository.session.current[AccountStatus].status;
      var begun := BeginRun();
      if !begun {
        Die();
        r := Err(Failure(AuthorizationChanged, None));
        return;
      }
      var result := Run(run, now);
      r := Conclude(result, run, previous, message);
      if r.Ok? {
        ReachedTreeIsCurrent(client.log, View(), client.tree, |old(client.log)|);
      }
    }

    /** Between two deliveries: the owner, other requests and the provider go on, folders come and
        go, and the next delivery opens a session of its own. */
    method Idle()
      requires Good() && Committed()
      modifies client`log, client`tree, client.repository, client.repository.session
      ensures Good() && Committed() && old(client.log) <= client.log
    {
      ghost var before := client.repository.Snap();
      var more: Log<Message>, tree: seq<Folder> := *, *;
      client.log, client.tree := client.log + more, tree;
      client.repository.Meanwhile();
      HealthSurvives(old(client.log), client.log, before, client.repository.Snap());
      client.repository.Rollback();
    }
  }

  /** Any life of a connected account: from the empty store, any number of synchronizations with
      any outcome, in between anything other requests, the owner and the provider do. */
  method AnyLife(session: AccountSession, rounds: nat) returns (client: MicrosoftGraphClient)
    requires session.Valid() && WellTyped(session.row) && WellTyped(session.saved)
    requires session.Clean() && !session.locked && session.current == session.row
    modifies session
    ensures fresh(client) && fresh(client.repository) && client.repository.session == session
    ensures client.Good()
    ensures forall m :: Remote(client.log, m).Some? && !Pending(client.log, client.repository.Snap().disk, m) ==>
      Local(client.repository.savedRows, m) == Remote(client.log, m)
    ensures forall m, i: nat, folder, link ::
      (DeletedFrom(client.log, m, i, folder) && LinkIs(client.repository.Snap().disk, folder, link)
       && link.floor <= i < link.index) ==> Local(client.repository.savedRows, m) == None
    ensures forall m :: m in client.repository.savedRows ==>
      var row := client.repository.savedRows[m];
      && (row.deleted ==> m in client.repository.savedMissing)
      && row.visible == Seen(row.local, ProviderFlags(row.payload, row.provider.mailbox))
  {
    var repository := new MailRepository(session);
    client := new MicrosoftGraphClient(repository);
    var service := new MicrosoftSyncService(client);
    for i := 0 to rounds
      invariant client.Good() && service.client == client && fresh(client) && fresh(client.repository)
      invariant client.repository.session == session && service.Committed()
    {
      var now, message := *, *;
      var run, outcome := service.Synchronize(now, message);
      service.Idle();
    }
    ghost var disk := client.repository.Snap().disk;
    forall m | Remote(client.log, m).Some? && !Pending(client.log, disk, m)
      ensures Local(client.repository.savedRows, m) == Remote(client.log, m)
    {
      HeldMessagesAreCurrent(client.log, disk, m);
    }
    forall m, i: nat, folder, link |
      DeletedFrom(client.log, m, i, folder) && LinkIs(disk, folder, link) && link.floor <= i < link.index
      ensures Local(client.repository.savedRows, m) == None
    {
      ChainedDeletionIsGone(client.log, disk, m, i, folder, link);
    }
  }
}
