/** Microsoft Graph as the synchronizer may rely on it. As with Gmail, remote changes, writes of
    other requests, token refreshes that commit, refusals and deaths can happen behind every call. */
module GraphClient {
  import opened Wrappers
  import opened AuthState
  import opened MailStore
  import opened MailLog
  import opened DeltaLog
  import opened FolderTree
  import opened TokenManager

  /** A row is a tombstone only if the last report about its id was a lookup that found nothing; the
      provider flags are those of the payload. */
  ghost predicate Earned(missing: set<string>, rows: Rows<Message>) {
    forall m :: m in rows ==>
      && (rows[m].deleted ==> m in missing)
      && rows[m].provider == ProviderFlags(rows[m].payload, rows[m].provider.mailbox)
  }

  ghost predicate Healthy(log: Log<Message>, snap: Snapshot<Message, DeltaLink>) {
    && Sound(log, snap.view) && Sound(log, snap.disk)
    && Earned(snap.view.missing, snap.view.rows) && Earned(snap.disk.missing, snap.disk.rows)
  }

  /** The provider has just reported m, whose row has still to be stored. */
  function Pardoned(snap: Snapshot<Message, DeltaLink>, m: string): Snapshot<Message, DeltaLink> {
    snap.(view := snap.view.(missing := snap.view.missing + {m}))
  }

  lemma HealthSurvives(log: Log<Message>, log': Log<Message>,
                       snap: Snapshot<Message, DeltaLink>, snap': Snapshot<Message, DeltaLink>)
    requires Healthy(log, snap) && log <= log' && Undisturbed(snap, snap')
    ensures Healthy(log', snap')
    ensures Kept(log, snap.view.rows, log', snap'.view.rows)
  {
    GrowthKeepsCoverage(log, log', snap.view.rows, snap'.view.rows);
    StaysSound(log, snap.view, log', snap'.view);
    if SameHalf(snap.disk, snap'.disk) {
      GrowthKeepsCoverage(log, log', snap.disk.rows, snap'.disk.rows);
      StaysSound(log, snap.disk, log', snap'.disk);
    } else {
      GrowthKeepsCoverage(log, log', snap.view.rows, snap'.disk.rows);
      StaysSound(log, snap.view, log', snap'.disk);
    }
  }

  /** Handling an entry of a page that arrived when log and store were these. */
  lemma HandlingKeepsHealth(log: Log<Message>, store: Store, log1: Log<Message>,
                            snap: Snapshot<Message, DeltaLink>, done: set<string>,
                            m: string, message: Option<Message>, mailboxes: map<string, string>)
    requires Healthy(log1, Pardoned(snap, m)) && Sound(log, store) && store.cursors == snap.view.cursors
    requires Pass(log, store.rows, log1, snap.view.rows, done)
    requires Remote(log1, m) == message || (message.Some? && Remote(log, m) == message)
    requires message.None? ==> m in snap.view.missing
    ensures var rows2 := Handled(snap.view.rows, m, message, mailboxes);
            && Healthy(log1, snap.(view := snap.view.(rows := rows2)))
            && Pass(log, store.rows, log1, rows2, done + {m})
  {
    var rows2 := Handled(snap.view.rows, m, message, mailboxes);
    assert Local(rows2, m) == message;
    if Remote(log1, m) == message {
      RefreshKeepsCoverage(log1, snap.view.rows, rows2, m);
      PassOneMore(log, store.rows, log1, snap.view.rows, log1, rows2, done, m);
    } else {
      StoringAnEntry(log, store.rows, log1, snap.view.rows, rows2, done, m);
    }
    StaysSound(log, store, log1, snap.view.(rows := rows2));
  }

  /** A page's continuation. Only the provider looks inside; `left` says that every walk is finite. */
  datatype PageLink = PageLink(start: Option<DeltaLink>, since: nat, delivered: set<nat>, left: nat)

  /** What a walk hands back to delta: nothing, the stored link, or the last page's next link. */
  datatype Link = Begin | Stored(link: DeltaLink) | Next(page: PageLink)

  function StartOf(link: Link): Option<DeltaLink> {
    match link
    case Begin => None
    case Stored(d) => Some(d)
    case Next(page) => page.start
  }

  function DeliveredBy(link: Link): set<nat> {
    if link.Next? then link.page.delivered else {}
  }

  datatype DeltaPage = DeltaPage(entries: seq<Entry>, nextLink: Option<PageLink>, deltaLink: Option<DeltaLink>)

  /** A page of a folder listing; the continuation is an offset. */
  datatype FolderLink = FolderLink(offset: nat, left: nat)
  datatype FolderPage = FolderPage(value: seq<Folder>, nextLink: Option<FolderLink>)

  class MicrosoftGraphClient {
    var log: Log<Message>
    var tree: seq<Folder>  // the folders; they change between synchronizations only
    const tokens: AccountTokenManager<Message, DeltaLink>
    const repository: MailRepository<Message, DeltaLink>

    constructor (repository: MailRepository<Message, DeltaLink>)
      ensures this.repository == repository && log == []
      ensures tokens.repository == repository
    {
      this.repository := repository;
      tokens := new AccountTokenManager(repository);
      log, tree := [], [];
    }

    /** Between two steps of a synchronization, in every reachable state. */
    ghost predicate Good()
      reads this, repository, repository.session, tokens
    {
      && tokens.repository == repository
      && repository.Steady() && Healthy(log, repository.Snap())
    }

    /** The same right after the provider reported m. */
    ghost predicate GoodBut(m: string)
      reads this, repository, repository.session, tokens
    {
      && tokens.repository == repository
      && repository.Steady() && Healthy(log, Pardoned(repository.Snap(), m))
    }

    ghost function Rows(): Rows<Message>
      reads repository
    {
      repository.rows
    }

    /** The bounded HTTP request under every operation. */
    method Request() returns (failure: Option<Failure>)
      requires Good()
      modifies this`log, repository, repository.session
      ensures Good() && old(log) <= log
      ensures SameHalf(old(repository.Snap()).view, repository.Snap().view)
      ensures Kept(old(log), old(Rows()), log, Rows())
      ensures failure.Some? ==> failure.value.kind !in {DeltaExpired, MessageNotFound}
    {
      ghost var before := repository.Snap();
      var more: Log<Message> := *;
      log := log + more;
      failure := None;
      if * {
        var rejected, now := *, *;
        var token, exchanged := tokens.AccessToken(rejected, now);
        if token.Err? {
          failure := Some(token.error);
        }
      } else {
        repository.Meanwhile();
      }
      HealthSurvives(old(log), log, before, repository.Snap());
      var fails: bool := *;
      if failure == None && fails {
        var kind: ErrorKind := *;
        failure := Some(Failure(if kind in {Transient, Killed} then kind else Unexpected, None));
      }
    }

    /** One page of a level of the folder tree; the pages of one listing are the level in order. */
    method Folders(level: seq<Folder>, link: Option<FolderLink>) returns (r: Result<FolderPage, Failure>)
      requires Good() && (link.Some? ==> link.value.offset <= |level|)
      modifies this`log, repository, repository.session
      ensures Good() && old(log) <= log
      ensures SameHalf(old(repository.Snap()).view, repository.Snap().view)
      ensures Kept(old(log), old(Rows()), log, Rows())
      ensures r.Err? ==> r.error.kind !in {DeltaExpired, MessageNotFound}
      ensures r.Ok? ==>
        var first := if link.Some? then link.value.offset else 0;
        var last := if r.value.nextLink.Some? then r.value.nextLink.value.offset else |level|;
        first <= last <= |level| && r.value.value == level[first..last]
      ensures r.Ok? && r.value.nextLink.Some? && link.Some? ==> r.value.nextLink.value.left < link.value.left
    {
      var failure := Request();
      if failure.Some? {
        return Err(failure.value);
      }
      var first := if link.Some? then link.value.offset else 0;
      var last: nat, left: nat := *, *;
      if link.Some? {
        left := link.value.left;
      }
      if left > 0 && first <= last <= |level| {
        return Ok(FolderPage(level[first..last], Some(FolderLink(last, left - 1))));
      }
      return Ok(FolderPage(level[first..], None));
    }

    /** folder_mailboxes: the well-known folders, possibly from the cache. */
    method FolderMailboxes() returns (r: Result<map<string, string>, Failure>)
      requires Good()
      modifies this`log, repository, repository.session
      ensures Good() && old(log) <= log
      ensures SameHalf(old(repository.Snap()).view, repository.Snap().view)
      ensures r.Err? ==> r.error.kind !in {DeltaExpired, MessageNotFound}
    {
      var failure := Request();
      if failure.Some? {
        return Err(failure.value);
      }
      var mailboxes: map<string, string> := *;
      return Ok(mailboxes);
    }

    /** The message as it is now, or the proof that there is none. */
    method GetMessage(m: string) returns (r: Result<Message, Failure>)
      requires Good()
      modifies this`log, repository, repository.session
      ensures old(log) <= log && GoodBut(m) && (r.Err? ==> Good())
      ensures SameHalf(old(repository.Snap()).view.(missing := repository.missing), repository.Snap().view)
      ensures Kept(old(log), old(Rows()), log, Rows())
      ensures r.Ok? ==> Remote(log, m) == Some(r.value) && repository.missing == old(repository.missing) - {m}
      ensures r.Err? && r.error.kind == MessageNotFound ==>
        Remote(log, m) == None && repository.missing == old(repository.missing) + {m}
      ensures r.Err? && r.error.kind != MessageNotFound ==> repository.missing == old(repository.missing)
      ensures r.Err? ==> r.error.kind != DeltaExpired
    {
      var failure := Request();
      if failure.Some? {
        return Err(failure.value);
      }
      match Remote(log, m)
      case Some(message) =>
        repository.missing := repository.missing - {m};
        return Ok(message);
      case None =>
        repository.missing := repository.missing + {m};
        return Err(Failure(MessageNotFound, None));
    }

    /** One page of a folder's feed. `indexes` are the changes it carries an entry for. On the last
        page, everything the walk owes has been carried; the new link is no older than the walk. */
    method Delta(folder: string, link: Link) returns (r: Result<DeltaPage, Failure>, ghost indexes: set<nat>)
      requires Good()
      requires StartOf(link).Some? ==> StartOf(link).value.index <= |log|
      requires link.Next? ==> link.page.since <= |log|
      modifies this`log, repository, repository.session
      ensures Good() && old(log) <= log
      ensures SameHalf(old(repository.Snap()).view, repository.Snap().view)
      ensures Kept(old(log), old(Rows()), log, Rows())
      ensures r.Err? ==> r.error.kind != MessageNotFound
      ensures r.Ok? ==> forall e :: e in r.value.entries && e.Full? ==> Remote(log, e.id) == Some(e.message)
      ensures r.Ok? ==> forall i :: i in indexes ==> i < |log| && log[i].id in IdsOf(r.value.entries)
      ensures r.Ok? && r.value.nextLink.Some? ==>
        var next := r.value.nextLink.value;
        && next.start == StartOf(link) && next.delivered == DeliveredBy(link) + indexes && next.since <= |log|
        && (if link.Next? then next.since == link.page.since && next.left < link.page.left else |old(log)| <= next.since)
      ensures r.Ok? && r.value.deltaLink.Some? ==>
        var h := r.value.deltaLink.value.index;
        && (if link.Next? then link.page.since else |old(log)|) <= h <= |log|
        && r.value.deltaLink.value == NextLink(StartOf(link), h)
        && Delivers(log, folder, StartOf(link), h, DeliveredBy(link) + indexes)
    {
      indexes := {};
      var failure := Request();
      if failure.Some? {
        return Err(failure.value), {};
      }
      if * {
        return Err(Failure(DeltaExpired, None)), {};
      }
      if * {
        return Ok(DeltaPage([], None, None)), {};  // a reply without either continuation
      }
      var start := StartOf(link);
      var begin := if start.Some? then start.value.index else 0;
      var left: nat, first: nat, last: nat := *, *, *;
      if link.Next? {
        left := link.page.left;
      }
      var whole := !(left > 0 && begin <= first <= last <= |log|);
      if whole {
        first, last := begin, |log|;
      }
      var entries := Feed(log, folder, start.None?, first, last);
      var carried := CarriedIn(log, folder, start.None?, first, last);
      indexes := carried;
      forall i | i in carried
        ensures i < |log| && log[i].id in IdsOf(entries)
      {
        FeedCarries(log, folder, start.None?, first, last, i);
      }
      if whole {
        WholeFeedDelivers(log, folder, start);
        return Ok(DeltaPage(entries, None, Some(NextLink(start, |log|)))), indexes;
      }
      var since := if link.Next? then link.page.since else |log|;
      return Ok(DeltaPage(entries, Some(PageLink(start, since, DeliveredBy(link) + carried, left - 1)), None)), indexes;
    }
  }
}
