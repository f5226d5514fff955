/** What the Microsoft Graph cursors promise about the local store: one feed of changes per folder,
    each with its own delta link. */
module DeltaLog {
  import opened Wrappers
  import opened MailStore
  import opened MailLog
  import AuthState

  /** A message with its parent folder, as a delta entry or a direct lookup carries it. */
  datatype Message = Message(folder: string, isDraft: bool, isRead: bool, isFlagged: bool, content: string)

  /** A folder's delta link: the feed was read up to `index`, in a chain of links of which the
      first one, at the end of a walk without a link, stood at `floor`. */
  datatype DeltaLink = DeltaLink(index: nat, floor: nat)

  function Key(folder: string): string {
    "folder:" + folder
  }

  lemma KeysDiffer(f: string, g: string)
    requires Key(f) == Key(g)
    ensures f == g
  {
    assert Key(f)[|"folder:"|..] == f && Key(g)[|"folder:"|..] == g;
  }

  predicate InFolder(log: Log<Message>, m: string, folder: string) {
    Remote(log, m).Some? && Remote(log, m).value.folder == folder
  }

  /** The feed of `folder` has an entry for change i: it put a message there, changed one there,
      or took one away, by a move or by deletion. */
  predicate Concerns(log: Log<Message>, i: nat, folder: string) {
    i < |log| && (InFolder(log[..i + 1], log[i].id, folder) || InFolder(log[..i], log[i].id, folder))
  }

  type Store = Half<Message, DeltaLink>

  /** Every message in the folder that did not change after the link is stored as it is. */
  ghost predicate HeldCovered(log: Log<Message>, rows: Rows<Message>, folder: string, index: nat) {
    forall m :: InFolder(log, m, folder) ==> Covered(log, rows, m, index)
  }

  /** Every change of the chain was followed by a lookup, so it holds for removals as well. */
  ghost predicate FeedCovered(log: Log<Message>, rows: Rows<Message>, folder: string, link: DeltaLink) {
    forall i: nat :: link.floor <= i < link.index && Concerns(log, i, folder) ==> Covered(log, rows, log[i].id, i + 1)
  }

  ghost predicate FolderSound(log: Log<Message>, rows: Rows<Message>, folder: string, link: DeltaLink) {
    && link.floor <= link.index <= |log|
    && HeldCovered(log, rows, folder, link.index) && FeedCovered(log, rows, folder, link)
  }

  ghost predicate Sound(log: Log<Message>, store: Store) {
    forall folder :: Key(folder) in store.cursors ==> FolderSound(log, store.rows, folder, store.cursors[Key(folder)])
  }

  lemma InFolderBefore(log: Log<Message>, log': Log<Message>, m: string, folder: string, c: nat)
    requires log <= log' && c <= |log| && InFolder(log', m, folder) && !ChangedSince(log', c, m)
    ensures InFolder(log, m, folder)
  {
    assert !ChangedSince(log', |log|, m);
    UnchangedStaysTheSame(log', |log|, m);
    assert log'[..|log|] == log;
  }

  lemma ConcernsIsStable(log: Log<Message>, log': Log<Message>, i: nat, folder: string)
    requires log <= log' && i < |log|
    ensures Concerns(log, i, folder) <==> Concerns(log', i, folder)
  {
    assert log'[..i] == log[..i] && log'[..i + 1] == log[..i + 1];
  }

  /** A folder's promise carries over to any later state that keeps the claims of coverage. */
  lemma FolderStaysSound(log: Log<Message>, rows: Rows<Message>, log': Log<Message>, rows': Rows<Message>,
                         folder: string, link: DeltaLink)
    requires FolderSound(log, rows, folder, link) && Kept(log, rows, log', rows')
    ensures FolderSound(log', rows', folder, link)
  {
    forall m | InFolder(log', m, folder)
      ensures Covered(log', rows', m, link.index)
    {
      if !ChangedSince(log', link.index, m) {
        InFolderBefore(log, log', m, folder, link.index);
        assert Covered(log, rows, m, link.index);
      }
    }
    forall i: nat | link.floor <= i < link.index && Concerns(log', i, folder)
      ensures Covered(log', rows', log'[i].id, i + 1)
    {
      ConcernsIsStable(log, log', i, folder);
      assert Covered(log, rows, log[i].id, i + 1);
    }
  }

  lemma StaysSound(log: Log<Message>, store: Store, log': Log<Message>, store': Store)
    requires Sound(log, store) && Kept(log, store.rows, log', store'.rows) && store'.cursors == store.cursors
    ensures Sound(log', store')
  {
    forall folder | Key(folder) in store'.cursors
      ensures FolderSound(log', store'.rows, folder, store'.cursors[Key(folder)])
    {
      FolderStaysSound(log, store.rows, log', store'.rows, folder, store.cursors[Key(folder)]);
    }
  }

  /** An entry carries the message as of the delivery of its page, when the log was `log`. Storing
      it later, over whatever was stored meanwhile, keeps every claim made before that delivery. */
  lemma StoringAnEntry(log: Log<Message>, rows: Rows<Message>, log1: Log<Message>, rows1: Rows<Message>,
                       rows2: Rows<Message>, done: set<string>, m: string)
    requires Pass(log, rows, log1, rows1, done)
    requires Local(rows2, m) == Remote(log, m) && forall x :: x != m ==> Local(rows2, x) == Local(rows1, x)
    ensures Pass(log, rows, log1, rows2, done + {m})
  {
    forall c: nat | c <= |log|
      ensures Covered(log1, rows2, m, c)
    {
      if !ChangedSince(log1, c, m) {
        assert !ChangedSince(log1, |log|, m);
        UnchangedStaysTheSame(log1, |log|, m);
        assert log1[..|log|] == log;
      }
    }
    forall c: nat, x | c <= |log| && (x in done || Covered(log, rows, x, c))
      ensures Covered(log1, rows2, x, c)
    {
      assert Covered(log1, rows1, x, c);
    }
  }

  /** What a finished walk owes. With a link: every later change of the feed up to h. Without one:
      every message now in the folder and unchanged since h, through all its changes. */
  ghost predicate Delivers(log: Log<Message>, folder: string, start: Option<DeltaLink>, h: nat, delivered: set<nat>) {
    match start
    case Some(link) => forall i: nat :: link.index <= i < h && Concerns(log, i, folder) ==> i in delivered
    case None =>
      forall i: nat :: i < h && i < |log| && InFolder(log, log[i].id, folder) && !ChangedSince(log, h, log[i].id) ==>
        i in delivered
  }

  lemma DeliversLater(log: Log<Message>, log': Log<Message>, folder: string, start: Option<DeltaLink>,
                      h: nat, delivered: set<nat>)
    requires log <= log' && h <= |log| && Delivers(log, folder, start, h, delivered)
    ensures Delivers(log', folder, start, h, delivered)
  {
    if start.Some? {
      forall i: nat | start.value.index <= i < h && Concerns(log', i, folder)
        ensures i in delivered
      {
        ConcernsIsStable(log, log', i, folder);
      }
    } else {
      forall i: nat | i < h && InFolder(log', log'[i].id, folder) && !ChangedSince(log', h, log'[i].id)
        ensures i in delivered
      {
        InFolderBefore(log, log', log[i].id, folder, h);
        assert !ChangedSince(log, h, log[i].id) by {
          assert forall j :: 0 <= j < |log| ==> log'[j] == log[j];
        }
      }
    }
  }

  lemma {:induction false} LastChange(log: Log<Message>, m: string) returns (i: nat)
    requires Remote(log, m).Some?
    ensures i < |log| && log[i].id == m && !ChangedSince(log, i + 1, m) && log[i].now == Remote(log, m)
  {
    i := |log| - 1;
    if log[i].id != m {
      i := LastChange(log[..|log| - 1], m);
      assert forall j :: i + 1 <= j < |log| - 1 ==> log[j] == log[..|log| - 1][j];
    }
  }

  function NextLink(start: Option<DeltaLink>, h: nat): DeltaLink {
    DeltaLink(h, if start.Some? then start.value.floor else h)
  }

  /** A finished walk may store its new link: the heart of the delta protocol. */
  lemma WalkedFolderIsSound(log: Log<Message>, rows: Rows<Message>, folder: string, start: Option<DeltaLink>,
                            h: nat, delivered: set<nat>)
    requires h <= |log| && Walked(log, rows, delivered) && Delivers(log, folder, start, h, delivered)
    requires start.Some? ==> FolderSound(log, rows, folder, start.value) && start.value.index <= h
    ensures FolderSound(log, rows, folder, NextLink(start, h))
  {
    forall m | InFolder(log, m, folder)
      ensures Covered(log, rows, m, h)
    {
      if !ChangedSince(log, h, m) {
        var i := LastChange(log, m);
        assert i < h;
        if start.Some? && i < start.value.index {
          assert Covered(log, rows, m, start.value.index);
        } else {
          UnchangedStaysTheSame(log, i + 1, m);
          assert Concerns(log, i, folder);
          assert i in delivered;
        }
      }
    }
  }

  lemma NewLinkKeepsSoundness(log: Log<Message>, store: Store, folder: string, link: DeltaLink)
    requires Sound(log, store) && FolderSound(log, store.rows, folder, link)
    ensures Sound(log, store.(cursors := store.cursors[Key(folder) := link]))
  {
    var store' := store.(cursors := store.cursors[Key(folder) := link]);
    forall g | Key(g) in store'.cursors
      ensures FolderSound(log, store'.rows, g, store'.cursors[Key(g)])
    {
      if Key(g) == Key(folder) {
        KeysDiffer(g, folder);
      }
    }
  }

  // ---------------------------------------------------------------- what the links say about messages

  /** Some feed has an entry for m that the stored links do not cover. */
  ghost predicate Pending(log: Log<Message>, store: Store, m: string) {
    exists i: nat, folder :: Concerns(log, i, folder) && log[i].id == m
      && (Key(folder) in store.cursors ==> store.cursors[Key(folder)].index <= i)
  }

  /** With nothing pending for a message the provider still holds, the store has it as it is. */
  lemma HeldMessagesAreCurrent(log: Log<Message>, store: Store, m: string)
    requires Sound(log, store) && Remote(log, m).Some? && !Pending(log, store, m)
    ensures Local(store.rows, m) == Remote(log, m)
  {
    var i := LastChange(log, m);
    var folder := Remote(log, m).value.folder;
    UnchangedStaysTheSame(log, i + 1, m);
    assert Concerns(log, i, folder);
    assert Key(folder) in store.cursors && i < store.cursors[Key(folder)].index;
    assert InFolder(log, m, folder);
    assert Covered(log, store.rows, m, store.cursors[Key(folder)].index);
  }

  /** Change i took m out of `folder` for good. */
  ghost predicate DeletedFrom(log: Log<Message>, m: string, i: nat, folder: string) {
    i < |log| && log[i].id == m && log[i].now.None? && !ChangedSince(log, i + 1, m) && InFolder(log[..i], m, folder)
  }

  ghost predicate LinkIs(store: Store, folder: string, link: DeltaLink) {
    Key(folder) in store.cursors && store.cursors[Key(folder)] == link
  }

  /** A deletion within a folder's chain of links is in the store. */
  lemma ChainedDeletionIsGone(log: Log<Message>, store: Store, m: string, i: nat, folder: string, link: DeltaLink)
    requires Sound(log, store) && LinkIs(store, folder, link)
    requires DeletedFrom(log, m, i, folder) && link.floor <= i < link.index
    ensures Local(store.rows, m) == None
  {
    assert FolderSound(log, store.rows, folder, link);
    assert Concerns(log, i, folder);
    assert Covered(log, store.rows, m, i + 1);
    UnchangedStaysTheSame(log, i + 1, m);
    assert Remote(log, m) == None;
  }

  // ---------------------------------------------------------------- the feed as pages deliver it

  datatype Entry = Full(id: string, message: Message) | Removed(id: string)

  function EntryOf(log: Log<Message>, folder: string, m: string): Entry {
    if InFolder(log, m, folder) then Full(m, Remote(log, m).value) else Removed(m)
  }

  /** The changes of [first, last) that a page has to carry. A walk without a link starts from what
      the folder holds now. */
  predicate Carried(log: Log<Message>, folder: string, initial: bool, i: nat) {
    i < |log| && if initial then InFolder(log, log[i].id, folder) else Concerns(log, i, folder)
  }

  function Feed(log: Log<Message>, folder: string, initial: bool, first: nat, last: nat): (entries: seq<Entry>)
    requires first <= last <= |log|
    ensures forall e :: e in entries && e.Full? ==> Remote(log, e.id) == Some(e.message)
    decreases last - first
  {
    if first == last then []
    else (if Carried(log, folder, initial, first) then [EntryOf(log, folder, log[first].id)] else [])
         + Feed(log, folder, initial, first + 1, last)
  }

  function CarriedIn(log: Log<Message>, folder: string, initial: bool, first: nat, last: nat): (indexes: set<nat>)
    requires first <= last <= |log|
    ensures forall i: nat :: i in indexes <==> first <= i < last && Carried(log, folder, initial, i)
    decreases last - first
  {
    if first == last then {}
    else (if Carried(log, folder, initial, first) then {first} else {}) + CarriedIn(log, folder, initial, first + 1, last)
  }

  function IdsOf(entries: seq<Entry>): set<string> {
    set e | e in entries :: e.id
  }

  lemma OneMoreId(entries: seq<Entry>, i: nat)
    requires i < |entries|
    ensures entries[..i + 1] == entries[..i] + [entries[i]]
    ensures IdsOf(entries[..i + 1]) == IdsOf(entries[..i]) + {entries[i].id}
  {
    assert entries[..i + 1] == entries[..i] + [entries[i]];
  }

  lemma {:induction false} FeedCarries(log: Log<Message>, folder: string, initial: bool, first: nat, last: nat, i: nat)
    requires first <= last <= |log| && i in CarriedIn(log, folder, initial, first, last)
    ensures i < |log| && log[i].id in IdsOf(Feed(log, folder, initial, first, last))
    decreases last - first
  {
    var entries := Feed(log, folder, initial, first, last);
    if i == first {
      assert EntryOf(log, folder, log[i].id) in entries;
    } else {
      FeedCarries(log, folder, initial, first + 1, last, i);
      var e :| e in Feed(log, folder, initial, first + 1, last) && e.id == log[i].id;
      assert e in entries;
    }
  }

  /** A whole feed is all that a finished walk owes. */
  lemma WholeFeedDelivers(log: Log<Message>, folder: string, start: Option<DeltaLink>)
    requires start.Some? ==> start.value.index <= |log|
    ensures Delivers(log, folder, start, |log|,
                     CarriedIn(log, folder, start.None?, if start.Some? then start.value.index else 0, |log|))
  {
  }

  function ProviderFlags(message: Message, mailbox: string): Flags {
    Flags(message.isRead, message.isFlagged, if message.isDraft then "drafts" else mailbox)
  }

  /** folder_mailboxes.get(folder_id, "other") */
  function MailboxIn(mailboxes: map<string, string>, folder: string): string {
    if folder in mailboxes then mailboxes[folder] else "other"
  }

  /** The row of m after its entry: the message it carries or a lookup returned, or a tombstone. */
  function Handled(rows: Rows<Message>, m: string, message: Option<Message>, mailboxes: map<string, string>): Rows<Message> {
    if message.None? then Buried(rows, m)
    else Upserted(rows, m, message.value, ProviderFlags(message.value, MailboxIn(mailboxes, message.value.folder)))
  }

  /** One entry, handled while the log stands at `log`: a removal is looked up by its id. */
  function AfterEntry(log: Log<Message>, rows: Rows<Message>, e: Entry, mailboxes: map<string, string>): Rows<Message> {
    Handled(rows, e.id, if e.Full? then Some(e.message) else Remote(log, e.id), mailboxes)
  }

  /** The entries of a page, the k-th handled while the log stands at logs[k]. */
  function AfterEntries(logs: seq<Log<Message>>, rows: Rows<Message>, entries: seq<Entry>,
                        mailboxes: map<string, string>): Rows<Message>
    requires |logs| == |entries|
    decreases |entries|
  {
    if entries == [] then rows
    else
      var n := |entries| - 1;
      AfterEntry(logs[n], AfterEntries(logs[..n], rows, entries[..n], mailboxes), entries[n], mailboxes)
  }

  /** What other requests write does not change what an entry does. */
  lemma SameEntryOnSameMail(log: Log<Message>, rows: Rows<Message>, rows': Rows<Message>, e: Entry,
                            mailboxes: map<string, string>)
    requires SameMail(rows, rows')
    ensures SameMail(AfterEntry(log, rows, e, mailboxes), AfterEntry(log, rows', e, mailboxes))
  {
  }

  /** A page lists m only for a change of m that it carries. */
  lemma {:induction false} FeedOnly(log: Log<Message>, folder: string, initial: bool, first: nat, last: nat, m: string)
    requires first <= last <= |log| && m in IdsOf(Feed(log, folder, initial, first, last))
    ensures exists i :: first <= i < last && Carried(log, folder, initial, i) && log[i].id == m
    decreases last - first
  {
    if Carried(log, folder, initial, first) && log[first].id == m {
      assert first <= first < last;
    } else {
      var e :| e in Feed(log, folder, initial, first, last) && e.id == m;
      assert e in Feed(log, folder, initial, first + 1, last);
      FeedOnly(log, folder, initial, first + 1, last, m);
    }
  }
}
