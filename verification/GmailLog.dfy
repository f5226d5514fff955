/** What the Gmail cursors promise about the local store. A history id is a position of the log. */
module GmailLog {
  import opened Wrappers
  import opened AuthState
  import opened MailStore
  import opened MailLog

  /** A message as get_message returns it in full format. */
  datatype Message = Message(labels: set<string>, content: string)

  /** The four history record kinds the synchronizer reads. */
  datatype EventKind = MessagesAdded | MessagesDeleted | LabelsAdded | LabelsRemoved

  /** The text of the "gmail:initial" cursor, as far as reading it back can tell: not a JSON
      object, or an object whose two entries are well typed and non-empty (Some) or not (None). */
  datatype Marker = Unreadable | Stored(historyId: Option<nat>, refreshExisting: Option<bool>)

  function InitialState(pending: Option<Marker>): Option<(nat, bool)> {
    match pending
    case Some(Stored(Some(h), Some(refresh))) => Some((h, refresh))
    case _ => None
  }

  const INITIAL := "gmail:initial"

  type Store = Half<Message, Marker>

  function MarkerOf(store: Store): Option<Marker> {
    if INITIAL in store.cursors then Some(store.cursors[INITIAL]) else None
  }

  /** What each version of the database promises: a history cursor covers the whole store, and
      an import marker that permits skipping covers every active row. */
  ghost predicate Sound(log: Log<Message>, store: Store) {
    && (store.history == Null || (store.history.Position? && AllCovered(log, store.rows, store.history.index)))
    && (match InitialState(MarkerOf(store))
        case None => true
        case Some((h, refresh)) => h <= |log| && (!refresh ==> ActiveCovered(log, store.rows, h)))
  }

  lemma GrowthKeepsSoundness(log: Log<Message>, log': Log<Message>, store: Store, store': Store)
    requires Sound(log, store) && log <= log' && SameHalf(store, store')
    ensures Sound(log', store')
  {
    GrowthKeepsCoverage(log, log', store.rows, store'.rows);
  }

  lemma RefreshKeepsSoundness(log: Log<Message>, store: Store, store': Store, m: string)
    requires Sound(log, store)
    requires store'.cursors == store.cursors && store'.history == store.history
    requires Local(store'.rows, m) == Remote(log, m)
    requires forall x :: x != m ==> Local(store'.rows, x) == Local(store.rows, x)
    ensures Sound(log, store')
  {
    RefreshKeepsCoverage(log, store.rows, store'.rows, m);
    forall x | x in Active(store'.rows) && x != m
      ensures x in Active(store.rows)
    {
      assert Local(store'.rows, x) == Local(store.rows, x);
    }
  }

  lemma SoundnessSpelledOut(log: Log<Message>, store: Store)
    requires Sound(log, store)
    ensures forall c: nat, m :: store.history == Position(c) && !ChangedSince(log, c, m) ==>
      Local(store.rows, m) == Remote(log, m)
    ensures forall h: nat, m ::
      MarkerOf(store) == Some(Stored(Some(h), Some(false))) && m in Active(store.rows) && !ChangedSince(log, h, m) ==>
        Local(store.rows, m) == Remote(log, m)
  {
    forall c: nat, m | store.history == Position(c) && !ChangedSince(log, c, m)
      ensures Local(store.rows, m) == Remote(log, m)
    {
      assert Covered(log, store.rows, m, c);
    }
  }

  lemma NewCursorIsSound(log: Log<Message>, store: Store, next: nat)
    requires Sound(log, store) && AllCovered(log, store.rows, next)
    ensures Sound(log, store.(history := Position(next)))
  {
  }

  /** A new baseline, taken when the provider's log had length h, may permit skipping only if
      nothing is active yet. */
  lemma NewMarkerIsSound(log: Log<Message>, store: Store, refresh: bool)
    requires Sound(log, store)
    requires refresh || Active(store.rows) == {}
    ensures Sound(log, store.(cursors := store.cursors[INITIAL := Stored(Some(|log|), Some(refresh))]))
  {
  }

  /** What a complete listing that began at `start` owes, stated for any later moment. */
  ghost predicate ListsAll(log: Log<Message>, start: nat, listed: set<string>) {
    forall m :: Remote(log, m).Some? && !ChangedSince(log, start, m) ==> m in listed
  }

  lemma ListingStaysComplete(log: Log<Message>, log': Log<Message>, start: nat, listed: set<string>)
    requires start <= |log| && log <= log' && ListsAll(log, start, listed)
    ensures ListsAll(log', start, listed)
  {
    forall m | Remote(log', m).Some? && !ChangedSince(log', start, m)
      ensures m in listed
    {
      assert forall i :: 0 <= i < |log| ==> log'[i] == log[i];
      assert !ChangedSince(log, start, m);
      assert !ChangedSince(log', |log|, m);
      UnchangedStaysTheSame(log', |log|, m);
      assert log'[..|log|] == log;
    }
  }

  /** Why a complete import may start the replay at its baseline h. `rows` is the store when the
      active ids were read; rows' is reached by looking up what was listed (or, when skipping is
      allowed, what was listed and not yet active) and everything active that was not listed. */
  lemma ImportCoversBaseline(log: Log<Message>, rows: Rows<Message>, log': Log<Message>, rows': Rows<Message>, h: nat, start: nat,
                             existing: set<string>, listed: set<string>, looked: set<string>)
    requires h <= |log| <= start <= |log'|
    requires existing == Active(rows)
    requires Pass(log, rows, log', rows', looked) && ListsAll(log', start, listed)
    requires listed - existing <= looked && existing - listed <= looked
    requires forall m :: m in existing && m !in looked ==> Covered(log, rows, m, h)
    ensures AllCovered(log', rows', h)
  {
    forall m
      ensures Covered(log', rows', m, h)
    {
      if m !in looked && m !in existing {
        assert Local(rows', m) == Local(rows, m) == None;
        if !ChangedSince(log', h, m) {
          assert !ChangedSince(log', start, m);
        }
      }
    }
  }

  /** The record kind the history reports for the change at position i. */
  function KindOf(log: Log<Message>, i: nat): EventKind
    requires i < |log|
  {
    var before := Remote(log[..i], log[i].id);
    if log[i].now.None? then MessagesDeleted
    else if before.None? then MessagesAdded
    else if log[i].now.value.labels <= before.value.labels then LabelsRemoved
    else LabelsAdded
  }
}
