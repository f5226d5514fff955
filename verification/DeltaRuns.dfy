/** Runs of the Microsoft synchronizer: walks of pages and expired links. The provider may change between
    any two calls, and a walk may end in a failure or with its process. */
module DeltaRuns {
  import opened Wrappers
  import opened MailStore
  import opened MailLog
  import opened DeltaLog
  import AuthState

  /** A page as it arrived when the log stood at `at`: the feed's entries for the changes of
      [first, last). Of these as many were handled as there are positions in `lookups`, each while
      the log stood there. */
  datatype Page = Page(at: nat, first: nat, last: nat, lookups: seq<nat>)

  /** A walk of one folder, first asked for when the log stood at `since`; `to` is the position of the
      new link, None if the walk ended in a failure or with its process. Or the removal of a link the
      provider called expired. */
  datatype Step =
    | Walk(folder: string, since: nat, pages: seq<Page>, to: Option<nat>, mailboxes: map<string, string>)
    | Expire(folder: string)

  function LinkOf(store: Store, folder: string): Option<DeltaLink> {
    if Key(folder) in store.cursors then Some(store.cursors[Key(folder)]) else None
  }

  function Begins(store: Store, folder: string): nat {
    if LinkOf(store, folder).Some? then LinkOf(store, folder).value.index else 0
  }

  // ---------------------------------------------------------------- one page

  /** Positions one after the other, none before `at`. */
  predicate Rising(log: Log<Message>, at: nat, lookups: seq<nat>) {
    && (forall i :: 0 <= i < |lookups| ==> at <= lookups[i] <= |log|)
    && (forall i, j :: 0 <= i < j < |lookups| ==> lookups[i] <= lookups[j])
  }

  function EndOf(at: nat, lookups: seq<nat>): nat {
    if lookups == [] then at else lookups[|lookups| - 1]
  }

  function Logs(log: Log<Message>, lookups: seq<nat>): seq<Log<Message>>
    requires forall i :: 0 <= i < |lookups| ==> lookups[i] <= |log|
  {
    seq(|lookups|, i requires 0 <= i < |lookups| => log[..lookups[i]])
  }

  predicate Arrived(log: Log<Message>, page: Page) {
    page.first <= page.last <= page.at <= |log|
  }

  function FeedOf(log: Log<Message>, folder: string, initial: bool, page: Page): seq<Entry>
    requires Arrived(log, page)
  {
    Feed(log[..page.at], folder, initial, page.first, page.last)
  }

  predicate Handles(log: Log<Message>, folder: string, initial: bool, page: Page) {
    Arrived(log, page) && |page.lookups| <= |FeedOf(log, folder, initial, page)| && Rising(log, page.at, page.lookups)
  }

  function HandledOf(log: Log<Message>, folder: string, initial: bool, page: Page): seq<Entry>
    requires Handles(log, folder, initial, page)
  {
    FeedOf(log, folder, initial, page)[..|page.lookups|]
  }

  function AfterPage(log: Log<Message>, rows: Rows<Message>, folder: string, initial: bool, page: Page,
                     mailboxes: map<string, string>): Rows<Message>
    requires Handles(log, folder, initial, page)
  {
    AfterEntries(Logs(log, page.lookups), rows, HandledOf(log, folder, initial, page), mailboxes)
  }

  lemma EntryPasses(log: Log<Message>, rows: Rows<Message>, log1: Log<Message>, rows1: Rows<Message>, log2: Log<Message>,
                    done: set<string>, e: Entry, mailboxes: map<string, string>)
    requires Pass(log, rows, log1, rows1, done) && log1 <= log2
    requires e.Full? ==> Remote(log, e.id) == Some(e.message)
    ensures Pass(log, rows, log2, AfterEntry(log2, rows1, e, mailboxes), done + {e.id})
  {
    var rows2 := AfterEntry(log2, rows1, e, mailboxes);
    GrowthKeepsCoverage(log1, log2, rows1, rows1);
    PassThroughCall(log, rows, log1, rows1, log2, rows1, done);
    if e.Full? {
      StoringAnEntry(log, rows, log2, rows1, rows2, done, e.id);
    } else {
      RefreshKeepsCoverage(log2, rows1, rows2, e.id);
      PassOneMore(log, rows, log2, rows1, log2, rows2, done, e.id);
    }
  }

  lemma LogsOneMore(log: Log<Message>, rows: Rows<Message>, entries: seq<Entry>, lookups: seq<nat>, e: Entry, t: nat,
                    mailboxes: map<string, string>)
    requires |lookups| == |entries| && t <= |log| && forall i :: 0 <= i < |lookups| ==> lookups[i] <= |log|
    ensures forall i :: 0 <= i < |lookups + [t]| ==> (lookups + [t])[i] <= |log|
    ensures AfterEntries(Logs(log, lookups + [t]), rows, entries + [e], mailboxes)
            == AfterEntry(log[..t], AfterEntries(Logs(log, lookups), rows, entries, mailboxes), e, mailboxes)
    ensures IdsOf(entries + [e]) == IdsOf(entries) + {e.id}
  {
    assert (entries + [e])[..|entries|] == entries;
    assert Logs(log, lookups + [t])[..|lookups|] == Logs(log, lookups);
  }

  /** The entries handled so far have been looked up since the page arrived. */
  ghost predicate Passed(log: Log<Message>, at: nat, rows: Rows<Message>, entries: seq<Entry>, lookups: seq<nat>,
                         mailboxes: map<string, string>) {
    && at <= |log| && |lookups| == |entries| && Rising(log, at, lookups)
    && Pass(log[..at], rows, log[..EndOf(at, lookups)], AfterEntries(Logs(log, lookups), rows, entries, mailboxes),
            IdsOf(entries))
  }

  lemma OneMorePassed(log: Log<Message>, at: nat, rows: Rows<Message>, entries: seq<Entry>, lookups: seq<nat>,
                      e: Entry, t: nat, mailboxes: map<string, string>)
    requires Passed(log, at, rows, entries, lookups, mailboxes) && Rising(log, at, lookups + [t])
    requires e.Full? ==> Remote(log[..at], e.id) == Some(e.message)
    ensures Passed(log, at, rows, entries + [e], lookups + [t], mailboxes)
  {
    assert (lookups + [t])[|lookups|] == t && forall i :: 0 <= i < |lookups| ==> (lookups + [t])[i] == lookups[i];
    LogsOneMore(log, rows, entries, lookups, e, t, mailboxes);
    EntryPasses(log[..at], rows, log[..EndOf(at, lookups)], AfterEntries(Logs(log, lookups), rows, entries, mailboxes),
                log[..t], IdsOf(entries), e, mailboxes);
  }

  lemma {:induction false} EntriesPass(log: Log<Message>, at: nat, rows: Rows<Message>, entries: seq<Entry>,
                                       lookups: seq<nat>, mailboxes: map<string, string>)
    requires at <= |log| && |lookups| == |entries| && Rising(log, at, lookups)
    requires forall e :: e in entries && e.Full? ==> Remote(log[..at], e.id) == Some(e.message)
    ensures Passed(log, at, rows, entries, lookups, mailboxes)
    decreases |entries|
  {
    if entries == [] {
      EmptyPass(log[..at], rows);
    } else {
      var n := |entries| - 1;
      EntriesPass(log, at, rows, entries[..n], lookups[..n], mailboxes);
      assert entries == entries[..n] + [entries[n]] && lookups == lookups[..n] + [lookups[n]];
      OneMorePassed(log, at, rows, entries[..n], lookups[..n], entries[n], lookups[n], mailboxes);
    }
  }

  // ---------------------------------------------------------------- one walk

  predicate AllHandled(log: Log<Message>, folder: string, initial: bool, pages: seq<Page>) {
    forall k :: 0 <= k < |pages| ==> Handles(log, folder, initial, pages[k])
  }

  function PagesEnd(since: nat, pages: seq<Page>): nat {
    if pages == [] then since else EndOf(pages[|pages| - 1].at, pages[|pages| - 1].lookups)
  }

  /** Each page arrives after everything the one before it led to. */
  predicate InOrder(since: nat, pages: seq<Page>) {
    pages == [] || (InOrder(since, pages[..|pages| - 1]) && PagesEnd(since, pages[..|pages| - 1]) <= pages[|pages| - 1].at)
  }

  function AfterPages(log: Log<Message>, rows: Rows<Message>, folder: string, initial: bool, pages: seq<Page>,
                      mailboxes: map<string, string>): Rows<Message>
    requires AllHandled(log, folder, initial, pages)
  {
    if pages == [] then rows
    else AfterPage(log, AfterPages(log, rows, folder, initial, pages[..|pages| - 1], mailboxes),
                   folder, initial, pages[|pages| - 1], mailboxes)
  }

  /** The changes the pages carry. */
  function CarriedBy(log: Log<Message>, folder: string, initial: bool, pages: seq<Page>): set<nat>
    requires AllHandled(log, folder, initial, pages)
  {
    if pages == [] then {}
    else
      var page := pages[|pages| - 1];
      CarriedBy(log, folder, initial, pages[..|pages| - 1])
      + CarriedIn(log[..page.at], folder, initial, page.first, page.last)
  }

  predicate Whole(log: Log<Message>, folder: string, initial: bool, page: Page)
    requires Handles(log, folder, initial, page)
  {
    |page.lookups| == |FeedOf(log, folder, initial, page)|
  }

  predicate AllWhole(log: Log<Message>, folder: string, initial: bool, pages: seq<Page>)
    requires AllHandled(log, folder, initial, pages)
  {
    forall k :: 0 <= k < |pages| ==> Whole(log, folder, initial, pages[k])
  }

  /** Every page was handled to its end, together they deliver what the walk owes, and the new link is
      no older than the walk. */
  ghost predicate Finishes(log: Log<Message>, folder: string, start: Option<DeltaLink>, since: nat, pages: seq<Page>, to: nat)
    requires AllHandled(log, folder, start.None?, pages)
  {
    && pages != [] && since <= to <= pages[|pages| - 1].at && AllWhole(log, folder, start.None?, pages)
    && Delivers(log[..pages[|pages| - 1].at], folder, start, to, CarriedBy(log, folder, start.None?, pages))
  }

  /** The walks that the provider's promises allow from a stored state on. */
  ghost predicate Served(log: Log<Message>, store: Store, step: Step)
    requires step.Walk?
  {
    var start := LinkOf(store, step.folder);
    && step.since <= |log| && InOrder(step.since, step.pages) && AllHandled(log, step.folder, start.None?, step.pages)
    && (forall k :: 0 <= k < |step.pages| ==> Begins(store, step.folder) <= step.pages[k].first)
    && (step.to.Some? ==> Finishes(log, step.folder, start, step.since, step.pages, step.to.value))
  }

  function AfterWalk(log: Log<Message>, store: Store, step: Step): Store
    requires step.Walk? && AllHandled(log, step.folder, LinkOf(store, step.folder).None?, step.pages)
  {
    var start := LinkOf(store, step.folder);
    store.(rows := AfterPages(log, store.rows, step.folder, start.None?, step.pages, step.mailboxes),
           cursors := if step.to.Some? then store.cursors[Key(step.folder) := NextLink(start, step.to.value)]
                      else store.cursors)
  }

  // ---------------------------------------------------------------- runs

  function AfterStep(log: Log<Message>, store: Store, step: Step): Store {
    match step
    case Expire(folder) => store.(cursors := store.cursors - {Key(folder)})
    case Walk(folder, _, pages, _, _) =>
      if AllHandled(log, folder, LinkOf(store, folder).None?, pages) then AfterWalk(log, store, step) else store
  }

  function After(log: Log<Message>, steps: seq<Step>): Store {
    if steps == [] then Half(map[], map[], AuthState.Null, {})
    else AfterStep(log, After(log, steps[..|steps| - 1]), steps[|steps| - 1])
  }

  /** Where the last walk left the log. */
  function Until(steps: seq<Step>): nat {
    if steps == [] then 0
    else if steps[|steps| - 1].Walk? then PagesEnd(steps[|steps| - 1].since, steps[|steps| - 1].pages)
    else Until(steps[..|steps| - 1])
  }

  /** Each walk is one the provider's promises allow, and begins after the one before it. */
  ghost predicate Timely(log: Log<Message>, steps: seq<Step>) {
    steps == [] || (
      && Timely(log, steps[..|steps| - 1])
      && (steps[|steps| - 1].Walk? ==>
            && Until(steps[..|steps| - 1]) <= steps[|steps| - 1].since
            && Served(log, After(log, steps[..|steps| - 1]), steps[|steps| - 1])))
  }

  predicate NoExpiry(steps: seq<Step>) {
    forall k :: 0 <= k < |steps| ==> steps[k].Walk?
  }

  /** Where the log stood when the folder was first asked for. */
  function Began(steps: seq<Step>, folder: string): Option<nat> {
    if steps == [] then None
    else
      var before, last := Began(steps[..|steps| - 1], folder), steps[|steps| - 1];
      if before.Some? then before else if last.Walk? && last.folder == folder then Some(last.since) else None
  }

  lemma OneMoreStep(log: Log<Message>, steps: seq<Step>, step: Step)
    ensures After(log, steps + [step]) == AfterStep(log, After(log, steps), step)
    ensures Timely(log, steps + [step]) <==>
            Timely(log, steps) && (step.Walk? ==> Until(steps) <= step.since && Served(log, After(log, steps), step))
    ensures Until(steps + [step]) == if step.Walk? then PagesEnd(step.since, step.pages) else Until(steps)
    ensures forall folder ::
              Began(steps + [step], folder)
              == if Began(steps, folder).Some? then Began(steps, folder)
                 else if step.Walk? && step.folder == folder then Some(step.since) else None
  {
    assert (steps + [step])[..|steps|] == steps;
  }

  // ---------------------------------------------------------------- every run keeps the promises of the links

  lemma PagePasses(log: Log<Message>, rows: Rows<Message>, folder: string, initial: bool, page: Page,
                   mailboxes: map<string, string>)
    requires Handles(log, folder, initial, page)
    ensures Pass(log[..page.at], rows, log[..EndOf(page.at, page.lookups)],
                 AfterPage(log, rows, folder, initial, page, mailboxes), IdsOf(HandledOf(log, folder, initial, page)))
  {
    var entries := HandledOf(log, folder, initial, page);
    assert forall e :: e in entries ==> e in FeedOf(log, folder, initial, page);
    EntriesPass(log, page.at, rows, entries, page.lookups, mailboxes);
  }

  /** What a page carries is walked once all its entries have been handled. */
  lemma WholePageIsWalked(log: Log<Message>, rows: Rows<Message>, folder: string, initial: bool, page: Page,
                          mailboxes: map<string, string>, walked: set<nat>)
    requires Handles(log, folder, initial, page) && Whole(log, folder, initial, page)
    requires Walked(log[..page.at], rows, walked)
    ensures Walked(log[..EndOf(page.at, page.lookups)], AfterPage(log, rows, folder, initial, page, mailboxes),
                   walked + CarriedIn(log[..page.at], folder, initial, page.first, page.last))
  {
    var now, entries := log[..page.at], FeedOf(log, folder, initial, page);
    assert HandledOf(log, folder, initial, page) == entries;
    var indexes := CarriedIn(now, folder, initial, page.first, page.last);
    PagePasses(log, rows, folder, initial, page, mailboxes);
    forall i | i in indexes
      ensures now[i].id in IdsOf(entries)
    {
      FeedCarries(now, folder, initial, page.first, page.last, i);
    }
    PageIsWalked(now, rows, log[..EndOf(page.at, page.lookups)], AfterPage(log, rows, folder, initial, page, mailboxes),
                 IdsOf(entries), walked, indexes);
  }

  lemma {:induction false} PagesKeep(log: Log<Message>, rows: Rows<Message>, folder: string, initial: bool, since: nat,
                                     pages: seq<Page>, mailboxes: map<string, string>)
    requires since <= |log| && InOrder(since, pages) && AllHandled(log, folder, initial, pages)
    ensures since <= PagesEnd(since, pages) <= |log|
    ensures Kept(log[..since], rows, log[..PagesEnd(since, pages)], AfterPages(log, rows, folder, initial, pages, mailboxes))
    decreases |pages|
  {
    if pages != [] {
      var front, page := pages[..|pages| - 1], pages[|pages| - 1];
      PagesKeep(log, rows, folder, initial, since, front, mailboxes);
      var between := AfterPages(log, rows, folder, initial, front, mailboxes);
      GrowthKeepsCoverage(log[..PagesEnd(since, front)], log[..page.at], between, between);
      KeptIsTransitive(log[..since], rows, log[..PagesEnd(since, front)], between, log[..page.at], between);
      PagePasses(log, between, folder, initial, page, mailboxes);
      KeptIsTransitive(log[..since], rows, log[..page.at], between, log[..PagesEnd(since, pages)],
                       AfterPages(log, rows, folder, initial, pages, mailboxes));
    }
  }

  lemma {:induction false} PagesAreWalked(log: Log<Message>, rows: Rows<Message>, folder: string, initial: bool, since: nat,
                                          pages: seq<Page>, mailboxes: map<string, string>)
    requires since <= |log| && InOrder(since, pages) && AllHandled(log, folder, initial, pages)
    requires AllWhole(log, folder, initial, pages)
    ensures since <= PagesEnd(since, pages) <= |log|
    ensures Walked(log[..PagesEnd(since, pages)], AfterPages(log, rows, folder, initial, pages, mailboxes),
                   CarriedBy(log, folder, initial, pages))
    decreases |pages|
  {
    if pages != [] {
      var front, page := pages[..|pages| - 1], pages[|pages| - 1];
      PagesAreWalked(log, rows, folder, initial, since, front, mailboxes);
      var between, carried := AfterPages(log, rows, folder, initial, front, mailboxes), CarriedBy(log, folder, initial, front);
      GrowthKeepsCoverage(log[..PagesEnd(since, front)], log[..page.at], between, between);
      WalkedThroughCall(log[..PagesEnd(since, front)], between, log[..page.at], between, carried);
      WholePageIsWalked(log, between, folder, initial, page, mailboxes, carried);
    }
  }

  lemma StandsLater(log: Log<Message>, log': Log<Message>, store: Store)
    requires Sound(log, store) && log <= log'
    ensures Sound(log', store)
  {
    GrowthKeepsCoverage(log, log', store.rows, store.rows);
    StaysSound(log, store, log', store);
  }

  lemma WalkIsSound(log: Log<Message>, store: Store, step: Step)
    requires step.Walk? && Served(log, store, step) && Sound(log[..step.since], store)
    ensures step.since <= PagesEnd(step.since, step.pages) <= |log|
    ensures Sound(log[..PagesEnd(step.since, step.pages)], AfterWalk(log, store, step))
  {
    var folder, start, pages := step.folder, LinkOf(store, step.folder), step.pages;
    var rows := AfterWalk(log, store, step).rows;
    PagesKeep(log, store.rows, folder, start.None?, step.since, pages, step.mailboxes);
    var end := log[..PagesEnd(step.since, pages)];
    StaysSound(log[..step.since], store, end, store.(rows := rows));
    if step.to.Some? {
      var carried := CarriedBy(log, folder, start.None?, pages);
      PagesAreWalked(log, store.rows, folder, start.None?, step.since, pages, step.mailboxes);
      DeliversLater(log[..pages[|pages| - 1].at], end, folder, start, step.to.value, carried);
      assert start.Some? ==> FolderSound(log[..step.since], store.rows, folder, start.value);
      assert start.Some? ==> FolderSound(end, rows, folder, start.value);
      WalkedFolderIsSound(end, rows, folder, start, step.to.value, carried);
      NewLinkKeepsSoundness(end, store.(rows := rows), folder, NextLink(start, step.to.value));
    }
  }

  /** Every run keeps the promises of every link, whatever happens between its calls. */
  lemma {:induction false} RunIsSound(log: Log<Message>, steps: seq<Step>)
    requires Timely(log, steps)
    ensures Until(steps) <= |log| && Sound(log[..Until(steps)], After(log, steps))
    decreases |steps|
  {
    if steps != [] {
      var before, step := steps[..|steps| - 1], steps[|steps| - 1];
      RunIsSound(log, before);
      match step
      case Walk(_, since, _, _, _) =>
        StandsLater(log[..Until(before)], log[..since], After(log, before));
        WalkIsSound(log, After(log, before), step);
      case Expire(folder) =>
    }
  }

  lemma BeginsInTime(log: Log<Message>, steps: seq<Step>, folder: string)
    requires Timely(log, steps)
    ensures Begins(After(log, steps), folder) <= Until(steps) <= |log|
  {
    RunIsSound(log, steps);
    if Key(folder) in After(log, steps).cursors {
      assert FolderSound(log[..Until(steps)], After(log, steps).rows, folder, After(log, steps).cursors[Key(folder)]);
    }
  }

  // ---------------------------------------------------------------- messages that are never stored

  predicate SeenIn(log: Log<Message>, m: string, i: nat, t: nat, g: string) {
    t <= i && t <= |log| && InFolder(log[..t], m, g)
  }

  /** Before change i, m was also seen in a folder other than `folder`. */
  ghost predicate Elsewhere(log: Log<Message>, m: string, i: nat, folder: string) {
    exists t: nat, g :: SeenIn(log, m, i, t, g) && g != folder
  }

  lemma StaysDeleted(log: Log<Message>, m: string, i: nat, folder: string, t: nat)
    requires DeletedFrom(log, m, i, folder) && i < t <= |log|
    ensures Remote(log[..t], m) == None
  {
    assert !ChangedSince(log[..t], i + 1, m) by {
      assert forall j :: i + 1 <= j < t ==> log[..t][j] == log[j];
    }
    UnchangedStaysTheSame(log[..t], i + 1, m);
    assert log[..t][..i + 1] == log[..i + 1];
  }

  lemma EntryStaysGone(log: Log<Message>, rows: Rows<Message>, e: Entry, mailboxes: map<string, string>, m: string)
    requires Local(rows, m) == None && (e.id == m ==> !e.Full? && Remote(log, m) == None)
    ensures Local(AfterEntry(log, rows, e, mailboxes), m) == None
  {
  }

  lemma {:induction false} EntriesStayGone(log: Log<Message>, at: nat, rows: Rows<Message>, entries: seq<Entry>,
                                           lookups: seq<nat>, mailboxes: map<string, string>, m: string)
    requires at <= |log| && |lookups| == |entries| && Rising(log, at, lookups) && Local(rows, m) == None
    requires forall e :: e in entries && e.Full? ==> Remote(log[..at], e.id) == Some(e.message)
    requires m in IdsOf(entries) ==> forall t :: at <= t <= |log| ==> Remote(log[..t], m) == None
    ensures Local(AfterEntries(Logs(log, lookups), rows, entries, mailboxes), m) == None
    decreases |entries|
  {
    if entries != [] {
      var front, e, before, t := entries[..|entries| - 1], entries[|entries| - 1],
                                 lookups[..|entries| - 1], lookups[|entries| - 1];
      assert entries == front + [e] && lookups == before + [t];
      assert m in IdsOf(front) ==> m in IdsOf(entries);
      EntriesStayGone(log, at, rows, front, before, mailboxes, m);
      LogsOneMore(log, rows, front, before, e, t, mailboxes);
      assert e in entries && at <= t <= |log|;
      EntryStaysGone(log[..t], AfterEntries(Logs(log, before), rows, front, mailboxes), e, mailboxes, m);
    }
  }

  /** Only a page that arrives before the deletion, from a folder m was in, could store m. */
  lemma PageStaysGone(log: Log<Message>, m: string, i: nat, folder: string, rows: Rows<Message>, g: string, initial: bool,
                      page: Page, mailboxes: map<string, string>)
    requires DeletedFrom(log, m, i, folder) && !Elsewhere(log, m, i, folder) && Handles(log, g, initial, page)
    requires (g == folder ==> i < page.at) && Local(rows, m) == None
    ensures Local(AfterPage(log, rows, g, initial, page, mailboxes), m) == None
  {
    var entries, feed := HandledOf(log, g, initial, page), FeedOf(log, g, initial, page);
    assert forall e :: e in entries ==> e in feed;
    if m in IdsOf(entries) {
      if page.at <= i {
        assert m in IdsOf(feed);
        ListedElsewhere(log, m, i, folder, page.at, g, initial, page.first, page.last);
      }
      forall t | page.at <= t <= |log|
        ensures Remote(log[..t], m) == None
      {
        StaysDeleted(log, m, i, folder, t);
      }
    }
    EntriesStayGone(log, page.at, rows, entries, page.lookups, mailboxes, m);
  }

  lemma ListedElsewhere(log: Log<Message>, m: string, i: nat, folder: string, at: nat, g: string, initial: bool,
                        first: nat, last: nat)
    requires first <= last <= at <= i && at <= |log| && g != folder && m in IdsOf(Feed(log[..at], g, initial, first, last))
    ensures Elsewhere(log, m, i, folder)
  {
    var now := log[..at];
    FeedOnly(now, g, initial, first, last, m);
    var k: nat :| first <= k < last && Carried(now, g, initial, k) && now[k].id == m;
    if initial {
      assert SeenIn(log, m, i, at, g);
    } else {
      assert Carried(now, g, false, k);
      assert Concerns(now, k, g);
      ConcernsIsStable(now, log, k, g);
      assert SeenIn(log, m, i, k, g) || SeenIn(log, m, i, k + 1, g);
    }
  }

  lemma {:induction false} PagesStayGone(log: Log<Message>, m: string, i: nat, folder: string, rows: Rows<Message>, g: string,
                                         initial: bool, since: nat, pages: seq<Page>, mailboxes: map<string, string>)
    requires DeletedFrom(log, m, i, folder) && !Elsewhere(log, m, i, folder)
    requires since <= |log| && InOrder(since, pages) && AllHandled(log, g, initial, pages)
    requires (g == folder ==> i < since) && Local(rows, m) == None
    ensures since <= PagesEnd(since, pages) && Local(AfterPages(log, rows, g, initial, pages, mailboxes), m) == None
    decreases |pages|
  {
    if pages != [] {
      var front, page := pages[..|pages| - 1], pages[|pages| - 1];
      PagesStayGone(log, m, i, folder, rows, g, initial, since, front, mailboxes);
      PageStaysGone(log, m, i, folder, AfterPages(log, rows, g, initial, front, mailboxes), g, initial, page, mailboxes);
    }
  }

  lemma {:induction false} BeganBefore(log: Log<Message>, steps: seq<Step>, folder: string)
    requires Timely(log, steps) && Began(steps, folder).Some?
    ensures Began(steps, folder).value <= Until(steps)
  {
    if steps != [] {
      var before, step := steps[..|steps| - 1], steps[|steps| - 1];
      if Began(before, folder).Some? {
        BeganBefore(log, before, folder);
      }
      if step.Walk? {
        PagesKeep(log, After(log, before).rows, step.folder, LinkOf(After(log, before), step.folder).None?, step.since,
                  step.pages, step.mailboxes);
      }
    }
  }

  /** A message seen in no other folder is not stored if its folder was first asked for behind its
      deletion, whether links expire or not. */
  lemma {:induction false} NeverStored(log: Log<Message>, m: string, i: nat, folder: string, steps: seq<Step>)
    requires DeletedFrom(log, m, i, folder) && !Elsewhere(log, m, i, folder) && Timely(log, steps)
    requires Began(steps, folder).Some? ==> i < Began(steps, folder).value
    ensures Local(After(log, steps).rows, m) == None
    decreases |steps|
  {
    if steps != [] {
      var before, step := steps[..|steps| - 1], steps[|steps| - 1];
      NeverStored(log, m, i, folder, before);
      if step.Walk? {
        if Began(before, folder).Some? {
          BeganBefore(log, before, folder);
        }
        PagesStayGone(log, m, i, folder, After(log, before).rows, step.folder,
                      LinkOf(After(log, before), step.folder).None?, step.since, step.pages, step.mailboxes);
      }
    }
  }

  /** A chain of links begins no earlier than the folder was first asked for. */
  lemma {:induction false} FloorIsLater(log: Log<Message>, steps: seq<Step>, folder: string)
    requires Timely(log, steps) && LinkOf(After(log, steps), folder).Some?
    ensures Began(steps, folder).Some? && Began(steps, folder).value <= LinkOf(After(log, steps), folder).value.floor
    decreases |steps|
  {
    var before, step := steps[..|steps| - 1], steps[|steps| - 1];
    if LinkOf(After(log, before), folder).Some? {
      FloorIsLater(log, before, folder);
    }
    if Key(step.folder) == Key(folder) {
      KeysDiffer(step.folder, folder);
    }
    if Began(before, folder).Some? {
      BeganBefore(log, before, folder);
    }
  }

  /** Step k is the folder's first walk to reach its end. */
  predicate FirstWalk(steps: seq<Step>, folder: string, k: nat) {
    && k < |steps| && steps[k].Walk? && steps[k].folder == folder && steps[k].to.Some?
    && forall j :: 0 <= j < k && steps[j].Walk? && steps[j].folder == folder ==> steps[j].to == None
  }

  /** The link's floor is where the folder's first finished walk ended. */
  ghost predicate BegunAtFirstWalk(steps: seq<Step>, folder: string, link: Option<DeltaLink>) {
    match link
    case None => forall k :: 0 <= k < |steps| && steps[k].Walk? && steps[k].folder == folder ==> steps[k].to == None
    case Some(d) => exists k: nat :: FirstWalk(steps, folder, k) && steps[k].to == Some(d.floor)
  }

  /** Without expiry, a folder's chain of links begins with its first finished walk. */
  lemma {:induction false} FloorIsFirstWalk(log: Log<Message>, steps: seq<Step>, folder: string)
    requires Timely(log, steps) && NoExpiry(steps)
    ensures BegunAtFirstWalk(steps, folder, LinkOf(After(log, steps), folder))
    decreases |steps|
  {
    if steps != [] {
      var n := |steps| - 1;
      FloorIsFirstWalk(log, steps[..n], folder);
      if Key(steps[n].folder) == Key(folder) {
        KeysDiffer(steps[n].folder, folder);
      }
      FirstWalkStays(steps, folder, LinkOf(After(log, steps[..n]), folder));
    }
  }

  lemma FirstWalkStays(steps: seq<Step>, folder: string, link: Option<DeltaLink>)
    requires steps != [] && steps[|steps| - 1].Walk? && BegunAtFirstWalk(steps[..|steps| - 1], folder, link)
    ensures var last := steps[|steps| - 1];
            BegunAtFirstWalk(steps, folder,
                             if last.folder == folder && last.to.Some? then Some(NextLink(link, last.to.value)) else link)
  {
    var n := |steps| - 1;
    if link.Some? {
      var k: nat :| FirstWalk(steps[..n], folder, k) && steps[..n][k].to == Some(link.value.floor);
      assert FirstWalk(steps, folder, k);
    } else if steps[n].folder == folder && steps[n].to.Some? {
      assert FirstWalk(steps, folder, n);
    }
  }
}
