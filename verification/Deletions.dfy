/** Which deletions the runs of the Microsoft synchronizer are certain to notice, with and without expired
    links, and for every other deletion a run that misses it. */
module Deletions {
  import opened Wrappers
  import opened MailStore
  import opened MailLog
  import opened DeltaLog
  import opened DeltaRuns

  // ---------------------------------------------------------------- walks during which the provider stands still

  /** A page whose lookups all find the log as the page did. */
  function StillPage(log: Log<Message>, folder: string, initial: bool, at: nat, first: nat, last: nat): Page
    requires first <= last <= at <= |log|
  {
    Page(at, first, last, seq(|Feed(log[..at], folder, initial, first, last)|, _ => at))
  }

  function Still(now: Log<Message>, n: nat): seq<Log<Message>> {
    seq(n, k => now)
  }

  lemma EntryMail(now: Log<Message>, rows: Rows<Message>, e: Entry, mailboxes: map<string, string>, m: string)
    requires e.Full? ==> Remote(now, e.id) == Some(e.message)
    ensures Local(AfterEntry(now, rows, e, mailboxes), m) == if m == e.id then Remote(now, m) else Local(rows, m)
  {
  }

  lemma {:induction false} EntriesMail(now: Log<Message>, rows: Rows<Message>, entries: seq<Entry>,
                                       mailboxes: map<string, string>, m: string)
    requires forall e :: e in entries && e.Full? ==> Remote(now, e.id) == Some(e.message)
    ensures Local(AfterEntries(Still(now, |entries|), rows, entries, mailboxes), m)
            == if m in IdsOf(entries) then Remote(now, m) else Local(rows, m)
    decreases |entries|
  {
    if entries != [] {
      var n := |entries| - 1;
      EntriesMail(now, rows, entries[..n], mailboxes, m);
      OneMoreId(entries, n);
      assert entries[..n + 1] == entries && Still(now, n + 1)[..n] == Still(now, n);
      EntryMail(now, AfterEntries(Still(now, n), rows, entries[..n], mailboxes), entries[n], mailboxes, m);
    }
  }

  /** The feed has an entry for m. */
  ghost predicate Listed(now: Log<Message>, folder: string, initial: bool, first: nat, last: nat, m: string) {
    exists k: nat :: first <= k < last && k < |now| && now[k].id == m && Carried(now, folder, initial, k)
  }

  lemma ListedExactly(now: Log<Message>, folder: string, initial: bool, first: nat, last: nat, m: string)
    requires first <= last <= |now|
    ensures m in IdsOf(Feed(now, folder, initial, first, last)) <==> Listed(now, folder, initial, first, last, m)
  {
    if m in IdsOf(Feed(now, folder, initial, first, last)) {
      FeedOnly(now, folder, initial, first, last, m);
    }
    if Listed(now, folder, initial, first, last, m) {
      var k: nat :| first <= k < last && now[k].id == m && Carried(now, folder, initial, k);
      assert k in CarriedIn(now, folder, initial, first, last);
      FeedCarries(now, folder, initial, first, last, k);
    }
  }

  lemma StillPageShape(log: Log<Message>, folder: string, initial: bool, at: nat, first: nat, last: nat)
    requires first <= last <= at <= |log|
    ensures var page := StillPage(log, folder, initial, at, first, last);
            var entries := Feed(log[..at], folder, initial, first, last);
            && Handles(log, folder, initial, page) && Whole(log, folder, initial, page) && EndOf(at, page.lookups) == at
            && HandledOf(log, folder, initial, page) == entries && Logs(log, page.lookups) == Still(log[..at], |entries|)
  {
  }

  /** A still page makes every listed message what the provider has, and leaves every other one. */
  lemma StillPageMail(log: Log<Message>, rows: Rows<Message>, folder: string, initial: bool, at: nat, first: nat, last: nat,
                      m: string)
    requires first <= last <= at <= |log|
    ensures var page := StillPage(log, folder, initial, at, first, last);
            && Handles(log, folder, initial, page) && Whole(log, folder, initial, page) && EndOf(at, page.lookups) == at
            && Local(AfterPage(log, rows, folder, initial, page, map[]), m)
               == if Listed(log[..at], folder, initial, first, last, m) then Remote(log[..at], m) else Local(rows, m)
  {
    StillPageShape(log, folder, initial, at, first, last);
    EntriesMail(log[..at], rows, Feed(log[..at], folder, initial, first, last), map[], m);
    ListedExactly(log[..at], folder, initial, first, last, m);
  }

  function StillWalk(log: Log<Message>, store: Store, folder: string, since: nat, at: nat): Step
    requires Begins(store, folder) <= since <= at <= |log|
  {
    var page := StillPage(log, folder, LinkOf(store, folder).None?, at, Begins(store, folder), at);
    Walk(folder, since, [page], Some(at), map[])
  }

  /** What the last step adds to a run. */
  ghost predicate Adds(log: Log<Message>, steps: seq<Step>, step: Step, at: nat, link: DeltaLink)
    requires step.Walk?
  {
    var more := steps + [step];
    && Timely(log, more) && Until(more) == at && (NoExpiry(steps) ==> NoExpiry(more))
    && LinkOf(After(log, more), step.folder) == Some(link)
    && (forall g :: g != step.folder ==>
          LinkOf(After(log, more), g) == LinkOf(After(log, steps), g) && Began(more, g) == Began(steps, g))
    && Began(more, step.folder) == (if Began(steps, step.folder).Some? then Began(steps, step.folder) else Some(step.since))
  }

  lemma WalkAdds(log: Log<Message>, steps: seq<Step>, step: Step, at: nat)
    requires Timely(log, steps) && step.Walk? && Until(steps) <= step.since && Served(log, After(log, steps), step)
    requires step.to == Some(at) && PagesEnd(step.since, step.pages) == at
    ensures Adds(log, steps, step, at, NextLink(LinkOf(After(log, steps), step.folder), at))
    ensures After(log, steps + [step]).rows == AfterWalk(log, After(log, steps), step).rows
  {
    OneMoreStep(log, steps, step);
    forall g | Key(g) == Key(step.folder)
      ensures g == step.folder
    {
      KeysDiffer(g, step.folder);
    }
  }

  lemma StillWalkAdds(log: Log<Message>, steps: seq<Step>, folder: string, since: nat, at: nat, m: string)
    requires Timely(log, steps) && Until(steps) <= since <= at <= |log|
    ensures var store := After(log, steps);
            && Begins(store, folder) <= since
            && Adds(log, steps, StillWalk(log, store, folder, since, at), at, NextLink(LinkOf(store, folder), at))
            && Local(After(log, steps + [StillWalk(log, store, folder, since, at)]).rows, m)
               == if Listed(log[..at], folder, LinkOf(store, folder).None?, Begins(store, folder), at, m)
                  then Remote(log[..at], m) else Local(store.rows, m)
  {
    BeginsInTime(log, steps, folder);
    var store := After(log, steps);
    var step, start := StillWalk(log, store, folder, since, at), LinkOf(store, folder);
    var page := step.pages[0];
    StillPageMail(log, store.rows, folder, start.None?, at, Begins(store, folder), at, m);
    WholeFeedDelivers(log[..at], folder, start);
    assert step.pages[..0] == [];
    assert CarriedBy(log, folder, start.None?, step.pages) == CarriedIn(log[..at], folder, start.None?, page.first, at);
    assert Served(log, store, step);
    WalkAdds(log, steps, step, at);
    assert AfterPages(log, store.rows, folder, start.None?, step.pages, map[])
        == AfterPage(log, store.rows, folder, start.None?, page, map[]);
  }

  // ---------------------------------------------------------------- runs that miss a deletion

  predicate Puts(log: Log<Message>, m: string, k: nat) {
    k < |log| && log[k].id == m && log[k].now.Some?
  }

  lemma PutBefore(log: Log<Message>, m: string, t: nat, g: string) returns (k: nat)
    requires t <= |log| && InFolder(log[..t], m, g)
    ensures k < t && Puts(log, m, k) && log[k].now.value.folder == g
  {
    k := LastChange(log[..t], m);
  }

  /** The folders, but one, that the first n changes put m in have been read up to `at`. */
  ghost predicate CaughtUp(log: Log<Message>, store: Store, m: string, n: nat, at: nat, except: string) {
    forall k: nat :: k < n && Puts(log, m, k) && log[k].now.value.folder != except ==>
      LinkOf(store, log[k].now.value.folder).Some? && Begins(store, log[k].now.value.folder) == at
  }

  /** Reading any folder but one at position `at` leaves m active: either m is there, or no feed has
      anything to say about it. */
  ghost predicate Harmless(log: Log<Message>, store: Store, m: string, at: nat, except: string) {
    at <= |log| && (Remote(log[..at], m).Some? ||
      forall g :: g != except && LinkOf(store, g).Some? ==> Begins(store, g) == at)
  }

  /** `steps` extends `prefix` by visits, at position `at`, of the folders that the first n changes put
      m in. */
  ghost predicate Visited(log: Log<Message>, m: string, n: nat, at: nat, except: string,
                          prefix: seq<Step>, steps: seq<Step>) {
    && Timely(log, steps) && Until(steps) <= at && (NoExpiry(prefix) ==> NoExpiry(steps))
    && LinkOf(After(log, steps), except) == LinkOf(After(log, prefix), except)
    && Began(steps, except) == Began(prefix, except)
    && CaughtUp(log, After(log, steps), m, n, at, except) && Harmless(log, After(log, steps), m, at, except)
    && (Local(After(log, prefix).rows, m).Some? ==> Local(After(log, steps).rows, m).Some?)
  }

  lemma {:induction false} VisitsCatchUp(log: Log<Message>, m: string, n: nat, at: nat, except: string, prefix: seq<Step>)
    returns (steps: seq<Step>)
    requires Visited(log, m, 0, at, except, prefix, prefix)
    ensures Visited(log, m, n, at, except, prefix, steps)
    decreases n
  {
    if n == 0 {
      steps := prefix;
    } else {
      steps := VisitsCatchUp(log, m, n - 1, at, except, prefix);
      steps := VisitCatchesUp(log, m, n - 1, at, except, prefix, steps);
    }
  }

  lemma VisitCatchesUp(log: Log<Message>, m: string, n: nat, at: nat, except: string, prefix: seq<Step>, steps: seq<Step>)
    returns (more: seq<Step>)
    requires Visited(log, m, n, at, except, prefix, steps)
    ensures Visited(log, m, n + 1, at, except, prefix, more)
  {
    if !Puts(log, m, n) || log[n].now.value.folder == except {
      return steps;
    }
    var folder, store := log[n].now.value.folder, After(log, steps);
    StillWalkAdds(log, steps, folder, at, at, m);
    more := steps + [StillWalk(log, store, folder, at, at)];
    VisitIsHarmless(log, m, at, except, store, folder);
    VisitedOneMore(log, store, After(log, more), m, n, at, except, folder);
  }

  lemma VisitedOneMore(log: Log<Message>, store: Store, after: Store, m: string, n: nat, at: nat, except: string,
                       folder: string)
    requires CaughtUp(log, store, m, n, at, except) && Harmless(log, store, m, at, except)
    requires Puts(log, m, n) && log[n].now.value.folder == folder != except
    requires LinkOf(after, folder).Some? && Begins(after, folder) == at
    requires forall g :: g != folder ==> LinkOf(after, g) == LinkOf(store, g)
    ensures CaughtUp(log, after, m, n + 1, at, except) && Harmless(log, after, m, at, except)
  {
  }

  lemma VisitIsHarmless(log: Log<Message>, m: string, at: nat, except: string, store: Store, folder: string)
    requires Harmless(log, store, m, at, except) && folder != except && Begins(store, folder) <= at
    ensures Listed(log[..at], folder, LinkOf(store, folder).None?, Begins(store, folder), at, m) ==>
            Remote(log[..at], m).Some?
  {
    if Listed(log[..at], folder, LinkOf(store, folder).None?, Begins(store, folder), at, m) && LinkOf(store, folder).None? {
      var k: nat :| k < at && log[..at][k].id == m && Carried(log[..at], folder, true, k);
      assert InFolder(log[..at], m, folder);
    }
  }

  /** The run has brought the folder to this link and left nothing to read about m. */
  ghost predicate Reads(log: Log<Message>, steps: seq<Step>, m: string, folder: string, link: DeltaLink) {
    Timely(log, steps) && LinkIs(After(log, steps), folder, link) && !Pending(log, After(log, steps), m)
  }

  lemma NothingPending(log: Log<Message>, m: string, i: nat, folder: string, link: DeltaLink, at: nat, store: Store)
    requires DeletedFrom(log, m, i, folder) && i < link.index && LinkIs(store, folder, link)
    requires i <= at && CaughtUp(log, store, m, i, at, folder)
    ensures !Pending(log, store, m)
  {
    forall j: nat, g | Concerns(log, j, g) && log[j].id == m
      ensures Key(g) in store.cursors && j < store.cursors[Key(g)].index
    {
      assert j <= i;
      if g != folder {
        StaysDeleted(log, m, i, folder, i + 1);
        assert j < i;
        var k := PutBefore(log, m, if InFolder(log[..j], m, g) then j else j + 1, g);
        assert LinkOf(store, g).Some?;
      }
    }
  }

  lemma NotListedLater(log: Log<Message>, m: string, i: nat, folder: string, at: nat, initial: bool, first: nat)
    requires DeletedFrom(log, m, i, folder) && i < at <= |log| && (!initial ==> i < first)
    ensures !Listed(log[..at], folder, initial, first, at, m)
  {
    StaysDeleted(log, m, i, folder, at);
  }

  /** The folder's next walk, behind the deletion, has nothing to say about m. */
  lemma LaterWalk(log: Log<Message>, m: string, i: nat, folder: string, steps: seq<Step>, since: nat, at: nat)
    returns (more: seq<Step>)
    requires DeletedFrom(log, m, i, folder) && Timely(log, steps) && Until(steps) <= since <= at <= |log| && i < at
    requires LinkOf(After(log, steps), folder).Some? ==> i < LinkOf(After(log, steps), folder).value.index
    ensures Timely(log, more) && Until(more) == at && (NoExpiry(steps) ==> NoExpiry(more))
    ensures LinkOf(After(log, more), folder) == Some(NextLink(LinkOf(After(log, steps), folder), at))
    ensures forall g :: g != folder ==> LinkOf(After(log, more), g) == LinkOf(After(log, steps), g)
    ensures Began(more, folder) == if Began(steps, folder).Some? then Began(steps, folder) else Some(since)
    ensures Local(After(log, more).rows, m) == Local(After(log, steps).rows, m)
  {
    var store := After(log, steps);
    StillWalkAdds(log, steps, folder, since, at, m);
    more := steps + [StillWalk(log, store, folder, since, at)];
    NotListedLater(log, m, i, folder, at, LinkOf(store, folder).None?, Begins(store, folder));
  }

  lemma FoundAt(now: Log<Message>, folder: string, m: string)
    requires InFolder(now, m, folder)
    ensures Listed(now, folder, true, 0, |now|, m)
  {
    var k := LastChange(now, m);
    assert Carried(now, folder, true, k);
  }

  lemma NoLinksAtFirst(log: Log<Message>)
    ensures Timely(log, []) && Until([]) == 0 && NoExpiry([])
    ensures forall g :: LinkOf(After(log, []), g) == None && Began([], g) == None
  {
  }

  /** m was read in the folder, the link expired, and m was deleted before the folder was read again. */
  lemma DeletionWhileExpired(log: Log<Message>, m: string, i: nat, folder: string, link: DeltaLink)
    returns (steps: seq<Step>)
    requires DeletedFrom(log, m, i, folder) && i < link.floor <= link.index <= |log|
    ensures Reads(log, steps, m, folder, link) && Local(After(log, steps).rows, m).Some?
  {
    NoLinksAtFirst(log);
    var visits := VisitsCatchUp(log, m, i, i, folder, []);
    StillWalkAdds(log, visits, folder, i, i, m);
    FoundAt(log[..i], folder, m);
    steps := visits + [StillWalk(log, After(log, visits), folder, i, i)];
    steps := ExpiredOnly(log, steps, folder);
    steps := LaterWalk(log, m, i, folder, steps, link.floor, link.floor);
    steps := LaterWalk(log, m, i, folder, steps, link.index, link.index);
    StillCaughtUp(log, m, i, i, folder, After(log, visits), After(log, steps));
    NothingPending(log, m, i, folder, link, i, After(log, steps));
  }

  lemma ExpiredOnly(log: Log<Message>, steps: seq<Step>, folder: string) returns (more: seq<Step>)
    requires Timely(log, steps)
    ensures Timely(log, more) && Until(more) == Until(steps) && After(log, more).rows == After(log, steps).rows
    ensures LinkOf(After(log, more), folder) == None
    ensures forall g :: g != folder ==> LinkOf(After(log, more), g) == LinkOf(After(log, steps), g)
  {
    more := steps + [Expire(folder)];
    OneMoreStep(log, steps, Expire(folder));
    forall g | Key(g) == Key(folder)
      ensures g == folder
    {
      KeysDiffer(g, folder);
    }
  }

  lemma StillCaughtUp(log: Log<Message>, m: string, n: nat, at: nat, except: string, store: Store, after: Store)
    requires CaughtUp(log, store, m, n, at, except)
    requires forall g :: g != except ==> LinkOf(after, g) == LinkOf(store, g)
    ensures CaughtUp(log, after, m, n, at, except)
  {
  }

  /** m was read in another folder, and no link expired: m was moved and deleted before its last
      folder was first asked for. */
  lemma DeletionBeforeTheFirstWalk(log: Log<Message>, m: string, i: nat, folder: string, link: DeltaLink, began: nat,
                                   t: nat, g: string)
    returns (steps: seq<Step>)
    requires DeletedFrom(log, m, i, folder) && i < began <= link.floor <= link.index <= |log|
    requires SeenIn(log, m, i, t, g) && g != folder
    ensures Reads(log, steps, m, folder, link) && Local(After(log, steps).rows, m).Some?
    ensures NoExpiry(steps) && Began(steps, folder) == Some(began)
  {
    NoLinksAtFirst(log);
    StillWalkAdds(log, [], g, t, t, m);
    FoundAt(log[..t], g, m);
    steps := [] + [StillWalk(log, After(log, []), g, t, t)];
    steps := VisitsCatchUp(log, m, i, i, folder, steps);
    var visited := After(log, steps);
    steps := LaterWalk(log, m, i, folder, steps, began, link.floor);
    steps := LaterWalk(log, m, i, folder, steps, link.index, link.index);
    StillCaughtUp(log, m, i, i, folder, visited, After(log, steps));
    NothingPending(log, m, i, folder, link, i, After(log, steps));
  }

  /** A first walk of two pages, the second one long after the first. */
  function TwoPages(log: Log<Message>, folder: string, since: nat, i: nat, at: nat): Step
    requires i <= at <= |log|
  {
    Walk(folder, since, [StillPage(log, folder, true, i, 0, i), StillPage(log, folder, true, at, 0, at)], Some(at), map[])
  }

  lemma TwoPagesMail(log: Log<Message>, rows: Rows<Message>, folder: string, since: nat, i: nat, at: nat, m: string)
    requires i <= at <= |log|
    ensures var pages := TwoPages(log, folder, since, i, at).pages;
            && AllHandled(log, folder, true, pages) && AllWhole(log, folder, true, pages)
            && (InFolder(log[..i], m, folder) && !Listed(log[..at], folder, true, 0, at, m) ==>
                  Local(AfterPages(log, rows, folder, true, pages, map[]), m).Some?)
  {
    var pages := TwoPages(log, folder, since, i, at).pages;
    StillPageMail(log, rows, folder, true, i, 0, i, m);
    var first := AfterPage(log, rows, folder, true, pages[0], map[]);
    StillPageMail(log, first, folder, true, at, 0, at, m);
    if InFolder(log[..i], m, folder) {
      FoundAt(log[..i], folder, m);
    }
    assert pages[..1] == [pages[0]];
    assert AfterPages(log, rows, folder, true, [pages[0]], map[]) == first by {
      assert [pages[0]][..0] == [];
    }
  }

  lemma TwoPagesAreServed(log: Log<Message>, store: Store, folder: string, since: nat, i: nat, at: nat)
    requires since <= i <= at <= |log| && LinkOf(store, folder) == None
    ensures var step := TwoPages(log, folder, since, i, at);
            Served(log, store, step) && PagesEnd(since, step.pages) == at
  {
    var pages := TwoPages(log, folder, since, i, at).pages;
    TwoPagesMail(log, store.rows, folder, since, i, at, "");
    StillPageMail(log, store.rows, folder, true, i, 0, i, "");
    StillPageMail(log, store.rows, folder, true, at, 0, at, "");
    assert pages[..1] == [pages[0]] && [pages[0]][..0] == [];
    assert InOrder(since, []) && InOrder(since, [pages[0]]);
    WholeFeedDelivers(log[..at], folder, None);
    assert CarriedIn(log[..at], folder, true, 0, at) <= CarriedBy(log, folder, true, pages);
  }

  lemma TwoPagesAdd(log: Log<Message>, folder: string, since: nat, i: nat, at: nat, m: string)
    requires since <= i <= at <= |log| && InFolder(log[..i], m, folder)
    requires !Listed(log[..at], folder, true, 0, at, m)
    ensures var step := TwoPages(log, folder, since, i, at);
            && Adds(log, [], step, at, DeltaLink(at, at)) && Local(After(log, [] + [step]).rows, m).Some?
  {
    NoLinksAtFirst(log);
    TwoPagesMail(log, After(log, []).rows, folder, since, i, at, m);
    TwoPagesAreServed(log, After(log, []), folder, since, i, at);
    WalkAdds(log, [], TwoPages(log, folder, since, i, at), at);
  }

  /** m was read in the folder itself, by an early page of its first walk, and deleted before the last
      one: a first walk reports what the folder holds, not what has left it meanwhile. */
  lemma DeletionDuringTheFirstWalk(log: Log<Message>, m: string, i: nat, folder: string, link: DeltaLink, began: nat)
    returns (steps: seq<Step>)
    requires DeletedFrom(log, m, i, folder) && began <= i < link.floor <= link.index <= |log|
    ensures Reads(log, steps, m, folder, link) && Local(After(log, steps).rows, m).Some?
    ensures NoExpiry(steps) && Began(steps, folder) == Some(began)
  {
    NoLinksAtFirst(log);
    NotListedLater(log, m, i, folder, link.floor, true, 0);
    TwoPagesAdd(log, folder, began, i, link.floor, m);
    steps := [] + [TwoPages(log, folder, began, i, link.floor)];
    steps := LaterWalk(log, m, i, folder, steps, link.index, link.index);
    steps := VisitsCatchUp(log, m, i, link.index, folder, steps);
    NothingPending(log, m, i, folder, link, link.index, After(log, steps));
  }

  // ---------------------------------------------------------------- which deletions are noticed

  /** A deletion within the chain is noticed by every run that brought the folder there. */
  lemma ChainedIsNoticed(log: Log<Message>, m: string, i: nat, folder: string, link: DeltaLink, steps: seq<Step>)
    requires DeletedFrom(log, m, i, folder) && link.floor <= i < link.index && Reads(log, steps, m, folder, link)
    ensures Local(After(log, steps).rows, m) == None
  {
    RunIsSound(log, steps);
    StandsLater(log[..Until(steps)], log, After(log, steps));
    ChainedDeletionIsGone(log, After(log, steps), m, i, folder, link);
  }

  /** Once a folder's chain of links covers a deletion, and only then, every run that brought the
      folder there has noticed it. */
  lemma DeletedMessagesAreGone(log: Log<Message>, m: string, i: nat, folder: string, link: DeltaLink)
    requires DeletedFrom(log, m, i, folder) && link.floor <= link.index <= |log| && i < link.index
    ensures link.floor <= i <==>
            forall steps ::
              Reads(log, steps, m, folder, link) ==> Local(After(log, steps).rows, m) == None
  {
    if link.floor <= i {
      forall steps | Reads(log, steps, m, folder, link)
        ensures Local(After(log, steps).rows, m) == None
      {
        ChainedIsNoticed(log, m, i, folder, link, steps);
      }
    } else {
      var steps := DeletionWhileExpired(log, m, i, folder, link);
    }
  }

  /** The run, with or without expired links, first asked for the folder when the log stood at `began`. */
  ghost predicate ReadsFrom(log: Log<Message>, steps: seq<Step>, m: string, folder: string, link: DeltaLink, began: nat) {
    Reads(log, steps, m, folder, link) && Began(steps, folder) == Some(began)
  }

  /** With the moment known at which the folder was first asked for, one more kind of deletion is
      certain to be noticed: of a message seen in no other folder, before that moment. Whether links
      expire makes no difference to that. */
  lemma DeletionsWithoutExpiry(log: Log<Message>, m: string, i: nat, folder: string, link: DeltaLink, began: nat)
    requires DeletedFrom(log, m, i, folder) && began <= link.floor <= link.index <= |log| && i < link.index
    ensures var certain := link.floor <= i || (i < began && !Elsewhere(log, m, i, folder));
            && (certain <==>
                forall steps ::
                  ReadsFrom(log, steps, m, folder, link, began) ==> Local(After(log, steps).rows, m) == None)
            && (certain <==>
                forall steps ::
                  NoExpiry(steps) && ReadsFrom(log, steps, m, folder, link, began) ==>
                    Local(After(log, steps).rows, m) == None)
  {
    if link.floor <= i || (i < began && !Elsewhere(log, m, i, folder)) {
      forall steps | ReadsFrom(log, steps, m, folder, link, began)
        ensures Local(After(log, steps).rows, m) == None
      {
        if link.floor <= i {
          ChainedIsNoticed(log, m, i, folder, link, steps);
        } else {
          NeverStored(log, m, i, folder, steps);
        }
      }
    } else if began <= i {
      var steps := DeletionDuringTheFirstWalk(log, m, i, folder, link, began);
      assert ReadsFrom(log, steps, m, folder, link, began);
    } else {
      var t: nat, g :| SeenIn(log, m, i, t, g) && g != folder;
      var steps := DeletionBeforeTheFirstWalk(log, m, i, folder, link, began, t, g);
      assert ReadsFrom(log, steps, m, folder, link, began);
    }
  }
}
