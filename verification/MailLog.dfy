/** A provider's mailbox as an append-only log of changes, and what it means for the local store to
    be covered from some position of that log on. A position is a number of changes made so far. */
module MailLog {
  import opened Wrappers
  import opened MailStore

  /** After this change message `id` is `now`; None when it no longer exists. */
  datatype Change<M> = Change(id: string, now: Option<M>)

  type Log<M> = seq<Change<M>>

  /** The provider's current version of m. */
  function Remote<M>(log: Log<M>, m: string): Option<M> {
    if log == [] then None
    else if log[|log| - 1].id == m then log[|log| - 1].now
    else Remote(log[..|log| - 1], m)
  }

  ghost predicate ChangedSince<M>(log: Log<M>, c: nat, m: string) {
    exists i :: c <= i < |log| && log[i].id == m
  }

  /** With no change to m after history id c, the store and the provider agree on m,
      including when both say that there is no such message. */
  ghost predicate Covered<M>(log: Log<M>, rows: Rows<M>, m: string, c: nat) {
    !ChangedSince(log, c, m) ==> Local(rows, m) == Remote(log, m)
  }

  ghost predicate AllCovered<M>(log: Log<M>, rows: Rows<M>, c: nat) {
    c <= |log| && forall m :: Covered(log, rows, m, c)
  }

  /** The weaker promise behind skipping: every active row was fetched at or after c. */
  ghost predicate ActiveCovered<M>(log: Log<M>, rows: Rows<M>, c: nat) {
    c <= |log| && forall m :: m in Active(rows) ==> Covered(log, rows, m, c)
  }

  /** Every claim of coverage that held before still holds. */
  ghost predicate Kept<M>(log: Log<M>, rows: Rows<M>, log': Log<M>, rows': Rows<M>) {
    log <= log' && forall c: nat, m :: c <= |log| && Covered(log, rows, m, c) ==> Covered(log', rows', m, c)
  }

  /** m was looked up and stored or buried accordingly; no other message changed locally. */
  ghost predicate Refreshed<M>(log: Log<M>, rows: Rows<M>, log': Log<M>, rows': Rows<M>, m: string) {
    && Kept(log, rows, log', rows')
    && Local(rows', m) == Remote(log', m)
    && forall x :: x != m ==> Local(rows', x) == Local(rows, x)
  }

  lemma RefreshedLater<M>(log: Log<M>, rows: Rows<M>, log': Log<M>, rows': Rows<M>, rows'': Rows<M>, m: string)
    requires Kept(log, rows, log', rows') && SameMail(rows, rows') && Refreshed(log', rows', log', rows'', m)
    ensures Refreshed(log, rows, log', rows'', m)
  {
    KeptIsTransitive(log, rows, log', rows', log', rows'');
    forall x
      ensures Local(rows', x) == Local(rows, x)
    {
    }
  }

  lemma KeptIsTransitive<M>(log: Log<M>, rows: Rows<M>, log1: Log<M>, rows1: Rows<M>, log2: Log<M>, rows2: Rows<M>)
    requires Kept(log, rows, log1, rows1) && Kept(log1, rows1, log2, rows2)
    ensures Kept(log, rows, log2, rows2)
  {
  }

  /** Between (log, rows) and (log', rows') exactly the messages in `ids` were looked up,
      each of them after `log`; no claim of coverage was lost. */
  ghost predicate Pass<M>(log: Log<M>, rows: Rows<M>, log': Log<M>, rows': Rows<M>, ids: set<string>) {
    && Kept(log, rows, log', rows')
    && (forall m, c: nat :: m in ids && c <= |log| ==> Covered(log', rows', m, c))
    && (forall x :: x !in ids ==> Local(rows', x) == Local(rows, x))
  }

  lemma EmptyPass<M>(log: Log<M>, rows: Rows<M>)
    ensures Pass(log, rows, log, rows, {})
  {
  }

  lemma PassOneMore<M>(log: Log<M>, rows: Rows<M>, log1: Log<M>, rows1: Rows<M>, log2: Log<M>, rows2: Rows<M>,
                    ids: set<string>, m: string)
    requires Pass(log, rows, log1, rows1, ids) && Refreshed(log1, rows1, log2, rows2, m)
    ensures Pass(log, rows, log2, rows2, ids + {m})
  {
    KeptIsTransitive(log, rows, log1, rows1, log2, rows2);
  }

  lemma PassThroughCall<M>(log: Log<M>, rows: Rows<M>, log1: Log<M>, rows1: Rows<M>, log2: Log<M>, rows2: Rows<M>,
                        ids: set<string>)
    requires Pass(log, rows, log1, rows1, ids) && Kept(log1, rows1, log2, rows2) && SameMail(rows1, rows2)
    ensures Pass(log, rows, log2, rows2, ids)
  {
    KeptIsTransitive(log, rows, log1, rows1, log2, rows2);
    forall x
      ensures Local(rows2, x) == Local(rows1, x)
    {
    }
  }

  lemma PassInSequence<M>(log: Log<M>, rows: Rows<M>, log1: Log<M>, rows1: Rows<M>, log2: Log<M>, rows2: Rows<M>,
                       ids: set<string>, more: set<string>)
    requires Pass(log, rows, log1, rows1, ids) && Pass(log1, rows1, log2, rows2, more)
    ensures Pass(log, rows, log2, rows2, ids + more)
  {
    KeptIsTransitive(log, rows, log1, rows1, log2, rows2);
  }

  /** Every change in `walked` was followed by a lookup of its message. */
  ghost predicate Walked<M>(log: Log<M>, rows: Rows<M>, walked: set<nat>) {
    forall i :: i in walked ==> i < |log| && Covered(log, rows, log[i].id, i + 1)
  }

  /** A page of changes is walked once all its messages have been looked up. */
  lemma PageIsWalked<M>(log: Log<M>, rows: Rows<M>, log': Log<M>, rows': Rows<M>, ids: set<string>,
                     walked: set<nat>, indexes: set<nat>)
    requires Walked(log, rows, walked) && Pass(log, rows, log', rows', ids)
    requires forall i :: i in indexes ==> i < |log| && log[i].id in ids
    ensures Walked(log', rows', walked + indexes)
  {
  }

  lemma WalkedThroughCall<M>(log: Log<M>, rows: Rows<M>, log': Log<M>, rows': Rows<M>, walked: set<nat>)
    requires Walked(log, rows, walked) && Kept(log, rows, log', rows')
    ensures Walked(log', rows', walked)
  {
  }

  lemma {:induction false} UnchangedStaysTheSame<M>(log: Log<M>, c: nat, m: string)
    requires c <= |log| && !ChangedSince(log, c, m)
    ensures Remote(log, m) == Remote(log[..c], m)
  {
    if |log| == c {
      assert log[..c] == log;
    } else {
      var shorter := log[..|log| - 1];
      assert log[|log| - 1].id != m;
      assert !ChangedSince(shorter, c, m) by {
        assert forall i :: 0 <= i < |shorter| ==> shorter[i] == log[i];
      }
      UnchangedStaysTheSame(shorter, c, m);
      assert shorter[..c] == log[..c];
    }
  }

  /** Coverage survives any remote change: either it touches m, or it leaves m as it was. */
  lemma CoverageSurvivesGrowth<M>(log: Log<M>, more: Log<M>, before: Rows<M>, after: Rows<M>, m: string, c: nat)
    requires c <= |log| && Covered(log, before, m, c) && Local(after, m) == Local(before, m)
    ensures Covered(log + more, after, m, c)
  {
    var whole := log + more;
    if !ChangedSince(whole, c, m) {
      assert !ChangedSince(log, c, m) by {
        assert forall i :: 0 <= i < |log| ==> whole[i] == log[i];
      }
      assert !ChangedSince(whole, |log|, m);
      UnchangedStaysTheSame(whole, |log|, m);
      assert whole[..|log|] == log;
    }
  }

  lemma GrowthKeepsCoverage<M>(log: Log<M>, log': Log<M>, rows: Rows<M>, rows': Rows<M>)
    requires log <= log' && SameMail(rows, rows')
    ensures Kept(log, rows, log', rows')
  {
    assert log + log'[|log|..] == log';
    forall c: nat, m | c <= |log| && Covered(log, rows, m, c)
      ensures Covered(log', rows', m, c)
    {
      CoverageSurvivesGrowth(log, log'[|log|..], rows, rows', m, c);
    }
  }

  /** Overwriting m with what the provider says now never hurts, whatever is claimed for m. */
  lemma RefreshKeepsCoverage<M>(log: Log<M>, rows: Rows<M>, rows': Rows<M>, m: string)
    requires Local(rows', m) == Remote(log, m)
    requires forall x :: x != m ==> Local(rows', x) == Local(rows, x)
    ensures Refreshed(log, rows, log, rows', m)
  {
  }

  /** The heart of a history walk. `walked` are the positions whose message was fetched after
      the change at that position; once they fill [c, h) the cursor may move from c to h. */
  lemma WalkedHistoryCovers<M>(log: Log<M>, rows: Rows<M>, c: nat, h: nat, walked: set<nat>)
    requires AllCovered(log, rows, c) && h <= |log|
    requires Walked(log, rows, walked)
    requires forall i :: c <= i < h ==> i in walked
    ensures AllCovered(log, rows, h)
  {
    forall m
      ensures Covered(log, rows, m, h)
    {
      LastChangeCovers(log, rows, c, h, walked, m);
    }
  }

  lemma {:induction false} LastChangeCovers<M>(log: Log<M>, rows: Rows<M>, c: nat, h: nat, walked: set<nat>, m: string)
    requires Covered(log, rows, m, c) && h <= |log|
    requires Walked(log, rows, walked)
    requires forall i :: c <= i < h ==> i in walked
    ensures Covered(log, rows, m, h)
    decreases h
  {
    if c < h && !ChangedSince(log, h, m) && log[h - 1].id != m {
      assert !ChangedSince(log, h - 1, m);
      LastChangeCovers(log, rows, c, h - 1, walked, m);
    }
  }

  lemma EarlierIsCoveredToo<M>(log: Log<M>, rows: Rows<M>, earlier: nat, later: nat)
    requires AllCovered(log, rows, later) && earlier <= later
    ensures AllCovered(log, rows, earlier)
  {
    forall m
      ensures Covered(log, rows, m, earlier)
    {
      if ChangedSince(log, later, m) {
        var i :| later <= i < |log| && log[i].id == m;
        assert earlier <= i;
      } else {
        assert Covered(log, rows, m, later);
      }
    }
  }
}
