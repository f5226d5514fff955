/** repository.py: the stored messages of one account and the cursors kept beside them.

    `rows` is what the running transaction sees, `savedRows` what has been committed. */
module MailStore {
  import opened Wrappers
  import opened AuthState

  /** The three states a reader sees, and the three a provider reports. */
  datatype Flags = Flags(isRead: bool, isStarred: bool, mailbox: string)

  /** local_is_read, local_is_starred and local_mailbox: None until the user chooses. */
  datatype Choices = Choices(isRead: Option<bool>, isStarred: Option<bool>, mailbox: Option<string>)

  const NO_CHOICES := Choices(None, None, None)

  datatype Row<M> = Row(payload: M, deleted: bool, provider: Flags, visible: Flags, local: Choices)

  type Rows<M> = map<string, Row<M>>

  /** coalesce(local, provider), column by column. */
  function Seen(local: Choices, provider: Flags): Flags {
    Flags(local.isRead.GetOr(provider.isRead), local.isStarred.GetOr(provider.isStarred), local.mailbox.GetOr(provider.mailbox))
  }

  ghost predicate ChoicesKept<M>(rows: Rows<M>) {
    forall m :: m in rows ==> rows[m].visible == Seen(rows[m].local, rows[m].provider)
  }

  /** What a reader of the store gets for m: nothing for an absent or a deleted row. */
  function Local<M>(rows: Rows<M>, m: string): Option<M> {
    if m in rows && !rows[m].deleted then Some(rows[m].payload) else None
  }

  function Active<M>(rows: Rows<M>): set<string> {
    set m | m in rows && !rows[m].deleted
  }

  /** The same messages in the same state; only what the user chose may differ. */
  ghost predicate SameMail<M>(before: Rows<M>, after: Rows<M>) {
    && after.Keys == before.Keys
    && forall m :: m in before ==>
         && after[m].payload == before[m].payload && after[m].deleted == before[m].deleted
         && after[m].provider == before[m].provider
  }

  lemma SameMailSameActive<M>(before: Rows<M>, after: Rows<M>)
    requires SameMail(before, after)
    ensures Active(after) == Active(before)
  {
  }

  function Upserted<M>(rows: Rows<M>, m: string, payload: M, provider: Flags): Rows<M> {
    var local := if m in rows then rows[m].local else NO_CHOICES;
    rows[m := Row(payload, false, provider, Seen(local, provider), local)]
  }

  function Buried<M>(rows: Rows<M>, m: string): Rows<M> {
    if m in rows then rows[m := rows[m].(deleted := true)] else rows
  }

  /** update_message_state: every field present in the request is set, together with its override. */
  function Patched<M>(row: Row<M>, request: Choices): Row<M> {
    row.(
      visible := Flags(request.isRead.GetOr(row.visible.isRead), request.isStarred.GetOr(row.visible.isStarred),
                       request.mailbox.GetOr(row.visible.mailbox)),
      local := Choices(if request.isRead.Some? then request.isRead else row.local.isRead,
                       if request.isStarred.Some? then request.isStarred else row.local.isStarred,
                       if request.mailbox.Some? then request.mailbox else row.local.mailbox))
  }

  lemma PatchKeepsChoices<M>(rows: Rows<M>, m: string, request: Choices)
    requires m in rows && ChoicesKept(rows)
    ensures ChoicesKept(rows[m := Patched(rows[m], request)])
    ensures SameMail(rows, rows[m := Patched(rows[m], request)])
  {
  }

  lemma StoringKeepsChoices<M>(rows: Rows<M>, m: string, payload: M, provider: Flags)
    requires ChoicesKept(rows)
    ensures ChoicesKept(Upserted(rows, m, payload, provider)) && ChoicesKept(Buried(rows, m))
  {
  }

  /** The parts of the database a synchronization depends on, in one of its two versions. `missing`
      are the ids whose last lookup, as far as this version knows, found nothing. */
  datatype Half<M, K> = Half(rows: Rows<M>, cursors: map<string, K>, history: Value, missing: set<string>)

  /** The running transaction's version and the committed one. */
  datatype Snapshot<M, K> = Snapshot(view: Half<M, K>, disk: Half<M, K>)

  ghost predicate SameHalf<M, K>(a: Half<M, K>, b: Half<M, K>) {
    SameMail(a.rows, b.rows) && b.cursors == a.cursors && b.history == a.history && b.missing == a.missing
  }

  /** Other requests wrote only what they may write. */
  ghost predicate Aside<M, K>(a: Snapshot<M, K>, b: Snapshot<M, K>) {
    SameHalf(a.view, b.view) && SameHalf(a.disk, b.disk)
  }

  /** All that may happen behind a provider call: other requests write what they may write,
      and a token refresh inside the call may commit everything stored so far. */
  ghost predicate Undisturbed<M, K>(a: Snapshot<M, K>, b: Snapshot<M, K>) {
    SameHalf(a.view, b.view) && (SameHalf(a.disk, b.disk) || SameHalf(a.view, b.disk))
  }

  lemma UndisturbedIsTransitive<M, K>(a: Snapshot<M, K>, b: Snapshot<M, K>, c: Snapshot<M, K>)
    requires Undisturbed(a, b) && Undisturbed(b, c)
    ensures Undisturbed(a, c)
  {
  }

  class MailRepository<M(==,!new), K(!new)> {
    const session: AccountSession
    var rows: Rows<M>
    var cursors: map<string, K>
    var savedRows: Rows<M>
    var savedCursors: map<string, K>
    ghost var missing: set<string>
    ghost var savedMissing: set<string>

    ghost predicate Valid()
      reads this, session
    {
      && session.Valid()
      && ChoicesKept(rows) && ChoicesKept(savedRows)
    }

    /** A newly connected account: nothing imported yet. */
    constructor (session: AccountSession)
      requires session.Valid()
      ensures Valid() && this.session == session
      ensures rows == savedRows == map[] && cursors == savedCursors == map[] && missing == savedMissing == {}
    {
      this.session := session;
      rows, cursors := map[], map[];
      savedRows, savedCursors := map[], map[];
      missing, savedMissing := {}, {};
    }

    method Cursor(key: string) returns (value: Option<K>)
      requires Valid()
      modifies session`row, session`original, session`locked
      ensures Valid() && session.Clean()
      ensures session.row == old(session.row) + old(Dirty(session.current, session.original))
      ensures value == if key in cursors then Some(cursors[key]) else None
      ensures old(Steady()) ==> Steady() && Snap() == old(Snap())
    {
      session.Flush();
      value := if key in cursors then Some(cursors[key]) else None;
    }

    method ActiveProviderMessageIds() returns (ids: set<string>)
      requires Valid()
      modifies session`row, session`original, session`locked
      ensures Valid() && session.Clean()
      ensures session.row == old(session.row) + old(Dirty(session.current, session.original))
      ensures ids == Active(rows)
      ensures old(Steady()) ==> Steady() && Snap() == old(Snap())
    {
      session.Flush();
      ids := Active(rows);
    }

    /** upsert_message */
    method Store(m: string, payload: M, provider: Flags) returns (created: bool)
      requires Valid()
      modifies this`rows, session`row, session`original, session`locked
      ensures Valid() && session.Clean()
      ensures session.row == old(session.row) + old(Dirty(session.current, session.original))
      ensures created <==> m !in old(rows)
      ensures rows == Upserted(old(rows), m, payload, provider)
      ensures old(Steady()) ==> Steady() && Snap() == old(Snap()).(view := old(Snap()).view.(rows := rows))
    {
      session.Flush();
      StoringKeepsChoices(rows, m, payload, provider);
      created := m !in rows;
      rows := Upserted(rows, m, payload, provider);
    }

    method MarkDeleted(m: string)
      requires Valid()
      modifies this`rows, session`row, session`original, session`locked
      ensures Valid() && session.Clean()
      ensures session.row == old(session.row) + old(Dirty(session.current, session.original))
      ensures rows == Buried(old(rows), m)
      ensures old(Steady()) ==> Steady() && Snap() == old(Snap()).(view := old(Snap()).view.(rows := rows))
    {
      session.Flush();
      rows := Buried(rows, m);
    }

    method SetCursor(key: string, value: K)
      requires Valid()
      modifies this`cursors
      ensures Valid() && cursors == old(cursors)[key := value]
    {
      cursors := cursors[key := value];
    }

    method DeleteCursor(key: string)
      requires Valid()
      modifies this`cursors
      ensures Valid() && cursors == old(cursors) - {key}
    {
      cursors := cursors - {key};
    }

    method Commit()
      requires Valid()
      modifies this`savedRows, this`savedCursors, this`savedMissing
      modifies session`row, session`saved, session`original, session`locked
      ensures Valid() && session.Clean() && !session.locked
      ensures session.row == session.saved == old(session.row) + old(Dirty(session.current, session.original))
      ensures savedRows == rows && savedCursors == cursors && savedMissing == missing
    {
      session.Commit();
      savedRows, savedCursors := rows, cursors;
      savedMissing := missing;
    }

    method Rollback()
      requires Valid()
      modifies this`rows, this`cursors, this`missing, session
      ensures Valid() && session.Clean() && !session.locked
      ensures session.row == session.current == session.saved == old(session.saved)
      ensures rows == savedRows && cursors == savedCursors && missing == savedMissing
    {
      session.Rollback();
      rows, cursors := savedRows, savedCursors;
      missing := savedMissing;
    }

    /** update_account_state: the grant stamped on the error, else the one the object holds. */
    method UpdateAccountState(values: Columns, stamp: Option<string>) returns (applied: bool)
      requires Valid() && session.current[RefreshToken].Text?
      modifies session`row, session`current, session`original, session`locked
      ensures Valid() && session.Clean()
      ensures applied <==> old(Admits(session.row, stamp.GetOr(session.current[RefreshToken].text), values))
      ensures applied ==> session.row == old(session.row) + values && session.locked
      ensures applied ==> session.current == old(Restored(session.current, session.original)) + values
      ensures !applied ==> session.row == old(session.row) && session.locked == old(session.locked)
      ensures !applied ==> session.current == session.row
    {
      applied := session.UpdateAccountIfCurrent(stamp.GetOr(session.current[RefreshToken].text), values);
    }

    /** Another request's PATCH, one atomic step on a committed row this transaction has not written. */
    method OthersPatch(m: string, request: Choices)
      requires Valid()
      modifies this`rows, this`savedRows
      ensures Valid() && SameMail(old(rows), rows) && SameMail(old(savedRows), savedRows)
    {
      if m in rows && m in savedRows && rows[m] == savedRows[m] && !savedRows[m].deleted {
        PatchKeepsChoices(rows, m, request);
        PatchKeepsChoices(savedRows, m, request);
        rows, savedRows := rows[m := Patched(rows[m], request)], savedRows[m := Patched(savedRows[m], request)];
      }
    }

    ghost predicate AccountWellTyped()
      reads session
    {
      WellTyped(session.row) && WellTyped(session.saved) && WellTyped(session.current)
    }

    /** Between two steps of a synchronization: nothing unflushed, and the object holds the
        history cursor of the row. */
    ghost predicate Steady()
      reads this, session
    {
      Valid() && AccountWellTyped() && session.Clean() && session.current[HistoryCursor] == session.row[HistoryCursor]
    }

    ghost function Snap(): Snapshot<M, K>
      requires AccountWellTyped()
      reads this, session
    {
      Snapshot(Half(rows, cursors, session.row[HistoryCursor], missing),
               Half(savedRows, savedCursors, session.saved[HistoryCursor], savedMissing))
    }

    /** Any number of committed steps of other requests and workers. */
    method Meanwhile()
      requires Steady()
      modifies this`rows, this`savedRows, session`row, session`saved
      ensures Steady() && Aside(old(Snap()), Snap())
    {
      var steps: nat := *;
      while steps > 0
        invariant Steady()
        invariant Aside(old(Snap()), Snap())
      {
        if * {
          var m: string, request: Choices := *, *;
          OthersPatch(m, request);
        } else {
          var write: OthersWrite := *;
          session.OthersCommit(write);
        }
        steps := steps - 1;
      }
    }
  }
}
