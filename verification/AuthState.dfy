/** auth_state.py: one worker's mapped account object, the account row it stands for,
    and the conditional write that keeps an older operation from replacing a new grant.

    The object follows the unit-of-work rules of the ORM: assigning an attribute only
    remembers the value it had before, and any later flush (every query flushes first,
    every commit flushes) writes the remembered changes to the row without a condition. */
module AuthState {
  import opened Wrappers

  datatype Status = Connected | Syncing | Error | ReauthRequired | Disconnected

  /** The columns in AUTH_STATE_FIELDS. */
  datatype Field =
    | RefreshToken | AccessToken | AccessTokenExpiresAt
    | AccountStatus | LastError | LastSyncedAt | HistoryCursor

  datatype Value =
    | Null | Text(text: string) | Time(time: int) | Mode(status: Status) | Position(index: nat)

  type Columns = map<Field, Value>

  const AUTH_STATE_FIELDS: seq<Field> :=
    [RefreshToken, AccessToken, AccessTokenExpiresAt, AccountStatus, LastError, LastSyncedAt, HistoryCursor]

  /** What a refresh inside the token manager reads back. */
  const TOKEN_FIELDS: set<Field> := {RefreshToken, AccessToken, AccessTokenExpiresAt, AccountStatus}

  predicate Complete(columns: Columns) {
    forall f: Field :: f in columns
  }

  function Allowed(values: Columns): set<Status> {
    {Connected, Syncing, Error} +
    if AccountStatus in values && values[AccountStatus] == Mode(ReauthRequired) then {ReauthRequired} else {}
  }

  /** The WHERE clause of the conditional update. */
  predicate Admits(row: Columns, expected: string, values: Columns)
    requires Complete(row)
  {
    && row[RefreshToken] == Text(expected)
    && row[AccountStatus].Mode?
    && row[AccountStatus].status in Allowed(values)
  }

  /** Attributes whose history has changes: assigned since the last flush, to another value. */
  function Dirty(current: Columns, original: Columns): Columns {
    map f | f in original && f in current && original[f] != current[f] :: current[f]
  }

  /** The object with every unflushed assignment undone. */
  function Restored(current: Columns, original: Columns): Columns {
    current + original
  }

  lemma EveryFieldIsListed(f: Field)
    ensures f in AUTH_STATE_FIELDS
  {
    match f
    case RefreshToken => assert AUTH_STATE_FIELDS[0] == f;
    case AccessToken => assert AUTH_STATE_FIELDS[1] == f;
    case AccessTokenExpiresAt => assert AUTH_STATE_FIELDS[2] == f;
    case AccountStatus => assert AUTH_STATE_FIELDS[3] == f;
    case LastError => assert AUTH_STATE_FIELDS[4] == f;
    case LastSyncedAt => assert AUTH_STATE_FIELDS[5] == f;
    case HistoryCursor => assert AUTH_STATE_FIELDS[6] == f;
  }

  /** The reset loop visits every column, so nothing assigned survives it. */
  lemma NothingLeft(was: Columns, before: Columns, current: Columns, original: Columns)
    requires Complete(was) && Complete(current)
    requires forall f :: f in AUTH_STATE_FIELDS ==> f !in original && current[f] == Restored(was, before)[f]
    ensures original == map[] && current == Restored(was, before)
  {
    forall f: Field
      ensures f !in original && current[f] == Restored(was, before)[f]
    {
      EveryFieldIsListed(f);
    }
  }

  lemma CleanIsRestored(current: Columns, original: Columns)
    requires Complete(current) && Dirty(current, original) == map[]
    ensures Restored(current, original) == current
  {
    forall f | f in original
      ensures original[f] == current[f]
    {
      assert f !in Dirty(current, original);
    }
  }

  /** The columns every account row keeps well typed. */
  predicate WellTyped(columns: Columns) {
    && Complete(columns)
    && columns[RefreshToken].Text?
    && columns[AccountStatus].Mode?
    && (columns[HistoryCursor] == Null || columns[HistoryCursor].Position?)
  }

  /** Committed writes of other requests and workers. None of them is a mail synchronization,
      because deliveries for one account exclude each other, so none moves the history cursor. */
  datatype OthersWrite =
    | PauseWrite
    | ResumeWrite
    | ReconnectWrite(grant: string, access: string, expires: int)
    | PublishWrite(newGrant: Option<string>, access: string, expires: int)
    | RefuseWrite(message: string)

  function Written(write: OthersWrite): Columns {
    match write
    case PauseWrite => map[AccountStatus := Mode(Disconnected), LastError := Null]
    case ResumeWrite => map[AccountStatus := Mode(Connected), LastError := Null]
    case ReconnectWrite(grant, access, expires) =>
      map[RefreshToken := Text(grant), AccessToken := Text(access), AccessTokenExpiresAt := Time(expires),
          AccountStatus := Mode(Connected), LastError := Null]
    case PublishWrite(newGrant, access, expires) =>
      var tokens: Columns := map[AccessToken := Text(access), AccessTokenExpiresAt := Time(expires)];
      if newGrant.Some? then tokens[RefreshToken := Text(newGrant.value)] else tokens
    case RefuseWrite(message) =>
      map[AccountStatus := Mode(ReauthRequired), LastError := Text(message), AccessToken := Null, AccessTokenExpiresAt := Null]
  }

  class AccountSession {
    var row: Columns       // the row as this transaction sees it
    var saved: Columns     // the committed row
    var locked: bool       // this transaction wrote the row and has not committed
    var current: Columns   // the attributes of the mapped object
    var original: Columns  // per assigned attribute, the value it had when last flushed or loaded

    ghost predicate Valid()
      reads this
    {
      Complete(row) && Complete(saved) && Complete(current) && (!locked ==> row == saved)
    }

    /** Nothing a flush would write. */
    ghost predicate Clean()
      reads this
    {
      Dirty(current, original) == map[]
    }

    /** A plain attribute assignment on the mapped object. */
    method Assign(f: Field, v: Value)
      requires Valid()
      modifies this`current, this`original
      ensures Valid()
      ensures current == old(current)[f := v]
      ensures forall g :: g != f ==> (g in Dirty(current, original) <==> g in old(Dirty(current, original)))
      ensures old(Clean()) ==> Restored(current, original) == old(current)
      ensures old(Clean()) ==> Dirty(current, original).Keys <= {f}
    {
      assert f in original && original[f] != current[f] ==> f in Dirty(current, original);
      if Dirty(current, original) == map[] {
        CleanIsRestored(current, original);
      }
      if f !in original || original[f] == current[f] {
        original := original[f := current[f]];
      }
      current := current[f := v];
    }

    /** The automatic flush before a query: every changed attribute is written, unconditionally. */
    method Flush()
      requires Valid()
      modifies this`row, this`original, this`locked
      ensures Valid() && Clean() && original == map[]
      ensures row == old(row) + old(Dirty(current, original))
      ensures old(Clean()) ==> row == old(row) && locked == old(locked)
    {
      var changes := Dirty(current, original);
      row := row + changes;
      if changes != map[] {
        locked := true;
      }
      original := map[];
    }

    method Commit()
      requires Valid()
      modifies this`row, this`saved, this`original, this`locked
      ensures Valid() && Clean() && !locked
      ensures row == saved == old(row) + old(Dirty(current, original))
    {
      Flush();
      saved := row;
      locked := false;
    }

    /** The process dies or the transaction is abandoned: only committed columns survive. */
    method Rollback()
      requires Valid()
      modifies this
      ensures Valid() && Clean() && !locked
      ensures saved == old(saved) && row == saved && current == saved
    {
      row := saved;
      locked := false;
      current := saved;
      original := map[];
    }

    /** The loop over AUTH_STATE_FIELDS: put every changed attribute back, writing nothing. */
    method ResetAssignments()
      requires Valid()
      modifies this`current, this`original
      ensures Valid() && original == map[] && current == old(Restored(current, original))
    {
      ghost var was, before := current, original;
      ghost var done: set<Field> := {};
      for i := 0 to |AUTH_STATE_FIELDS|
        invariant Complete(current)
        invariant forall k :: 0 <= k < i ==> AUTH_STATE_FIELDS[k] in done
        invariant forall f :: f in done ==> f !in original && current[f] == Restored(was, before)[f]
        invariant forall f :: f !in done ==> current[f] == was[f]
        invariant original == before - done
      {
        var name := AUTH_STATE_FIELDS[i];
        if name in original && original[name] != current[name] {
          current := current[name := original[name]];
        }
        original := original - {name};
        done := done + {name};
      }
      NothingLeft(was, before, current, original);
    }

    /** update_account_if_current: undo every unflushed assignment, then write `values`
        only if the row still holds the expected grant and an admissible status. */
    method UpdateAccountIfCurrent(expected: string, values: Columns) returns (applied: bool)
      requires Valid()
      modifies this`row, this`current, this`original, this`locked
      ensures Valid() && Clean()
      ensures applied <==> old(Admits(row, expected, values))
      ensures applied ==> row == old(row) + values && locked
      ensures applied ==> current == old(Restored(current, original)) + values
      ensures applied && old(Clean()) ==> current == old(current) + values
      ensures !applied ==> row == old(row) && locked == old(locked) && current == row
    {
      if Dirty(current, original) == map[] {
        CleanIsRestored(current, original);
      }
      ResetAssignments();
      if Admits(row, expected, values) {
        row := row + values;
        locked := true;
        current := current + values;
        applied := true;
      } else {
        current := row;
        applied := false;
      }
    }

    /** mark_reauth_if_current: the refusal counts against the grant stamped on the error. */
    method MarkReauthIfCurrent(stamp: Option<string>, message: string) returns (applied: bool)
      requires Valid()
      requires current[RefreshToken].Text?
      modifies this`row, this`current, this`original, this`locked
      ensures Valid() && Clean()
      ensures applied <==> old(Admits(row, stamp.GetOr(current[RefreshToken].text), map[AccountStatus := Mode(ReauthRequired)]))
      ensures applied ==> row == old(row)[AccountStatus := Mode(ReauthRequired)][LastError := Text(message)]
                                   [AccessToken := Null][AccessTokenExpiresAt := Null]
      ensures !applied ==> row == old(row)
    {
      var expected := stamp.GetOr(current[RefreshToken].text);
      applied := UpdateAccountIfCurrent(expected, map[
        AccountStatus := Mode(ReauthRequired), LastError := Text(message),
        AccessToken := Null, AccessTokenExpiresAt := Null]);
    }

    /** Another transaction commits a write; it waits while this one holds the row. */
    method OthersCommit(write: OthersWrite)
      requires Valid()
      modifies this`row, this`saved
      ensures Valid() && row[HistoryCursor] == old(row[HistoryCursor]) && saved[HistoryCursor] == old(saved[HistoryCursor])
      ensures row == (if old(locked) then old(row) else old(row) + Written(write))
      ensures saved == (if old(locked) then old(saved) else row)
      ensures old(WellTyped(row)) ==> WellTyped(row)
      ensures old(WellTyped(saved)) ==> WellTyped(saved)
    {
      if !locked {
        row := row + Written(write);
        saved := row;
      }
    }

    /** session.refresh of the token columns: flush first, then read them back. */
    method ReloadTokenFields()
      requires Valid()
      modifies this`row, this`current, this`original, this`locked
      ensures Valid() && Clean()
      ensures row == old(row) + old(Dirty(current, original))
      ensures old(Clean()) ==> row == old(row) && locked == old(locked)
      ensures forall f :: f in TOKEN_FIELDS ==> current[f] == row[f]
      ensures forall f :: f !in TOKEN_FIELDS ==> current[f] == old(current[f])
    {
      Flush();
      current := current + (map f | f in TOKEN_FIELDS :: row[f]);
    }
  }
}
