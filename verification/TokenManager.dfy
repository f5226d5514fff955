/** token_manager.py: one call of access_token, seen from the caller's own session.
    How concurrent calls exclude each other is the subject of RefreshProtocol. */
module TokenManager {
  import opened Wrappers
  import opened AuthState
  import opened MailStore

  datatype ErrorKind =
    | InvalidGrant | Transient | AuthorizationChanged | AccountUnavailable
    | HistoryExpired | DeltaExpired | MessageNotFound | Unexpected
    | Killed  // the process dies, or the session is unusable: no handler's write survives

  /** `stamp` is the _mail_expected_grant attribute of a failed token exchange. */
  datatype Failure = Failure(kind: ErrorKind, stamp: Option<string>)

  /** What the provider's token endpoint answered; a rotated refresh token arrives encrypted. */
  datatype Exchange = Refused(kind: ErrorKind) | Granted(access: string, rotated: Option<string>, expires: int)

  function TokenColumns(answer: Exchange): Columns
    requires answer.Granted?
  {
    var tokens: Columns := map[AccessToken := Text(answer.access), AccessTokenExpiresAt := Time(answer.expires)];
    if answer.rotated.Some? then tokens[RefreshToken := Text(answer.rotated.value)] else tokens
  }

  lemma TokenColumnsKeepTheRest(columns: Columns, answer: Exchange)
    requires WellTyped(columns) && answer.Granted?
    ensures WellTyped(columns + TokenColumns(answer))
    ensures (columns + TokenColumns(answer))[HistoryCursor] == columns[HistoryCursor]
    ensures (columns + TokenColumns(answer))[AuthState.AccessToken] == Text(answer.access)
  {
  }

  /** The stored access token may be used: two minutes of life left and not the rejected one. */
  predicate Usable(columns: Columns, rejected: Option<string>, now: int)
    requires Complete(columns)
  {
    && columns[AccessToken].Text? && columns[AccessToken].text != ""
    && columns[AccessTokenExpiresAt].Time? && columns[AccessTokenExpiresAt].time > now + 120
    && rejected != Some(columns[AccessToken].text)
  }

  class AccountTokenManager<M(==,!new), K(!new)> {
    const repository: MailRepository<M, K>

    constructor (repository: MailRepository<M, K>)
      ensures this.repository == repository
    {
      this.repository := repository;
    }

    /** The call to the token endpoint; other requests go on meanwhile. An answer that gets lost looks
        like a transient refusal, whether or not the provider rotated the grant. */
    method Exchange() returns (answer: Exchange)
      requires repository.Steady()
      modifies repository, repository.session
      ensures repository.Steady() && Undisturbed(old(repository.Snap()), repository.Snap())
      ensures answer.Refused? ==> answer.kind in {InvalidGrant, Transient, Unexpected}
      ensures repository.session.current == old(repository.session.current)
    {
      repository.Meanwhile();
      if * {
        var kind: ErrorKind := *;
        answer := Refused(if kind in {InvalidGrant, Transient} then kind else Unexpected);
      } else {
        var access, rotated, expires := *, *, *;
        answer := Granted(access, rotated, expires);
      }
    }

    /** Waiting for the refresh lock, then reading the committed credentials. */
    method Reread()
      requires repository.Steady()
      modifies repository, repository.session
      ensures repository.Steady()
      ensures Undisturbed(old(repository.Snap()), repository.Snap())
      ensures forall f :: f in TOKEN_FIELDS ==> repository.session.current[f] == repository.session.row[f]
    {
      repository.Meanwhile();
      repository.session.ReloadTokenFields();
    }

    /** The new tokens replace the grant they were exchanged for, and are committed at once. The
        write or the commit may raise, before or after it took effect. */
    method Publish(expectedGrant: string, answer: Exchange) returns (r: Result<bool, Failure>)
      requires repository.Steady() && answer.Granted?
      modifies repository, repository.session
      ensures repository.Steady()
      ensures Undisturbed(old(repository.Snap()), repository.Snap())
      ensures r.Ok? ==> (r.value <==> old(Admits(repository.session.row, expectedGrant, TokenColumns(answer))))
      ensures r.Ok? && r.value ==>
        && repository.session.saved == repository.session.row == old(repository.session.row) + TokenColumns(answer)
        && !repository.session.locked
      ensures r.Ok? && !r.value ==> repository.session.row == old(repository.session.row) == repository.session.current
      ensures r.Err? ==> r.error == Failure(Killed, None)
      ensures !old(Admits(repository.session.row, expectedGrant, TokenColumns(answer))) ==>
        repository.session.row == old(repository.session.row)
    {
      if * {
        return Err(Failure(Killed, None));
      }
      TokenColumnsKeepTheRest(repository.session.row, answer);
      TokenColumnsKeepTheRest(repository.session.current, answer);
      CleanIsRestored(repository.session.current, repository.session.original);
      var applied := repository.session.UpdateAccountIfCurrent(expectedGrant, TokenColumns(answer));
      if applied {
        if * {
          return Err(Failure(Killed, None));
        }
        repository.Commit();
        if * {
          return Err(Failure(Killed, None));
        }
      }
      return Ok(applied);
    }

    /** `exchanged` is the grant that was read under the lock and sent to the provider, if any. */
    method AccessToken(rejected: Option<string>, now: int) returns (r: Result<string, Failure>, ghost exchanged: Option<string>)
      requires repository.Steady()
      modifies repository, repository.session
      ensures repository.Steady()
      ensures Undisturbed(old(repository.Snap()), repository.Snap())
      ensures r.Ok? ==> repository.session.row[AuthState.AccessToken] == Text(r.value)
      ensures r.Ok? ==> if exchanged.None? then Usable(repository.session.row, rejected, now)
                        else repository.session.saved == repository.session.row && !repository.session.locked
      ensures r.Err? && r.error.stamp.Some? ==>
        r.error.stamp == exchanged && repository.session.current[RefreshToken] == Text(exchanged.value)
      ensures r.Err? && r.error.kind == InvalidGrant ==> r.error.stamp.Some?
      ensures r.Err? && r.error.kind == AccountUnavailable ==>
        || repository.session.row[AccountStatus] in {Mode(Disconnected), Mode(ReauthRequired)}
        || repository.session.row[RefreshToken] == Text("")
      ensures r.Err? ==> r.error.kind in {InvalidGrant, Transient, Unexpected, AuthorizationChanged, AccountUnavailable, Killed}
    {
      ghost var start := repository.Snap();
      exchanged := None;
      if * {
        r := Err(Failure(Unexpected, None));  // the refresh lock stayed busy
        return;
      }
      if * {
        r := Err(Failure(Killed, None));
        return;
      }
      Reread();
      if repository.session.current[AccountStatus].status in {Disconnected, ReauthRequired} {
        r := Err(Failure(AccountUnavailable, None));
        return;
      }
      if repository.session.current[RefreshToken].text == "" {
        r := Err(Failure(AccountUnavailable, None));
        return;
      }
      if Usable(repository.session.current, rejected, now) {
        r := Ok(repository.session.current[AuthState.AccessToken].text);
        return;
      }
      var expectedGrant := repository.session.current[RefreshToken].text;
      exchanged := Some(expectedGrant);
      ghost var reread := repository.Snap();
      var answer := Exchange();
      UndisturbedIsTransitive(start, reread, repository.Snap());
      if answer.Refused? {
        r := Err(Failure(answer.kind, Some(expectedGrant)));
        return;
      }
      ghost var before := repository.Snap();
      var applied := Publish(expectedGrant, answer);
      UndisturbedIsTransitive(start, before, repository.Snap());
      if applied.Err? {
        r := Err(applied.error);
      } else if !applied.value {
        r := Err(Failure(AuthorizationChanged, None));
      } else {
        r := Ok(answer.access);
      }
    }
  }
}
