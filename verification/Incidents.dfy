/** analysis/repository.py and analysis/service.py: the incident projection and its alerts.

    An event is one analysed message. The incident row of a key keeps the chronologically latest
    state; alerts are history, and at most the alert of the current state may be open. */
module Incidents {
  import opened Wrappers
  import opened Ascii

  /** AlertType, and the one incident type that has no alert. */
  datatype Kind =
    | PaymentRejected | PaymentMethodExpired | RenewalDue
    | PasswordChanged | EmailChanged | VerificationCode | AccessAttempt | Security
    | AccountSuspended

  const PAYMENT_ALERT_VALUES: set<Kind> := {PaymentRejected, PaymentMethodExpired, RenewalDue}

  predicate IsAlertType(kind: Kind) {
    !kind.AccountSuspended?
  }

  /** Service names are ASCII. */
  type Name = s: string | forall c :: c in s ==> c as int < 128 witness ""

  datatype Names = Names(platform: Option<Name>, service: Option<Name>, category: Name)

  predicate IsKeyChar(c: char) { 'a' <= c <= 'z' || '0' <= c <= '9' }

  /** Lower case, and everything but letters and digits removed. */
  function Squeezed(s: string): string {
    if s == "" then ""
    else (if IsKeyChar(LowerChar(s[0])) then [LowerChar(s[0])] else "") + Squeezed(s[1..])
  }

  /** normalized_service_key: an empty name counts as missing, an empty key is "unknown". */
  function ServiceKey(names: Names): string {
    var platform, service := names.platform.GetOr(""), names.service.GetOr("");
    var key := Squeezed(if platform != "" then platform else if service != "" then service else names.category);
    if key == "" then "unknown" else key
  }

  /** The first name that is not NULL. */
  function Coalesced(names: Names): string {
    match names
    case Names(Some(platform), _, _) => platform
    case Names(None, Some(service), _) => service
    case Names(None, None, category) => category
  }

  /** The same key as the matching query computes it in SQL. */
  function SqlServiceKey(names: Names): string {
    Squeezed(Coalesced(names))
  }

  predicate KeysAgree(names: Names) {
    ServiceKey(names) == SqlServiceKey(names)
  }

  datatype IncidentStatus = Active | Resolved

  datatype Key = Key(tenant: nat, account: nat, service: string, kind: Kind)

  datatype Incident = Incident(status: IncidentStatus, analysis: nat, message: nat, at: int)

  /** An alert together with the columns of its analysis and message that the queries join. */
  datatype Alert = Alert(tenant: nat, account: nat, at: int, names: Names, resolvedAt: Option<int>)

  /** A processed message: when it happened, what was opened and resolved, and the alerts raised. */
  datatype Event = Event(
    tenant: nat, account: nat, message: nat, at: int, analysis: nat, names: Names,
    raises: set<Kind>, opens: set<Kind>, resolves: set<Kind>)

  type Alerts = map<(nat, Kind), Alert>

  datatype Board = Board(incidents: map<Key, Incident>, alerts: Alerts, analysed: set<nat>, analyses: set<nat>)

  const EMPTY := Board(map[], map[], {}, {})

  function KeyOf(e: Event, kind: Kind): Key {
    Key(e.tenant, e.account, ServiceKey(e.names), kind)
  }

  function AlertKey(alert: Alert, kind: Kind): Key {
    Key(alert.tenant, alert.account, ServiceKey(alert.names), kind)
  }

  function Get(incidents: map<Key, Incident>, key: Key): Option<Incident> {
    if key in incidents then Some(incidents[key]) else None
  }

  /** The WHERE clause of the upsert. */
  predicate Advances(row: Option<Incident>, status: IncidentStatus, at: int) {
    row.None? || at > row.value.at || (at == row.value.at && status == Resolved)
  }

  function Upserted(row: Option<Incident>, e: Event, status: IncidentStatus): Incident {
    if Advances(row, status, e.at) then Incident(status, e.analysis, e.message, e.at) else row.value
  }

  /** The row of one key after the opened half of an event, and after both halves. */
  function AfterOpened(row: Option<Incident>, e: Event, kind: Kind): Option<Incident> {
    if kind in e.opens then Some(Upserted(row, e, Active)) else row
  }

  function AfterEvent(row: Option<Incident>, e: Event, kind: Kind): Option<Incident> {
    if kind in e.resolves then Some(Upserted(AfterOpened(row, e, kind), e, Resolved)) else AfterOpened(row, e, kind)
  }

  /** The alerts _resolve_matching_alerts selects. */
  predicate Matches(alert: Alert, e: Event) {
    && alert.tenant == e.tenant && alert.account == e.account && alert.resolvedAt.None?
    && alert.at <= e.at && SqlServiceKey(alert.names) == ServiceKey(e.names)
  }

  function AlertAfterOpened(alert: Alert, analysis: nat, row: Option<Incident>, e: Event, kind: Kind): Alert {
    if kind !in e.opens || !IsAlertType(kind) then alert
    else if Advances(row, Active, e.at) then
      if Matches(alert, e) && analysis != e.analysis then alert.(resolvedAt := Some(e.at)) else alert
    else if alert.tenant == e.tenant && analysis == e.analysis && alert.resolvedAt.None? then
      alert.(resolvedAt := Some(Upserted(row, e, Active).at))
    else alert
  }

  function AlertAfterEvent(alert: Alert, analysis: nat, row: Option<Incident>, e: Event, kind: Kind): Alert {
    var first := AlertAfterOpened(alert, analysis, row, e, kind);
    if kind in e.resolves && IsAlertType(kind) && Advances(AfterOpened(row, e, kind), Resolved, e.at) && Matches(first, e)
    then first.(resolvedAt := Some(e.at)) else first
  }

  function Raised(e: Event): Alerts {
    map kind | kind in e.raises :: (e.analysis, kind) := Alert(e.tenant, e.account, e.at, e.names, None)
  }

  /** The kinds an event touches, each with its own incident key. */
  function Touched(e: Event): set<Key> {
    set kind | kind in e.opens + e.resolves :: KeyOf(e, kind)
  }

  function RowAfter(board: Board, e: Event, key: Key): Option<Incident> {
    var row := Get(board.incidents, key);
    if key == KeyOf(e, key.kind) then AfterEvent(row, e, key.kind) else row
  }

  /** reconcile_incidents, row by row and alert by alert. */
  function Reconciled(board: Board, e: Event): Board {
    board.(
      incidents := map key | key in board.incidents.Keys + Touched(e) && RowAfter(board, e, key).Some? ::
        RowAfter(board, e, key).value,
      alerts := map id | id in board.alerts ::
        AlertAfterEvent(board.alerts[id], id.0, Get(board.incidents, KeyOf(e, id.1)), e, id.1))
  }

  /** AnalysisService.process: a message that has an analysis already is only acknowledged. */
  function Processed(board: Board, e: Event): Board {
    if e.message in board.analysed then board
    else Reconciled(board.(alerts := board.alerts + Raised(e), analysed := board.analysed + {e.message},
                           analyses := board.analyses + {e.analysis}), e)
  }

  function Run(board: Board, events: seq<Event>): Board {
    if events == [] then board else Processed(Run(board, events[..|events| - 1]), events[|events| - 1])
  }

  lemma {:induction false} SqueezedIsClean(s: string)
    ensures Squeezed(s) == "" <==> forall c :: c in s ==> !IsKeyChar(LowerChar(c))
  {
    if s != "" {
      SqueezedIsClean(s[1..]);
      assert forall c :: c in s <==> c == s[0] || c in s[1..];
    }
  }

  /** The two key computations agree exactly when the first non-NULL name has a letter or digit. */
  lemma KeysAgreeExactly(names: Names)
    ensures KeysAgree(names) <==> exists c :: c in Coalesced(names) && IsKeyChar(LowerChar(c))
  {
    SqueezedIsClean(Coalesced(names));
    if Coalesced(names) == "" {
      assert Squeezed("") == "";
    }
  }

  // ---------------------------------------------------------------- order independence

  /** One opening or resolution of a key. */
  datatype Fact = Fact(at: int, status: IncidentStatus, analysis: nat)

  predicate Brings(e: Event, key: Key, fact: Fact) {
    && key == KeyOf(e, key.kind) && fact.at == e.at && fact.analysis == e.analysis
    && key.kind in (if fact.status == Active then e.opens else e.resolves)
  }

  ghost predicate IsFact(events: seq<Event>, key: Key, fact: Fact) {
    exists i :: 0 <= i < |events| && Brings(events[i], key, fact)
  }

  /** Later wins; at the same time a resolution wins. */
  predicate AtMost(f: Fact, g: Fact) {
    f.at < g.at || (f.at == g.at && (f.status == Active || g.status == Resolved))
  }

  /** The row is a maximal fact of its key, and absent exactly when the key has none. */
  ghost predicate IsMaximum(events: seq<Event>, key: Key, row: Option<Incident>) {
    && (row.None? ==> forall f :: !IsFact(events, key, f))
    && (row.Some? ==> var top := Fact(row.value.at, row.value.status, row.value.analysis);
                      IsFact(events, key, top) && forall f :: IsFact(events, key, f) ==> AtMost(f, top))
  }

  ghost predicate DistinctMessages(events: seq<Event>) {
    forall i, j :: 0 <= i < j < |events| ==> events[i].message != events[j].message
  }

  lemma {:induction false} AnalysedMessages(events: seq<Event>, message: nat)
    ensures message in Run(EMPTY, events).analysed <==> exists i :: 0 <= i < |events| && events[i].message == message
  {
    if events != [] {
      var rest := events[..|events| - 1];
      AnalysedMessages(rest, message);
      assert forall i :: 0 <= i < |rest| ==> rest[i] == events[i];
      if events[|events| - 1].message != message && message !in Run(EMPTY, rest).analysed {
        assert forall i :: 0 <= i < |events| ==> i == |rest| || events[i] == rest[i];
      }
    }
  }

  lemma FactsOfOneMore(rest: seq<Event>, e: Event, key: Key, fact: Fact)
    ensures IsFact(rest + [e], key, fact) <==> IsFact(rest, key, fact) || Brings(e, key, fact)
  {
    var events := rest + [e];
    assert forall i :: 0 <= i < |rest| ==> events[i] == rest[i];
    assert events[|rest|] == e;
    if IsFact(rest, key, fact) {
      var i :| 0 <= i < |rest| && Brings(rest[i], key, fact);
      assert Brings(events[i], key, fact);
    }
  }

  lemma MaximumOfOneMore(rest: seq<Event>, e: Event, key: Key, row: Option<Incident>)
    requires IsMaximum(rest, key, row)
    ensures IsMaximum(rest + [e], key, if key == KeyOf(e, key.kind) then AfterEvent(row, e, key.kind) else row)
  {
    forall fact
      ensures IsFact(rest + [e], key, fact) <==> IsFact(rest, key, fact) || Brings(e, key, fact)
    {
      FactsOfOneMore(rest, e, key, fact);
    }
    if key == KeyOf(e, key.kind) {
      assert key.kind in e.opens ==> Brings(e, key, Fact(e.at, Active, e.analysis));
      assert key.kind in e.resolves ==> Brings(e, key, Fact(e.at, Resolved, e.analysis));
    }
  }

  /** The incremental upsert computes the ranked maximum, whatever the order of the events. */
  lemma {:induction false} ProjectionIsMaximum(events: seq<Event>, key: Key)
    requires DistinctMessages(events)
    ensures IsMaximum(events, key, Get(Run(EMPTY, events).incidents, key))
  {
    if events != [] {
      var rest, e := events[..|events| - 1], events[|events| - 1];
      assert forall i :: 0 <= i < |rest| ==> rest[i] == events[i];
      ProjectionIsMaximum(rest, key);
      AnalysedMessages(rest, e.message);
      MaximumOfOneMore(rest, e, key, Get(Run(EMPTY, rest).incidents, key));
      assert events == rest + [e];
    }
  }

  /** Two orders of the same events leave every key in the same state at the same time. */
  lemma OrderDoesNotMatter(events: seq<Event>, shuffled: seq<Event>, key: Key)
    requires DistinctMessages(events) && DistinctMessages(shuffled) && multiset(events) == multiset(shuffled)
    ensures var a, b := Get(Run(EMPTY, events).incidents, key), Get(Run(EMPTY, shuffled).incidents, key);
            && (a.None? <==> b.None?)
            && (a.Some? ==> a.value.at == b.value.at && a.value.status == b.value.status)
  {
    ProjectionIsMaximum(events, key);
    ProjectionIsMaximum(shuffled, key);
    forall fact
      ensures IsFact(events, key, fact) <==> IsFact(shuffled, key, fact)
    {
      SameEventsSameFacts(events, shuffled, key, fact);
      SameEventsSameFacts(shuffled, events, key, fact);
    }
    var a, b := Get(Run(EMPTY, events).incidents, key), Get(Run(EMPTY, shuffled).incidents, key);
    if a.Some? && b.Some? {
      var top, other := Fact(a.value.at, a.value.status, a.value.analysis), Fact(b.value.at, b.value.status, b.value.analysis);
      assert IsFact(events, key, top) && IsFact(events, key, other);
      assert AtMost(top, other) && AtMost(other, top);
    }
  }

  lemma SameEventsSameFacts(events: seq<Event>, shuffled: seq<Event>, key: Key, fact: Fact)
    requires multiset(events) == multiset(shuffled)
    ensures IsFact(events, key, fact) ==> IsFact(shuffled, key, fact)
  {
    if IsFact(events, key, fact) {
      var i :| 0 <= i < |events| && Brings(events[i], key, fact);
      assert events[i] in multiset(events);
      assert events[i] in shuffled;
    }
  }

  /** The migration's ORDER BY: event time, resolved first, processing time, analysis id. */
  predicate Outranks(f: Fact, g: Fact, processedAt: map<nat, int>)
    requires f.analysis in processedAt && g.analysis in processedAt
  {
    || f.at > g.at
    || (f.at == g.at && f.status == Resolved && g.status == Active)
    || (f.at == g.at && f.status == g.status && processedAt[f.analysis] > processedAt[g.analysis])
    || (f.at == g.at && f.status == g.status && processedAt[f.analysis] == processedAt[g.analysis] && f.analysis >= g.analysis)
  }

  /** The row with position 1 in the partition of `key`. */
  ghost predicate RankedFirst(events: seq<Event>, key: Key, fact: Fact, processedAt: map<nat, int>)
    requires forall i :: 0 <= i < |events| ==> events[i].analysis in processedAt
  {
    && IsFact(events, key, fact)
    && forall g :: IsFact(events, key, g) ==>
         g.analysis in processedAt && fact.analysis in processedAt && Outranks(fact, g, processedAt)
  }

  /** Batch and incremental projection agree on status and time; on the analysis up to ties. */
  lemma MigrationPicksTheSameState(events: seq<Event>, key: Key, fact: Fact, processedAt: map<nat, int>)
    requires DistinctMessages(events)
    requires forall i :: 0 <= i < |events| ==> events[i].analysis in processedAt
    requires RankedFirst(events, key, fact, processedAt)
    ensures key in Run(EMPTY, events).incidents
    ensures var row := Run(EMPTY, events).incidents[key];
            && row.status == fact.status && row.at == fact.at
            && IsFact(events, key, Fact(fact.at, fact.status, row.analysis))
  {
    ProjectionIsMaximum(events, key);
  }

  // ---------------------------------------------------------------- alerts agree with incidents

  /** incident_transition opens a payment or renewal kind exactly when an alert of it is raised,
      and otherwise only speaks about suspension. */
  ghost predicate FromTransition(e: Event) {
    && (forall kind :: kind in PAYMENT_ALERT_VALUES ==> (kind in e.opens <==> kind in e.raises))
    && e.opens + e.resolves <= PAYMENT_ALERT_VALUES + {AccountSuspended}
  }

  /** The open alert of a key is the alert of its current, active state. */
  ghost predicate OpenIsCurrent(board: Board, id: (nat, Kind)) {
    id in board.alerts && board.alerts[id].resolvedAt.None? && id.1 in PAYMENT_ALERT_VALUES ==>
      var key := AlertKey(board.alerts[id], id.1);
      && key in board.incidents
      && board.incidents[key].status == Active && board.incidents[key].analysis == id.0
      && board.incidents[key].at == board.alerts[id].at
  }

  /** An active payment or renewal incident has the open alert of its analysis. */
  ghost predicate CurrentIsOpen(board: Board, key: Key) {
    key in board.incidents && board.incidents[key].status == Active && key.kind in PAYMENT_ALERT_VALUES ==>
      var id := (board.incidents[key].analysis, key.kind);
      id in board.alerts && board.alerts[id].resolvedAt.None? && AlertKey(board.alerts[id], key.kind) == key
  }

  ghost predicate NotBackdated(board: Board, id: (nat, Kind)) {
    id in board.alerts && board.alerts[id].resolvedAt.Some? ==> board.alerts[id].resolvedAt.value >= board.alerts[id].at
  }

  ghost predicate Agreement(board: Board) {
    && (forall id :: OpenIsCurrent(board, id))
    && (forall key :: CurrentIsOpen(board, key))
    && (forall id :: NotBackdated(board, id))
  }

  /** Bookkeeping the induction needs. */
  ghost predicate Known(board: Board) {
    && (forall id :: id in board.alerts ==> id.0 in board.analyses && KeysAgree(board.alerts[id].names))
    && (forall key :: key in board.incidents ==> board.incidents[key].analysis in board.analyses)
  }

  /** An event of another key leaves an older alert alone: this is where the two computations of
      the service key have to agree. */
  lemma ForeignAlertUntouched(alert: Alert, analysis: nat, row: Option<Incident>, e: Event, kind: Kind)
    requires KeysAgree(alert.names) && AlertKey(alert, kind) != KeyOf(e, kind) && analysis != e.analysis
    ensures AlertAfterEvent(alert, analysis, row, e, kind) == alert
  {
  }

  /** One key and one of its alerts, before and after an event of the key. */
  lemma OwnAlertFollowsRow(alert: Alert, analysis: nat, row: Option<Incident>, e: Event, kind: Kind)
    requires kind in PAYMENT_ALERT_VALUES && KeysAgree(alert.names) && AlertKey(alert, kind) == KeyOf(e, kind)
    requires analysis == e.analysis ==> kind in e.opens && alert.at == e.at && alert.resolvedAt.None?
    requires analysis != e.analysis && alert.resolvedAt.None? ==>
      row.Some? && row.value.status == Active && row.value.analysis == analysis && row.value.at == alert.at
    ensures var after, row' := AlertAfterEvent(alert, analysis, row, e, kind), AfterEvent(row, e, kind);
            && after == alert.(resolvedAt := after.resolvedAt)
            && (after.resolvedAt.None? ==>
                 row'.Some? && row'.value.status == Active && row'.value.analysis == analysis && row'.value.at == after.at)
  {
  }

  /** Conversely the alert of a state that stays, or of a state just opened, stays open. */
  lemma CurrentAlertStaysOpen(alert: Alert, analysis: nat, row: Option<Incident>, e: Event, kind: Kind)
    requires kind in PAYMENT_ALERT_VALUES && alert.resolvedAt.None? && AlertKey(alert, kind) == KeyOf(e, kind)
    requires row.Some? ==> row.value.analysis != e.analysis
    requires var row' := AfterEvent(row, e, kind);
             row'.Some? && row'.value.status == Active && row'.value.analysis == analysis
    ensures AlertAfterEvent(alert, analysis, row, e, kind) == alert
  {
  }

  lemma EventKeepsOpenCurrent(board: Board, e: Event, id: (nat, Kind))
    requires Agreement(board) && Known(board) && KeysAgree(e.names) && FromTransition(e) && e.analysis !in board.analyses
    requires e.message !in board.analysed
    ensures OpenIsCurrent(Processed(board, e), id)
  {
    var alerts := board.alerts + Raised(e);
    if id in alerts && id.1 in PAYMENT_ALERT_VALUES {
      assert OpenIsCurrent(board, id);
      var key := AlertKey(alerts[id], id.1);
      var row := Get(board.incidents, KeyOf(e, id.1));
      if key == KeyOf(e, id.1) {
        OwnAlertFollowsRow(alerts[id], id.0, row, e, id.1);
      } else {
        ForeignAlertUntouched(alerts[id], id.0, row, e, id.1);
      }
    }
  }

  lemma EventKeepsCurrentOpen(board: Board, e: Event, key: Key)
    requires Agreement(board) && Known(board) && KeysAgree(e.names) && FromTransition(e) && e.analysis !in board.analyses
    requires e.message !in board.analysed
    ensures CurrentIsOpen(Processed(board, e), key)
  {
    var after := Processed(board, e);
    if key in after.incidents && after.incidents[key].status == Active && key.kind in PAYMENT_ALERT_VALUES {
      assert CurrentIsOpen(board, key);
      var analysis := after.incidents[key].analysis;
      var alerts := board.alerts + Raised(e);
      var id := (analysis, key.kind);
      var row := Get(board.incidents, KeyOf(e, key.kind));
      if key == KeyOf(e, key.kind) {
        if analysis == e.analysis {
          assert key.kind in e.opens;
          assert id in Raised(e);
        } else {
          assert id !in Raised(e) && Get(board.incidents, key) == Some(after.incidents[key]);
        }
        assert id in alerts && alerts[id].resolvedAt.None? && AlertKey(alerts[id], key.kind) == key;
        CurrentAlertStaysOpen(alerts[id], analysis, row, e, key.kind);
      } else {
        assert id in board.alerts && id !in Raised(e);
        ForeignAlertUntouched(alerts[id], analysis, row, e, key.kind);
      }
    }
  }

  lemma EventKeepsDates(board: Board, e: Event, id: (nat, Kind))
    requires Agreement(board) && Known(board) && e.analysis !in board.analyses
    ensures NotBackdated(Processed(board, e), id)
  {
    assert NotBackdated(board, id);
  }

  /** Analyses are new for every event; a message may be delivered again. */
  ghost predicate NewAnalyses(events: seq<Event>) {
    && (forall i, j :: 0 <= i < j < |events| ==> events[i].analysis != events[j].analysis)
    && (forall i :: 0 <= i < |events| ==> FromTransition(events[i]))
  }

  lemma EventKeepsAgreement(board: Board, e: Event)
    requires Agreement(board) && Known(board) && KeysAgree(e.names) && FromTransition(e)
    requires e.message !in board.analysed ==> e.analysis !in board.analyses
    ensures Agreement(Processed(board, e))
  {
    if e.message !in board.analysed {
      var after := Processed(board, e);
      forall id: (nat, Kind)
        ensures OpenIsCurrent(after, id)
      {
        EventKeepsOpenCurrent(board, e, id);
      }
      forall key: Key
        ensures CurrentIsOpen(after, key)
      {
        EventKeepsCurrentOpen(board, e, key);
      }
      forall id: (nat, Kind)
        ensures NotBackdated(after, id)
      {
        EventKeepsDates(board, e, id);
      }
    }
  }

  lemma {:induction false} AnalysesComeFromEvents(events: seq<Event>, analysis: nat)
    ensures analysis in Run(EMPTY, events).analyses ==> exists i :: 0 <= i < |events| && events[i].analysis == analysis
  {
    if events != [] {
      var rest, e := events[..|events| - 1], events[|events| - 1];
      AnalysesComeFromEvents(rest, analysis);
      assert forall i :: 0 <= i < |rest| ==> rest[i] == events[i];
      assert analysis in Run(EMPTY, events).analyses ==> analysis in Run(EMPTY, rest).analyses || analysis == e.analysis;
    }
  }

  lemma {:induction false} RunAgrees(events: seq<Event>)
    requires NewAnalyses(events) && forall i :: 0 <= i < |events| ==> KeysAgree(events[i].names)
    ensures Agreement(Run(EMPTY, events)) && Known(Run(EMPTY, events))
  {
    if events != [] {
      var rest, e := events[..|events| - 1], events[|events| - 1];
      assert forall i :: 0 <= i < |rest| ==> rest[i] == events[i];
      RunAgrees(rest);
      AnalysesComeFromEvents(rest, e.analysis);
      EventKeepsAgreement(Run(EMPTY, rest), e);
      EventKeepsKnown(Run(EMPTY, rest), e);
    }
  }

  lemma EventKeepsAlertKnown(board: Board, e: Event, id: (nat, Kind))
    requires Known(board) && KeysAgree(e.names) && id in Processed(board, e).alerts
    ensures id.0 in Processed(board, e).analyses && KeysAgree(Processed(board, e).alerts[id].names)
  {
    if e.message !in board.analysed {
      var alerts := board.alerts + Raised(e);
      assert Processed(board, e).alerts[id].names == alerts[id].names;
    }
  }

  lemma EventKeepsRowKnown(board: Board, e: Event, key: Key)
    requires Known(board) && key in Processed(board, e).incidents
    ensures Processed(board, e).incidents[key].analysis in Processed(board, e).analyses
  {
    if e.message !in board.analysed {
      assert key in board.incidents ==> board.incidents[key].analysis in board.analyses;
    }
  }

  lemma EventKeepsKnown(board: Board, e: Event)
    requires Known(board) && KeysAgree(e.names)
    ensures Known(Processed(board, e))
  {
    var after := Processed(board, e);
    forall id | id in after.alerts
      ensures id.0 in after.analyses && KeysAgree(after.alerts[id].names)
    {
      EventKeepsAlertKnown(board, e, id);
    }
    forall key | key in after.incidents
      ensures after.incidents[key].analysis in after.analyses
    {
      EventKeepsRowKnown(board, e, key);
    }
  }

  /** Hence a key never has two open alerts, and one exactly while it is active. */
  lemma OneOpenAlertPerActiveIncident(events: seq<Event>, id: (nat, Kind), other: (nat, Kind))
    requires NewAnalyses(events) && forall i :: 0 <= i < |events| ==> KeysAgree(events[i].names)
    requires var alerts := Run(EMPTY, events).alerts;
             && id in alerts && other in alerts && id.1 == other.1 && id.1 in PAYMENT_ALERT_VALUES
             && alerts[id].resolvedAt.None? && alerts[other].resolvedAt.None?
             && AlertKey(alerts[id], id.1) == AlertKey(alerts[other], id.1)
    ensures id == other
    ensures Run(EMPTY, events).incidents.Keys >= {AlertKey(Run(EMPTY, events).alerts[id], id.1)}
    ensures Run(EMPTY, events).incidents[AlertKey(Run(EMPTY, events).alerts[id], id.1)].status == Active
  {
    RunAgrees(events);
    assert OpenIsCurrent(Run(EMPTY, events), id) && OpenIsCurrent(Run(EMPTY, events), other);
  }

  /** The alerts the migration's UPDATE would close, given the projected incidents. */
  ghost predicate MigrationCloses(board: Board, id: (nat, Kind)) {
    && id in board.alerts && board.alerts[id].resolvedAt.None?
    && var alert := board.alerts[id];
       var key := Key(alert.tenant, alert.account, SqlServiceKey(alert.names), id.1);
       && key in board.incidents && alert.at <= board.incidents[key].at
       && (board.incidents[key].status == Resolved || id.0 != board.incidents[key].analysis)
  }

  /** Processing event by event leaves nothing for the migration's clean-up to close. */
  lemma MigrationClosesNothingMore(events: seq<Event>, id: (nat, Kind))
    requires NewAnalyses(events) && (forall i :: 0 <= i < |events| ==> KeysAgree(events[i].names))
    requires id.1 in PAYMENT_ALERT_VALUES
    ensures !MigrationCloses(Run(EMPTY, events), id)
  {
    RunAgrees(events);
    assert OpenIsCurrent(Run(EMPTY, events), id);
  }

  ghost predicate AllNamed(events: seq<Event>, names: Names) {
    forall i :: 0 <= i < |events| ==> events[i].names == names
  }

  /** Alerts agree with incidents in every run over one service if and only if its names give
      the same key in Python and in SQL. */
  lemma AgreementExactlyWhenKeysAgree(names: Names)
    ensures KeysAgree(names) <==>
      forall events :: NewAnalyses(events) && AllNamed(events, names) ==> Agreement(Run(EMPTY, events))
  {
    if KeysAgree(names) {
      forall events | NewAnalyses(events) && AllNamed(events, names)
        ensures Agreement(Run(EMPTY, events))
      {
        RunAgrees(events);
      }
    } else {
      var events := TwoRejections(names);
      assert !OpenIsCurrent(Run(EMPTY, events), (1, PaymentRejected));
    }
  }

  lemma RunOfOne(e: Event)
    ensures Run(EMPTY, [e]) == Processed(EMPTY, e)
  {
    var none: seq<Event> := [];
    assert [e][..0] == none && Run(EMPTY, none) == EMPTY;
  }

  function Rejection(n: nat, names: Names): Event {
    Event(0, 0, n, 10 * n, n, names, {PaymentRejected}, {PaymentRejected}, {})
  }

  lemma RejectionsAreEvents(names: Names)
    ensures NewAnalyses([Rejection(1, names), Rejection(2, names)])
    ensures AllNamed([Rejection(1, names), Rejection(2, names)], names)
  {
  }

  lemma FirstRejection(names: Names)
    ensures var one := Processed(EMPTY, Rejection(1, names));
            && Get(one.incidents, KeyOf(Rejection(1, names), PaymentRejected)) == Some(Incident(Active, 1, 1, 10))
            && (1, PaymentRejected) in one.alerts && one.alerts[(1, PaymentRejected)] == Alert(0, 0, 10, names, None)
            && one.analysed == {1}
  {
  }

  lemma SecondRejection(names: Names, one: Board)
    requires !KeysAgree(names) && one.analysed == {1}
    requires Get(one.incidents, KeyOf(Rejection(1, names), PaymentRejected)) == Some(Incident(Active, 1, 1, 10))
    requires (1, PaymentRejected) in one.alerts && one.alerts[(1, PaymentRejected)] == Alert(0, 0, 10, names, None)
    ensures !OpenIsCurrent(Processed(one, Rejection(2, names)), (1, PaymentRejected))
  {
    var e := Rejection(2, names);
    var two, key := Processed(one, e), KeyOf(e, PaymentRejected);
    assert key == KeyOf(Rejection(1, names), PaymentRejected);
    assert two.incidents[key] == Incident(Active, 2, 2, 20);
    assert two.alerts[(1, PaymentRejected)] == Alert(0, 0, 10, names, None);
  }

  /** Two rejected payments in a row: the second one fails to close the alert of the first. */
  lemma TwoRejections(names: Names) returns (events: seq<Event>)
    requires !KeysAgree(names)
    ensures NewAnalyses(events) && AllNamed(events, names)
    ensures !OpenIsCurrent(Run(EMPTY, events), (1, PaymentRejected))
  {
    var first, second := Rejection(1, names), Rejection(2, names);
    events := [first, second];
    assert events[..1] == [first];
    RejectionsAreEvents(names);
    RunOfOne(first);
    FirstRejection(names);
    SecondRejection(names, Run(EMPTY, [first]));
    assert Run(EMPTY, events) == Processed(Run(EMPTY, [first]), second);
  }
}
