/** analysis/service.py and the row-changing half of analysis/repository.py: from the model's answer
    on one message to the incident rows and alerts it leaves behind. */
module AnalysisService {
  import opened Wrappers
  import opened Ascii
  import opened Incidents

  datatype RiskLevel = Low | Medium | High | Critical

  /** What the subject, snippet and body contain of each marker list. */
  datatype Text = Text(confirmed: bool, failed: bool, renewed: bool, reactivated: bool)

  type AlertType = kind: Kind | IsAlertType(kind) witness Security

  const PAYMENT_TYPES: set<string> := {
    "payment_updated", "payment_update_notice", "payment_approved", "payment_accepted", "payment_successful"}
  const RENEWAL_TYPES: set<string> := {"renewed", "renewal_completed", "subscription_renewed"}
  const REACTIVATION_TYPES: set<string> := {"account_reactivated", "account_active"}

  function TypeChar(c: char): char {
    if c == '-' || c == ' ' then '_' else LowerChar(c)
  }

  function NormalizedType(emailType: string): string {
    seq(|emailType|, i requires 0 <= i < |emailType| => TypeChar(emailType[i]))
  }

  predicate Contains(s: string, token: string) {
    exists i :: 0 <= i <= |s| && token <= s[i..]
  }

  predicate Suspends(emailType: string) {
    Contains(NormalizedType(emailType), "account_suspended") || Contains(NormalizedType(emailType), "account_disabled")
  }

  function Opened(alertTypes: seq<AlertType>, emailType: string): set<Kind> {
    (set kind | kind in alertTypes && kind in PAYMENT_ALERT_VALUES)
    + (if Suspends(emailType) then {AccountSuspended} else {})
  }

  function Resolved(emailType: string, text: Text): set<Kind> {
    var type' := NormalizedType(emailType);
    (if (type' in PAYMENT_TYPES || text.confirmed) && !text.failed then PAYMENT_ALERT_VALUES else {})
    + (if type' in RENEWAL_TYPES || text.renewed then {RenewalDue} else {})
    + (if type' in REACTIVATION_TYPES || text.reactivated then {AccountSuspended} else {})
  }

  function Remaining(alertTypes: seq<AlertType>): (kept: seq<AlertType>)
    ensures forall kind :: kind in kept <==> kind in alertTypes && kind !in PAYMENT_ALERT_VALUES
    ensures |kept| <= |alertTypes|
    ensures |kept| == |alertTypes| <==> forall kind :: kind in alertTypes ==> kind !in PAYMENT_ALERT_VALUES
    ensures |kept| == |alertTypes| ==> kept == alertTypes
  {
    if alertTypes == [] then []
    else
      var rest := Remaining(alertTypes[1..]);
      assert forall kind :: kind in alertTypes <==> kind == alertTypes[0] || kind in alertTypes[1..];
      if alertTypes[0] in PAYMENT_ALERT_VALUES then rest else [alertTypes[0]] + rest
  }

  /** dict.fromkeys: a repeated key keeps its first position. */
  function FromKeys(alertTypes: seq<AlertType>): seq<AlertType> {
    if alertTypes == [] then []
    else
      var rest, last := FromKeys(alertTypes[..|alertTypes| - 1]), alertTypes[|alertTypes| - 1];
      if last in rest then rest else rest + [last]
  }

  predicate NoDuplicates(kinds: seq<AlertType>) {
    forall i, j :: 0 <= i < j < |kinds| ==> kinds[i] != kinds[j]
  }

  /** kinds[k] is first seen in `all` at position at[k], and the positions grow. */
  ghost predicate FirstSeen(all: seq<AlertType>, kinds: seq<AlertType>, at: seq<nat>) {
    && |at| == |kinds|
    && (forall k :: 0 <= k < |at| ==> at[k] < |all| && all[at[k]] == kinds[k] && kinds[k] !in all[..at[k]])
    && (forall k, l :: 0 <= k < l < |at| ==> at[k] < at[l])
  }

  /** Deduplication loses no type, repeats none, and keeps the order of first appearance. */
  lemma {:induction false} DeduplicationKeepsOrder(all: seq<AlertType>) returns (at: seq<nat>)
    ensures NoDuplicates(FromKeys(all))
    ensures forall kind :: kind in FromKeys(all) <==> kind in all
    ensures FirstSeen(all, FromKeys(all), at)
  {
    if all == [] {
      at := [];
    } else {
      var front, last := all[..|all| - 1], all[|all| - 1];
      at := DeduplicationKeepsOrder(front);
      assert all == front + [last];
      assert forall k :: 0 <= k < |at| ==> all[..at[k]] == front[..at[k]];
      if last !in FromKeys(front) {
        at := at + [|front|];
        assert all[..|front|] == front;
      }
    }
  }

  /** One answer of the analysis client, changed in place before it is stored. */
  class AnalysisResult {
    const names: Names
    var alertTypes: seq<AlertType>
    var emailType: string
    var actionRequired: Option<string>
    var priority: string
    var riskLevel: RiskLevel

    constructor (names: Names, alertTypes: seq<AlertType>, emailType: string, actionRequired: Option<string>,
                 priority: string, riskLevel: RiskLevel)
      ensures this.names == names && this.alertTypes == alertTypes && this.emailType == emailType
      ensures this.actionRequired == actionRequired && this.priority == priority && this.riskLevel == riskLevel
    {
      this.names, this.alertTypes, this.emailType := names, alertTypes, emailType;
      this.actionRequired, this.priority, this.riskLevel := actionRequired, priority, riskLevel;
    }

    /** A confirmed payment raises no payment alert, whatever the model answered. */
    method SuppressConfirmedPaymentAlerts(text: Text) returns (suppressed: bool)
      modifies this
      ensures suppressed <==> text.confirmed && !text.failed
                              && exists kind :: kind in old(alertTypes) && kind in PAYMENT_ALERT_VALUES
      ensures !suppressed ==>
        && alertTypes == old(alertTypes) && emailType == old(emailType) && actionRequired == old(actionRequired)
        && priority == old(priority) && riskLevel == old(riskLevel)
      ensures suppressed ==>
        && alertTypes == Remaining(old(alertTypes)) && emailType == "payment_updated" && actionRequired == None
        && priority == (if alertTypes == [] then "baja" else old(priority))
        && riskLevel == (if alertTypes == [] then Low else old(riskLevel))
    {
      if !text.confirmed || text.failed {
        return false;
      }
      var remaining := Remaining(alertTypes);
      if |remaining| == |alertTypes| {
        return false;
      }
      alertTypes, actionRequired, emailType := remaining, None, "payment_updated";
      if remaining == [] {
        priority, riskLevel := "baja", Low;
      }
      return true;
    }

    method DeduplicateAlertTypes()
      modifies this`alertTypes
      ensures alertTypes == FromKeys(old(alertTypes))
    {
      alertTypes := FromKeys(alertTypes);
    }
  }

  /** A stored message, with received_at or else created_at. */
  datatype Message = Message(tenant: nat, account: nat, id: nat, at: int)

  function KindsOf(alertTypes: seq<AlertType>): set<Kind> {
    set kind | kind in alertTypes
  }

  function EventOf(message: Message, analysis: nat, names: Names, alertTypes: seq<AlertType>, emailType: string,
                   text: Text): Event {
    Event(message.tenant, message.account, message.id, message.at, analysis, names,
          KindsOf(alertTypes), Opened(alertTypes, emailType), Resolved(emailType, text))
  }

  /** Every processed message opens payment incidents for exactly the payment alerts it raises. */
  lemma EventsComeFromTransitions(message: Message, analysis: nat, names: Names, alertTypes: seq<AlertType>,
                                  emailType: string, text: Text)
    ensures FromTransition(EventOf(message, analysis, names, alertTypes, emailType, text))
  {
    var e := EventOf(message, analysis, names, alertTypes, emailType, text);
    assert Resolved(emailType, text) <= PAYMENT_ALERT_VALUES + {AccountSuspended};
    forall kind | kind in PAYMENT_ALERT_VALUES
      ensures kind in e.opens <==> kind in e.raises
    {
    }
  }

  /** After suppression, a payment alert is opened and resolved by one message exactly when its type
      alone confirms the payment, or announces the renewal. */
  lemma OpensAndResolves(alertTypes: seq<AlertType>, emailType: string, text: Text, kind: Kind)
    requires kind in PAYMENT_ALERT_VALUES
    requires text.confirmed && !text.failed ==> forall k :: k in alertTypes ==> k !in PAYMENT_ALERT_VALUES
    ensures kind in Opened(alertTypes, emailType) && kind in Resolved(emailType, text) <==>
              && kind in alertTypes
              && (|| (NormalizedType(emailType) in PAYMENT_TYPES && !text.confirmed && !text.failed)
                  || (kind == RenewalDue && (NormalizedType(emailType) in RENEWAL_TYPES || text.renewed)))
  {
  }

  // ---------------------------------------------------------------- the loops of reconcile_incidents

  /** The two loops, as events that open or resolve only what has been visited so far. */
  function Opening(e: Event, done: set<Kind>): Event { e.(opens := done, resolves := {}) }
  function Resolving(e: Event, done: set<Kind>): Event { e.(resolves := done) }

  function WithRow(board: Board, key: Key, row: Incident): Board {
    board.(incidents := board.incidents[key := row])
  }

  /** The alerts a chosen column value is written to. */
  function Closed(alerts: Alerts, ids: set<(nat, Kind)>, at: int): Alerts {
    map id | id in alerts :: if id in ids then alerts[id].(resolvedAt := Some(at)) else alerts[id]
  }

  function MatchingIds(alerts: Alerts, e: Event, kind: Kind, excludeCurrent: bool): set<(nat, Kind)> {
    set id | id in alerts && id.1 == kind && Matches(alerts[id], e) && (excludeCurrent ==> id.0 != e.analysis)
  }

  function OwnIds(alerts: Alerts, e: Event, kind: Kind): set<(nat, Kind)> {
    set id | id in alerts && id.1 == kind && id.0 == e.analysis && alerts[id].tenant == e.tenant && alerts[id].resolvedAt.None?
  }

  /** One turn of the first loop. */
  function OpenOne(board: Board, e: Event, kind: Kind): Board {
    var key, row := KeyOf(e, kind), Get(board.incidents, KeyOf(e, kind));
    if Advances(row, Active, e.at) then
      WithRow(board, key, Upserted(row, e, Active)).(
        alerts := if IsAlertType(kind) then Closed(board.alerts, MatchingIds(board.alerts, e, kind, true), e.at)
                  else board.alerts)
    else
      board.(alerts := if IsAlertType(kind) then Closed(board.alerts, OwnIds(board.alerts, e, kind), row.value.at)
                       else board.alerts)
  }

  /** One turn of the second loop. */
  function ResolveOne(board: Board, e: Event, kind: Kind): Board {
    var key, row := KeyOf(e, kind), Get(board.incidents, KeyOf(e, kind));
    if Advances(row, IncidentStatus.Resolved, e.at) then
      WithRow(board, key, Upserted(row, e, IncidentStatus.Resolved)).(
        alerts := if IsAlertType(kind) then Closed(board.alerts, MatchingIds(board.alerts, e, kind, false), e.at)
                  else board.alerts)
    else board
  }

  lemma RowOf(board: Board, e: Event, key: Key)
    ensures Get(Reconciled(board, e).incidents, key) == RowAfter(board, e, key)
  {
    if key !in board.incidents.Keys + Touched(e) {
      assert RowAfter(board, e, key) == None;
    }
  }

  lemma SameRows(a: map<Key, Incident>, b: map<Key, Incident>)
    requires forall key: Key :: Get(a, key) == Get(b, key)
    ensures a == b
  {
    assert forall key: Key :: key in a <==> Get(a, key).Some?;
    assert forall key: Key :: key in b <==> Get(b, key).Some?;
    assert forall key: Key :: key in a ==> a[key] == Get(a, key).value;
    assert forall key: Key :: key in b ==> b[key] == Get(b, key).value;
  }

  lemma RowOpeningOneMore(board: Board, e: Event, done: set<Kind>, kind: Kind, key: Key)
    requires kind !in done
    ensures Get(OpenOne(Reconciled(board, Opening(e, done)), e, kind).incidents, key)
            == RowAfter(board, Opening(e, done + {kind}), key)
  {
    RowOf(board, Opening(e, done), key);
    RowOf(board, Opening(e, done), KeyOf(e, kind));
  }

  lemma AlertOf(board: Board, e: Event, id: (nat, Kind))
    requires id in board.alerts
    ensures id in Reconciled(board, e).alerts
    ensures Reconciled(board, e).alerts[id]
            == AlertAfterEvent(board.alerts[id], id.0, Get(board.incidents, KeyOf(e, id.1)), e, id.1)
  {
  }

  lemma AlertOfOpenOne(board: Board, e: Event, kind: Kind, id: (nat, Kind))
    requires id in board.alerts
    ensures id in OpenOne(board, e, kind).alerts
    ensures OpenOne(board, e, kind).alerts[id]
            == if id.1 != kind then board.alerts[id]
               else AlertAfterOpened(board.alerts[id], id.0, Get(board.incidents, KeyOf(e, kind)), Opening(e, {kind}), kind)
  {
  }

  lemma AlertOfResolveOne(board: Board, e: Event, kind: Kind, id: (nat, Kind))
    requires id in board.alerts
    ensures id in ResolveOne(board, e, kind).alerts
    ensures ResolveOne(board, e, kind).alerts[id]
            == if id.1 != kind then board.alerts[id]
               else AlertAfterEvent(board.alerts[id], id.0, Get(board.incidents, KeyOf(e, kind)),
                                    e.(opens := {}, resolves := {kind}), kind)
  {
  }

  lemma AlertOpeningOneMore(board: Board, e: Event, done: set<Kind>, kind: Kind, id: (nat, Kind))
    requires kind !in done && id in board.alerts
    ensures OpenOne(Reconciled(board, Opening(e, done)), e, kind).alerts[id]
            == Reconciled(board, Opening(e, done + {kind})).alerts[id]
  {
    AlertOf(board, Opening(e, done), id);
    AlertOf(board, Opening(e, done + {kind}), id);
    AlertOfOpenOne(Reconciled(board, Opening(e, done)), e, kind, id);
    RowOf(board, Opening(e, done), KeyOf(e, kind));
  }

  lemma OpeningOneMore(board: Board, e: Event, done: set<Kind>, kind: Kind)
    requires kind !in done
    ensures OpenOne(Reconciled(board, Opening(e, done)), e, kind) == Reconciled(board, Opening(e, done + {kind}))
  {
    var one, after := OpenOne(Reconciled(board, Opening(e, done)), e, kind), Reconciled(board, Opening(e, done + {kind}));
    forall key: Key
      ensures Get(one.incidents, key) == Get(after.incidents, key)
    {
      RowOpeningOneMore(board, e, done, kind, key);
      RowOf(board, Opening(e, done + {kind}), key);
    }
    SameRows(one.incidents, after.incidents);
    forall id | id in board.alerts
      ensures one.alerts[id] == after.alerts[id]
    {
      AlertOpeningOneMore(board, e, done, kind, id);
    }
    assert one.alerts == after.alerts;
  }

  lemma RowResolvingOneMore(board: Board, e: Event, done: set<Kind>, kind: Kind, key: Key)
    requires kind !in done
    ensures Get(ResolveOne(Reconciled(board, Resolving(e, done)), e, kind).incidents, key)
            == RowAfter(board, Resolving(e, done + {kind}), key)
  {
    RowOf(board, Resolving(e, done), key);
    RowOf(board, Resolving(e, done), KeyOf(e, kind));
  }

  lemma TwoHalves(alert: Alert, analysis: nat, row: Option<Incident>, e: Event, done: set<Kind>, kind: Kind)
    requires kind !in done
    ensures var sofar := Resolving(e, done);
            AlertAfterEvent(alert, analysis, row, Resolving(e, done + {kind}), kind)
            == AlertAfterEvent(AlertAfterEvent(alert, analysis, row, sofar, kind), analysis, AfterEvent(row, sofar, kind),
                               e.(opens := {}, resolves := {kind}), kind)
  {
    var first := AlertAfterOpened(alert, analysis, row, e, kind);
    assert AlertAfterOpened(alert, analysis, row, Resolving(e, done), kind) == first;
    assert AlertAfterOpened(alert, analysis, row, Resolving(e, done + {kind}), kind) == first;
    assert AfterEvent(row, Resolving(e, done), kind) == AfterOpened(row, e, kind);
  }

  lemma OtherKindsStay(alert: Alert, analysis: nat, row: Option<Incident>, e: Event, done: set<Kind>, kind: Kind, other: Kind)
    requires other != kind
    ensures AlertAfterEvent(alert, analysis, row, Resolving(e, done + {kind}), other)
            == AlertAfterEvent(alert, analysis, row, Resolving(e, done), other)
  {
  }

  lemma AlertResolvingOneMore(board: Board, e: Event, done: set<Kind>, kind: Kind, id: (nat, Kind))
    requires kind !in done && id in board.alerts
    ensures ResolveOne(Reconciled(board, Resolving(e, done)), e, kind).alerts[id]
            == Reconciled(board, Resolving(e, done + {kind})).alerts[id]
  {
    var row := Get(board.incidents, KeyOf(e, id.1));
    AlertOf(board, Resolving(e, done), id);
    AlertOf(board, Resolving(e, done + {kind}), id);
    AlertOfResolveOne(Reconciled(board, Resolving(e, done)), e, kind, id);
    if id.1 == kind {
      RowOf(board, Resolving(e, done), KeyOf(e, kind));
      TwoHalves(board.alerts[id], id.0, row, e, done, kind);
    } else {
      OtherKindsStay(board.alerts[id], id.0, row, e, done, kind, id.1);
    }
  }

  lemma ResolvingOneMore(board: Board, e: Event, done: set<Kind>, kind: Kind)
    requires kind !in done
    ensures ResolveOne(Reconciled(board, Resolving(e, done)), e, kind) == Reconciled(board, Resolving(e, done + {kind}))
  {
    var one, after := ResolveOne(Reconciled(board, Resolving(e, done)), e, kind), Reconciled(board, Resolving(e, done + {kind}));
    forall key: Key
      ensures Get(one.incidents, key) == Get(after.incidents, key)
    {
      RowResolvingOneMore(board, e, done, kind, key);
      RowOf(board, Resolving(e, done + {kind}), key);
    }
    SameRows(one.incidents, after.incidents);
    forall id | id in board.alerts
      ensures one.alerts[id] == after.alerts[id]
    {
      AlertResolvingOneMore(board, e, done, kind, id);
    }
    assert one.alerts == after.alerts;
  }

  lemma NothingToReconcile(board: Board, e: Event)
    requires e.opens == {} && e.resolves == {}
    ensures Reconciled(board, e) == board
  {
    forall key: Key
      ensures Get(Reconciled(board, e).incidents, key) == Get(board.incidents, key)
    {
      RowOf(board, e, key);
    }
    SameRows(Reconciled(board, e).incidents, board.incidents);
    assert Reconciled(board, e).alerts == board.alerts;
  }

  // ---------------------------------------------------------------- the repository and the service

  ghost function RaisedAs(message: Message, analysis: nat, names: Names, kinds: set<Kind>): Alerts {
    map kind | kind in kinds :: (analysis, kind) := Alert(message.tenant, message.account, message.at, names, None)
  }

  lemma RaisedOneMore(alerts: Alerts, message: Message, analysis: nat, names: Names, kinds: set<Kind>, kind: Kind)
    requires kind !in kinds && forall id :: id in alerts ==> id.0 != analysis
    ensures var before := alerts + RaisedAs(message, analysis, names, kinds);
            && (analysis, kind) !in before
            && before[(analysis, kind) := Alert(message.tenant, message.account, message.at, names, None)]
               == alerts + RaisedAs(message, analysis, names, kinds + {kind})
  {
  }

  /** The tables one analysis transaction writes. */
  class AnalysisRepository {
    var incidents: map<Key, Incident>
    var alerts: Alerts
    var analysed: set<nat>
    var analyses: set<nat>

    ghost function State(): Board
      reads this
    {
      Board(incidents, alerts, analysed, analyses)
    }

    constructor ()
      ensures State() == EMPTY
    {
      incidents, alerts, analysed, analyses := map[], map[], {}, {};
    }

    method UpsertIncident(e: Event, kind: Kind, status: IncidentStatus) returns (changed: bool)
      modifies this`incidents
      ensures changed == Advances(Get(old(incidents), KeyOf(e, kind)), status, e.at)
      ensures incidents == if changed then old(incidents)[KeyOf(e, kind) := Incident(status, e.analysis, e.message, e.at)]
                           else old(incidents)
    {
      var key := KeyOf(e, kind);
      if key !in incidents {
        incidents := incidents[key := Incident(status, e.analysis, e.message, e.at)];
        return true;
      }
      var row := incidents[key];
      if e.at > row.at || (e.at == row.at && status == IncidentStatus.Resolved) {
        incidents := incidents[key := Incident(status, e.analysis, e.message, e.at)];
        return true;
      }
      return false;
    }

    /** Closes, as of the event, the account's open alerts of the kind that are no newer than the
        event and whose key the query computes to be the event's; no other alert changes. */
    method ResolveMatchingAlerts(e: Event, kind: Kind, excludeCurrent: bool)
      modifies this`alerts
      ensures alerts.Keys == old(alerts).Keys
      ensures forall id :: id in alerts && alerts[id] != old(alerts)[id] ==>
        && alerts[id] == old(alerts)[id].(resolvedAt := Some(e.at)) && old(alerts)[id].resolvedAt.None?
        && id.1 == kind && kind != AccountSuspended && (excludeCurrent ==> id.0 != e.analysis)
        && alerts[id].tenant == e.tenant && alerts[id].account == e.account
        && SqlServiceKey(alerts[id].names) == ServiceKey(e.names) && alerts[id].at <= alerts[id].resolvedAt.value
      ensures forall id :: id in alerts && id.1 == kind != AccountSuspended && Matches(alerts[id], e) ==>
        excludeCurrent && id.0 == e.analysis
    {
      if !IsAlertType(kind) {
        return;
      }
      alerts := Closed(alerts, MatchingIds(alerts, e, kind, excludeCurrent), e.at);
    }

    /** Closes the event's own alert of the kind, as of the incident that is newer than the event. */
    method ResolveRejectedBackfillAlert(e: Event, kind: Kind)
      modifies this`alerts
      ensures alerts.Keys == old(alerts).Keys
      ensures forall id :: id in alerts && alerts[id] != old(alerts)[id] ==>
        && id == (e.analysis, kind) && kind != AccountSuspended && alerts[id].tenant == e.tenant
        && KeyOf(e, kind) in incidents && old(alerts)[id].resolvedAt.None?
        && alerts[id] == old(alerts)[id].(resolvedAt := Some(incidents[KeyOf(e, kind)].at))
        && (alerts[id].at <= e.at <= incidents[KeyOf(e, kind)].at ==> alerts[id].at <= alerts[id].resolvedAt.value)
      ensures forall id :: id in alerts && id == (e.analysis, kind) && kind != AccountSuspended ==>
        alerts[id].tenant == e.tenant && KeyOf(e, kind) in incidents ==> alerts[id].resolvedAt.Some?
    {
      if !IsAlertType(kind) || KeyOf(e, kind) !in incidents {
        return;
      }
      alerts := Closed(alerts, OwnIds(alerts, e, kind), incidents[KeyOf(e, kind)].at);
    }

    /** The unique index on open alerts of one analysis holds because the types repeat nothing. */
    method AddAlerts(message: Message, analysis: nat, names: Names, alertTypes: seq<AlertType>)
      requires NoDuplicates(alertTypes) && forall id :: id in alerts ==> id.0 != analysis
      modifies this`alerts
      ensures alerts == old(alerts) + RaisedAs(message, analysis, names, KindsOf(alertTypes))
    {
      var i := 0;
      while i < |alertTypes|
        invariant 0 <= i <= |alertTypes|
        invariant alerts == old(alerts) + RaisedAs(message, analysis, names, KindsOf(alertTypes[..i]))
      {
        var kind := alertTypes[i];
        assert alertTypes[..i + 1] == alertTypes[..i] + [kind];
        assert KindsOf(alertTypes[..i + 1]) == KindsOf(alertTypes[..i]) + {kind};
        RaisedOneMore(old(alerts), message, analysis, names, KindsOf(alertTypes[..i]), kind);
        assert (analysis, kind) !in alerts;
        alerts := alerts[(analysis, kind) := Alert(message.tenant, message.account, message.at, names, None)];
        i := i + 1;
      }
      assert alertTypes[..i] == alertTypes;
    }

    /** The body of the first loop. */
    method OpenIncident(e: Event, kind: Kind)
      modifies this`incidents, this`alerts
      ensures State() == OpenOne(old(State()), e, kind)
    {
      var changed := UpsertIncident(e, kind, Active);
      ghost var one := OpenOne(old(State()), e, kind);
      assert incidents == one.incidents;
      if changed {
        ResolveMatchingAlerts(e, kind, true);
        assert alerts == one.alerts;
      } else {
        ResolveRejectedBackfillAlert(e, kind);
        assert alerts == one.alerts;
      }
    }

    /** The body of the second loop. */
    method ResolveIncident(e: Event, kind: Kind)
      modifies this`incidents, this`alerts
      ensures State() == ResolveOne(old(State()), e, kind)
    {
      var changed := UpsertIncident(e, kind, IncidentStatus.Resolved);
      if changed {
        ResolveMatchingAlerts(e, kind, false);
        assert alerts == ResolveOne(old(State()), e, kind).alerts;
      }
    }

    method OpenAll(e: Event)
      modifies this`incidents, this`alerts
      ensures State() == Reconciled(old(State()), Opening(e, e.opens))
    {
      ghost var board := State();
      var left := e.opens;
      ghost var done: set<Kind> := {};
      NothingToReconcile(board, Opening(e, done));
      while left != {}
        invariant done + left == e.opens && done !! left
        invariant State() == Reconciled(board, Opening(e, done))
        decreases |left|
      {
        var kind :| kind in left;
        OpenIncident(e, kind);
        OpeningOneMore(board, e, done, kind);
        left, done := left - {kind}, done + {kind};
      }
      assert done == e.opens;
    }

    method ResolveAll(e: Event, ghost board: Board)
      requires State() == Reconciled(board, Resolving(e, {}))
      modifies this`incidents, this`alerts
      ensures State() == Reconciled(board, Resolving(e, e.resolves))
    {
      var left := e.resolves;
      ghost var done: set<Kind> := {};
      while left != {}
        invariant done + left == e.resolves && done !! left
        invariant State() == Reconciled(board, Resolving(e, done))
        decreases |left|
      {
        var kind :| kind in left;
        ResolveIncident(e, kind);
        ResolvingOneMore(board, e, done, kind);
        left, done := left - {kind}, done + {kind};
      }
      assert done == e.resolves;
    }

    /** Whatever order the two sets are visited in, the result is the row-by-row projection. */
    method ReconcileIncidents(e: Event)
      modifies this`incidents, this`alerts
      ensures State() == Reconciled(old(State()), e)
    {
      ghost var board := State();
      if e.opens == {} && e.resolves == {} {
        NothingToReconcile(board, e);
        return;
      }
      OpenAll(e);
      assert Opening(e, e.opens) == Resolving(e, {});
      ResolveAll(e, board);
      assert Resolving(e, e.resolves) == e;
    }
  }

  /** What an answer is reduced to before it is stored. */
  function Settled(alertTypes: seq<AlertType>, text: Text): seq<AlertType> {
    FromKeys(if text.confirmed && !text.failed then Remaining(alertTypes) else alertTypes)
  }

  /** The settled types repeat nothing, keep their order, and are those the model answered, but for
      payment alerts when the text confirms the payment. */
  lemma SettledTypes(alertTypes: seq<AlertType>, text: Text)
    ensures NoDuplicates(Settled(alertTypes, text))
    ensures forall kind :: kind in Settled(alertTypes, text) <==>
      kind in alertTypes && (text.confirmed && !text.failed ==> kind !in PAYMENT_ALERT_VALUES)
  {
    var at := DeduplicationKeepsOrder(if text.confirmed && !text.failed then Remaining(alertTypes) else alertTypes);
  }

  method Settle(result: AnalysisResult, text: Text)
    modifies result
    ensures result.alertTypes == Settled(old(result.alertTypes), text)
    ensures result.emailType == old(result.emailType) || result.emailType == "payment_updated"
  {
    var suppressed := result.SuppressConfirmedPaymentAlerts(text);
    result.DeduplicateAlertTypes();
  }

  /** The rows of one analysed message, all in the transaction that completes its event. */
  method Record(repository: AnalysisRepository, message: Message, analysis: nat, result: AnalysisResult, text: Text)
    returns (ghost e: Event)
    requires message.id !in repository.analysed && NoDuplicates(result.alertTypes)
    requires forall id :: id in repository.alerts ==> id.0 != analysis
    modifies repository
    ensures e == EventOf(message, analysis, result.names, result.alertTypes, result.emailType, text)
    ensures repository.State() == Processed(old(repository.State()), e)
  {
    e := EventOf(message, analysis, result.names, result.alertTypes, result.emailType, text);
    repository.analysed, repository.analyses := repository.analysed + {message.id}, repository.analyses + {analysis};
    repository.AddAlerts(message, analysis, result.names, result.alertTypes);
    assert RaisedAs(message, analysis, result.names, KindsOf(result.alertTypes)) == Raised(e);
    repository.ReconcileIncidents(EventOf(message, analysis, result.names, result.alertTypes, result.emailType, text));
  }

  /** AnalysisService.process for one message: `answer` is what the client returns, None when it
      raises, in which case nothing has been written. */
  method Process(repository: AnalysisRepository, message: Message, analysis: nat, answer: Option<AnalysisResult>, text: Text)
    returns (done: bool, ghost e: Event)
    requires analysis !in repository.analyses
    requires forall id :: id in repository.alerts ==> id.0 in repository.analyses
    modifies repository, if answer.Some? then {answer.value} else {}
    ensures done <==> message.id in old(repository.analysed) || answer.Some?
    ensures !done ==> repository.State() == old(repository.State())
    ensures done ==> repository.State() == Processed(old(repository.State()), e)
    ensures done && message.id !in old(repository.analysed) ==>
      && answer.value.alertTypes == Settled(old(answer.value.alertTypes), text)
      && e == EventOf(message, analysis, answer.value.names, answer.value.alertTypes, answer.value.emailType, text)
    ensures done ==> e.message == message.id && FromTransition(e)
  {
    e := Event(message.tenant, message.account, message.id, message.at, analysis, Names(None, None, ""), {}, {}, {});
    if message.id in repository.analysed {
      return true, e;
    }
    if answer.None? {
      return false, e;
    }
    var result := answer.value;
    SettledTypes(result.alertTypes, text);
    Settle(result, text);
    e := Record(repository, message, analysis, result, text);
    EventsComeFromTransitions(message, analysis, result.names, result.alertTypes, result.emailType, text);
    return true, e;
  }

  /** Any history of the analysis worker: messages in any order, delivered again, answered or not,
      with any wording, as long as the two computations of the service key agree. */
  method AnyHistory(rounds: nat) returns (repository: AnalysisRepository)
    ensures fresh(repository) && Agreement(repository.State())
  {
    repository := new AnalysisRepository();
    for i := 0 to rounds
      invariant fresh(repository) && Agreement(repository.State()) && Known(repository.State())
    {
      var message: Message, analysis: nat, text: Text := *, *, *;
      var names: Names, alertTypes: seq<AlertType>, emailType: string := *, *, *;
      var answered: bool := *;
      if analysis !in repository.analyses && KeysAgree(names) {
        ghost var before := repository.State();
        var answer: Option<AnalysisResult> := None;
        if answered {
          var result := new AnalysisResult(names, alertTypes, emailType, None, "", Low);
          answer := Some(result);
        }
        var done, e := Process(repository, message, analysis, answer, text);
        if done && message.id !in before.analysed {
          EventKeepsAgreement(before, e);
          EventKeepsKnown(before, e);
        }
      }
    }
  }
}
