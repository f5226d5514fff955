/** scripts/backfill_mail_state.py, and what becomes of the user's choices under everything that
    writes a message row. Rows are visited in the order of their ids. */
module Backfill {
  import opened Wrappers
  import opened MailStore
  import Keyset

  // ---------------------------------------------------------------- one row

  /** state_values: the provider's state derived again from the stored payload, and the visible
      state with the user's overrides on top. `remote` is what a payload says. */
  function Restated<M>(row: Row<M>, remote: M -> Flags): Row<M> {
    row.(provider := remote(row.payload), visible := Seen(row.local, remote(row.payload)))
  }

  // ---------------------------------------------------------------- one batch

  type Table<M> = map<nat, Row<M>>

  datatype BackfillSummary = BackfillSummary(processed: nat, changed: nat, nextAfterId: Option<nat>, applied: bool)

  function Smaller(): (nat, nat) -> bool {
    (a: nat, b: nat) => a < b
  }

  lemma SmallerIsOrder()
    ensures Keyset.StrictOrder(Smaller())
  {
  }

  /** The rows a batch selects. */
  ghost function Selected(ids: set<nat>, limit: nat, after: Option<nat>): (found: seq<nat>)
    ensures |found| <= limit && forall id :: id in found ==> id in ids
  {
    SmallerIsOrder();
    var rest := Keyset.Sorted(Keyset.Beyond(ids, after, Smaller()), Smaller());
    Keyset.SortedIsSorted(Keyset.Beyond(ids, after, Smaller()), Smaller());
    if |rest| > limit then
      assert forall id :: id in rest[..limit] ==> id in rest;
      rest[..limit]
    else rest
  }

  function RestatedRows<M>(rows: Table<M>, ids: set<nat>, remote: M -> Flags): Table<M> {
    map id | id in rows :: if id in ids then Restated(rows[id], remote) else rows[id]
  }

  function Changed<M(==)>(rows: Table<M>, ids: seq<nat>, remote: M -> Flags): nat
    requires forall id :: id in ids ==> id in rows
  {
    if ids == [] then 0
    else
      var last := ids[|ids| - 1];
      assert forall id :: id in ids[..|ids| - 1] ==> id in ids;
      Changed(rows, ids[..|ids| - 1], remote) + if Restated(rows[last], remote) != rows[last] then 1 else 0
  }

  function Ids(ids: seq<nat>): set<nat> {
    set id | id in ids
  }

  class MessageTable<M(==,!new)> {
    var rows: Table<M>

    /** backfill_batch over the rows its query returned, in order. Err is the refused limit. */
    method BackfillBatch(found: seq<nat>, limit: int, apply: bool, remote: M -> Flags)
      returns (r: Result<BackfillSummary, string>)
      requires (forall id :: id in found ==> id in rows) && Distinct(found)
      modifies this
      ensures r.Err? <==> !(1 <= limit <= 1000)
      ensures rows == if r.Ok? && apply then RestatedRows(old(rows), Ids(found), remote) else old(rows)
      ensures r.Ok? ==>
        && r.value.processed == |found| && r.value.changed == Changed(old(rows), found, remote)
        && r.value.nextAfterId == (if found == [] then None else Some(found[|found| - 1]))
        && r.value.applied == apply
    {
      if !(1 <= limit <= 1000) {
        return Err("Batch limit must be between 1 and 1000");
      }
      var summary := BackfillSummary(0, 0, None, apply);
      ghost var before := rows;
      NothingRestated(before, remote);
      for i := 0 to |found|
        invariant rows == if apply then RestatedRows(before, Ids(found[..i]), remote) else before
        invariant forall id :: id in found[..i] ==> id in before
        invariant summary == BackfillSummary(i, Changed(before, found[..i], remote),
                                             if i == 0 then None else Some(found[i - 1]), apply)
      {
        var id := found[i];
        OneMoreVisited(before, found, i, remote);
        var values := Restated(rows[id], remote);
        var changed := values != rows[id];
        if apply && changed {
          rows := rows[id := values];
        }
        summary := BackfillSummary(summary.processed + 1, summary.changed + (if changed then 1 else 0), Some(id), apply);
      }
      assert found[..|found|] == found;
      return Ok(summary);
    }
  }

  lemma NothingRestated<M>(rows: Table<M>, remote: M -> Flags)
    ensures RestatedRows(rows, Ids([]), remote) == rows
  {
  }

  /** One turn of the batch loop. */
  lemma OneMoreVisited<M>(before: Table<M>, found: seq<nat>, i: nat, remote: M -> Flags)
    requires i < |found| && Distinct(found) && forall id :: id in found ==> id in before
    ensures var now, later := RestatedRows(before, Ids(found[..i]), remote), RestatedRows(before, Ids(found[..i + 1]), remote);
            && found[i] in now && now[found[i]] == before[found[i]]
            && later == now[found[i] := Restated(before[found[i]], remote)]
    ensures (forall id :: id in found[..i + 1] ==> id in before) && (forall id :: id in found[..i] ==> id in before)
    ensures Changed(before, found[..i + 1], remote)
            == Changed(before, found[..i], remote) + if Restated(before[found[i]], remote) != before[found[i]] then 1 else 0
  {
    assert found[..i + 1][..i] == found[..i] && found[..i + 1] == found[..i] + [found[i]];
    assert Ids(found[..i + 1]) == Ids(found[..i]) + {found[i]};
  }

  ghost predicate Distinct(ids: seq<nat>) {
    forall i, j :: 0 <= i < j < |ids| ==> ids[i] != ids[j]
  }

  // ---------------------------------------------------------------- batches chained by next_after_id

  /** All rows visited when each batch starts after the last row of the one before it. */
  ghost function Chain(ids: set<nat>, limit: nat, after: Option<nat>): seq<nat>
    requires limit >= 1
    decreases |Keyset.Beyond(ids, after, Smaller())|
  {
    var found := Selected(ids, limit, after);
    if found == [] then []
    else
      LaterBatch(ids, limit, after);
      found + Chain(ids, limit, Some(found[|found| - 1]))
  }

  lemma LaterBatch(ids: set<nat>, limit: nat, after: Option<nat>)
    requires limit >= 1 && Selected(ids, limit, after) != []
    ensures Keyset.StrictOrder(Smaller())
    ensures var found, left := Selected(ids, limit, after), Keyset.Beyond(ids, after, Smaller());
            var rest := Keyset.Beyond(ids, Some(found[|found| - 1]), Smaller());
            && Keyset.Sorted(left, Smaller()) == found + Keyset.Sorted(rest, Smaller())
            && |rest| < |left|
  {
    SmallerIsOrder();
    var found := Selected(ids, limit, after);
    var all := Keyset.Sorted(Keyset.Beyond(ids, after, Smaller()), Smaller());
    Keyset.SplitBehind(ids, after, |found| - 1, Smaller());
    assert found == all[..|found|];
    assert all == all[..|found|] + all[|found|..];
  }

  /** The chain visits every row exactly once, whatever the limit. */
  lemma {:induction false} ChainVisitsEachOnce(ids: set<nat>, limit: nat, after: Option<nat>)
    requires limit >= 1
    ensures Keyset.StrictOrder(Smaller())
    ensures Chain(ids, limit, after) == Keyset.Sorted(Keyset.Beyond(ids, after, Smaller()), Smaller())
    decreases |Keyset.Beyond(ids, after, Smaller())|
  {
    SmallerIsOrder();
    var found := Selected(ids, limit, after);
    if found != [] {
      LaterBatch(ids, limit, after);
      ChainVisitsEachOnce(ids, limit, Some(found[|found| - 1]));
    }
  }

  /** The table after a whole chain of applied batches. */
  ghost function AfterChain<M>(rows: Table<M>, limit: nat, after: Option<nat>, remote: M -> Flags): Table<M>
    requires limit >= 1
    decreases |Keyset.Beyond(rows.Keys, after, Smaller())|
  {
    var found := Selected(rows.Keys, limit, after);
    if found == [] then rows
    else
      LaterBatch(rows.Keys, limit, after);
      assert RestatedRows(rows, Ids(found), remote).Keys == rows.Keys;
      AfterChain(RestatedRows(rows, Ids(found), remote), limit, Some(found[|found| - 1]), remote)
  }

  lemma NothingLeft(ids: set<nat>, limit: nat, after: Option<nat>)
    requires limit >= 1 && Selected(ids, limit, after) == []
    ensures Keyset.Beyond(ids, after, Smaller()) == {}
  {
    SmallerIsOrder();
    Keyset.SortedIsSorted(Keyset.Beyond(ids, after, Smaller()), Smaller());
  }

  lemma {:induction false} ChainRestatesTheRest<M>(rows: Table<M>, limit: nat, after: Option<nat>, remote: M -> Flags)
    requires limit >= 1
    ensures AfterChain(rows, limit, after, remote) == RestatedRows(rows, Keyset.Beyond(rows.Keys, after, Smaller()), remote)
    decreases |Keyset.Beyond(rows.Keys, after, Smaller())|
  {
    var found := Selected(rows.Keys, limit, after);
    if found == [] {
      NothingLeft(rows.Keys, limit, after);
      assert RestatedRows(rows, {}, remote) == rows;
    } else {
      LaterBatch(rows.Keys, limit, after);
      var next, last := RestatedRows(rows, Ids(found), remote), found[|found| - 1];
      assert next.Keys == rows.Keys;
      ChainRestatesTheRest(next, limit, Some(last), remote);
      BatchAndRest(rows.Keys, limit, after);
      RestatedInTurn(rows, Ids(found), Keyset.Beyond(rows.Keys, Some(last), Smaller()), remote);
    }
  }

  lemma BatchAndRest(ids: set<nat>, limit: nat, after: Option<nat>)
    requires limit >= 1 && Selected(ids, limit, after) != []
    ensures var found := Selected(ids, limit, after);
            Keyset.Beyond(ids, after, Smaller()) == Ids(found) + Keyset.Beyond(ids, Some(found[|found| - 1]), Smaller())
  {
    var found := Selected(ids, limit, after);
    var left, rest := Keyset.Beyond(ids, after, Smaller()), Keyset.Beyond(ids, Some(found[|found| - 1]), Smaller());
    LaterBatch(ids, limit, after);
    Keyset.SortedIsSorted(left, Smaller());
    Keyset.SortedIsSorted(rest, Smaller());
    var all, tail := Keyset.Sorted(left, Smaller()), Keyset.Sorted(rest, Smaller());
    forall id
      ensures id in left <==> id in Ids(found) + rest
    {
      assert id in left <==> id in all;
      assert id in all <==> id in found || id in tail;
    }
  }

  lemma RestatedInTurn<M>(rows: Table<M>, first: set<nat>, second: set<nat>, remote: M -> Flags)
    ensures RestatedRows(RestatedRows(rows, first, remote), second, remote) == RestatedRows(rows, first + second, remote)
  {
  }

  /** A full pass brings every row up to date. */
  lemma FullPassRestatesAll<M>(rows: Table<M>, limit: nat, remote: M -> Flags)
    requires limit >= 1
    ensures AfterChain(rows, limit, None, remote) == RestatedRows(rows, rows.Keys, remote)
  {
    assert Keyset.Beyond(rows.Keys, None, Smaller()) == rows.Keys;
    ChainRestatesTheRest(rows, limit, None, remote);
  }

  /** A second full pass, with any limit, changes nothing and reports so. */
  lemma SecondPassChangesNothing<M>(rows: Table<M>, limit: nat, again: nat, ids: seq<nat>, remote: M -> Flags)
    requires limit >= 1 && again >= 1 && forall id :: id in ids ==> id in rows
    ensures var once := AfterChain(rows, limit, None, remote);
            && once.Keys == rows.Keys && AfterChain(once, again, None, remote) == once
            && Changed(once, ids, remote) == 0
  {
    FullPassRestatesAll(rows, limit, remote);
    var once := RestatedRows(rows, rows.Keys, remote);
    FullPassRestatesAll(once, again, remote);
    NothingChanged(once, ids, remote);
  }

  lemma {:induction false} NothingChanged<M>(rows: Table<M>, ids: seq<nat>, remote: M -> Flags)
    requires forall id :: id in ids ==> id in rows
    requires forall id :: id in rows ==> Restated(rows[id], remote) == rows[id]
    ensures Changed(rows, ids, remote) == 0
  {
    if ids != [] {
      assert forall id :: id in ids[..|ids| - 1] ==> id in ids;
      NothingChanged(rows, ids[..|ids| - 1], remote);
    }
  }

  // ---------------------------------------------------------------- the user's choices

  datatype Field = IsRead | IsStarred | Mailbox
  datatype Value = Flag(flag: bool) | Name(name: string)

  function Choice(choices: Choices, field: Field): Option<Value> {
    match field
    case IsRead => if choices.isRead.Some? then Some(Flag(choices.isRead.value)) else None
    case IsStarred => if choices.isStarred.Some? then Some(Flag(choices.isStarred.value)) else None
    case Mailbox => if choices.mailbox.Some? then Some(Name(choices.mailbox.value)) else None
  }

  function State(flags: Flags, field: Field): Value {
    match field
    case IsRead => Flag(flags.isRead)
    case IsStarred => Flag(flags.isStarred)
    case Mailbox => Name(flags.mailbox)
  }

  /** Everything that writes message rows. What a payload says of the provider's state may change from
      one step to the next: a Microsoft mailbox depends on the folders known at the time. */
  datatype Step<!M> =
    | Sync(m: string, payload: M, flags: Flags)
    | Bury(m: string)
    | Patch(m: string, request: Choices)   // refused for an unknown or a deleted message
    | Restate(ids: set<string>, remote: M -> Flags)

  ghost function Next<M>(rows: Rows<M>, step: Step<M>): Rows<M> {
    match step
    case Sync(m, payload, flags) => Upserted(rows, m, payload, flags)
    case Bury(m) => Buried(rows, m)
    case Patch(m, request) => if m in rows && !rows[m].deleted then rows[m := Patched(rows[m], request)] else rows
    case Restate(ids, remote) => map m | m in rows :: if m in ids then Restated(rows[m], remote) else rows[m]
  }

  ghost function Run<M>(rows: Rows<M>, steps: seq<Step<M>>): Rows<M> {
    if |steps| == 0 then rows else Next(Run(rows, steps[..|steps| - 1]), steps[|steps| - 1])
  }

  /** No step of the run chooses this field of m. */
  ghost predicate Unchosen<M>(steps: seq<Step<M>>, m: string, field: Field) {
    forall i :: 0 <= i < |steps| && steps[i].Patch? && steps[i].m == m ==> Choice(steps[i].request, field) == None
  }

  /** The payload last stored for m, and what was last read from it. */
  ghost function LastPayload<M>(payload: M, steps: seq<Step<M>>, m: string): M {
    if |steps| == 0 then payload
    else
      var last := steps[|steps| - 1];
      if last.Sync? && last.m == m then last.payload else LastPayload(payload, steps[..|steps| - 1], m)
  }

  ghost function LastReading<M>(row: Row<M>, steps: seq<Step<M>>, m: string): Flags {
    if |steps| == 0 then row.provider
    else
      var front, last := steps[..|steps| - 1], steps[|steps| - 1];
      if last.Sync? && last.m == m then last.flags
      else if last.Restate? && m in last.ids then last.remote(LastPayload(row.payload, front, m))
      else LastReading(row, front, m)
  }

  lemma StepKeepsChoices<M>(rows: Rows<M>, step: Step<M>)
    requires ChoicesKept(rows)
    ensures ChoicesKept(Next(rows, step))
  {
    match step
    case Sync(m, payload, flags) => StoringKeepsChoices(rows, m, payload, flags);
    case Bury(m) =>
    case Patch(m, request) =>
      if m in rows && !rows[m].deleted {
        PatchKeepsChoices(rows, m, request);
      }
    case Restate(ids, remote) =>
  }

  lemma StepKeepsField<M>(rows: Rows<M>, step: Step<M>, m: string, field: Field)
    requires m in rows && (step.Patch? && step.m == m ==> Choice(step.request, field) == None)
    ensures var after := Next(rows, step);
            && m in after && Choice(after[m].local, field) == Choice(rows[m].local, field)
            && after[m].payload == (if step.Sync? && step.m == m then step.payload else rows[m].payload)
            && after[m].provider == (if step.Sync? && step.m == m then step.flags
                                     else if step.Restate? && m in step.ids then step.remote(rows[m].payload)
                                     else rows[m].provider)
  {
  }

  /** Whatever happens to the rows: a field shows the user's last choice, kept through every
      synchronization, deletion and batch until the user chooses again, and otherwise what was last
      read from what the provider last sent. */
  lemma {:induction false} ChoicesSurvive<M>(rows: Rows<M>, steps: seq<Step<M>>, m: string, field: Field)
    requires ChoicesKept(rows) && m in rows && Unchosen(steps, m, field)
    ensures var after := Run(rows, steps);
            && m in after && ChoicesKept(after)
            && after[m].payload == LastPayload(rows[m].payload, steps, m)
            && after[m].provider == LastReading(rows[m], steps, m)
            && Choice(after[m].local, field) == Choice(rows[m].local, field)
            && State(after[m].visible, field)
               == Choice(rows[m].local, field).GetOr(State(LastReading(rows[m], steps, m), field))
  {
    if |steps| != 0 {
      var front, last := steps[..|steps| - 1], steps[|steps| - 1];
      ChoicesSurvive(rows, front, m, field);
      StepKeepsChoices(Run(rows, front), last);
      StepKeepsField(Run(rows, front), last, m, field);
    }
  }

  /** An accepted choice shows at once. */
  lemma ChoiceIsShown<M>(rows: Rows<M>, m: string, request: Choices, field: Field)
    requires m in rows && !rows[m].deleted && Choice(request, field).Some?
    ensures var after := Next(rows, Patch(m, request))[m];
            Choice(after.local, field) == Choice(request, field) == Some(State(after.visible, field))
  {
  }
}
