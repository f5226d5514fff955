/** dashboard/repository.py (message_counts) and dashboard/filters.py (category keys): navigation
    counters rolled up from grouped rows, and the lists they announce. */
module Counters {
  import opened Wrappers
  import opened Ascii

  datatype Risk = Low | Medium | High | Critical

  /** The columns of a listed message that the counters group by. */
  datatype Row = Row(mailbox: string, isRead: bool, isStarred: bool, category: Option<string>, risk: Option<Risk>)

  // ---------------------------------------------------------------- categories

  datatype Group = Group(key: string, values: set<string>)

  const CATEGORY_GROUPS: seq<Group> := [
    Group("pagos", {"pagos", "pago", "payment", "payments", "billing"}),
    Group("codigos", {"codigos", "c\U{00F3}digos", "codigo", "c\U{00F3}digo", "code", "codes", "verification"}),
    Group("cuentas", {"cuentas", "cuenta", "account", "accounts"}),
    Group("seguridad", {"seguridad", "security"}),
    Group("renovaciones", {"renovaciones", "renovacion", "renewal", "renewals"}),
    Group("accesos", {"accesos", "acceso", "access", "login"}),
    Group("otros", {"otros", "other", "general"})]

  const UNANALYZED: set<string> := {"sin-analizar", "unanalyzed"}

  /** The first group that lists the value. */
  function GroupOf(groups: seq<Group>, value: string): Option<Group> {
    if groups == [] then None
    else if value in groups[0].values then Some(groups[0])
    else GroupOf(groups[1..], value)
  }

  function CategoryKey(value: string): string {
    match GroupOf(CATEGORY_GROUPS, Lower(value))
    case Some(group) => group.key
    case None => Lower(value)
  }

  function Named(groups: seq<Group>, key: string): Option<Group> {
    if groups == [] then None else if groups[0].key == key then Some(groups[0]) else Named(groups[1..], key)
  }

  /** The category condition of the list filter; an empty parameter sets none. */
  predicate Admits(category: string, row: Row) {
    if category == "" then true
    else
      var key := CategoryKey(category);
      if key in UNANALYZED then row.category.None?
      else row.category.Some? &&
           match Named(CATEGORY_GROUPS, key)
           case Some(group) => Lower(row.category.value) in group.values
           case None => Lower(row.category.value) == key
  }

  predicate CountedUnder(key: string, row: Row) {
    row.category.Some? && CategoryKey(row.category.value) == key
  }

  /** Groups list their own key, and no value twice. */
  ghost predicate WellFormed(groups: seq<Group>) {
    && (forall i :: 0 <= i < |groups| ==> groups[i].key in groups[i].values)
    && (forall i, j :: 0 <= i < j < |groups| ==> groups[i].values !! groups[j].values)
  }

  /** Three characters tell the groups apart. */
  function Which(value: string): nat {
    if |value| < 4 then 7
    else if value[0] == 'p' || value[0] == 'b' then 0
    else if value[0] == 'v' || (value[0] == 'c' && value[1] != 'u') then 1
    else if value[0] == 'c' || (value[0] == 'a' && value[3] == 'o') then 2
    else if value[0] == 's' then 3
    else if value[0] == 'r' then 4
    else if value[0] == 'a' || value[0] == 'l' then 5
    else 6
  }

  lemma ValuesAreToldApart(i: nat, value: string)
    requires i < |CATEGORY_GROUPS| && value in CATEGORY_GROUPS[i].values
    ensures Which(value) == i
  {
  }

  lemma CategoriesAreWellFormed()
    ensures WellFormed(CATEGORY_GROUPS)
  {
    forall i, j, value | 0 <= i < j < |CATEGORY_GROUPS| && value in CATEGORY_GROUPS[i].values
      ensures value !in CATEGORY_GROUPS[j].values
    {
      ValuesAreToldApart(i, value);
      if value in CATEGORY_GROUPS[j].values {
        ValuesAreToldApart(j, value);
      }
    }
    assert forall i :: 0 <= i < |CATEGORY_GROUPS| ==> CATEGORY_GROUPS[i].key in CATEGORY_GROUPS[i].values;
  }

  lemma {:induction false} GroupIsNamed(groups: seq<Group>, value: string)
    requires WellFormed(groups)
    ensures match GroupOf(groups, value)
            case Some(group) => value in group.values && group in groups && Named(groups, group.key) == Some(group)
            case None => Named(groups, value) == None
  {
    if groups != [] && value !in groups[0].values {
      GroupIsNamed(groups[1..], value);
      var found := GroupOf(groups[1..], value);
      if found.Some? {
        var j :| 0 <= j < |groups[1..]| && groups[1..][j] == found.value;
        assert groups[j + 1] == found.value && groups[0].values !! groups[j + 1].values;
      }
    }
  }

  lemma {:induction false} NamedIsGroup(groups: seq<Group>, key: string, value: string)
    requires WellFormed(groups) && Named(groups, key).Some?
    ensures var group := Named(groups, key).value;
            && group in groups && group.key == key && (value in group.values <==> GroupOf(groups, value) == Some(group))
  {
    var group := Named(groups, key).value;
    if groups[0].key != key {
      NamedIsGroup(groups[1..], key, value);
      var j :| 0 <= j < |groups[1..]| && groups[1..][j] == group;
      assert groups[j + 1] == group && groups[0].values !! groups[j + 1].values;
    } else {
      GroupIsNamed(groups, value);
    }
  }

  /** A key counted under stands for itself as a filter. */
  lemma KeysAreStable(value: string)
    ensures CategoryKey(CategoryKey(value)) == CategoryKey(value)
  {
    CategoriesAreWellFormed();
    LowerTwice(value);
    var found := GroupOf(CATEGORY_GROUPS, Lower(value));
    if found.Some? {
      GroupIsNamed(CATEGORY_GROUPS, Lower(value));
      NamedIsGroup(CATEGORY_GROUPS, found.value.key, found.value.key);
      LowerKeys(found.value);
    }
  }

  lemma LowerKeys(group: Group)
    requires group in CATEGORY_GROUPS
    ensures Lower(group.key) == group.key
  {
    var i :| 0 <= i < |CATEGORY_GROUPS| && CATEGORY_GROUPS[i] == group;
    assert forall k :: 0 <= k < |group.key| ==> !('A' <= group.key[k] <= 'Z');
  }

  /** The list filter for a category returns exactly the rows counted under its key, unless the
      parameter is empty or asks for unanalysed messages. */
  lemma FilterMatchesCounter(category: string)
    ensures (forall row :: Admits(category, row) <==> CountedUnder(CategoryKey(category), row))
            <==> category != "" && CategoryKey(category) !in UNANALYZED
  {
    var key := CategoryKey(category);
    if category != "" && key !in UNANALYZED {
      forall row
        ensures Admits(category, row) <==> CountedUnder(key, row)
      {
        if row.category.Some? {
          FilterMatchesRow(category, row);
        }
      }
    } else {
      var unanalysed := Row("inbox", false, false, None, None);
      assert Admits(category, unanalysed) && !CountedUnder(key, unanalysed);
    }
  }

  lemma FilterMatchesRow(category: string, row: Row)
    requires category != "" && CategoryKey(category) !in UNANALYZED && row.category.Some?
    ensures Admits(category, row) <==> CountedUnder(CategoryKey(category), row)
  {
    CategoriesAreWellFormed();
    var key, value := CategoryKey(category), Lower(row.category.value);
    GroupIsNamed(CATEGORY_GROUPS, value);
    GroupIsNamed(CATEGORY_GROUPS, Lower(category));
    if Named(CATEGORY_GROUPS, key).Some? {
      NamedIsGroup(CATEGORY_GROUPS, key, value);
      var found := GroupOf(CATEGORY_GROUPS, value);
      if found.Some? && found.value.key == key {
        assert Named(CATEGORY_GROUPS, key) == found;
      } else if found.None? && value == key {
        NamedIsGroup(CATEGORY_GROUPS, key, key);
      }
    }
  }

  // ---------------------------------------------------------------- roll-up against direct counting

  type Filter = Row -> bool

  function Count(rows: seq<Row>, keep: Filter): nat {
    if rows == [] then 0 else (if keep(rows[0]) then 1 else 0) + Count(rows[1..], keep)
  }

  function Times(rows: seq<Row>, row: Row): nat {
    if rows == [] then 0 else (if rows[0] == row then 1 else 0) + Times(rows[1..], row)
  }

  function Without(rows: seq<Row>, row: Row): seq<Row> {
    if rows == [] then []
    else (if rows[0] == row then [] else [rows[0]]) + Without(rows[1..], row)
  }

  type Groups = seq<(Row, nat)>

  /** GROUP BY over all the columns: each group once, in any order, with its number of rows. */
  ghost predicate GroupsOf(groups: Groups, rows: seq<Row>) {
    && (forall i, j :: 0 <= i < j < |groups| ==> groups[i].0 != groups[j].0)
    && (forall i :: 0 <= i < |groups| ==> groups[i].1 == Times(rows, groups[i].0) > 0)
    && (forall row :: row in rows ==> exists i :: 0 <= i < |groups| && groups[i].0 == row)
  }

  function Sum(groups: Groups, keep: Filter): nat {
    if groups == [] then 0 else (if keep(groups[0].0) then groups[0].1 else 0) + Sum(groups[1..], keep)
  }

  lemma {:induction false} TakeOut(rows: seq<Row>, row: Row, keep: Filter)
    ensures Count(rows, keep) == (if keep(row) then Times(rows, row) else 0) + Count(Without(rows, row), keep)
    ensures forall x :: Times(Without(rows, row), x) == if x == row then 0 else Times(rows, x)
    ensures forall x :: x in Without(rows, row) ==> x in rows && x != row
  {
    if rows != [] {
      TakeOut(rows[1..], row, keep);
      if rows[0] != row {
        assert Without(rows, row)[1..] == Without(rows[1..], row);
      } else {
        assert Without(rows, row) == Without(rows[1..], row);
      }
    }
  }

  /** A sum over the groups is the number of rows counted one by one. */
  lemma {:induction false} RollUp(groups: Groups, rows: seq<Row>, keep: Filter)
    requires GroupsOf(groups, rows)
    ensures Sum(groups, keep) == Count(rows, keep)
  {
    assert rows != [] ==> rows[0] in rows;
    if groups != [] {
      var first, rest := groups[0].0, Without(rows, groups[0].0);
      TakeOut(rows, first, keep);
      forall row | row in rest
        ensures exists i :: 0 <= i < |groups[1..]| && groups[1..][i].0 == row
      {
        var i :| 0 <= i < |groups| && groups[i].0 == row;
        assert groups[1..][i - 1].0 == row;
      }
      RollUp(groups[1..], rest, keep);
    }
  }

  lemma {:induction false} SumOfOneMore(groups: Groups, n: nat, keep: Filter)
    requires n < |groups|
    ensures Sum(groups[..n + 1], keep) == Sum(groups[..n], keep) + if keep(groups[n].0) then groups[n].1 else 0
  {
    if n > 0 {
      SumOfOneMore(groups[1..], n - 1, keep);
      assert groups[..n + 1][1..] == groups[1..][..n] && groups[..n][1..] == groups[1..][..n - 1];
    } else {
      assert groups[..1][1..] == [];
    }
  }

  function Everything(): Filter { (row: Row) => true }
  function InFolder(mailbox: string): Filter { (row: Row) => row.mailbox == mailbox }
  function Unread(): Filter { (row: Row) => row.mailbox == "inbox" && !row.isRead }
  function Starred(): Filter { (row: Row) => row.mailbox == "inbox" && row.isStarred }
  function Alarming(): Filter { (row: Row) => row.mailbox == "inbox" && (row.risk == Some(High) || row.risk == Some(Critical)) }
  function Unanalyzed(): Filter { (row: Row) => row.mailbox == "inbox" && row.category.None? }
  function InCategory(key: string): Filter { (row: Row) => row.mailbox == "inbox" && CountedUnder(key, row) }

  datatype Counts = Counts(total: nat, folders: map<string, nat>, unread: nat, starred: nat, critical: nat,
                           unanalyzed: nat, categories: map<string, nat>, archive: nat, trash: nat)

  function Get(counts: map<string, nat>, key: string): nat {
    if key in counts then counts[key] else 0
  }

  /** What the counters say about the groups seen so far. */
  ghost predicate Tallied(groups: Groups, counts: Counts) {
    && counts.total == Sum(groups, Everything())
    && (forall m :: Get(counts.folders, m) == Sum(groups, InFolder(m)))
    && counts.unread == Sum(groups, Unread()) && counts.starred == Sum(groups, Starred())
    && counts.critical == Sum(groups, Alarming()) && counts.unanalyzed == Sum(groups, Unanalyzed())
    && (forall key :: Get(counts.categories, key) == Sum(groups, InCategory(key)))
  }

  function Bump(counts: map<string, nat>, key: string, more: nat): map<string, nat> {
    counts[key := Get(counts, key) + more]
  }

  /** The body of the loop. */
  function Add(counts: Counts, row: Row, count: nat): Counts {
    var all := counts.(total := counts.total + count, folders := Bump(counts.folders, row.mailbox, count));
    if row.mailbox != "inbox" then all
    else
      all.(unread := all.unread + (if !row.isRead then count else 0),
           starred := all.starred + (if row.isStarred then count else 0),
           critical := all.critical + (if row.risk == Some(High) || row.risk == Some(Critical) then count else 0),
           unanalyzed := all.unanalyzed + (if row.category.None? then count else 0),
           categories := if row.category.None? then all.categories
                         else Bump(all.categories, CategoryKey(row.category.value), count))
  }

  lemma TalliedOneMore(groups: Groups, n: nat, counts: Counts)
    requires n < |groups| && Tallied(groups[..n], counts)
    ensures Tallied(groups[..n + 1], Add(counts, groups[n].0, groups[n].1))
  {
    var row, next := groups[n].0, Add(counts, groups[n].0, groups[n].1);
    SumOfOneMore(groups, n, Everything());
    SumOfOneMore(groups, n, Unread());
    SumOfOneMore(groups, n, Starred());
    SumOfOneMore(groups, n, Alarming());
    SumOfOneMore(groups, n, Unanalyzed());
    forall m
      ensures Get(next.folders, m) == Sum(groups[..n + 1], InFolder(m))
    {
      SumOfOneMore(groups, n, InFolder(m));
    }
    forall key
      ensures Get(next.categories, key) == Sum(groups[..n + 1], InCategory(key))
    {
      SumOfOneMore(groups, n, InCategory(key));
    }
  }

  /** message_counts: every counter is the number of rows it stands for, counted one by one. */
  method MessageCounts(groups: Groups, ghost rows: seq<Row>) returns (result: Counts)
    requires GroupsOf(groups, rows)
    ensures result.total == |rows|
    ensures forall m :: Get(result.folders, m) == Count(rows, InFolder(m))
    ensures result.unread == Count(rows, Unread()) && result.starred == Count(rows, Starred())
    ensures result.critical == Count(rows, Alarming()) && result.unanalyzed == Count(rows, Unanalyzed())
    ensures forall key :: Get(result.categories, key) == Count(rows, InCategory(key))
    ensures result.archive == Count(rows, InFolder("archive")) && result.trash == Count(rows, InFolder("trash"))
  {
    result := Counts(0, map[], 0, 0, 0, 0, map[], 0, 0);
    for i := 0 to |groups|
      invariant Tallied(groups[..i], result)
    {
      TalliedOneMore(groups, i, result);
      result := Add(result, groups[i].0, groups[i].1);
    }
    assert groups[..|groups|] == groups;
    result := result.(archive := Get(result.folders, "archive"), trash := Get(result.folders, "trash"));
    AllRollUp(groups, rows);
    EverythingCounts(rows);
  }

  lemma AllRollUp(groups: Groups, rows: seq<Row>)
    requires GroupsOf(groups, rows)
    ensures forall keep: Filter :: Sum(groups, keep) == Count(rows, keep)
  {
    forall keep: Filter
      ensures Sum(groups, keep) == Count(rows, keep)
    {
      RollUp(groups, rows, keep);
    }
  }

  lemma {:induction false} EverythingCounts(rows: seq<Row>)
    ensures Count(rows, Everything()) == |rows|
  {
    if rows != [] {
      EverythingCounts(rows[1..]);
    }
  }

  // ---------------------------------------------------------------- totals

  function Total(counts: map<string, nat>, keys: seq<string>): nat {
    if keys == [] then 0 else Get(counts, keys[0]) + Total(counts, keys[1..])
  }

  /** A name some rows have: their mailbox, or the category key of an analysed inbox row. */
  type Naming = Row -> Option<string>

  function Mailbox(): Naming { (row: Row) => Some(row.mailbox) }
  function Category(): Naming {
    (row: Row) => if row.mailbox == "inbox" && row.category.Some? then Some(CategoryKey(row.category.value)) else None
  }

  function By(name: Naming, key: string): Filter { (row: Row) => name(row) == Some(key) }
  function Has(name: Naming): Filter { (row: Row) => name(row).Some? }

  /** The rows under each of the keys, added up. */
  function Spread(rows: seq<Row>, keys: seq<string>, name: Naming): nat {
    if keys == [] then 0 else Count(rows, By(name, keys[0])) + Spread(rows, keys[1..], name)
  }

  ghost predicate Distinct(keys: seq<string>) {
    forall i, j :: 0 <= i < j < |keys| ==> keys[i] != keys[j]
  }

  lemma {:induction false} SpreadOneMore(rows: seq<Row>, keys: seq<string>, name: Naming)
    requires rows != [] && Distinct(keys)
    ensures Spread(rows, keys, name) == Spread(rows[1..], keys, name)
                                        + if name(rows[0]).Some? && name(rows[0]).value in keys then 1 else 0
  {
    if keys != [] {
      SpreadOneMore(rows, keys[1..], name);
      assert forall i :: 0 <= i < |keys[1..]| ==> keys[1..][i] == keys[i + 1] != keys[0];
      assert forall key :: key in keys <==> key == keys[0] || key in keys[1..];
    }
  }

  lemma {:induction false} NothingSpread(keys: seq<string>, name: Naming)
    ensures Spread([], keys, name) == 0
  {
    if keys != [] {
      NothingSpread(keys[1..], name);
    }
  }

  lemma {:induction false} SpreadIsAll(rows: seq<Row>, keys: seq<string>, name: Naming)
    requires Distinct(keys) && forall row :: row in rows && name(row).Some? ==> name(row).value in keys
    ensures Spread(rows, keys, name) == Count(rows, Has(name))
  {
    if rows == [] {
      NothingSpread(keys, name);
    } else {
      SpreadOneMore(rows, keys, name);
      SpreadIsAll(rows[1..], keys, name);
    }
  }

  lemma {:induction false} SameCount(rows: seq<Row>, keep: Filter, other: Filter)
    requires forall row :: keep(row) == other(row)
    ensures Count(rows, keep) == Count(rows, other)
  {
    if rows != [] {
      SameCount(rows[1..], keep, other);
    }
  }

  lemma {:induction false} SomeCount(rows: seq<Row>, keep: Filter, row: Row)
    requires row in rows && keep(row)
    ensures Count(rows, keep) > 0
  {
    if rows[0] != row {
      SomeCount(rows[1..], keep, row);
    }
  }

  lemma {:induction false} TotalIsSpread(counts: map<string, nat>, keys: seq<string>, rows: seq<Row>, name: Naming)
    requires forall key :: Get(counts, key) == Count(rows, By(name, key))
    ensures Total(counts, keys) == Spread(rows, keys, name)
  {
    if keys != [] {
      TotalIsSpread(counts, keys[1..], rows, name);
    }
  }

  lemma AddsUp(counts: map<string, nat>, keys: seq<string>, rows: seq<Row>, name: Naming)
    requires Distinct(keys) && forall key :: key in keys <==> key in counts
    requires forall key :: Get(counts, key) == Count(rows, By(name, key))
    ensures Total(counts, keys) == Count(rows, Has(name))
  {
    TotalIsSpread(counts, keys, rows, name);
    forall row | row in rows && name(row).Some?
      ensures name(row).value in keys
    {
      SomeCount(rows, By(name, name(row).value), row);
      assert Get(counts, name(row).value) > 0;
    }
    SpreadIsAll(rows, keys, name);
  }

  lemma {:induction false} InboxSplits(rows: seq<Row>)
    ensures Count(rows, InFolder("inbox")) == Count(rows, Unanalyzed()) + Count(rows, Has(Category()))
  {
    if rows != [] {
      InboxSplits(rows[1..]);
    }
  }

  /** The folder counters add up to the total, and the inbox is its unanalysed messages plus its
      categories; `folders` and `categories` list the keys of the two dictionaries. */
  lemma CountersAddUp(result: Counts, rows: seq<Row>, folders: seq<string>, categories: seq<string>)
    requires result.total == |rows| && result.unanalyzed == Count(rows, Unanalyzed())
    requires forall m :: Get(result.folders, m) == Count(rows, InFolder(m))
    requires forall key :: Get(result.categories, key) == Count(rows, InCategory(key))
    requires Distinct(folders) && (forall m :: m in folders <==> m in result.folders)
    requires Distinct(categories) && (forall key :: key in categories <==> key in result.categories)
    ensures Total(result.folders, folders) == result.total
    ensures Get(result.folders, "inbox") == result.unanalyzed + Total(result.categories, categories)
  {
    forall m
      ensures Get(result.folders, m) == Count(rows, By(Mailbox(), m))
    {
      SameCount(rows, InFolder(m), By(Mailbox(), m));
    }
    AddsUp(result.folders, folders, rows, Mailbox());
    SameCount(rows, Has(Mailbox()), Everything());
    EverythingCounts(rows);
    forall key
      ensures Get(result.categories, key) == Count(rows, By(Category(), key))
    {
      SameCount(rows, InCategory(key), By(Category(), key));
    }
    AddsUp(result.categories, categories, rows, Category());
    InboxSplits(rows);
  }

  /** The number next to a category is the length of the list it opens, but for the filters that
      ask for unanalysed messages or for nothing. */
  lemma CounterIsListLength(category: string, rows: seq<Row>)
    requires category != "" && CategoryKey(category) !in UNANALYZED
    ensures Count(rows, InCategory(CategoryKey(category))) == Count(rows, Listed(category))
  {
    FilterMatchesCounter(category);
    SameCount(rows, InCategory(CategoryKey(category)), Listed(category));
  }

  function Listed(category: string): Filter { (row: Row) => row.mailbox == "inbox" && Admits(category, row) }
}
