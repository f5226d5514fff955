/** dashboard/repository.py and api/dashboard.py: pages as the API hands them out. Messages come
    newest first, a thread oldest first. A row is its sort key, which ends in its id. */
module Paging {
  import opened Wrappers
  import opened Cursor
  import Keyset

  predicate LexLess(a: seq<nat>, b: seq<nat>) {
    b != [] && (a == [] || a[0] < b[0] || (a[0] == b[0] && LexLess(a[1..], b[1..])))
  }

  /** Time first, then id. */
  predicate Less(a: Position, b: Position) {
    LexLess(a.time, b.time) || (a.time == b.time && LexLess(a.id, b.id))
  }

  lemma {:induction false} LexIsOrder(a: seq<nat>, b: seq<nat>, c: seq<nat>)
    ensures !LexLess(a, a)
    ensures LexLess(a, b) && LexLess(b, c) ==> LexLess(a, c)
    ensures a != b ==> LexLess(a, b) || LexLess(b, a)
  {
    if a != [] {
      LexIsOrder(a[1..], if b == [] then [] else b[1..], if c == [] then [] else c[1..]);
      if b != [] && a[0] == b[0] && a[1..] == b[1..] {
        assert a == [a[0]] + a[1..] && b == [b[0]] + b[1..];
      }
    }
  }

  function Order(ascending: bool): (Position, Position) -> bool {
    (a, b) => if ascending then Less(a, b) else Less(b, a)
  }

  lemma OrderIsStrict(ascending: bool)
    ensures Keyset.StrictOrder(Order(ascending))
  {
    var less := Order(ascending);
    forall a, b, c: Position
      ensures !less(a, a) && (less(a, b) && less(b, c) ==> less(a, c)) && (a != b ==> less(a, b) || less(b, a))
    {
      LexIsOrder(a.time, b.time, c.time);
      LexIsOrder(a.id, b.id, c.id);
      LexIsOrder(c.time, b.time, a.time);
      LexIsOrder(c.id, b.id, a.id);
    }
    forall a: Position
      ensures !less(a, a)
    {
      LexIsOrder(a.time, a.time, a.time);
      LexIsOrder(a.id, a.id, a.id);
    }
  }

  /** The filtered rows at one moment. */
  type Relation = set<Position>

  ghost predicate Valid(rows: Relation) {
    forall p :: p in rows ==> ValidPosition(p)
  }

  datatype Page = Page(items: seq<Position>, nextCursor: Option<string>)

  ghost function Text(page: Keyset.Page<Position>): Page
    requires page.next.Some? ==> ValidPosition(page.next.value)
  {
    Page(page.items, if page.next.Some? then Some(EncodeCursor(page.next.value)) else None)
  }

  /** A cursor parameter: an empty one counts as none, an unreadable one is refused. */
  function ReadCursor(cursor: Option<string>): Result<Option<Position>, ()> {
    if cursor.GetOr("") == "" then Ok(None)
    else if DecodeCursor(cursor.value).None? then Err(())
    else Ok(DecodeCursor(cursor.value))
  }

  ghost function Found(rows: Relation, after: Option<Position>, limit: nat, ascending: bool): (page: Keyset.Page<Position>)
    requires limit >= 1
  {
    OrderIsStrict(ascending);
    Keyset.PageAfter(rows, after, limit, Order(ascending))
  }

  lemma FoundRows(rows: Relation, after: Option<Position>, limit: nat, ascending: bool)
    requires Valid(rows) && limit >= 1
    ensures Found(rows, after, limit, ascending).next.Some? ==> ValidPosition(Found(rows, after, limit, ascending).next.value)
  {
    OrderIsStrict(ascending);
    Keyset.PageShape(rows, after, limit, Order(ascending));
    var page := Found(rows, after, limit, ascending);
    if page.next.Some? {
      assert page.next.value in page.items;
    }
  }

  /** One request: its page, or None for "invalid pagination cursor". */
  ghost function Request(rows: Relation, cursor: Option<string>, limit: nat, ascending: bool): Option<Page>
    requires Valid(rows) && limit >= 1
  {
    match ReadCursor(cursor)
    case Err(_) => None
    case Ok(after) =>
      FoundRows(rows, after, limit, ascending);
      Some(Text(Found(rows, after, limit, ascending)))
  }

  /** The cursor of a page reads back as the key of its last row. */
  lemma AnswerIsFound(rows: Relation, cursor: Option<string>, limit: nat, ascending: bool)
    requires Valid(rows) && limit >= 1 && Request(rows, cursor, limit, ascending).Some?
    ensures ReadCursor(cursor).Ok?
    ensures var page := Request(rows, cursor, limit, ascending).value;
            var found := Found(rows, ReadCursor(cursor).value, limit, ascending);
            && page.items == found.items && (page.nextCursor.Some? <==> found.next.Some?)
            && ReadCursor(page.nextCursor) == Ok(found.next)
  {
    var after := ReadCursor(cursor).value;
    FoundRows(rows, after, limit, ascending);
    if Found(rows, after, limit, ascending).next.Some? {
      CursorRoundTrip(Found(rows, after, limit, ascending).next.value);
    }
  }

  ghost predicate AllValid(rows: seq<Relation>) {
    forall i :: 0 <= i < |rows| ==> Valid(rows[i])
  }

  /** A client follows the cursors: pages[i] answers the i-th request, made while the relation was
      rows[i], and the last page has no cursor. */
  ghost predicate Followed(rows: seq<Relation>, pages: seq<Page>, cursor: Option<string>, limit: nat, ascending: bool)
    requires limit >= 1 && AllValid(rows)
    decreases |rows|
  {
    && |rows| == |pages| > 0
    && Request(rows[0], cursor, limit, ascending) == Some(pages[0])
    && if pages[0].nextCursor.None? then |pages| == 1
       else Followed(rows[1..], pages[1..], pages[0].nextCursor, limit, ascending)
  }

  function Shown(pages: seq<Page>): seq<Position> {
    if pages == [] then [] else pages[0].items + Shown(pages[1..])
  }

  function Keyed(page: Page): Keyset.Page<Position> {
    Keyset.Page(page.items, match ReadCursor(page.nextCursor) case Ok(after) => after case Err(_) => None)
  }

  function AllKeyed(pages: seq<Page>): seq<Keyset.Page<Position>> {
    if pages == [] then [] else [Keyed(pages[0])] + AllKeyed(pages[1..])
  }

  lemma {:induction false} KeyedDelivers(pages: seq<Page>)
    ensures Keyset.Delivered(AllKeyed(pages)) == Shown(pages) && |AllKeyed(pages)| == |pages|
  {
    if pages != [] {
      KeyedDelivers(pages[1..]);
      assert AllKeyed(pages)[1..] == AllKeyed(pages[1..]);
    }
  }

  lemma KeyedFirst(pages: seq<Page>)
    requires pages != []
    ensures |AllKeyed(pages)| == |pages|
    ensures AllKeyed(pages)[0] == Keyed(pages[0]) && AllKeyed(pages)[1..] == AllKeyed(pages[1..])
  {
    KeyedDelivers(pages);
  }

  lemma AnswerIsKeyed(rows: Relation, page: Page, cursor: Option<string>, limit: nat, ascending: bool)
    requires Valid(rows) && limit >= 1 && Request(rows, cursor, limit, ascending) == Some(page)
    ensures Keyset.StrictOrder(Order(ascending)) && ReadCursor(cursor).Ok?
    ensures Keyed(page) == Keyset.PageAfter(rows, ReadCursor(cursor).value, limit, Order(ascending))
    ensures Keyed(page).next.Some? <==> page.nextCursor.Some?
    ensures page.nextCursor.Some? ==> ReadCursor(page.nextCursor) == Ok(Keyed(page).next)
  {
    OrderIsStrict(ascending);
    AnswerIsFound(rows, cursor, limit, ascending);
  }

  lemma AnsweredThen(rows: seq<Relation>, keyed: seq<Keyset.Page<Position>>, after: Option<Position>,
                     limit: nat, ascending: bool)
    requires limit >= 1 && Keyset.StrictOrder(Order(ascending)) && |rows| == |keyed| > 0
    requires keyed[0] == Keyset.PageAfter(rows[0], after, limit, Order(ascending)) && keyed[0].next.Some?
    requires Keyset.Answered(rows[1..], keyed[1..], keyed[0].next, limit, Order(ascending))
    ensures Keyset.Answered(rows, keyed, after, limit, Order(ascending))
  {
  }

  lemma AnsweredLast(rows: seq<Relation>, keyed: seq<Keyset.Page<Position>>, after: Option<Position>,
                     limit: nat, ascending: bool)
    requires limit >= 1 && Keyset.StrictOrder(Order(ascending)) && |rows| == |keyed| == 1
    requires keyed[0] == Keyset.PageAfter(rows[0], after, limit, Order(ascending)) && keyed[0].next.None?
    ensures Keyset.Answered(rows, keyed, after, limit, Order(ascending))
  {
  }

  /** Cursors in text form lead through the same pages as the keys they stand for. */
  lemma {:induction false} TextCursorsAreKeys(rows: seq<Relation>, pages: seq<Page>, cursor: Option<string>,
                                              limit: nat, ascending: bool)
    requires limit >= 1 && AllValid(rows) && Followed(rows, pages, cursor, limit, ascending)
    ensures Keyset.StrictOrder(Order(ascending)) && ReadCursor(cursor).Ok?
    ensures Keyset.Answered(rows, AllKeyed(pages), ReadCursor(cursor).value, limit, Order(ascending))
    decreases |rows|
  {
    var keyed := AllKeyed(pages);
    KeyedFirst(pages);
    AnswerIsKeyed(rows[0], pages[0], cursor, limit, ascending);
    if pages[0].nextCursor.Some? {
      TextCursorsAreKeys(rows[1..], pages[1..], pages[0].nextCursor, limit, ascending);
      AnsweredThen(rows, keyed, ReadCursor(cursor).value, limit, ascending);
    } else {
      AnsweredLast(rows, keyed, ReadCursor(cursor).value, limit, ascending);
    }
  }

  /** Over an unchanging relation the pages, put together, are exactly the relation in order. */
  lemma PagesAreTheRelation(rows: seq<Relation>, pages: seq<Page>, limit: nat, ascending: bool, relation: Relation)
    requires limit >= 1 && AllValid(rows) && Followed(rows, pages, None, limit, ascending)
    requires forall i :: 0 <= i < |rows| ==> rows[i] == relation
    ensures forall i, j :: 0 <= i < j < |Shown(pages)| ==> Order(ascending)(Shown(pages)[i], Shown(pages)[j])
    ensures |Shown(pages)| == |relation| && forall p :: p in Shown(pages) <==> p in relation
  {
    TextCursorsAreKeys(rows, pages, None, limit, ascending);
    KeyedDelivers(pages);
    Keyset.UnchangingAnswers(rows, AllKeyed(pages), None, limit, Order(ascending), relation);
    Keyset.WalkIsSorted(relation, None, limit, Order(ascending));
    assert Keyset.Beyond(relation, None, Order(ascending)) == relation;
    Keyset.SortedIsSorted(relation, Order(ascending));
  }

  /** While rows come, go and move between the requests: no sort key is shown twice, and one that is
      there at every request is shown. */
  lemma ConcurrentPagesAreExact(rows: seq<Relation>, pages: seq<Page>, limit: nat, ascending: bool, p: Position)
    requires limit >= 1 && AllValid(rows) && Followed(rows, pages, None, limit, ascending)
    ensures (forall i :: 0 <= i < |rows| ==> p in rows[i]) ==> p in Shown(pages)
    ensures forall i, j :: 0 <= i < j < |Shown(pages)| ==> Shown(pages)[i] != Shown(pages)[j]
  {
    TextCursorsAreKeys(rows, pages, None, limit, ascending);
    KeyedDelivers(pages);
    Keyset.ConcurrentWalkIsExact(rows, AllKeyed(pages), limit, Order(ascending), p);
  }

  /** Ids are primary keys: at one moment a row has one sort key. */
  ghost predicate OneKeyEach(rows: Relation) {
    forall p, q :: p in rows && q in rows && p.id == q.id ==> p == q
  }

  /** Between two requests a row moved from p to q, further down the list. */
  ghost predicate MovedDown(rows: seq<Relation>, p: Position, q: Position, ascending: bool) {
    p.id == q.id && p.time != q.time && Order(ascending)(p, q)
    && exists a, b :: 0 <= a < b < |rows| && p in rows[a] && q in rows[b]
  }

  /** The same over ids. A row whose sort key stays the same is shown once and under no other key;
      a row is shown twice only if it moved down the list between two requests. */
  lemma IdsAreShownOnce(rows: seq<Relation>, pages: seq<Page>, limit: nat, ascending: bool, p: Position)
    requires limit >= 1 && AllValid(rows) && Followed(rows, pages, None, limit, ascending)
    requires forall i :: 0 <= i < |rows| ==> OneKeyEach(rows[i])
    ensures (forall i :: 0 <= i < |rows| ==> p in rows[i]) ==>
            exists k :: 0 <= k < |Shown(pages)| && Shown(pages)[k] == p
              && forall j :: 0 <= j < |Shown(pages)| && j != k ==> Shown(pages)[j].id != p.id
    ensures forall i, j :: 0 <= i < j < |Shown(pages)| && Shown(pages)[i].id == Shown(pages)[j].id ==>
            MovedDown(rows, Shown(pages)[i], Shown(pages)[j], ascending)
  {
    var shown := Shown(pages);
    ConcurrentPagesAreExact(rows, pages, limit, ascending, p);
    TextCursorsAreKeys(rows, pages, None, limit, ascending);
    KeyedDelivers(pages);
    forall i, j | 0 <= i < j < |shown| && shown[i].id == shown[j].id
      ensures MovedDown(rows, shown[i], shown[j], ascending)
    {
      Keyset.DeliveredInOrder(rows, AllKeyed(pages), None, limit, Order(ascending));
      var a, b := Keyset.DeliveredFrom(rows, AllKeyed(pages), None, limit, Order(ascending), i, j);
      assert shown[i] != shown[j];
    }
    if forall i :: 0 <= i < |rows| ==> p in rows[i] {
      var k :| 0 <= k < |shown| && shown[k] == p;
      forall j | 0 <= j < |shown| && j != k
        ensures shown[j].id != p.id
      {
        var a, b := Keyset.DeliveredFrom(rows, AllKeyed(pages), None, limit, Order(ascending), j, j);
      }
    }
  }

  /** Every cursor that a page hands out is accepted by the next request. */
  lemma CursorsAreAccepted(rows: Relation, later: Relation, cursor: Option<string>, limit: nat, ascending: bool)
    requires limit >= 1 && Valid(rows) && Valid(later)
    ensures var answer := Request(rows, cursor, limit, ascending);
            answer.Some? ==> Request(later, answer.value.nextCursor, limit, ascending).Some?
  {
    if Request(rows, cursor, limit, ascending).Some? {
      AnswerIsFound(rows, cursor, limit, ascending);
    }
  }
}
