/** Keyset pagination over any strictly ordered keys: the rows beyond the last key seen, in order,
    one more than the limit to learn whether there are more. */
module Keyset {
  import opened Wrappers

  ghost predicate StrictOrder<K(!new)>(less: (K, K) -> bool) {
    && (forall a :: !less(a, a))
    && (forall a, b, c :: less(a, b) && less(b, c) ==> less(a, c))
    && (forall a, b :: a != b ==> less(a, b) || less(b, a))
  }

  ghost function First<K(!new)>(rows: set<K>, less: (K, K) -> bool): (p: K)
    requires StrictOrder(less) && rows != {}
    ensures p in rows && forall q :: q in rows && q != p ==> less(p, q)
  {
    var x :| x in rows;
    if rows == {x} then x
    else
      var y := First(rows - {x}, less);
      assert forall q :: q in rows && q != x ==> q in rows - {x};
      if less(x, y) then x else y
  }

  /** ORDER BY the sort key. */
  ghost function Sorted<K(!new)>(rows: set<K>, less: (K, K) -> bool): seq<K>
    requires StrictOrder(less)
    decreases |rows|
  {
    if rows == {} then [] else [First(rows, less)] + Sorted(rows - {First(rows, less)}, less)
  }

  ghost predicate Increasing<K(!new)>(s: seq<K>, less: (K, K) -> bool) {
    forall i, j :: 0 <= i < j < |s| ==> less(s[i], s[j])
  }

  lemma {:induction false} SortedIsSorted<K(!new)>(rows: set<K>, less: (K, K) -> bool)
    requires StrictOrder(less)
    ensures Increasing(Sorted(rows, less), less) && |Sorted(rows, less)| == |rows|
    ensures forall p :: p in Sorted(rows, less) <==> p in rows
    decreases |rows|
  {
    if rows != {} {
      SortedIsSorted(rows - {First(rows, less)}, less);
    }
  }

  ghost function Beyond<K(!new)>(rows: set<K>, after: Option<K>, less: (K, K) -> bool): set<K> {
    set p | p in rows && (after.Some? ==> less(after.value, p))
  }

  lemma BeyondFirst<K(!new)>(rows: set<K>, less: (K, K) -> bool)
    requires StrictOrder(less) && rows != {}
    ensures Beyond(rows, Some(First(rows, less)), less) == rows - {First(rows, less)}
  {
  }

  lemma FirstIsNotBeyond<K(!new)>(rows: set<K>, last: K, less: (K, K) -> bool)
    requires StrictOrder(less) && rows != {} && last in rows - {First(rows, less)}
    ensures Beyond(rows, Some(last), less) == Beyond(rows - {First(rows, less)}, Some(last), less)
  {
    assert less(First(rows, less), last);
    assert !less(last, First(rows, less));
  }

  /** What follows the k-th row of the sorted relation is the sorted rest. */
  lemma {:induction false} SortedRest<K(!new)>(rows: set<K>, less: (K, K) -> bool, k: nat)
    requires StrictOrder(less) && k < |Sorted(rows, less)|
    ensures Sorted(Beyond(rows, Some(Sorted(rows, less)[k]), less), less) == Sorted(rows, less)[k + 1..]
    decreases |rows|
  {
    var rest := rows - {First(rows, less)};
    var sorted := Sorted(rest, less);
    assert Sorted(rows, less) == [First(rows, less)] + sorted;
    if k == 0 {
      BeyondFirst(rows, less);
    } else {
      SortedRest(rest, less, k - 1);
      SortedIsSorted(rest, less);
      assert sorted[k - 1] in sorted;
      FirstIsNotBeyond(rows, sorted[k - 1], less);
    }
  }

  /** A page: at most `limit` rows, and the last of them when there are more. */
  datatype Page<K> = Page(items: seq<K>, next: Option<K>)

  ghost function PageAfter<K(!new)>(rows: set<K>, after: Option<K>, limit: nat, less: (K, K) -> bool): (page: Page<K>)
    requires StrictOrder(less) && limit >= 1
    ensures page.next.Some? ==> page.items != [] && page.next.value == page.items[|page.items| - 1]
  {
    var found := Sorted(Beyond(rows, after, less), less);
    var fetched := if |found| > limit + 1 then found[..limit + 1] else found;
    var visible := if |fetched| > limit then fetched[..limit] else fetched;
    Page(visible, if |fetched| > limit then Some(visible[|visible| - 1]) else None)
  }

  lemma BehindPrefix<K>(s: seq<K>, n: nat, p: K) returns (j: nat)
    requires n <= |s| && p in s && p !in s[..n]
    ensures n <= j < |s| && s[j] == p
  {
    assert s == s[..n] + s[n..];
    assert p in s[n..];
    var k :| 0 <= k < |s[n..]| && s[n..][k] == p;
    j := n + k;
  }

  /** A page holds the nearest rows, in order, and nothing beyond them is hidden by its cursor. */
  lemma PageShape<K(!new)>(rows: set<K>, after: Option<K>, limit: nat, less: (K, K) -> bool)
    requires StrictOrder(less) && limit >= 1
    ensures var page, left := PageAfter(rows, after, limit, less), Beyond(rows, after, less);
            && |page.items| <= limit && (page.next.Some? ==> |page.items| == limit) && page.items <= Sorted(left, less)
            && (page.next.None? ==> page.items == Sorted(left, less))
            && Increasing(page.items, less)
            && (forall p :: p in page.items ==> p in left)
            && (forall p :: p in left && p !in page.items ==> page.next.Some? && less(page.next.value, p))
  {
    var page, left := PageAfter(rows, after, limit, less), Beyond(rows, after, less);
    var found := Sorted(left, less);
    SortedIsSorted(left, less);
    assert page.items == found[..|page.items|];
    assert forall i :: 0 <= i < |page.items| ==> page.items[i] == found[i] && found[i] in found;
    forall p | p in left && p !in page.items
      ensures page.next.Some? && less(page.next.value, p)
    {
      var j := BehindPrefix(found, |page.items|, p);
    }
  }

  lemma BeyondLast<K(!new)>(rows: set<K>, after: Option<K>, last: K, less: (K, K) -> bool)
    requires StrictOrder(less) && last in Beyond(rows, after, less)
    ensures Beyond(rows, Some(last), less) == Beyond(Beyond(rows, after, less), Some(last), less)
  {
  }

  /** The first n + 1 rows of what is left, and what is left behind them. */
  lemma SplitBehind<K(!new)>(rows: set<K>, after: Option<K>, n: nat, less: (K, K) -> bool)
    requires StrictOrder(less) && n < |Sorted(Beyond(rows, after, less), less)|
    ensures var sorted := Sorted(Beyond(rows, after, less), less);
            var rest := Beyond(rows, Some(sorted[n]), less);
            Sorted(rest, less) == sorted[n + 1..] && |rest| < |Beyond(rows, after, less)|
  {
    var left := Beyond(rows, after, less);
    var sorted := Sorted(left, less);
    SortedIsSorted(left, less);
    SortedRest(left, less, n);
    assert sorted[n] in sorted;
    BeyondLast(rows, after, sorted[n], less);
    SortedIsSorted(Beyond(rows, Some(sorted[n]), less), less);
  }

  lemma FewerLeft<K(!new)>(rows: set<K>, after: Option<K>, limit: nat, less: (K, K) -> bool)
    requires StrictOrder(less) && limit >= 1 && PageAfter(rows, after, limit, less).next.Some?
    ensures var page := PageAfter(rows, after, limit, less);
            && Sorted(Beyond(rows, page.next, less), less) == Sorted(Beyond(rows, after, less), less)[|page.items|..]
            && |Beyond(rows, page.next, less)| < |Beyond(rows, after, less)|
  {
    var page := PageAfter(rows, after, limit, less);
    PageShape(rows, after, limit, less);
    assert Sorted(Beyond(rows, after, less), less)[|page.items| - 1] == page.next.value;
    SplitBehind(rows, after, |page.items| - 1, less);
  }

  /** Following the cursors of an unchanging relation to the end. */
  ghost function Walk<K(!new)>(rows: set<K>, after: Option<K>, limit: nat, less: (K, K) -> bool): seq<K>
    requires StrictOrder(less) && limit >= 1
    decreases |Beyond(rows, after, less)|
  {
    var page := PageAfter(rows, after, limit, less);
    if page.next.None? then page.items
    else
      FewerLeft(rows, after, limit, less);
      page.items + Walk(rows, page.next, limit, less)
  }

  /** The pages of an unchanging relation, put together, are the sorted relation: the walk ends,
      loses no row and repeats none, whatever the limit. */
  lemma {:induction false} WalkIsSorted<K(!new)>(rows: set<K>, after: Option<K>, limit: nat, less: (K, K) -> bool)
    requires StrictOrder(less) && limit >= 1
    ensures Walk(rows, after, limit, less) == Sorted(Beyond(rows, after, less), less)
    decreases |Beyond(rows, after, less)|
  {
    var page := PageAfter(rows, after, limit, less);
    PageShape(rows, after, limit, less);
    if page.next.Some? {
      FewerLeft(rows, after, limit, less);
      WalkIsSorted(rows, page.next, limit, less);
      assert page.items == Sorted(Beyond(rows, after, less), less)[..|page.items|];
    }
  }

  // ---------------------------------------------------------------- a relation that changes between requests

  /** pages[i] answers the i-th request, made while the relation was rows[i]; the last has no cursor. */
  ghost predicate Answered<K(!new)>(rows: seq<set<K>>, pages: seq<Page<K>>, after: Option<K>, limit: nat, less: (K, K) -> bool)
    requires StrictOrder(less) && limit >= 1
  {
    && |rows| == |pages| > 0
    && pages[0] == PageAfter(rows[0], after, limit, less)
    && if pages[0].next.None? then |pages| == 1 else Answered(rows[1..], pages[1..], pages[0].next, limit, less)
  }

  function Delivered<K>(pages: seq<Page<K>>): seq<K> {
    if pages == [] then [] else pages[0].items + Delivered(pages[1..])
  }

  ghost predicate AllAfter<K(!new)>(s: seq<K>, after: Option<K>, less: (K, K) -> bool) {
    after.Some? ==> forall i :: 0 <= i < |s| ==> less(after.value, s[i])
  }

  /** However the relation changes between the requests, what is delivered stays in order. */
  lemma {:induction false} DeliveredInOrder<K(!new)>(rows: seq<set<K>>, pages: seq<Page<K>>, after: Option<K>, limit: nat,
                                                     less: (K, K) -> bool)
    requires StrictOrder(less) && limit >= 1 && Answered(rows, pages, after, limit, less)
    ensures Increasing(Delivered(pages), less) && AllAfter(Delivered(pages), after, less)
    decreases |pages|
  {
    var items := pages[0].items;
    PageShape(rows[0], after, limit, less);
    assert forall i :: 0 <= i < |items| ==> items[i] in items;
    if pages[0].next.Some? {
      DeliveredInOrder(rows[1..], pages[1..], pages[0].next, limit, less);
      JoinedPages(items, Delivered(pages[1..]), after, less);
    } else {
      assert Delivered(pages) == items + [];
    }
  }

  lemma JoinedPages<K(!new)>(a: seq<K>, b: seq<K>, after: Option<K>, less: (K, K) -> bool)
    requires StrictOrder(less) && a != [] && Increasing(a, less) && AllAfter(a, after, less)
    requires Increasing(b, less) && AllAfter(b, Some(a[|a| - 1]), less)
    ensures Increasing(a + b, less) && AllAfter(a + b, after, less)
  {
    var s := a + b;
    forall i, j | 0 <= i < j < |s|
      ensures less(s[i], s[j])
    {
      if i < |a| <= j {
        assert s[j] == b[j - |a|] && less(a[|a| - 1], b[j - |a|]);
      }
    }
    if after.Some? {
      assert less(after.value, a[|a| - 1]);
    }
  }

  lemma {:induction false} PresentRowIsDelivered<K(!new)>(rows: seq<set<K>>, pages: seq<Page<K>>, after: Option<K>, limit: nat,
                                                          less: (K, K) -> bool, p: K)
    requires StrictOrder(less) && limit >= 1 && Answered(rows, pages, after, limit, less)
    requires (forall i :: 0 <= i < |rows| ==> p in rows[i]) && (after.Some? ==> less(after.value, p))
    ensures p in Delivered(pages)
    decreases |pages|
  {
    PageShape(rows[0], after, limit, less);
    assert p in Beyond(rows[0], after, less);
    if p !in pages[0].items {
      PresentRowIsDelivered(rows[1..], pages[1..], pages[0].next, limit, less, p);
    }
  }

  /** What is delivered first was in the relation of an earlier request, or of the same one. */
  lemma {:induction false} DeliveredFrom<K(!new)>(rows: seq<set<K>>, pages: seq<Page<K>>, after: Option<K>, limit: nat,
                                                  less: (K, K) -> bool, i: nat, j: nat) returns (a: nat, b: nat)
    requires StrictOrder(less) && limit >= 1 && Answered(rows, pages, after, limit, less)
    requires i <= j < |Delivered(pages)|
    ensures a <= b < |rows| && Delivered(pages)[i] in rows[a] && Delivered(pages)[j] in rows[b]
    decreases |pages|
  {
    var items := pages[0].items;
    PageShape(rows[0], after, limit, less);
    assert forall k :: 0 <= k < |items| ==> items[k] in items && Delivered(pages)[k] == items[k];
    a, b := 0, 0;
    if j >= |items| {
      assert pages[0].next.Some? by {
        assert pages[0].next.None? ==> Delivered(pages) == items + [];
      }
      var first := if i >= |items| then i - |items| else 0;
      var a1, b1 := DeliveredFrom(rows[1..], pages[1..], pages[0].next, limit, less, first, j - |items|);
      b := b1 + 1;
      if i >= |items| {
        a := a1 + 1;
      }
    }
  }

  /** A sort key present at every request is delivered exactly once, whatever is inserted or removed
      around it; no sort key is ever delivered twice. */
  lemma ConcurrentWalkIsExact<K(!new)>(rows: seq<set<K>>, pages: seq<Page<K>>, limit: nat, less: (K, K) -> bool, p: K)
    requires StrictOrder(less) && limit >= 1 && Answered(rows, pages, None, limit, less)
    ensures (forall i :: 0 <= i < |rows| ==> p in rows[i]) ==> p in Delivered(pages)
    ensures forall i, j :: 0 <= i < j < |Delivered(pages)| ==> Delivered(pages)[i] != Delivered(pages)[j]
  {
    DeliveredInOrder(rows, pages, None, limit, less);
    if forall i :: 0 <= i < |rows| ==> p in rows[i] {
      PresentRowIsDelivered(rows, pages, None, limit, less, p);
    }
  }

  /** Requests against an unchanging relation answer its walk. */
  lemma {:induction false} UnchangingAnswers<K(!new)>(rows: seq<set<K>>, pages: seq<Page<K>>, after: Option<K>, limit: nat,
                                                      less: (K, K) -> bool, relation: set<K>)
    requires StrictOrder(less) && limit >= 1 && Answered(rows, pages, after, limit, less)
    requires forall i :: 0 <= i < |rows| ==> rows[i] == relation
    ensures Delivered(pages) == Walk(relation, after, limit, less)
    decreases |pages|
  {
    if pages[0].next.Some? {
      UnchangingAnswers(rows[1..], pages[1..], pages[0].next, limit, less, relation);
    } else {
      assert Delivered(pages) == pages[0].items + [];
    }
  }

  /** Every page but the last is full, even when the relation changes. */
  lemma {:induction false} PagesAreFull<K(!new)>(rows: seq<set<K>>, pages: seq<Page<K>>, after: Option<K>, limit: nat,
                                                 less: (K, K) -> bool)
    requires StrictOrder(less) && limit >= 1 && Answered(rows, pages, after, limit, less)
    ensures forall i :: 0 <= i < |pages| - 1 ==> |pages[i].items| == limit
    decreases |pages|
  {
    PageShape(rows[0], after, limit, less);
    if pages[0].next.Some? {
      PagesAreFull(rows[1..], pages[1..], pages[0].next, limit, less);
      assert forall i :: 1 <= i < |pages| ==> pages[i] == pages[1..][i - 1];
    }
  }

  /** Against an unchanging relation a client that follows the cursors comes to a last page. */
  lemma {:induction false} WalkEnds<K(!new)>(relation: set<K>, after: Option<K>, limit: nat, less: (K, K) -> bool)
    returns (rows: seq<set<K>>, pages: seq<Page<K>>)
    requires StrictOrder(less) && limit >= 1
    ensures Answered(rows, pages, after, limit, less) && forall i :: 0 <= i < |rows| ==> rows[i] == relation
    decreases |Beyond(relation, after, less)|
  {
    var page := PageAfter(relation, after, limit, less);
    rows, pages := [relation], [page];
    if page.next.Some? {
      FewerLeft(relation, after, limit, less);
      var moreRows, morePages := WalkEnds(relation, page.next, limit, less);
      rows, pages := rows + moreRows, pages + morePages;
      assert rows[1..] == moreRows && pages[1..] == morePages;
    }
  }
}
