/** Keyset pagination, and the client loops that walk through all pages. */
module Pagination {
  import opened Options

  /**
   The result of the base query: the id of every row, in the order in which the database finds them, and the value of
   the sort column, possibly NULL, by id.  A join can repeat an id.
   */
  datatype Table = Table(values: map<nat, Option<int>>, rows: seq<nat>)

  datatype Direction = Ascending | Descending

  /** `sorted` says whether a sort column was named; without one, rows are ordered by id. */
  datatype Page = Page(
    limit: Option<int>,
    before: Option<nat>,
    after: Option<nat>,
    sorted: bool,
    direction: Option<Direction>)

  const DEFAULT_LIMIT := 1000

  // ----- conditions and order -----

  /** The subquery for the sort value of a row; NULL if there is no such row. */
  function ValueOf(t: Table, id: nat): Option<int> {
    if id in t.rows && id in t.values then t.values[id] else None
  }

  /** A comparison of (sort value, id) pairs in SQL: never true when a sort value is NULL. */
  predicate Greater(t: Table, sorted: bool, id: nat, than: nat) {
    if !sorted then id > than
    else
      var a, b := ValueOf(t, id), ValueOf(t, than);
      a.Some? && b.Some? && (a.value > b.value || (a.value == b.value && id > than))
  }

  predicate Less(t: Table, sorted: bool, id: nat, than: nat) {
    if !sorted then id < than
    else
      var a, b := ValueOf(t, id), ValueOf(t, than);
      a.Some? && b.Some? && (a.value < b.value || (a.value == b.value && id < than))
  }

  predicate Passes(t: Table, page: Page, id: nat) {
    && (page.after.Some? ==> Greater(t, page.sorted, id, page.after.value))
    && (page.before.Some? ==> Less(t, page.sorted, id, page.before.value))
  }

  function Filter(t: Table, page: Page, ids: seq<nat>): (kept: seq<nat>)
    ensures |kept| <= |ids|
  {
    if ids == [] then []
    else
      var kept := Filter(t, page, ids[..|ids| - 1]);
      if Passes(t, page, ids[|ids| - 1]) then kept + [ids[|ids| - 1]] else kept
  }

  /** The rows that pass both cursors. */
  function Passing(t: Table, page: Page): seq<nat> {
    Filter(t, page, t.rows)
  }

  predicate IsDescending(page: Page) {
    page.direction == Some(Descending)
  }

  /** Order of nullable values: NULL is the smallest. */
  predicate NullableLess(a: Option<int>, b: Option<int>) {
    b.Some? && (a.None? || a.value < b.value)
  }

  /** Rows of id `a` are listed before rows of id `b`. */
  predicate Comes(t: Table, page: Page, a: nat, b: nat) {
    var v, w := ValueOf(t, a), ValueOf(t, b);
    if !page.sorted || v == w then if IsDescending(page) then b < a else a < b
    else if IsDescending(page) then NullableLess(w, v)
    else NullableLess(v, w)
  }

  ghost predicate IsOrdered(t: Table, page: Page, list: seq<nat>) {
    forall i, j :: 0 <= i < j < |list| ==> list[i] == list[j] || Comes(t, page, list[i], list[j])
  }

  lemma ComesIsTotal(t: Table, page: Page, a: nat, b: nat, c: nat)
    ensures !Comes(t, page, a, a)
    ensures a != b ==> Comes(t, page, a, b) || Comes(t, page, b, a)
    ensures Comes(t, page, a, b) && Comes(t, page, b, c) ==> Comes(t, page, a, c)
  {
  }

  // ----- one page -----

  function Insert(t: Table, page: Page, list: seq<nat>, id: nat): (out: seq<nat>)
    ensures multiset(out) == multiset(list) + multiset{id}
  {
    if list == [] then [id]
    else
      var n := |list| - 1;
      assert list == list[..n] + [list[n]];
      if Comes(t, page, id, list[n]) then Insert(t, page, list[..n], id) + [list[n]] else list + [id]
  }

  function InOrder(t: Table, page: Page, ids: seq<nat>): (list: seq<nat>)
    ensures multiset(list) == multiset(ids)
  {
    if ids == [] then []
    else
      assert ids == ids[..|ids| - 1] + [ids[|ids| - 1]];
      Insert(t, page, InOrder(t, page, ids[..|ids| - 1]), ids[|ids| - 1])
  }

  /** All rows that pass both cursors, in listing order. */
  function Listed(t: Table, page: Page): (list: seq<nat>)
    ensures multiset(list) == multiset(Passing(t, page))
  {
    InOrder(t, page, Passing(t, page))
  }

  function LimitOf(page: Page): int {
    if page.limit.Some? then page.limit.value else DEFAULT_LIMIT
  }

  /** A negative limit is no limit. */
  function Take(page: Page, list: seq<nat>): seq<nat> {
    if 0 <= LimitOf(page) < |list| then list[..LimitOf(page)] else list
  }

  /** The result of the paginated query. */
  function PageOf(t: Table, page: Page): seq<nat> {
    Take(page, Listed(t, page))
  }

  lemma {:induction false} InsertIsOrdered(t: Table, page: Page, list: seq<nat>, id: nat)
    requires IsOrdered(t, page, list)
    ensures IsOrdered(t, page, Insert(t, page, list, id))
  {
    hide Comes;
    if list != [] {
      var n := |list| - 1;
      if Comes(t, page, id, list[n]) {
        InsertIsOrdered(t, page, list[..n], id);
        var out := Insert(t, page, list[..n], id);
        forall i | 0 <= i < |out| ensures out[i] == list[n] || Comes(t, page, out[i], list[n]) {
          assert out[i] in multiset(out);
          assert out[i] == id || out[i] in list[..n];
        }
      } else {
        forall i | 0 <= i <= n ensures list[i] == id || Comes(t, page, list[i], id) {
          ComesIsTotal(t, page, list[n], id, id);
          ComesIsTotal(t, page, list[i], list[n], id);
        }
      }
    }
  }

  lemma {:induction false} InOrderIsOrdered(t: Table, page: Page, ids: seq<nat>)
    ensures IsOrdered(t, page, InOrder(t, page, ids))
  {
    if ids != [] {
      InOrderIsOrdered(t, page, ids[..|ids| - 1]);
      InsertIsOrdered(t, page, InOrder(t, page, ids[..|ids| - 1]), ids[|ids| - 1]);
    }
  }

  /** The same rows have only one list in listing order. */
  lemma {:induction false} ListedIsUnique(t: Table, page: Page, a: seq<nat>, b: seq<nat>)
    requires IsOrdered(t, page, a) && IsOrdered(t, page, b) && multiset(a) == multiset(b)
    ensures a == b
  {
    hide Comes;
    assert |a| == |multiset(a)| == |b|;
    if a != [] {
      assert a[0] in multiset(b) && b[0] in multiset(a);
      FirstComesFirst(t, page, a, b[0]);
      FirstComesFirst(t, page, b, a[0]);
      ComesIsTotal(t, page, a[0], b[0], a[0]);
      assert a == [a[0]] + a[1..] && b == [b[0]] + b[1..];
      CancelOne(a[0], multiset(a[1..]), multiset(b[1..]));
      ListedIsUnique(t, page, a[1..], b[1..]);
    }
  }

  lemma FirstComesFirst(t: Table, page: Page, list: seq<nat>, id: nat)
    requires IsOrdered(t, page, list) && id in list
    ensures list[0] == id || Comes(t, page, list[0], id)
  {
    hide Comes;
    var k :| 0 <= k < |list| && list[k] == id;
  }

  lemma CancelOne(x: nat, a: multiset<nat>, b: multiset<nat>)
    requires multiset{x} + a == multiset{x} + b
    ensures a == b
  {
    assert a == multiset{x} + a - multiset{x};
  }

  // ----- the query -----

  datatype Condition = After(id: nat) | Before(id: nat)

  predicate Holds(t: Table, sorted: bool, c: Condition, id: nat) {
    match c
    case After(than) => Greater(t, sorted, id, than)
    case Before(than) => Less(t, sorted, id, than)
  }

  predicate AllHold(t: Table, sorted: bool, conditions: seq<Condition>, id: nat) {
    forall c | c in conditions :: Holds(t, sorted, c, id)
  }

  function AfterCondition(page: Page): seq<Condition> {
    if page.after.Some? then [After(page.after.value)] else []
  }

  function BeforeCondition(page: Page): seq<Condition> {
    if page.before.Some? then [Before(page.before.value)] else []
  }

  lemma ConditionsSelect(t: Table, page: Page, id: nat)
    ensures AllHold(t, page.sorted, AfterCondition(page) + BeforeCondition(page), id) <==> Passes(t, page, id)
  {
    assert page.after.Some? ==> After(page.after.value) in AfterCondition(page);
    assert page.before.Some? ==> Before(page.before.value) in BeforeCondition(page);
    var both := AfterCondition(page) + BeforeCondition(page);
    assert forall c :: c in both <==> c in AfterCondition(page) || c in BeforeCondition(page);
  }

  /** Collects the cursor conditions one by one, then filters, orders and limits. */
  method RunPaginated(t: Table, page: Page) returns (list: seq<nat>)
    ensures list == PageOf(t, page)
  {
    hide Passes, AllHold, InOrder;
    var conditions: seq<Condition> := [];
    if page.after.Some? {
      conditions := conditions + [After(page.after.value)];
    }
    if page.before.Some? {
      conditions := conditions + [Before(page.before.value)];
    }
    assert conditions == AfterCondition(page) + BeforeCondition(page);
    var ids: seq<nat> := [];
    for r := 0 to |t.rows|
      invariant ids == Filter(t, page, t.rows[..r])
    {
      ConditionsSelect(t, page, t.rows[r]);
      assert t.rows[..r + 1][..r] == t.rows[..r];
      if AllHold(t, page.sorted, conditions, t.rows[r]) {
        ids := ids + [t.rows[r]];
      }
    }
    assert t.rows[..|t.rows|] == t.rows;
    list := OrderAndLimit(t, page, ids);
  }

  /** Picks the first remaining row until the page is full. */
  method OrderAndLimit(t: Table, page: Page, ids: seq<nat>) returns (list: seq<nat>)
    ensures list == Take(page, InOrder(t, page, ids))
  {
    hide Comes, IsOrdered, InOrder;
    list := [];
    var rest := multiset(ids);
    InOrderIsOrdered(t, page, ids);
    ghost var later := InOrder(t, page, ids);
    while |rest| > 0 && (LimitOf(page) < 0 || |list| < LimitOf(page))
      invariant multiset(later) == rest && IsOrdered(t, page, later)
      invariant list + later == InOrder(t, page, ids)
      invariant LimitOf(page) < 0 || |list| <= LimitOf(page)
      decreases |rest|
    {
      var f := NextRow(t, page, rest, later);
      assert list + [f] + later[1..] == list + later;
      list := list + [f];
      rest := rest - multiset{f};
      later := later[1..];
    }
    assert |later| == |multiset(later)|;
  }

  /** The row that comes before all others. */
  method NextRow(t: Table, page: Page, rest: multiset<nat>, ghost later: seq<nat>) returns (f: nat)
    requires multiset(later) == rest && IsOrdered(t, page, later) && |rest| > 0
    ensures |later| == |rest| && later[0] == f
    ensures multiset(later[1..]) == rest - multiset{f} && IsOrdered(t, page, later[1..])
  {
    hide Comes;
    assert |later| == |multiset(later)|;
    FirstOfAll(t, page, later);
    f :| f in rest && forall id | id in rest :: id == f || Comes(t, page, f, id);
    OnlyOneFirst(t, page, later, f);
    assert later == [later[0]] + later[1..];
  }

  lemma FirstOfAll(t: Table, page: Page, list: seq<nat>)
    requires IsOrdered(t, page, list) && list != []
    ensures list[0] in multiset(list)
    ensures forall id :: id in multiset(list) ==> id == list[0] || Comes(t, page, list[0], id)
    ensures IsOrdered(t, page, list[1..])
  {
    hide Comes;
    forall id | id in multiset(list) ensures id == list[0] || Comes(t, page, list[0], id) {
      FirstComesFirst(t, page, list, id);
    }
  }

  lemma OnlyOneFirst(t: Table, page: Page, list: seq<nat>, f: nat)
    requires IsOrdered(t, page, list) && list != []
    requires f in multiset(list) && forall id :: id in multiset(list) ==> id == f || Comes(t, page, f, id)
    ensures f == list[0]
  {
    hide Comes;
    FirstOfAll(t, page, list);
    ComesIsTotal(t, page, f, list[0], f);
  }

  // ----- walking through all pages -----

  /** The query for the page after the one that ends with `last`. */
  function NextPage(page: Page, last: nat): Page {
    if IsDescending(page) then page.(before := Some(last)) else page.(after := Some(last))
  }

  predicate IsNull(t: Table, id: nat) {
    ValueOf(t, id).None?
  }

  /** A row passes the next cursor exactly if it passed before, is listed later, and no NULL is compared. */
  lemma PassesNext(t: Table, page: Page, last: nat, id: nat)
    requires Passes(t, page, last)
    ensures Passes(t, NextPage(page, last), id)
            <==> && Passes(t, page, id) && Comes(t, page, last, id)
                 && (page.sorted ==> !IsNull(t, last) && !IsNull(t, id))
  {
  }

  lemma {:induction false} FilterCount(t: Table, page: Page, ids: seq<nat>, id: nat)
    ensures multiset(Filter(t, page, ids))[id] == if Passes(t, page, id) then multiset(ids)[id] else 0
  {
    hide Passes;
    if ids != [] {
      var n := |ids| - 1;
      assert ids == ids[..n] + [ids[n]];
      FilterCount(t, page, ids[..n], id);
    }
  }

  lemma {:induction false} FilterAppend(t: Table, page: Page, a: seq<nat>, b: seq<nat>)
    ensures Filter(t, page, a + b) == Filter(t, page, a) + Filter(t, page, b)
  {
    hide Passes;
    if b == [] {
      assert a + b == a;
    } else {
      assert (a + b)[..|a + b| - 1] == a + b[..|b| - 1];
      FilterAppend(t, page, a, b[..|b| - 1]);
    }
  }

  lemma {:induction false} FilterIsOrdered(t: Table, page: Page, other: Page, ids: seq<nat>)
    requires IsOrdered(t, page, ids)
    ensures IsOrdered(t, page, Filter(t, other, ids))
    ensures forall id :: id in Filter(t, other, ids) ==> id in ids
  {
    hide Passes, Comes;
    if ids != [] {
      var n := |ids| - 1;
      FilterIsOrdered(t, page, other, ids[..n]);
      var kept := Filter(t, other, ids[..n]);
      forall i | 0 <= i < |kept| ensures kept[i] == ids[n] || Comes(t, page, kept[i], ids[n]) {
        assert kept[i] in ids[..n];
      }
    }
  }

  /** Nothing or everything is kept. */
  lemma {:induction false} FilterExtremes(t: Table, page: Page, ids: seq<nat>)
    ensures (forall id :: id in ids ==> !Passes(t, page, id)) ==> Filter(t, page, ids) == []
    ensures |Filter(t, page, ids)| == |ids| <==> forall id :: id in ids ==> Passes(t, page, id)
    ensures (forall id :: id in ids ==> Passes(t, page, id)) ==> Filter(t, page, ids) == ids
  {
    hide Passes;
    if ids != [] {
      var n := |ids| - 1;
      assert ids == ids[..n] + [ids[n]] && ids[n] in ids;
      FilterExtremes(t, page, ids[..n]);
    }
  }

  lemma ListedIsOrdered(t: Table, page: Page)
    ensures IsOrdered(t, page, Listed(t, page))
    ensures forall id :: id in Listed(t, page) ==> Passes(t, page, id)
    ensures |Listed(t, page)| == |Passing(t, page)|
  {
    hide Passes, IsOrdered, InOrder, Filter;
    InOrderIsOrdered(t, page, Passing(t, page));
    forall id | id in Listed(t, page) ensures Passes(t, page, id) {
      assert id in multiset(Listed(t, page));
      FilterCount(t, page, t.rows, id);
    }
    assert |multiset(Listed(t, page))| == |Listed(t, page)|;
    assert |multiset(Passing(t, page))| == |Passing(t, page)|;
  }

  /** The rows listed after the first page. */
  function AfterPage(t: Table, page: Page): seq<nat> {
    Listed(t, page)[|PageOf(t, page)|..]
  }

  function LastOf(t: Table, page: Page): nat
    requires PageOf(t, page) != []
  {
    PageOf(t, page)[|PageOf(t, page)| - 1]
  }

  /** The next query lists, of the rows after the page, those that pass its cursor. */
  lemma NextListed(t: Table, page: Page)
    requires LimitOf(page) > 0 && PageOf(t, page) != []
    ensures Passes(t, page, LastOf(t, page))
    ensures Listed(t, NextPage(page, LastOf(t, page)))
            == Filter(t, NextPage(page, LastOf(t, page)), AfterPage(t, page))
  {
    hide Passes, Comes, Listed, Filter, IsOrdered;
    var all, n, last := Listed(t, page), |PageOf(t, page)|, LastOf(t, page);
    var next := NextPage(page, last);
    ListedIsOrdered(t, page);
    assert last == all[n - 1] && last in all;
    forall id | id in all[..n] ensures !Passes(t, next, id) {
      NotAfterLast(t, page, all, n, id);
      PassesNext(t, page, last, id);
    }
    FilterExtremes(t, next, all[..n]);
    FilterAppend(t, next, all[..n], all[n..]);
    assert all == all[..n] + all[n..];
    FilterIsOrdered(t, page, next, all);
    SameOrder(t, page, last, Filter(t, next, all));
    ListedIsOrdered(t, next);
    forall id ensures multiset(Filter(t, next, all))[id] == multiset(Listed(t, next))[id] {
      FilterCount(t, next, all, id);
      FilterCount(t, next, t.rows, id);
      FilterCount(t, page, t.rows, id);
      PassesNext(t, page, last, id);
    }
    ListedIsUnique(t, next, Listed(t, next), Filter(t, next, all));
  }

  lemma NotAfterLast(t: Table, page: Page, all: seq<nat>, n: nat, id: nat)
    requires IsOrdered(t, page, all) && 0 < n <= |all| && id in all[..n]
    ensures !Comes(t, page, all[n - 1], id)
  {
    hide Comes;
    var k :| 0 <= k < n && all[k] == id;
    ComesIsTotal(t, page, all[n - 1], id, all[n - 1]);
    ComesIsTotal(t, page, id, all[n - 1], id);
  }

  /** Cursors do not change the order. */
  lemma SameOrder(t: Table, page: Page, last: nat, list: seq<nat>)
    ensures IsOrdered(t, NextPage(page, last), list) <==> IsOrdered(t, page, list)
  {
    assert forall a, b :: Comes(t, NextPage(page, last), a, b) == Comes(t, page, a, b);
  }

  lemma NextIsShorter(t: Table, page: Page)
    requires LimitOf(page) > 0 && PageOf(t, page) != []
    ensures |Listed(t, NextPage(page, LastOf(t, page)))| <= |AfterPage(t, page)| < |Listed(t, page)|
  {
    hide Listed, Filter;
    NextListed(t, page);
  }

  /**
   All rows a client sees that keeps asking for the next page.  It stops at an empty page or, if `shortStop`,
   at the first page that is not full.
   */
  function Walked(t: Table, page: Page, shortStop: bool): seq<nat>
    requires LimitOf(page) > 0
    decreases |Listed(t, page)|
  {
    var list := PageOf(t, page);
    if list == [] || (shortStop && |list| < LimitOf(page)) then list
    else
      NextIsShorter(t, page);
      list + Walked(t, NextPage(page, LastOf(t, page)), shortStop)
  }

  // ----- when the walk is complete -----

  ghost predicate NoNulls(t: Table, list: seq<nat>) {
    forall id :: id in list ==> !IsNull(t, id)
  }

  /** The rows after a page all pass the next cursor. */
  ghost predicate Continues(t: Table, page: Page, last: nat, rest: seq<nat>) {
    rest == [] || (rest[0] != last && (page.sorted ==> !IsNull(t, last) && NoNulls(t, rest)))
  }

  lemma AfterPageIsLater(t: Table, page: Page)
    requires LimitOf(page) > 0 && PageOf(t, page) != []
    ensures PageOf(t, page) + AfterPage(t, page) == Listed(t, page)
    ensures forall i :: 0 <= i < |AfterPage(t, page)| ==>
              && Passes(t, page, AfterPage(t, page)[i])
              && (AfterPage(t, page)[i] == LastOf(t, page) || Comes(t, page, LastOf(t, page), AfterPage(t, page)[i]))
              && (AfterPage(t, page)[0] == AfterPage(t, page)[i]
                  || Comes(t, page, AfterPage(t, page)[0], AfterPage(t, page)[i]))
  {
    hide Listed, Passes, Comes;
    ListedIsOrdered(t, page);
    var all, n := Listed(t, page), |PageOf(t, page)|;
    assert forall i :: 0 <= i < |all| ==> all[i] in all;
    assert forall i :: 0 <= i < |AfterPage(t, page)| ==> AfterPage(t, page)[i] == all[n + i];
  }

  /** The next query lists all remaining rows exactly if it does not start among copies of the last row, or at NULLs. */
  lemma NextListsTheRestIff(t: Table, page: Page)
    requires LimitOf(page) > 0 && PageOf(t, page) != []
    ensures Listed(t, NextPage(page, LastOf(t, page))) == AfterPage(t, page)
            <==> Continues(t, page, LastOf(t, page), AfterPage(t, page))
    ensures Listed(t, NextPage(page, LastOf(t, page))) != AfterPage(t, page) ==>
              |Listed(t, NextPage(page, LastOf(t, page)))| < |AfterPage(t, page)|
  {
    hide Listed, Passes, Comes, AfterPage, PageOf;
    var last, rest := LastOf(t, page), AfterPage(t, page);
    var next := NextPage(page, last);
    NextListed(t, page);
    AfterPageIsLater(t, page);
    FilterExtremes(t, next, rest);
    forall i | 0 <= i < |rest|
      ensures rest[i] in rest
      ensures Passes(t, next, rest[i])
              <==> rest[i] != last && (page.sorted ==> !IsNull(t, last) && !IsNull(t, rest[i]))
      ensures rest[0] != last ==> rest[i] != last
    {
      PassesNext(t, page, last, rest[i]);
      ComesIsTotal(t, page, last, last, last);
      ComesIsTotal(t, page, last, rest[0], rest[i]);
    }
    assert Continues(t, page, last, rest) <==> forall id :: id in rest ==> Passes(t, next, id);
  }

  /** A walk never sees more rows than there are. */
  lemma {:induction false} WalkIsNoLonger(t: Table, page: Page)
    requires LimitOf(page) > 0
    ensures |Walked(t, page, false)| <= |Listed(t, page)|
    decreases |Listed(t, page)|
  {
    hide Listed, AfterPage;
    if PageOf(t, page) != [] {
      NextIsShorter(t, page);
      WalkIsNoLonger(t, NextPage(page, LastOf(t, page)));
      AfterPageIsLater(t, page);
    }
  }

  /** A full page can end before row `b` of the list. */
  predicate EndsPage(page: Page, list: seq<nat>, b: nat) {
    LimitOf(page) > 0 && 0 < b < |list| && b % LimitOf(page) == 0
  }

  /** No full page ends where the next cursor would lose rows. */
  ghost predicate KeepsRows(t: Table, page: Page, list: seq<nat>) {
    forall b: nat :: EndsPage(page, list, b) ==> Continues(t, page, list[b - 1], list[b..])
  }

  lemma ModMinus(b: nat, n: nat)
    requires n > 0 && b >= n
    ensures (b - n) % n == b % n
  {
    var q: int := b / n;
    assert b - n == n * (q - 1) + b % n;
    ModUnique(b - n, n, q - 1, b % n);
  }

  lemma ModUnique(b: nat, n: nat, q: int, r: nat)
    requires n > 0 && r < n && b == n * q + r
    ensures b % n == r
  {
    var d := b / n - q;
    assert n * d == r - b % n;
    TimesNonzero(n, d);
  }

  lemma TimesNonzero(n: int, d: int)
    requires n > 0
    ensures d >= 1 ==> n * d >= n
    ensures d <= -1 ==> n * d <= -n
  {
    if d >= 1 {
      assert n * (d - 1) >= 0;
    } else if d <= -1 {
      assert n * (d + 1) <= 0;
    }
  }

  lemma ModSmall(b: nat, n: nat)
    requires 0 < b < n
    ensures b % n != 0
  {
    ModUnique(b, n, 0, b);
  }

  lemma KeepsRowsStep(t: Table, page: Page)
    requires LimitOf(page) > 0 && PageOf(t, page) != []
    ensures KeepsRows(t, page, Listed(t, page))
            <==> Continues(t, page, LastOf(t, page), AfterPage(t, page)) && KeepsRows(t, page, AfterPage(t, page))
  {
    hide Listed, Continues;
    var all, rest, n := Listed(t, page), AfterPage(t, page), LimitOf(page);
    if |all| <= n {
      forall b: nat ensures !EndsPage(page, all, b) {
        if 0 < b < n {
          ModSmall(b, n);
        }
      }
      ContinuesAtEnd(t, page, LastOf(t, page));
    } else {
      assert EndsPage(page, all, n) && rest == all[n..];
      forall b: nat
        ensures EndsPage(page, all, b) ==> b >= n
        ensures b > n ==> (EndsPage(page, all, b) <==> EndsPage(page, rest, b - n))
        ensures n < b < |all| ==> all[b - 1] == rest[b - n - 1] && all[b..] == rest[b - n..]
      {
        if b > n {
          ModMinus(b, n);
        } else if 0 < b < n {
          ModSmall(b, n);
        }
      }
      assert forall b: nat :: EndsPage(page, rest, b) ==> EndsPage(page, all, b + n) by {
        forall b: nat | EndsPage(page, rest, b) ensures EndsPage(page, all, b + n) {
          ModMinus(b + n, n);
        }
      }
    }
  }

  lemma ContinuesAtEnd(t: Table, page: Page, last: nat)
    ensures Continues(t, page, last, [])
  {
  }

  /** A walk lists every row, copies included, exactly if no page ends where rows are lost. */
  lemma {:induction false} WalkKeepsRowsIff(t: Table, page: Page)
    requires LimitOf(page) > 0
    ensures Walked(t, page, false) == Listed(t, page) <==> KeepsRows(t, page, Listed(t, page))
    decreases |Listed(t, page)|
  {
    hide Listed, AfterPage, Continues, LastOf;
    if PageOf(t, page) != [] {
      var next, rest := NextPage(page, LastOf(t, page)), AfterPage(t, page);
      NextIsShorter(t, page);
      AfterPageIsLater(t, page);
      KeepsRowsStep(t, page);
      NextListsTheRestIff(t, page);
      WalkKeepsRowsIff(t, next);
      WalkIsNoLonger(t, next);
      SameEnds(t, page, LastOf(t, page), rest);
    }
  }

  lemma SameEnds(t: Table, page: Page, last: nat, list: seq<nat>)
    ensures KeepsRows(t, NextPage(page, last), list) <==> KeepsRows(t, page, list)
  {
    assert forall b: nat :: EndsPage(NextPage(page, last), list, b) <==> EndsPage(page, list, b);
  }

  // ----- what a caller can check before the walk -----

  function NullCount(t: Table, list: seq<nat>): (n: nat)
    ensures n <= |list|
  {
    if list == [] then 0 else (if IsNull(t, list[0]) then 1 else 0) + NullCount(t, list[1..])
  }

  /** Where the NULLs of the sort column fall. */
  predicate NoNullCutsTheWalk(t: Table, page: Page) {
    var list := Listed(t, page);
    || !page.sorted
    || |list| <= LimitOf(page)
    || (if IsDescending(page) then NullCount(t, list) == 0 else NullCount(t, list) < LimitOf(page))
  }

  /** No page ends between two rows with one id. */
  ghost predicate NoIdIsSplit(t: Table, page: Page) {
    forall b: nat :: EndsPage(page, Listed(t, page), b) ==> Listed(t, page)[b - 1] != Listed(t, page)[b]
  }

  /** NULLs come first when ascending and last when descending. */
  lemma {:induction false} NullPositions(t: Table, page: Page, list: seq<nat>)
    requires page.sorted && IsOrdered(t, page, list)
    ensures forall j :: 0 <= j < |list| ==>
              (IsNull(t, list[j])
               <==> if IsDescending(page) then j >= |list| - NullCount(t, list) else j < NullCount(t, list))
  {
    if list != [] {
      var rest := list[1..];
      NullPositions(t, page, rest);
      assert forall j :: 0 < j < |list| ==> list[j] == rest[j - 1];
      if IsDescending(page) && IsNull(t, list[0]) {
        AllAlike(t, rest, true);
      } else if !IsDescending(page) && !IsNull(t, list[0]) {
        AllAlike(t, rest, false);
      }
    }
  }

  lemma {:induction false} AllAlike(t: Table, list: seq<nat>, isNull: bool)
    requires forall j :: 0 <= j < |list| ==> IsNull(t, list[j]) == isNull
    ensures NullCount(t, list) == if isNull then |list| else 0
  {
    if list != [] {
      AllAlike(t, list[1..], isNull);
    }
  }

  lemma NullsDecide(t: Table, page: Page, b: nat)
    requires page.sorted && LimitOf(page) <= b < |Listed(t, page)| && LimitOf(page) > 0
    ensures NoNullCutsTheWalk(t, page) ==>
              !IsNull(t, Listed(t, page)[b - 1]) && NoNulls(t, Listed(t, page)[b..])
    ensures b == LimitOf(page) && !IsNull(t, Listed(t, page)[b - 1]) && NoNulls(t, Listed(t, page)[b..]) ==>
              NoNullCutsTheWalk(t, page)
  {
    hide Listed, IsNull, IsOrdered;
    var list := Listed(t, page);
    ListedIsOrdered(t, page);
    NullPositions(t, page, list);
    assert forall j :: b <= j < |list| ==> list[b..][j - b] == list[j] && list[j] in list[b..];
    assert list[|list| - 1] in list[b..] && list[b..][|list| - 1 - b] == list[|list| - 1];
  }

  lemma KeepsRowsSplits(t: Table, page: Page)
    requires LimitOf(page) > 0
    ensures KeepsRows(t, page, Listed(t, page)) <==> NoNullCutsTheWalk(t, page) && NoIdIsSplit(t, page)
  {
    hide Listed, IsNull, NoNulls, NullCount;
    var list, n := Listed(t, page), LimitOf(page);
    forall b: nat | EndsPage(page, list, b) ensures b >= n && list[b..][0] == list[b] {
      if b < n {
        ModSmall(b, n);
      }
    }
    if page.sorted && |list| > n {
      assert EndsPage(page, list, n);
      NullsDecide(t, page, n);
      forall b: nat | EndsPage(page, list, b)
        ensures NoNullCutsTheWalk(t, page) ==> !IsNull(t, list[b - 1]) && NoNulls(t, list[b..])
      {
        NullsDecide(t, page, b);
      }
    }
  }

  /**
   A walk lists every row exactly once, in order, exactly if no NULL sort value and no page that ends between two
   rows of one id cuts it short.  Ascending, NULLs come first and must leave room on the first page for a value;
   descending, they come last and are never reached.
   */
  lemma WalkIsCompleteIff(t: Table, page: Page)
    requires LimitOf(page) > 0
    ensures Walked(t, page, false) == Listed(t, page) <==> NoNullCutsTheWalk(t, page) && NoIdIsSplit(t, page)
  {
    hide Listed, Walked, KeepsRows, NoIdIsSplit, NoNullCutsTheWalk;
    WalkKeepsRowsIff(t, page);
    KeepsRowsSplits(t, page);
  }

  lemma NextStaysFree(t: Table, page: Page)
    requires LimitOf(page) > 0 && PageOf(t, page) != []
    ensures NoNullCutsTheWalk(t, NextPage(page, LastOf(t, page)))
  {
    hide Listed, Comes;
    var next := NextPage(page, LastOf(t, page));
    NextListed(t, page);
    ListedIsOrdered(t, next);
    if page.sorted {
      forall j | 0 <= j < |Listed(t, next)| ensures !IsNull(t, Listed(t, next)[j]) {
        assert Listed(t, next)[j] in Listed(t, next);
        PassesNext(t, page, LastOf(t, page), Listed(t, next)[j]);
      }
      AllAlike(t, Listed(t, next), false);
    }
  }

  /** What the next query leaves out of the rest are rows with the id of the last row. */
  lemma OnlyCopiesAreLost(t: Table, page: Page)
    requires LimitOf(page) > 0 && PageOf(t, page) != [] && NoNullCutsTheWalk(t, page)
    ensures forall id :: id in Listed(t, NextPage(page, LastOf(t, page))) ==> id in AfterPage(t, page)
    ensures forall id :: id in AfterPage(t, page) && id != LastOf(t, page) ==>
              id in Listed(t, NextPage(page, LastOf(t, page)))
  {
    hide Listed, Comes, Passes, Filter, NoNullCutsTheWalk, IsNull;
    var last, rest := LastOf(t, page), AfterPage(t, page);
    var next := NextPage(page, last);
    NextListed(t, page);
    AfterPageIsLater(t, page);
    FilterMembers(t, next, rest);
    if page.sorted && rest != [] {
      NullsDecide(t, page, LimitOf(page));
    }
    forall id | id in rest && id != last ensures Passes(t, next, id) {
      PassesNext(t, page, last, id);
    }
  }

  lemma {:induction false} FilterMembers(t: Table, page: Page, ids: seq<nat>)
    ensures forall id :: id in Filter(t, page, ids) <==> id in ids && Passes(t, page, id)
  {
    hide Passes;
    if ids != [] {
      FilterMembers(t, page, ids[..|ids| - 1]);
      assert ids == ids[..|ids| - 1] + [ids[|ids| - 1]];
    }
  }

  /** Copies may be lost, but without NULLs no id is missed altogether. */
  lemma {:induction false} EveryIdIsSeen(t: Table, page: Page)
    requires LimitOf(page) > 0 && NoNullCutsTheWalk(t, page)
    ensures forall id :: id in Walked(t, page, false) <==> id in Listed(t, page)
    decreases |Listed(t, page)|
  {
    hide Listed, AfterPage, IsNull, Comes, NullCount, NoNulls;
    if PageOf(t, page) != [] {
      var last, list := LastOf(t, page), PageOf(t, page);
      var next, rest := NextPage(page, last), AfterPage(t, page);
      NextIsShorter(t, page);
      AfterPageIsLater(t, page);
      NextStaysFree(t, page);
      EveryIdIsSeen(t, next);
      OnlyCopiesAreLost(t, page);
      assert last in list;
      assert Walked(t, page, false) == list + Walked(t, next, false) && Listed(t, page) == list + rest;
    }
  }

  /** Without cursors, the list has exactly the rows of the query. */
  lemma ListedHasRows(t: Table, page: Page)
    requires page.before == page.after == None
    ensures forall id :: id in Listed(t, page) <==> id in t.rows
  {
    hide InOrder, Filter;
    FilterMembers(t, page, t.rows);
    assert forall id :: id in Listed(t, page) <==> id in multiset(Listed(t, page));
    assert forall id :: id in Passing(t, page) <==> id in multiset(Passing(t, page));
  }

  lemma PageHasRows(t: Table, page: Page)
    ensures forall id :: id in PageOf(t, page) ==> id in t.rows
  {
    hide InOrder, Filter, Passes;
    FilterMembers(t, page, t.rows);
    assert forall id :: id in PageOf(t, page) ==> id in multiset(Listed(t, page));
  }

  /** Rows are seen in order. */
  lemma {:induction false} WalkIsOrdered(t: Table, page: Page)
    requires LimitOf(page) > 0
    ensures IsOrdered(t, page, Walked(t, page, false))
    ensures forall id :: id in Walked(t, page, false) ==> id in Listed(t, page)
    decreases |Listed(t, page)|
  {
    hide Listed, Comes, Passes, Filter;
    ListedIsOrdered(t, page);
    if PageOf(t, page) != [] {
      var last, list := LastOf(t, page), PageOf(t, page);
      var next, rest := NextPage(page, last), AfterPage(t, page);
      NextIsShorter(t, page);
      NextListed(t, page);
      FilterMembers(t, next, rest);
      AfterPageIsLater(t, page);
      WalkIsOrdered(t, next);
      SameOrder(t, page, last, Walked(t, next, false));
      OrderedAppend(t, page, list, rest, Walked(t, next, false));
    }
  }

  lemma OrderedAppend(t: Table, page: Page, a: seq<nat>, rest: seq<nat>, b: seq<nat>)
    requires IsOrdered(t, page, a + rest) && IsOrdered(t, page, b) && forall id :: id in b ==> id in rest
    ensures IsOrdered(t, page, a + b)
    ensures forall id :: id in a + b ==> id in a + rest
  {
    hide Comes;
    forall i, j | 0 <= i < |a| && 0 <= j < |b| ensures a[i] == b[j] || Comes(t, page, a[i], b[j]) {
      assert b[j] in b;
      var k :| 0 <= k < |rest| && rest[k] == b[j];
      assert (a + rest)[i] == a[i] && (a + rest)[|a| + k] == rest[k];
    }
    assert forall i :: 0 <= i < |a| ==> (a + rest)[i] == a[i];
  }

  /** Stopping at an empty page and stopping at a short page see the same rows. */
  lemma {:induction false} StoppingRulesAgree(t: Table, page: Page)
    requires LimitOf(page) > 0
    ensures Walked(t, page, true) == Walked(t, page, false)
    decreases |Listed(t, page)|
  {
    hide Listed, LastOf;
    var list := PageOf(t, page);
    if list != [] {
      NextIsShorter(t, page);
      if |list| == LimitOf(page) {
        StoppingRulesAgree(t, NextPage(page, LastOf(t, page)));
      }
    }
  }

  // ----- the clients -----

  /** Keeps asking until a page is empty. */
  method WalkUntilEmpty(t: Table, page: Page) returns (all: seq<nat>)
    requires LimitOf(page) > 0
    ensures all == Walked(t, page, false)
    ensures all == Listed(t, page) <==> NoNullCutsTheWalk(t, page) && NoIdIsSplit(t, page)
  {
    hide Listed, PageOf, NoIdIsSplit;
    all := [];
    var query := page;
    while true
      invariant LimitOf(query) == LimitOf(page)
      invariant all + Walked(t, query, false) == Walked(t, page, false)
      decreases |Listed(t, query)|
    {
      var list := RunPaginated(t, query);
      if list == [] {
        break;
      }
      NextIsShorter(t, query);
      all := all + list;
      query := NextPage(query, list[|list| - 1]);
    }
    WalkIsCompleteIff(t, page);
  }

  /** Keeps asking until a page is not full. */
  method WalkUntilShort(t: Table, page: Page) returns (all: seq<nat>)
    requires LimitOf(page) > 0
    ensures all == Walked(t, page, false)
    ensures all == Listed(t, page) <==> NoNullCutsTheWalk(t, page) && NoIdIsSplit(t, page)
  {
    hide Listed, PageOf, NoIdIsSplit;
    all := [];
    var query := page;
    while true
      invariant LimitOf(query) == LimitOf(page)
      invariant all + Walked(t, query, true) == Walked(t, page, true)
      decreases |Listed(t, query)|
    {
      var list := RunPaginated(t, query);
      all := all + list;
      if |list| < LimitOf(page) {
        break;
      }
      NextIsShorter(t, query);
      query := NextPage(query, list[|list| - 1]);
    }
    StoppingRulesAgree(t, page);
    WalkIsCompleteIff(t, page);
  }

  // ----- walks that lose rows -----

  lemma TwoRows(t: Table, page: Page)
    requires |t.rows| == 2 && page.before == page.after == None && page.limit == Some(1)
    requires IsOrdered(t, page, t.rows)
    requires !Passes(t, NextPage(page, t.rows[0]), t.rows[1])
    ensures Listed(t, page) == t.rows
    ensures Walked(t, page, false) == Walked(t, page, true) == [t.rows[0]]
  {
    hide Comes, InOrder, IsOrdered, Greater, Less;
    var a, b := t.rows[0], t.rows[1];
    FilterExtremes(t, page, t.rows);
    InOrderIsOrdered(t, page, t.rows);
    ListedIsUnique(t, page, Listed(t, page), t.rows);
    assert PageOf(t, page) == [a];
    NextListed(t, page);
    assert AfterPage(t, page) == [b];
    FilterExtremes(t, NextPage(page, a), [b]);
    assert PageOf(t, NextPage(page, a)) == [];
    StoppingRulesAgree(t, page);
  }

  /** A row without a sort value fills the first page, and the walk never gets to the other row. */
  lemma NullsLoseRowsExample() returns (t: Table, page: Page)
    ensures LimitOf(page) > 0 && Listed(t, page) == [0, 1] && IsNull(t, 0) && !IsNull(t, 1)
    ensures Walked(t, page, false) == Walked(t, page, true) == [0]
  {
    t, page := Table(map[0 := None, 1 := Some(7)], [0, 1]), Page(Some(1), None, None, true, None);
    hide Walked, Listed;
    assert IsOrdered(t, page, t.rows);
    TwoRows(t, page);
  }

  /** The first of two rows with one id fills the first page, and the walk never gets to the second. */
  lemma RepeatedIdExample() returns (t: Table, page: Page)
    ensures LimitOf(page) > 0 && Listed(t, page) == [0, 0]
    ensures Walked(t, page, false) == Walked(t, page, true) == [0]
  {
    t, page := Table(map[], [0, 0]), Page(Some(1), None, None, false, None);
    hide Walked, Listed;
    TwoRows(t, page);
  }
}
