/** What one page of a listing shows, in terms of the query alone. */
module Pages {
  import opened Options
  import opened Pagination

  /** Every row has its sort value in the table, NULL or not. */
  ghost predicate HasValues(t: Table) {
    forall id :: id in t.rows ==> id in t.values
  }

  /** By sort value, then by id; ascending unless descending is asked for, and NULL before all values, or after. */
  predicate ComesFirst(t: Table, page: Page, a: nat, b: nat)
    requires a in t.values && b in t.values
  {
    var v, w := t.values[a], t.values[b];
    if page.direction == Some(Descending) then
      if page.sorted && v != w then w == None || (v.Some? && v.value > w.value) else a > b
    else
      if page.sorted && v != w then v == None || (w.Some? && v.value < w.value) else a < b
  }

  /**
   The row lies after one cursor and before the other, whatever the direction.  Where a column is named, both rows need
   a sort value, and equal values leave it to the ids.
   */
  predicate IsBetween(t: Table, page: Page, id: nat)
    requires id in t.values
  {
    && (page.after.Some? ==>
          if page.sorted then
            && t.values[id].Some? && page.after.value in t.rows
            && page.after.value in t.values && t.values[page.after.value].Some?
            && (|| t.values[id].value > t.values[page.after.value].value
                || (t.values[id] == t.values[page.after.value] && id > page.after.value))
          else id > page.after.value)
    && (page.before.Some? ==>
          if page.sorted then
            && t.values[id].Some? && page.before.value in t.rows
            && page.before.value in t.values && t.values[page.before.value].Some?
            && (|| t.values[id].value < t.values[page.before.value].value
                || (t.values[id] == t.values[page.before.value] && id < page.before.value))
          else id < page.before.value)
  }

  /** A page is the start, a thousand rows if no limit is given, of all rows between the cursors, in order. */
  lemma PageIs(t: Table, page: Page) returns (all: seq<nat>)
    requires HasValues(t)
    ensures forall id :: id in all ==> id in t.values
    ensures forall id: nat ::
              multiset(all)[id] == if id in t.values && IsBetween(t, page, id) then multiset(t.rows)[id] else 0
    ensures forall i, j :: 0 <= i < j < |all| ==> all[i] == all[j] || ComesFirst(t, page, all[i], all[j])
    ensures var limit := if page.limit.Some? then page.limit.value else 1000;
            PageOf(t, page) == if 0 <= limit < |all| then all[..limit] else all
  {
    hide InOrder, Comes, Passes, ComesFirst, IsBetween, Filter;
    all := Listed(t, page);
    InOrderIsOrdered(t, page, Passing(t, page));
    forall id: nat
      ensures multiset(all)[id] == if id in t.values && IsBetween(t, page, id) then multiset(t.rows)[id] else 0
    {
      FilterCount(t, page, t.rows, id);
      if id in t.rows {
        PassesIff(t, page, id);
      } else {
        assert multiset(t.rows)[id] == 0;
      }
    }
    forall id | id in all ensures id in t.rows {
      assert multiset(all)[id] > 0;
    }
    forall i, j | 0 <= i < j < |all| ensures all[i] == all[j] || ComesFirst(t, page, all[i], all[j]) {
      assert all[i] in all && all[j] in all;
      ComesIff(t, page, all[i], all[j]);
    }
  }

  lemma PassesIff(t: Table, page: Page, id: nat)
    requires id in t.rows && id in t.values
    ensures Passes(t, page, id) <==> IsBetween(t, page, id)
  {
  }

  lemma ComesIff(t: Table, page: Page, a: nat, b: nat)
    requires a in t.rows && a in t.values && b in t.rows && b in t.values
    ensures Comes(t, page, a, b) <==> ComesFirst(t, page, a, b)
  {
  }
}
