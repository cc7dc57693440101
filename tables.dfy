/**
 * The two tables behind the lists and their items, and the effect of each
 * SQL statement the handlers issue on them (cmd/server/main.go).
 *
 * A table is a sequence of rows in rowid order, which for these
 * AUTOINCREMENT keys is ascending id order. A list_id is None when the
 * column is NULL: SQL's `=` never matches NULL, so a NULL list_id and a
 * list_id of 0 are different rows to every statement except the
 * bootstrap's `IS NULL OR list_id = 0`.
 */
module Tables {
  import opened Wrappers

  /** A row of `lists(id, name)`. */
  datatype List = List(id: int, name: string)

  /** A row of `items(id, list_id, name, completed)`. */
  datatype Item = Item(id: int, listId: Option<int>, name: string, completed: bool)

  /** The name of the list the bootstrap creates. */
  const DefaultListName: string := "Lista Principal"

  /** The bootstrap's test for an item that belongs to no list: list_id IS NULL OR list_id = 0. */
  predicate Unassigned(x: Item) {
    x.listId == None || x.listId == Some(0)
  }

  predicate ListIdsAscending(ls: seq<List>) {
    forall i, j :: 0 <= i < j < |ls| ==> ls[i].id < ls[j].id
  }

  predicate ItemIdsAscending(items: seq<Item>) {
    forall i, j :: 0 <= i < j < |items| ==> items[i].id < items[j].id
  }

  // ---------------------------------------------------------------------
  // lists

  /** SELECT id, name FROM lists WHERE id = ? (QueryRow: the first row). */
  function FindList(ls: seq<List>, id: int): (r: Option<List>)
    ensures r.Some? ==> r.value in ls && r.value.id == id
    ensures r.None? <==> forall l :: l in ls ==> l.id != id
  {
    if ls == [] then None
    else if ls[0].id == id then Some(ls[0])
    else FindList(ls[1..], id)
  }

  /** UPDATE lists SET name = ? WHERE id = ? */
  function RenameList(ls: seq<List>, id: int, name: string): (r: seq<List>)
    ensures |r| == |ls|
    ensures forall i :: 0 <= i < |ls| ==>
      && r[i].id == ls[i].id
      && r[i].name == (if ls[i].id == id then name else ls[i].name)
    ensures (forall l :: l in ls ==> l.id != id) ==> r == ls
  {
    if ls == [] then []
    else [if ls[0].id == id then ls[0].(name := name) else ls[0]] + RenameList(ls[1..], id, name)
  }

  /** DELETE FROM lists WHERE id = ?: exactly the rows with another id stay. */
  function DeleteList(ls: seq<List>, id: int): (r: seq<List>)
    ensures forall l :: l in r <==> l in ls && l.id != id
    ensures (forall l :: l in ls ==> l.id != id) ==> r == ls
  {
    if ls == [] then []
    else
      var rest := DeleteList(ls[1..], id);
      assert forall l :: l in ls <==> l == ls[0] || l in ls[1..];
      assert ls == [ls[0]] + ls[1..];
      if ls[0].id == id then rest else [ls[0]] + rest
  }

  /** In an ascending table every row after the first has a larger id. */
  lemma ListTailAbove(ls: seq<List>)
    requires ListIdsAscending(ls) && ls != []
    ensures ListIdsAscending(ls[1..])
    ensures forall l :: l in ls[1..] ==> l.id > ls[0].id
  {
    forall l | l in ls[1..] ensures l.id > ls[0].id {
      var k :| 0 <= k < |ls[1..]| && ls[1..][k] == l;
      assert ls[k + 1] == l;
    }
  }

  /** A row whose id is below every id of an ascending table may go in front of it. */
  lemma PrependListAscending(x: List, rest: seq<List>)
    requires ListIdsAscending(rest)
    requires forall y :: y in rest ==> y.id > x.id
    ensures ListIdsAscending([x] + rest)
  {
  }

  /** Deleting rows keeps the remaining ids ascending. */
  lemma {:induction false} DeleteListKeepsOrder(ls: seq<List>, id: int)
    requires ListIdsAscending(ls)
    ensures ListIdsAscending(DeleteList(ls, id))
  {
    if ls != [] {
      ListTailAbove(ls);
      DeleteListKeepsOrder(ls[1..], id);
      if ls[0].id != id {
        PrependListAscending(ls[0], DeleteList(ls[1..], id));
      }
    }
  }

  /** Ids being unique, deleting by id removes one row when the id is present and none otherwise. */
  lemma {:induction false} DeleteListRemovesOne(ls: seq<List>, id: int)
    requires ListIdsAscending(ls)
    ensures |DeleteList(ls, id)| == if exists l :: l in ls && l.id == id then |ls| - 1 else |ls|
  {
    if ls != [] {
      ListTailAbove(ls);
      assert ls[0] in ls;
      assert forall l :: l in ls <==> l == ls[0] || l in ls[1..];
      if ls[0].id == id {
        assert forall l :: l in ls[1..] ==> l.id != id;
      } else {
        DeleteListRemovesOne(ls[1..], id);
      }
    }
  }

  // ---------------------------------------------------------------------
  // items

  /** SELECT completed, list_id FROM items WHERE id = ? (QueryRow: the first row). */
  function FindItem(items: seq<Item>, id: int): (r: Option<Item>)
    ensures r.Some? ==> r.value in items && r.value.id == id
    ensures r.None? <==> forall x :: x in items ==> x.id != id
  {
    if items == [] then None
    else if items[0].id == id then Some(items[0])
    else FindItem(items[1..], id)
  }

  /** UPDATE items SET list_id = ? WHERE list_id IS NULL OR list_id = 0 */
  function AdoptOrphans(items: seq<Item>, listId: int): (r: seq<Item>)
    ensures |r| == |items|
    ensures forall i :: 0 <= i < |items| ==>
      && r[i].id == items[i].id && r[i].name == items[i].name && r[i].completed == items[i].completed
      && r[i].listId == (if Unassigned(items[i]) then Some(listId) else items[i].listId)
  {
    if items == [] then []
    else
      var x := items[0];
      [if Unassigned(x) then x.(listId := Some(listId)) else x] + AdoptOrphans(items[1..], listId)
  }

  /** UPDATE items SET completed = ? WHERE id = ? */
  function SetCompleted(items: seq<Item>, id: int, completed: bool): (r: seq<Item>)
    ensures |r| == |items|
    ensures forall i :: 0 <= i < |items| ==>
      && r[i].id == items[i].id && r[i].listId == items[i].listId && r[i].name == items[i].name
      && r[i].completed == (if items[i].id == id then completed else items[i].completed)
    ensures (forall x :: x in items ==> x.id != id) ==> r == items
  {
    if items == [] then []
    else
      var x := items[0];
      [if x.id == id then x.(completed := completed) else x] + SetCompleted(items[1..], id, completed)
  }

  /** The WHERE clause of a DELETE on items: one item, or all items of a list. */
  datatype ItemKey = ById(id: int) | ByList(listId: int) {
    predicate Selects(x: Item) {
      match this
      case ById(id) => x.id == id
      case ByList(listId) => x.listId == Some(listId)
    }
  }

  /** DELETE FROM items WHERE <key>: exactly the rows the key does not select stay. */
  function DeleteItems(items: seq<Item>, key: ItemKey): (r: seq<Item>)
    ensures forall x :: x in r <==> x in items && !key.Selects(x)
    ensures |r| <= |items|
    ensures (forall x :: x in items ==> !key.Selects(x)) ==> r == items
  {
    if items == [] then []
    else
      var rest := DeleteItems(items[1..], key);
      assert forall x :: x in items <==> x == items[0] || x in items[1..];
      assert items == [items[0]] + items[1..];
      if key.Selects(items[0]) then rest else [items[0]] + rest
  }

  /** In an ascending table every row after the first has a larger id. */
  lemma ItemTailAbove(items: seq<Item>)
    requires ItemIdsAscending(items) && items != []
    ensures ItemIdsAscending(items[1..])
    ensures forall x :: x in items[1..] ==> x.id > items[0].id
  {
    forall x | x in items[1..] ensures x.id > items[0].id {
      var k :| 0 <= k < |items[1..]| && items[1..][k] == x;
      assert items[k + 1] == x;
    }
  }

  /** Deleting rows keeps the remaining ids ascending. */
  lemma {:induction false} DeleteItemsKeepsOrder(items: seq<Item>, key: ItemKey)
    requires ItemIdsAscending(items)
    ensures ItemIdsAscending(DeleteItems(items, key))
  {
    if items != [] {
      ItemTailAbove(items);
      DeleteItemsKeepsOrder(items[1..], key);
      if !key.Selects(items[0]) {
        PrependAscending(items[0], DeleteItems(items[1..], key));
      }
    }
  }

  /** Ids being unique, deleting by id removes one item when the id is present and none otherwise. */
  lemma {:induction false} DeleteItemRemovesOne(items: seq<Item>, id: int)
    requires ItemIdsAscending(items)
    ensures |DeleteItems(items, ById(id))| == if exists x :: x in items && x.id == id then |items| - 1 else |items|
  {
    if items != [] {
      ItemTailAbove(items);
      assert items[0] in items;
      assert forall x :: x in items <==> x == items[0] || x in items[1..];
      if items[0].id == id {
        assert forall x :: x in items[1..] ==> x.id != id;
      } else {
        DeleteItemRemovesOne(items[1..], id);
      }
    }
  }

  /** A row whose id is below every id of an ascending table may go in front of it. */
  lemma PrependAscending(x: Item, rest: seq<Item>)
    requires ItemIdsAscending(rest)
    requires forall y :: y in rest ==> y.id > x.id
    ensures ItemIdsAscending([x] + rest)
  {
  }

  // ---------------------------------------------------------------------
  // display order: ORDER BY completed ASC, id DESC

  /** a is shown above b: incomplete before completed, then newer (larger id) first. */
  predicate Precedes(a: Item, b: Item) {
    (!a.completed && b.completed) || (a.completed == b.completed && a.id > b.id)
  }

  predicate IdsDescending(s: seq<Item>) {
    forall i, j :: 0 <= i < j < |s| ==> s[i].id > s[j].id
  }

  predicate DisplaySorted(s: seq<Item>) {
    forall i, j :: 0 <= i < j < |s| ==> Precedes(s[i], s[j])
  }

  /** The items of one list with the given completion flag, newest first. */
  function NewestFirst(items: seq<Item>, listId: int, completed: bool): (r: seq<Item>)
    ensures forall x :: x in r <==> x in items && x.listId == Some(listId) && x.completed == completed
  {
    if items == [] then []
    else
      var rest := NewestFirst(items[1..], listId, completed);
      var x := items[0];
      assert forall y :: y in items <==> y == x || y in items[1..];
      if x.listId == Some(listId) && x.completed == completed then rest + [x] else rest
  }

  /** Scanning one more row, from the end of the table towards its start. */
  lemma NewestFirstStep(items: seq<Item>, k: int, listId: int, completed: bool)
    requires 0 <= k < |items|
    ensures NewestFirst(items[k..], listId, completed) ==
      NewestFirst(items[k + 1..], listId, completed)
      + (if items[k].listId == Some(listId) && items[k].completed == completed then [items[k]] else [])
  {
    assert items[k..][1..] == items[k + 1..];
  }

  /** Read from an ascending table, NewestFirst has strictly descending ids. */
  lemma {:induction false} NewestFirstDescending(items: seq<Item>, listId: int, completed: bool)
    requires ItemIdsAscending(items)
    ensures IdsDescending(NewestFirst(items, listId, completed))
  {
    if items != [] {
      ItemTailAbove(items);
      NewestFirstDescending(items[1..], listId, completed);
      var rest := NewestFirst(items[1..], listId, completed);
      var x := items[0];
      if x.listId == Some(listId) && x.completed == completed {
        var r := rest + [x];
        assert NewestFirst(items, listId, completed) == r;
        assert IdsDescending(rest);
        forall i, j | 0 <= i < j < |r| ensures r[i].id > r[j].id {
          if j == |rest| {
            assert r[i] == rest[i] && rest[i] in rest && r[j] == x;
            assert rest[i] in items[1..];
          } else {
            assert r[i] == rest[i] && r[j] == rest[j];
          }
        }
      } else {
        assert NewestFirst(items, listId, completed) == rest;
      }
    }
  }

  /**
   * The rows of SELECT ... FROM items WHERE list_id = ? ORDER BY completed
   * ASC, id DESC: exactly the list's items, sorted for display.
   */
  function ItemsFor(items: seq<Item>, listId: int): (r: seq<Item>)
    ensures forall x :: x in r <==> x in items && x.listId == Some(listId)
    ensures ItemIdsAscending(items) ==> DisplaySorted(r)
  {
    var open := NewestFirst(items, listId, false);
    var done := NewestFirst(items, listId, true);
    assert ItemIdsAscending(items) ==> DisplaySorted(open + done) by {
      if ItemIdsAscending(items) {
        NewestFirstDescending(items, listId, false);
        NewestFirstDescending(items, listId, true);
        assert forall i :: 0 <= i < |open| ==> open[i] in open;
        assert forall i :: 0 <= i < |done| ==> done[i] in done;
        ConcatDisplaySorted(open, done);
      }
    }
    open + done
  }

  /** Open items newest first, followed by done items newest first, are sorted for display. */
  lemma ConcatDisplaySorted(open: seq<Item>, done: seq<Item>)
    requires forall i :: 0 <= i < |open| ==> !open[i].completed
    requires forall i :: 0 <= i < |done| ==> done[i].completed
    requires IdsDescending(open) && IdsDescending(done)
    ensures DisplaySorted(open + done)
  {
  }

  /**
   * The display order leaves no freedom: two sequences sorted for display
   * that hold the same items are equal. So ItemsFor is the one answer the
   * ORDER BY clause admits.
   */
  lemma {:induction false} DisplayOrderIsUnique(a: seq<Item>, b: seq<Item>)
    requires DisplaySorted(a) && DisplaySorted(b)
    requires forall x :: x in a <==> x in b
    ensures a == b
  {
    assert b == [] || b[0] in a;
    if a != [] {
      assert a[0] in b;
      assert b[0] in a;
      var k :| 0 <= k < |b| && b[k] == a[0];
      var m :| 0 <= m < |a| && a[m] == b[0];
      if k != 0 {
        assert false;
      }
      assert forall x :: x in a[1..] <==> x in b[1..] by {
        forall x ensures x in a[1..] ==> x in b[1..] {
          if x in a[1..] {
            var i :| 1 <= i < |a| && a[i] == x;
            assert Precedes(a[0], a[i]);
            assert x in b;
            var j :| 0 <= j < |b| && b[j] == x;
            assert j != 0;
            assert b[1..][j - 1] == x;
          }
        }
        forall x ensures x in b[1..] ==> x in a[1..] {
          if x in b[1..] {
            var j :| 1 <= j < |b| && b[j] == x;
            assert Precedes(b[0], b[j]);
            assert x in a;
            var i :| 0 <= i < |a| && a[i] == x;
            assert i != 0;
            assert a[1..][i - 1] == x;
          }
        }
      }
      DisplayOrderIsUnique(a[1..], b[1..]);
      assert a == [a[0]] + a[1..] && b == [b[0]] + b[1..];
    }
  }

  /** Any sequence sorted for display holding exactly a list's items is ItemsFor of it. */
  lemma ItemsForIsTheOrderedQuery(items: seq<Item>, listId: int, rows: seq<Item>)
    requires ItemIdsAscending(items)
    requires DisplaySorted(rows)
    requires forall x :: x in rows <==> x in items && x.listId == Some(listId)
    ensures rows == ItemsFor(items, listId)
  {
    DisplayOrderIsUnique(rows, ItemsFor(items, listId));
  }

  /** Items A (open), B (done), C (open) added in that order are shown C, A, B. */
  lemma DisplayOrderExample(listId: int)
    ensures
      var a := Item(1, Some(listId), "A", false);
      var b := Item(2, Some(listId), "B", true);
      var c := Item(3, Some(listId), "C", false);
      ItemsFor([a, b, c], listId) == [c, a, b]
  {
    var a := Item(1, Some(listId), "A", false);
    var b := Item(2, Some(listId), "B", true);
    var c := Item(3, Some(listId), "C", false);
    assert NewestFirst([c], listId, false) == [c];
    assert NewestFirst([b, c], listId, false) == [c];
    assert [a, b, c][1..] == [b, c] && [b, c][1..] == [c];
    assert NewestFirst([a, b, c], listId, false) == [c, a];
    assert NewestFirst([c], listId, true) == [];
    assert NewestFirst([b, c], listId, true) == [b];
    assert NewestFirst([a, b, c], listId, true) == [b];
  }
}
