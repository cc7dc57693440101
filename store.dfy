/**
 * The database as the handlers see it (cmd/server/main.go): one method per
 * handler that writes, each performing that handler's SQL statements in
 * order as one atomic step, and the two read-only queries behind the pages.
 * Request parsing is done by the caller: ids and names arrive already
 * parsed (a failed strconv.Atoi arrives as 0).
 */
module Store {
  import opened Wrappers
  import opened Text
  import opened Tables

  /** What getDataForList hands to the templates (ShowManager aside). */
  datatype PageData = PageData(lists: seq<List>, current: List, items: seq<Item>)

  /** The zero value of Go's List struct, shown when no list is selected or found. */
  const NoList: List := List(0, "")

  class Database {
    /** The `lists` table, in rowid (= ascending id) order. */
    var lists: seq<List>
    /** The `items` table, in rowid (= ascending id) order. */
    var items: seq<Item>
    /** sqlite_sequence for `lists`: the largest id AUTOINCREMENT has handed out. */
    var listSeq: nat
    /** sqlite_sequence for `items`. */
    var itemSeq: nat

    /** Ids are unique and ascending, and every id is one AUTOINCREMENT handed out. */
    ghost predicate Valid()
      reads this
    {
      && ListIdsAscending(lists)
      && ItemIdsAscending(items)
      && (forall l :: l in lists ==> 0 < l.id <= listSeq)
      && (forall x :: x in items ==> 0 < x.id <= itemSeq)
    }

    /** A freshly created database file: both tables empty. */
    constructor ()
      ensures Valid()
      ensures lists == [] && items == [] && listSeq == 0 && itemSeq == 0
    {
      lists, items := [], [];
      listSeq, itemSeq := 0, 0;
    }

    /**
     * The bootstrap in initDB: with no list at all, create "Lista Principal"
     * and move every unassigned item into it; otherwise do nothing.
     */
    method InitDB()
      requires Valid()
      modifies this
      ensures Valid()
      ensures old(lists) == [] ==>
        && lists == [List(old(listSeq) + 1, DefaultListName)]
        && items == AdoptOrphans(old(items), old(listSeq) + 1)
        && listSeq == old(listSeq) + 1 && itemSeq == old(itemSeq)
      ensures old(lists) != [] ==>
        lists == old(lists) && items == old(items) && listSeq == old(listSeq) && itemSeq == old(itemSeq)
      ensures |lists| == 1 || lists == old(lists)
      ensures |lists| >= 1
    {
      var count := |lists|;
      if count == 0 {
        listSeq := listSeq + 1;
        var id := listSeq;
        lists := [List(id, DefaultListName)];
        SameItemIdsStayValid(items, AdoptOrphans(items, id), itemSeq);
        items := AdoptOrphans(items, id);
      }
    }

    /** createListHandler: a name that is not blank becomes a new list with the next id. */
    method CreateList(name: string)
      requires Valid()
      modifies this
      ensures Valid()
      ensures Blank(name) ==>
        lists == old(lists) && items == old(items) && listSeq == old(listSeq) && itemSeq == old(itemSeq)
      ensures !Blank(name) ==>
        && lists == old(lists) + [List(old(listSeq) + 1, name)]
        && listSeq == old(listSeq) + 1
        && items == old(items) && itemSeq == old(itemSeq)
      ensures !Blank(name) ==> forall l :: l in old(lists) ==> l.id < lists[|lists| - 1].id
    {
      if TrimSpace(name) != "" {
        listSeq := listSeq + 1;
        lists := lists + [List(listSeq, name)];
      }
    }

    /** editListHandler: a name that is not blank replaces the name of the list with that id. */
    method EditList(id: int, name: string)
      requires Valid()
      modifies this
      ensures Valid()
      ensures Blank(name) ==> lists == old(lists)
      ensures !Blank(name) ==> lists == RenameList(old(lists), id, name)
      ensures items == old(items) && listSeq == old(listSeq) && itemSeq == old(itemSeq)
    {
      if TrimSpace(name) != "" {
        RenameKeepsIds(lists, id, name, listSeq);
        lists := RenameList(lists, id, name);
      }
    }

    /**
     * deleteListHandler: refused while at most one list exists; otherwise
     * the items of that list go, then the list itself.
     */
    method DeleteList(id: int)
      requires Valid()
      modifies this
      ensures Valid()
      ensures |old(lists)| <= 1 ==> lists == old(lists) && items == old(items)
      ensures |old(lists)| > 1 ==>
        lists == Tables.DeleteList(old(lists), id) && items == DeleteItems(old(items), ByList(id))
      ensures |old(lists)| > 1 ==> forall l :: l in lists <==> l in old(lists) && l.id != id
      ensures |old(lists)| > 1 ==> forall x :: x in items <==> x in old(items) && x.listId != Some(id)
      ensures |old(lists)| >= 1 ==> |lists| >= 1
      ensures listSeq == old(listSeq) && itemSeq == old(itemSeq)
    {
      var count := |lists|;
      if count > 1 {
        DeleteItemsKeepsOrder(items, ByList(id));
        items := DeleteItems(items, ByList(id));
        DeleteListKeepsOrder(lists, id);
        DeleteListRemovesOne(lists, id);
        lists := Tables.DeleteList(lists, id);
      }
    }

    /**
     * addItemHandler: a name that is not blank becomes a new open item of
     * the given list with the next id. Answers the list to re-render.
     */
    method AddItem(listId: int, name: string) returns (shown: int)
      requires Valid()
      modifies this
      ensures Valid()
      ensures Blank(name) ==> items == old(items) && itemSeq == old(itemSeq)
      ensures !Blank(name) ==>
        && items == old(items) + [Item(old(itemSeq) + 1, Some(listId), name, false)]
        && itemSeq == old(itemSeq) + 1
      ensures !Blank(name) ==> forall x :: x in old(items) ==> x.id < items[|items| - 1].id
      ensures lists == old(lists) && listSeq == old(listSeq)
      ensures shown == listId
    {
      if TrimSpace(name) != "" {
        itemSeq := itemSeq + 1;
        items := items + [Item(itemSeq, Some(listId), name, false)];
      }
      shown := listId;
    }

    /**
     * toggleItemHandler: reads the item's flag and list, then writes the
     * negated flag. An unknown id reads nothing and updates nothing.
     * Answers the list to re-render: 0 when the id is unknown, and also when
     * the item's list_id is NULL, which Scan cannot store into an int.
     */
    method ToggleItem(id: int) returns (shown: int)
      requires Valid()
      modifies this
      ensures Valid()
      ensures |items| == |old(items)|
      ensures forall i :: 0 <= i < |items| ==>
        items[i] == if old(items)[i].id == id then old(items)[i].(completed := !old(items)[i].completed)
                    else old(items)[i]
      ensures FindItem(old(items), id).None? ==> items == old(items) && shown == 0
      ensures FindItem(old(items), id).Some? ==> shown == FindItem(old(items), id).value.listId.GetOr(0)
      ensures lists == old(lists) && listSeq == old(listSeq) && itemSeq == old(itemSeq)
    {
      var completed := false;
      shown := 0;
      var found := FindItem(items, id);
      if found.Some? {
        completed, shown := found.value.completed, found.value.listId.GetOr(0);
      }
      SameItemIdsStayValid(items, SetCompleted(items, id, !completed), itemSeq);
      FindItemIsTheRow(items, id);
      items := SetCompleted(items, id, !completed);
    }

    /**
     * deleteItemHandler: removes the item with that id. Answers the list to
     * re-render, 0 when the id is unknown or its list_id is NULL.
     */
    method DeleteItem(id: int) returns (shown: int)
      requires Valid()
      modifies this
      ensures Valid()
      ensures items == DeleteItems(old(items), ById(id))
      ensures forall x :: x in items <==> x in old(items) && x.id != id
      ensures FindItem(old(items), id).None? ==> items == old(items) && shown == 0
      ensures FindItem(old(items), id).Some? ==>
        |items| == |old(items)| - 1 && shown == FindItem(old(items), id).value.listId.GetOr(0)
      ensures lists == old(lists) && listSeq == old(listSeq) && itemSeq == old(itemSeq)
    {
      shown := 0;
      var found := FindItem(items, id);
      if found.Some? {
        shown := found.value.listId.GetOr(0);
      }
      ghost var before := items;
      DeleteItemsKeepsOrder(items, ById(id));
      items := DeleteItems(items, ById(id));
      DeleteItemRemovesOne(before, id);
    }

    /**
     * getDataForList: every list in id order; for a positive list id, that
     * list (or the zero List when it does not exist) and its items, open
     * before done and newest first within each group; otherwise no items.
     */
    method GetDataForList(listId: int) returns (page: PageData)
      requires Valid()
      ensures page.lists == lists && ListIdsAscending(page.lists)
      ensures listId > 0 ==> page.current == FindList(lists, listId).GetOr(NoList)
      ensures listId <= 0 ==> page.current == NoList
      ensures forall x :: x in page.items <==> listId > 0 && x in items && x.listId == Some(listId)
      ensures DisplaySorted(page.items)
      ensures listId > 0 ==> page.items == ItemsFor(items, listId)
    {
      var rows: seq<List> := [];
      var i := 0;
      while i < |lists|
        invariant 0 <= i <= |lists|
        invariant rows == lists[..i]
      {
        rows := rows + [lists[i]];
        i := i + 1;
      }
      var current := NoList;
      var shown: seq<Item> := [];
      if listId > 0 {
        current := FindList(lists, listId).GetOr(NoList);
        var open: seq<Item> := [];
        var done: seq<Item> := [];
        var k := |items|;
        while k > 0
          invariant 0 <= k <= |items|
          invariant open == NewestFirst(items[k..], listId, false)
          invariant done == NewestFirst(items[k..], listId, true)
        {
          k := k - 1;
          var x := items[k];
          NewestFirstStep(items, k, listId, false);
          NewestFirstStep(items, k, listId, true);
          if x.listId == Some(listId) {
            if x.completed {
              done := done + [x];
            } else {
              open := open + [x];
            }
          }
        }
        assert items[0..] == items;
        shown := open + done;
        assert shown == ItemsFor(items, listId);
      }
      assert rows == lists;
      page := PageData(rows, current, shown);
    }

    /**
     * indexHandler: the list `/` redirects to, the one with the smallest id;
     * None (redirect to /manage) when there is no list.
     */
    method IndexHandler() returns (first: Option<int>)
      requires Valid()
      ensures first.None? <==> lists == []
      ensures first.Some? ==> FindList(lists, first.value).Some?
      ensures first.Some? ==> forall l :: l in lists ==> first.value <= l.id
    {
      if |lists| == 0 {
        first := None;
      } else {
        first := Some(lists[0].id);
        assert lists[0] in lists;
      }
    }
  }

  /** A table whose rows keep their ids, row by row, stays valid. */
  lemma SameItemIdsStayValid(before: seq<Item>, after: seq<Item>, bound: int)
    requires ItemIdsAscending(before)
    requires forall x :: x in before ==> 0 < x.id <= bound
    requires |after| == |before| && forall i :: 0 <= i < |before| ==> after[i].id == before[i].id
    ensures ItemIdsAscending(after)
    ensures forall x :: x in after ==> 0 < x.id <= bound
  {
    forall x | x in after ensures 0 < x.id <= bound {
      var i :| 0 <= i < |after| && after[i] == x;
      assert before[i] in before;
    }
  }

  /** With unique ids, the row a lookup by id finds is the only row with that id. */
  lemma FindItemIsTheRow(items: seq<Item>, id: int)
    requires ItemIdsAscending(items)
    ensures forall i :: 0 <= i < |items| && items[i].id == id ==> FindItem(items, id) == Some(items[i])
  {
    forall i | 0 <= i < |items| && items[i].id == id
      ensures FindItem(items, id) == Some(items[i])
    {
      assert items[i] in items;
      assert FindItem(items, id).Some?;
      var k :| 0 <= k < |items| && items[k] == FindItem(items, id).value;
      assert k == i;
    }
  }

  /** Renaming leaves every id where it was, so the table stays valid. */
  lemma RenameKeepsIds(ls: seq<List>, id: int, name: string, bound: int)
    requires ListIdsAscending(ls)
    requires forall l :: l in ls ==> 0 < l.id <= bound
    ensures ListIdsAscending(RenameList(ls, id, name))
    ensures forall l :: l in RenameList(ls, id, name) ==> 0 < l.id <= bound
  {
  }

  /** Running the bootstrap a second time changes nothing: there is never a second default list. */
  method InitDBTwice(db: Database)
    requires db.Valid()
    modifies db
    ensures db.Valid()
    ensures old(db.lists) == [] ==>
      && db.lists == [List(old(db.listSeq) + 1, DefaultListName)]
      && db.items == AdoptOrphans(old(db.items), old(db.listSeq) + 1)
      && db.listSeq == old(db.listSeq) + 1 && db.itemSeq == old(db.itemSeq)
    ensures old(db.lists) != [] ==>
      && db.lists == old(db.lists) && db.items == old(db.items)
      && db.listSeq == old(db.listSeq) && db.itemSeq == old(db.itemSeq)
  {
    db.InitDB();
    ghost var once := db.lists;
    ghost var onceItems := db.items;
    db.InitDB();
    assert db.lists == once && db.items == onceItems;
  }
}
