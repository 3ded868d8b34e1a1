/** The editor's progress list of src/components/editor/ProgressList.jsx: the
    status filter and the id order a drag hands to the store's reorder. The
    drag kit reports the dragged item's id and the id of the item it was
    dropped on (`over`, missing when dropped on nothing). Each card's
    percent, bar colour and due-date warning are the module ProgressView. */
module ProgressList {
  import opened JsValue
  import opened ListOps
  import Collection
  import opened DragOrder
  import ProgressSummary

  /** `p => p.status === statusFilter` */
  function StatusPred(statusFilter: string): Val -> Res<bool> {
    p => ProgressSummary.StatusTest(p, statusFilter)
  }

  /** filtered: `statusFilter ? items.filter(p => p.status === statusFilter) : items` */
  function StatusFiltered(items: seq<Val>, statusFilter: string): (r: Res<seq<Val>>)
    ensures statusFilter == "" ==> r == Ok(items)
    ensures r.Ok? <==> statusFilter == "" || forall i | 0 <= i < |items| :: !Nullish(items[i])
    ensures r.Ok? ==> IsSubsequence(r.value, items)
    ensures r.Ok? && statusFilter != "" ==>
              forall x :: x in r.value <==> x in items && OptProp(x, "status") == Str(statusFilter)
  {
    if statusFilter == "" then
      assert IsSubsequence(items, items) by { SubsequenceOfSelf(items); }
      Ok(items)
    else
      FilterRes(items, StatusPred(statusFilter))
  }

  lemma {:induction false} SubsequenceOfSelf(s: seq<Val>)
    ensures IsSubsequence(s, s)
    decreases |s|
  {
    if |s| > 0 {
      SubsequenceOfSelf(s[1..]);
    }
  }

  /** ids: the ids of the filtered list, in its order. */
  function FilteredIds(items: seq<Val>, statusFilter: string): Res<seq<Val>> {
    var f :- StatusFiltered(items, statusFilter);
    Ids(f)
  }

  /** `filtered.some(f => f.id === p.id)`, reading `f.id` before `p.id`. */
  function SomeSameId(filtered: seq<Val>, p: Val): (r: Res<bool>)
    ensures |filtered| == 0 ==> r == Ok(false)
    ensures (forall i | 0 <= i < |filtered| :: !Nullish(filtered[i])) && !Nullish(p) ==>
              r == Ok(OptProp(p, "id") in Ids(filtered).value)
    decreases |filtered|
  {
    if |filtered| == 0 then Ok(false)
    else
      var fid :- Prop(filtered[0], "id");
      var pid :- Prop(p, "id");
      if fid == pid then Ok(true)
      else
        var r := SomeSameId(filtered[1..], p);
        assert (forall i | 0 <= i < |filtered| :: !Nullish(filtered[i])) ==>
                 Ids(filtered).value == [fid] + Ids(filtered[1..]).value;
        r
  }

  /** `p => !filtered.some(f => f.id === p.id)` */
  function NotInPred(filtered: seq<Val>): Val -> Res<bool> {
    p => (var b :- SomeSameId(filtered, p); Ok(!b))
  }

  /** idOrder for a move from index `from` to index `to` of the filtered
      list: the ids of the items outside it, sorted by `order`, then the ids of
      the filtered list after the move. */
  function IdOrder(items: seq<Val>, filtered: seq<Val>, from: int, to: int): (r: Res<seq<Val>>)
    ensures r.Ok? ==> FilterRes(items, NotInPred(filtered)).Ok?
                      && ProgressSummary.SortItems(FilterRes(items, NotInPred(filtered)).value).Ok?
    ensures r.Ok? ==>
              var sorted := ProgressSummary.SortItems(FilterRes(items, NotInPred(filtered)).value).value;
              SortedBy(sorted, OrderKey)
              && Ids(sorted).Ok? && Ids(ArrayMove(filtered, from, to)).Ok?
              && r.value == Ids(sorted).value + Ids(ArrayMove(filtered, from, to)).value
  {
    var others :- FilterRes(items, NotInPred(filtered));
    var sorted :- ProgressSummary.SortItems(others);
    var head :- Ids(sorted);
    var tail :- Ids(ArrayMove(filtered, from, to));
    Ok(head + tail)
  }

  /** onDragEnd: nothing when dropped on nothing or on the dragged item
      itself; otherwise the id order handed to reorder. */
  function OnDragEnd(items: seq<Val>, statusFilter: string, activeId: Val, overId: Option<Val>)
    : (r: Option<Res<seq<Val>>>)
    ensures r.None? <==> overId.None? || activeId == overId.value
    ensures r.Some? && r.value.Ok? ==>
              FilteredIds(items, statusFilter).Ok?
              && var ids := FilteredIds(items, statusFilter).value;
              IdOrder(items, StatusFiltered(items, statusFilter).value,
                      IndexOf(ids, activeId), IndexOf(ids, overId.value)) == r.value
  {
    if overId.None? || activeId == overId.value then None
    else
      Some(var f :- StatusFiltered(items, statusFilter);
           var ids :- Ids(f);
           IdOrder(items, f, IndexOf(ids, activeId), IndexOf(ids, overId.value)))
  }

  /** Against records with distinct keys, "no filtered record has this id"
      is exactly "the record fails the status filter". */
  lemma NotInFilteredExact(items: seq<Val>, statusFilter: string, i: nat)
    requires DistinctRecords(items) && i < |items|
    ensures StatusFiltered(items, statusFilter).Ok?
    ensures NotInPred(StatusFiltered(items, statusFilter).value)(items[i])
              == Ok(!(statusFilter == "" || OptProp(items[i], "status") == Str(statusFilter)))
  {
    FilteredRecords(items, statusFilter);
    var f := StatusFiltered(items, statusFilter).value;
    var pass := statusFilter == "" || OptProp(items[i], "status") == Str(statusFilter);
    var id := OptProp(items[i], "id");
    if id in Ids(f).value {
      IdInFilteredIsItem(items, f, items[i]);
    }
    if pass {
      ItemInFilteredHasId(f, items[i]);
    }
  }

  /** The filtered list of distinct records is drawn from the items, holds no
      null, and keeps every item that passes the status test. */
  lemma FilteredRecords(items: seq<Val>, statusFilter: string)
    requires DistinctRecords(items)
    ensures StatusFiltered(items, statusFilter).Ok?
    ensures var f := StatusFiltered(items, statusFilter).value;
            (forall x | x in f :: x in items) && (forall k | 0 <= k < |f| :: !Nullish(f[k]))
    ensures forall i | 0 <= i < |items| ::
              (statusFilter == "" || OptProp(items[i], "status") == Str(statusFilter)) ==>
                items[i] in StatusFiltered(items, statusFilter).value
  {
    var f := StatusFiltered(items, statusFilter).value;
    assert forall x | x in f :: x in items by {
      if statusFilter != "" {
        assert forall x | x in f :: x in items && OptProp(x, "status") == Str(statusFilter);
      }
    }
    forall k | 0 <= k < |f| ensures !Nullish(f[k]) {
      assert f[k] in items;
    }
  }

  /** A record whose id some filtered record carries is that record. */
  lemma IdInFilteredIsItem(items: seq<Val>, f: seq<Val>, x: Val)
    requires DistinctRecords(items) && x in items
    requires (forall y | y in f :: y in items) && (forall k | 0 <= k < |f| :: !Nullish(f[k]))
    requires OptProp(x, "id") in Ids(f).value
    ensures x in f
  {
    var ids := Ids(f).value;
    var k :| 0 <= k < |ids| && ids[k] == OptProp(x, "id");
    SameIdSameItem(items, f[k], x);
  }

  /** A filtered record's id is among the filtered ids. */
  lemma ItemInFilteredHasId(f: seq<Val>, x: Val)
    requires (forall k | 0 <= k < |f| :: !Nullish(f[k])) && x in f
    ensures OptProp(x, "id") in Ids(f).value
  {
    var k :| 0 <= k < |f| && f[k] == x;
    assert Ids(f).value[k] == OptProp(x, "id");
  }

  /** The items outside the filter and the filtered ones together are all
      the items. */
  lemma SplitKeepsAll(items: seq<Val>, statusFilter: string)
    requires DistinctRecords(items)
    ensures StatusFiltered(items, statusFilter).Ok?
    ensures FilterRes(items, NotInPred(StatusFiltered(items, statusFilter).value)).Ok?
    ensures var f := StatusFiltered(items, statusFilter).value;
            multiset(FilterRes(items, NotInPred(f)).value) + multiset(f) == multiset(items)
  {
    var f := StatusFiltered(items, statusFilter).value;
    forall i | 0 <= i < |items|
      ensures NotInPred(f)(items[i]) == Ok(!(statusFilter == "" || OptProp(items[i], "status") == Str(statusFilter)))
    {
      NotInFilteredExact(items, statusFilter, i);
    }
    if statusFilter == "" {
      FilterNone(items, NotInPred(f));
    } else {
      FilterPartition(items, StatusPred(statusFilter), NotInPred(f));
    }
  }

  /** Both parts hold records only, and the outside part sorts without error. */
  lemma SplitRecords(items: seq<Val>, statusFilter: string)
    requires DistinctRecords(items)
    ensures StatusFiltered(items, statusFilter).Ok?
    ensures FilterRes(items, NotInPred(StatusFiltered(items, statusFilter).value)).Ok?
    ensures var f := StatusFiltered(items, statusFilter).value;
            var others := FilterRes(items, NotInPred(f)).value;
            (forall i | 0 <= i < |f| :: !Nullish(f[i]))
            && (forall i | 0 <= i < |others| :: !Nullish(others[i]))
            && ProgressSummary.SortItems(others).Ok?
            && forall i | 0 <= i < |ProgressSummary.SortItems(others).value| ::
                 !Nullish(ProgressSummary.SortItems(others).value[i])
  {
    SplitKeepsAll(items, statusFilter);
    var f := StatusFiltered(items, statusFilter).value;
    var others := FilterRes(items, NotInPred(f)).value;
    forall i | 0 <= i < |f| ensures !Nullish(f[i]) {
      assert f[i] in multiset(items);
    }
    forall i | 0 <= i < |others| ensures !Nullish(others[i]) {
      assert others[i] in multiset(items);
    }
    var sorted := ProgressSummary.SortItems(others).value;
    forall i | 0 <= i < |sorted| ensures !Nullish(sorted[i]) {
      assert sorted[i] in multiset(others);
    }
  }

  /** A drop between two items of the filtered list: the case the drag kit
      produces, with the store's records. */
  predicate DropBetween(items: seq<Val>, statusFilter: string, activeId: Val, overId: Val) {
    DistinctRecords(items) && activeId != overId
    && FilteredIds(items, statusFilter).Ok?
    && activeId in FilteredIds(items, statusFilter).value && overId in FilteredIds(items, statusFilter).value
  }

  /** Both ids are found in the filtered list. */
  lemma DropIndices(items: seq<Val>, statusFilter: string, activeId: Val, overId: Val)
    requires DropBetween(items, statusFilter, activeId, overId)
    ensures StatusFiltered(items, statusFilter).Ok?
    ensures var ids := FilteredIds(items, statusFilter).value;
            |ids| == |StatusFiltered(items, statusFilter).value|
            && 0 <= IndexOf(ids, activeId) < |ids| && 0 <= IndexOf(ids, overId) < |ids|
  {
  }

  /** What a drop between two filtered items computes: the items outside the
      filter, sorted by `order`, then the filtered items moved. */
  lemma DropShape(items: seq<Val>, statusFilter: string, activeId: Val, overId: Val)
    requires DropBetween(items, statusFilter, activeId, overId)
    ensures StatusFiltered(items, statusFilter).Ok?
    ensures var f := StatusFiltered(items, statusFilter).value;
            var ids := FilteredIds(items, statusFilter).value;
            var from, to := IndexOf(ids, activeId), IndexOf(ids, overId);
            0 <= from < |f| && 0 <= to < |f|
            && FilterRes(items, NotInPred(f)).Ok?
            && ProgressSummary.SortItems(FilterRes(items, NotInPred(f)).value).Ok?
            && var sorted := ProgressSummary.SortItems(FilterRes(items, NotInPred(f)).value).value;
            Ids(sorted).Ok? && Ids(ArrayMove(f, from, to)).Ok?
            && OnDragEnd(items, statusFilter, activeId, Some(overId))
               == Some(Ok(Ids(sorted).value + Ids(ArrayMove(f, from, to)).value))
  {
    DropIndices(items, statusFilter, activeId, overId);
    var f := StatusFiltered(items, statusFilter).value;
    var ids := Ids(f).value;
    var from, to := IndexOf(ids, activeId), IndexOf(ids, overId);
    SplitRecords(items, statusFilter);
    IdsOfMove(f, from, to);
  }

  /** The order built from the outside items and the moved filtered items
      names every item's key once. */
  lemma OrderIsPermutation(items: seq<Val>, others: seq<Val>, f: seq<Val>, sorted: seq<Val>, moved: seq<Val>)
    requires forall i | 0 <= i < |items| :: !Nullish(items[i])
    requires multiset(others) + multiset(f) == multiset(items)
    requires multiset(sorted) == multiset(others) && multiset(moved) == multiset(f)
    ensures Ids(sorted).Ok? && Ids(moved).Ok?
    ensures multiset(Collection.IdKeys(Ids(sorted).value + Ids(moved).value)) == multiset(Collection.Keys(items))
  {
    assert multiset(others + f) == multiset(items);
    assert multiset(Collection.Keys(items)) == multiset(Collection.Keys(others)) + multiset(Collection.Keys(f)) by {
      KeysFollowMultiset(items, others + f);
      assert forall i | 0 <= i < |others| :: (others + f)[i] == others[i];
      assert forall i | 0 <= i < |f| :: (others + f)[|others| + i] == f[i];
      KeysAppend(others, f);
    }
    assert multiset(Collection.IdKeys(Ids(sorted).value)) == multiset(Collection.Keys(others)) by {
      KeysFollowMultiset(others, sorted);
      IdKeysOfIds(sorted);
    }
    assert multiset(Collection.IdKeys(Ids(moved).value)) == multiset(Collection.Keys(f)) by {
      KeysFollowMultiset(f, moved);
      IdKeysOfIds(moved);
    }
    IdKeysAppend(Ids(sorted).value, Ids(moved).value);
  }

  lemma IdKeysAppend(a: seq<Val>, b: seq<Val>)
    ensures Collection.IdKeys(a + b) == Collection.IdKeys(a) + Collection.IdKeys(b)
  {
  }

  /** A drop from one filtered item onto another hands reorder a permutation
      of all the items' ids, so reorder drops no item and numbers all of them
      0..N-1. */
  lemma DropIsPermutation(items: seq<Val>, statusFilter: string, activeId: Val, overId: Val)
    requires DropBetween(items, statusFilter, activeId, overId)
    ensures OnDragEnd(items, statusFilter, activeId, Some(overId)).Some?
    ensures OnDragEnd(items, statusFilter, activeId, Some(overId)).value.Ok?
    ensures var order := OnDragEnd(items, statusFilter, activeId, Some(overId)).value.value;
            multiset(Collection.IdKeys(order)) == multiset(Collection.Keys(items))
  {
    DropShape(items, statusFilter, activeId, overId);
    SplitKeepsAll(items, statusFilter);
    var f := StatusFiltered(items, statusFilter).value;
    var ids := FilteredIds(items, statusFilter).value;
    var from, to := IndexOf(ids, activeId), IndexOf(ids, overId);
    var others := FilterRes(items, NotInPred(f)).value;
    ArrayMoveInRange(f, from, to);
    OrderIsPermutation(items, others, f, ProgressSummary.SortItems(others).value, ArrayMove(f, from, to));
  }

  /** So reorder, given that order, keeps every item, each with its new order. */
  lemma DropKeepsEveryItem(items: seq<Val>, statusFilter: string, activeId: Val, overId: Val)
    requires DropBetween(items, statusFilter, activeId, overId)
    ensures OnDragEnd(items, statusFilter, activeId, Some(overId)).Some?
    ensures OnDragEnd(items, statusFilter, activeId, Some(overId)).value.Ok?
    ensures var order := OnDragEnd(items, statusFilter, activeId, Some(overId)).value.value;
            Collection.Reorder(items, order).Ok? && |Collection.Reorder(items, order).value| == |items|
            && forall j | 0 <= j < |items| :: exists i | 0 <= i < |order| ::
                 Collection.Reorder(items, order).value[i] == Obj(items[j].fields["order" := Num(i)])
  {
    DropIsPermutation(items, statusFilter, activeId, overId);
    Collection.ReorderPermutation(items, OnDragEnd(items, statusFilter, activeId, Some(overId)).value.value);
  }

  /** The filtered group comes after every other item: the order ends with
      the filtered ids after the move, the dragged id at the drop target's
      index among them, and no filtered id comes earlier. */
  lemma DropPutsFilteredLast(items: seq<Val>, statusFilter: string, activeId: Val, overId: Val)
    requires DropBetween(items, statusFilter, activeId, overId)
    ensures OnDragEnd(items, statusFilter, activeId, Some(overId)).Some?
    ensures OnDragEnd(items, statusFilter, activeId, Some(overId)).value.Ok?
    ensures var order := OnDragEnd(items, statusFilter, activeId, Some(overId)).value.value;
            var ids := FilteredIds(items, statusFilter).value;
            var k := |order| - |ids|;
            0 <= k && order[k..] == ArrayMove(ids, IndexOf(ids, activeId), IndexOf(ids, overId))
            && order[k + IndexOf(ids, overId)] == activeId
            && forall i | 0 <= i < k :: order[i] !in ids
  {
    var head := DropOrder(items, statusFilter, activeId, overId);
    var ids := FilteredIds(items, statusFilter).value;
    var from, to := IndexOf(ids, activeId), IndexOf(ids, overId);
    ArrayMoveInRange(ids, from, to);
    var order := head + ArrayMove(ids, from, to);
    assert order[|head|..] == ArrayMove(ids, from, to);
  }

  /** The order a drop between two filtered items hands to reorder: some ids
      that are not filtered ids, then the filtered ids moved. */
  lemma DropOrder(items: seq<Val>, statusFilter: string, activeId: Val, overId: Val) returns (head: seq<Val>)
    requires DropBetween(items, statusFilter, activeId, overId)
    ensures FilteredIds(items, statusFilter).Ok?
    ensures var ids := FilteredIds(items, statusFilter).value;
            var from, to := IndexOf(ids, activeId), IndexOf(ids, overId);
            0 <= from < |ids| && 0 <= to < |ids|
            && OnDragEnd(items, statusFilter, activeId, Some(overId)) == Some(Ok(head + ArrayMove(ids, from, to)))
            && forall i | 0 <= i < |head| :: head[i] !in ids
  {
    DropShape(items, statusFilter, activeId, overId);
    var f := StatusFiltered(items, statusFilter).value;
    var ids := FilteredIds(items, statusFilter).value;
    var from, to := IndexOf(ids, activeId), IndexOf(ids, overId);
    var others := FilterRes(items, NotInPred(f)).value;
    var sorted := ProgressSummary.SortItems(others).value;
    head := Ids(sorted).value;
    IdsOfMove(f, from, to);
    OutsideIdsFirst(items, statusFilter);
  }

  /** No id of the sorted outside items is a filtered id. */
  lemma OutsideIdsFirst(items: seq<Val>, statusFilter: string)
    requires DistinctRecords(items)
    ensures StatusFiltered(items, statusFilter).Ok? && FilteredIds(items, statusFilter).Ok?
    ensures FilterRes(items, NotInPred(StatusFiltered(items, statusFilter).value)).Ok?
    ensures var others := FilterRes(items, NotInPred(StatusFiltered(items, statusFilter).value)).value;
            ProgressSummary.SortItems(others).Ok? && Ids(ProgressSummary.SortItems(others).value).Ok?
            && forall i | 0 <= i < |Ids(ProgressSummary.SortItems(others).value).value| ::
                 Ids(ProgressSummary.SortItems(others).value).value[i] !in FilteredIds(items, statusFilter).value
  {
    SplitRecords(items, statusFilter);
    var f := StatusFiltered(items, statusFilter).value;
    var others := FilterRes(items, NotInPred(f)).value;
    var sorted := ProgressSummary.SortItems(others).value;
    var head := Ids(sorted).value;
    forall i | 0 <= i < |head| ensures head[i] !in FilteredIds(items, statusFilter).value {
      var p := sorted[i];
      assert p in multiset(others);
      OutsideIdNotFiltered(items, statusFilter, p);
    }
  }

  /** An item outside the filter has an id no filtered item has. */
  lemma OutsideIdNotFiltered(items: seq<Val>, statusFilter: string, p: Val)
    requires DistinctRecords(items)
    requires StatusFiltered(items, statusFilter).Ok?
    requires FilterRes(items, NotInPred(StatusFiltered(items, statusFilter).value)).Ok?
    requires p in FilterRes(items, NotInPred(StatusFiltered(items, statusFilter).value)).value
    ensures FilteredIds(items, statusFilter).Ok? && OptProp(p, "id") !in FilteredIds(items, statusFilter).value
  {
    var f := StatusFiltered(items, statusFilter).value;
    assert NotInPred(f)(p) == Ok(true);
    assert p in items;
    assert forall i | 0 <= i < |f| :: !Nullish(f[i]) by {
      forall i | 0 <= i < |f| ensures !Nullish(f[i]) { assert f[i] in items; }
    }
  }
}
