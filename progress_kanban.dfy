/** The kanban board of src/components/editor/ProgressKanban.jsx: three
    columns of progress records, and the drop handler that sends the dragged
    card to another column through the store's updateItem and reorder. */
module ProgressKanban {
  import opened JsValue
  import opened ListOps
  import opened DragOrder
  import Collection
  import ProgressSummary
  import ProgressStore

  /** The three column ids, which are also the statuses a drop sets. */
  predicate IsColumn(s: string) {
    s == "todo" || s == "in_progress" || s == "done"
  }

  /** Every element can have its fields read (none is null or undefined). */
  predicate AllReadable(items: seq<Val>) {
    forall i | 0 <= i < |items| :: !Nullish(items[i])
  }

  /** The status text a record files under: `p.status || 'todo'`. */
  function Lane(p: Val): Val {
    Or(OptProp(p, "status"), Str("todo"))
  }

  /** `(p.status || 'todo') === status`: a record without a status, or with
      an empty one, counts as to do. */
  function LaneTest(p: Val, status: string): (r: Res<bool>)
    ensures r.Ok? <==> !Nullish(p)
    ensures r == Ok(true) <==> !Nullish(p) && Lane(p) == Str(status)
  {
    var s :- Prop(p, "status");
    Ok(Or(s, Str("todo")) == Str(status))
  }

  function LanePred(status: string): Val -> Res<bool> {
    p => LaneTest(p, status)
  }

  /** The test of a column's filter: the to-do column uses the lane, the
      other two compare the status exactly. */
  function ColumnPred(status: string): Val -> Res<bool> {
    if status == "todo" then p => LaneTest(p, status) else p => ProgressSummary.StatusTest(p, status)
  }

  /** Filters whose tests agree on every element keep the same elements. */
  lemma {:induction false} FilterSameTest<T>(s: seq<T>, p: T -> Res<bool>, q: T -> Res<bool>)
    requires forall i | 0 <= i < |s| :: p(s[i]) == q(s[i])
    ensures FilterRes(s, p) == FilterRes(s, q)
    decreases |s|
  {
    if |s| > 0 {
      assert forall i | 0 <= i < |s[1..]| :: s[1..][i] == s[i + 1];
      FilterSameTest(s[1..], p, q);
    }
  }

  /** For every column id the column's own test is the lane test. */
  lemma ColumnPredIsLane(s: seq<Val>, status: string)
    requires IsColumn(status)
    ensures FilterRes(s, ColumnPred(status)) == FilterRes(s, LanePred(status))
  {
    forall i | 0 <= i < |s| ensures ColumnPred(status)(s[i]) == LanePred(status)(s[i]) {
      if status != "todo" && !Nullish(s[i]) {
        var st := OptProp(s[i], "status");
        assert Truthy(Str(status));
        if !Truthy(st) {
          assert st != Str(status);
        }
      }
    }
    FilterSameTest(s, ColumnPred(status), LanePred(status));
  }

  /** One column: the records whose lane is the column's id, sorted by
      `order`, as many as the lane filter keeps. */
  function Column(items: seq<Val>, status: string): (r: Res<seq<Val>>)
    requires IsColumn(status)
    ensures r.Ok? <==> AllReadable(items)
    ensures r.Ok? ==> SortedBy(r.value, OrderKey)
    ensures r.Ok? ==> forall x | x in r.value :: x in items && Lane(x) == Str(status)
    ensures r.Ok? ==> forall x | x in items && Lane(x) == Str(status) :: x in r.value
  {
    ColumnPredIsLane(items, status);
    var f :- FilterRes(items, ColumnPred(status));
    SortedLane(items, status, f);
    ProgressSummary.SortItems(f)
  }

  /** Sorting the records a lane filter keeps loses and adds none. */
  lemma SortedLane(items: seq<Val>, status: string, f: seq<Val>)
    requires FilterRes(items, LanePred(status)) == Ok(f)
    ensures var r := ProgressSummary.SortItems(f);
            r.Ok? && SortedBy(r.value, OrderKey) && multiset(r.value) == multiset(f)
            && (forall x | x in r.value :: x in items && Lane(x) == Str(status))
            && (forall x | x in items && Lane(x) == Str(status) :: x in r.value)
  {
    var r := ProgressSummary.SortItems(f);
    assert forall i | 0 <= i < |f| :: !Nullish(f[i]) by {
      forall i | 0 <= i < |f| ensures !Nullish(f[i]) {
        assert f[i] in f;
      }
    }
    ProgressSummary.SortItemsDefined(f);
    assert forall x | x in r.value :: x in f by {
      forall x | x in r.value ensures x in f {
        assert x in multiset(r.value);
      }
    }
    assert forall x | x in items && Lane(x) == Str(status) :: x in r.value by {
      forall x | x in items && Lane(x) == Str(status) ensures x in r.value {
        var i :| 0 <= i < |items| && items[i] == x;
        assert LanePred(status)(items[i]) == Ok(true);
        assert x in multiset(f);
      }
    }
  }

  /** `items.filter(p => (p.status || 'todo') === status).length` */
  function DestCount(items: seq<Val>, status: string): (r: Res<nat>)
    ensures r.Ok? <==> AllReadable(items)
    ensures r.Ok? ==> r.value <= |items|
  {
    var f :- FilterRes(items, LanePred(status));
    Ok(|f|)
  }

  /** The count the drop writes into `order` is the size of the destination
      column, the index one past its last card. */
  lemma DestCountIsColumnSize(items: seq<Val>, status: string)
    requires IsColumn(status) && AllReadable(items)
    ensures Column(items, status).Ok? && DestCount(items, status).Ok?
    ensures |Column(items, status).value| == DestCount(items, status).value
  {
    ColumnPredIsLane(items, status);
    var f := FilterRes(items, LanePred(status)).value;
    SortedLane(items, status, f);
    var c := Column(items, status).value;
    assert c == ProgressSummary.SortItems(f).value;
    assert |multiset(c)| == |multiset(f)|;
  }

  /** The three columns of the board. */
  datatype Groups = Groups(todo: seq<Val>, inProgress: seq<Val>, done: seq<Val>)

  /** groups: each record sits in the column its lane names, so in exactly
      one column when its status is empty or one of the three ids, and in
      none otherwise; each column is sorted by `order`. */
  function BuildGroups(items: seq<Val>): (r: Res<Groups>)
    ensures r.Ok? <==> AllReadable(items)
    ensures r.Ok? ==> SortedBy(r.value.todo, OrderKey) && SortedBy(r.value.inProgress, OrderKey)
                      && SortedBy(r.value.done, OrderKey)
    ensures r.Ok? ==> forall x | x in items ::
              (x in r.value.todo <==> Lane(x) == Str("todo"))
              && (x in r.value.inProgress <==> Lane(x) == Str("in_progress"))
              && (x in r.value.done <==> Lane(x) == Str("done"))
    ensures r.Ok? ==> forall x | x in r.value.todo || x in r.value.inProgress || x in r.value.done :: x in items
  {
    if !AllReadable(items) then Err
    else Ok(Groups(Column(items, "todo").value, Column(items, "in_progress").value, Column(items, "done").value))
  }

  /** `col.some(x => x.id === id)` */
  predicate HasId(col: seq<Val>, id: Val) {
    exists i | 0 <= i < |col| :: OptProp(col[i], "id") == id
  }

  /** destStatus: the column dropped on, else the first column, in board
      order, holding a card with the target's id, else none. */
  function Destination(g: Groups, overId: Val): (r: Option<string>)
    ensures r.Some? ==> IsColumn(r.value)
    ensures overId.Str? && IsColumn(overId.s) ==> r == Some(overId.s)
    ensures !(overId.Str? && IsColumn(overId.s)) ==>
              (r == Some("todo") <==> HasId(g.todo, overId))
              && (r == Some("in_progress") <==> !HasId(g.todo, overId) && HasId(g.inProgress, overId))
              && (r == Some("done") <==> !HasId(g.todo, overId) && !HasId(g.inProgress, overId)
                                         && HasId(g.done, overId))
  {
    if overId.Str? && IsColumn(overId.s) then Some(overId.s)
    else if HasId(g.todo, overId) then Some("todo")
    else if HasId(g.inProgress, overId) then Some("in_progress")
    else if HasId(g.done, overId) then Some("done")
    else None
  }

  /** Among records with distinct keys, a column holds a card with the id of
      a record exactly when that record's lane is the column. */
  lemma ColumnHasIdOf(items: seq<Val>, status: string, x: Val)
    requires DistinctRecords(items) && x in items && IsColumn(status)
    ensures AllReadable(items)
    ensures HasId(Column(items, status).value, OptProp(x, "id")) <==> Lane(x) == Str(status)
  {
    assert AllReadable(items) by {
      forall i | 0 <= i < |items| ensures !Nullish(items[i]) {
        assert items[i].Obj?;
      }
    }
    var col := Column(items, status).value;
    if Lane(x) == Str(status) {
      var k :| 0 <= k < |col| && col[k] == x;
    }
    if HasId(col, OptProp(x, "id")) {
      var i :| 0 <= i < |col| && OptProp(col[i], "id") == OptProp(x, "id");
      SameIdSameItem(items, col[i], x);
    }
  }

  /** A card dropped on another card whose id is no column id joins the
      column of the card it was dropped on, since ids name one record. */
  lemma DropOnCardJoinsItsColumn(items: seq<Val>, x: Val)
    requires DistinctRecords(items) && x in items
    requires !(OptProp(x, "id").Str? && IsColumn(OptProp(x, "id").s))
    requires Lane(x).Str? && IsColumn(Lane(x).s)
    ensures BuildGroups(items).Ok?
    ensures Destination(BuildGroups(items).value, OptProp(x, "id")) == Some(Lane(x).s)
  {
    ColumnHasIdOf(items, "todo", x);
    ColumnHasIdOf(items, "in_progress", x);
    ColumnHasIdOf(items, "done", x);
  }

  /** `items.find(p => p.id === id)`: the first record with that id; the
      search throws at a null or undefined element it reaches. */
  function Find(items: seq<Val>, id: Val): (r: Res<Option<Val>>)
    ensures AllReadable(items) ==> r.Ok?
    ensures r.Ok? && r.value.Some? ==>
              exists j | 0 <= j < |items| :: items[j] == r.value.value && OptProp(items[j], "id") == id
                                             && forall k | 0 <= k < j :: OptProp(items[k], "id") != id
    ensures r == Ok(None) <==> AllReadable(items) && forall j | 0 <= j < |items| :: OptProp(items[j], "id") != id
    decreases |items|
  {
    if |items| == 0 then Ok(None)
    else
      var pid :- Prop(items[0], "id");
      if pid == id then Ok(Some(items[0]))
      else
        var r := Find(items[1..], id);
        assert forall j | 1 <= j < |items| :: items[1..][j - 1] == items[j];
        if r.Ok? && r.value.Some? then
          var j :| 0 <= j < |items[1..]| && items[1..][j] == r.value.value && OptProp(items[1..][j], "id") == id
                   && forall k | 0 <= k < j :: OptProp(items[1..][k], "id") != id;
          assert items[j + 1] == r.value.value && forall k | 0 <= k < j + 1 :: OptProp(items[k], "id") != id;
          r
        else r
  }

  /** `items.sort((a, b) => a.order - b.order).map(p => p.id)`, over the
      records as they were before the drop: every record's key once. */
  function NextOrderIds(items: seq<Val>): (r: Res<seq<Val>>)
    ensures r.Ok? <==> AllReadable(items)
    ensures r.Ok? ==> |r.value| == |items|
    ensures r.Ok? ==> multiset(Collection.IdKeys(r.value)) == multiset(Collection.Keys(items))
  {
    var sorted :- ProgressSummary.SortItems(items);
    if AllReadable(items) then
      KeysFollowMultiset(items, sorted);
      IdKeysOfIds(sorted);
      assert |multiset(sorted)| == |multiset(items)|;
      Ids(sorted)
    else
      assert !AllReadable(sorted) by {
        var i :| 0 <= i < |items| && Nullish(items[i]);
        assert items[i] in multiset(sorted);
      }
      Ids(sorted)
  }

  /** Sorting readable records keeps them readable, so their ids can be read. */
  lemma SortedReadable(items: seq<Val>)
    requires AllReadable(items)
    ensures ProgressSummary.SortItems(items).Ok?
    ensures AllReadable(ProgressSummary.SortItems(items).value)
    ensures Ids(ProgressSummary.SortItems(items).value).Ok?
  {
    var sorted := ProgressSummary.SortItems(items).value;
    forall i | 0 <= i < |sorted| ensures !Nullish(sorted[i]) {
      assert sorted[i] in multiset(items);
    }
  }

  /** Every readable record's id is among the ids handed to reorder. */
  lemma IdInNextOrder(items: seq<Val>, j: nat)
    requires AllReadable(items) && j < |items|
    ensures OptProp(items[j], "id") in NextOrderIds(items).value
  {
    SortedReadable(items);
    var sorted := ProgressSummary.SortItems(items).value;
    assert items[j] in multiset(sorted);
    var s :| 0 <= s < |sorted| && sorted[s] == items[j];
    assert NextOrderIds(items) == Ids(sorted);
    assert Ids(sorted).value[s] == OptProp(items[j], "id");
  }

  /** `{ status: destStatus, order: destCount }` */
  function MovePatch(status: string, count: nat): Val {
    Obj(map["status" := Str(status), "order" := Num(count)])
  }

  /** One record after updateItem: the dragged card is merged with the patch. */
  function MoveOne(p: Val, activeId: Val, status: string, count: nat, now: string): (r: Val)
    requires !Nullish(p)
    ensures !Nullish(r)
    ensures Prop(p, "id") != Ok(activeId) ==> r == p
    ensures p.Obj? ==> OptProp(r, "id") == OptProp(p, "id")
    ensures Prop(p, "id") == Ok(activeId) ==>
              r.Obj? && "status" in r.fields && r.fields["status"] == Str(status)
              && "order" in r.fields && r.fields["order"] == Num(count)
  {
    var patch := MovePatch(status, count);
    assert Spread(patch) == patch.fields;
    if Prop(p, "id") == Ok(activeId) then Collection.Merge(p, patch, now) else p
  }

  /** The records after updateItem: the dragged card has the destination
      status and, as `order`, the size of the destination column; every other
      record is as it was. */
  function Moved(items: seq<Val>, activeId: Val, status: string, now: string): (r: seq<Val>)
    requires AllReadable(items)
    ensures |r| == |items| && AllReadable(r)
    ensures forall j | 0 <= j < |items| && Prop(items[j], "id") != Ok(activeId) :: r[j] == items[j]
    ensures forall j | 0 <= j < |items| && items[j].Obj? :: OptProp(r[j], "id") == OptProp(items[j], "id")
    ensures forall j | 0 <= j < |items| && Prop(items[j], "id") == Ok(activeId) ::
              r[j].Obj? && "status" in r[j].fields && r[j].fields["status"] == Str(status)
              && "order" in r[j].fields && r[j].fields["order"] == Num(DestCount(items, status).value)
  {
    var count := DestCount(items, status).value;
    seq(|items|, j requires 0 <= j < |items| => MoveOne(items[j], activeId, status, count, now))
  }

  /** Moved is what the store's updateItem computes for that patch. */
  lemma MovedIsUpdate(items: seq<Val>, activeId: Val, status: string, now: string)
    requires AllReadable(items)
    ensures Collection.UpdateById(items, activeId, MovePatch(status, DestCount(items, status).value), now)
            == Ok(Moved(items, activeId, status, now))
  {
    var patch := MovePatch(status, DestCount(items, status).value);
    assert Spread(patch) == patch.fields;
    assert Collection.NormalizePatch(patch) == Ok(patch);
    var u := Collection.UpdateById(items, activeId, patch, now);
    assert u.Ok?;
    assert u.value == Moved(items, activeId, status, now);
  }

  /** reorder numbers readable records 0..N-1 by their place in the ids. */
  lemma ReorderNumbers(m: seq<Val>, ids: seq<Val>)
    requires AllReadable(m)
    ensures var r := Collection.Reorder(m, ids);
            r.Ok? && |r.value| == |ids| && AllReadable(r.value)
            && forall i | 0 <= i < |ids| :: r.value[i].Obj? && "order" in r.value[i].fields
                                            && r.value[i].fields["order"] == Num(i) && OrderKey(r.value[i]) == i
  {
  }

  /** The records after the drop: updateItem, then reorder with the ids of
      the pre-drop records sorted by their old `order`; orders are 0..N-1. */
  function DropResult(items: seq<Val>, activeId: Val, status: string, now: string): (r: seq<Val>)
    requires AllReadable(items)
    ensures |r| == |items| && AllReadable(r)
    ensures forall i | 0 <= i < |r| :: r[i].Obj? && "order" in r[i].fields && r[i].fields["order"] == Num(i)
  {
    var m := Moved(items, activeId, status, now);
    var ids := NextOrderIds(items).value;
    ReorderNumbers(m, ids);
    Collection.Reorder(m, ids).value
  }

  /** updateItem changes no key and keeps the records distinct. */
  lemma MovedKeepsKeys(items: seq<Val>, activeId: Val, status: string, now: string)
    requires DistinctRecords(items)
    ensures AllReadable(items)
    ensures DistinctRecords(Moved(items, activeId, status, now))
    ensures Collection.Keys(Moved(items, activeId, status, now)) == Collection.Keys(items)
  {
    assert AllReadable(items) by {
      forall i | 0 <= i < |items| ensures !Nullish(items[i]) {
        assert items[i].Obj?;
      }
    }
    var m := Moved(items, activeId, status, now);
    var patch := MovePatch(status, DestCount(items, status).value);
    assert Spread(patch) == patch.fields;
    forall j | 0 <= j < |items| ensures m[j].Obj? && Prop(m[j], "id") == Prop(items[j], "id") {
      if Prop(items[j], "id") == Ok(activeId) {
        assert m[j] == Collection.Merge(items[j], patch, now);
      }
    }
    assert forall j | 0 <= j < |items| :: Collection.KeyOf(m[j]) == Collection.KeyOf(items[j]);
  }

  /** `r` holds each record of `m` once, renumbered by its new position. */
  predicate EveryCardOnce(m: seq<Val>, r: seq<Val>) {
    |r| == |m| && (forall j | 0 <= j < |m| :: m[j].Obj?)
    && forall j | 0 <= j < |m| :: exists i | 0 <= i < |r| :: r[i] == Obj(m[j].fields["order" := Num(i)])
  }

  /** reorder with ids naming each record once keeps every record. */
  lemma ReorderKeepsAll(m: seq<Val>, ids: seq<Val>, r: seq<Val>)
    requires DistinctRecords(m) && AllReadable(m)
    requires multiset(Collection.IdKeys(ids)) == multiset(Collection.Keys(m))
    requires Collection.Reorder(m, ids) == Ok(r)
    ensures EveryCardOnce(m, r)
  {
    Collection.ReorderPermutation(m, ids);
  }

  /** The ids handed to reorder name each updated record once. */
  lemma DropIdsName(items: seq<Val>, activeId: Val, status: string, now: string)
    requires DistinctRecords(items)
    ensures AllReadable(items)
    ensures DistinctRecords(Moved(items, activeId, status, now))
    ensures multiset(Collection.IdKeys(NextOrderIds(items).value)) == multiset(Collection.Keys(Moved(items, activeId, status, now)))
  {
    MovedKeepsKeys(items, activeId, status, now);
  }

  /** The drop keeps every card: each record reappears once, as updateItem
      left it, with its place in the new order as `order`. */
  lemma DropKeepsEveryCard(items: seq<Val>, activeId: Val, status: string, now: string)
    requires DistinctRecords(items)
    ensures AllReadable(items)
    ensures EveryCardOnce(Moved(items, activeId, status, now), DropResult(items, activeId, status, now))
  {
    DropIdsName(items, activeId, status, now);
    ReorderKeepsAll(Moved(items, activeId, status, now), NextOrderIds(items).value,
                    DropResult(items, activeId, status, now));
  }

  /** `{ ...p, order: i }` keeps every other property of a record. */
  lemma NewOrderKeeps(p: Val, i: int, k: string)
    requires p.Obj? && k != "order"
    ensures OptProp(Obj(p.fields["order" := Num(i)]), k) == OptProp(p, k)
  {
  }

  /** A readable record whose lane is the column's id shows in that column. */
  lemma LaneInColumn(r: seq<Val>, status: string, x: Val)
    requires IsColumn(status) && AllReadable(r) && x in r && Lane(x) == Str(status)
    ensures Column(r, status).Ok? && x in Column(r, status).value
  {
  }

  /** The dragged card, renumbered, keeps its id and has the destination status. */
  lemma RenumberedKeeps(items: seq<Val>, activeId: Val, status: string, now: string, j: nat, i: nat, x: Val)
    requires DistinctRecords(items) && j < |items| && OptProp(items[j], "id") == activeId
    requires AllReadable(items) && x == Obj(Moved(items, activeId, status, now)[j].fields["order" := Num(i)])
    ensures OptProp(x, "id") == activeId && OptProp(x, "status") == Str(status)
  {
    var m := Moved(items, activeId, status, now);
    assert Prop(items[j], "id") == Ok(activeId);
    assert m[j].Obj? && "status" in m[j].fields && m[j].fields["status"] == Str(status);
    NewOrderKeeps(m[j], i, "id");
    NewOrderKeeps(m[j], i, "status");
  }

  /** ... and so, for a column id, the lane of that column. */
  lemma RenumberedTarget(items: seq<Val>, activeId: Val, status: string, now: string, j: nat, i: nat, x: Val)
    requires DistinctRecords(items) && IsColumn(status) && j < |items| && OptProp(items[j], "id") == activeId
    requires AllReadable(items) && x == Obj(Moved(items, activeId, status, now)[j].fields["order" := Num(i)])
    ensures OptProp(x, "id") == activeId && OptProp(x, "status") == Str(status) && Lane(x) == Str(status)
  {
    RenumberedKeeps(items, activeId, status, now, j, i, x);
  }

  /** After the drop the dragged card carries the destination status and
      shows in the destination column. */
  lemma DropSetsStatus(items: seq<Val>, activeId: Val, status: string, now: string, j: nat)
    requires DistinctRecords(items) && IsColumn(status)
    requires j < |items| && OptProp(items[j], "id") == activeId
    ensures AllReadable(items)
    ensures var r := DropResult(items, activeId, status, now);
            AllReadable(r) && Column(r, status).Ok?
            && exists i | 0 <= i < |r| :: OptProp(r[i], "id") == activeId && OptProp(r[i], "status") == Str(status)
                                          && r[i] in Column(r, status).value
  {
    DropKeepsEveryCard(items, activeId, status, now);
    var r := DropResult(items, activeId, status, now);
    var m := Moved(items, activeId, status, now);
    assert EveryCardOnce(m, r);
    var i :| 0 <= i < |r| && r[i] == Obj(m[j].fields["order" := Num(i)]);
    RenumberedTarget(items, activeId, status, now, j, i, r[i]);
    LaneInColumn(r, status, r[i]);
  }

  /** As written, every card, the dragged one included, ends at its rank in
      the pre-drop `order`: the column size the patch wrote into the dragged
      card is overwritten by reorder. */
  lemma DropKeepsOldRank(items: seq<Val>, activeId: Val, status: string, now: string, j: nat)
    requires DistinctRecords(items) && j < |items|
    ensures AllReadable(items)
    ensures var ids := NextOrderIds(items).value;
            var k := IndexOf(ids, OptProp(items[j], "id"));
            0 <= k < |items|
            && DropResult(items, activeId, status, now)[k]
               == Obj(Moved(items, activeId, status, now)[j].fields["order" := Num(k)])
  {
    MovedKeepsKeys(items, activeId, status, now);
    IdInNextOrder(items, j);
    var ids := NextOrderIds(items).value;
    var m := Moved(items, activeId, status, now);
    var id := OptProp(items[j], "id");
    var k := IndexOf(ids, id);
    assert Collection.KeyOf(m[j]) == ToStr(ids[k]);
    Collection.ReorderPicks(m, ids, k, j);
  }

  /** `a` is in progress with `order` 0 and `b` to do with `order` 1. */
  function SampleBoard(): (r: seq<Val>)
    ensures |r| == 2 && DistinctRecords(r)
    ensures Prop(r[0], "id") == Ok(Str("a")) && Prop(r[1], "id") == Ok(Str("b"))
    ensures Lane(r[1]) == Str("todo")
  {
    [Obj(map["id" := Str("a"), "status" := Str("in_progress"), "order" := Num(0)]),
     Obj(map["id" := Str("b"), "status" := Str("todo"), "order" := Num(1)])]
  }

  /** Two records with different orders sort into one arrangement only. */
  lemma SortedPair(s: seq<Val>, x: Val, y: Val)
    requires |s| == 2 && multiset(s) == multiset{x, y} && SortedBy(s, OrderKey)
    requires OrderKey(x) < OrderKey(y)
    ensures s == [x, y]
  {
    assert s == [s[0], s[1]];
    assert x in multiset(s) && y in multiset(s);
    assert OrderKey(s[0]) <= OrderKey(s[1]);
  }

  /** Two records already in order are left as they are. */
  lemma SortedTwo(x: Val, y: Val)
    requires x.Obj? && y.Obj? && OrderKey(x) < OrderKey(y)
    ensures ProgressSummary.SortItems([x, y]) == Ok([x, y])
  {
    ProgressSummary.SortItemsDefined([x, y]);
    SortedPair(ProgressSummary.SortItems([x, y]).value, x, y);
  }

  lemma SampleSorted()
    ensures ProgressSummary.SortItems(SampleBoard()) == Ok(SampleBoard())
  {
    var items := SampleBoard();
    assert items == [items[0], items[1]];
    assert OrderKey(items[0]) == 0 && OrderKey(items[1]) == 1;
    SortedTwo(items[0], items[1]);
  }

  lemma SampleOrderIds()
    ensures NextOrderIds(SampleBoard()) == Ok([Str("a"), Str("b")])
  {
    SampleSorted();
    NextOrderIdsOfSorted(SampleBoard());
    SampleIds();
  }

  /** A readable list the sort leaves in place yields its own ids. */
  lemma NextOrderIdsOfSorted(items: seq<Val>)
    requires ProgressSummary.SortItems(items) == Ok(items) && AllReadable(items)
    ensures NextOrderIds(items) == Ids(items)
  {
  }

  lemma SampleIds()
    ensures Ids(SampleBoard()) == Ok([Str("a"), Str("b")])
  {
    var items := SampleBoard();
    var ids := Ids(items).value;
    assert ids[0] == Str("a") && ids[1] == Str("b");
    assert ids == [Str("a"), Str("b")];
  }

  /** As written, the dragged card ends at its pre-drop rank, with the
      destination status. */
  lemma DraggedAtOldRank(items: seq<Val>, activeId: Val, status: string, now: string, j: nat)
    requires DistinctRecords(items) && IsColumn(status)
    requires j < |items| && OptProp(items[j], "id") == activeId
    ensures AllReadable(items)
    ensures var k := IndexOf(NextOrderIds(items).value, activeId);
            0 <= k < |items|
            && OptProp(DropResult(items, activeId, status, now)[k], "id") == activeId
            && Lane(DropResult(items, activeId, status, now)[k]) == Str(status)
  {
    DropKeepsOldRank(items, activeId, status, now, j);
    var k := IndexOf(NextOrderIds(items).value, activeId);
    RenumberedTarget(items, activeId, status, now, j, k, DropResult(items, activeId, status, now)[k]);
  }

  /** ... and every other card ends at its pre-drop rank unchanged but for
      its `order`. */
  lemma OtherAtOldRank(items: seq<Val>, activeId: Val, status: string, now: string, j: nat)
    requires DistinctRecords(items)
    requires j < |items| && OptProp(items[j], "id") != activeId
    ensures AllReadable(items)
    ensures var k := IndexOf(NextOrderIds(items).value, OptProp(items[j], "id"));
            0 <= k < |items|
            && DropResult(items, activeId, status, now)[k] == Obj(items[j].fields["order" := Num(k)])
  {
    DropKeepsOldRank(items, activeId, status, now, j);
    assert Prop(items[j], "id") != Ok(activeId);
  }

  /** Of two cards in the `status` column, the dragged one comes first. */
  predicate DraggedFirst(r: seq<Val>, activeId: Val, otherId: Val, status: string) {
    |r| == 2
    && OptProp(r[0], "id") == activeId && Lane(r[0]) == Str(status)
    && OptProp(r[1], "id") == otherId && Lane(r[1]) == Str(status)
    && OrderKey(r[0]) < OrderKey(r[1])
  }

  /** Two cards whose pre-drop order puts the dragged one first: after the
      drop it is still first, ahead of a card already in its new column. */
  lemma DraggedStaysAhead(items: seq<Val>, activeId: Val, status: string, now: string)
    requires DistinctRecords(items) && |items| == 2 && IsColumn(status)
    requires OptProp(items[0], "id") == activeId && OptProp(items[1], "id") != activeId
    requires Lane(items[1]) == Str(status)
    requires NextOrderIds(items) == Ok([OptProp(items[0], "id"), OptProp(items[1], "id")])
    ensures AllReadable(items)
    ensures DraggedFirst(DropResult(items, activeId, status, now), activeId, OptProp(items[1], "id"), status)
  {
    var ids := [OptProp(items[0], "id"), OptProp(items[1], "id")];
    assert IndexOf(ids, activeId) == 0;
    assert IndexOf(ids, OptProp(items[1], "id")) == 1;
    DraggedAtOldRank(items, activeId, status, now, 0);
    OtherAtOldRank(items, activeId, status, now, 1);
    NewOrderKeeps(items[1], 1, "id");
    NewOrderKeeps(items[1], 1, "status");
  }

  /** Dropping `a` on the to-do column leaves it at `order` 0, ahead of `b`,
      so it shows first in that column rather than last. */
  lemma DropAsWrittenNotLast(now: string)
    ensures AllReadable(SampleBoard())
    ensures var r := DropResult(SampleBoard(), Str("a"), "todo", now);
            OptProp(r[0], "id") == Str("a") && Lane(r[0]) == Str("todo")
            && OptProp(r[1], "id") == Str("b") && Lane(r[1]) == Str("todo")
            && OrderKey(r[0]) < OrderKey(r[1])
  {
    SampleOrderIds();
    DraggedStaysAhead(SampleBoard(), Str("a"), "todo", now);
  }

  /** The order the comment on the drop asks for: the pre-drop order with
      the dragged id moved to the end, still naming every record once. */
  function AtEndIds(items: seq<Val>, activeId: Val): (r: seq<Val>)
    requires AllReadable(items) && activeId in NextOrderIds(items).value
    ensures |r| == |items| && r[|r| - 1] == activeId
    ensures multiset(Collection.IdKeys(r)) == multiset(Collection.Keys(items))
  {
    MoveToEnd(NextOrderIds(items).value, activeId)
  }

  /** The ids with `x` moved from its first place to the end: the same ids,
      `x` last. */
  function MoveToEnd(ids: seq<Val>, x: Val): (r: seq<Val>)
    requires x in ids
    ensures |r| == |ids| && r[|r| - 1] == x
    ensures multiset(Collection.IdKeys(r)) == multiset(Collection.IdKeys(ids))
    ensures RemoveIndex(r, |r| - 1) == RemoveIndex(ids, IndexOf(ids, x))
  {
    MovedToEnd(ids, x);
    ArrayMove(ids, IndexOf(ids, x), |ids| - 1)
  }

  lemma MovedToEnd(ids: seq<Val>, x: Val)
    requires x in ids
    ensures var r := ArrayMove(ids, IndexOf(ids, x), |ids| - 1);
            |r| == |ids| && r[|r| - 1] == x
            && multiset(Collection.IdKeys(r)) == multiset(Collection.IdKeys(ids))
            && RemoveIndex(r, |r| - 1) == RemoveIndex(ids, IndexOf(ids, x))
  {
    var k := IndexOf(ids, x);
    var r := ArrayMove(ids, k, |ids| - 1);
    ArrayMoveInRange(ids, k, |ids| - 1);
    IdKeysFollowMultiset(ids, r);
  }

  /** Ids in another order have their keys in another order. */
  lemma IdKeysFollowMultiset(a: seq<Val>, b: seq<Val>)
    requires multiset(a) == multiset(b)
    ensures multiset(Collection.IdKeys(a)) == multiset(Collection.IdKeys(b))
  {
    MapFollowsMultiset(a, b, ToStr);
    assert Collection.IdKeys(a) == MapSeq(a, ToStr);
    assert Collection.IdKeys(b) == MapSeq(b, ToStr);
  }

  /** The drop with that order: updateItem, then reorder. */
  function DropResultAtEnd(items: seq<Val>, activeId: Val, status: string, now: string): (r: seq<Val>)
    requires AllReadable(items) && activeId in NextOrderIds(items).value
    ensures |r| == |items| && AllReadable(r)
    ensures forall i | 0 <= i < |r| :: r[i].Obj? && OrderKey(r[i]) == i
  {
    var m := Moved(items, activeId, status, now);
    var ids := AtEndIds(items, activeId);
    ReorderNumbers(m, ids);
    Collection.Reorder(m, ids).value
  }

  lemma AtEndIdsName(items: seq<Val>, activeId: Val, status: string, now: string)
    requires DistinctRecords(items) && AllReadable(items) && activeId in NextOrderIds(items).value
    ensures DistinctRecords(Moved(items, activeId, status, now))
    ensures multiset(Collection.IdKeys(AtEndIds(items, activeId))) == multiset(Collection.Keys(Moved(items, activeId, status, now)))
  {
    MovedKeepsKeys(items, activeId, status, now);
  }

  /** With the corrected order the drop still keeps every card once. */
  lemma DropAtEndKeepsEveryCard(items: seq<Val>, activeId: Val, status: string, now: string)
    requires DistinctRecords(items) && AllReadable(items) && activeId in NextOrderIds(items).value
    ensures EveryCardOnce(Moved(items, activeId, status, now), DropResultAtEnd(items, activeId, status, now))
  {
    AtEndIdsName(items, activeId, status, now);
    ReorderKeepsAll(Moved(items, activeId, status, now), AtEndIds(items, activeId),
                    DropResultAtEnd(items, activeId, status, now));
  }

  /** With the corrected order the dragged card is the last record, with the
      destination status. */
  lemma DropAtEndLast(items: seq<Val>, activeId: Val, status: string, now: string, j: nat)
    requires DistinctRecords(items)
    requires j < |items| && OptProp(items[j], "id") == activeId
    ensures AllReadable(items) && activeId in NextOrderIds(items).value
    ensures var r := DropResultAtEnd(items, activeId, status, now);
            var m := Moved(items, activeId, status, now);
            r[|r| - 1] == Obj(m[j].fields["order" := Num(|r| - 1)])
            && OptProp(r[|r| - 1], "id") == activeId && OptProp(r[|r| - 1], "status") == Str(status)
  {
    MovedKeepsKeys(items, activeId, status, now);
    IdInNextOrder(items, j);
    var m := Moved(items, activeId, status, now);
    var at := AtEndIds(items, activeId);
    var r := DropResultAtEnd(items, activeId, status, now);
    assert Collection.Reorder(m, at) == Ok(r) by {
      ReorderNumbers(m, at);
    }
    assert m[j].Obj? && Collection.KeyOf(m[j]) == ToStr(activeId)
           && OptProp(m[j], "id") == activeId && OptProp(m[j], "status") == Str(status) by {
      assert Prop(items[j], "id") == Ok(activeId);
    }
    PickedLast(m, at, r, j, activeId, status);
  }

  /** reorder of distinct records puts the one the last id names last,
      keeping its id and status. */
  lemma PickedLast(m: seq<Val>, at: seq<Val>, r: seq<Val>, j: nat, activeId: Val, status: string)
    requires DistinctRecords(m) && j < |m| && |at| > 0 && at[|at| - 1] == activeId
    requires Collection.Reorder(m, at) == Ok(r)
    requires Collection.KeyOf(m[j]) == ToStr(activeId)
    requires OptProp(m[j], "id") == activeId && OptProp(m[j], "status") == Str(status)
    ensures |r| == |at|
    ensures r[|r| - 1] == Obj(m[j].fields["order" := Num(|r| - 1)])
    ensures OptProp(r[|r| - 1], "id") == activeId && OptProp(r[|r| - 1], "status") == Str(status)
  {
    assert |r| == |at|;
    assert m[j].Obj? && forall j' | j < j' < |m| :: Collection.KeyOf(m[j']) != Collection.KeyOf(m[j]);
    Collection.ReorderPicks(m, at, |at| - 1, j);
    var last := Obj(m[j].fields["order" := Num(|at| - 1)]);
    assert r[|r| - 1] == last;
    NewOrderKeeps(m[j], |at| - 1, "id");
    NewOrderKeeps(m[j], |at| - 1, "status");
  }

  /** In a list numbered 0..N-1 by `order`, the record numbered N-1 is the
      last of any sorted selection holding it. */
  lemma LastOfSorted(r: seq<Val>, c: seq<Val>)
    requires |r| > 0 && forall i | 0 <= i < |r| :: OrderKey(r[i]) == i
    requires SortedBy(c, OrderKey) && forall x | x in c :: x in r
    requires r[|r| - 1] in c
    ensures c[|c| - 1] == r[|r| - 1]
  {
    var last := c[|c| - 1];
    assert last in c;
    var i' :| 0 <= i' < |r| && r[i'] == last;
    var k :| 0 <= k < |c| && c[k] == r[|r| - 1];
    assert OrderKey(c[k]) <= OrderKey(last);
  }

  /** In a list numbered 0..N-1, the record numbered N-1 ends its column. */
  lemma NumberedLastEndsColumn(r: seq<Val>, status: string, c: seq<Val>)
    requires IsColumn(status) && |r| > 0
    requires forall i | 0 <= i < |r| :: OrderKey(r[i]) == i
    requires Lane(r[|r| - 1]) == Str(status)
    requires Column(r, status) == Ok(c)
    ensures |c| > 0 && c[|c| - 1] == r[|r| - 1]
  {
    LaneInColumn(r, status, r[|r| - 1]);
    LastOfSorted(r, c);
  }

  /** The last card of the `status` column of `r` has id `activeId` and
      that status. */
  predicate EndsColumnWith(r: seq<Val>, status: string, activeId: Val)
    requires IsColumn(status)
  {
    var c := Column(r, status);
    c.Ok? && |c.value| > 0 && OptProp(c.value[|c.value| - 1], "id") == activeId
    && OptProp(c.value[|c.value| - 1], "status") == Str(status)
  }

  /** A record numbered last, with that id and status, ends its column. */
  lemma NumberedLastEndsColumnWith(r: seq<Val>, status: string, activeId: Val)
    requires IsColumn(status) && |r| > 0
    requires forall i | 0 <= i < |r| :: OrderKey(r[i]) == i
    requires AllReadable(r)
    requires OptProp(r[|r| - 1], "id") == activeId && OptProp(r[|r| - 1], "status") == Str(status)
    requires Lane(r[|r| - 1]) == Str(status)
    ensures EndsColumnWith(r, status, activeId)
  {
    var c := Column(r, status);
    assert c.Ok?;
    NumberedLastEndsColumn(r, status, c.value);
  }

  /** With the dragged id moved to the end, the card lands at the end of its
      destination column. */
  lemma DropAtEndIsLast(items: seq<Val>, activeId: Val, status: string, now: string, j: nat)
    requires DistinctRecords(items) && IsColumn(status)
    requires j < |items| && OptProp(items[j], "id") == activeId
    ensures AllReadable(items) && activeId in NextOrderIds(items).value
    ensures EndsColumnWith(DropResultAtEnd(items, activeId, status, now), status, activeId)
  {
    DropAtEndLast(items, activeId, status, now, j);
    DropEndsColumn(items, activeId, status, now);
  }

  lemma DropEndsColumn(items: seq<Val>, activeId: Val, status: string, now: string)
    requires IsColumn(status) && AllReadable(items) && activeId in NextOrderIds(items).value
    requires var r := DropResultAtEnd(items, activeId, status, now);
             |r| > 0 && OptProp(r[|r| - 1], "id") == activeId && OptProp(r[|r| - 1], "status") == Str(status)
    ensures EndsColumnWith(DropResultAtEnd(items, activeId, status, now), status, activeId)
  {
    var r := DropResultAtEnd(items, activeId, status, now);
    LaneOfStatus(r[|r| - 1], status);
    NumberedLastEndsColumnWith(r, status, activeId);
  }

  /** A record whose status is a column id is in that lane. */
  lemma LaneOfStatus(x: Val, status: string)
    requires IsColumn(status) && OptProp(x, "status") == Str(status)
    ensures Lane(x) == Str(status)
  {
  }

  /** Which way a drop ends. */
  datatype Outcome = NotRendered | Ignored | Dropped(status: string)

  /** Where a drop sends the dragged card, or nothing when the handler
      returns early: no drop target, a target that is neither a column nor a
      card, or no (truthy) record with the dragged id. */
  function DropStatus(items: seq<Val>, activeId: Val, overId: Option<Val>): (r: Option<string>)
    requires AllReadable(items)
    ensures r.Some? ==> IsColumn(r.value) && overId.Some?
                        && Destination(BuildGroups(items).value, overId.value) == r
    ensures r.Some? ==> exists j | 0 <= j < |items| :: OptProp(items[j], "id") == activeId
    ensures (forall j | 0 <= j < |items| :: items[j].Obj?) ==>
              (r.Some? <==> overId.Some? && Destination(BuildGroups(items).value, overId.value).Some?
                            && exists j | 0 <= j < |items| :: OptProp(items[j], "id") == activeId)
  {
    if overId.None? then None
    else
      var dest := Destination(BuildGroups(items).value, overId.value);
      if dest.None? then None
      else
        var target := Find(items, activeId).value;
        if target.None? || !Truthy(target.value) then None else dest
  }

  /** onDragEnd against the store: the board only renders, and so only
      hands out this handler, when every record is readable; a drop that
      finds a destination and a card updates that card, then reorders. */
  method OnDragEnd(store: ProgressStore.Progress, activeId: Val, overId: Option<Val>, now: string)
    returns (outcome: Outcome)
    requires store.Valid()
    modifies store
    ensures store.Valid()
    ensures outcome == NotRendered <==> !AllReadable(old(store.items))
    ensures outcome.Ignored? ==> AllReadable(old(store.items)) && DropStatus(old(store.items), activeId, overId).None?
    ensures outcome.Dropped? ==> AllReadable(old(store.items))
                                 && DropStatus(old(store.items), activeId, overId) == Some(outcome.status)
    ensures !outcome.Dropped? ==> store.items == old(store.items) && store.selectedId == old(store.selectedId)
                                  && store.stored == old(store.stored)
    ensures outcome.Dropped? ==> store.items == DropResult(old(store.items), activeId, outcome.status, now)
                                 && store.selectedId == old(store.selectedId) && store.stored == Parsed(Arr(store.items))
  {
    var items := store.items;
    var groups := BuildGroups(items);
    if groups.Err? {
      return NotRendered;
    }
    if overId.None? {
      return Ignored;
    }
    var dest := Destination(groups.value, overId.value);
    if dest.None? {
      return Ignored;
    }
    var target := Find(items, activeId);
    if target.value.None? || !Truthy(target.value.value) {
      return Ignored;
    }
    Drop(store, activeId, dest.value, now);
    outcome := Dropped(dest.value);
  }

  /** The two store calls of a drop: updateItem with the destination status
      and the column's size as `order`, then reorder by the pre-drop order.
      Neither throws on a board that rendered. */
  method Drop(store: ProgressStore.Progress, activeId: Val, status: string, now: string)
    requires store.Valid() && AllReadable(store.items)
    modifies store
    ensures store.Valid()
    ensures store.items == DropResult(old(store.items), activeId, status, now)
    ensures store.selectedId == old(store.selectedId) && store.stored == Parsed(Arr(store.items))
  {
    var items := store.items;
    var destCount := DestCount(items, status).value;
    MovedIsUpdate(items, activeId, status, now);
    var threw := store.UpdateItem(activeId, MovePatch(status, destCount), now);
    assert !threw && store.items == Moved(items, activeId, status, now);
    var nextOrderIds := NextOrderIds(items).value;
    threw := store.Reorder(nextOrderIds);
    assert !threw;
  }
}
