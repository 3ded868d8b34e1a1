/** The editor's project list of src/components/editor/CardList.jsx: what a
    card's thumbnail slot shows, and the id order a drag hands to the store's
    reorder. */
module CardList {
  import opened JsValue
  import opened ListOps
  import opened DragOrder
  import Collection
  import HomePage

  /** What the thumbnail slot of a project card shows. */
  datatype Thumb = ThumbImage(src: Val) | ThumbVideo(src: Val) | ThumbNone

  /** The thumbnail when one is set, else a media URL that is a video data URL
      (prefix compared without regard to case), else nothing. */
  function CardThumb(project: Val): (r: Thumb)
    ensures r.ThumbImage? <==> Truthy(OptProp(project, "thumbnailUrl"))
    ensures r.ThumbImage? ==> r.src == OptProp(project, "thumbnailUrl")
    ensures r.ThumbVideo? <==> !Truthy(OptProp(project, "thumbnailUrl")) && HomePage.IsVideoDataUrl(OptProp(project, "mediaUrl"))
    ensures r.ThumbVideo? ==> r.src == OptProp(project, "mediaUrl") && r.src.Str?
  {
    var thumb := OptProp(project, "thumbnailUrl");
    var media := OptProp(project, "mediaUrl");
    if Truthy(thumb) then ThumbImage(thumb)
    else if HomePage.IsVideoDataUrl(media) then ThumbVideo(media)
    else ThumbNone
  }

  /** onDragEnd: nothing when dropped on nothing or on the dragged card;
      otherwise the ids of the projects after moving the dragged one to the
      index of the target, each index found by `ids.indexOf`. */
  function OnDragEnd(projects: seq<Val>, activeId: Val, overId: Option<Val>): (r: Option<Res<seq<Val>>>)
    ensures r.None? <==> overId.None? || activeId == overId.value
    ensures r.Some? && r.value.Ok? ==> Ids(projects).Ok?
    ensures r.Some? ==> (r.value.Ok? <==>
                           Ids(projects).Ok?
                           && Ids(ArrayMove(projects, IndexOf(Ids(projects).value, activeId),
                                            IndexOf(Ids(projects).value, overId.value))).Ok?)
  {
    if overId.None? || activeId == overId.value then None
    else
      Some(var ids :- Ids(projects);
           Ids(ArrayMove(projects, IndexOf(ids, activeId), IndexOf(ids, overId.value))))
  }

  /** A drop of one listed project onto another: the order is the id list
      with the dragged id moved to the target's index; the dragged id lands
      there, the other ids keep their relative order, and the order is a
      permutation of the projects' keys. */
  lemma CardDropMoves(projects: seq<Val>, activeId: Val, overId: Val)
    requires DistinctRecords(projects) && activeId != overId
    requires Ids(projects).Ok? && activeId in Ids(projects).value && overId in Ids(projects).value
    ensures OnDragEnd(projects, activeId, Some(overId)).Some?
    ensures OnDragEnd(projects, activeId, Some(overId)).value.Ok?
    ensures var ids := Ids(projects).value;
            var from, to := IndexOf(ids, activeId), IndexOf(ids, overId);
            var order := OnDragEnd(projects, activeId, Some(overId)).value.value;
            0 <= from < |ids| && 0 <= to < |ids|
            && order == ArrayMove(ids, from, to)
            && |order| == |ids| && order[to] == activeId
            && RemoveIndex(order, to) == RemoveIndex(ids, from)
            && multiset(Collection.IdKeys(order)) == multiset(Collection.Keys(projects))
  {
    var ids := Ids(projects).value;
    var from, to := IndexOf(ids, activeId), IndexOf(ids, overId);
    IdsOfMove(projects, from, to);
    ArrayMoveInRange(ids, from, to);
    ArrayMoveInRange(projects, from, to);
    var moved := ArrayMove(projects, from, to);
    KeysFollowMultiset(projects, moved);
    IdKeysOfIds(moved);
  }

  /** So reorder keeps every project, each with its new order. */
  lemma CardDropKeepsEveryProject(projects: seq<Val>, activeId: Val, overId: Val)
    requires DistinctRecords(projects) && activeId != overId
    requires Ids(projects).Ok? && activeId in Ids(projects).value && overId in Ids(projects).value
    ensures OnDragEnd(projects, activeId, Some(overId)).Some?
    ensures OnDragEnd(projects, activeId, Some(overId)).value.Ok?
    ensures var order := OnDragEnd(projects, activeId, Some(overId)).value.value;
            Collection.Reorder(projects, order).Ok? && |Collection.Reorder(projects, order).value| == |projects|
            && forall j | 0 <= j < |projects| :: exists i | 0 <= i < |order| ::
                 Collection.Reorder(projects, order).value[i] == Obj(projects[j].fields["order" := Num(i)])
  {
    CardDropMoves(projects, activeId, overId);
    Collection.ReorderPermutation(projects, OnDragEnd(projects, activeId, Some(overId)).value.value);
  }
}
