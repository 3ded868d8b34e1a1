/** The projects store of src/store/projects.js: the list of portfolio
    projects, the selected id, the `portfolio_projects` slot of durable
    storage that the persistence subscriber writes after every state change,
    and the module's sync lock, set only while a storage event from another
    tab is being applied. */
module ProjectsStore {
  import opened JsValue
  import opened Collection

  const STORAGE_KEY: string := "portfolio_projects"

  /** safeLoad: the stored array with every project's tags normalised and all
      its other fields kept, or the sample projects when the slot is empty,
      unparsable, not an array, or holds a project that cannot be normalised. */
  function SafeLoad(raw: Stored, sample: seq<Val>): (r: seq<Val>)
    ensures !(raw.Parsed? && raw.value.Arr?) ==> r == sample
    ensures raw.Parsed? && raw.value.Arr? && NormalizeAll(map[], raw.value.elems).Err? ==> r == sample
    ensures raw.Parsed? && raw.value.Arr? && NormalizeAll(map[], raw.value.elems).Ok? ==>
              |r| == |raw.value.elems|
              && forall i | 0 <= i < |r| :: r[i].Obj? && r[i].fields.Keys == Spread(raw.value.elems[i]).Keys + {"tags"}
                                           && IsStoredTagList(r[i].fields["tags"])
    ensures raw.Parsed? && raw.value.Arr? && NormalizeAll(map[], raw.value.elems).Ok? ==>
              forall i | 0 <= i < |r| :: r[i].Obj? && "tags" in r[i].fields
                && NormalizeTags(OptProp(raw.value.elems[i], "tags")) == Ok(r[i].fields["tags"])
    ensures raw.Parsed? && raw.value.Arr? && NormalizeAll(map[], raw.value.elems).Ok? ==>
              forall i, k | 0 <= i < |r| && k in Spread(raw.value.elems[i]) && k != "tags" ::
                r[i].Obj? && k in r[i].fields && r[i].fields[k] == Spread(raw.value.elems[i])[k]
  {
    match raw
    case Parsed(Arr(a)) =>
      var n := NormalizeAll(map[], a);
      if n.Ok? then n.value else sample
    case _ => sample
  }

  /** The record addProject appends. */
  function NewProject(id: string, order: nat, now: string): (r: Val)
    ensures Prop(r, "id") == Ok(Str(id)) && Prop(r, "order") == Ok(Num(order))
  {
    Obj(map[
      "id" := Str(id), "title" := Str("新しい作品"), "tags" := Arr([]),
      "descriptionShort" := Str(""), "descriptionFull" := Str(""),
      "thumbnailUrl" := Str(""), "mediaUrl" := Str(""), "attachments" := Arr([]),
      "order" := Num(order), "createdAt" := Str(now), "updatedAt" := Str(now)])
  }

  /** `JSON.parse(e.newValue || '[]')`, then every project's tags normalised,
      with a non-array read as the empty list. */
  function SyncProjects(newValue: Stored): (r: Res<seq<Val>>)
    ensures newValue.Malformed? ==> r.Err?
    ensures newValue.Missing? ==> r == Ok([])
    ensures newValue.Parsed? && !newValue.value.Arr? ==> r == Ok([])
    ensures newValue.Parsed? && newValue.value.Arr? ==> r == NormalizeAll(map[], newValue.value.elems)
  {
    var data :- ParseOr(newValue, Arr([]));
    if data.Arr? then NormalizeAll(map[], data.elems) else Ok([])
  }

  /** Removing the project that addProject has just appended restores the
      list, as long as no earlier project had the new id. */
  lemma AddThenRemove(projects: seq<Val>, id: string, now: string)
    requires forall i | 0 <= i < |projects| :: !Nullish(projects[i]) && Prop(projects[i], "id") != Ok(Str(id))
    ensures RemoveById(projects + [NewProject(id, |projects|, now)], Str(id)) == Ok(projects)
  {
    RemoveAppended(projects, NewProject(id, |projects|, now), Str(id));
  }

  class Projects {
    var projects: seq<Val>
    var selectedId: Val
    /** The `portfolio_projects` slot of durable storage. */
    var stored: Stored
    /** `__syncLockProjects` */
    var locked: bool

    /** Outside the storage listener the lock is always released. */
    predicate Valid()
      reads this
    {
      !locked
    }

    /** Module initialisation: the loaded list and its first id; the subscriber
        is registered afterwards, so nothing is written. */
    constructor (raw: Stored, sample: seq<Val>)
      ensures Valid()
      ensures projects == SafeLoad(raw, sample) && selectedId == FirstIdOrNull(projects) && stored == raw
    {
      projects := SafeLoad(raw, sample);
      selectedId := FirstIdOrNull(SafeLoad(raw, sample));
      stored := raw;
      locked := false;
    }

    /** A state change followed by the persistence subscriber, which writes the
        projects unless the lock is set. */
    method Commit(newProjects: seq<Val>, newSelected: Val)
      modifies this
      ensures projects == newProjects && selectedId == newSelected && locked == old(locked)
      ensures stored == (if locked then old(stored) else Parsed(Arr(newProjects)))
    {
      projects := newProjects;
      selectedId := newSelected;
      if !locked {
        stored := Parsed(Arr(projects));
      }
    }

    /** `setState({ projects, selectedId })` as the import panel and the share-link loader call it. */
    method SetState(newProjects: seq<Val>, newSelected: Val)
      requires Valid()
      modifies this
      ensures Valid()
      ensures projects == newProjects && selectedId == newSelected && stored == Parsed(Arr(newProjects))
    {
      Commit(newProjects, newSelected);
    }

    method AddProject(id: string, now: string)
      requires Valid()
      modifies this
      ensures Valid()
      ensures projects == old(projects) + [NewProject(id, |old(projects)|, now)]
      ensures selectedId == Str(id)
      ensures stored == Parsed(Arr(projects))
    {
      var next := NewProject(id, |projects|, now);
      Commit(projects + [next], Str(id));
    }

    method Select(id: Val)
      requires Valid()
      modifies this
      ensures Valid()
      ensures projects == old(projects) && selectedId == id && stored == Parsed(Arr(projects))
    {
      Commit(projects, id);
    }

    /** updateProject; `threw` reports the TypeError the updater raises, in
        which case nothing changes. */
    method UpdateProject(id: Val, patch: Val, now: string) returns (threw: bool)
      requires Valid()
      modifies this
      ensures Valid()
      ensures threw <==> UpdateById(old(projects), id, patch, now).Err?
      ensures threw ==> projects == old(projects) && selectedId == old(selectedId) && stored == old(stored)
      ensures !threw ==> projects == UpdateById(old(projects), id, patch, now).value
                         && selectedId == old(selectedId) && stored == Parsed(Arr(projects))
    {
      var r := UpdateById(projects, id, patch, now);
      if r.Err? {
        return true;
      }
      Commit(r.value, selectedId);
      return false;
    }

    /** removeSelected: drops the selected project and selects the first one left. */
    method RemoveSelected() returns (threw: bool)
      requires Valid()
      modifies this
      ensures Valid()
      ensures threw <==> RemoveById(old(projects), old(selectedId)).Err?
      ensures threw ==> projects == old(projects) && selectedId == old(selectedId) && stored == old(stored)
      ensures !threw ==> projects == RemoveById(old(projects), old(selectedId)).value
                         && selectedId == FirstIdOrNull(projects) && stored == Parsed(Arr(projects))
    {
      var r := RemoveById(projects, selectedId);
      if r.Err? {
        return true;
      }
      Commit(r.value, FirstIdOrNull(r.value));
      return false;
    }

    /** removeProject: the selection moves only when the removed id was selected. */
    method RemoveProject(id: Val) returns (threw: bool)
      requires Valid()
      modifies this
      ensures Valid()
      ensures threw <==> RemoveById(old(projects), id).Err?
      ensures threw ==> projects == old(projects) && selectedId == old(selectedId) && stored == old(stored)
      ensures !threw ==> projects == RemoveById(old(projects), id).value && stored == Parsed(Arr(projects))
      ensures !threw && old(selectedId) == id ==> selectedId == FirstIdOrNull(projects)
      ensures !threw && old(selectedId) != id ==> selectedId == old(selectedId)
    {
      var r := RemoveById(projects, id);
      if r.Err? {
        return true;
      }
      var nextSelected := if selectedId == id then FirstIdOrNull(r.value) else selectedId;
      Commit(r.value, nextSelected);
      return false;
    }

    /** reorder: one project per listed id, in list order, with order = index. */
    method Reorder(ids: seq<Val>) returns (threw: bool)
      requires Valid()
      modifies this
      ensures Valid()
      ensures threw <==> Collection.Reorder(old(projects), ids).Err?
      ensures threw ==> projects == old(projects) && selectedId == old(selectedId) && stored == old(stored)
      ensures !threw ==> projects == Collection.Reorder(old(projects), ids).value
                         && selectedId == old(selectedId) && stored == Parsed(Arr(projects))
    {
      var r := Collection.Reorder(projects, ids);
      if r.Err? {
        return true;
      }
      Commit(r.value, selectedId);
      return false;
    }

    /** The storage listener. The slot now holds what the other tab wrote; the
        store takes the normalised list unless it equals the current one, and
        applies it under the lock, so the subscriber writes nothing back. */
    method OnStorage(key: string, newValue: Stored)
      requires Valid()
      modifies this
      ensures Valid()
      ensures stored == (if key == STORAGE_KEY then newValue else old(stored))
      ensures selectedId == old(selectedId)
      ensures key == STORAGE_KEY && SyncProjects(newValue).Ok? ==> projects == SyncProjects(newValue).value
      ensures !(key == STORAGE_KEY && SyncProjects(newValue).Ok?) ==> projects == old(projects)
    {
      if key == STORAGE_KEY {
        stored := newValue;
        var r := SyncProjects(newValue);
        if r.Ok? && r.value != projects {
          locked := true;
          Commit(r.value, selectedId);
        }
        locked := false;
      }
    }
  }
}
