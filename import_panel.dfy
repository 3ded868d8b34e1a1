/** The import panel of src/components/editor/ImportPanel.jsx: it reads a
    JSON document chosen by the user, checks its shape, normalises the
    project and progress lists, and hands projects, profile and progress to
    their stores one after the other. */
module ImportPanel {
  import opened JsValue
  import opened Collection
  import ProjectsStore
  import ProfileStore
  import ProgressStore

  /** The fields normalizeProgress supplies when a record lacks them. */
  const PROGRESS_DEFAULTS: map<string, Val> :=
    map["descriptionFull" := Str(""), "imageFinalUrl" := Str(""), "imageCurrentUrl" := Str(""), "todos" := Arr([])]

  /** normalizeProjects: `[]` for anything but an array; otherwise every
      project in the same place with only its tags normalised. A null or
      undefined project, or tags that are neither falsy nor an array, throw. */
  function NormalizeProjects(arr: Val): (r: Res<seq<Val>>)
    ensures !arr.Arr? ==> r == Ok([])
    ensures arr.Arr? ==> (r.Ok? <==> forall i | 0 <= i < |arr.elems| :: NormalizeRecord(map[], arr.elems[i]).Ok?)
    ensures arr.Arr? && r.Ok? ==> |r.value| == |arr.elems|
    ensures arr.Arr? && r.Ok? ==>
              forall i | 0 <= i < |arr.elems| :: r.value[i].Obj? && "tags" in r.value[i].fields
                && NormalizeTags(OptProp(arr.elems[i], "tags")) == Ok(r.value[i].fields["tags"])
    ensures arr.Arr? && r.Ok? ==>
              forall i | 0 <= i < |arr.elems| :: r.value[i].Obj?
                && r.value[i].fields.Keys == Spread(arr.elems[i]).Keys + {"tags"}
                && IsStoredTagList(r.value[i].fields["tags"])
    ensures arr.Arr? && r.Ok? ==>
              forall i, k | 0 <= i < |arr.elems| && k in Spread(arr.elems[i]) && k != "tags" ::
                r.value[i].Obj? && k in r.value[i].fields && r.value[i].fields[k] == Spread(arr.elems[i])[k]
  {
    if arr.Arr? then
      var none: map<string, Val> := map[];
      assert none.Keys == {};
      NormalizeAll(none, arr.elems)
    else Ok([])
  }

  /** normalizeProgress: `[]` for anything but an array; otherwise every
      record in the same place, its present fields winning over the four
      defaults, which fill only what is missing, and its tags normalised. */
  function NormalizeProgress(arr: Val): (r: Res<seq<Val>>)
    ensures !arr.Arr? ==> r == Ok([])
    ensures arr.Arr? ==> (r.Ok? <==> forall i | 0 <= i < |arr.elems| :: NormalizeRecord(PROGRESS_DEFAULTS, arr.elems[i]).Ok?)
    ensures arr.Arr? && r.Ok? ==> |r.value| == |arr.elems|
    ensures arr.Arr? && r.Ok? ==>
              forall i | 0 <= i < |arr.elems| :: r.value[i].Obj? && "tags" in r.value[i].fields
                && NormalizeTags(OptProp(arr.elems[i], "tags")) == Ok(r.value[i].fields["tags"])
    ensures arr.Arr? && r.Ok? ==>
              forall i | 0 <= i < |arr.elems| :: r.value[i].Obj?
                && r.value[i].fields.Keys == PROGRESS_DEFAULTS.Keys + Spread(arr.elems[i]).Keys + {"tags"}
                && IsStoredTagList(r.value[i].fields["tags"])
    ensures arr.Arr? && r.Ok? ==>
              forall i, k | 0 <= i < |arr.elems| && k in Spread(arr.elems[i]) && k != "tags" ::
                r.value[i].Obj? && k in r.value[i].fields && r.value[i].fields[k] == Spread(arr.elems[i])[k]
    ensures arr.Arr? && r.Ok? ==>
              forall i, k | 0 <= i < |arr.elems| && k in PROGRESS_DEFAULTS && k !in Spread(arr.elems[i]) ::
                r.value[i].Obj? && k in r.value[i].fields && r.value[i].fields[k] == PROGRESS_DEFAULTS[k]
  {
    if arr.Arr? then NormalizeAll(PROGRESS_DEFAULTS, arr.elems) else Ok([])
  }

  /** The panel normalises a project list exactly as the projects store's
      storage listener does, so both agree on what a stored project is. */
  lemma ProjectsAsTheStoreSyncs(xs: seq<Val>)
    ensures NormalizeProjects(Arr(xs)) == ProjectsStore.SyncProjects(Parsed(Arr(xs)))
  {
  }

  /** The panel's progress defaults are the ones the progress store fills on
      load and sync, so imported records are what the store would load. */
  lemma ProgressAsTheStoreLoads(xs: seq<Val>)
    ensures NormalizeProgress(Arr(xs)) == ProgressStore.SyncItems(Parsed(Arr(xs)))
  {
    assert PROGRESS_DEFAULTS == ProgressStore.LOAD_DEFAULTS;
  }

  /** Importing a list the panel has already normalised gives it back: a file
      exported from the stores imports to the same lists. */
  lemma NormalizeProjectsIdempotent(arr: Val)
    requires NormalizeProjects(arr).Ok?
    ensures NormalizeProjects(Arr(NormalizeProjects(arr).value)) == NormalizeProjects(arr)
  {
    if arr.Arr? {
      NormalizeAllIdempotent(map[], arr.elems);
    }
  }

  lemma NormalizeProgressIdempotent(arr: Val)
    requires NormalizeProgress(arr).Ok?
    ensures NormalizeProgress(Arr(NormalizeProgress(arr).value)) == NormalizeProgress(arr)
  {
    if arr.Arr? {
      NormalizeAllIdempotent(PROGRESS_DEFAULTS, arr.elems);
    }
  }

  /** What the chosen file yields: no file, text JSON.parse rejects, or a value. */
  datatype ImportFile = NoFile | Unparsable | Json(v: Val)

  /** Why an import stops: the three checks before any store is written, or
      a TypeError thrown while a list is normalised. */
  datatype Failure = NoFileChosen | SyntaxError | NotAnObject | TypeError

  datatype Outcome = Loaded | Failed(reason: Failure)

  const NO_FILE_MESSAGE: string := "ファイルが選択されていません。"
  const NOT_OBJECT_MESSAGE: string := "JSONの形式が不正です。"
  const FALLBACK_MESSAGE: string := "読み込みに失敗しました。"

  /** The error line: `e?.message || fallback`, where the engine supplies the
      message of a SyntaxError or TypeError. */
  function ErrorText(f: Failure, engineMessage: string): (r: string)
    ensures f == NoFileChosen ==> r == NO_FILE_MESSAGE
    ensures f == NotAnObject ==> r == NOT_OBJECT_MESSAGE
    ensures (f == SyntaxError || f == TypeError) ==> r == (if engineMessage == "" then FALLBACK_MESSAGE else engineMessage)
    ensures r != ""
  {
    match f
    case NoFileChosen => NO_FILE_MESSAGE
    case NotAnObject => NOT_OBJECT_MESSAGE
    case _ => if engineMessage == "" then FALLBACK_MESSAGE else engineMessage
  }

  /** The document, if it passes the shape check: `!json || typeof json !== 'object'`
      refuses everything but objects and arrays. */
  function Refusal(file: ImportFile): (r: Option<Failure>)
    ensures r.None? <==> file.Json? && IsObjectLike(file.v)
  {
    match file
    case NoFile => Some(NoFileChosen)
    case Unparsable => Some(SyntaxError)
    case Json(v) => if IsObjectLike(v) then None else Some(NotAnObject)
  }

  /** The projects to install: none unless `json.projects` is an array. */
  function ProjectsPart(json: Val): (r: Res<Option<seq<Val>>>)
    ensures !OptProp(json, "projects").Arr? ==> r == Ok(None)
    ensures OptProp(json, "projects").Arr? ==>
              (r.Ok? <==> NormalizeProjects(OptProp(json, "projects")).Ok?)
              && (r.Ok? ==> r.value == Some(NormalizeProjects(OptProp(json, "projects")).value))
  {
    var p := OptProp(json, "projects");
    if p.Arr? then
      var ps :- NormalizeProjects(p);
      Ok(Some(ps))
    else Ok(None)
  }

  /** The progress items to install: none unless `json.progress` is an array. */
  function ProgressPart(json: Val): (r: Res<Option<seq<Val>>>)
    ensures !OptProp(json, "progress").Arr? ==> r == Ok(None)
    ensures OptProp(json, "progress").Arr? ==>
              (r.Ok? <==> NormalizeProgress(OptProp(json, "progress")).Ok?)
              && (r.Ok? ==> r.value == Some(NormalizeProgress(OptProp(json, "progress")).value))
  {
    var p := OptProp(json, "progress");
    if p.Arr? then
      var ps :- NormalizeProgress(p);
      Ok(Some(ps))
    else Ok(None)
  }

  /** The patch handed to setProfile: `{ ...json.profile, updatedAt: now }`,
      when `json.profile` is an object or an array. */
  function ProfilePatch(json: Val, now: string): (r: Option<Val>)
    ensures r.Some? <==> IsObjectLike(OptProp(json, "profile"))
    ensures r.Some? ==> r.value.Obj? && r.value.fields.Keys == Spread(OptProp(json, "profile")).Keys + {"updatedAt"}
                        && r.value.fields["updatedAt"] == Str(now)
    ensures r.Some? ==> forall k | k in Spread(OptProp(json, "profile")) && k != "updatedAt" ::
                          r.value.fields[k] == Spread(OptProp(json, "profile"))[k]
  {
    var p := OptProp(json, "profile");
    if Truthy(p) && IsObjectLike(p) then Some(WithField(p, "updatedAt", Str(now))) else None
  }

  /** The imported profile is merged into the current one, not substituted:
      fields the file lacks keep their values, and updatedAt is `now`. */
  lemma ImportedProfileMerges(current: map<string, Val>, json: Val, now: string, k: string)
    requires ProfilePatch(json, now).Some?
    ensures var merged := Merge(Obj(current), ProfilePatch(json, now).value, now).fields;
            merged["updatedAt"] == Str(now)
            && (k in current && k !in Spread(OptProp(json, "profile")) && k != "updatedAt" ==> k in merged && merged[k] == current[k])
            && (k in Spread(OptProp(json, "profile")) && k != "updatedAt" ==>
                  k in merged && merged[k] == Spread(OptProp(json, "profile"))[k])
  {
  }

  /** handleImport. The shape checks refuse the file before any store is
      touched; then the projects, the profile and the progress items are
      applied in that order, each only when its field has the right shape. A
      TypeError from normalising the progress list comes after the projects
      and the profile have already been applied. */
  method HandleImport(projects: ProjectsStore.Projects, profile: ProfileStore.Profile,
                      progress: ProgressStore.Progress, file: ImportFile, now: string)
    returns (outcome: Outcome)
    requires projects.Valid() && profile.Valid() && progress.Valid()
    modifies projects, profile, progress
    ensures projects.Valid() && profile.Valid() && progress.Valid()
    ensures Refusal(file).Some? ==>
              outcome == Failed(Refusal(file).value) && unchanged(projects) && unchanged(profile) && unchanged(progress)
    ensures Refusal(file).None? && ProjectsPart(file.v).Err? ==>
              outcome == Failed(TypeError) && unchanged(projects) && unchanged(profile) && unchanged(progress)
    ensures Refusal(file).None? && ProjectsPart(file.v) == Ok(None) ==> unchanged(projects)
    ensures Refusal(file).None? && ProjectsPart(file.v).Ok? && ProjectsPart(file.v).value.Some? ==>
              var ps := ProjectsPart(file.v).value.value;
              projects.projects == ps && projects.selectedId == FirstIdOrNull(ps) && projects.stored == Parsed(Arr(ps))
    ensures Refusal(file).None? && ProjectsPart(file.v).Ok? && ProfilePatch(file.v, now).None? ==> unchanged(profile)
    ensures Refusal(file).None? && ProjectsPart(file.v).Ok? && ProfilePatch(file.v, now).Some? ==>
              profile.profile == Merge(Obj(old(profile.profile)), ProfilePatch(file.v, now).value, now).fields
              && profile.stored == Parsed(Obj(profile.profile))
    ensures Refusal(file).None? && ProjectsPart(file.v).Ok? && ProgressPart(file.v).Err? ==>
              outcome == Failed(TypeError) && unchanged(progress)
    ensures Refusal(file).None? && ProjectsPart(file.v).Ok? && ProgressPart(file.v) == Ok(None) ==>
              outcome == Loaded && unchanged(progress)
    ensures Refusal(file).None? && ProjectsPart(file.v).Ok? && ProgressPart(file.v).Ok? && ProgressPart(file.v).value.Some? ==>
              var xs := ProgressPart(file.v).value.value;
              outcome == Loaded
              && progress.items == xs && progress.selectedId == FirstIdOrNull(xs) && progress.stored == Parsed(Arr(xs))
  {
    var refusal := Refusal(file);
    if refusal.Some? {
      return Failed(refusal.value);
    }
    var json := file.v;
    var ps := ProjectsPart(json);
    if ps.Err? {
      return Failed(TypeError);
    }
    if ps.value.Some? {
      projects.SetState(ps.value.value, FirstIdOrNull(ps.value.value));
    }
    var patch := ProfilePatch(json, now);
    if patch.Some? {
      profile.SetProfile(patch.value, now);
    }
    var xs := ProgressPart(json);
    if xs.Err? {
      return Failed(TypeError);
    }
    if xs.value.Some? {
      progress.SetState(xs.value.value, FirstIdOrNull(xs.value.value));
    }
    return Loaded;
  }
}
