/** The "more" section editor of src/components/editor/OfficialMoreForm.jsx:
    the section it shows, who may edit it, the media entries a typed URL or
    a batch of files becomes, and the drag-and-drop reorder of the media
    list. Each handler calls actions of the official-site store (the class
    OfficialStore.Official) in the order the component does, and an action
    that throws ends the handler there. Fresh ids, the clock, FileReader's
    data URLs and URL.createObjectURL's blob URLs are parameters. */
module OfficialMoreForm {
  import opened JsString
  import opened JsValue
  import opened OfficialStore
  import SessionStore
  import ListOps

  /** The section the form shows when the document has none. */
  function DefaultMore(): Val {
    Obj(map["enabled" := Bool(false), "label" := Str("もっと見る"), "contentText" := Str(""), "media" := Arr([])])
  }

  /** `data.more?.[section] || default`: a missing or falsy section shows the
      default one; reading `more` of a null or undefined document throws. */
  function MoreOf(data: Val, section: string): (r: Res<Val>)
    ensures r.Err? <==> Nullish(data)
    ensures r.Ok? ==> Truthy(r.value)
    ensures r.Ok? && Truthy(OptProp(OptProp(data, "more"), section)) ==> r.value == OptProp(OptProp(data, "more"), section)
    ensures r.Ok? && !Truthy(OptProp(OptProp(data, "more"), section)) ==> r.value == DefaultMore()
  {
    var more :- Prop(data, "more");
    Ok(Or(OptProp(more, section), DefaultMore()))
  }

  /** `role !== 'editor'`: every input of the form is disabled. */
  predicate Disabled(role: string) {
    role != SessionStore.EDITOR
  }

  /** In every state the session store keeps, the form can be edited exactly
      while someone is signed in. */
  lemma EditableIffSignedIn(s: SessionStore.Session)
    requires s.Valid()
    ensures !Disabled(s.role) <==> s.isAuthenticated
  {
  }

  // ------------------------------------------------------------ media type

  /** The extensions of `/\.(mp4|webm|ogg)(\?.*)?$/i`. */
  const VIDEO_EXTS: set<string> := {"mp4", "webm", "ogg"}

  /** `(\?.*)?$`: nothing, or a `?` and then characters other than line
      terminators up to the end. */
  predicate QueryTail(r: string) {
    r == "" || (r[0] == '?' && forall j | 1 <= j < |r| :: !IsLineTerminator(r[j]))
  }

  /** The pattern matches at index `i` with the extension `e`: a dot, `e` in
      any letter case, then the query tail. */
  predicate VideoExtAt(url: string, i: nat, e: string) {
    i + 1 + |e| <= |url| && url[i] == '.' && Lower(url[i + 1..i + 1 + |e|]) == e
    && QueryTail(url[i + 1 + |e|..])
  }

  /** `url.match(/\.(mp4|webm|ogg)(\?.*)?$/i)` succeeds. */
  predicate IsVideoUrl(url: string) {
    exists i: nat, e | i < |url| && e in VIDEO_EXTS :: VideoExtAt(url, i, e)
  }

  /** The media type onUrlAdd picks, from the URL as typed (not trimmed). */
  function MediaType(url: string): (r: string)
    ensures r == "video" <==> IsVideoUrl(url)
    ensures r == "image" <==> !IsVideoUrl(url)
  {
    if IsVideoUrl(url) then "video" else "image"
  }

  lemma LowerSlice(s: string, a: nat, b: nat)
    requires a <= b <= |s|
    ensures Lower(s)[a..b] == Lower(s[a..b])
  {
  }

  /** A URL that ends in a video extension, in any letter case, is a video,
      with or without a query after it. */
  lemma VideoExtensionAnyCase(stem: string, x: string, q: string)
    requires Lower(x) in VIDEO_EXTS
    requires forall j | 0 <= j < |q| :: !IsLineTerminator(q[j])
    ensures IsVideoUrl(stem + "." + x)
    ensures IsVideoUrl(stem + "." + x + "?" + q)
  {
    var i := |stem|;
    var u := stem + "." + x;
    assert u[i + 1..i + 1 + |x|] == x && u[i + 1 + |x|..] == "";
    assert VideoExtAt(u, i, Lower(x));
    var w := stem + "." + x + "?" + q;
    var t := w[i + 1 + |x|..];
    assert w[i + 1..i + 1 + |x|] == x && t == "?" + q;
    assert forall j | 1 <= j < |t| :: t[j] == q[j - 1];
    assert VideoExtAt(w, i, Lower(x));
  }

  /** Without a `?` the URL is a video exactly when it ends in a dot and a
      video extension, compared without regard to letter case. */
  lemma VideoWithoutQuery(url: string)
    requires '?' !in url
    ensures IsVideoUrl(url) <==> exists e | e in VIDEO_EXTS :: IsSuffix("." + e, Lower(url))
  {
    if IsVideoUrl(url) {
      var i: nat, e :| i < |url| && e in VIDEO_EXTS && VideoExtAt(url, i, e);
      MatchGivesSuffix(url, i, e);
    }
    forall e | e in VIDEO_EXTS && IsSuffix("." + e, Lower(url))
      ensures IsVideoUrl(url)
    {
      SuffixGivesMatch(url, e);
    }
  }

  lemma MatchGivesSuffix(url: string, i: nat, e: string)
    requires '?' !in url && VideoExtAt(url, i, e)
    ensures IsSuffix("." + e, Lower(url))
  {
    var t := url[i + 1 + |e|..];
    assert t == "";
    var s := url[i..];
    assert s == [url[i]] + url[i + 1..i + 1 + |e|];
    LowerSlice(url, i, |url|);
    LowerSlice(s, 1, |s|);
    assert Lower(s)[0] == '.';
    assert Lower(s) == "." + e;
  }

  lemma SuffixGivesMatch(url: string, e: string)
    requires e in VIDEO_EXTS && IsSuffix("." + e, Lower(url))
    ensures VideoExtAt(url, |url| - |e| - 1, e)
  {
    var i := |url| - |e| - 1;
    LowerSlice(url, i + 1, |url|);
    assert Lower(url)[i] == LowerChar(url[i]) == '.';
    assert url[i + 1 + |e|..] == "";
  }

  // ------------------------------------------------------- store actions

  /** One store action: an edit at the end of a key path of the document. */
  datatype Step = Step(path: seq<string>, edit: Edit)

  /** The document after a handler, whether an action threw, and whether any
      action ran to the end (and so had the subscriber write the document). */
  datatype Outcome = Outcome(data: Val, threw: bool, wrote: bool)

  /** Store actions called one after the other; the first that throws leaves
      the document as the earlier ones made it and ends the handler. */
  function Run(data: Val, steps: seq<Step>): (r: Outcome)
    ensures r.wrote <==> |steps| > 0 && EditAt(data, steps[0].path, steps[0].edit).Ok?
    ensures !r.wrote ==> r.data == data
    ensures r.threw ==> |steps| > 0
    decreases |steps|
  {
    if |steps| == 0 then Outcome(data, false, false)
    else
      var e := EditAt(data, steps[0].path, steps[0].edit);
      if e.Err? then Outcome(data, true, false)
      else
        var rest := Run(e.value, steps[1..]);
        Outcome(rest.data, rest.threw, true)
  }

  /** addMedia of a batch, then addLog of one entry. */
  function AddThenLog(section: string, items: seq<Val>, newId: nat -> string, entry: Val): seq<Step> {
    [Step(MediaPath(section), AppendAll(MediaEntries(items, newId))), Step(["logs"], Prepend(entry))]
  }

  /** An edit under one top-level key leaves what is read under another as it was. */
  lemma ReadPathFrame(v: Val, path: seq<string>, e: Edit, other: seq<string>)
    requires v.Obj? && EditAt(v, path, e).Ok?
    requires |path| > 0 && |other| > 0 && other[0] != path[0]
    ensures ReadPath(EditAt(v, path, e).value, other) == ReadPath(v, other)
  {
    var f := EditAt(v, path, e).value;
    assert Get(f.fields, other[0]) == Get(v.fields, other[0]);
  }

  /** A handler that adds a batch and logs it, when neither action throws:
      the media list of the section is the old one followed by the new
      entries in batch order, and the log gains exactly the one entry, in
      front of the older ones. */
  lemma AddThenLogEffect(data: Val, section: string, items: seq<Val>, newId: nat -> string, entry: Val)
    requires data.Obj? && !Run(data, AddThenLog(section, items, newId, entry)).threw
    ensures Run(data, AddThenLog(section, items, newId, entry)).wrote
    ensures var before := ReadPath(data, MediaPath(section));
            var after := ReadPath(Run(data, AddThenLog(section, items, newId, entry)).data, MediaPath(section));
            before.Ok? && after.Ok? && after.value.Arr?
            && after.value.elems == IterSpread(before.value).value + MediaEntries(items, newId)
    ensures var before := ReadPath(data, ["logs"]);
            var after := ReadPath(Run(data, AddThenLog(section, items, newId, entry)).data, ["logs"]);
            before.Ok? && after.Ok? && after.value.Arr?
            && after.value.elems == [entry] + IterSpread(before.value).value
  {
    var steps := AddThenLog(section, items, newId, entry);
    var add := AppendAll(MediaEntries(items, newId));
    var log := Prepend(entry);
    var mid := EditAt(data, MediaPath(section), add).value;
    assert steps[1..] == [Step(["logs"], log)] && steps[1..][1..] == [];
    var fin := EditAt(mid, ["logs"], log).value;
    assert Run(data, steps).data == fin;
    EditAtReadsBack(data, MediaPath(section), add);
    EditAtReadsBack(mid, ["logs"], log);
    ReadPathFrame(mid, ["logs"], log, MediaPath(section));
    ReadPathFrame(data, MediaPath(section), add, ["logs"]);
  }

  // ------------------------------------------------------------ URL input

  /** A media entry `{ type, src }`. */
  function MediaItem(t: string, src: string): (r: Val)
    ensures r.Obj? && "type" in r.fields && "src" in r.fields
    ensures r.fields["type"] == Str(t) && r.fields["src"] == Str(src)
  {
    Obj(map["type" := Str(t), "src" := Str(src)])
  }

  /** onUrlAdd's entry: the type from the URL as typed, the trimmed URL as src. */
  function UrlItem(url: string): Val {
    MediaItem(MediaType(url), Trim(url))
  }

  /** onUrlAdd's log entry meta: `{ section, type, by: username }`. */
  function UrlMeta(section: string, url: string, username: string): Val {
    Obj(map["section" := Str(section), "type" := Str(MediaType(url)), "by" := Str(username)])
  }

  /** onUrlAdd: nothing for a blank URL; otherwise one addMedia of the one
      entry, then one addLog. */
  function UrlSteps(section: string, url: string, username: string, newId: nat -> string, logId: string, now: string): (r: seq<Step>)
    ensures Trim(url) == "" ==> r == []
    ensures Trim(url) != "" ==> |r| == 2 && r[0].edit.AppendAll? && |r[0].edit.entries| == 1 && r[1].edit.Prepend?
  {
    if Trim(url) == "" then []
    else AddThenLog(section, [UrlItem(url)], newId, LogEntry(logId, Str("media:addUrl"), UrlMeta(section, url, username), now))
  }

  /** A URL that is not blank adds exactly one media entry, whose type is
      video exactly for a video extension and whose src is the trimmed URL,
      and logs exactly once. */
  lemma UrlAddEffect(data: Val, section: string, url: string, username: string, newId: nat -> string, logId: string, now: string)
    requires data.Obj? && Trim(url) != ""
    requires !Run(data, UrlSteps(section, url, username, newId, logId, now)).threw
    ensures var before := ReadPath(data, MediaPath(section));
            var after := ReadPath(Run(data, UrlSteps(section, url, username, newId, logId, now)).data, MediaPath(section));
            before.Ok? && after.Ok? && after.value.Arr?
            && var prior := IterSpread(before.value).value;
               |after.value.elems| == |prior| + 1 && after.value.elems[..|prior|] == prior
               && var m := after.value.elems[|prior|];
                  m.Obj? && "src" in m.fields && "type" in m.fields && m.fields["src"] == Str(Trim(url))
                  && (m.fields["type"] == Str("video") <==> IsVideoUrl(url))
    ensures var before := ReadPath(data, ["logs"]);
            var after := ReadPath(Run(data, UrlSteps(section, url, username, newId, logId, now)).data, ["logs"]);
            before.Ok? && after.Ok? && after.value.Arr?
            && after.value.elems == [LogEntry(logId, Str("media:addUrl"), UrlMeta(section, url, username), now)]
                                    + IterSpread(before.value).value
  {
    var entry := LogEntry(logId, Str("media:addUrl"), UrlMeta(section, url, username), now);
    AddThenLogEffect(data, section, [UrlItem(url)], newId, entry);
    var prior := IterSpread(ReadPath(data, MediaPath(section)).value).value;
    var added := MediaEntries([UrlItem(url)], newId);
    assert (prior + added)[..|prior|] == prior;
    assert (prior + added)[|prior|] == MediaEntry(UrlItem(url), newId(0));
  }

  // ----------------------------------------------------------- file input

  /** A selected file: its MIME type and its name. */
  datatype FileInfo = FileInfo(mime: string, name: string)

  /** One entry of onFiles' batch: a video MIME type gives the blob URL and
      `ephemeral: true`; anything else gives the data URL FileReader read. */
  function UploadItem(f: FileInfo, dataUrl: string, blobUrl: string): (r: Val)
    ensures r.Obj? && "name" in r.fields && "type" in r.fields && "src" in r.fields
    ensures r.fields["name"] == Str(f.name)
    ensures r.fields["type"] == Str(if IsPrefix("video", f.mime) then "video" else "image")
    ensures "ephemeral" in r.fields <==> IsPrefix("video", f.mime)
    ensures r.fields["src"] == Str(if IsPrefix("video", f.mime) then blobUrl else dataUrl)
  {
    if IsPrefix("video", f.mime) then
      Obj(map["type" := Str("video"), "src" := Str(blobUrl), "name" := Str(f.name), "ephemeral" := Bool(true)])
    else
      Obj(map["type" := Str("image"), "src" := Str(dataUrl), "name" := Str(f.name)])
  }

  /** The batch for the files in order; file i reads `dataUrl(i)` or gets `blobUrl(i)`. */
  function Uploads(files: seq<FileInfo>, dataUrl: nat -> string, blobUrl: nat -> string): (r: seq<Val>)
    ensures |r| == |files|
    ensures forall i | 0 <= i < |files| :: r[i] == UploadItem(files[i], dataUrl(i), blobUrl(i))
  {
    seq(|files|, i requires 0 <= i < |files| => UploadItem(files[i], dataUrl(i), blobUrl(i)))
  }

  /** The `for (const f of files)` loop, which waits for each image to be
      read before it goes on, so the batch keeps the files' order. */
  method CollectUploads(files: seq<FileInfo>, dataUrl: nat -> string, blobUrl: nat -> string) returns (items: seq<Val>)
    ensures items == Uploads(files, dataUrl, blobUrl)
  {
    items := [];
    var i := 0;
    while i < |files|
      invariant 0 <= i <= |files| && |items| == i
      invariant forall j | 0 <= j < i :: items[j] == UploadItem(files[j], dataUrl(j), blobUrl(j))
    {
      var f := files[i];
      var item: Val;
      if IsPrefix("video", f.mime) {
        item := Obj(map["type" := Str("video"), "src" := Str(blobUrl(i)), "name" := Str(f.name), "ephemeral" := Bool(true)]);
      } else {
        item := Obj(map["type" := Str("image"), "src" := Str(dataUrl(i)), "name" := Str(f.name)]);
      }
      items := items + [item];
      i := i + 1;
    }
  }

  lemma EntryNamed(f: FileInfo, dataUrl: string, blobUrl: string, id: string)
    ensures var m := MediaEntry(UploadItem(f, dataUrl, blobUrl), id);
            m.Obj? && "name" in m.fields && m.fields["name"] == Str(f.name)
  {
    var it := UploadItem(f, dataUrl, blobUrl);
    assert "name" in Spread(it);
  }

  /** onFiles' log entry meta: `{ section, count, by: username }`. */
  function UploadMeta(section: string, count: nat, username: string): Val {
    Obj(map["section" := Str(section), "count" := Num(count), "by" := Str(username)])
  }

  /** onFiles: nothing for no files; otherwise one addMedia of the whole
      batch, then one addLog. */
  function FileSteps(section: string, files: seq<FileInfo>, dataUrl: nat -> string, blobUrl: nat -> string,
                     username: string, newId: nat -> string, logId: string, now: string): (r: seq<Step>)
    ensures |files| == 0 ==> r == []
    ensures |files| > 0 ==> |r| == 2 && r[0].edit.AppendAll? && |r[0].edit.entries| == |files| && r[1].edit.Prepend?
  {
    if |files| == 0 then []
    else AddThenLog(section, Uploads(files, dataUrl, blobUrl), newId,
                    LogEntry(logId, Str("media:addUpload"), UploadMeta(section, |files|, username), now))
  }

  /** Uploading files adds one entry per file in file order, each named as
      its file, and logs once with the number of files. */
  lemma FilesAddEffect(data: Val, section: string, files: seq<FileInfo>, dataUrl: nat -> string, blobUrl: nat -> string,
                       username: string, newId: nat -> string, logId: string, now: string)
    requires data.Obj? && |files| > 0
    requires !Run(data, FileSteps(section, files, dataUrl, blobUrl, username, newId, logId, now)).threw
    ensures var before := ReadPath(data, MediaPath(section));
            var after := ReadPath(Run(data, FileSteps(section, files, dataUrl, blobUrl, username, newId, logId, now)).data, MediaPath(section));
            before.Ok? && after.Ok? && after.value.Arr?
            && var prior := IterSpread(before.value).value;
               |after.value.elems| == |prior| + |files| && after.value.elems[..|prior|] == prior
               && forall i | 0 <= i < |files| ::
                    after.value.elems[|prior| + i].Obj? && "name" in after.value.elems[|prior| + i].fields
                    && after.value.elems[|prior| + i].fields["name"] == Str(files[i].name)
    ensures var after := ReadPath(Run(data, FileSteps(section, files, dataUrl, blobUrl, username, newId, logId, now)).data, ["logs"]);
            after.Ok? && after.value.Arr? && |after.value.elems| > 0
            && after.value.elems[0] == LogEntry(logId, Str("media:addUpload"), UploadMeta(section, |files|, username), now)
  {
    var items := Uploads(files, dataUrl, blobUrl);
    var entry := LogEntry(logId, Str("media:addUpload"), UploadMeta(section, |files|, username), now);
    AddThenLogEffect(data, section, items, newId, entry);
    var prior := IterSpread(ReadPath(data, MediaPath(section)).value).value;
    BatchNamed(prior, files, dataUrl, blobUrl, newId);
  }

  /** The media list after a batch: the entry after the old ones at offset i
      carries the name of file i. */
  lemma BatchNamed(prior: seq<Val>, files: seq<FileInfo>, dataUrl: nat -> string, blobUrl: nat -> string, newId: nat -> string)
    ensures var all := prior + MediaEntries(Uploads(files, dataUrl, blobUrl), newId);
            |all| == |prior| + |files| && all[..|prior|] == prior
            && forall i | 0 <= i < |files| ::
                 all[|prior| + i].Obj? && "name" in all[|prior| + i].fields
                 && all[|prior| + i].fields["name"] == Str(files[i].name)
  {
    var items := Uploads(files, dataUrl, blobUrl);
    var added := MediaEntries(items, newId);
    var all := prior + added;
    assert all[..|prior|] == prior;
    forall i | 0 <= i < |files|
      ensures all[|prior| + i].Obj? && "name" in all[|prior| + i].fields
      ensures all[|prior| + i].fields["name"] == Str(files[i].name)
    {
      assert all[|prior| + i] == added[i];
      EntryNamed(files[i], dataUrl(i), blobUrl(i), newId(i));
    }
  }

  // ------------------------------------------------------- the form itself

  class MoreForm {
    /** The `section` prop. */
    const section: string
    /** The `dragIndex` state: the index of the media card being dragged. */
    var dragIndex: Option<int>

    constructor (section: string)
      ensures this.section == section && dragIndex.None?
    {
      this.section := section;
      dragIndex := None;
    }

    /** onDragStart of the card at `idx`. */
    method OnDragStart(idx: int)
      modifies this
      ensures dragIndex == Some(idx)
    {
      dragIndex := Some(idx);
    }

    /** onUrlAdd. */
    method OnUrlAdd(store: Official, url: string, username: string, newId: nat -> string, logId: string, now: string)
      returns (threw: bool)
      requires store.Valid()
      modifies store
      ensures store.Valid()
      ensures var r := Run(old(store.data), UrlSteps(section, url, username, newId, logId, now));
              store.data == r.data && threw == r.threw
              && store.stored == (if r.wrote then Parsed(r.data) else old(store.stored))
    {
      if Trim(url) == "" {
        return false;
      }
      ghost var steps := UrlSteps(section, url, username, newId, logId, now);
      assert steps[1..][1..] == [];
      threw := store.AddMedia(section, [UrlItem(url)], newId);
      if threw {
        return;
      }
      threw := store.AddLog(logId, Str("media:addUrl"), UrlMeta(section, url, username), now);
    }

    /** onFiles; `dataUrl(i)` is what FileReader reads from file i and
        `blobUrl(i)` what URL.createObjectURL gives for it. */
    method OnFiles(store: Official, files: seq<FileInfo>, dataUrl: nat -> string, blobUrl: nat -> string,
                   username: string, newId: nat -> string, logId: string, now: string)
      returns (threw: bool)
      requires store.Valid()
      modifies store
      ensures store.Valid()
      ensures var r := Run(old(store.data), FileSteps(section, files, dataUrl, blobUrl, username, newId, logId, now));
              store.data == r.data && threw == r.threw
              && store.stored == (if r.wrote then Parsed(r.data) else old(store.stored))
    {
      if |files| == 0 {
        return false;
      }
      ghost var steps := FileSteps(section, files, dataUrl, blobUrl, username, newId, logId, now);
      assert steps[1..][1..] == [];
      var items := CollectUploads(files, dataUrl, blobUrl);
      threw := store.AddMedia(section, items, newId);
      if threw {
        return;
      }
      threw := store.AddLog(logId, Str("media:addUpload"), UploadMeta(section, |items|, username), now);
    }

    /** onDropReorder on the card at `toIndex`: nothing without a drag start;
        otherwise reorderMedia, then the drag index is cleared, then one
        addLog. */
    method OnDropReorder(store: Official, toIndex: int, username: string, logId: string, now: string)
      returns (threw: bool)
      requires store.Valid()
      modifies this, store
      ensures store.Valid()
      ensures old(dragIndex).None? ==>
                !threw && dragIndex.None? && store.data == old(store.data) && store.stored == old(store.stored)
      ensures old(dragIndex).Some? ==>
                var r := Run(old(store.data), DropSteps(section, old(dragIndex).value, toIndex, username, logId, now));
                store.data == r.data && threw == r.threw
                && store.stored == (if r.wrote then Parsed(r.data) else old(store.stored))
                && dragIndex == (if r.wrote then None else old(dragIndex))
    {
      if dragIndex.None? {
        return false;
      }
      var from := dragIndex.value;
      ghost var steps := DropSteps(section, from, toIndex, username, logId, now);
      assert steps[1..][1..] == [];
      threw := store.ReorderMedia(section, from, toIndex);
      if threw {
        return;
      }
      dragIndex := None;
      threw := store.AddLog(logId, Str("media:reorder"), DropMeta(section, from, toIndex, username), now);
    }
  }

  /** onDropReorder's log entry meta: `{ section, from, to, by: username }`. */
  function DropMeta(section: string, from: int, to: int, username: string): Val {
    Obj(map["section" := Str(section), "from" := Num(from), "to" := Num(to), "by" := Str(username)])
  }

  /** reorderMedia, then one addLog. */
  function DropSteps(section: string, from: int, to: int, username: string, logId: string, now: string): (r: seq<Step>)
    ensures |r| == 2 && r[0].edit == Move(from, to) && r[1].edit.Prepend?
  {
    [Step(MediaPath(section), Move(from, to)),
     Step(["logs"], Prepend(LogEntry(logId, Str("media:reorder"), DropMeta(section, from, to, username), now)))]
  }

  /** A drop from one card to another, both in the list, moves the dragged
      entry to the target's place, keeps every entry and the others' order,
      and logs once. */
  lemma DropEffect(data: Val, section: string, from: int, to: int, username: string, logId: string, now: string)
    requires data.Obj? && !Run(data, DropSteps(section, from, to, username, logId, now)).threw
    requires ReadPath(data, MediaPath(section)).Ok?
    requires var media := ReadPath(data, MediaPath(section)).value;
             media.Arr? && 0 <= from < |media.elems| && 0 <= to < |media.elems|
    ensures var media := ReadPath(data, MediaPath(section)).value.elems;
            var after := ReadPath(Run(data, DropSteps(section, from, to, username, logId, now)).data, MediaPath(section));
            after.Ok? && after.value.Arr? && |after.value.elems| == |media|
            && multiset(after.value.elems) == multiset(media)
            && after.value.elems[to] == media[from]
            && ListOps.RemoveIndex(after.value.elems, to) == ListOps.RemoveIndex(media, from)
    ensures var before := ReadPath(data, ["logs"]);
            var after := ReadPath(Run(data, DropSteps(section, from, to, username, logId, now)).data, ["logs"]);
            before.Ok? && after.Ok? && after.value.Arr?
            && after.value.elems == [LogEntry(logId, Str("media:reorder"), DropMeta(section, from, to, username), now)]
                                    + IterSpread(before.value).value
  {
    var steps := DropSteps(section, from, to, username, logId, now);
    var entry := LogEntry(logId, Str("media:reorder"), DropMeta(section, from, to, username), now);
    var mid := EditAt(data, MediaPath(section), Move(from, to)).value;
    assert steps[1..] == [Step(["logs"], Prepend(entry))] && steps[1..][1..] == [];
    ReorderMediaInRange(data, section, from, to);
    EditAtReadsBack(mid, ["logs"], Prepend(entry));
    ReadPathFrame(mid, ["logs"], Prepend(entry), MediaPath(section));
    ReadPathFrame(data, MediaPath(section), Move(from, to), ["logs"]);
  }
}
