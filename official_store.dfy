/** The official-site store of src/store/official.js: one nested site
    document `data`, the `official_site_content` slot of durable storage
    written after every change, and the module's sync lock.

    Every list action rebuilds the document with object spreads along a fixed
    key path (`{ ...data, top: { ...data.top, news: f(data.top.news) } }`), so
    they are all one function, `EditAt`, applied to a path and an `Edit`; the
    station and rolling-stock actions edit a list inside the routes whose id
    matches. setPatch walks a dot path on a clone and assigns in place. */
module OfficialStore {
  import opened JsString
  import opened JsValue
  import opened Collection
  import opened ListOps

  const STORAGE_KEY: string := "official_site_content"

  /** load: `{ ...sample, ...data }`, a top-level overlay only; the sample
      when the slot is empty or unparsable. */
  function Load(raw: Stored, sample: map<string, Val>): (r: Val)
    ensures r.Obj?
    ensures !raw.Parsed? ==> r == Obj(sample)
    ensures raw.Parsed? ==> r.fields.Keys == sample.Keys + Spread(raw.value).Keys
    ensures raw.Parsed? ==> forall k | k in Spread(raw.value) :: r.fields[k] == Spread(raw.value)[k]
    ensures raw.Parsed? ==> forall k | k in sample && k !in Spread(raw.value) :: r.fields[k] == sample[k]
  {
    match raw
    case Parsed(data) => Assign(Obj(sample), data)
    case _ => Obj(sample)
  }

  /** The storage listener's value: `JSON.parse(e.newValue || '{}')`, taken
      as it is, with no defaults filled in. */
  function SyncData(newValue: Stored): (r: Res<Val>)
    ensures r.Err? <==> newValue.Malformed?
    ensures newValue.Missing? ==> r == Ok(Obj(map[]))
    ensures newValue.Parsed? ==> r == Ok(newValue.value)
  {
    ParseOr(newValue, Obj(map[]))
  }

  /** What an action does to the value at the end of its key path. */
  datatype Edit =
    | Append(entry: Val)              // `[...list, entry]`
    | AppendAll(entries: seq<Val>)    // `[...list, ...entries]`
    | Prepend(entry: Val)             // `[entry, ...list]`
    | PatchId(id: Val, patch: Val)    // `list.map(o => o.id === id ? { ...o, ...patch } : o)`
    | DropId(id: Val)                 // `list.filter(o => o.id !== id)`
    | Move(from: int, to: int)        // the splice pair of reorderMedia on `[...list]`
    | SetKey(key: string, x: Val)     // `{ ...obj, [key]: x }`

  /** One element of the PatchId map. */
  function PatchIfId(o: Val, id: Val, patch: Val): Res<Val> {
    var oid :- Prop(o, "id");
    Ok(if oid == id then Assign(o, patch) else o)
  }

  /** `list.map(o => o.id === id ? { ...o, ...patch } : o)`: every element with
      the id is patched, the others stay, in place. */
  function PatchById(list: Val, id: Val, patch: Val): (r: Res<Val>)
    ensures r.Ok? <==> list.Arr? && forall i | 0 <= i < |list.elems| :: !Nullish(list.elems[i])
    ensures r.Ok? ==> r.value.Arr? && |r.value.elems| == |list.elems|
    ensures r.Ok? ==> forall i | 0 <= i < |list.elems| && Prop(list.elems[i], "id") != Ok(id) :: r.value.elems[i] == list.elems[i]
    ensures r.Ok? ==> forall i | 0 <= i < |list.elems| && Prop(list.elems[i], "id") == Ok(id) ::
                        r.value.elems[i] == Assign(list.elems[i], patch)
  {
    var xs :- AsArray(list);
    var ys :- MapRes(xs, o => PatchIfId(o, id, patch));
    Ok(Arr(ys))
  }

  function ApplyEdit(v: Val, e: Edit): (r: Res<Val>)
    ensures e.Append? ==> (r.Ok? <==> v.Arr? || v.Str?)
    ensures e.Append? && r.Ok? ==> r.value == Arr(IterSpread(v).value + [e.entry])
    ensures e.AppendAll? ==> (r.Ok? <==> v.Arr? || v.Str?)
    ensures e.AppendAll? && r.Ok? ==> r.value == Arr(IterSpread(v).value + e.entries)
    ensures e.Prepend? ==> (r.Ok? <==> v.Arr? || v.Str?)
    ensures e.Prepend? && r.Ok? ==> r.value == Arr([e.entry] + IterSpread(v).value)
    ensures e.PatchId? ==> r == PatchById(v, e.id, e.patch)
    ensures e.DropId? ==> (r.Ok? <==> v.Arr? && RemoveById(v.elems, e.id).Ok?)
    ensures e.DropId? && r.Ok? ==> r.value == Arr(RemoveById(v.elems, e.id).value)
    ensures e.Move? ==> (r.Ok? <==> v.Arr? || v.Str?)
    ensures e.Move? && r.Ok? ==> r.value == Arr(SpliceMove(IterSpread(v).value, e.from, e.to))
    ensures e.SetKey? ==> r == Ok(WithField(v, e.key, e.x))
  {
    match e
    case Append(entry) =>
      var xs :- IterSpread(v);
      Ok(Arr(xs + [entry]))
    case AppendAll(entries) =>
      var xs :- IterSpread(v);
      Ok(Arr(xs + entries))
    case Prepend(entry) =>
      var xs :- IterSpread(v);
      Ok(Arr([entry] + xs))
    case PatchId(id, patch) => PatchById(v, id, patch)
    case DropId(id) =>
      var xs :- AsArray(v);
      var ys :- RemoveById(xs, id);
      Ok(Arr(ys))
    case Move(from, to) =>
      var xs :- IterSpread(v);
      Ok(Arr(SpliceMove(xs, from, to)))
    case SetKey(key, x) => Ok(WithField(v, key, x))
  }

  /** `v[path[0]][path[1]]…`, each read throwing on null and undefined. */
  function ReadPath(v: Val, path: seq<string>): Res<Val>
    decreases |path|
  {
    if |path| == 0 then Ok(v)
    else
      var c :- Prop(v, path[0]);
      ReadPath(c, path[1..])
  }

  /** `{ ...v, [path[0]]: { ...v[path[0]], [path[1]]: … e(v[path[0]][path[1]]…) } }` */
  function EditAt(v: Val, path: seq<string>, e: Edit): (r: Res<Val>)
    ensures r.Ok? <==> ReadPath(v, path).Ok? && ApplyEdit(ReadPath(v, path).value, e).Ok?
    ensures r.Ok? && |path| > 0 ==> r.value.Obj? && r.value.fields.Keys == Spread(v).Keys + {path[0]}
    ensures r.Ok? && |path| > 0 ==> forall k | k in Spread(v) && k != path[0] :: r.value.fields[k] == Spread(v)[k]
    decreases |path|
  {
    if |path| == 0 then ApplyEdit(v, e)
    else
      var c :- Prop(v, path[0]);
      var c2 :- EditAt(c, path[1..], e);
      Ok(WithField(v, path[0], c2))
  }

  /** Reading the edited path back gives the edit of what was there. */
  lemma {:induction false} EditAtReadsBack(v: Val, path: seq<string>, e: Edit)
    requires EditAt(v, path, e).Ok?
    ensures ReadPath(v, path).Ok?
    ensures ReadPath(EditAt(v, path, e).value, path) == ApplyEdit(ReadPath(v, path).value, e)
    decreases |path|
  {
    if |path| > 0 {
      var c := Prop(v, path[0]).value;
      EditAtReadsBack(c, path[1..], e);
      var r := EditAt(v, path, e).value;
      assert Prop(r, path[0]) == Ok(EditAt(c, path[1..], e).value);
    }
  }

  /** Nothing else changes: at every object along the path, the keys other
      than the one the path follows keep their values, and no key is lost. */
  lemma {:induction false} EditAtFrame(v: Val, path: seq<string>, e: Edit, i: nat)
    requires EditAt(v, path, e).Ok? && i < |path|
    ensures ReadPath(v, path[..i]).Ok? && ReadPath(EditAt(v, path, e).value, path[..i]).Ok?
    ensures SpreadFrame(ReadPath(v, path[..i]).value, ReadPath(EditAt(v, path, e).value, path[..i]).value, path[i])
    decreases |path|
  {
    var r := EditAt(v, path, e).value;
    if i == 0 {
      assert path[..0] == [];
    } else {
      var c := Prop(v, path[0]).value;
      var c2 := EditAt(c, path[1..], e).value;
      EditAtFrame(c, path[1..], e, i - 1);
      assert Prop(r, path[0]) == Ok(c2);
      ReadPathStep(v, c, path, i);
      ReadPathStep(r, c2, path, i);
      assert path[1..][i - 1] == path[i];
    }
  }

  /** `after` is `{ ...before, [k]: … }`: an object with the keys of `before`
      and `k`, every key but `k` keeping its value. */
  predicate SpreadFrame(before: Val, after: Val, k: string) {
    after.Obj? && after.fields.Keys == Spread(before).Keys + {k}
    && forall j | j in Spread(before) && j != k :: after.fields[j] == Spread(before)[j]
  }

  /** Reading a prefix of a path is reading the rest of it from the first child. */
  lemma ReadPathStep(v: Val, c: Val, path: seq<string>, i: nat)
    requires 0 < i <= |path| && Prop(v, path[0]) == Ok(c)
    ensures ReadPath(v, path[..i]) == ReadPath(c, path[1..][..i - 1])
  {
    var q := path[..i];
    assert q[0] == path[0] && q[1..] == path[1..][..i - 1];
  }

  /** One element of `routes.map(r => r.id === routeId ? { ...r, [key]: e(r[key]) } : r)`. */
  function EditRoute(route: Val, routeId: Val, key: string, e: Edit): Res<Val> {
    var rid :- Prop(route, "id");
    if rid == routeId then EditAt(route, [key], e) else Ok(route)
  }

  /** The station and rolling-stock actions: only the routes with `routeId`
      have their `key` list edited; the other routes stay as they are. */
  function EditInRoutes(data: Val, routeId: Val, key: string, e: Edit): (r: Res<Val>)
    ensures r.Ok? <==> Prop(data, "routes").Ok? && Prop(data, "routes").value.Arr?
                       && forall i | 0 <= i < |Prop(data, "routes").value.elems| ::
                            EditRoute(Prop(data, "routes").value.elems[i], routeId, key, e).Ok?
    ensures r.Ok? ==> r.value.Obj? && r.value.fields.Keys == Spread(data).Keys + {"routes"}
    ensures r.Ok? ==> forall k | k in Spread(data) && k != "routes" :: r.value.fields[k] == Spread(data)[k]
    ensures r.Ok? ==> var before := Prop(data, "routes").value.elems;
                      r.value.fields["routes"].Arr? && |r.value.fields["routes"].elems| == |before|
                      && (forall i | 0 <= i < |before| && Prop(before[i], "id") != Ok(routeId) ::
                            r.value.fields["routes"].elems[i] == before[i])
                      && (forall i | 0 <= i < |before| && Prop(before[i], "id") == Ok(routeId) ::
                            r.value.fields["routes"].elems[i] == EditAt(before[i], [key], e).value)
  {
    var routes :- Prop(data, "routes");
    var rs :- AsArray(routes);
    var rs2 :- MapRes(rs, route => EditRoute(route, routeId, key, e));
    Ok(WithField(data, "routes", Arr(rs2)))
  }

  /** The lists of the document that have add/update/remove actions. */
  datatype SubList =
    | Operations | News | Routes | Schedule | Spots | Events | Gallery
    | Careers | Press | Csr | Safety
    | Stations(routeId: Val) | RollingStock(routeId: Val)

  /** The key path of a list outside the routes. */
  function ListPath(l: SubList): (p: seq<string>)
    requires !l.Stations? && !l.RollingStock?
    ensures 1 <= |p| <= 2
  {
    match l
    case Operations => ["top", "operations"]
    case News => ["top", "news"]
    case Routes => ["routes"]
    case Schedule => ["operationInfo", "schedule"]
    case Spots => ["tourism", "spots"]
    case Events => ["tourism", "events"]
    case Gallery => ["tourism", "gallery"]
    case Careers => ["corporate", "careers"]
    case Press => ["corporate", "press"]
    case Csr => ["corporate", "csr"]
    case Safety => ["corporate", "safety"]
  }

  /** An edit of one list of the document. */
  function EditList(data: Val, l: SubList, e: Edit): Res<Val> {
    match l
    case Stations(rid) => EditInRoutes(data, rid, "stations", e)
    case RollingStock(rid) => EditInRoutes(data, rid, "rollingStock", e)
    case _ => EditAt(data, ListPath(l), e)
  }

  /** The element each add* action appends, with its fresh id. */
  function Template(l: SubList, id: string, now: string): (r: Val)
    ensures r.Obj? && "id" in r.fields && r.fields["id"] == Str(id)
  {
    match l
    case Operations => Obj(map["id" := Str(id), "status" := Str("平常運行"), "message" := Str(""), "updatedAt" := Str(now)])
    case News => Obj(map["id" := Str(id), "title" := Str("新着ニュース"), "body" := Str(""), "date" := Str(now),
                         "category" := Str("お知らせ"), "link" := Str("")])
    case Routes => Obj(map["id" := Str(id), "name" := Str("新しい路線"), "color" := Str("#2a7cff"), "mapEmbedUrl" := Str(""),
                           "stations" := Arr([]), "rollingStock" := Arr([])])
    case Schedule => Obj(map["id" := Str(id), "title" := Str("新しい予定"), "note" := Str(""), "timeRange" := Str("")])
    case Spots => Obj(map["id" := Str(id), "title" := Str("新しいスポット"), "description" := Str(""), "photoUrl" := Str(""),
                          "nearStation" := Str("")])
    case Events => Obj(map["id" := Str(id), "title" := Str("新しいイベント"), "date" := Str(now), "info" := Str("")])
    case Gallery => Obj(map["id" := Str(id), "photoUrl" := Str(""), "caption" := Str("")])
    case Careers => Obj(map["id" := Str(id), "title" := Str("新しい求人"), "location" := Str(""), "link" := Str("")])
    case Press => Obj(map["id" := Str(id), "title" := Str("新しいプレスリリース"), "date" := Str(now), "link" := Str("")])
    case Csr => Obj(map["id" := Str(id), "title" := Str("新しいCSR項目"), "description" := Str("")])
    case Safety => Obj(map["id" := Str(id), "title" := Str("新しい安全項目"), "description" := Str("")])
    case Stations(_) => Obj(map["id" := Str(id), "name" := Str("新しい駅"), "code" := Str("")])
    case RollingStock(_) => Obj(map["id" := Str(id), "name" := Str("新しい車両"), "photoUrl" := Str(""), "formation" := Str("")])
  }

  /** Each add* action appends exactly its template to the end of its own
      list, and every other key along the way keeps its value. */
  lemma AddAppendsOne(data: Val, l: SubList, id: string, now: string)
    requires !l.Stations? && !l.RollingStock?
    requires EditList(data, l, Append(Template(l, id, now))).Ok?
    ensures var before := ReadPath(data, ListPath(l)).value;
            var after := ReadPath(EditList(data, l, Append(Template(l, id, now))).value, ListPath(l));
            after.Ok? && after.value.Arr? && |after.value.elems| == |IterSpread(before).value| + 1
            && after.value.elems[..|IterSpread(before).value|] == IterSpread(before).value
            && after.value.elems[|IterSpread(before).value|] == Template(l, id, now)
  {
    var e := Append(Template(l, id, now));
    EditAtReadsBack(data, ListPath(l), e);
    var xs := IterSpread(ReadPath(data, ListPath(l)).value).value;
    assert (xs + [Template(l, id, now)])[..|xs|] == xs;
  }

  /** One of addMedia's new entries: `{ id: fresh, ...it }`, so an item's own
      id wins over the fresh one. */
  function MediaEntry(it: Val, freshId: string): (r: Val)
    ensures r.Obj? && r.fields.Keys == Spread(it).Keys + {"id"}
    ensures r.fields["id"] == (if "id" in Spread(it) then Spread(it)["id"] else Str(freshId))
    ensures forall k | k in Spread(it) :: r.fields[k] == Spread(it)[k]
  {
    assert Spread(Obj(map["id" := Str(freshId)])) == map["id" := Str(freshId)];
    Assign(Obj(map["id" := Str(freshId)]), it)
  }

  /** addMedia's new entries: `items.map(it => ({ id: fresh, ...it }))`. */
  function MediaEntries(items: seq<Val>, newId: nat -> string): (r: seq<Val>)
    ensures |r| == |items|
    ensures forall i | 0 <= i < |items| :: r[i] == MediaEntry(items[i], newId(i))
  {
    seq(|items|, i requires 0 <= i < |items| => MediaEntry(items[i], newId(i)))
  }

  /** The path of a "more" section's media list. */
  function MediaPath(section: string): seq<string> {
    ["more", section, "media"]
  }

  /** addLog's entry; a missing meta defaults to `{}`. */
  function LogEntry(id: string, action: Val, meta: Val, now: string): Val {
    Obj(map["id" := Str(id), "action" := action, "meta" := (if meta.Undefined? then Obj(map[]) else meta), "at" := Str(now)])
  }

  /** reorderMedia with both indices in range is a permutation of the media
      list that puts the moved entry at `to` and keeps the others in order. */
  lemma ReorderMediaInRange(data: Val, section: string, from: int, to: int)
    requires EditAt(data, MediaPath(section), Move(from, to)).Ok?
    requires var media := ReadPath(data, MediaPath(section)).value;
             media.Arr? && 0 <= from < |media.elems| && 0 <= to < |media.elems|
    ensures var media := ReadPath(data, MediaPath(section)).value.elems;
            var after := ReadPath(EditAt(data, MediaPath(section), Move(from, to)).value, MediaPath(section));
            after.Ok? && after.value.Arr? && |after.value.elems| == |media|
            && multiset(after.value.elems) == multiset(media)
            && after.value.elems[to] == media[from]
            && RemoveIndex(after.value.elems, to) == RemoveIndex(media, from)
  {
    EditAtReadsBack(data, MediaPath(section), Move(from, to));
    SpliceMoveInRange(ReadPath(data, MediaPath(section)).value.elems, from, to);
  }

  /** addLog puts the new entry first and keeps the older ones after it. */
  lemma AddLogNewestFirst(data: Val, entry: Val)
    requires EditAt(data, ["logs"], Prepend(entry)).Ok?
    ensures var logs := IterSpread(ReadPath(data, ["logs"]).value).value;
            var after := ReadPath(EditAt(data, ["logs"], Prepend(entry)).value, ["logs"]);
            after.Ok? && after.value.Arr? && after.value.elems[0] == entry && after.value.elems[1..] == logs
  {
    EditAtReadsBack(data, ["logs"], Prepend(entry));
    var logs := IterSpread(ReadPath(data, ["logs"]).value).value;
    assert ([entry] + logs)[1..] == logs;
  }

  // setPatch

  /** `obj[k] = { ...obj[k], ...patch }` in strict mode: a write into null,
      undefined or a primitive throws. */
  function Write(obj: Val, k: string, patch: Val): (r: Res<Val>)
    ensures r.Ok? ==> obj.Obj? || obj.Arr?
    ensures obj.Obj? ==> r == Ok(Obj(obj.fields[k := Assign(Get(obj.fields, k), patch)]))
  {
    match obj
    case Obj(m) => Ok(Obj(m[k := Assign(Get(m, k), patch)]))
    case Arr(a) =>
      var ix := IndexKey(k);
      if ix.Some? && ix.value < |a| then Ok(Arr(a[ix.value := Assign(a[ix.value], patch)])) else Err
    case _ => Err
  }

  /** Puts the changed child `c` back under key `k` of its container, which the
      in-place assignment achieves by reference. Only an object, or an array
      read at an index it has, can hold a child that `SetAt` changed. */
  function Replace(v: Val, k: string, c: Val): Val {
    match v
    case Obj(m) => Obj(m[k := c])
    case Arr(a) =>
      var ix := IndexKey(k);
      if ix.Some? && ix.value < |a| then Arr(a[ix.value := c]) else v
    case _ => v
  }

  /** The document after the walk `obj = obj[prefix[i]]` and the final write
      of `last` on a clone of `v`. */
  function SetAt(v: Val, prefix: seq<string>, last: string, patch: Val): (r: Res<Val>)
    ensures r.Ok? ==> r.value.Obj? || r.value.Arr?
    decreases |prefix|
  {
    if |prefix| == 0 then Write(v, last, patch)
    else
      var c :- Prop(v, prefix[0]);
      var c2 :- SetAt(c, prefix[1..], last, patch);
      Ok(Replace(v, prefix[0], c2))
  }

  /** setPatch on `data`: the path split at dots, all segments but the last walked. */
  function SetPatchSpec(data: Val, path: string, patch: Val): Res<Val> {
    var parts := Split(path, '.');
    SetAt(data, parts[..|parts| - 1], parts[|parts| - 1], patch)
  }

  /** setPatch succeeds exactly when the path up to its last segment reads and
      ends at a container that can be written; the object it reaches then
      reads back as the old one with the patch spread over it. */
  lemma SetPatchSpecReadsBack(data: Val, path: string, patch: Val)
    ensures var parts := Split(path, '.');
            var at := ReadPath(data, parts[..|parts| - 1]);
            var r := SetPatchSpec(data, path, patch);
            (r.Ok? <==> at.Ok? && Write(at.value, parts[|parts| - 1], patch).Ok?)
            && (r.Ok? && at.value.Obj? ==>
                  ReadPath(r.value, parts) == Ok(Assign(Get(at.value.fields, parts[|parts| - 1]), patch)))
  {
    var parts := Split(path, '.');
    var init, last := parts[..|parts| - 1], parts[|parts| - 1];
    SetAtOk(data, init, last, patch);
    if SetAt(data, init, last, patch).Ok? {
      SetAtReadsBack(data, init, last, patch);
      assert init + [last] == parts;
    }
  }

  /** The walk and write succeed exactly when every segment but the last
      reads, and the container it reaches can be written. */
  lemma {:induction false} SetAtOk(v: Val, prefix: seq<string>, last: string, patch: Val)
    ensures SetAt(v, prefix, last, patch).Ok? <==>
              ReadPath(v, prefix).Ok? && Write(ReadPath(v, prefix).value, last, patch).Ok?
    decreases |prefix|
  {
    if |prefix| > 0 && Prop(v, prefix[0]).Ok? {
      SetAtOk(Prop(v, prefix[0]).value, prefix[1..], last, patch);
    }
  }

  /** A child read from `v` that `SetAt` can change is an object or an array,
      so `v` is an object, or an array read at one of its indices. */
  lemma PropOfContainer(v: Val, k: string)
    requires Prop(v, k).Ok? && (Prop(v, k).value.Obj? || Prop(v, k).value.Arr?)
    ensures v.Obj? || (v.Arr? && IndexKey(k).Some? && IndexKey(k).value < |v.elems|)
  {
  }

  /** After setPatch, the object at the path is the old one with the patch
      spread over it. */
  lemma {:induction false} SetAtReadsBack(v: Val, prefix: seq<string>, last: string, patch: Val)
    requires SetAt(v, prefix, last, patch).Ok?
    ensures ReadPath(v, prefix).Ok? && ReadPath(v, prefix).value.Obj?
            ==> ReadPath(SetAt(v, prefix, last, patch).value, prefix + [last])
                == Ok(Assign(Get(ReadPath(v, prefix).value.fields, last), patch))
    decreases |prefix|
  {
    var r := SetAt(v, prefix, last, patch).value;
    if |prefix| == 0 {
      if v.Obj? {
        assert ReadPath(r, [last]) == ReadPath(Get(r.fields, last), []);
      }
    } else {
      var c := Prop(v, prefix[0]).value;
      var c2 := SetAt(c, prefix[1..], last, patch).value;
      SetAtReadsBack(c, prefix[1..], last, patch);
      PropOfContainer(v, prefix[0]);
      assert Prop(r, prefix[0]) == Ok(c2);
      assert (prefix + [last])[1..] == prefix[1..] + [last];
    }
  }

  /** setPatch keeps every top-level key other than the first path segment. */
  lemma SetAtTopFrame(v: Val, prefix: seq<string>, last: string, patch: Val, k: string)
    requires SetAt(v, prefix, last, patch).Ok? && v.Obj?
    requires k != (if |prefix| == 0 then last else prefix[0])
    ensures SetAt(v, prefix, last, patch).value.Obj?
    ensures Get(SetAt(v, prefix, last, patch).value.fields, k) == Get(v.fields, k)
  {
  }

  /** One level of setPatch: the container keeps every key, and every value,
      but the one the path follows; an array keeps its length. */
  lemma SetAtLocalFrame(v: Val, prefix: seq<string>, last: string, patch: Val)
    requires SetAt(v, prefix, last, patch).Ok?
    ensures var r := SetAt(v, prefix, last, patch).value;
            var k0 := (prefix + [last])[0];
            (v.Obj? ==> r.Obj? && r.fields.Keys == v.fields.Keys + {k0}
                        && forall k | k in v.fields && k != k0 :: r.fields[k] == v.fields[k])
            && (v.Arr? ==> r.Arr? && |r.elems| == |v.elems|
                           && forall j | 0 <= j < |v.elems| && IndexKey(k0) != Some(j) :: r.elems[j] == v.elems[j])
  {
    if |prefix| > 0 {
      PropOfContainer(v, prefix[0]);
    }
  }

  /** Nothing else changes: at every container along the walk, the keys and
      indices other than the one the path follows keep their values, no key
      is lost, and no array changes length. */
  lemma {:induction false} SetAtFrame(v: Val, prefix: seq<string>, last: string, patch: Val, i: nat)
    requires SetAt(v, prefix, last, patch).Ok? && i <= |prefix|
    ensures ReadPath(v, prefix[..i]).Ok? && ReadPath(SetAt(v, prefix, last, patch).value, prefix[..i]).Ok?
    ensures var before := ReadPath(v, prefix[..i]).value;
            var after := ReadPath(SetAt(v, prefix, last, patch).value, prefix[..i]).value;
            var k0 := (prefix + [last])[i];
            (before.Obj? ==> after.Obj? && after.fields.Keys == before.fields.Keys + {k0}
                             && forall k | k in before.fields && k != k0 :: after.fields[k] == before.fields[k])
            && (before.Arr? ==> after.Arr? && |after.elems| == |before.elems|
                                && forall j | 0 <= j < |before.elems| && IndexKey(k0) != Some(j) ::
                                     after.elems[j] == before.elems[j])
    decreases |prefix|
  {
    var r := SetAt(v, prefix, last, patch).value;
    if i == 0 {
      assert prefix[..0] == [];
      SetAtLocalFrame(v, prefix, last, patch);
    } else {
      var c := Prop(v, prefix[0]).value;
      var c2 := SetAt(c, prefix[1..], last, patch).value;
      SetAtFrame(c, prefix[1..], last, patch, i - 1);
      PropOfContainer(v, prefix[0]);
      assert Prop(r, prefix[0]) == Ok(c2);
      ReadPathStep(v, c, prefix, i);
      ReadPathStep(r, c2, prefix, i);
      assert (prefix + [last])[i] == (prefix[1..] + [last])[i - 1];
    }
  }

  /** setPatch as the store runs it: the for-loop that walks `obj = obj[parts[i]]`,
      the in-place write at the last segment, and the containers along the
      walk, which see the write through their references. */
  method SetPatchWalk(data: Val, path: string, patch: Val) returns (res: Res<Val>)
    ensures res == SetPatchSpec(data, path, patch)
  {
    var parts := Split(path, '.');
    var n := |parts| - 1;
    var levels: seq<Val> := [data];
    var i := 0;
    var failed := false;
    while i < n && !failed
      invariant 0 <= i <= n
      decreases n - i, if failed then 0 else 1
      invariant |levels| == i + 1 && levels[0] == data
      invariant forall j | 0 <= j < i :: Prop(levels[j], parts[j]) == Ok(levels[j + 1])
      invariant failed ==> i < n && Prop(levels[i], parts[i]).Err?
    {
      var c := Prop(levels[i], parts[i]);
      if c.Err? {
        failed := true;
      } else {
        levels := levels + [c.value];
        i := i + 1;
      }
    }
    if failed {
      res := Err;
    } else {
      res := Write(levels[i], parts[n], patch);
    }
    assert res == SetAt(levels[i], parts[i..n], parts[n], patch);
    res := PutBack(levels, parts[..n], i, parts[n], patch, res);
  }

  /** The containers along the walk see the write through their references:
      from level i back to the document, each gets the changed child back
      under the key the walk followed. */
  method PutBack(levels: seq<Val>, walk: seq<string>, i: nat, last: string, patch: Val, res0: Res<Val>)
    returns (res: Res<Val>)
    requires i < |levels| && i <= |walk|
    requires forall j | 0 <= j < i :: Prop(levels[j], walk[j]) == Ok(levels[j + 1])
    requires res0 == SetAt(levels[i], walk[i..], last, patch)
    ensures res == SetAt(levels[0], walk, last, patch)
  {
    res := res0;
    var k := i;
    while k > 0
      invariant 0 <= k <= i
      invariant res == SetAt(levels[k], walk[k..], last, patch)
    {
      k := k - 1;
      assert walk[k..][1..] == walk[k + 1..];
      if res.Ok? {
        res := Ok(Replace(levels[k], walk[k], res.value));
      }
    }
    assert walk[0..] == walk;
  }

  class Official {
    var data: Val
    /** The `official_site_content` slot of durable storage. */
    var stored: Stored
    /** `__syncLockOfficial` */
    var locked: bool

    /** Outside the storage listener the lock is always released. */
    predicate Valid()
      reads this
    {
      !locked
    }

    /** Store creation: the loaded document; nothing is written. */
    constructor (raw: Stored, sample: map<string, Val>)
      ensures Valid() && data == Load(raw, sample) && stored == raw
    {
      data := Load(raw, sample);
      stored := raw;
      locked := false;
    }

    /** A state change followed by the persistence subscriber, which writes
        the document unless the lock is set. */
    method Commit(next: Val)
      modifies this
      ensures data == next && locked == old(locked)
      ensures stored == (if locked then old(stored) else Parsed(next))
    {
      data := next;
      if !locked {
        stored := Parsed(data);
      }
    }

    /** Runs an updater's outcome: an exception leaves everything unchanged. */
    method Perform(r: Res<Val>) returns (threw: bool)
      requires Valid()
      modifies this
      ensures Valid()
      ensures threw <==> r.Err?
      ensures threw ==> data == old(data) && stored == old(stored)
      ensures !threw ==> data == r.value && stored == Parsed(data)
    {
      if r.Err? {
        return true;
      }
      Commit(r.value);
      return false;
    }

    method SetPatch(path: string, patch: Val) returns (threw: bool)
      requires Valid()
      modifies this
      ensures Valid()
      ensures threw <==> SetPatchSpec(old(data), path, patch).Err?
      ensures threw ==> data == old(data) && stored == old(stored)
      ensures !threw ==> data == SetPatchSpec(old(data), path, patch).value && stored == Parsed(data)
    {
      var r := SetPatchWalk(data, path, patch);
      threw := Perform(r);
    }

    /** setCustomCSS, setCustomHTML and setCustomJS. */
    method SetCustom(field: string, x: Val)
      requires Valid() && field in {"customCSS", "customHTML", "customJS"}
      modifies this
      ensures Valid()
      ensures data == WithField(old(data), field, x) && stored == Parsed(data)
    {
      var _ := Perform(EditAt(data, [], SetKey(field, x)));
    }

    /** The add* actions. */
    method Add(l: SubList, id: string, now: string) returns (threw: bool)
      requires Valid()
      modifies this
      ensures Valid()
      ensures threw <==> EditList(old(data), l, Append(Template(l, id, now))).Err?
      ensures threw ==> data == old(data) && stored == old(stored)
      ensures !threw ==> data == EditList(old(data), l, Append(Template(l, id, now))).value && stored == Parsed(data)
    {
      threw := Perform(EditList(data, l, Append(Template(l, id, now))));
    }

    /** The update* actions. */
    method Update(l: SubList, id: Val, patch: Val) returns (threw: bool)
      requires Valid()
      modifies this
      ensures Valid()
      ensures threw <==> EditList(old(data), l, PatchId(id, patch)).Err?
      ensures threw ==> data == old(data) && stored == old(stored)
      ensures !threw ==> data == EditList(old(data), l, PatchId(id, patch)).value && stored == Parsed(data)
    {
      threw := Perform(EditList(data, l, PatchId(id, patch)));
    }

    /** The remove* actions. */
    method Remove(l: SubList, id: Val) returns (threw: bool)
      requires Valid()
      modifies this
      ensures Valid()
      ensures threw <==> EditList(old(data), l, DropId(id)).Err?
      ensures threw ==> data == old(data) && stored == old(stored)
      ensures !threw ==> data == EditList(old(data), l, DropId(id)).value && stored == Parsed(data)
    {
      threw := Perform(EditList(data, l, DropId(id)));
    }

    /** setMoreEnabled, setMoreLabel and setMoreText. */
    method SetMore(section: string, field: string, x: Val) returns (threw: bool)
      requires Valid() && field in {"enabled", "label", "contentText"}
      modifies this
      ensures Valid()
      ensures threw <==> EditAt(old(data), ["more", section], SetKey(field, x)).Err?
      ensures threw ==> data == old(data) && stored == old(stored)
      ensures !threw ==> data == EditAt(old(data), ["more", section], SetKey(field, x)).value && stored == Parsed(data)
    {
      threw := Perform(EditAt(data, ["more", section], SetKey(field, x)));
    }

    method AddMedia(section: string, items: seq<Val>, newId: nat -> string) returns (threw: bool)
      requires Valid()
      modifies this
      ensures Valid()
      ensures threw <==> EditAt(old(data), MediaPath(section), AppendAll(MediaEntries(items, newId))).Err?
      ensures threw ==> data == old(data) && stored == old(stored)
      ensures !threw ==> data == EditAt(old(data), MediaPath(section), AppendAll(MediaEntries(items, newId))).value
                         && stored == Parsed(data)
    {
      threw := Perform(EditAt(data, MediaPath(section), AppendAll(MediaEntries(items, newId))));
    }

    method UpdateMedia(section: string, id: Val, patch: Val) returns (threw: bool)
      requires Valid()
      modifies this
      ensures Valid()
      ensures threw <==> EditAt(old(data), MediaPath(section), PatchId(id, patch)).Err?
      ensures threw ==> data == old(data) && stored == old(stored)
      ensures !threw ==> data == EditAt(old(data), MediaPath(section), PatchId(id, patch)).value && stored == Parsed(data)
    {
      threw := Perform(EditAt(data, MediaPath(section), PatchId(id, patch)));
    }

    method RemoveMedia(section: string, id: Val) returns (threw: bool)
      requires Valid()
      modifies this
      ensures Valid()
      ensures threw <==> EditAt(old(data), MediaPath(section), DropId(id)).Err?
      ensures threw ==> data == old(data) && stored == old(stored)
      ensures !threw ==> data == EditAt(old(data), MediaPath(section), DropId(id)).value && stored == Parsed(data)
    {
      threw := Perform(EditAt(data, MediaPath(section), DropId(id)));
    }

    method ReorderMedia(section: string, from: int, to: int) returns (threw: bool)
      requires Valid()
      modifies this
      ensures Valid()
      ensures threw <==> EditAt(old(data), MediaPath(section), Move(from, to)).Err?
      ensures threw ==> data == old(data) && stored == old(stored)
      ensures !threw ==> data == EditAt(old(data), MediaPath(section), Move(from, to)).value && stored == Parsed(data)
    {
      threw := Perform(EditAt(data, MediaPath(section), Move(from, to)));
    }

    method AddLog(id: string, action: Val, meta: Val, now: string) returns (threw: bool)
      requires Valid()
      modifies this
      ensures Valid()
      ensures threw <==> EditAt(old(data), ["logs"], Prepend(LogEntry(id, action, meta, now))).Err?
      ensures threw ==> data == old(data) && stored == old(stored)
      ensures !threw ==> data == EditAt(old(data), ["logs"], Prepend(LogEntry(id, action, meta, now))).value
                         && stored == Parsed(data)
    {
      threw := Perform(EditAt(data, ["logs"], Prepend(LogEntry(id, action, meta, now))));
    }

    /** The storage listener: the parsed value replaces the document wholesale
        unless it equals it, under the lock, so nothing is written back. */
    method OnStorage(key: string, newValue: Stored)
      requires Valid()
      modifies this
      ensures Valid()
      ensures stored == (if key == STORAGE_KEY then newValue else old(stored))
      ensures key == STORAGE_KEY && SyncData(newValue).Ok? ==> data == SyncData(newValue).value
      ensures !(key == STORAGE_KEY && SyncData(newValue).Ok?) ==> data == old(data)
    {
      if key == STORAGE_KEY {
        stored := newValue;
        var r := SyncData(newValue);
        if r.Ok? && r.value != data {
          locked := true;
          Commit(r.value);
        }
        locked := false;
      }
    }
  }
}
