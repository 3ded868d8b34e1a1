/** The progress store of src/store/progress.js: the list of progress items,
    the selected id, the `portfolio_progress` slot of durable storage that the
    persistence subscriber writes after every state change, and the module's
    sync lock, which is set only while a storage event from another tab is
    being applied. */
module ProgressStore {
  import opened JsString
  import opened JsValue
  import opened TagNormalizer
  import opened Collection
  import opened ListOps

  const STORAGE_KEY: string := "portfolio_progress"

  /** Fields the load and sync paths supply when a record lacks them. */
  const LOAD_DEFAULTS: map<string, Val> :=
    map["descriptionFull" := Str(""), "imageFinalUrl" := Str(""), "imageCurrentUrl" := Str(""), "todos" := Arr([])]

  /** Fields importItems supplies when a record lacks them. */
  const IMPORT_DEFAULTS: map<string, Val> :=
    LOAD_DEFAULTS["percent" := Num(0)]["status" := Str("todo")]["priority" := Str("medium")]["dueDate" := Null]

  /** safeLoad: the stored array with every record normalised, or the sample
      records when the slot is empty, unparsable, not an array, or holds a
      record that cannot be normalised. */
  function SafeLoad(raw: Stored, sample: seq<Val>): (r: seq<Val>)
    ensures !(raw.Parsed? && raw.value.Arr?) ==> r == sample
    ensures raw.Parsed? && raw.value.Arr? && NormalizeAll(LOAD_DEFAULTS, raw.value.elems).Err? ==> r == sample
    ensures raw.Parsed? && raw.value.Arr? && NormalizeAll(LOAD_DEFAULTS, raw.value.elems).Ok? ==>
              r == NormalizeAll(LOAD_DEFAULTS, raw.value.elems).value
  {
    match raw
    case Parsed(Arr(a)) =>
      var n := NormalizeAll(LOAD_DEFAULTS, a);
      if n.Ok? then n.value else sample
    case _ => sample
  }

  /** What the persistence subscriber writes loads back unchanged. */
  lemma SafeLoadOfSaved(items: seq<Val>, sample: seq<Val>)
    requires NormalizeAll(LOAD_DEFAULTS, items) == Ok(items)
    ensures SafeLoad(Parsed(Arr(items)), sample) == items
  {
  }

  /** A load-normalised list stays load-normalised when it is normalised again:
      the records a load produces are a fixpoint of the load. */
  lemma SafeLoadStable(raw: Stored, sample: seq<Val>)
    requires raw.Parsed? && raw.value.Arr? && NormalizeAll(LOAD_DEFAULTS, raw.value.elems).Ok?
    ensures SafeLoad(Parsed(Arr(SafeLoad(raw, sample))), sample) == SafeLoad(raw, sample)
  {
    NormalizeAllIdempotent(LOAD_DEFAULTS, raw.value.elems);
  }

  /** The record addItem appends. */
  function NewItem(id: string, order: nat, now: string): (r: Val)
    ensures Prop(r, "id") == Ok(Str(id)) && Prop(r, "order") == Ok(Num(order))
  {
    Obj(map[
      "id" := Str(id), "title" := Str("新しい進捗"), "tags" := Arr([]),
      "descriptionShort" := Str(""), "descriptionFull" := Str(""),
      "imageFinalUrl" := Str(""), "imageCurrentUrl" := Str(""), "todos" := Arr([]),
      "percent" := Num(0), "status" := Str("todo"), "priority" := Str("medium"),
      "dueDate" := Null, "order" := Num(order), "createdAt" := Str(now), "updatedAt" := Str(now)])
  }

  /** Removing the item that addItem has just appended restores the list, as
      long as no earlier item had the new id. */
  lemma AddThenRemove(items: seq<Val>, id: string, now: string)
    requires forall i | 0 <= i < |items| :: !Nullish(items[i]) && Prop(items[i], "id") != Ok(Str(id))
    ensures RemoveById(items + [NewItem(id, |items|, now)], Str(id)) == Ok(items)
  {
    RemoveAppended(items, NewItem(id, |items|, now), Str(id));
  }

  /** `JSON.parse(e.newValue || '[]')`, then every record normalised, with a
      non-array read as the empty list. */
  function SyncItems(newValue: Stored): (r: Res<seq<Val>>)
    ensures newValue.Malformed? ==> r.Err?
    ensures newValue.Missing? ==> r == Ok([])
    ensures newValue.Parsed? && !newValue.value.Arr? ==> r == Ok([])
    ensures newValue.Parsed? && newValue.value.Arr? ==> r == NormalizeAll(LOAD_DEFAULTS, newValue.value.elems)
  {
    var data :- ParseOr(newValue, Arr([]));
    if data.Arr? then NormalizeAll(LOAD_DEFAULTS, data.elems) else Ok([])
  }

  /** The list importItems reads from its payload: the payload itself when it is
      an array, else its `items` array, else its `progress` array, else nothing. */
  function ReadArray(payload: Val): (r: seq<Val>)
    ensures payload.Arr? ==> r == payload.elems
    ensures !payload.Arr? && !Truthy(payload) ==> r == []
    ensures payload.Obj? && Get(payload.fields, "items").Arr? ==> r == Get(payload.fields, "items").elems
    ensures payload.Obj? && !Get(payload.fields, "items").Arr? && Get(payload.fields, "progress").Arr? ==>
              r == Get(payload.fields, "progress").elems
  {
    if payload.Arr? then payload.elems
    else if Truthy(payload) && Prop(payload, "items").value.Arr? then Prop(payload, "items").value.elems
    else if Truthy(payload) && Prop(payload, "progress").value.Arr? then Prop(payload, "progress").value.elems
    else []
  }

  /** An imported record as the append loop sees it: an object with a string id. */
  predicate IsImported(p: Val) {
    p.Obj? && "id" in p.fields && p.fields["id"].Str?
  }

  /** One record of importItems' normalisation: the import defaults, then the
      record's own fields, then a string id (the fresh one when the record has
      none) and its normalised tags. */
  function ImportRecord(p: Val, freshId: string): (r: Res<Val>)
    ensures r.Ok? <==> NormalizeTags(OptProp(p, "tags")).Ok?
    ensures r.Ok? ==> IsImported(r.value)
    ensures r.Ok? ==> r.value.fields.Keys == IMPORT_DEFAULTS.Keys + Spread(p).Keys + {"id", "tags"}
    ensures r.Ok? ==> IsStoredTagList(r.value.fields["tags"])
    ensures r.Ok? ==> NormalizeTags(OptProp(p, "tags")) == Ok(r.value.fields["tags"])
    ensures r.Ok? ==> r.value.fields["id"] == Str(ToStr(Or(OptProp(p, "id"), Str(freshId))))
    ensures r.Ok? ==> forall k | k in Spread(p) && k != "id" && k != "tags" :: r.value.fields[k] == Spread(p)[k]
    ensures r.Ok? ==> forall k | k in IMPORT_DEFAULTS && k !in Spread(p) :: r.value.fields[k] == IMPORT_DEFAULTS[k]
  {
    var tags :- NormalizeTags(OptProp(p, "tags"));
    var id := Str(ToStr(Or(OptProp(p, "id"), Str(freshId))));
    assert "id" !in IMPORT_DEFAULTS && "tags" !in IMPORT_DEFAULTS;
    ImportOverlay(IMPORT_DEFAULTS, Spread(p), id, tags);
    Ok(Obj((IMPORT_DEFAULTS + Spread(p))["id" := id]["tags" := tags]))
  }

  /** Defaults, then the record's fields, then an id and the tags. */
  lemma ImportOverlay(base: map<string, Val>, own: map<string, Val>, id: Val, tags: Val)
    ensures var f := (base + own)["id" := id]["tags" := tags];
            f.Keys == base.Keys + own.Keys + {"id", "tags"} && f["id"] == id && f["tags"] == tags
            && (forall k | k in own && k != "id" && k != "tags" :: f[k] == own[k])
            && (forall k | k in base && k !in own && k != "id" && k != "tags" :: f[k] == base[k])
  {
  }

  /** The tags of a record can be normalised: they are falsy or an array. */
  predicate TagsReadable(p: Val) {
    NormalizeTags(OptProp(p, "tags")).Ok?
  }

  /** The normalised list of importItems; record i draws `newId(i)` when it needs an id. */
  function NormalizeImport(xs: seq<Val>, newId: nat -> string): (r: Res<seq<Val>>)
    ensures r.Ok? <==> forall i | 0 <= i < |xs| :: TagsReadable(xs[i])
    ensures r.Ok? ==> |r.value| == |xs|
    ensures r.Ok? ==> forall i | 0 <= i < |xs| :: ImportRecord(xs[i], newId(i)) == Ok(r.value[i])
    ensures r.Ok? ==> AllImported(r.value)
  {
    var f := (i: nat, x: Val) => ImportRecord(x, newId(i));
    var r := MapResIndexed(xs, f);
    assert forall i | 0 <= i < |xs| :: f(i, xs[i]) == ImportRecord(xs[i], newId(i));
    r
  }

  /** Replace mode: the records in input order with orders 0..n-1, createdAt
      kept when truthy and updatedAt set to now. */
  function ReplaceAll(ps: seq<Val>, now: string): (r: seq<Val>)
    requires forall i | 0 <= i < |ps| :: ps[i].Obj?
    ensures |r| == |ps|
    ensures forall i | 0 <= i < |ps| :: r[i].Obj? && r[i].fields.Keys == ps[i].fields.Keys + {"order", "createdAt", "updatedAt"}
    ensures forall i | 0 <= i < |ps| :: r[i].fields["order"] == Num(i) && r[i].fields["updatedAt"] == Str(now)
    ensures forall i | 0 <= i < |ps| :: r[i].fields["createdAt"] == Or(Get(ps[i].fields, "createdAt"), Str(now))
    ensures forall i, k | 0 <= i < |ps| && k in ps[i].fields && k != "order" && k != "createdAt" && k != "updatedAt" ::
              r[i].fields[k] == ps[i].fields[k]
  {
    if |ps| == 0 then []
    else
      var p := ps[|ps| - 1];
      var last := Obj(p.fields["order" := Num(|ps| - 1)]["createdAt" := Or(Get(p.fields, "createdAt"), Str(now))]["updatedAt" := Str(now)]);
      ReplaceAll(ps[..|ps| - 1], now) + [last]
  }

  /** The string id of an imported record. */
  function IdOf(p: Val): string
    requires IsImported(p)
  {
    p.fields["id"].s
  }

  /** `x` is an object that carries every field of the object `p` outside `skip`. */
  predicate Agrees(x: Val, p: Val, skip: set<string>) {
    x.Obj? && p.Obj? && forall k | k in p.fields && k !in skip :: k in x.fields && x.fields[k] == p.fields[k]
  }

  /** The fields the append loop and the final renumbering may overwrite. */
  const STAMPS: set<string> := {"order", "createdAt", "updatedAt"}

  /** One iteration of the append loop over `byId`: a record whose id is
      already there with a truthy value is merged over it (the imported fields
      win); otherwise it is added with order = the number of keys. Either way
      the entry carries the imported fields and updatedAt = now. */
  function AppendStep(d: Dict, p: Val, now: string): (r: Dict)
    requires d.Valid() && IsImported(p)
    ensures r.Valid()
    ensures r.keys == (if IdOf(p) in d.vals then d.keys else d.keys + [IdOf(p)])
    ensures r.vals.Keys == d.vals.Keys + {IdOf(p)}
    ensures forall k | k in d.vals && k != IdOf(p) :: r.vals[k] == d.vals[k]
    ensures Agrees(r.vals[IdOf(p)], p, STAMPS)
    ensures "updatedAt" in r.vals[IdOf(p)].fields && r.vals[IdOf(p)].fields["updatedAt"] == Str(now)
    ensures !(IdOf(p) in d.vals && Truthy(d.vals[IdOf(p)])) ==>
              "order" in r.vals[IdOf(p)].fields && r.vals[IdOf(p)].fields["order"] == Num(|d.keys|)
              && "createdAt" in r.vals[IdOf(p)].fields
              && r.vals[IdOf(p)].fields["createdAt"] == Or(Get(p.fields, "createdAt"), Str(now))
    ensures IdOf(p) in d.vals && Truthy(d.vals[IdOf(p)]) ==>
              forall k | k in Spread(d.vals[IdOf(p)]) && k !in p.fields && k != "updatedAt" ::
                k in r.vals[IdOf(p)].fields && r.vals[IdOf(p)].fields[k] == Spread(d.vals[IdOf(p)])[k]
  {
    var k := IdOf(p);
    if k in d.vals && Truthy(d.vals[k]) then
      d.Put(k, Obj((Spread(d.vals[k]) + p.fields)["updatedAt" := Str(now)]))
    else
      d.Put(k, Obj(p.fields["order" := Num(|d.keys|)]["createdAt" := Or(Get(p.fields, "createdAt"), Str(now))]["updatedAt" := Str(now)]))
  }

  predicate AllImported(ps: seq<Val>) {
    forall i | 0 <= i < |ps| :: IsImported(ps[i])
  }

  /** The whole append loop. */
  function AppendAll(d: Dict, ps: seq<Val>, now: string): (r: Dict)
    requires d.Valid() && AllImported(ps)
    ensures r.Valid()
    ensures |d.keys| <= |r.keys| && r.keys[..|d.keys|] == d.keys
    ensures d.vals.Keys <= r.vals.Keys
  {
    if |ps| == 0 then d
    else
      var init := ps[..|ps| - 1];
      assert AllImported(init) by { assert forall i | 0 <= i < |init| :: init[i] == ps[i]; }
      var mid := AppendAll(d, init, now);
      var r := AppendStep(mid, ps[|ps| - 1], now);
      KeysPrefixGrows(d.keys, mid.keys, r.keys);
      r
  }

  /** A key list extended by at most one key keeps its prefixes. */
  lemma KeysPrefixGrows(a: seq<string>, b: seq<string>, c: seq<string>)
    requires |a| <= |b| && b[..|a|] == a
    requires c == b || (|c| == |b| + 1 && c[..|b|] == b)
    ensures |a| <= |c| && c[..|a|] == a
  {
    if c != b {
      assert c[..|a|] == c[..|b|][..|a|];
    }
  }

  /** Every imported id ends up in the dictionary. */
  lemma {:induction false} AppendAllHas(d: Dict, ps: seq<Val>, now: string, j: nat)
    requires d.Valid() && AllImported(ps) && j < |ps|
    ensures IdOf(ps[j]) in AppendAll(d, ps, now).vals
    decreases |ps|
  {
    if j < |ps| - 1 {
      var init := ps[..|ps| - 1];
      assert init[j] == ps[j];
      AppendAllHas(d, init, now, j);
    }
  }

  /** The last imported record with a given id determines that entry: every
      field it carries is kept, except order, createdAt and updatedAt, and
      updatedAt is now. */
  lemma {:induction false} AppendAllLastWins(d: Dict, ps: seq<Val>, now: string, j: nat)
    requires d.Valid() && AllImported(ps) && j < |ps|
    requires forall i | j < i < |ps| :: IdOf(ps[i]) != IdOf(ps[j])
    ensures IdOf(ps[j]) in AppendAll(d, ps, now).vals
    ensures Agrees(AppendAll(d, ps, now).vals[IdOf(ps[j])], ps[j], STAMPS)
    decreases |ps|
  {
    if j == |ps| - 1 {
      AppendAllLast(d, ps, now);
    } else {
      var init := ps[..|ps| - 1];
      assert forall i | j < i < |init| :: init[i] == ps[i];
      assert init[j] == ps[j];
      AppendAllLastWins(d, init, now, j);
      LastStepKeepsOther(d, ps, now, IdOf(ps[j]));
    }
  }

  /** The loop's last step leaves every entry but its own as the rest of the loop left it. */
  lemma LastStepKeepsOther(d: Dict, ps: seq<Val>, now: string, k: string)
    requires d.Valid() && AllImported(ps) && |ps| > 0 && k != IdOf(ps[|ps| - 1])
    requires AllImported(ps[..|ps| - 1]) && k in AppendAll(d, ps[..|ps| - 1], now).vals
    ensures k in AppendAll(d, ps, now).vals
    ensures AppendAll(d, ps, now).vals[k] == AppendAll(d, ps[..|ps| - 1], now).vals[k]
  {
    AppendAllLast(d, ps, now);
  }

  /** The loop's last iteration applies one step to the loop over the rest. */
  lemma AppendAllLast(d: Dict, ps: seq<Val>, now: string)
    requires d.Valid() && AllImported(ps) && |ps| > 0
    ensures AllImported(ps[..|ps| - 1])
    ensures AppendAll(d, ps, now) == AppendStep(AppendAll(d, ps[..|ps| - 1], now), ps[|ps| - 1], now)
  {
    var init := ps[..|ps| - 1];
    assert forall i | 0 <= i < |init| :: init[i] == ps[i];
  }

  /** A record already in the store whose id no imported record carries stays as it was. */
  lemma {:induction false} AppendAllKeepsOthers(d: Dict, ps: seq<Val>, now: string, k: string)
    requires d.Valid() && AllImported(ps)
    requires k in d.vals && forall i | 0 <= i < |ps| :: IdOf(ps[i]) != k
    ensures k in AppendAll(d, ps, now).vals && AppendAll(d, ps, now).vals[k] == d.vals[k]
    decreases |ps|
  {
    if |ps| > 0 {
      var init := ps[..|ps| - 1];
      assert forall i | 0 <= i < |init| :: IdOf(init[i]) == IdOf(ps[i]);
      AppendAllKeepsOthers(d, init, now, k);
    }
  }

  /** Append mode after the loop: `Object.values(byId)` sorted by order and renumbered. */
  function AppendResult(d: Dict, ps: seq<Val>, now: string): (r: seq<Val>)
    requires d.Valid() && AllImported(ps)
    ensures |r| == |AppendAll(d, ps, now).keys|
    ensures forall i | 0 <= i < |r| :: r[i].Obj? && "order" in r[i].fields && r[i].fields["order"] == Num(i)
  {
    Renumber(SortByOrder(AppendAll(d, ps, now).Values()))
  }

  /** Every entry of the dictionary reappears in the renumbered list, with all
      its fields but order. */
  lemma AppendResultHasEntry(d: Dict, ps: seq<Val>, now: string, k: string)
    requires d.Valid() && AllImported(ps)
    requires k in AppendAll(d, ps, now).vals && AppendAll(d, ps, now).vals[k].Obj?
    ensures exists x | x in AppendResult(d, ps, now) :: Agrees(x, AppendAll(d, ps, now).vals[k], {"order"})
  {
    var vs := AppendAll(d, ps, now).Values();
    var v := AppendAll(d, ps, now).vals[k];
    var sorted := SortByOrder(vs);
    assert v in multiset(sorted);
    var m :| 0 <= m < |sorted| && sorted[m] == v;
    var r := Renumber(sorted);
    assert Agrees(r[m], v, {"order"});
    assert r[m] in AppendResult(d, ps, now);
  }

  /** Append mode orders the entries of `byId` as `Object.values` enumerates
      them, stably sorted by their `order` (missing counting as 0), and then
      renumbers them 0..n-1. */
  lemma AppendResultStableSort(d: Dict, ps: seq<Val>, now: string)
    requires d.Valid() && AllImported(ps)
    ensures var vs := AppendAll(d, ps, now).Values();
            exists s :: IsStableSortOf(s, vs, OrderKey) && AppendResult(d, ps, now) == Renumber(s)
  {
    var vs := AppendAll(d, ps, now).Values();
    var sorted := SortBy(vs, OrderKey);
    SortByIsStableSort(vs, OrderKey);
    assert AppendResult(d, ps, now) == Renumber(sorted);
  }

  /** The enumeration order decides ties: with `x` (order 0) and `y` (order 2)
      in the store, a new record with id `5` gets order 2 and, as an array
      index, is enumerated before `x` and `y`; the stable sort then places it
      between them. */
  lemma AppendIndexKeyFirst(now: string)
    ensures var x := Obj(map["id" := Str("x"), "order" := Num(0)]);
            var y := Obj(map["id" := Str("y"), "order" := Num(2)]);
            var p := Obj(map["id" := Str("5")]);
            var r := AppendResult(Dict(["x", "y"], map["x" := x, "y" := y]), [p], now);
            |r| == 3 && Get(r[0].fields, "id") == Str("x") && Get(r[1].fields, "id") == Str("5")
            && Get(r[2].fields, "id") == Str("y")
  {
    var x := Obj(map["id" := Str("x"), "order" := Num(0)]);
    var y := Obj(map["id" := Str("y"), "order" := Num(2)]);
    var p := Obj(map["id" := Str("5")]);
    assert OrderKey(x) == 0 && "id" in Spread(x) && Spread(x)["id"] == Str("x");
    assert OrderKey(y) == 2 && "id" in Spread(y) && Spread(y)["id"] == Str("y");
    var d := Dict(["x", "y"], map["x" := x, "y" := y]);
    assert d.Valid();
    assert [p][..0] == [];
    assert AppendAll(d, [], now) == d;
    var d1 := AppendAll(d, [p], now);
    assert d1 == AppendStep(d, p, now);
    ExampleAppend(x, y, p, now);
    ExampleRenumbered(d1, x, y);
  }

  /** The comparator subtracts, so an `order` given as text counts as the
      number it denotes: with records `a` and `b` (order 1) in the store,
      re-importing `a` with order "5" sorts it after `b`. */
  lemma AppendTextOrder(d: Dict, p: Val, now: string)
    requires d.Valid() && d.keys == ["a", "b"] && d.vals["a"].Obj?
    requires d.vals["b"].Obj? && "id" in d.vals["b"].fields && d.vals["b"].fields["id"] == Str("b")
    requires "order" in d.vals["b"].fields && d.vals["b"].fields["order"] == Num(1)
    requires p.Obj? && "id" in p.fields && p.fields["id"] == Str("a") && "order" in p.fields && p.fields["order"] == Str("5")
    ensures AllImported([p])
    ensures var r := AppendResult(d, [p], now);
            |r| == 2 && Get(r[0].fields, "id") == Str("b") && Get(r[1].fields, "id") == Str("a")
  {
    TextOrderStep(d, p, now);
    var d1 := AppendAll(d, [p], now);
    TextOrderResult(d1, d1.vals["a"], d1.vals["b"]);
  }

  /** One append step merges the re-imported `a` over the stored one: the
      keys stay, `b` is untouched, and `a` now carries the imported id and order. */
  lemma TextOrderStep(d: Dict, p: Val, now: string)
    requires d.Valid() && d.keys == ["a", "b"] && d.vals["a"].Obj?
    requires p.Obj? && "id" in p.fields && p.fields["id"] == Str("a") && "order" in p.fields && p.fields["order"] == Str("5")
    ensures AllImported([p])
    ensures var d1 := AppendAll(d, [p], now);
            d1.keys == ["a", "b"] && "a" in d1.vals && "b" in d1.vals && d1.vals["b"] == d.vals["b"]
            && d1.vals["a"].Obj? && "order" in d1.vals["a"].fields && d1.vals["a"].fields["order"] == Str("5")
            && "id" in d1.vals["a"].fields && d1.vals["a"].fields["id"] == Str("a")
  {
    AppendOne(d, p, now);
    MergeStep(d, p, now);
  }

  /** Appending a single record is one step of the loop. */
  lemma AppendOne(d: Dict, p: Val, now: string)
    requires d.Valid() && IsImported(p)
    ensures AllImported([p]) && AppendAll(d, [p], now) == AppendStep(d, p, now)
  {
    assert [p][..0] == [];
  }

  /** A record whose id is stored as an object is merged over it in place. */
  lemma MergeStep(d: Dict, p: Val, now: string)
    requires d.Valid() && IsImported(p) && IdOf(p) in d.vals && d.vals[IdOf(p)].Obj?
    ensures AppendStep(d, p, now)
            == Dict(d.keys, d.vals[IdOf(p) := Obj((d.vals[IdOf(p)].fields + p.fields)["updatedAt" := Str(now)])])
  {
  }

  /** The merged `a` (order "5") and `b` (order 1), enumerated, sorted and renumbered. */
  lemma TextOrderResult(d1: Dict, a1: Val, b: Val)
    requires d1.Valid() && d1.keys == ["a", "b"] && d1.vals["a"] == a1 && d1.vals["b"] == b
    requires a1.Obj? && "order" in a1.fields && a1.fields["order"] == Str("5")
    requires "id" in a1.fields && a1.fields["id"] == Str("a")
    requires b.Obj? && "order" in b.fields && b.fields["order"] == Num(1)
    requires "id" in b.fields && b.fields["id"] == Str("b")
    ensures var r := Renumber(SortByOrder(d1.Values()));
            |r| == 2 && Get(r[0].fields, "id") == Str("b") && Get(r[1].fields, "id") == Str("a")
  {
    assert d1.Values() == [a1, b] by {
      NonDigitKeyIsNoIndex("a", 0);
      NonDigitKeyIsNoIndex("b", 0);
      d1.OwnKeysWithoutIndices();
    }
    TextOrderSwap(a1, b);
  }

  /** `a` (order "5") and `b` (order 1) swap places in the sort. */
  lemma TextOrderSwap(a1: Val, b: Val)
    requires a1.Obj? && "order" in a1.fields && a1.fields["order"] == Str("5")
    requires "id" in a1.fields && a1.fields["id"] == Str("a")
    requires b.Obj? && "order" in b.fields && b.fields["order"] == Num(1)
    requires "id" in b.fields && b.fields["id"] == Str("b")
    ensures var r := Renumber(SortByOrder([a1, b]));
            |r| == 2 && Get(r[0].fields, "id") == Str("b") && Get(r[1].fields, "id") == Str("a")
  {
    TextOrderKey(a1);
    SwappedRenumbered(a1, b);
  }

  /** `"5" - 1` is 4: the text is read through Number. */
  lemma TextOrderKey(a1: Val)
    requires a1.Obj? && "order" in a1.fields && a1.fields["order"] == Str("5")
    ensures OrderKey(a1) == 5
  {
    TrimOfTrimmed("5");
    assert "5"[..0] == [];
  }

  /** The entries created as `x` (order 0), `y` (order 2) and `5` (order 2),
      enumerated, sorted and renumbered. */
  lemma ExampleRenumbered(d1: Dict, x: Val, y: Val)
    requires d1.keys == ["x", "y", "5"] && d1.vals.Keys == {"x", "y", "5"}
    requires d1.vals["x"] == x && d1.vals["y"] == y
    requires OrderKey(x) == 0 && "id" in Spread(x) && Spread(x)["id"] == Str("x")
    requires OrderKey(y) == 2 && "id" in Spread(y) && Spread(y)["id"] == Str("y")
    requires OrderKey(d1.vals["5"]) == 2 && "id" in Spread(d1.vals["5"]) && Spread(d1.vals["5"])["id"] == Str("5")
    ensures var r := Renumber(SortByOrder(d1.Values()));
            |r| == 3 && Get(r[0].fields, "id") == Str("x") && Get(r[1].fields, "id") == Str("5")
            && Get(r[2].fields, "id") == Str("y")
  {
    ExampleValues(d1, x, y);
    ExampleResult(d1.vals["5"], x, y);
  }

  /** Appending a record with the new id `5` to the entries `x` and `y`. */
  lemma ExampleAppend(x: Val, y: Val, p: Val, now: string)
    requires p == Obj(map["id" := Str("5")])
    requires Dict(["x", "y"], map["x" := x, "y" := y]).Valid()
    ensures var d1 := AppendStep(Dict(["x", "y"], map["x" := x, "y" := y]), p, now);
            d1.keys == ["x", "y", "5"] && d1.vals.Keys == {"x", "y", "5"}
            && d1.vals["x"] == x && d1.vals["y"] == y
            && OrderKey(d1.vals["5"]) == 2 && "id" in Spread(d1.vals["5"]) && Spread(d1.vals["5"])["id"] == Str("5")
  {
    var d := Dict(["x", "y"], map["x" := x, "y" := y]);
    var e := Obj(p.fields["order" := Num(2)]["createdAt" := Or(Get(p.fields, "createdAt"), Str(now))]["updatedAt" := Str(now)]);
    assert IdOf(p) == "5" && "5" !in d.vals && |d.keys| == 2;
    assert AppendStep(d, p, now) == Dict(["x", "y"] + ["5"], d.vals["5" := e]);
    assert ["x", "y"] + ["5"] == ["x", "y", "5"];
  }

  /** The state importItems computes, or the exception it throws. */
  function ImportResult(curr: seq<Val>, payload: Val, mode: Val, newId: nat -> string, now: string): (r: Res<seq<Val>>)
    ensures r.Ok? <==> NormalizeImport(ReadArray(payload), newId).Ok? && (mode != Str("replace") ==> ById(curr).Ok?)
    ensures r.Ok? && mode == Str("replace") ==> |r.value| == |ReadArray(payload)|
    ensures r.Ok? ==> forall i | 0 <= i < |r.value| :: r.value[i].Obj? && "order" in r.value[i].fields
    ensures r.Ok? ==> forall i | 0 <= i < |r.value| :: r.value[i].fields["order"] == Num(i)
  {
    var ps :- NormalizeImport(ReadArray(payload), newId);
    if mode == Str("replace") then Ok(ReplaceAll(ps, now))
    else
      var byId :- ById(curr);
      Ok(AppendResult(byId, ps, now))
  }

  /** The last imported record with each id is in the append result with
      every field it carries, except order, createdAt and updatedAt. */
  lemma AppendResultKeepsImported(d: Dict, ps: seq<Val>, now: string, j: nat)
    requires d.Valid() && AllImported(ps) && j < |ps|
    requires forall i | j < i < |ps| :: IdOf(ps[i]) != IdOf(ps[j])
    ensures exists x | x in AppendResult(d, ps, now) :: Agrees(x, ps[j], STAMPS)
  {
    AppendAllLastWins(d, ps, now, j);
    var v := AppendAll(d, ps, now).vals[IdOf(ps[j])];
    AppendResultHasEntry(d, ps, now, IdOf(ps[j]));
    var x :| x in AppendResult(d, ps, now) && Agrees(x, v, {"order"});
    assert Agrees(x, ps[j], STAMPS);
  }

  /** A record of the store whose id no imported record carries is in the
      append result unchanged except for its order. */
  lemma AppendResultKeepsOthers(d: Dict, ps: seq<Val>, now: string, k: string)
    requires d.Valid() && AllImported(ps)
    requires k in d.vals && d.vals[k].Obj? && forall i | 0 <= i < |ps| :: IdOf(ps[i]) != k
    ensures exists x | x in AppendResult(d, ps, now) :: Agrees(x, d.vals[k], {"order"})
  {
    AppendAllKeepsOthers(d, ps, now, k);
    AppendResultHasEntry(d, ps, now, k);
  }

  /** In append mode importItems computes the append result over the id
      dictionary of the current items. */
  lemma ImportResultAppend(curr: seq<Val>, payload: Val, mode: Val, newId: nat -> string, now: string)
    requires mode != Str("replace") && ImportResult(curr, payload, mode, newId, now).Ok?
    ensures NormalizeImport(ReadArray(payload), newId).Ok? && ById(curr).Ok?
    ensures AllImported(NormalizeImport(ReadArray(payload), newId).value)
    ensures ImportResult(curr, payload, mode, newId, now).value
            == AppendResult(ById(curr).value, NormalizeImport(ReadArray(payload), newId).value, now)
  {
  }

  /** In append mode the last imported record with each id is in the result
      with every field it carries, except order, createdAt and updatedAt. */
  lemma ImportAppendKeepsImported(curr: seq<Val>, payload: Val, mode: Val, newId: nat -> string, now: string, j: nat)
    requires mode != Str("replace") && ImportResult(curr, payload, mode, newId, now).Ok?
    requires j < |NormalizeImport(ReadArray(payload), newId).value|
    requires var ps := NormalizeImport(ReadArray(payload), newId).value;
             forall i | j < i < |ps| :: IdOf(ps[i]) != IdOf(ps[j])
    ensures var ps := NormalizeImport(ReadArray(payload), newId).value;
            exists x | x in ImportResult(curr, payload, mode, newId, now).value :: Agrees(x, ps[j], STAMPS)
  {
    ImportResultAppend(curr, payload, mode, newId, now);
    AppendResultKeepsImported(ById(curr).value, NormalizeImport(ReadArray(payload), newId).value, now, j);
  }

  /** In append mode a store record that no imported record mentions (the last
      one with its id) is in the result unchanged except for its order. */
  lemma ImportAppendKeepsUnmentioned(curr: seq<Val>, payload: Val, mode: Val, newId: nat -> string, now: string, jc: nat)
    requires mode != Str("replace") && ImportResult(curr, payload, mode, newId, now).Ok?
    requires jc < |curr| && curr[jc].Obj?
    requires forall i | jc < i < |curr| :: KeyOf(curr[i]) != KeyOf(curr[jc])
    requires var ps := NormalizeImport(ReadArray(payload), newId).value;
             forall i | 0 <= i < |ps| :: IdOf(ps[i]) != KeyOf(curr[jc])
    ensures exists x | x in ImportResult(curr, payload, mode, newId, now).value :: Agrees(x, curr[jc], {"order"})
  {
    ImportResultAppend(curr, payload, mode, newId, now);
    ByIdLast(curr, jc);
    AppendResultKeepsOthers(ById(curr).value, NormalizeImport(ReadArray(payload), newId).value, now, KeyOf(curr[jc]));
  }

  /** The append loop: `for (const p of normalized)` over the id dictionary. */
  method AppendLoop(d0: Dict, ps: seq<Val>, now: string) returns (d: Dict)
    requires d0.Valid() && AllImported(ps)
    ensures d == AppendAll(d0, ps, now)
  {
    d := d0;
    var i := 0;
    while i < |ps|
      invariant 0 <= i <= |ps|
      invariant d == AppendAll(d0, ps[..i], now)
    {
      assert ps[..i + 1][..i] == ps[..i];
      d := AppendStep(d, ps[i], now);
      i := i + 1;
    }
    assert ps[..|ps|] == ps;
  }

  /** exportItems' payload for a list of items. */
  function ExportPayload(items: seq<Val>, now: string): (r: Res<Val>)
    ensures r.Ok? <==> NormalizeAll(map[], items).Ok?
    ensures r.Ok? ==> r.value.Obj? && r.value.fields.Keys == {"type", "version", "exportedAt", "items"}
    ensures r.Ok? ==> r.value.fields["type"] == Str("progress") && r.value.fields["version"] == Num(1)
                      && r.value.fields["exportedAt"] == Str(now)
    ensures r.Ok? ==> r.value.fields["items"].Arr? && |r.value.fields["items"].elems| == |items|
    ensures r.Ok? ==> forall i | 0 <= i < |items| ::
              var x := r.value.fields["items"].elems[i];
              x.Obj? && x.fields.Keys == Spread(items[i]).Keys + {"tags"}
              && NormalizeTags(OptProp(items[i], "tags")) == Ok(x.fields["tags"])
    ensures r.Ok? ==> forall i, k | 0 <= i < |items| && k in Spread(items[i]) && k != "tags" ::
              var x := r.value.fields["items"].elems[i];
              x.Obj? && k in x.fields && x.fields[k] == Spread(items[i])[k]
  {
    var none: map<string, Val> := map[];
    assert none.Keys == {};
    var exported :- NormalizeAll(none, items);
    Ok(Obj(map["type" := Str("progress"), "version" := Num(1), "exportedAt" := Str(now), "items" := Arr(exported)]))
  }

  class Progress {
    var items: seq<Val>
    var selectedId: Val
    /** The `portfolio_progress` slot of durable storage. */
    var stored: Stored
    /** `__syncLockProgress` */
    var locked: bool

    /** Outside the storage listener the lock is always released. */
    predicate Valid()
      reads this
    {
      !locked
    }

    /** Module initialisation: the loaded list and its first id; the subscriber
        is registered afterwards, so nothing is written. */
    constructor (raw: Stored, sample: seq<Val>)
      ensures Valid()
      ensures items == SafeLoad(raw, sample) && selectedId == FirstIdOrNull(items) && stored == raw
    {
      items := SafeLoad(raw, sample);
      selectedId := FirstIdOrNull(SafeLoad(raw, sample));
      stored := raw;
      locked := false;
    }

    /** A state change followed by the persistence subscriber, which writes the
        items unless the lock is set. */
    method Commit(newItems: seq<Val>, newSelected: Val)
      modifies this
      ensures items == newItems && selectedId == newSelected && locked == old(locked)
      ensures stored == (if locked then old(stored) else Parsed(Arr(newItems)))
    {
      items := newItems;
      selectedId := newSelected;
      if !locked {
        stored := Parsed(Arr(items));
      }
    }

    /** `setState({ items, selectedId })` as the import panel and the share-link loader call it. */
    method SetState(newItems: seq<Val>, newSelected: Val)
      requires Valid()
      modifies this
      ensures Valid()
      ensures items == newItems && selectedId == newSelected && stored == Parsed(Arr(newItems))
    {
      Commit(newItems, newSelected);
    }

    method AddItem(id: string, now: string)
      requires Valid()
      modifies this
      ensures Valid()
      ensures items == old(items) + [NewItem(id, |old(items)|, now)]
      ensures selectedId == Str(id)
      ensures stored == Parsed(Arr(items))
    {
      var next := NewItem(id, |items|, now);
      Commit(items + [next], Str(id));
    }

    method Select(id: Val)
      requires Valid()
      modifies this
      ensures Valid()
      ensures items == old(items) && selectedId == id && stored == Parsed(Arr(items))
    {
      Commit(items, id);
    }

    /** updateItem; `threw` reports the TypeError the updater raises, in which
        case nothing changes. */
    method UpdateItem(id: Val, patch: Val, now: string) returns (threw: bool)
      requires Valid()
      modifies this
      ensures Valid()
      ensures threw <==> UpdateById(old(items), id, patch, now).Err?
      ensures threw ==> items == old(items) && selectedId == old(selectedId) && stored == old(stored)
      ensures !threw ==> items == UpdateById(old(items), id, patch, now).value
                         && selectedId == old(selectedId) && stored == Parsed(Arr(items))
    {
      var r := UpdateById(items, id, patch, now);
      if r.Err? {
        return true;
      }
      Commit(r.value, selectedId);
      return false;
    }

    /** removeSelected: drops the selected record and selects the first one left. */
    method RemoveSelected() returns (threw: bool)
      requires Valid()
      modifies this
      ensures Valid()
      ensures threw <==> RemoveById(old(items), old(selectedId)).Err?
      ensures threw ==> items == old(items) && selectedId == old(selectedId) && stored == old(stored)
      ensures !threw ==> items == RemoveById(old(items), old(selectedId)).value
                         && selectedId == FirstIdOrNull(items) && stored == Parsed(Arr(items))
    {
      var r := RemoveById(items, selectedId);
      if r.Err? {
        return true;
      }
      Commit(r.value, FirstIdOrNull(r.value));
      return false;
    }

    /** removeItem: the selection moves only when the removed id was selected. */
    method RemoveItem(id: Val) returns (threw: bool)
      requires Valid()
      modifies this
      ensures Valid()
      ensures threw <==> RemoveById(old(items), id).Err?
      ensures threw ==> items == old(items) && selectedId == old(selectedId) && stored == old(stored)
      ensures !threw ==> items == RemoveById(old(items), id).value && stored == Parsed(Arr(items))
      ensures !threw && old(selectedId) == id ==> selectedId == FirstIdOrNull(items)
      ensures !threw && old(selectedId) != id ==> selectedId == old(selectedId)
    {
      var r := RemoveById(items, id);
      if r.Err? {
        return true;
      }
      var nextSelected := if selectedId == id then FirstIdOrNull(r.value) else selectedId;
      Commit(r.value, nextSelected);
      return false;
    }

    method Reorder(ids: seq<Val>) returns (threw: bool)
      requires Valid()
      modifies this
      ensures Valid()
      ensures threw <==> Collection.Reorder(old(items), ids).Err?
      ensures threw ==> items == old(items) && selectedId == old(selectedId) && stored == old(stored)
      ensures !threw ==> items == Collection.Reorder(old(items), ids).value
                         && selectedId == old(selectedId) && stored == Parsed(Arr(items))
    {
      var r := Collection.Reorder(items, ids);
      if r.Err? {
        return true;
      }
      Commit(r.value, selectedId);
      return false;
    }

    /** importItems; the append mode runs the loop over the id dictionary. */
    method ImportItems(payload: Val, mode: Val, newId: nat -> string, now: string) returns (threw: bool)
      requires Valid()
      modifies this
      ensures Valid()
      ensures threw <==> ImportResult(old(items), payload, mode, newId, now).Err?
      ensures threw ==> items == old(items) && selectedId == old(selectedId) && stored == old(stored)
      ensures !threw ==> items == ImportResult(old(items), payload, mode, newId, now).value
                         && selectedId == FirstIdOrNull(items) && stored == Parsed(Arr(items))
    {
      var normalized := NormalizeImport(ReadArray(payload), newId);
      if normalized.Err? {
        return true;
      }
      var ps := normalized.value;
      var next: seq<Val>;
      if mode == Str("replace") {
        next := ReplaceAll(ps, now);
      } else {
        var byId := ById(items);
        if byId.Err? {
          return true;
        }
        var d := AppendLoop(byId.value, ps, now);
        next := Renumber(SortByOrder(d.Values()));
        assert next == AppendResult(byId.value, ps, now);
      }
      assert ImportResult(items, payload, mode, newId, now) == Ok(next);
      Commit(next, FirstIdOrNull(next));
      return false;
    }

    /** exportItems: the items with their tags normalised once more, under the
        payload header. */
    function ExportItems(now: string): (r: Res<Val>)
      reads this
      ensures r == ExportPayload(items, now)
    {
      ExportPayload(items, now)
    }

    /** The storage listener. The slot now holds what the other tab wrote; the
        store takes the normalised list unless it equals the current one, and
        applies it under the lock, so the subscriber writes nothing back. */
    method OnStorage(key: string, newValue: Stored)
      requires Valid()
      modifies this
      ensures Valid()
      ensures stored == (if key == STORAGE_KEY then newValue else old(stored))
      ensures selectedId == old(selectedId)
      ensures key == STORAGE_KEY && SyncItems(newValue).Ok? ==> items == SyncItems(newValue).value
      ensures !(key == STORAGE_KEY && SyncItems(newValue).Ok?) ==> items == old(items)
    {
      if key == STORAGE_KEY {
        stored := newValue;
        var r := SyncItems(newValue);
        if r.Ok? && r.value != items {
          locked := true;
          Commit(r.value, selectedId);
        }
        locked := false;
      }
    }
  }

  /** A record the stores keep: an object with a non-empty string id and a
      list of stored tags. */
  predicate IsKeptRecord(p: Val) {
    p.Obj? && "id" in p.fields && p.fields["id"].Str? && p.fields["id"].s != ""
    && "tags" in p.fields && IsStoredTagList(p.fields["tags"])
  }

  /** Export leaves kept records as they are. */
  lemma ExportKeepsRecords(items: seq<Val>)
    requires forall i | 0 <= i < |items| :: IsKeptRecord(items[i])
    ensures NormalizeAll(map[], items) == Ok(items)
  {
    forall i | 0 <= i < |items| ensures NormalizeRecord(map[], items[i]) == Ok(items[i]) {
      NormalizeTagsKeepsStored(items[i].fields["tags"]);
      assert (map[] + items[i].fields)["tags" := items[i].fields["tags"]] == items[i].fields;
    }
    assert NormalizeAll(map[], items).value == items;
  }

  /** The import normalisation of one kept record keeps every field. */
  lemma ImportRecordKeeps(p: Val, freshId: string)
    requires IsKeptRecord(p)
    ensures ImportRecord(p, freshId).Ok?
    ensures Agrees(ImportRecord(p, freshId).value, p, {})
  {
    NormalizeTagsKeepsStored(p.fields["tags"]);
    assert OptProp(p, "tags") == p.fields["tags"];
    assert Or(OptProp(p, "id"), Str(freshId)) == p.fields["id"];
  }

  /** The import normalisation keeps every field of a kept record. */
  lemma ImportKeepsRecords(items: seq<Val>, newId: nat -> string)
    requires forall i | 0 <= i < |items| :: IsKeptRecord(items[i])
    ensures NormalizeImport(items, newId).Ok?
    ensures |NormalizeImport(items, newId).value| == |items|
    ensures forall i | 0 <= i < |items| :: Agrees(NormalizeImport(items, newId).value[i], items[i], {})
  {
    forall i | 0 <= i < |items| ensures ImportRecord(items[i], newId(i)).Ok? && Agrees(ImportRecord(items[i], newId(i)).value, items[i], {}) {
      ImportRecordKeeps(items[i], newId(i));
    }
  }

  /** In replace mode importItems computes ReplaceAll of the normalised list. */
  lemma ImportResultReplace(curr: seq<Val>, payload: Val, newId: nat -> string, now: string)
    requires NormalizeImport(ReadArray(payload), newId).Ok?
    ensures forall i | 0 <= i < |NormalizeImport(ReadArray(payload), newId).value| ::
              NormalizeImport(ReadArray(payload), newId).value[i].Obj?
    ensures ImportResult(curr, payload, Str("replace"), newId, now)
            == Ok(ReplaceAll(NormalizeImport(ReadArray(payload), newId).value, now))
  {
  }

  /** Replace mode keeps, at each position, every field but the stamps, and a
      truthy createdAt. */
  lemma ReplaceAllKeeps(ps: seq<Val>, items: seq<Val>, now: string, i: nat)
    requires forall k | 0 <= k < |ps| :: ps[k].Obj?
    requires |ps| == |items| && i < |items| && Agrees(ps[i], items[i], {})
    ensures Agrees(ReplaceAll(ps, now)[i], items[i], STAMPS)
    ensures "createdAt" in items[i].fields && Truthy(items[i].fields["createdAt"]) ==>
              ReplaceAll(ps, now)[i].fields["createdAt"] == items[i].fields["createdAt"]
  {
  }

  /** Exporting and importing the export in replace mode gives back the same
      records in the same order: every field except order and updatedAt is
      kept, and createdAt too when it is set. */
  lemma ExportImportRoundTrip(items: seq<Val>, curr: seq<Val>, exportedAt: string, newId: nat -> string, now: string)
    requires forall i | 0 <= i < |items| :: IsKeptRecord(items[i])
    ensures ExportPayload(items, exportedAt).Ok?
    ensures var r := ImportResult(curr, ExportPayload(items, exportedAt).value, Str("replace"), newId, now);
            r.Ok? && |r.value| == |items|
            && (forall i | 0 <= i < |items| :: Agrees(r.value[i], items[i], STAMPS))
            && forall i | 0 <= i < |items| && "createdAt" in items[i].fields && Truthy(items[i].fields["createdAt"]) ::
                 r.value[i].fields["createdAt"] == items[i].fields["createdAt"]
  {
    ExportKeepsRecords(items);
    var payload := ExportPayload(items, exportedAt).value;
    assert ReadArray(payload) == items;
    ImportKeepsRecords(items, newId);
    var ps := NormalizeImport(items, newId).value;
    ImportResultReplace(curr, payload, newId, now);
    forall i | 0 <= i < |items|
      ensures Agrees(ReplaceAll(ps, now)[i], items[i], STAMPS)
      ensures "createdAt" in items[i].fields && Truthy(items[i].fields["createdAt"]) ==>
                ReplaceAll(ps, now)[i].fields["createdAt"] == items[i].fields["createdAt"]
    {
      ReplaceAllKeeps(ps, items, now, i);
    }
  }
}
