/** The record-list operations the projects store and the progress store share:
    tag-list normalisation, per-record normalisation on load and sync, update
    and removal by id, the first-id selection rule, the id dictionary built
    with Object.fromEntries, and reorder by an id list. */
module Collection {
  import opened JsString
  import opened JsValue
  import opened TagNormalizer
  import ListOps

  /** A tag as the stores keep it: a string that is empty or of tag shape. */
  predicate IsStoredTag(v: Val) {
    v.Str? && (v.s == "" || IsTagShape(v.s))
  }

  predicate IsStoredTagList(v: Val) {
    v.Arr? && forall i | 0 <= i < |v.elems| :: IsStoredTag(v.elems[i])
  }

  /** `(tags || []).map(ensureTagDot)`: throws unless the tags are an array or falsy. */
  function NormalizeTags(tags: Val): (r: Res<Val>)
    ensures r.Ok? <==> Or(tags, Arr([])).Arr?
    ensures r.Ok? ==> IsStoredTagList(r.value) && |r.value.elems| == |Or(tags, Arr([])).elems|
    ensures r.Ok? ==> forall i | 0 <= i < |r.value.elems| ::
                        r.value.elems[i].s == EnsureTagDotOf(Or(tags, Arr([])).elems[i])
  {
    var a :- AsArray(Or(tags, Arr([])));
    Ok(Arr(seq(|a|, i requires 0 <= i < |a| => Str(EnsureTagDotOf(a[i])))))
  }

  /** A list of stored tags is left as it is. */
  lemma NormalizeTagsKeepsStored(tags: Val)
    requires IsStoredTagList(tags)
    ensures NormalizeTags(tags) == Ok(tags)
  {
    var a := tags.elems;
    assert Or(tags, Arr([])) == tags;
    var n := NormalizeTags(tags).value;
    forall i | 0 <= i < |a| ensures n.elems[i] == a[i] {
      StoredTagKept(a[i]);
    }
    assert n.elems == a;
  }

  lemma StoredTagKept(v: Val)
    requires IsStoredTag(v)
    ensures EnsureTagDotOf(v) == v.s
  {
    var s := v.s;
    assert ToStr(Or(v, Str(""))) == s;
    EnsureTagDotFixpoint(s);
  }

  /** Normalising tags twice is normalising them once. */
  lemma NormalizeTagsIdempotent(tags: Val)
    requires NormalizeTags(tags).Ok?
    ensures NormalizeTags(NormalizeTags(tags).value) == NormalizeTags(tags)
  {
    NormalizeTagsKeepsStored(NormalizeTags(tags).value);
  }

  /** `{ ...defaults, ...p, tags: (p.tags || []).map(ensureTagDot) }`: the
      record normaliser of the load and sync paths; reading `p.tags` throws on
      a null or undefined record. */
  function NormalizeRecord(defaults: map<string, Val>, p: Val): (r: Res<Val>)
    ensures r.Ok? <==> !Nullish(p) && NormalizeTags(Prop(p, "tags").value).Ok?
    ensures r.Ok? ==> r.value.Obj? && r.value.fields.Keys == defaults.Keys + Spread(p).Keys + {"tags"}
    ensures r.Ok? ==> IsStoredTagList(r.value.fields["tags"])
    ensures r.Ok? ==> NormalizeTags(OptProp(p, "tags")) == Ok(r.value.fields["tags"])
    ensures r.Ok? ==> forall k | k in Spread(p) && k != "tags" :: r.value.fields[k] == Spread(p)[k]
    ensures r.Ok? ==> forall k | k in defaults && k !in Spread(p) && k != "tags" :: r.value.fields[k] == defaults[k]
  {
    var tagsV :- Prop(p, "tags");
    var tags :- NormalizeTags(tagsV);
    Ok(Obj((defaults + Spread(p))["tags" := tags]))
  }

  /** A normalised record is normalised again to itself: what the stores
      persist loads back unchanged. */
  lemma NormalizeRecordIdempotent(defaults: map<string, Val>, p: Val)
    requires NormalizeRecord(defaults, p).Ok?
    ensures NormalizeRecord(defaults, NormalizeRecord(defaults, p).value) == NormalizeRecord(defaults, p)
  {
    var q := NormalizeRecord(defaults, p).value;
    var tags := q.fields["tags"];
    NormalizeTagsKeepsStored(tags);
    assert Prop(q, "tags") == Ok(tags);
    assert (defaults + q.fields)["tags" := tags] == q.fields;
  }

  /** `xs.map(normaliseRecord)` */
  function NormalizeAll(defaults: map<string, Val>, xs: seq<Val>): (r: Res<seq<Val>>)
    ensures r.Ok? <==> forall i | 0 <= i < |xs| :: NormalizeRecord(defaults, xs[i]).Ok?
    ensures r.Ok? ==> |r.value| == |xs|
    ensures r.Ok? ==> forall i | 0 <= i < |xs| :: r.value[i] == NormalizeRecord(defaults, xs[i]).value
  {
    MapRes(xs, p => NormalizeRecord(defaults, p))
  }

  /** A normalised list is normalised again to itself. */
  lemma NormalizeAllIdempotent(defaults: map<string, Val>, xs: seq<Val>)
    requires NormalizeAll(defaults, xs).Ok?
    ensures NormalizeAll(defaults, NormalizeAll(defaults, xs).value) == NormalizeAll(defaults, xs)
  {
    var ys := NormalizeAll(defaults, xs).value;
    forall i | 0 <= i < |ys| ensures NormalizeRecord(defaults, ys[i]) == Ok(ys[i]) {
      NormalizeRecordIdempotent(defaults, xs[i]);
    }
    assert NormalizeAll(defaults, ys).value == ys;
  }

  /** `'tags' in (patch || {})`: the `in` operator throws on a primitive. */
  function HasTagsKey(patch: Val): (r: Res<bool>)
    ensures r.Ok? <==> !Truthy(patch) || IsObjectLike(patch)
    ensures r == Ok(true) <==> patch.Obj? && "tags" in patch.fields
  {
    match Or(patch, Obj(map[]))
    case Obj(m) => Ok("tags" in m)
    case Arr(_) => Ok(false)
    case _ => Err
  }

  /** The patch of updateItem/updateProject, with its tags normalised when it
      has a `tags` key. */
  function NormalizePatch(patch: Val): (r: Res<Val>)
    ensures r.Ok? <==> (!Truthy(patch) || IsObjectLike(patch))
                       && (patch.Obj? && "tags" in patch.fields ==> NormalizeTags(patch.fields["tags"]).Ok?)
    ensures r.Ok? ==> Spread(r.value).Keys == Spread(patch).Keys
    ensures r.Ok? ==> forall k | k in Spread(patch) && k != "tags" :: Spread(r.value)[k] == Spread(patch)[k]
    ensures r.Ok? && patch.Obj? && "tags" in patch.fields ==> IsStoredTagList(Spread(r.value)["tags"])
    ensures r.Ok? && patch.Obj? && "tags" in patch.fields ==> NormalizeTags(patch.fields["tags"]) == Ok(Spread(r.value)["tags"])
    ensures r.Ok? && !(patch.Obj? && "tags" in patch.fields) ==> r.value == patch
  {
    var has :- HasTagsKey(patch);
    if has then
      var tags :- NormalizeTags(patch.fields["tags"]);
      Ok(Obj(patch.fields["tags" := tags]))
    else Ok(patch)
  }

  /** `{ ...p, ...patch, updatedAt: now }` */
  function Merge(p: Val, patch: Val, now: string): (r: Val)
    ensures r.Obj? && r.fields.Keys == Spread(p).Keys + Spread(patch).Keys + {"updatedAt"}
    ensures r.fields["updatedAt"] == Str(now)
    ensures forall k | k in Spread(patch) && k != "updatedAt" :: r.fields[k] == Spread(patch)[k]
    ensures forall k | k in Spread(p) && k !in Spread(patch) && k != "updatedAt" :: r.fields[k] == Spread(p)[k]
  {
    Obj((Spread(p) + Spread(patch))["updatedAt" := Str(now)])
  }

  /** One element of `items.map(p => p.id === id ? merged : p)`. */
  function UpdateOne(p: Val, id: Val, patch: Val, now: string): Res<Val> {
    var pid :- Prop(p, "id");
    Ok(if pid == id then Merge(p, patch, now) else p)
  }

  /** updateItem/updateProject: every record whose id is `id` gets the
      normalised patch and a fresh updatedAt; the others stay as they are. */
  function UpdateById(items: seq<Val>, id: Val, patch: Val, now: string): (r: Res<seq<Val>>)
    ensures r.Ok? <==> NormalizePatch(patch).Ok? && forall i | 0 <= i < |items| :: !Nullish(items[i])
    ensures r.Ok? ==> |r.value| == |items|
    ensures r.Ok? ==> forall i | 0 <= i < |items| && Prop(items[i], "id") != Ok(id) :: r.value[i] == items[i]
    ensures r.Ok? ==> forall i | 0 <= i < |items| && Prop(items[i], "id") == Ok(id) ::
                        r.value[i] == Merge(items[i], NormalizePatch(patch).value, now)
    ensures r.Ok? ==> forall i | 0 <= i < |items| && Prop(items[i], "id") == Ok(id) ::
                        r.value[i].Obj? && "updatedAt" in r.value[i].fields && r.value[i].fields["updatedAt"] == Str(now)
    ensures r.Ok? ==> forall i, k | 0 <= i < |items| && Prop(items[i], "id") == Ok(id)
                        && k in Spread(patch) && k != "tags" && k != "updatedAt" ::
                        r.value[i].Obj? && k in r.value[i].fields && r.value[i].fields[k] == Spread(patch)[k]
    ensures r.Ok? ==> forall i, k | 0 <= i < |items| && Prop(items[i], "id") == Ok(id)
                        && k in Spread(items[i]) && k !in Spread(patch) && k != "updatedAt" ::
                        r.value[i].Obj? && k in r.value[i].fields && r.value[i].fields[k] == Spread(items[i])[k]
    ensures r.Ok? && patch.Obj? && "tags" in patch.fields ==>
              forall i | 0 <= i < |items| && Prop(items[i], "id") == Ok(id) ::
                r.value[i].Obj? && "tags" in r.value[i].fields && IsStoredTagList(r.value[i].fields["tags"])
                && NormalizeTags(patch.fields["tags"]) == Ok(r.value[i].fields["tags"])
    ensures r.Ok? && (forall i | 0 <= i < |items| :: Prop(items[i], "id") != Ok(id)) ==> r.value == items
  {
    var np :- NormalizePatch(patch);
    MapRes(items, p => UpdateOne(p, id, np, now))
  }

  /** The predicate of `items.filter(p => p.id !== id)`. */
  function KeepOther(p: Val, id: Val): Res<bool> {
    var pid :- Prop(p, "id");
    Ok(pid != id)
  }

  /** removeItem/removeProject/removeSelected: the records whose id is not
      `id`, unchanged and in their order; nothing is renumbered. */
  function RemoveById(items: seq<Val>, id: Val): (r: Res<seq<Val>>)
    ensures r.Ok? <==> forall i | 0 <= i < |items| :: !Nullish(items[i])
    ensures r.Ok? ==> IsSubsequence(r.value, items) && |r.value| == CountTrue(items, p => KeepOther(p, id))
    ensures r.Ok? ==> forall x | x in r.value :: x in items && Prop(x, "id") != Ok(id)
    ensures r.Ok? ==> forall i | 0 <= i < |items| && Prop(items[i], "id") != Ok(id) :: items[i] in r.value
    ensures r.Ok? && (forall i | 0 <= i < |items| :: Prop(items[i], "id") != Ok(id)) ==> r.value == items
  {
    FilterRes(items, p => KeepOther(p, id))
  }

  /** Removing the id of a record just appended takes that record away again. */
  lemma RemoveAppended(items: seq<Val>, x: Val, id: Val)
    requires Prop(x, "id") == Ok(id)
    ensures RemoveById(items + [x], id) == RemoveById(items, id)
  {
    FilterResDropLast(items, x, p => KeepOther(p, id));
  }

  /** `list[0]?.id || null` */
  function FirstIdOrNull(list: seq<Val>): (r: Val)
    ensures |list| == 0 ==> r == Null
    ensures r == Null || (|list| > 0 && Truthy(r) && r == OptProp(list[0], "id"))
    ensures |list| > 0 && Truthy(OptProp(list[0], "id")) ==> r == OptProp(list[0], "id")
  {
    Or(if |list| == 0 then Undefined else OptProp(list[0], "id"), Null)
  }

  /** The property key `p.id` becomes when used as an object key. */
  function KeyOf(p: Val): string
    requires !Nullish(p)
  {
    ToStr(Prop(p, "id").value)
  }

  /** An array index as a property key: a canonical decimal numeral below
      2^32 - 1. */
  predicate IsArrayIndex(k: string) {
    IndexKey(k).Some? && IndexKey(k).value < 0xFFFF_FFFF
  }

  /** The sort key of a property key among the array indices. */
  function IndexOrder(k: string): int {
    if IsArrayIndex(k) then IndexKey(k).value else 0
  }

  /** The array-index keys of `ks`, in their order. */
  function IndexKeysOf(ks: seq<string>): (r: seq<string>)
    ensures forall i | 0 <= i < |r| :: IsArrayIndex(r[i])
  {
    if |ks| == 0 then []
    else IndexKeysOf(ks[..|ks| - 1]) + (if IsArrayIndex(ks[|ks| - 1]) then [ks[|ks| - 1]] else [])
  }

  /** The other keys of `ks`, in their order. */
  function OtherKeysOf(ks: seq<string>): (r: seq<string>)
    ensures forall i | 0 <= i < |r| :: !IsArrayIndex(r[i])
  {
    if |ks| == 0 then []
    else OtherKeysOf(ks[..|ks| - 1]) + (if IsArrayIndex(ks[|ks| - 1]) then [] else [ks[|ks| - 1]])
  }

  /** Splitting a key list into its array indices and the rest loses no key. */
  lemma {:induction false} SplitKeysOf(ks: seq<string>)
    ensures multiset(IndexKeysOf(ks)) + multiset(OtherKeysOf(ks)) == multiset(ks)
    decreases |ks|
  {
    if |ks| > 0 {
      var init := ks[..|ks| - 1];
      SplitKeysOf(init);
      assert ks == init + [ks[|ks| - 1]];
    }
  }

  lemma {:induction false} OtherKeysOfConcat(a: seq<string>, b: seq<string>)
    ensures OtherKeysOf(a + b) == OtherKeysOf(a) + OtherKeysOf(b)
    decreases |b|
  {
    if |b| == 0 {
      assert a + b == a;
    } else {
      var init := b[..|b| - 1];
      assert (a + b)[..|a + b| - 1] == a + init;
      assert (a + b)[|a + b| - 1] == b[|b| - 1];
      OtherKeysOfConcat(a, init);
    }
  }

  lemma {:induction false} OtherKeysOfIndices(a: seq<string>)
    requires forall i | 0 <= i < |a| :: IsArrayIndex(a[i])
    ensures OtherKeysOf(a) == []
    decreases |a|
  {
    if |a| > 0 {
      OtherKeysOfIndices(a[..|a| - 1]);
    }
  }

  lemma {:induction false} OtherKeysOfOthers(b: seq<string>)
    requires forall i | 0 <= i < |b| :: !IsArrayIndex(b[i])
    ensures OtherKeysOf(b) == b
    decreases |b|
  {
    if |b| > 0 {
      OtherKeysOfOthers(b[..|b| - 1]);
    }
  }

  lemma {:induction false} IndexKeysOfOthers(b: seq<string>)
    requires forall i | 0 <= i < |b| :: !IsArrayIndex(b[i])
    ensures IndexKeysOf(b) == []
    decreases |b|
  {
    if |b| > 0 {
      IndexKeysOfOthers(b[..|b| - 1]);
    }
  }

  /** The array indices come first, in ascending numeric order. */
  predicate IndicesFirst(r: seq<string>) {
    forall i, j | 0 <= i < j < |r| && IsArrayIndex(r[j]) ::
      IsArrayIndex(r[i]) && IndexKey(r[i]).value <= IndexKey(r[j]).value
  }

  /** Sorting the array indices of a key list keeps them array indices, ascending. */
  lemma SortedIndices(ks: seq<string>)
    requires forall i | 0 <= i < |ks| :: IsArrayIndex(ks[i])
    ensures var a := ListOps.SortBy(ks, IndexOrder);
            (forall i | 0 <= i < |a| :: IsArrayIndex(a[i])) && IndicesFirst(a)
  {
    var a := ListOps.SortBy(ks, IndexOrder);
    forall i | 0 <= i < |a| ensures IsArrayIndex(a[i]) {
      assert a[i] in multiset(ks);
    }
  }

  /** Sorted array indices followed by other keys put the indices first and
      keep the other keys as they were. */
  lemma IndicesThenOthers(a: seq<string>, b: seq<string>)
    requires (forall i | 0 <= i < |a| :: IsArrayIndex(a[i])) && IndicesFirst(a)
    requires forall i | 0 <= i < |b| :: !IsArrayIndex(b[i])
    ensures IndicesFirst(a + b)
    ensures OtherKeysOf(a + b) == b
  {
    var r := a + b;
    forall i, j | 0 <= i < j < |r| && IsArrayIndex(r[j])
      ensures IsArrayIndex(r[i]) && IndexKey(r[i]).value <= IndexKey(r[j]).value
    {
      if j < |a| {
        assert r[i] == a[i] && r[j] == a[j];
      }
    }
    OtherKeysOfConcat(a, b);
    OtherKeysOfIndices(a);
    OtherKeysOfOthers(b);
    assert [] + b == b;
  }

  /** A permutation of the keys of a valid dictionary names only present keys
      and has as many entries. */
  lemma KeysOfPermutation(ks: seq<string>, keys: seq<string>, vals: map<string, Val>)
    requires multiset(ks) == multiset(keys)
    requires (forall k | k in keys :: k in vals) && (forall k | k in vals :: k in keys)
    ensures |ks| == |keys|
    ensures forall i | 0 <= i < |ks| :: ks[i] in vals
    ensures forall k | k in vals :: k in ks
  {
    assert |multiset(ks)| == |multiset(keys)|;
    forall i | 0 <= i < |ks| ensures ks[i] in vals {
      assert ks[i] in multiset(keys);
    }
    forall k | k in vals ensures k in ks {
      assert k in multiset(keys);
    }
  }

  /** `ks.map(k => vals[k])` */
  function ReadAll(ks: seq<string>, vals: map<string, Val>): (r: seq<Val>)
    requires forall i | 0 <= i < |ks| :: ks[i] in vals
    ensures |r| == |ks| && forall i | 0 <= i < |ks| :: r[i] == vals[ks[i]]
  {
    seq(|ks|, i requires 0 <= i < |ks| => vals[ks[i]])
  }

  /** Reading every key of a list that names every key of a map reads every value. */
  lemma ValuesCover(ks: seq<string>, vals: map<string, Val>, r: seq<Val>)
    requires forall k | k in vals :: k in ks
    requires |r| == |ks| && forall i | 0 <= i < |ks| :: ks[i] in vals && r[i] == vals[ks[i]]
    ensures forall k | k in vals :: vals[k] in r
  {
    forall k | k in vals ensures vals[k] in r {
      var i :| 0 <= i < |ks| && ks[i] == k;
      assert r[i] == vals[k];
    }
  }

  /** A plain object: its keys in creation order, and its values. */
  datatype Dict = Dict(keys: seq<string>, vals: map<string, Val>)
  {
    predicate Valid() {
      (forall i, j | 0 <= i < j < |keys| :: keys[i] != keys[j])
      && (forall k | k in vals :: k in keys) && (forall k | k in keys :: k in vals)
    }

    /** `obj[k] = v`: a new key is created last, an existing one keeps its place. */
    function Put(k: string, v: Val): (d: Dict)
      requires Valid()
      ensures d.Valid()
      ensures d.vals == vals[k := v]
      ensures d.keys == (if k in vals then keys else keys + [k])
    {
      if k in vals then Dict(keys, vals[k := v]) else Dict(keys + [k], vals[k := v])
    }

    /** The order in which Object.keys and Object.values enumerate the keys
        (OrdinaryOwnPropertyKeys, section 10.1.11.1 of ECMA-262): the array
        indices in ascending numeric order, then the other keys in creation order. */
    function OwnKeys(): (r: seq<string>)
      requires Valid()
      ensures multiset(r) == multiset(keys) && |r| == |keys|
      ensures IndicesFirst(r)
      ensures OtherKeysOf(r) == OtherKeysOf(keys)
    {
      var a := ListOps.SortBy(IndexKeysOf(keys), IndexOrder);
      var b := OtherKeysOf(keys);
      SplitKeysOf(keys);
      SortedIndices(IndexKeysOf(keys));
      IndicesThenOthers(a, b);
      assert |multiset(a + b)| == |multiset(keys)|;
      a + b
    }

    /** The enumeration order is the sorted array indices followed by the
        other keys. */
    lemma OwnKeysSplit()
      requires Valid()
      ensures OwnKeys() == ListOps.SortBy(IndexKeysOf(keys), IndexOrder) + OtherKeysOf(keys)
    {
    }

    /** Without array-index keys the enumeration order is the creation order. */
    lemma OwnKeysWithoutIndices()
      requires Valid() && forall i | 0 <= i < |keys| :: !IsArrayIndex(keys[i])
      ensures OwnKeys() == keys
    {
      OwnKeysSplit();
      IndexKeysOfOthers(keys);
      OtherKeysOfOthers(keys);
      assert ListOps.SortBy(IndexKeysOf(keys), IndexOrder) == [];
      assert [] + keys == keys;
    }

    /** Object.values */
    function Values(): (r: seq<Val>)
      requires Valid()
      ensures |r| == |keys|
      ensures forall i | 0 <= i < |r| :: OwnKeys()[i] in vals && r[i] == vals[OwnKeys()[i]]
      ensures forall k | k in vals :: vals[k] in r
    {
      var ks := OwnKeys();
      KeysOfPermutation(ks, keys, vals);
      var r := ReadAll(ks, vals);
      ValuesCover(ks, vals, r);
      r
    }
  }

  /** `Object.fromEntries(items.map(p => [p.id, p]))`: a later record with the
      same key replaces the value and keeps the first position. */
  function ById(items: seq<Val>): (r: Res<Dict>)
    ensures r.Ok? <==> forall i | 0 <= i < |items| :: !Nullish(items[i])
    ensures r.Ok? ==> r.value.Valid()
  {
    if |items| == 0 then Ok(Dict([], map[]))
    else
      var init, p := items[..|items| - 1], items[|items| - 1];
      assert forall i | 0 <= i < |init| :: init[i] == items[i];
      var d :- ById(init);
      if Nullish(p) then Err
      else Ok(d.Put(KeyOf(p), p))
  }

  /** Every record's key is a key of the dictionary ... */
  lemma {:induction false} ByIdHasKey(items: seq<Val>, i: nat)
    requires ById(items).Ok? && i < |items|
    ensures KeyOf(items[i]) in ById(items).value.vals
    decreases |items|
  {
    var init := items[..|items| - 1];
    var p := items[|items| - 1];
    assert ById(items).value.vals == ById(init).value.vals[KeyOf(p) := p];
    if i < |init| {
      assert init[i] == items[i];
      ByIdHasKey(init, i);
    }
  }

  /** ... and the dictionary has no other key. */
  lemma {:induction false} ByIdOnlyKeys(items: seq<Val>)
    requires ById(items).Ok?
    ensures forall k | k in ById(items).value.vals :: exists i | 0 <= i < |items| :: KeyOf(items[i]) == k
    decreases |items|
  {
    if |items| > 0 {
      var init := items[..|items| - 1];
      ByIdOnlyKeys(init);
      var p := items[|items| - 1];
      var vals := ById(items).value.vals;
      assert vals == ById(init).value.vals[KeyOf(p) := p];
      forall k | k in vals ensures exists i | 0 <= i < |items| :: KeyOf(items[i]) == k {
        if k != KeyOf(p) {
          var i :| 0 <= i < |init| && KeyOf(init[i]) == k;
          assert init[i] == items[i];
        }
      }
    }
  }

  /** The value under a record's key is that record when no later record shares the key. */
  lemma {:induction false} ByIdLast(items: seq<Val>, j: nat)
    requires ById(items).Ok? && j < |items|
    requires forall i | j < i < |items| :: KeyOf(items[i]) != KeyOf(items[j])
    ensures KeyOf(items[j]) in ById(items).value.vals && ById(items).value.vals[KeyOf(items[j])] == items[j]
    decreases |items|
  {
    if j < |items| - 1 {
      var init := items[..|items| - 1];
      assert init[j] == items[j];
      assert forall i | j < i < |init| :: init[i] == items[i];
      ByIdLast(init, j);
    }
  }

  /** reorder: `idsInOrder.map((id, idx) => ({ ...byId[id], order: idx }))`. */
  function Reorder(items: seq<Val>, ids: seq<Val>): (r: Res<seq<Val>>)
    ensures r.Ok? <==> forall i | 0 <= i < |items| :: !Nullish(items[i])
    ensures r.Ok? ==> |r.value| == |ids|
    ensures r.Ok? ==> forall i | 0 <= i < |ids| :: r.value[i].Obj? && "order" in r.value[i].fields
    ensures r.Ok? ==> forall i | 0 <= i < |ids| :: r.value[i].fields["order"] == Num(i)
  {
    var byId :- ById(items);
    Ok(seq(|ids|, i requires 0 <= i < |ids| => Obj(Spread(Get(byId.vals, ToStr(ids[i])))["order" := Num(i)])))
  }

  /** A listed id that names a record yields that record with its new order. */
  lemma ReorderPicks(items: seq<Val>, ids: seq<Val>, i: nat, j: nat)
    requires Reorder(items, ids).Ok? && i < |ids| && j < |items| && items[j].Obj?
    requires KeyOf(items[j]) == ToStr(ids[i])
    requires forall j' | j < j' < |items| :: KeyOf(items[j']) != KeyOf(items[j])
    ensures Reorder(items, ids).value[i] == Obj(items[j].fields["order" := Num(i)])
  {
    ByIdLast(items, j);
  }

  /** A listed id that names no record yields a bare `{ order: i }`. */
  lemma ReorderUnknownId(items: seq<Val>, ids: seq<Val>, i: nat)
    requires Reorder(items, ids).Ok? && i < |ids|
    requires forall j | 0 <= j < |items| :: KeyOf(items[j]) != ToStr(ids[i])
    ensures Reorder(items, ids).value[i] == Obj(map["order" := Num(i)])
  {
    ByIdOnlyKeys(items);
    assert ToStr(ids[i]) !in ById(items).value.vals;
  }

  /** The keys of a list of records. */
  function Keys(items: seq<Val>): (r: seq<string>)
    requires forall i | 0 <= i < |items| :: !Nullish(items[i])
    ensures |r| == |items| && forall i | 0 <= i < |items| :: r[i] == KeyOf(items[i])
  {
    seq(|items|, i requires 0 <= i < |items| => KeyOf(items[i]))
  }

  /** The keys an id list names. */
  function IdKeys(ids: seq<Val>): (r: seq<string>)
    ensures |r| == |ids| && forall i | 0 <= i < |ids| :: r[i] == ToStr(ids[i])
  {
    seq(|ids|, i requires 0 <= i < |ids| => ToStr(ids[i]))
  }

  /** When the ids handed to reorder are a permutation of the records' distinct
      ids, reorder drops nothing: every record reappears once, with its new order. */
  lemma ReorderPermutation(items: seq<Val>, ids: seq<Val>)
    requires forall j | 0 <= j < |items| :: items[j].Obj?
    requires forall j, j' | 0 <= j < j' < |items| :: KeyOf(items[j]) != KeyOf(items[j'])
    requires multiset(IdKeys(ids)) == multiset(Keys(items))
    ensures Reorder(items, ids).Ok? && |Reorder(items, ids).value| == |items|
    ensures forall j | 0 <= j < |items| :: exists i | 0 <= i < |ids| ::
              Reorder(items, ids).value[i] == Obj(items[j].fields["order" := Num(i)])
  {
    var ks := Keys(items);
    assert |IdKeys(ids)| == |ks| by {
      calc {
        |IdKeys(ids)|;
        |multiset(IdKeys(ids))|;
        |multiset(ks)|;
        |ks|;
      }
    }
    forall j | 0 <= j < |items|
      ensures exists i | 0 <= i < |ids| :: Reorder(items, ids).value[i] == Obj(items[j].fields["order" := Num(i)])
    {
      assert ks[j] in multiset(IdKeys(ids));
      var i :| 0 <= i < |ids| && IdKeys(ids)[i] == ks[j];
      ReorderPicks(items, ids, i, j);
    }
  }

  /** `5` names an array index; `x` and `y` do not. */
  lemma ExampleIndexKeys()
    ensures IndexKeysOf(["x", "y", "5"]) == ["5"] && OtherKeysOf(["x", "y", "5"]) == ["x", "y"]
    ensures ListOps.SortBy(["5"], IndexOrder) == ["5"]
  {
    NonDigitKeyIsNoIndex("x", 0);
    NonDigitKeyIsNoIndex("y", 0);
    assert "5"[..0] == [];
    var ks := ["x", "y", "5"];
    assert ks[..2] == ["x", "y"] && ks[..2][..1] == ["x"] && ks[..2][..1][..0] == [];
    assert IndexKeysOf(["x"]) == [] && OtherKeysOf(["x"]) == ["x"];
    assert IndexKeysOf(["x", "y"]) == [] && OtherKeysOf(["x", "y"]) == ["x", "y"];
    assert ["5"][..0] == [];
  }

  /** Keys created as `x`, `y`, `5` are enumerated as `5`, `x`, `y`. */
  lemma ExampleOwnKeys(vals: map<string, Val>)
    requires Dict(["x", "y", "5"], vals).Valid()
    ensures Dict(["x", "y", "5"], vals).OwnKeys() == ["5", "x", "y"]
  {
    var d := Dict(["x", "y", "5"], vals);
    assert ListOps.SortBy(IndexKeysOf(d.keys), IndexOrder) + OtherKeysOf(d.keys) == ["5", "x", "y"] by {
      ExampleIndexKeys();
      assert ["5"] + ["x", "y"] == ["5", "x", "y"];
    }
    d.OwnKeysSplit();
  }

  /** `Object.values` of the entries created as `x`, `y`, `5`. */
  lemma ExampleValues(d1: Dict, x: Val, y: Val)
    requires d1.keys == ["x", "y", "5"] && d1.vals.Keys == {"x", "y", "5"}
    requires d1.vals["x"] == x && d1.vals["y"] == y
    ensures d1.Valid() && d1.Values() == [d1.vals["5"], x, y]
  {
    assert d1.Valid();
    ExampleOwnKeys(d1.vals);
    assert d1 == Dict(["x", "y", "5"], d1.vals);
    ValuesOfThree(d1);
  }

  /** The values of a dictionary with three keys, read in enumeration order. */
  lemma ValuesOfThree(d: Dict)
    requires d.Valid() && |d.keys| == 3
    ensures var ks := d.OwnKeys();
            ks[0] in d.vals && ks[1] in d.vals && ks[2] in d.vals
            && d.Values() == [d.vals[ks[0]], d.vals[ks[1]], d.vals[ks[2]]]
  {
    var vs := d.Values();
    assert vs[0] == d.vals[d.OwnKeys()[0]] && vs[1] == d.vals[d.OwnKeys()[1]] && vs[2] == d.vals[d.OwnKeys()[2]];
  }

}
