/** The public page of src/pages/Home.jsx: the loader that installs a shared
    link's data, the tag list, the project filter, the search suggestions,
    and the choice of what a project card shows. The WHATWG URL parser is the
    parameter `parseUrl`, which yields the parts the page reads, and
    JSON.parse is the parameter `parse`. */
module HomePage {
  import opened JsString
  import opened JsValue
  import opened TagNormalizer
  import opened Collection
  import opened UriCodec
  import ProjectsStore
  import ProfileStore
  import ProgressStore

  // ---------------------------------------------------------- share link

  /** The text the loader parses, as the page computes it: the value
      URLSearchParams.get returns, which is already percent-decoded, run
      through decodeURIComponent a second time. None when the link has no
      non-empty `d`. */
  function LinkTextAsWritten(search: string): (r: Option<Res<string>>)
    ensures r.None? <==> LinkText(search).None?
    ensures r.Some? ==> r.value == DecodeURIComponent(LinkText(search).value)
  {
    var d := ParamGet(FormParse(search), "d");
    if d.None? || d.value == "" then None else Some(DecodeURIComponent(d.value))
  }

  /** The text the link carries: the value URLSearchParams.get returns,
      decoded once. */
  function LinkText(search: string): (r: Option<string>)
    ensures r.Some? ==> r.value != "" && ParamGet(FormParse(search), "d") == r
    ensures r.None? ==> ParamGet(FormParse(search), "d") in {None, Some("")}
  {
    var d := ParamGet(FormParse(search), "d");
    if d.None? || d.value == "" then None else Some(d.value)
  }

  /** A share link gives back exactly the JSON text it was built from. */
  lemma ShareLinkRoundTrip(base: string, json: string)
    requires '?' !in base && '#' !in base && json != ""
    ensures LinkText(SearchOf(ShareUrl(base, json))) == Some(json)
  {
    ShareUrlParam(base, json);
  }

  /** As written, the round trip holds for JSON text without `%`. */
  lemma ShareLinkAsWrittenWithoutPercent(base: string, json: string)
    requires '?' !in base && '#' !in base && json != "" && '%' !in json
    ensures LinkTextAsWritten(SearchOf(ShareUrl(base, json))) == Some(Ok(json))
  {
    ShareUrlParam(base, json);
    DecodeWithoutPercent(json);
  }

  /** As written, a `%` in the JSON text that is not followed by two
      hexadecimal digits (a title such as `50%`) makes the second decode
      throw, and the loader installs nothing. */
  lemma ShareLinkAsWrittenLosesPercent(base: string, a: string, b: string)
    requires '?' !in base && '#' !in base && '%' !in a
    requires |b| < 2 || HexValue(b[0]).None? || HexValue(b[1]).None?
    ensures LinkTextAsWritten(SearchOf(ShareUrl(base, a + "%" + b))) == Some(Err)
  {
    ShareUrlParam(base, a + "%" + b);
    DecodeStrayPercent(a, b);
  }

  /** The link published for a project titled `50%`. */
  lemma ShareLinkPercentExample(base: string)
    requires '?' !in base && '#' !in base
    ensures LinkTextAsWritten(SearchOf(ShareUrl(base, "50%"))) == Some(Err)
    ensures LinkText(SearchOf(ShareUrl(base, "50%"))) == Some("50%")
  {
    assert "50%" == "50" + "%" + "";
    ShareLinkAsWrittenLosesPercent(base, "50", "");
    ShareLinkRoundTrip(base, "50%");
  }

  /** The document the loader accepts: the link's text parsed, if it is an
      object or an array. */
  function LinkDocument(search: string, parse: string -> Res<Val>): (r: Option<Val>)
    ensures r.Some? ==> IsObjectLike(r.value)
  {
    var text := LinkText(search);
    if text.None? then None
    else
      var json := parse(text.value);
      if json.Ok? && IsObjectLike(json.value) then Some(json.value) else None
  }

  /** The profile the loader installs: the link's profile with its own
      updatedAt, or `now` when that is falsy. */
  function LinkProfile(json: Val, now: string): (r: Option<map<string, Val>>)
    ensures r.Some? <==> IsObjectLike(OptProp(json, "profile"))
    ensures r.Some? ==> r.value.Keys == Spread(OptProp(json, "profile")).Keys + {"updatedAt"}
    ensures r.Some? ==> r.value["updatedAt"] == Or(OptProp(OptProp(json, "profile"), "updatedAt"), Str(now))
    ensures r.Some? ==> forall k | k in Spread(OptProp(json, "profile")) && k != "updatedAt" ::
                          r.value[k] == Spread(OptProp(json, "profile"))[k]
  {
    var p := OptProp(json, "profile");
    if Truthy(p) && IsObjectLike(p) then Some(Spread(p)["updatedAt" := Or(OptProp(p, "updatedAt"), Str(now))]) else None
  }

  /** A profile read from a link keeps its own non-empty updatedAt. */
  lemma LinkProfileKeepsStamp(json: Val, now: string)
    requires json.Obj? && "profile" in json.fields && json.fields["profile"].Obj?
    requires "updatedAt" in json.fields["profile"].fields && Truthy(json.fields["profile"].fields["updatedAt"])
    ensures LinkProfile(json, now) == Some(json.fields["profile"].fields)
  {
    var m := json.fields["profile"].fields;
    assert m["updatedAt" := m["updatedAt"]] == m;
  }

  /** The share-link loader: the lists are installed as they are, without
      normalisation, each only when it is an array, and the profile replaces
      the current one. Any decode or parse error changes nothing. The link
      text is read with one decode (see LinkTextAsWritten). */
  method LoadShareLink(projects: ProjectsStore.Projects, profile: ProfileStore.Profile,
                       progress: ProgressStore.Progress, search: string, parse: string -> Res<Val>, now: string)
    returns (accepted: bool)
    requires projects.Valid() && profile.Valid() && progress.Valid()
    modifies projects, profile, progress
    ensures projects.Valid() && profile.Valid() && progress.Valid()
    ensures accepted <==> LinkDocument(search, parse).Some?
    ensures !accepted ==> unchanged(projects) && unchanged(profile) && unchanged(progress)
    ensures accepted ==>
              var json := LinkDocument(search, parse).value;
              var ps := OptProp(json, "projects");
              (ps.Arr? ==> projects.projects == ps.elems && projects.selectedId == FirstIdOrNull(ps.elems)
                           && projects.stored == Parsed(ps))
              && (!ps.Arr? ==> unchanged(projects))
    ensures accepted ==>
              var p := LinkProfile(LinkDocument(search, parse).value, now);
              (p.Some? ==> profile.profile == p.value && profile.stored == Parsed(Obj(p.value)))
              && (p.None? ==> unchanged(profile))
    ensures accepted ==>
              var xs := OptProp(LinkDocument(search, parse).value, "progress");
              (xs.Arr? ==> progress.items == xs.elems && progress.selectedId == FirstIdOrNull(xs.elems)
                           && progress.stored == Parsed(xs))
              && (!xs.Arr? ==> unchanged(progress))
  {
    var doc := LinkDocument(search, parse);
    if doc.None? {
      return false;
    }
    var json := doc.value;
    var ps := OptProp(json, "projects");
    if ps.Arr? {
      projects.SetState(ps.elems, FirstIdOrNull(ps.elems));
    }
    var p := LinkProfile(json, now);
    if p.Some? {
      profile.SetState(p.value);
    }
    var xs := OptProp(json, "progress");
    if xs.Arr? {
      progress.SetState(xs.elems, FirstIdOrNull(xs.elems));
    }
    return true;
  }

  // ---------------------------------------------------------- tag list

  /** What `flatMap(p => p.tags || [])` contributes for one record: the
      elements of an array, any other value as one element. */
  function TagsOf(p: Val): (r: Res<seq<Val>>)
    ensures r.Err? <==> Nullish(p)
  {
    var t :- Prop(p, "tags");
    var x := Or(t, Arr([]));
    Ok(if x.Arr? then x.elems else [x])
  }

  function FlatTags(items: seq<Val>): (r: Res<seq<Val>>)
    ensures r.Ok? <==> forall i | 0 <= i < |items| :: !Nullish(items[i])
    decreases |items|
  {
    if |items| == 0 then Ok([])
    else
      var h :- TagsOf(items[0]);
      var t :- FlatTags(items[1..]);
      Ok(h + t)
  }

  /** The position of the first `x` in `s`. */
  function FirstIndex(s: seq<Val>, x: Val): (i: nat)
    requires x in s
    ensures i < |s| && s[i] == x && x !in s[..i]
    decreases |s|
  {
    if s[0] == x then 0
    else
      assert x in s[1..];
      var j := FirstIndex(s[1..], x);
      assert s[..1 + j] == [s[0]] + s[1..][..j];
      1 + j
  }

  lemma FirstIndexUnique(s: seq<Val>, x: Val, i: nat)
    requires i < |s| && s[i] == x && x !in s[..i]
    ensures FirstIndex(s, x) == i
  {
  }

  lemma FirstIndexAppend(s: seq<Val>, t: seq<Val>, x: Val)
    requires x in s
    ensures x in s + t && FirstIndex(s + t, x) == FirstIndex(s, x)
  {
    var i := FirstIndex(s, x);
    assert (s + t)[..i] == s[..i];
    FirstIndexUnique(s + t, x, i);
  }

  /** `Array.from(new Set(s))`: every value once, none lost, none added. */
  function Dedup(s: seq<Val>): (r: seq<Val>)
    ensures forall i, j | 0 <= i < j < |r| :: r[i] != r[j]
    ensures forall x :: x in r <==> x in s
    decreases |s|
  {
    if |s| == 0 then []
    else
      var d := Dedup(s[..|s| - 1]);
      var x := s[|s| - 1];
      assert s == s[..|s| - 1] + [x];
      if x in d then d else d + [x]
  }

  /** The set keeps values in the order of their first occurrence. */
  lemma {:induction false} DedupFirstOccurrence(s: seq<Val>, i: nat, j: nat)
    requires i < j < |Dedup(s)|
    ensures FirstIndex(s, Dedup(s)[i]) < FirstIndex(s, Dedup(s)[j])
    decreases |s|
  {
    var init := s[..|s| - 1];
    var x := s[|s| - 1];
    var d := Dedup(init);
    assert s == init + [x];
    assert Dedup(s) == if x in d then d else d + [x];
    FirstIndexAppend(init, [x], d[i]);
    if j < |d| {
      DedupFirstOccurrence(init, i, j);
      FirstIndexAppend(init, [x], d[j]);
    } else {
      assert x !in init;
      assert s[..|init|] == init;
      FirstIndexUnique(s, x, |init|);
    }
  }

  /** uniqueTags: the tags of the projects, then of the progress items, each once. */
  function UniqueTags(projects: seq<Val>, progress: seq<Val>): (r: Res<seq<Val>>)
    ensures r.Ok? <==> FlatTags(projects).Ok? && FlatTags(progress).Ok?
    ensures r.Ok? ==> forall i, j | 0 <= i < j < |r.value| :: r.value[i] != r.value[j]
    ensures r.Ok? ==> forall x :: x in r.value <==> x in FlatTags(projects).value || x in FlatTags(progress).value
  {
    var a :- FlatTags(projects);
    var b :- FlatTags(progress);
    Ok(Dedup(a + b))
  }

  /** Every project tag comes before every tag that only progress items carry. */
  lemma UniqueTagsProjectsFirst(projects: seq<Val>, progress: seq<Val>, i: nat, j: nat)
    requires UniqueTags(projects, progress).Ok? && i < j < |UniqueTags(projects, progress).value|
    requires UniqueTags(projects, progress).value[j] in FlatTags(projects).value
    ensures UniqueTags(projects, progress).value[i] in FlatTags(projects).value
  {
    var a := FlatTags(projects).value;
    var s := a + FlatTags(progress).value;
    var r := Dedup(s);
    DedupFirstOccurrence(s, i, j);
    FirstIndexAppend(a, FlatTags(progress).value, r[j]);
    var k := FirstIndex(s, r[i]);
    assert s[k] == a[k];
  }

  // ---------------------------------------------------------- filter

  /** `s.replace(/[＃#]/g, '')` */
  function RemoveHashes(s: string): (r: string)
    ensures |r| <= |s|
    ensures forall i | 0 <= i < |r| :: !IsHash(r[i])
    decreases |s|
  {
    if |s| == 0 then "" else (if IsHash(s[0]) then "" else [s[0]]) + RemoveHashes(s[1..])
  }

  /** The search query: trimmed, every hash removed, lower-cased. */
  function Query(raw: string): (q: string)
    ensures forall i | 0 <= i < |q| :: !IsHash(q[i])
  {
    Lower(RemoveHashes(Trim(raw)))
  }

  /** `(v || '').toLowerCase().includes(q)`, which throws unless `v || ''` is a string. */
  function TextHas(v: Val, q: string): (r: Res<bool>)
    ensures r.Ok? <==> Or(v, Str("")).Str?
    ensures r.Ok? ==> r.value == Contains(Lower(Or(v, Str("")).s), q)
  {
    var t := Or(v, Str(""));
    if t.Str? then Ok(Contains(Lower(t.s), q)) else Err
  }

  /** `tags.some(t => t.toLowerCase().includes(q))`, which stops at the first
      match and throws at a non-string before it. */
  function AnyTagHas(tags: seq<Val>, q: string): (r: Res<bool>)
    ensures r == Ok(true) ==> exists i | 0 <= i < |tags| :: tags[i].Str? && Contains(Lower(tags[i].s), q)
    ensures (forall i | 0 <= i < |tags| :: tags[i].Str?) ==>
              r == Ok(exists i | 0 <= i < |tags| :: Contains(Lower(tags[i].s), q))
    decreases |tags|
  {
    if |tags| == 0 then Ok(false)
    else if !tags[0].Str? then Err
    else if Contains(Lower(tags[0].s), q) then Ok(true)
    else
      var r := AnyTagHas(tags[1..], q);
      assert forall i | 1 <= i < |tags| :: tags[i] == tags[1..][i - 1];
      r
  }

  function TagList(p: Val): Res<Val> {
    var t :- Prop(p, "tags");
    Ok(Or(t, Arr([])))
  }

  /** The query test: true for the empty query; otherwise the title, the short
      description or a tag contains it, tried in that order. */
  function QueryMatch(p: Val, q: string): Res<bool> {
    if q == "" then Ok(true)
    else
      var title :- Prop(p, "title");
      var m1 :- TextHas(title, q);
      if m1 then Ok(true)
      else
        // p is not nullish here, so the remaining reads cannot throw
        var m2 :- TextHas(OptProp(p, "descriptionShort"), q);
        if m2 then Ok(true)
        else
          var tags := Or(OptProp(p, "tags"), Arr([]));
          if tags.Arr? then AnyTagHas(tags.elems, q) else Err
  }

  /** The tag test: true without an active tag; otherwise `includes` on the
      tag array (exact membership), or on a tag string (substring). */
  function TagMatch(p: Val, activeTag: string): Res<bool> {
    if activeTag == "" then Ok(true)
    else
      var tags :- TagList(p);
      match tags
      case Arr(a) => Ok(Str(activeTag) in a)
      case Str(s) => Ok(Contains(s, activeTag))
      case _ => Err
  }

  /** Both tests are evaluated, the query test first. */
  function Keep(p: Val, q: string, activeTag: string): Res<bool> {
    var mq :- QueryMatch(p, q);
    var mt :- TagMatch(p, activeTag);
    Ok(mq && mt)
  }

  /** filtered: the projects that pass both tests, in their original order. */
  function Filtered(projects: seq<Val>, query: string, activeTag: string): (r: Res<seq<Val>>)
    ensures r.Ok? <==> forall i | 0 <= i < |projects| :: Keep(projects[i], Query(query), activeTag).Ok?
    ensures r.Ok? ==> IsSubsequence(r.value, projects)
                      && |r.value| == CountTrue(projects, KeepTest(Query(query), activeTag))
    ensures r.Ok? ==> forall x | x in r.value :: Keep(x, Query(query), activeTag) == Ok(true)
    ensures r.Ok? ==> forall i | 0 <= i < |projects| && Keep(projects[i], Query(query), activeTag) == Ok(true) ::
                        projects[i] in r.value
  {
    FilterRes(projects, KeepTest(Query(query), activeTag))
  }

  /** The callback handed to `filter`. */
  function KeepTest(q: string, activeTag: string): Val -> Res<bool> {
    p => Keep(p, q, activeTag)
  }

  /** With an empty query and no active tag every project is shown. */
  lemma NoFilterShowsAll(projects: seq<Val>, query: string)
    requires Query(query) == ""
    ensures Filtered(projects, query, "") == Ok(projects)
  {
    var q := Query(query);
    var keep := KeepTest(q, "");
    forall i | 0 <= i < |projects| ensures keep(projects[i]) == Ok(true) {
      KeepsAllUnfiltered(projects[i], q);
    }
    FilterResAll(projects, keep);
  }

  /** With no query and no active tag a project is kept. */
  lemma KeepsAllUnfiltered(p: Val, q: string)
    requires q == ""
    ensures Keep(p, q, "") == Ok(true)
  {
    assert QueryMatch(p, q) == Ok(true) && TagMatch(p, "") == Ok(true);
  }

  /** A shown project whose tags are an array carries the active tag. */
  lemma FilteredHasActiveTag(projects: seq<Val>, query: string, activeTag: string, x: Val)
    requires activeTag != "" && Filtered(projects, query, activeTag).Ok? && x in Filtered(projects, query, activeTag).value
    requires TagList(x).Ok? && TagList(x).value.Arr?
    ensures Str(activeTag) in TagList(x).value.elems
  {
    KeptHasTag(x, Query(query), activeTag);
  }

  /** A kept project whose tags are an array has the active tag among them. */
  lemma KeptHasTag(p: Val, q: string, activeTag: string)
    requires activeTag != "" && Keep(p, q, activeTag) == Ok(true)
    requires TagList(p).Ok? && TagList(p).value.Arr?
    ensures Str(activeTag) in TagList(p).value.elems
  {
    assert TagMatch(p, activeTag) == Ok(Str(activeTag) in TagList(p).value.elems);
  }

  // ---------------------------------------------------------- suggestions

  datatype Suggestion = TagHit(tag: Val) | TitleHit(title: Val)

  /** `t.toLowerCase().includes(q)` for a tag, which throws unless it is a string. */
  function TagHas(t: Val, q: string): (r: Res<bool>)
    ensures r.Ok? <==> t.Str?
    ensures r == Ok(true) <==> t.Str? && Contains(Lower(t.s), q)
  {
    if t.Str? then Ok(Contains(Lower(t.s), q)) else Err
  }

  function TitleHas(p: Val, q: string): Res<bool> {
    var title :- Prop(p, "title");
    TextHas(title, q)
  }

  /** The matching tags, in the order of the tag list. */
  function TagHits(uniqueTags: seq<Val>, q: string): (r: Res<seq<Val>>)
    ensures r.Ok? <==> forall i | 0 <= i < |uniqueTags| :: uniqueTags[i].Str?
    ensures r.Ok? ==> IsSubsequence(r.value, uniqueTags) && |r.value| == CountTrue(uniqueTags, TagTest(q))
    ensures r.Ok? ==> forall t | t in r.value :: t in uniqueTags && t.Str? && Contains(Lower(t.s), q)
    ensures r.Ok? ==> forall i | 0 <= i < |uniqueTags| && Contains(Lower(uniqueTags[i].s), q) :: uniqueTags[i] in r.value
  {
    FilterRes(uniqueTags, TagTest(q))
  }

  /** The callbacks handed to `filter` for the suggestions. */
  function TagTest(q: string): Val -> Res<bool> {
    t => TagHas(t, q)
  }

  function TitleTest(q: string): Val -> Res<bool> {
    p => TitleHas(p, q)
  }

  /** The suggestion list: the tag hits, then the titles of the item hits. */
  function Hits(tags: seq<Val>, items: seq<Val>): (r: seq<Suggestion>)
    ensures |r| == |tags| + |items|
    ensures forall i | 0 <= i < |r| :: r[i].TagHit? <==> i < |tags|
    ensures forall i | 0 <= i < |tags| :: r[i] == TagHit(tags[i])
    ensures forall i | 0 <= i < |items| :: r[|tags| + i] == TitleHit(OptProp(items[i], "title"))
  {
    seq(|tags|, i requires 0 <= i < |tags| => TagHit(tags[i]))
    + seq(|items|, i requires 0 <= i < |items| => TitleHit(OptProp(items[i], "title")))
  }

  /** suggestions: none for an empty query; otherwise up to six matching
      tags, then the titles of up to six matching projects and progress items. */
  function Suggestions(uniqueTags: seq<Val>, projects: seq<Val>, progress: seq<Val>, query: string)
    : (r: Res<seq<Suggestion>>)
    ensures Query(query) == "" ==> r == Ok([])
    ensures r.Ok? ==> |r.value| <= 12
    ensures r.Ok? ==> forall i, j | 0 <= i < j < |r.value| && r.value[j].TagHit? :: r.value[i].TagHit?
    ensures r.Ok? ==> forall i | 0 <= i < |r.value| && r.value[i].TagHit? ::
                        r.value[i].tag in uniqueTags && r.value[i].tag.Str? && Contains(Lower(r.value[i].tag.s), Query(query))
  {
    var q := Query(query);
    if q == "" then Ok([])
    else
      var tagHits := TagHits(uniqueTags, q);
      var titleHits := FilterRes(projects + progress, TitleTest(q));
      if tagHits.Err? || titleHits.Err? then Err
      else
        var ts := Take(tagHits.value, 6);
        assert forall t | t in ts :: t in uniqueTags && t.Str? && Contains(Lower(t.s), q) by {
          assert forall t | t in ts :: t in tagHits.value;
        }
        HitsShape(ts, Take(titleHits.value, 6), uniqueTags, q);
        Ok(Hits(ts, Take(titleHits.value, 6)))
  }

  /** For a non-empty query the suggestions are the first six matching tags
      (or all of them), then the titles of the first six matching projects
      and progress items (or all of them), in list order. */
  lemma SuggestionsPick(uniqueTags: seq<Val>, projects: seq<Val>, progress: seq<Val>, query: string)
    requires Query(query) != ""
    ensures var r := Suggestions(uniqueTags, projects, progress, query);
            r.Ok? ==> r.value == FirstSix(TagHits(uniqueTags, Query(query)).value,
                                          FilterRes(projects + progress, TitleTest(Query(query))).value)
  {
    SuggestionsUnfold(uniqueTags, projects, progress, query);
  }

  /** For a non-empty query the suggestions fail exactly when a tag is not a
      string or the title test throws on a project or progress item. */
  lemma SuggestionsFail(uniqueTags: seq<Val>, projects: seq<Val>, progress: seq<Val>, query: string)
    requires Query(query) != ""
    ensures Suggestions(uniqueTags, projects, progress, query).Ok? <==>
              (forall i | 0 <= i < |uniqueTags| :: uniqueTags[i].Str?)
              && forall i | 0 <= i < |projects + progress| :: TitleHas((projects + progress)[i], Query(query)).Ok?
  {
    SuggestionsUnfold(uniqueTags, projects, progress, query);
  }

  lemma SuggestionsUnfold(uniqueTags: seq<Val>, projects: seq<Val>, progress: seq<Val>, query: string)
    requires Query(query) != ""
    ensures var tagHits := TagHits(uniqueTags, Query(query));
            var titleHits := FilterRes(projects + progress, TitleTest(Query(query)));
            Suggestions(uniqueTags, projects, progress, query)
              == if tagHits.Ok? && titleHits.Ok? then Ok(FirstSix(tagHits.value, titleHits.value)) else Err
  {
  }

  /** The first six tags (or all of them), then the titles of the first six
      items (or all of them). */
  function FirstSix(tags: seq<Val>, items: seq<Val>): (r: seq<Suggestion>)
    ensures var n := if |tags| < 6 then |tags| else 6;
            var m := if |items| < 6 then |items| else 6;
            |r| == n + m
            && (forall i | 0 <= i < n :: r[i] == TagHit(tags[i]))
            && (forall j | 0 <= j < m :: r[n + j] == TitleHit(OptProp(items[j], "title")))
  {
    var ts := Take(tags, 6);
    var hs := Take(items, 6);
    assert forall i | 0 <= i < |ts| :: ts[i] == tags[i];
    assert forall j | 0 <= j < |hs| :: hs[j] == items[j];
    Hits(ts, hs)
  }

  /** At most six tags and six titles make at most twelve suggestions, the
      tags first, each a matching tag of the list. */
  lemma HitsShape(ts: seq<Val>, items: seq<Val>, uniqueTags: seq<Val>, q: string)
    requires |ts| <= 6 && |items| <= 6
    requires forall t | t in ts :: t in uniqueTags && t.Str? && Contains(Lower(t.s), q)
    ensures var r := Hits(ts, items);
            |r| <= 12
            && (forall i, j | 0 <= i < j < |r| && r[j].TagHit? :: r[i].TagHit?)
            && forall i | 0 <= i < |r| && r[i].TagHit? ::
                 r[i].tag in uniqueTags && r[i].tag.Str? && Contains(Lower(r[i].tag.s), q)
  {
    var r := Hits(ts, items);
    forall i | 0 <= i < |r| && r[i].TagHit?
      ensures r[i].tag in uniqueTags && r[i].tag.Str? && Contains(Lower(r[i].tag.s), q)
    {
      assert r[i].tag == ts[i];
    }
  }

  /** The tag suggestions repeat no tag, since the tag list repeats none. */
  lemma SuggestedTagsDistinct(uniqueTags: seq<Val>, projects: seq<Val>, progress: seq<Val>, query: string, i: nat, j: nat)
    requires forall a, b | 0 <= a < b < |uniqueTags| :: uniqueTags[a] != uniqueTags[b]
    requires Suggestions(uniqueTags, projects, progress, query).Ok?
    requires i < j < |Suggestions(uniqueTags, projects, progress, query).value|
    requires Suggestions(uniqueTags, projects, progress, query).value[j].TagHit?
    ensures Suggestions(uniqueTags, projects, progress, query).value[i] != Suggestions(uniqueTags, projects, progress, query).value[j]
  {
    var q := Query(query);
    SuggestionsUnfold(uniqueTags, projects, progress, query);
    var tagHits := TagHits(uniqueTags, q).value;
    var titleHits := FilterRes(projects + progress, TitleTest(q)).value;
    var s := Suggestions(uniqueTags, projects, progress, query).value;
    assert s == FirstSix(tagHits, titleHits);
    var n := if |tagHits| < 6 then |tagHits| else 6;
    assert j < n;
    assert s[i] == TagHit(tagHits[i]) && s[j] == TagHit(tagHits[j]);
    SubsequenceOfDistinct(tagHits, uniqueTags);
  }

  /** A subsequence of a list without repeats has no repeats. */
  lemma {:induction false} SubsequenceOfDistinct(r: seq<Val>, s: seq<Val>)
    requires IsSubsequence(r, s)
    ensures (forall a, b | 0 <= a < b < |s| :: s[a] != s[b]) ==> forall a, b | 0 <= a < b < |r| :: r[a] != r[b]
    decreases |s|
  {
    if |s| > 0 && forall a, b | 0 <= a < b < |s| :: s[a] != s[b] {
      assert forall a, b | 0 <= a < b < |s[1..]| :: s[1..][a] != s[1..][b] by {
        forall a, b | 0 <= a < b < |s[1..]| ensures s[1..][a] != s[1..][b] {
          assert s[1..][a] == s[a + 1] && s[1..][b] == s[b + 1];
        }
      }
      if |r| > 0 && r[0] == s[0] && IsSubsequence(r[1..], s[1..]) {
        SubsequenceOfDistinct(r[1..], s[1..]);
        SubsequenceMembers(r[1..], s[1..]);
        forall a, b | 0 <= a < b < |r| ensures r[a] != r[b] {
          if a == 0 {
            assert r[b] == r[1..][b - 1];
            assert r[b] in s[1..];
            assert s[0] !in s[1..] by {
              forall k | 0 <= k < |s[1..]| ensures s[1..][k] != s[0] {
                assert s[1..][k] == s[k + 1];
              }
            }
          } else {
            assert r[a] == r[1..][a - 1] && r[b] == r[1..][b - 1];
          }
        }
      } else {
        SubsequenceOfDistinct(r, s[1..]);
      }
    }
  }

  lemma {:induction false} SubsequenceMembers(r: seq<Val>, s: seq<Val>)
    requires IsSubsequence(r, s)
    ensures forall x | x in r :: x in s
    decreases |s|
  {
    if |s| > 0 {
      if |r| > 0 && r[0] == s[0] && IsSubsequence(r[1..], s[1..]) {
        SubsequenceMembers(r[1..], s[1..]);
        assert forall x | x in r :: x == r[0] || x in r[1..];
      } else {
        SubsequenceMembers(r, s[1..]);
      }
    }
  }

  // ---------------------------------------------------------- media

  /** The parts of a parsed URL the page reads. */
  datatype UrlParts = UrlParts(hostname: string, pathname: string, search: string)

  const YOUTUBE_EMBED: string := "https://www.youtube.com/embed/"
  const VIMEO_PLAYER: string := "https://player.vimeo.com/video/"

  /** `s.replace('/', '')`: the first `/` removed. */
  function DropFirstSlash(s: string): (r: string)
    ensures '/' !in s ==> r == s
    ensures |s| > 0 && s[0] == '/' ==> r == s[1..]
    decreases |s|
  {
    if |s| == 0 then ""
    else if s[0] == '/' then s[1..]
    else [s[0]] + DropFirstSlash(s[1..])
  }

  /** `split('/').filter(Boolean)`: the non-empty parts, in order. */
  function Segments(parts: seq<string>): (r: seq<string>)
    ensures IsSubsequence(r, parts) && |r| == CountTrue(parts, NonEmpty)
    ensures forall i | 0 <= i < |r| :: r[i] != "" && r[i] in parts
    ensures forall i | 0 <= i < |parts| && parts[i] != "" :: parts[i] in r
    decreases |parts|
  {
    if |parts| == 0 then []
    else
      var rest := Segments(parts[1..]);
      assert forall i | 1 <= i < |parts| :: parts[i] == parts[1..][i - 1];
      if parts[0] == "" then rest
      else
        assert ([parts[0]] + rest)[1..] == rest;
        [parts[0]] + rest
  }

  /** `Boolean` on a string. */
  function NonEmpty(s: string): Res<bool> {
    Ok(s != "")
  }

  /** getEmbed: the embed address of a YouTube or Vimeo link, chosen by the
      host name containing `youtube.com`, `youtu.be` or `vimeo.com`, in that
      order; None for an empty or unparsable address, or any other host. */
  function GetEmbed(url: Val, parseUrl: string -> Option<UrlParts>): (r: Option<string>)
    ensures !Truthy(url) || parseUrl(ToStr(url)).None? ==> r.None?
    ensures r.Some? ==> var u := parseUrl(ToStr(url)).value;
              (Contains(u.hostname, "youtube.com") || Contains(u.hostname, "youtu.be") || Contains(u.hostname, "vimeo.com"))
    ensures r.Some? && Contains(parseUrl(ToStr(url)).value.hostname, "youtube.com") ==>
              var v := ParamGet(FormParse(parseUrl(ToStr(url)).value.search), "v");
              v.Some? && v.value != "" && r.value == YOUTUBE_EMBED + v.value
    ensures r.Some? && !Contains(parseUrl(ToStr(url)).value.hostname, "youtube.com")
              && Contains(parseUrl(ToStr(url)).value.hostname, "youtu.be") ==>
              r.value == YOUTUBE_EMBED + DropFirstSlash(parseUrl(ToStr(url)).value.pathname)
    ensures r.Some? && !Contains(parseUrl(ToStr(url)).value.hostname, "youtube.com")
              && !Contains(parseUrl(ToStr(url)).value.hostname, "youtu.be") ==>
              exists id | id in Split(parseUrl(ToStr(url)).value.pathname, '/') ::
                id != "" && '/' !in id && r.value == VIMEO_PLAYER + id
  {
    if !Truthy(url) then None
    else
      var u := parseUrl(ToStr(url));
      if u.None? then None
      else if Contains(u.value.hostname, "youtube.com") then
        var v := ParamGet(FormParse(u.value.search), "v");
        if v.None? || v.value == "" then None else Some(YOUTUBE_EMBED + v.value)
      else if Contains(u.value.hostname, "youtu.be") then
        Some(YOUTUBE_EMBED + DropFirstSlash(u.value.pathname))
      else if Contains(u.value.hostname, "vimeo.com") then
        var segs := Segments(Split(u.value.pathname, '/'));
        if |segs| == 0 then None else Some(VIMEO_PLAYER + segs[0])
      else None
  }

  /** Every embed address points at the YouTube embed or the Vimeo player. */
  lemma EmbedTargets(url: Val, parseUrl: string -> Option<UrlParts>)
    requires GetEmbed(url, parseUrl).Some?
    ensures IsPrefix(YOUTUBE_EMBED, GetEmbed(url, parseUrl).value) || IsPrefix(VIMEO_PLAYER, GetEmbed(url, parseUrl).value)
  {
    var r := GetEmbed(url, parseUrl).value;
    var u := parseUrl(ToStr(url)).value;
    if Contains(u.hostname, "youtube.com") || Contains(u.hostname, "youtu.be") {
      assert r[..|YOUTUBE_EMBED|] == YOUTUBE_EMBED;
    } else {
      assert r[..|VIMEO_PLAYER|] == VIMEO_PLAYER;
    }
  }

  const VIDEO_DATA_PREFIX: string := "data:video/"

  /** isVideoDataUrl: a string starting with `data:video/` in any letter case. */
  predicate IsVideoDataUrl(url: Val)
    ensures IsVideoDataUrl(url) <==> url.Str? && |url.s| >= |VIDEO_DATA_PREFIX|
                                     && forall i | 0 <= i < |VIDEO_DATA_PREFIX| :: LowerChar(url.s[i]) == VIDEO_DATA_PREFIX[i]
  {
    url.Str? && |url.s| >= |VIDEO_DATA_PREFIX| && Lower(url.s[..|VIDEO_DATA_PREFIX|]) == VIDEO_DATA_PREFIX
  }

  /** Upper-case letters in the prefix make no difference. */
  lemma VideoDataUrlAnyCase(rest: string)
    ensures IsVideoDataUrl(Str("DATA:Video/" + rest))
  {
    assert ("DATA:Video/" + rest)[..11] == "DATA:Video/";
  }

  /** What a card's thumbnail slot shows. */
  datatype CardMedia = Thumbnail(src: Val) | VideoClip(src: Val) | Embedded(embed: string) | NoMedia

  /** Thumbnail first, then a video data URL, then an embed, then nothing. */
  function MediaOf(p: Val, parseUrl: string -> Option<UrlParts>): (m: CardMedia)
    ensures Truthy(OptProp(p, "thumbnailUrl")) <==> m.Thumbnail?
    ensures m.Thumbnail? ==> m.src == OptProp(p, "thumbnailUrl")
    ensures m.VideoClip? <==> !Truthy(OptProp(p, "thumbnailUrl")) && IsVideoDataUrl(OptProp(p, "mediaUrl"))
    ensures m.VideoClip? ==> m.src == OptProp(p, "mediaUrl")
    ensures m.Embedded? <==> !Truthy(OptProp(p, "thumbnailUrl")) && !IsVideoDataUrl(OptProp(p, "mediaUrl"))
                             && GetEmbed(OptProp(p, "mediaUrl"), parseUrl).Some?
    ensures m.Embedded? ==> GetEmbed(OptProp(p, "mediaUrl"), parseUrl) == Some(m.embed)
  {
    var thumb := OptProp(p, "thumbnailUrl");
    var media := OptProp(p, "mediaUrl");
    if Truthy(thumb) then Thumbnail(thumb)
    else if IsVideoDataUrl(media) then VideoClip(media)
    else
      var e := GetEmbed(media, parseUrl);
      if e.Some? then Embedded(e.value) else NoMedia
  }
}
