/** The progress list of src/components/ProgressSummary.jsx: the filters a
    page can impose or the list's own filter bar sets, the filtered list in
    `order`, and the suggestions offered while a query is typed. The status,
    percent, bar and due-date words are the module ProgressView. */
module ProgressSummary {
  import opened JsString
  import opened JsValue
  import opened ListOps
  import HomePage

  /** `prop ?? local` for a filter: a filter the page passes wins, even the
      empty string; only a missing one (null or undefined) falls back to the
      list's own. */
  function Effective(prop: Option<string>, local: string): (r: string)
    ensures prop.Some? ==> r == prop.value
    ensures prop.None? ==> r == local
  {
    if prop.Some? then prop.value else local
  }

  /** `(query || '').trim().toLowerCase()` */
  function SummaryQuery(query: string): string {
    Lower(Trim(query))
  }

  /** `p.status === status` */
  function StatusTest(p: Val, status: string): (r: Res<bool>)
    ensures r.Ok? <==> !Nullish(p)
    ensures r == Ok(true) <==> !Nullish(p) && OptProp(p, "status") == Str(status)
  {
    var s :- Prop(p, "status");
    Ok(s == Str(status))
  }

  /** The string each element becomes in `join`. */
  function Texts(parts: seq<Val>): (r: seq<string>)
    ensures |r| == |parts| && forall i | 0 <= i < |parts| :: r[i] == Text(parts[i])
  {
    seq(|parts|, i requires 0 <= i < |parts| => Text(parts[i]))
  }

  /** `[...].join(' ')`, null and undefined as the empty string: the texts
      of the parts with one space between neighbours, so each part's text
      occurs in it. */
  function JoinText(parts: seq<Val>): (r: string)
    ensures |parts| == 0 ==> r == ""
    ensures |parts| > 0 ==> r == Join(Texts(parts), ' ')
    ensures forall i | 0 <= i < |parts| :: |Text(parts[i])| <= |r| && Contains(r, Text(parts[i]))
    decreases |parts|
  {
    if |parts| == 0 then ""
    else
      var r := if |parts| == 1 then Text(parts[0]) else Text(parts[0]) + " " + JoinText(parts[1..]);
      assert |parts| > 1 ==> Texts(parts)[1..] == Texts(parts[1..]);
      assert forall i | 0 <= i < |parts| :: Contains(r, Text(parts[i])) by {
        forall i | 0 <= i < |parts| ensures Contains(r, Text(parts[i])) {
          JoinHasPart(Texts(parts), ' ', i);
        }
      }
      r
  }

  /** The parts of an item's searchable text: title, short and full
      description (each `|| ''`), then the elements of its tags, which are
      spread, so a tag value that is not iterable throws. */
  function SearchParts(p: Val): (r: Res<seq<Val>>)
    ensures r.Ok? <==> !Nullish(p) && IterSpread(Or(OptProp(p, "tags"), Arr([]))).Ok?
    ensures r.Ok? ==> |r.value| >= 3 && r.value[0] == Or(OptProp(p, "title"), Str(""))
                      && r.value[1] == Or(OptProp(p, "descriptionShort"), Str(""))
                      && r.value[2] == Or(OptProp(p, "descriptionFull"), Str(""))
                      && r.value[3..] == IterSpread(Or(OptProp(p, "tags"), Arr([]))).value
  {
    var title :- Prop(p, "title");
    var tags :- IterSpread(Or(OptProp(p, "tags"), Arr([])));
    var r := [Or(title, Str("")), Or(OptProp(p, "descriptionShort"), Str("")),
              Or(OptProp(p, "descriptionFull"), Str(""))] + tags;
    assert r[3..] == tags;
    Ok(r)
  }

  /** The searchable text of an item: its parts joined by spaces and
      lower-cased, so it holds the lower-cased text of every part. */
  function SearchText(p: Val): (r: Res<string>)
    ensures r.Ok? <==> !Nullish(p) && IterSpread(Or(OptProp(p, "tags"), Arr([]))).Ok?
    ensures r.Ok? ==> r.value == Lower(JoinText(SearchParts(p).value))
    ensures r.Ok? ==> forall i | 0 <= i < |SearchParts(p).value| ::
                        Contains(r.value, Lower(Text(SearchParts(p).value[i])))
  {
    var parts :- SearchParts(p);
    var t := JoinText(parts);
    assert forall i | 0 <= i < |parts| :: Contains(Lower(t), Lower(Text(parts[i]))) by {
      forall i | 0 <= i < |parts| ensures Contains(Lower(t), Lower(Text(parts[i]))) {
        LowerContains(t, Text(parts[i]));
      }
    }
    Ok(Lower(t))
  }

  function QueryTest(p: Val, q: string): Res<bool> {
    var t :- SearchText(p);
    Ok(Contains(t, q))
  }

  /** An item passes every active filter: the status, the tag (exact
      membership of a tag array) and the query. */
  predicate Shown(p: Val, status: string, tag: string, q: string) {
    (status == "" || StatusTest(p, status) == Ok(true))
    && HomePage.TagMatch(p, tag) == Ok(true)
    && (q == "" || QueryTest(p, q) == Ok(true))
  }

  /** The elements that are not undefined, in order. */
  function DefinedPart(s: seq<Val>): (r: seq<Val>)
    ensures forall i | 0 <= i < |r| :: !r[i].Undefined?
    ensures (forall i | 0 <= i < |s| :: !s[i].Undefined?) ==> r == s
  {
    if |s| == 0 then []
    else if s[0].Undefined? then DefinedPart(s[1..])
    else [s[0]] + DefinedPart(s[1..])
  }

  /** The undefined elements. */
  function UndefinedPart(s: seq<Val>): (r: seq<Val>)
    ensures forall i | 0 <= i < |r| :: r[i].Undefined?
  {
    if |s| == 0 then []
    else if s[0].Undefined? then [s[0]] + UndefinedPart(s[1..])
    else UndefinedPart(s[1..])
  }

  /** Splitting off the undefined elements loses none and adds none. */
  lemma {:induction false} PartsMultiset(s: seq<Val>)
    ensures multiset(DefinedPart(s)) + multiset(UndefinedPart(s)) == multiset(s)
  {
    if |s| > 0 {
      PartsMultiset(s[1..]);
      assert s == [s[0]] + s[1..];
    }
  }

  /** Sorted by the key, except that undefined elements come last: no defined
      element follows an undefined one. */
  predicate SortedUndefinedLast(s: seq<Val>, key: Val -> int) {
    forall i, j | 0 <= i < j < |s| && !s[j].Undefined? :: !s[i].Undefined? && key(s[i]) <= key(s[j])
  }

  /** Array.prototype.sort with the `order` comparator as the engine runs it:
      undefined elements are moved to the end without being passed to the
      comparator, and the others are sorted stably. */
  function JsSortByOrder(s: seq<Val>): (r: seq<Val>)
    ensures SortedUndefinedLast(r, OrderKey)
    ensures multiset(r) == multiset(s)
    ensures (forall i | 0 <= i < |s| :: !s[i].Undefined?) ==> r == SortByOrder(s)
  {
    var d, u := SortByOrder(DefinedPart(s)), UndefinedPart(s);
    PartsMultiset(s);
    DefinedThenUndefined(DefinedPart(s), d, u);
    d + u
  }

  /** The sorted defined elements followed by undefined ones are sorted with
      the undefined ones last. */
  lemma DefinedThenUndefined(p: seq<Val>, d: seq<Val>, u: seq<Val>)
    requires forall i | 0 <= i < |p| :: !p[i].Undefined?
    requires SortedBy(d, OrderKey) && multiset(d) == multiset(p)
    requires forall i | 0 <= i < |u| :: u[i].Undefined?
    ensures SortedUndefinedLast(d + u, OrderKey)
  {
    forall i | 0 <= i < |d| ensures !d[i].Undefined? {
      assert d[i] in multiset(p);
    }
  }

  /** `base.sort((a, b) => (a.order ?? 0) - (b.order ?? 0))`: undefined
      elements go last without reaching the comparator, and reading `order` of
      a null element throws once two defined elements are compared. */
  function SortItems(base: seq<Val>): (r: Res<seq<Val>>)
    ensures r.Ok? <==> |DefinedPart(base)| < 2 || forall i | 0 <= i < |base| :: !base[i].Null?
    ensures r.Ok? ==> SortedUndefinedLast(r.value, OrderKey) && multiset(r.value) == multiset(base)
    ensures (forall i | 0 <= i < |base| :: !base[i].Undefined?) ==>
              (r.Ok? <==> |base| < 2 || forall i | 0 <= i < |base| :: !Nullish(base[i]))
    ensures (forall i | 0 <= i < |base| :: !base[i].Undefined?) && r.Ok? ==> SortedBy(r.value, OrderKey)
  {
    if |DefinedPart(base)| >= 2 && exists i | 0 <= i < |base| :: base[i].Null? then Err
    else Ok(JsSortByOrder(base))
  }

  /** Without undefined elements the sort is the plain stable sort by `order`,
      and throws exactly when a null element is compared. */
  lemma SortItemsDefined(base: seq<Val>)
    requires forall i | 0 <= i < |base| :: !base[i].Undefined?
    ensures SortItems(base) == if |base| >= 2 && exists i | 0 <= i < |base| :: Nullish(base[i])
                               then Err else Ok(SortByOrder(base))
  {
  }

  /** One filter step, applied only when its filter is active. */
  function Step(base: seq<Val>, active: bool, test: Val -> Res<bool>): (r: Res<seq<Val>>)
    ensures !active ==> r == Ok(base)
    ensures r.Ok? ==> forall x | x in r.value :: x in base && (!active || test(x) == Ok(true))
    ensures r.Ok? ==> forall x | x in base && (!active || test(x) == Ok(true)) :: x in r.value
    ensures r.Ok? && active ==> IsSubsequence(r.value, base) && |r.value| == CountTrue(base, test)
    ensures r.Ok? ==> |r.value| <= |base|
  {
    if !active then Ok(base)
    else
      var r := FilterRes(base, test);
      assert r.Ok? ==> forall x | x in base && test(x) == Ok(true) :: x in r.value by {
        if r.Ok? {
          forall x | x in base && test(x) == Ok(true) ensures x in r.value {
            var i :| 0 <= i < |base| && base[i] == x;
          }
        }
      }
      r
  }

  /** `p => p.status === effectiveStatus` */
  function StatusFilter(status: string): Val -> Res<bool> {
    p => StatusTest(p, status)
  }

  /** `p => (p.tags || []).includes(effectiveTag)` */
  function TagFilter(tag: string): Val -> Res<bool> {
    p => HomePage.TagMatch(p, tag)
  }

  /** `p => text.includes(q)` over the item's searchable text. */
  function QueryFilter(q: string): Val -> Res<bool> {
    p => QueryTest(p, q)
  }

  /** filtered: the items that pass every active filter, none added, none
      lost, sorted by `order` (missing counting as 0). */
  function Filtered(items: seq<Val>, status: string, tag: string, query: string): (r: Res<seq<Val>>)
    ensures r.Ok? ==> SortedUndefinedLast(r.value, OrderKey) && |r.value| <= |items|
    ensures r.Ok? && (forall i | 0 <= i < |items| :: !items[i].Undefined?) ==> SortedBy(r.value, OrderKey)
    ensures r.Ok? ==> forall x | x in r.value :: x in items && Shown(x, status, tag, SummaryQuery(query))
    ensures r.Ok? ==> forall x | x in items && Shown(x, status, tag, SummaryQuery(query)) :: x in r.value
  {
    var q := SummaryQuery(query);
    var a :- Step(items, status != "", StatusFilter(status));
    var b :- Step(a, tag != "", TagFilter(tag));
    var c :- Step(b, q != "", QueryFilter(q));
    var r :- SortItems(c);
    SameMembers(c, r);
    MembersOfMembers(items, a, b, c);
    Ok(r)
  }

  /** Each step keeps only members of the list before it, so no undefined
      element appears that the items did not hold. */
  lemma MembersOfMembers(items: seq<Val>, a: seq<Val>, b: seq<Val>, c: seq<Val>)
    requires forall x | x in a :: x in items
    requires forall x | x in b :: x in a
    requires forall x | x in c :: x in b
    ensures (forall i | 0 <= i < |items| :: !items[i].Undefined?) ==> forall i | 0 <= i < |c| :: !c[i].Undefined?
  {
    forall i | 0 <= i < |c| ensures c[i] in items {
      assert c[i] in b && c[i] in a;
    }
  }

  /** Lists with the same multiset have the same members. */
  lemma SameMembers(c: seq<Val>, r: seq<Val>)
    requires multiset(r) == multiset(c)
    ensures |r| == |c| && forall x :: x in r <==> x in c
  {
    assert |r| == |multiset(r)|;
    forall x ensures x in r <==> x in c {
      assert x in r <==> x in multiset(r);
    }
  }

  /** A filter step keeps each passing item as often as the list holds it,
      and drops every other. */
  lemma StepMultiplicity(base: seq<Val>, active: bool, test: Val -> Res<bool>, x: Val)
    requires Step(base, active, test).Ok?
    ensures multiset(Step(base, active, test).value)[x]
              == if !active || test(x) == Ok(true) then multiset(base)[x] else 0
  {
    if active {
      FilterResMultiplicity(base, test, x);
    }
  }

  /** The shown list holds each item that passes every active filter as
      often as the items do, and no other. */
  lemma FilteredMultiplicity(items: seq<Val>, status: string, tag: string, query: string, x: Val)
    requires Filtered(items, status, tag, query).Ok?
    ensures multiset(Filtered(items, status, tag, query).value)[x]
              == if Shown(x, status, tag, SummaryQuery(query)) then multiset(items)[x] else 0
  {
    var q := SummaryQuery(query);
    var a := Step(items, status != "", StatusFilter(status)).value;
    var b := Step(a, tag != "", TagFilter(tag)).value;
    var c := Step(b, q != "", QueryFilter(q)).value;
    StepMultiplicity(items, status != "", StatusFilter(status), x);
    StepMultiplicity(a, tag != "", TagFilter(tag), x);
    StepMultiplicity(b, q != "", QueryFilter(q), x);
    assert multiset(SortItems(c).value) == multiset(c);
  }

  /** What the filters and the sort must be able to read for the list to be
      shown: every item is read once a filter is active, so none may be null
      or undefined then; without a filter the sort compares the defined items
      once there are two, so none may be null then; the tag test reads the
      tags of each item the status keeps, and the query test spreads the tags
      of each item both keep. */
  predicate ReadsAll(items: seq<Val>, status: string, tag: string, q: string) {
    ((status != "" || tag != "" || q != "") ==>
       forall i | 0 <= i < |items| :: !Nullish(items[i]))
    && (|DefinedPart(items)| >= 2 ==> forall i | 0 <= i < |items| :: !items[i].Null?)
    && (tag != "" ==>
          forall x | x in items && (status == "" || StatusTest(x, status) == Ok(true)) ::
            HomePage.TagMatch(x, tag).Ok?)
    && (q != "" ==>
          forall x | x in items && (status == "" || StatusTest(x, status) == Ok(true))
                     && HomePage.TagMatch(x, tag) == Ok(true) ::
            QueryTest(x, q).Ok?)
  }

  /** The list is shown exactly when everything it reads can be read;
      otherwise rendering throws. */
  lemma FilteredOk(items: seq<Val>, status: string, tag: string, query: string)
    ensures Filtered(items, status, tag, query).Ok? <==> ReadsAll(items, status, tag, SummaryQuery(query))
  {
    if Filtered(items, status, tag, query).Ok? {
      FilteredReads(items, status, tag, query);
    }
    if ReadsAll(items, status, tag, SummaryQuery(query)) {
      FilteredRuns(items, status, tag, query);
    }
  }

  lemma FilteredReads(items: seq<Val>, status: string, tag: string, query: string)
    requires Filtered(items, status, tag, query).Ok?
    ensures ReadsAll(items, status, tag, SummaryQuery(query))
  {
    var q := SummaryQuery(query);
    var a := Step(items, status != "", StatusFilter(status)).value;
    var b := Step(a, tag != "", TagFilter(tag)).value;
    var c := Step(b, q != "", QueryFilter(q)).value;
    StepOk(items, status != "", StatusFilter(status));
    StepOk(a, tag != "", TagFilter(tag));
    StepOk(b, q != "", QueryFilter(q));
    if status != "" || tag != "" || q != "" {
      forall i | 0 <= i < |items| ensures !Nullish(items[i]) {
        var x := items[i];
        if Nullish(x) {
          NullFailsTests(x, status, tag, q);
        }
      }
    } else {
      assert c == items;
      FilteredIsSort(items, status, tag, query, a, b, c);
    }
  }

  lemma FilteredRuns(items: seq<Val>, status: string, tag: string, query: string)
    requires ReadsAll(items, status, tag, SummaryQuery(query))
    ensures Filtered(items, status, tag, query).Ok?
  {
    var q := SummaryQuery(query);
    var sa := Step(items, status != "", StatusFilter(status));
    assert sa.Ok? by {
      StepOk(items, status != "", StatusFilter(status));
      if status != "" {
        assert forall i | 0 <= i < |items| :: !Nullish(items[i]);
        forall x | x in items ensures StatusTest(x, status).Ok? {
          var i :| 0 <= i < |items| && items[i] == x;
        }
      }
    }
    var a := sa.value;
    var sb := Step(a, tag != "", TagFilter(tag));
    assert sb.Ok? by {
      StepOk(a, tag != "", TagFilter(tag));
    }
    var b := sb.value;
    var sc := Step(b, q != "", QueryFilter(q));
    assert sc.Ok? by {
      StepOk(b, q != "", QueryFilter(q));
    }
    var c := sc.value;
    assert |DefinedPart(c)| < 2 || forall i | 0 <= i < |c| :: !c[i].Null? by {
      if status == "" && tag == "" && q == "" {
        assert c == items;
      } else {
        forall i | 0 <= i < |c| ensures !c[i].Null? {
          assert c[i] in b && c[i] in a;
          ShownNotNull(c[i], status, tag, q);
        }
      }
    }
    FilteredIsSort(items, status, tag, query, a, b, c);
  }

  /** Once the three steps succeed, the list is the sort of the last step's result. */
  lemma FilteredIsSort(items: seq<Val>, status: string, tag: string, query: string, a: seq<Val>, b: seq<Val>, c: seq<Val>)
    requires Step(items, status != "", StatusFilter(status)) == Ok(a)
    requires Step(a, tag != "", TagFilter(tag)) == Ok(b)
    requires Step(b, SummaryQuery(query) != "", QueryFilter(SummaryQuery(query))) == Ok(c)
    ensures Filtered(items, status, tag, query).Ok? <==> SortItems(c).Ok?
  {
  }

  /** Each active test reads the item, so a null item fails it. */
  lemma NullFailsTests(x: Val, status: string, tag: string, q: string)
    requires Nullish(x)
    ensures StatusTest(x, status).Err?
    ensures tag != "" ==> HomePage.TagMatch(x, tag).Err?
    ensures QueryTest(x, q).Err?
  {
  }

  /** An item that passes an active filter is not null. */
  lemma ShownNotNull(x: Val, status: string, tag: string, q: string)
    requires status != "" || tag != "" || q != ""
    requires (status == "" || StatusTest(x, status) == Ok(true))
             && HomePage.TagMatch(x, tag) == Ok(true)
             && (q == "" || QueryTest(x, q) == Ok(true))
    ensures !Nullish(x)
  {
    if Nullish(x) {
      NullFailsTests(x, status, tag, q);
    }
  }

  /** A step's result is Ok exactly when the test reads every element. */
  lemma StepOk(base: seq<Val>, active: bool, test: Val -> Res<bool>)
    ensures Step(base, active, test).Ok? <==> !active || forall x | x in base :: test(x).Ok?
  {
    if active {
      assert (forall i | 0 <= i < |base| :: test(base[i]).Ok?) <==> forall x | x in base :: test(x).Ok?;
    }
  }

  /** Without any filter the list is every item, sorted by `order`. */
  lemma NoFilterSortsAll(items: seq<Val>, query: string)
    requires SummaryQuery(query) == ""
    ensures Filtered(items, "", "", query) == SortItems(items)
  {
  }

  /** A suggestion names a tag, or the title of an item with its id. */
  datatype Suggestion = TagSuggestion(text: Val) | TitleSuggestion(text: Val, id: Val)

  function TitleSuggestions(items: seq<Val>): (r: seq<Suggestion>)
    ensures |r| == |items|
    ensures forall i | 0 <= i < |items| :: r[i] == TitleSuggestion(OptProp(items[i], "title"), OptProp(items[i], "id"))
  {
    seq(|items|, i requires 0 <= i < |items| => TitleSuggestion(OptProp(items[i], "title"), OptProp(items[i], "id")))
  }

  function TagSuggestions(tags: seq<Val>): (r: seq<Suggestion>)
    ensures |r| == |tags| && forall i | 0 <= i < |tags| :: r[i] == TagSuggestion(tags[i])
  {
    seq(|tags|, i requires 0 <= i < |tags| => TagSuggestion(tags[i]))
  }

  /** The items whose title contains the query, in list order. */
  function TitleHits(items: seq<Val>, q: string): (r: Res<seq<Val>>)
    ensures r.Ok? <==> forall i | 0 <= i < |items| :: HomePage.TitleHas(items[i], q).Ok?
    ensures r.Ok? ==> IsSubsequence(r.value, items) && |r.value| == CountTrue(items, HomePage.TitleTest(q))
    ensures r.Ok? ==> forall p | p in r.value :: HomePage.TitleHas(p, q) == Ok(true)
    ensures r.Ok? ==> forall p | p in items && HomePage.TitleHas(p, q) == Ok(true) :: p in r.value
  {
    var r := FilterRes(items, HomePage.TitleTest(q));
    if r.Ok? then
      assert forall p | p in items && HomePage.TitleHas(p, q) == Ok(true) :: p in r.value by {
        forall p | p in items && HomePage.TitleHas(p, q) == Ok(true) ensures p in r.value {
          var i :| 0 <= i < |items| && items[i] == p;
        }
      }
      r
    else r
  }

  /** The tags of the items (`tags || []` each), once each, that contain the
      query, in the order the set of all tags first met them. */
  function TagHitsOf(items: seq<Val>, q: string): (r: Res<seq<Val>>)
    ensures r.Ok? <==> HomePage.FlatTags(items).Ok? && forall t | t in HomePage.FlatTags(items).value :: t.Str?
    ensures r.Ok? ==> IsSubsequence(r.value, HomePage.Dedup(HomePage.FlatTags(items).value))
    ensures r.Ok? ==> forall i, j | 0 <= i < j < |r.value| :: r.value[i] != r.value[j]
    ensures r.Ok? ==> forall t :: t in r.value <==>
                        t in HomePage.FlatTags(items).value && t.Str? && Contains(Lower(t.s), q)
  {
    var tags :- HomePage.FlatTags(items);
    var d := HomePage.Dedup(tags);
    var r :- HomePage.TagHits(d, q);
    HomePage.SubsequenceOfDistinct(r, d);
    assert forall t | t in tags && t.Str? && Contains(Lower(t.s), q) :: t in r by {
      forall t | t in tags && t.Str? && Contains(Lower(t.s), q) ensures t in r {
        var i :| 0 <= i < |d| && d[i] == t;
      }
    }
    Ok(r)
  }

  /** `[...tagSug, ...titleSug].slice(0, 8)` */
  function Compose(ts: seq<Val>, ps: seq<Val>): (r: seq<Suggestion>)
    requires |ts| <= 5 && |ps| <= 5
    ensures |r| <= 8 && |r| == (if |ts| + |ps| < 8 then |ts| + |ps| else 8)
    ensures forall i | 0 <= i < |r| && i < |ts| :: r[i] == TagSuggestion(ts[i])
    ensures forall i | |ts| <= i < |r| ::
              r[i] == TitleSuggestion(OptProp(ps[i - |ts|], "title"), OptProp(ps[i - |ts|], "id"))
  {
    Take(TagSuggestions(ts) + TitleSuggestions(ps), 8)
  }

  /** suggestions: nothing for an empty query; otherwise up to five tags of
      the items that contain it, then up to five items whose title contains
      it, eight at most in all. */
  function Suggestions(items: seq<Val>, query: string): (r: Res<seq<Suggestion>>)
    ensures SummaryQuery(query) == "" ==> r == Ok([])
    ensures r.Ok? <==> SummaryQuery(query) == ""
                       || (TagHitsOf(items, SummaryQuery(query)).Ok? && TitleHits(items, SummaryQuery(query)).Ok?)
    ensures r.Ok? ==> |r.value| <= 8
    ensures r.Ok? && SummaryQuery(query) != "" ==>
              TagHitsOf(items, SummaryQuery(query)).Ok? && TitleHits(items, SummaryQuery(query)).Ok?
              && r.value == Compose(Take(TagHitsOf(items, SummaryQuery(query)).value, 5),
                                    Take(TitleHits(items, SummaryQuery(query)).value, 5))
  {
    var q := SummaryQuery(query);
    if q == "" then Ok([])
    else
      var tagHits :- TagHitsOf(items, q);
      var titleHits :- TitleHits(items, q);
      Ok(Compose(Take(tagHits, 5), Take(titleHits, 5)))
  }

  /** Tag suggestions come first, at most five of them, each a tag that
      contains the query, none twice. */
  lemma SuggestionsTagsFirst(items: seq<Val>, query: string, i: nat, j: nat)
    requires Suggestions(items, query).Ok? && i < j < |Suggestions(items, query).value|
    ensures Suggestions(items, query).value[j].TagSuggestion? ==> Suggestions(items, query).value[i].TagSuggestion?
    ensures Suggestions(items, query).value[i].TagSuggestion? ==>
              i < 5 && Suggestions(items, query).value[i].text.Str?
              && Contains(Lower(Suggestions(items, query).value[i].text.s), SummaryQuery(query))
    ensures Suggestions(items, query).value[j].TagSuggestion? ==>
              Suggestions(items, query).value[i].text != Suggestions(items, query).value[j].text
  {
    var q := SummaryQuery(query);
    TakenTagHits(items, q);
    ComposeTagsFirst(Take(TagHitsOf(items, q).value, 5), Take(TitleHits(items, q).value, 5), q, i, j);
  }

  /** The first five tag hits are distinct tags that contain the query. */
  lemma TakenTagHits(items: seq<Val>, q: string)
    requires TagHitsOf(items, q).Ok?
    ensures var ts := Take(TagHitsOf(items, q).value, 5);
            (forall k | 0 <= k < |ts| :: ts[k].Str? && Contains(Lower(ts[k].s), q))
            && forall k, l | 0 <= k < l < |ts| :: ts[k] != ts[l]
  {
    var hits := TagHitsOf(items, q).value;
    var ts := Take(hits, 5);
    assert forall k | 0 <= k < |ts| :: ts[k] in hits;
  }

  /** Composed suggestions put distinct matching tags before any title. */
  lemma ComposeTagsFirst(ts: seq<Val>, ps: seq<Val>, q: string, i: nat, j: nat)
    requires |ts| <= 5 && |ps| <= 5 && i < j < |Compose(ts, ps)|
    requires forall k | 0 <= k < |ts| :: ts[k].Str? && Contains(Lower(ts[k].s), q)
    requires forall k, l | 0 <= k < l < |ts| :: ts[k] != ts[l]
    ensures Compose(ts, ps)[j].TagSuggestion? ==> Compose(ts, ps)[i].TagSuggestion?
    ensures Compose(ts, ps)[i].TagSuggestion? ==>
              i < 5 && Compose(ts, ps)[i].text.Str? && Contains(Lower(Compose(ts, ps)[i].text.s), q)
    ensures Compose(ts, ps)[j].TagSuggestion? ==> Compose(ts, ps)[i].text != Compose(ts, ps)[j].text
  {
  }
}
