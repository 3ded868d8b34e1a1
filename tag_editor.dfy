/** The tag editor that src/components/editor/CardForm.jsx and
    src/components/editor/ProgressForm.jsx share line for line: the
    suggestions offered while a tag is typed, and the new tag list that
    adding, editing or deleting a tag hands to the store's update. A tag
    list is the record's `tags` value, read as `tags || []`. */
module TagEditor {
  import opened JsString
  import opened JsValue
  import opened TagNormalizer
  import HomePage

  /** allTags: the tags of all projects, then of all progress items, each
      once, in first-occurrence order (the same list as the home page's). */
  function AllTags(projects: seq<Val>, progress: seq<Val>): (r: Res<seq<Val>>)
    ensures r.Ok? <==> (forall i | 0 <= i < |projects| :: !Nullish(projects[i]))
                       && (forall i | 0 <= i < |progress| :: !Nullish(progress[i]))
    ensures r.Ok? ==> forall i, j | 0 <= i < j < |r.value| :: r.value[i] != r.value[j]
  {
    HomePage.UniqueTags(projects, progress)
  }

  /** `normalizeBase(tagText).toLowerCase()` */
  function TagQuery(tagText: string): string {
    Lower(NormalizeBase(Str(tagText)))
  }

  /** A tag matches the query when its base, lower-cased, contains it. */
  predicate Matches(t: Val, q: string) {
    Contains(Lower(NormalizeBase(t)), q)
  }

  /** `new Set((card?.tags || []).map(ensureTagDot))`, which throws when the
      tag value is neither falsy nor an array. */
  function CardTags(card: Val): (r: Res<seq<string>>)
    ensures r.Ok? <==> Or(OptProp(card, "tags"), Arr([])).Arr?
    ensures r.Ok? ==> var tags := Or(OptProp(card, "tags"), Arr([])).elems;
              |r.value| == |tags| && forall i | 0 <= i < |tags| :: r.value[i] == FormEnsureTagDotOf(tags[i])
  {
    var tags :- AsArray(Or(OptProp(card, "tags"), Arr([])));
    Ok(seq(|tags|, i requires 0 <= i < |tags| => FormEnsureTagDotOf(tags[i])))
  }

  /** The two filters of tagSuggestions, matching the query and not already
      on the card, taken together (neither can throw). */
  predicate Suggestible(t: Val, q: string, onCard: seq<string>) {
    Matches(t, q) && FormEnsureTagDotOf(t) !in onCard
  }

  /** `s.filter(keep)` for a test that cannot throw. */
  function Select(s: seq<Val>, keep: Val -> bool): (r: seq<Val>)
    ensures forall x :: x in r <==> x in s && keep(x)
    ensures IsSubsequence(r, s)
    ensures (forall i, j | 0 <= i < j < |s| :: s[i] != s[j]) ==>
              forall i, j | 0 <= i < j < |r| :: r[i] != r[j]
    decreases |s|
  {
    if |s| == 0 then []
    else
      var rest := Select(s[1..], keep);
      assert forall x | x in s :: x == s[0] || x in s[1..];
      if keep(s[0]) then
        var r := [s[0]] + rest;
        assert r[1..] == rest;
        assert (forall i, j | 0 <= i < j < |s| :: s[i] != s[j]) ==> s[0] !in s[1..];
        r
      else rest
  }

  /** The suggestible tags, in the order of the tag list. */
  function Candidates(tags: seq<Val>, q: string, onCard: seq<string>): seq<Val> {
    Select(tags, t => Suggestible(t, q, onCard))
  }

  /** tagSuggestions for the query `q`: nothing for an empty query;
      otherwise the first six tags of the list whose base contains the query,
      leaving out those the card already carries (compared after normalising
      both sides). */
  function Suggest(allTags: seq<Val>, card: Val, q: string): (r: Res<seq<Val>>)
    ensures q == "" ==> r == Ok([])
    ensures r.Ok? <==> q == "" || CardTags(card).Ok?
    ensures r.Ok? ==> |r.value| <= 6
    ensures r.Ok? && q != "" ==>
              var cands := Candidates(allTags, q, CardTags(card).value);
              |r.value| <= |cands| && r.value == cands[..|r.value|] && (|r.value| == 6 || r.value == cands)
    ensures r.Ok? ==> forall t | t in r.value :: t in allTags && Matches(t, q)
    ensures r.Ok? && q != "" ==> forall t | t in r.value :: FormEnsureTagDotOf(t) !in CardTags(card).value
  {
    if q == "" then Ok([])
    else
      var onCard :- CardTags(card);
      var cands := Candidates(allTags, q, onCard);
      var r := Take(cands, 6);
      assert forall t | t in r :: t in cands;
      Ok(r)
  }

  /** tagSuggestions as the forms compute it from the typed text. */
  function TagSuggestions(allTags: seq<Val>, card: Val, tagText: string): Res<seq<Val>> {
    Suggest(allTags, card, TagQuery(tagText))
  }

  /** With a tag list that repeats nothing, no suggestion is offered twice,
      and fewer than six suggestions means every suggestible tag is offered. */
  lemma SuggestionsComplete(projects: seq<Val>, progress: seq<Val>, card: Val, q: string)
    requires AllTags(projects, progress).Ok?
    requires Suggest(AllTags(projects, progress).value, card, q).Ok?
    ensures var r := Suggest(AllTags(projects, progress).value, card, q).value;
            (forall i, j | 0 <= i < j < |r| :: r[i] != r[j])
            && (|r| < 6 && q != "" ==>
                  forall t | t in AllTags(projects, progress).value && Suggestible(t, q, CardTags(card).value) :: t in r)
  {
    var tags := AllTags(projects, progress).value;
    if q != "" {
      var cands := Candidates(tags, q, CardTags(card).value);
      assert forall t | t in tags && Suggestible(t, q, CardTags(card).value) :: t in cands;
      PrefixOfDistinct(cands, Suggest(tags, card, q).value);
    }
  }

  /** A prefix of a list without repeats has none, and when it is the whole
      list it holds every element. */
  lemma PrefixOfDistinct(s: seq<Val>, r: seq<Val>)
    requires |r| <= |s| && r == s[..|r|] && (|r| == 6 || r == s)
    requires forall i, j | 0 <= i < j < |s| :: s[i] != s[j]
    ensures forall i, j | 0 <= i < j < |r| :: r[i] != r[j]
    ensures |r| < 6 ==> forall t | t in s :: t in r
  {
  }

  /** The tag a typed text becomes: `ensureTagDot(text.replace(/^[#＃]+/, '').trim())`. */
  function NewTag(text: string): (r: string)
    ensures r != "" ==> EndsInOneDot(r) && !IsHash(r[0])
  {
    FormEnsureTagDot(Trim(DropLeadingHashes(text)))
  }

  /** A new tag that does not start with white space is one the store's own
      normaliser leaves as it is. */
  lemma NewTagIsStored(text: string)
    requires NewTag(text) == "" || !IsSpace(NewTag(text)[0])
    ensures EnsureTagDot(NewTag(text)) == NewTag(text)
  {
    FormTagIsStoreFixpoint(Trim(DropLeadingHashes(text)));
  }

  /** `(tags || [])` read as a list: an array as it is, a string by its characters. */
  function TagValues(tags: Val): Res<seq<Val>> {
    IterSpread(Or(tags, Arr([])))
  }

  /** The add button once the new tag is known: an empty tag makes no
      update; otherwise the list `[...(tags || []), next]`. */
  function AppendTag(tags: Val, next: string): (r: Option<Res<Val>>)
    ensures r.None? <==> next == ""
    ensures r.Some? ==> (r.value.Ok? <==> TagValues(tags).Ok?)
    ensures r.Some? && r.value.Ok? ==>
              var prev := TagValues(tags).value;
              r.value.value.Arr? && |r.value.value.elems| == |prev| + 1
              && r.value.value.elems[..|prev|] == prev && r.value.value.elems[|prev|] == Str(next)
  {
    if next == "" then None
    else
      Some(var prev :- TagValues(tags); Ok(Arr(prev + [Str(next)])))
  }

  /** The add button. */
  function AddTag(tags: Val, text: string): Option<Res<Val>> {
    AppendTag(tags, NewTag(text))
  }

  /** The edit box starts from the tag without its hashes and trailing dots. */
  function EditStart(t: Val): string {
    DropTrailingDots(DropLeadingHashes(ToStr(Or(t, Str("")))))
  }

  /** `s.map((x, idx) => idx === i ? v : x)` */
  function ReplaceAt(s: seq<Val>, i: nat, v: Val): (r: seq<Val>)
    ensures |r| == |s|
    ensures forall k | 0 <= k < |s| && k != i :: r[k] == s[k]
    ensures i < |s| ==> r[i] == v
  {
    if i < |s| then s[i := v] else s
  }

  /** `s.filter((_, idx) => idx !== i)` */
  function DeleteAt(s: seq<Val>, i: nat): (r: seq<Val>)
    ensures i < |s| ==> |r| == |s| - 1 && r[..i] == s[..i] && r[i..] == s[i + 1..]
    ensures i >= |s| ==> r == s
  {
    if i < |s| then s[..i] + s[i + 1..] else s
  }

  /** The save button once the new tag is known: an empty tag cancels
      without an update; otherwise the list with index `i` replaced by the new
      tag and nothing else changed. */
  function ReplaceTag(tags: Val, i: nat, next: string): (r: Option<Res<Val>>)
    ensures r.None? <==> next == ""
    ensures r.Some? ==> (r.value.Ok? <==> Or(tags, Arr([])).Arr?)
    ensures r.Some? && r.value.Ok? ==> r.value.value == Arr(ReplaceAt(Or(tags, Arr([])).elems, i, Str(next)))
  {
    if next == "" then None
    else
      Some(var prev :- AsArray(Or(tags, Arr([])));
           Ok(Arr(ReplaceAt(prev, i, Str(next)))))
  }

  /** The save button. */
  function EditTag(tags: Val, i: nat, text: string): Option<Res<Val>> {
    ReplaceTag(tags, i, NewTag(text))
  }

  /** The delete buttons: the list without index `i`, the rest in order. */
  function DeleteTag(tags: Val, i: nat): (r: Res<Val>)
    ensures r.Ok? <==> Or(tags, Arr([])).Arr?
    ensures r.Ok? ==> r.value == Arr(DeleteAt(Or(tags, Arr([])).elems, i))
  {
    var prev :- AsArray(Or(tags, Arr([])));
    Ok(Arr(DeleteAt(prev, i)))
  }

  /** Deleting the tag just added gives the list back. */
  lemma DeleteUndoesAdd(tags: seq<Val>, next: string)
    requires next != ""
    ensures AppendTag(Arr(tags), next).Some? && AppendTag(Arr(tags), next).value.Ok?
    ensures DeleteTag(AppendTag(Arr(tags), next).value.value, |tags|) == Ok(Arr(tags))
  {
    var added := tags + [Str(next)];
    assert AppendTag(Arr(tags), next) == Some(Ok(Arr(added)));
    assert DeleteAt(added, |tags|) == added[..|tags|] == tags;
  }

  /** Opening a stored tag for editing and saving it unchanged gives the same
      tag back, for a tag without leading hash and with nothing to trim in
      front of its final dot. */
  lemma EditStartRoundTrip(t: string)
    requires |t| >= 2 && IsTagShape(t) && !IsHash(t[0]) && IsTrimmed(t[..|t| - 1])
    ensures NewTag(EditStart(Str(t))) == t
  {
    var base := t[..|t| - 1];
    assert t == base + ".";
    assert DropLeadingHashes(t) == t;
    DropOneDot(base);
    assert EditStart(Str(t)) == base;
    assert DropLeadingHashes(base) == base;
    TrimOfTrimmed(base);
  }

  /** So saving the edit box of such a tag unchanged leaves the list as it was. */
  lemma EditUnchangedKeepsList(tags: seq<Val>, i: nat)
    requires i < |tags| && tags[i].Str?
    requires var t := tags[i].s; |t| >= 2 && IsTagShape(t) && !IsHash(t[0]) && IsTrimmed(t[..|t| - 1])
    ensures EditTag(Arr(tags), i, EditStart(tags[i])) == Some(Ok(Arr(tags)))
  {
    var t := tags[i].s;
    assert NewTag(EditStart(tags[i])) == t by {
      assert tags[i] == Str(t);
      EditStartRoundTrip(t);
    }
    ReplaceTagSame(tags, i);
  }

  /** Saving a tag as it already is leaves the list as it was. */
  lemma ReplaceTagSame(tags: seq<Val>, i: nat)
    requires i < |tags| && tags[i].Str? && tags[i].s != ""
    ensures ReplaceTag(Arr(tags), i, tags[i].s) == Some(Ok(Arr(tags)))
  {
    assert tags[i] == Str(tags[i].s);
    assert ReplaceAt(tags, i, tags[i]) == tags;
  }
}
