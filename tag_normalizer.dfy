/** The two tag normalisers of the editor. The stores and the import panel trim a
    tag and replace its trailing run of full-width or half-width dots with one
    half-width dot; the card and progress forms additionally strip leading
    hash signs after trimming. */
module TagNormalizer {
  import opened JsString
  import opened JsValue

  /** The characters of the class `[。．.]`. */
  predicate IsTagDot(c: char) {
    c == '.' || c == '\U{3002}' || c == '\U{FF0E}'
  }

  /** The characters of the class `[#＃]`. */
  predicate IsHash(c: char) {
    c == '#' || c == '\U{FF03}'
  }

  /** `t.replace(/[。．.]+$/, '')` */
  function DropTrailingDots(t: string): (r: string)
    ensures IsPrefix(r, t)
    ensures r == [] || !IsTagDot(r[|r| - 1])
    ensures forall i | |r| <= i < |t| :: IsTagDot(t[i])
  {
    if |t| > 0 && IsTagDot(t[|t| - 1]) then DropTrailingDots(t[..|t| - 1]) else t
  }

  /** `t.replace(/^[#＃]+/, '')` */
  function DropLeadingHashes(t: string): (r: string)
    ensures IsSuffix(r, t)
    ensures r == [] || !IsHash(r[0])
    ensures forall i | 0 <= i < |t| - |r| :: IsHash(t[i])
  {
    if |t| > 0 && IsHash(t[0]) then DropLeadingHashes(t[1..]) else t
  }

  /** Dropping trailing dots from a string that ends in exactly one dot drops that dot. */
  lemma DropOneDot(base: string)
    requires base == [] || !IsTagDot(base[|base| - 1])
    ensures DropTrailingDots(base + ".") == base
  {
    var t := base + ".";
    assert t[..|t| - 1] == base;
  }

  /** The shape of a normalised tag: one final half-width dot, not preceded by
      another dot, and no white space in front. */
  predicate IsTagShape(t: string) {
    EndsInOneDot(t) && !IsSpace(t[0])
  }

  /** One final half-width dot, not preceded by another dot. */
  predicate EndsInOneDot(t: string) {
    |t| >= 1 && t[|t| - 1] == '.' && (|t| == 1 || !IsTagDot(t[|t| - 2]))
  }

  /** ensureTagDot of the stores (progress.js, projects.js) and of the import
      panel, applied to a string: empty for a blank tag, otherwise the trimmed
      tag whose trailing run of dots is replaced by one half-width dot. */
  function EnsureTagDot(s: string): (r: string)
    ensures r == "" <==> Trim(s) == ""
    ensures r != "" ==> IsTagShape(r)
    ensures r != "" ==> IsPrefix(r[..|r| - 1], Trim(s))
                        && forall i | |r| - 1 <= i < |Trim(s)| :: IsTagDot(Trim(s)[i])
  {
    var t := Trim(s);
    if t == "" then ""
    else
      var r := WithOneDot(t);
      assert !IsSpace(r[0]) by {
        assert !IsSpace(t[0]) && !IsSpace('.');
      }
      r
  }

  /** `t.replace(/[。．.]+$/, '') + '.'`: the trailing run of dots, if any,
      becomes one half-width dot. */
  function WithOneDot(t: string): (r: string)
    requires t != ""
    ensures EndsInOneDot(r)
    ensures r[0] == '.' || r[0] == t[0]
    ensures IsPrefix(r[..|r| - 1], t) && forall i | |r| - 1 <= i < |t| :: IsTagDot(t[i])
  {
    var base := DropTrailingDots(t);
    var r := base + ".";
    assert r[..|r| - 1] == base;
    assert base != [] ==> base[0] == t[0];
    r
  }

  /** ensureTagDot applied to any value: `String(v || '')` first. */
  function EnsureTagDotOf(v: Val): string {
    EnsureTagDot(ToStr(Or(v, Str(""))))
  }

  /** The strings the store normaliser leaves unchanged are exactly the empty
      string and the strings of tag shape. */
  lemma EnsureTagDotFixpoint(t: string)
    ensures EnsureTagDot(t) == t <==> t == "" || IsTagShape(t)
  {
    if t != "" && IsTagShape(t) {
      TrimOfTrimmed(t);
      var base := t[..|t| - 1];
      assert t == base + ".";
      DropOneDot(base);
    }
  }

  /** Normalising a normalised tag changes nothing. */
  lemma EnsureTagDotIdempotent(s: string)
    ensures EnsureTagDot(EnsureTagDot(s)) == EnsureTagDot(s)
  {
    EnsureTagDotFixpoint(EnsureTagDot(s));
  }

  /** The store normaliser keeps a leading hash sign: `#UI。。` becomes `#UI.`. */
  lemma EnsureTagDotKeepsHash(s: string)
    requires Trim(s) != "" && IsHash(Trim(s)[0])
    ensures EnsureTagDot(s) != "" && EnsureTagDot(s)[0] == Trim(s)[0]
  {
    var t := Trim(s);
    var base := DropTrailingDots(t);
    assert !IsTagDot(t[0]);
  }

  /** ensureTagDot of the card and progress forms (CardForm.jsx,
      ProgressForm.jsx): trim, strip leading hash signs, then as the store
      normaliser. */
  function FormEnsureTagDot(s: string): (r: string)
    ensures r == "" <==> DropLeadingHashes(Trim(s)) == ""
    ensures r != "" ==> EndsInOneDot(r)
    ensures r != "" ==> !IsHash(r[0])
    ensures r != "" ==> IsPrefix(r[..|r| - 1], DropLeadingHashes(Trim(s)))
  {
    var t := DropLeadingHashes(Trim(s));
    if t == "" then ""
    else
      var r := WithOneDot(t);
      assert !IsHash(r[0]) by {
        assert !IsHash(t[0]) && !IsHash('.');
      }
      r
  }

  function FormEnsureTagDotOf(v: Val): string {
    FormEnsureTagDot(ToStr(Or(v, Str(""))))
  }

  /** The form normaliser leaves its own result unchanged unless that result
      starts with white space. */
  lemma FormEnsureTagDotIdempotent(s: string)
    requires FormEnsureTagDot(s) == "" || !IsSpace(FormEnsureTagDot(s)[0])
    ensures FormEnsureTagDot(FormEnsureTagDot(s)) == FormEnsureTagDot(s)
  {
    var r := FormEnsureTagDot(s);
    if r != "" {
      FormShapeKept(r);
    }
  }

  /** A tag ending in one dot, with neither a hash sign nor white space in
      front, is left alone by the form normaliser. */
  lemma FormShapeKept(r: string)
    requires EndsInOneDot(r)
    requires !IsHash(r[0]) && !IsSpace(r[0])
    ensures FormEnsureTagDot(r) == r
  {
    assert IsTrimmed(r) by {
      assert !IsSpace('.');
    }
    TrimOfTrimmed(r);
    assert DropLeadingHashes(r) == r;
    var base := r[..|r| - 1];
    assert r == base + ".";
    DropOneDot(base);
  }

  /** A tag the form normaliser produced is stored unchanged by the store
      normaliser, unless it starts with white space. */
  lemma FormTagIsStoreFixpoint(s: string)
    requires FormEnsureTagDot(s) == "" || !IsSpace(FormEnsureTagDot(s)[0])
    ensures EnsureTagDot(FormEnsureTagDot(s)) == FormEnsureTagDot(s)
  {
    EnsureTagDotFixpoint(FormEnsureTagDot(s));
  }

  /** `s[a..b]` is what is left of `s` once its whole leading run of hash signs
      (`s[..a]`) and then its whole trailing run of dots (`s[b..]`) are removed. */
  predicate HashDotSplit(s: string, a: nat, b: nat) {
    a <= b <= |s|
    && (forall i | 0 <= i < a :: IsHash(s[i])) && (a == |s| || !IsHash(s[a]))
    && (forall i | b <= i < |s| :: IsTagDot(s[i])) && (b == a || !IsTagDot(s[b - 1]))
  }

  /** `r` is the trimmed remainder of `s` once its hash signs in front and its
      dots at the end are removed. */
  ghost predicate IsNormalizedBase(s: string, r: string) {
    exists a: nat, b: nat :: HashDotSplit(s, a, b) && r == Trim(s[a..b])
  }

  /** `s.replace(/^[#＃]+/, '').replace(/[。．.]+$/, '')` */
  function DropHashesAndDots(s: string): (r: string)
    ensures IsNormalizedBase(s, Trim(r))
  {
    var t := DropLeadingHashes(s);
    var u := DropTrailingDots(t);
    var a := |s| - |t|;
    assert t == s[a..];
    assert u == s[a..a + |u|];
    assert HashDotSplit(s, a, a + |u|) by {
      assert a < |s| ==> s[a] == t[0];
      assert |u| > 0 ==> s[a + |u| - 1] == u[|u| - 1];
      assert forall i | a + |u| <= i < |s| :: s[i] == t[i - a];
    }
    u
  }

  /** normalizeBase of the forms: `String(s || '')` with its leading hash signs
      and its trailing dots removed, then trimmed. */
  function NormalizeBase(v: Val): (r: string)
    ensures IsTrimmed(r)
    ensures IsNormalizedBase(ToStr(Or(v, Str(""))), r)
  {
    Trim(DropHashesAndDots(ToStr(Or(v, Str("")))))
  }
}
