/** The export panel of src/components/editor/ExportPanel.jsx: HTML escaping,
    the embed address found by two regular expressions, the offline payload
    whose image and attachment addresses are replaced by data URLs, and the
    offline viewer page. Fetching an address and reading it as a data URL is
    the oracle `fetch` (None for any failure); the date text and the random
    fallback ids are parameters. */
module ExportPanel {
  import opened JsString
  import opened JsValue
  import ProgressView
  import ListOps

  // ---------------------------------------------------------- escapeHtml

  /** `s.replace(/c/g, rep)` for a one-character pattern. */
  function ReplaceAll(s: string, c: char, rep: string): string
    decreases |s|
  {
    if |s| == 0 then "" else (if s[0] == c then rep else [s[0]]) + ReplaceAll(s[1..], c, rep)
  }

  lemma {:induction false} ReplaceAllConcat(a: string, b: string, c: char, rep: string)
    ensures ReplaceAll(a + b, c, rep) == ReplaceAll(a, c, rep) + ReplaceAll(b, c, rep)
    decreases |a|
  {
    if |a| == 0 {
      assert a + b == b;
    } else {
      assert (a + b)[1..] == a[1..] + b;
      ReplaceAllConcat(a[1..], b, c, rep);
    }
  }

  lemma {:induction false} ReplaceAllAbsent(s: string, c: char, rep: string)
    requires c !in s
    ensures ReplaceAll(s, c, rep) == s
    decreases |s|
  {
    if |s| > 0 {
      assert c !in s[1..];
      ReplaceAllAbsent(s[1..], c, rep);
    }
  }

  /** The five replacements in the order the source applies them, `&` first. */
  function ReplaceChain(s: string): string {
    ReplaceAll(ReplaceAll(ReplaceAll(ReplaceAll(ReplaceAll(s, '&', "&amp;"), '<', "&lt;"), '>', "&gt;"), '"', "&quot;"), '\'', "&#039;")
  }

  /** The escape of one character. */
  function EscapeChar(c: char): string {
    if c == '&' then "&amp;"
    else if c == '<' then "&lt;"
    else if c == '>' then "&gt;"
    else if c == '"' then "&quot;"
    else if c == '\'' then "&#039;"
    else [c]
  }

  predicate IsMarkupChar(c: char) {
    c == '<' || c == '>' || c == '"' || c == '\''
  }

  /** One of the five entities starts at `i`. */
  predicate EntityAt(r: string, i: nat)
    requires i <= |r|
  {
    IsPrefix("&amp;", r[i..]) || IsPrefix("&lt;", r[i..]) || IsPrefix("&gt;", r[i..])
    || IsPrefix("&quot;", r[i..]) || IsPrefix("&#039;", r[i..])
  }

  /** Text that cannot open a tag or leave an attribute value: no markup
      character, and every `&` starts one of the five entities. */
  predicate Safe(r: string) {
    forall i | 0 <= i < |r| :: !IsMarkupChar(r[i]) && (r[i] == '&' ==> EntityAt(r, i))
  }

  lemma PrefixExtend(p: string, a: string, b: string)
    requires IsPrefix(p, a)
    ensures IsPrefix(p, a + b)
  {
    assert (a + b)[..|p|] == a[..|p|];
  }

  lemma SafeConcat(a: string, b: string)
    requires Safe(a) && Safe(b)
    ensures Safe(a + b)
  {
    forall i | 0 <= i < |a + b| && (a + b)[i] == '&'
      ensures EntityAt(a + b, i)
    {
      if i < |a| {
        assert (a + b)[i..] == a[i..] + b;
        assert a[i] == '&';
        if IsPrefix("&amp;", a[i..]) { PrefixExtend("&amp;", a[i..], b); }
        else if IsPrefix("&lt;", a[i..]) { PrefixExtend("&lt;", a[i..], b); }
        else if IsPrefix("&gt;", a[i..]) { PrefixExtend("&gt;", a[i..], b); }
        else if IsPrefix("&quot;", a[i..]) { PrefixExtend("&quot;", a[i..], b); }
        else { PrefixExtend("&#039;", a[i..], b); }
      } else {
        assert (a + b)[i..] == b[i - |a|..];
        assert b[i - |a|] == '&';
      }
    }
    assert forall i | 0 <= i < |a + b| :: !IsMarkupChar((a + b)[i]) by {
      forall i | 0 <= i < |a + b| ensures !IsMarkupChar((a + b)[i]) {
        if i >= |a| { assert (a + b)[i] == b[i - |a|]; }
      }
    }
  }

  lemma EscapeCharSafe(c: char)
    ensures Safe(EscapeChar(c))
  {
    var e := EscapeChar(c);
    if c == '&' || c == '<' || c == '>' || c == '"' || c == '\'' {
      assert e[0] == '&' && e[0..] == e;
      assert forall i | 0 < i < |e| :: e[i] != '&' && !IsMarkupChar(e[i]);
    }
  }

  /** Escaping one character at a time. */
  function Escape(s: string): (r: string)
    ensures Safe(r)
    decreases |s|
  {
    if |s| == 0 then ""
    else
      EscapeCharSafe(s[0]);
      SafeConcat(EscapeChar(s[0]), Escape(s[1..]));
      EscapeChar(s[0]) + Escape(s[1..])
  }

  lemma ReplaceChainConcat(a: string, b: string)
    ensures ReplaceChain(a + b) == ReplaceChain(a) + ReplaceChain(b)
  {
    ReplaceAllConcat(a, b, '&', "&amp;");
    var a1, b1 := ReplaceAll(a, '&', "&amp;"), ReplaceAll(b, '&', "&amp;");
    ReplaceAllConcat(a1, b1, '<', "&lt;");
    var a2, b2 := ReplaceAll(a1, '<', "&lt;"), ReplaceAll(b1, '<', "&lt;");
    ReplaceAllConcat(a2, b2, '>', "&gt;");
    var a3, b3 := ReplaceAll(a2, '>', "&gt;"), ReplaceAll(b2, '>', "&gt;");
    ReplaceAllConcat(a3, b3, '"', "&quot;");
    var a4, b4 := ReplaceAll(a3, '"', "&quot;"), ReplaceAll(b3, '"', "&quot;");
    ReplaceAllConcat(a4, b4, '\'', "&#039;");
  }

  lemma ReplaceAllOne(c: char, d: char, rep: string)
    ensures ReplaceAll([c], d, rep) == if c == d then rep else [c]
  {
    assert [c][1..] == "";
  }

  /** The stages after the one that produced entity `e` leave it alone. */
  lemma ChainTail(e: string, from: nat)
    requires 1 <= from <= 5
    requires from <= 1 ==> '<' !in e
    requires from <= 2 ==> '>' !in e
    requires from <= 3 ==> '"' !in e
    requires from <= 4 ==> '\'' !in e
    ensures from <= 1 ==> ReplaceAll(e, '<', "&lt;") == e
    ensures from <= 2 ==> ReplaceAll(e, '>', "&gt;") == e
    ensures from <= 3 ==> ReplaceAll(e, '"', "&quot;") == e
    ensures from <= 4 ==> ReplaceAll(e, '\'', "&#039;") == e
  {
    if from <= 1 { ReplaceAllAbsent(e, '<', "&lt;"); }
    if from <= 2 { ReplaceAllAbsent(e, '>', "&gt;"); }
    if from <= 3 { ReplaceAllAbsent(e, '"', "&quot;"); }
    if from <= 4 { ReplaceAllAbsent(e, '\'', "&#039;"); }
  }

  lemma ReplaceChainChar(c: char)
    ensures ReplaceChain([c]) == EscapeChar(c)
  {
    ReplaceAllOne(c, '&', "&amp;");
    if c == '&' {
      ChainTail("&amp;", 1);
    } else {
      ReplaceAllOne(c, '<', "&lt;");
      if c == '<' {
        ChainTail("&lt;", 2);
      } else {
        ReplaceAllOne(c, '>', "&gt;");
        if c == '>' {
          ChainTail("&gt;", 3);
        } else {
          ReplaceAllOne(c, '"', "&quot;");
          if c == '"' {
            ChainTail("&quot;", 4);
          } else {
            ReplaceAllOne(c, '\'', "&#039;");
          }
        }
      }
    }
  }

  /** Replacing `&` first makes the chain of replacements the same as
      escaping each character on its own: no later replacement sees an
      ampersand that an earlier one introduced. */
  lemma {:induction false} ReplaceChainIsEscape(s: string)
    ensures ReplaceChain(s) == Escape(s)
    decreases |s|
  {
    if |s| > 0 {
      assert s == [s[0]] + s[1..];
      ReplaceChainConcat([s[0]], s[1..]);
      ReplaceChainChar(s[0]);
      ReplaceChainIsEscape(s[1..]);
    }
  }

  /** Reading the five entities back. */
  function Unescape(r: string): string
    decreases |r|
  {
    if |r| == 0 then ""
    else if r[0] != '&' then [r[0]] + Unescape(r[1..])
    else if IsPrefix("&amp;", r) then "&" + Unescape(r[5..])
    else if IsPrefix("&lt;", r) then "<" + Unescape(r[4..])
    else if IsPrefix("&gt;", r) then ">" + Unescape(r[4..])
    else if IsPrefix("&quot;", r) then "\"" + Unescape(r[6..])
    else if IsPrefix("&#039;", r) then "'" + Unescape(r[6..])
    else [r[0]] + Unescape(r[1..])
  }

  /** Entities differ at their second character. */
  lemma NotPrefixAt1(p: string, r: string)
    requires |p| >= 2 && |r| >= 2 && r[1] != p[1]
    ensures !IsPrefix(p, r)
  {
    if |p| <= |r| {
      assert r[..|p|][1] == r[1];
    }
  }

  lemma UnescapeStep(c: char, rest: string)
    ensures Unescape(EscapeChar(c) + rest) == [c] + Unescape(rest)
  {
    var e := EscapeChar(c);
    var r := e + rest;
    assert r[..|e|] == e && r[|e|..] == rest;
    if c == '&' {
      assert IsPrefix("&amp;", r);
    } else if c == '<' {
      assert r[1] == 'l';
      NotPrefixAt1("&amp;", r);
      assert IsPrefix("&lt;", r);
    } else if c == '>' {
      assert r[1] == 'g';
      NotPrefixAt1("&amp;", r);
      NotPrefixAt1("&lt;", r);
      assert IsPrefix("&gt;", r);
    } else if c == '"' {
      assert r[1] == 'q';
      NotPrefixAt1("&amp;", r);
      NotPrefixAt1("&lt;", r);
      NotPrefixAt1("&gt;", r);
      assert IsPrefix("&quot;", r);
    } else if c == '\'' {
      assert r[1] == '#';
      NotPrefixAt1("&amp;", r);
      NotPrefixAt1("&lt;", r);
      NotPrefixAt1("&gt;", r);
      NotPrefixAt1("&quot;", r);
      assert IsPrefix("&#039;", r);
    } else {
      assert r[0] == c && r[1..] == rest;
    }
  }

  /** Escaping loses nothing: the entities read back to the original text. */
  lemma {:induction false} UnescapeEscape(s: string)
    ensures Unescape(Escape(s)) == s
    decreases |s|
  {
    if |s| > 0 {
      UnescapeStep(s[0], Escape(s[1..]));
      UnescapeEscape(s[1..]);
    }
  }

  /** escapeHtml: `String(s || '')` with the five replacements, `&` first. */
  function EscapeHtml(v: Val): (r: string)
    ensures !Truthy(v) ==> r == ""
    ensures Safe(r)
    ensures Unescape(r) == (if Truthy(v) then ToStr(v) else "")
  {
    var s := ToStr(Or(v, Str("")));
    ReplaceChainIsEscape(s);
    UnescapeEscape(s);
    ReplaceChain(s)
  }

  // ---------------------------------------------------------- embedUrl

  predicate IsIdChar(c: char) {
    ('A' <= c <= 'Z') || ('a' <= c <= 'z') || ('0' <= c <= '9') || c == '_' || c == '-'
  }

  /** The longest prefix of `s` whose characters satisfy `p`. */
  function Run(s: string, p: char -> bool): (r: string)
    ensures IsPrefix(r, s)
    ensures forall i | 0 <= i < |r| :: p(r[i])
    ensures |r| < |s| ==> !p(s[|r|])
    decreases |s|
  {
    if |s| == 0 || !p(s[0]) then "" else [s[0]] + Run(s[1..], p)
  }

  /** `.` in a regular expression: any character but a line terminator. */
  predicate AnyChar(c: char) {
    !IsLineTerminator(c)
  }

  /** `(?:youtu.be\/|v=)([A-Za-z0-9_-]{6,})` at the start of `s`: the
      capture, taken as long as it goes. */
  function YouTubeAt(s: string): (r: Option<string>)
    ensures r.Some? ==> |r.value| >= 6 && forall i | 0 <= i < |r.value| :: IsIdChar(r.value[i])
  {
    var k := if |s| >= 9 && s[..5] == "youtu" && AnyChar(s[5]) && s[6..9] == "be/" then 9
             else if |s| >= 2 && s[..2] == "v=" then 2
             else 0;
    if k == 0 then None
    else
      var id := Run(s[k..], IsIdChar);
      if |id| >= 6 then Some(id) else None
  }

  /** `vimeo.com\/(\d+)` at the start of `s`. */
  function VimeoAt(s: string): (r: Option<string>)
    ensures r.Some? ==> |r.value| >= 1 && forall i | 0 <= i < |r.value| :: IsDigit(r.value[i])
  {
    if |s| >= 10 && s[..5] == "vimeo" && AnyChar(s[5]) && s[6..10] == "com/" then
      var id := Run(s[10..], IsDigit);
      if |id| >= 1 then Some(id) else None
    else None
  }

  /** `String.prototype.match` without the global flag: the match that starts
      leftmost, with its capture. */
  function FirstMatch(s: string, at: string -> Option<string>): (r: Option<(nat, string)>)
    ensures r.Some? ==> r.value.0 <= |s| && at(s[r.value.0..]) == Some(r.value.1)
    ensures r.Some? ==> forall j | 0 <= j < r.value.0 :: at(s[j..]).None?
    ensures r.None? ==> forall j | 0 <= j <= |s| :: at(s[j..]).None?
    decreases |s|
  {
    assert s[0..] == s;
    if at(s).Some? then Some((0, at(s).value))
    else if |s| == 0 then None
    else
      var t := FirstMatch(s[1..], at);
      assert forall j | 1 <= j <= |s| :: s[j..] == s[1..][j - 1..];
      if t.None? then None else Some((t.value.0 + 1, t.value.1))
  }

  const YOUTUBE_EMBED: string := "https://www.youtube.com/embed/"
  const VIMEO_PLAYER: string := "https://player.vimeo.com/video/"

  /** The two players' addresses differ at their ninth character. */
  lemma EmbedPrefixes(id: string)
    ensures IsPrefix(YOUTUBE_EMBED, YOUTUBE_EMBED + id) && !IsPrefix(VIMEO_PLAYER, YOUTUBE_EMBED + id)
    ensures IsPrefix(VIMEO_PLAYER, VIMEO_PLAYER + id) && !IsPrefix(YOUTUBE_EMBED, VIMEO_PLAYER + id)
  {
    var y, v := YOUTUBE_EMBED + id, VIMEO_PLAYER + id;
    assert y[..|YOUTUBE_EMBED|] == YOUTUBE_EMBED && v[..|VIMEO_PLAYER|] == VIMEO_PLAYER;
    assert y[8] == 'w' && v[8] == 'p';
    assert |VIMEO_PLAYER| <= |y| ==> y[..|VIMEO_PLAYER|][8] == y[8];
    assert |YOUTUBE_EMBED| <= |v| ==> v[..|YOUTUBE_EMBED|][8] == v[8];
  }

  /** embedUrl: the YouTube embed of the leftmost YouTube match, else the
      Vimeo player of the leftmost Vimeo match, else `''`. */
  function EmbedUrl(v: Val): (r: string)
    ensures !Truthy(v) ==> r == ""
    ensures r == "" || IsPrefix(YOUTUBE_EMBED, r) || IsPrefix(VIMEO_PLAYER, r)
    ensures IsPrefix(YOUTUBE_EMBED, r) ==>
              var m := FirstMatch(ToStr(v), YouTubeAt);
              m.Some? && r == YOUTUBE_EMBED + m.value.1
    ensures IsPrefix(VIMEO_PLAYER, r) ==>
              var m := FirstMatch(ToStr(v), VimeoAt);
              FirstMatch(ToStr(v), YouTubeAt).None? && m.Some? && r == VIMEO_PLAYER + m.value.1
    ensures Truthy(v) && (FirstMatch(ToStr(v), YouTubeAt).Some? || FirstMatch(ToStr(v), VimeoAt).Some?) ==> r != ""
  {
    var u := ToStr(Or(v, Str("")));
    if u == "" then ""
    else
      var yt := FirstMatch(u, YouTubeAt);
      if yt.Some? then
        EmbedPrefixes(yt.value.1);
        YOUTUBE_EMBED + yt.value.1
      else
        var vm := FirstMatch(u, VimeoAt);
        if vm.Some? then
          EmbedPrefixes(vm.value.1);
          VIMEO_PLAYER + vm.value.1
        else ""
  }

  /** Neither alternative can start at a character other than `y` or `v`. */
  lemma NoYouTubeIn(prefix: string, rest: string)
    requires 'y' !in prefix && 'v' !in prefix
    ensures forall j | 0 <= j < |prefix| :: YouTubeAt((prefix + rest)[j..]).None?
  {
    forall j | 0 <= j < |prefix| ensures YouTubeAt((prefix + rest)[j..]).None? {
      var t := (prefix + rest)[j..];
      assert t[0] == prefix[j];
      assert |t| >= 5 ==> t[..5][0] == t[0];
      assert |t| >= 2 ==> t[..2][0] == t[0];
    }
  }

  /** The leftmost match is the one at `k` when none starts before it. */
  lemma FirstMatchAt(s: string, at: string -> Option<string>, k: nat)
    requires k <= |s| && at(s[k..]).Some?
    requires forall j | 0 <= j < k :: at(s[j..]).None?
    ensures FirstMatch(s, at) == Some((k, at(s[k..]).value))
  {
  }

  lemma ShortLinkId(id: string)
    requires |id| >= 6 && forall i | 0 <= i < |id| :: IsIdChar(id[i])
    ensures YouTubeAt("youtu.be/" + id) == Some(id)
  {
    var t := "youtu.be/" + id;
    assert t[..5] == "youtu" && t[5] == '.' && t[6..9] == "be/";
    assert t[9..] == id;
    RunWhole(id, IsIdChar);
  }

  /** The short link form gives the embed of its whole id, whatever comes
      before it (a scheme such as `https://`) as long as no match can start
      there. */
  lemma EmbedUrlShortLink(prefix: string, id: string)
    requires 'y' !in prefix && 'v' !in prefix
    requires |id| >= 6 && forall i | 0 <= i < |id| :: IsIdChar(id[i])
    ensures EmbedUrl(Str(prefix + "youtu.be/" + id)) == YOUTUBE_EMBED + id
  {
    var t := "youtu.be/" + id;
    ShortLinkId(id);
    MatchAfterPrefix(prefix, t);
    ListOps.ConcatAssoc(prefix, "youtu.be/", id);
    EmbedUrlOfYouTube(prefix + t, |prefix|, id);
  }

  /** A match at the start of `t` is the first match of `prefix + t` when no
      match can start inside `prefix`. */
  lemma MatchAfterPrefix(prefix: string, t: string)
    requires 'y' !in prefix && 'v' !in prefix && YouTubeAt(t).Some?
    ensures FirstMatch(prefix + t, YouTubeAt) == Some((|prefix|, YouTubeAt(t).value))
  {
    var u := prefix + t;
    assert u[|prefix|..] == t;
    NoYouTubeIn(prefix, t);
    FirstMatchAt(u, YouTubeAt, |prefix|);
  }

  lemma EmbedUrlOfYouTube(u: string, k: nat, id: string)
    requires u != "" && FirstMatch(u, YouTubeAt) == Some((k, id))
    ensures EmbedUrl(Str(u)) == YOUTUBE_EMBED + id
  {
    assert ToStr(Or(Str(u), Str(""))) == u;
  }

  lemma {:induction false} RunWhole(s: string, p: char -> bool)
    requires forall i | 0 <= i < |s| :: p(s[i])
    ensures Run(s, p) == s
    decreases |s|
  {
    if |s| > 0 {
      RunWhole(s[1..], p);
    }
  }

  // ---------------------------------------------------------- data URLs

  /** isDataUrl: a string starting with `data:` in any letter case, the
      scheme of section 3 of RFC 2397. */
  predicate IsDataUrl(v: Val)
    ensures IsDataUrl(v) <==> v.Str? && |v.s| >= 5 && forall i | 0 <= i < 5 :: LowerChar(v.s[i]) == "data:"[i]
  {
    v.Str? && |v.s| >= 5 && Lower(v.s[..5]) == "data:"
  }

  /** urlToDataUrl: an empty value gives `''`, a data URL is kept, anything
      else is fetched and read as a data URL, and any failure gives `''`. */
  function UrlToDataUrl(u: Val, fetch: string -> Option<string>): (r: string)
    ensures !Truthy(u) ==> r == ""
    ensures IsDataUrl(u) ==> r == u.s
    ensures Truthy(u) && !IsDataUrl(u) ==> r == (if fetch(ToStr(u)).Some? then fetch(ToStr(u)).value else "")
  {
    if !Truthy(u) then ""
    else if IsDataUrl(u) then u.s
    else
      var d := fetch(ToStr(u));
      if d.Some? then d.value else ""
  }

  /** Without a network every address that is not already a data URL is dropped. */
  lemma OfflineKeepsOnlyDataUrls(u: Val)
    ensures UrlToDataUrl(u, _ => None) == (if IsDataUrl(u) then u.s else "")
  {
  }

  function Inline(v: Val, fetch: string -> Option<string>): Val {
    Str(UrlToDataUrl(v, fetch))
  }

  /** One attachment: a name defaulting to `attachment`, an existing data URL
      kept or else the address inlined, and the address itself cleared. */
  function PrepareAttachment(a: Val, fetch: string -> Option<string>): (r: Res<Val>)
    ensures r.Ok? <==> !Nullish(a)
    ensures r.Ok? ==> r.value.Obj? && r.value.fields.Keys == Spread(a).Keys + {"name", "dataUrl", "url"}
    ensures r.Ok? ==> r.value.fields["url"] == Str("") && Truthy(r.value.fields["name"])
    ensures r.Ok? && Truthy(OptProp(a, "name")) ==> r.value.fields["name"] == OptProp(a, "name")
    ensures r.Ok? && !Truthy(OptProp(a, "name")) ==> r.value.fields["name"] == Str("attachment")
    ensures r.Ok? && Truthy(OptProp(a, "dataUrl")) ==> r.value.fields["dataUrl"] == OptProp(a, "dataUrl")
    ensures r.Ok? && !Truthy(OptProp(a, "dataUrl")) ==> r.value.fields["dataUrl"] == Inline(OptProp(a, "url"), fetch)
    ensures r.Ok? ==> forall k | k in Spread(a) && k != "name" && k != "dataUrl" && k != "url" ::
                        r.value.fields[k] == Spread(a)[k]
  {
    if Nullish(a) then Err
    else
      var name := Or(OptProp(a, "name"), Str("attachment"));
      var dataUrl := Or(OptProp(a, "dataUrl"), Inline(OptProp(a, "url"), fetch));
      Ok(Obj(Spread(a)["name" := name]["dataUrl" := dataUrl]["url" := Str("")]))
  }

  /** The attachments of a project: `(np.attachments || []).map(...)`, which
      throws for a value that is not an array. */
  function PrepareAttachments(v: Val, fetch: string -> Option<string>): (r: Res<seq<Val>>)
    ensures r.Ok? <==> (!Truthy(v) || (v.Arr? && forall i | 0 <= i < |v.elems| :: !Nullish(v.elems[i])))
    ensures r.Ok? && v.Arr? ==> |r.value| == |v.elems|
                                && forall i | 0 <= i < |v.elems| :: r.value[i] == PrepareAttachment(v.elems[i], fetch).value
    ensures r.Ok? && !v.Arr? ==> r.value == []
  {
    var atts := Or(v, Arr([]));
    if !atts.Arr? then Err else MapRes(atts.elems, a => PrepareAttachment(a, fetch))
  }

  /** One project: the thumbnail inlined, the media address cleared, the
      attachments prepared, every other field copied. */
  function PrepareProject(p: Val, fetch: string -> Option<string>): (r: Res<Val>)
    ensures r.Ok? <==> PrepareAttachments(OptProp(Obj(Spread(p)), "attachments"), fetch).Ok?
    ensures r.Ok? ==> r.value.Obj? && r.value.fields.Keys == Spread(p).Keys + {"thumbnailUrl", "mediaUrl", "attachments"}
    ensures r.Ok? ==> r.value.fields["mediaUrl"] == Str("")
    ensures r.Ok? ==> r.value.fields["thumbnailUrl"] == Inline(Get(Spread(p), "thumbnailUrl"), fetch)
    ensures r.Ok? ==> r.value.fields["attachments"] == Arr(PrepareAttachments(Get(Spread(p), "attachments"), fetch).value)
    ensures r.Ok? ==> forall k | k in Spread(p) && k != "thumbnailUrl" && k != "mediaUrl" && k != "attachments" ::
                        r.value.fields[k] == Spread(p)[k]
  {
    var np := Spread(p);
    var atts :- PrepareAttachments(Get(np, "attachments"), fetch);
    Ok(Obj(np["thumbnailUrl" := Inline(Get(np, "thumbnailUrl"), fetch)]["mediaUrl" := Str("")]["attachments" := Arr(atts)]))
  }

  /** One progress item: both images inlined, every other field copied. */
  function PrepareItem(it: Val, fetch: string -> Option<string>): (r: Val)
    ensures r.Obj? && r.fields.Keys == Spread(it).Keys + {"imageFinalUrl", "imageCurrentUrl"}
    ensures r.fields["imageFinalUrl"] == Inline(Get(Spread(it), "imageFinalUrl"), fetch)
    ensures r.fields["imageCurrentUrl"] == Inline(Get(Spread(it), "imageCurrentUrl"), fetch)
    ensures forall k | k in Spread(it) && k != "imageFinalUrl" && k != "imageCurrentUrl" :: r.fields[k] == Spread(it)[k]
  {
    var ni := Spread(it);
    Obj(ni["imageFinalUrl" := Inline(Get(ni, "imageFinalUrl"), fetch)]["imageCurrentUrl" := Inline(Get(ni, "imageCurrentUrl"), fetch)])
  }

  /** The fields of `payload || {}`. */
  function Fields(payload: Val): map<string, Val> {
    if payload.Obj? then payload.fields else map[]
  }

  /** `clone.profile || {}` */
  function ProfileOf(payload: Val): Val {
    Or(Get(Fields(payload), "profile"), Obj(map[]))
  }

  /** `clone.projects || []` */
  function ProjectsOf(payload: Val): Val {
    Or(Get(Fields(payload), "projects"), Arr([]))
  }

  /** `clone.progress || []` */
  function ProgressOf(payload: Val): Val {
    Or(Get(Fields(payload), "progress"), Arr([]))
  }

  /** When preparePayloadOffline completes: the profile, if set, is an
      object; the lists, if set, are arrays; every project's attachments can
      be prepared. */
  predicate Preparable(payload: Val, fetch: string -> Option<string>) {
    ProfileOf(payload).Obj? && ProjectsOf(payload).Arr? && ProgressOf(payload).Arr?
    && forall i | 0 <= i < |ProjectsOf(payload).elems| :: PrepareProject(ProjectsOf(payload).elems[i], fetch).Ok?
  }

  /** The clone after its three fields are written. */
  lemma ThreeWrites(m: map<string, Val>, p0: Val, p: Val, ps: Val, items: Val)
    ensures var c := m["profile" := p0]["profile" := p]["projects" := ps]["progress" := items];
            c.Keys == m.Keys + {"profile", "projects", "progress"}
            && c["profile"] == p && c["projects"] == ps && c["progress"] == items
            && forall k | k in m && k != "profile" && k != "projects" && k != "progress" :: c[k] == m[k]
  {
    DistinctNames();
  }

  /** The three fields the clone rewrites are different keys. */
  lemma DistinctNames()
    ensures "profile" != "projects" && "profile" != "progress" && "projects" != "progress"
  {
    assert "profile"[3] == 'f' && "projects"[3] == 'j' && "progress"[3] == 'g';
  }

  /** preparePayloadOffline: the clone's fields are replaced one after the
      other. A missing profile becomes `{}` with an inlined avatar, the lists
      keep their length and order, and only avatarUrl, thumbnailUrl,
      imageFinalUrl, imageCurrentUrl and the attachments' addresses change. */
  method PreparePayloadOffline(payload: Val, fetch: string -> Option<string>) returns (r: Res<Val>)
    requires !Truthy(payload) || payload.Obj?
    ensures r.Ok? <==> Preparable(payload, fetch)
    ensures r.Ok? ==> r.value.Obj? && r.value.fields.Keys == Fields(payload).Keys + {"profile", "projects", "progress"}
    ensures r.Ok? ==> forall k | k in Fields(payload) && k != "profile" && k != "projects" && k != "progress" ::
                        r.value.fields[k] == Fields(payload)[k]
    ensures r.Ok? ==> r.value.fields["profile"] == WithField(ProfileOf(payload), "avatarUrl", Inline(OptProp(ProfileOf(payload), "avatarUrl"), fetch))
    ensures r.Ok? ==> var out := r.value.fields["projects"];
                      out.Arr? && |out.elems| == |ProjectsOf(payload).elems|
                      && forall i | 0 <= i < |out.elems| :: out.elems[i] == PrepareProject(ProjectsOf(payload).elems[i], fetch).value
    ensures r.Ok? ==> var out := r.value.fields["progress"];
                      out.Arr? && |out.elems| == |ProgressOf(payload).elems|
                      && forall i | 0 <= i < |out.elems| :: out.elems[i] == PrepareItem(ProgressOf(payload).elems[i], fetch)
  {
    DistinctNames();
    var clone := Fields(payload);
    var p0 := Or(Get(clone, "profile"), Obj(map[]));
    var profile := Or(Get(clone, "profile"), Obj(map[]));
    clone := clone["profile" := profile];
    if !profile.Obj? {
      // a property write on a primitive throws in module code
      return Err;
    }
    profile := WithField(profile, "avatarUrl", Inline(OptProp(profile, "avatarUrl"), fetch));
    clone := clone["profile" := profile];
    var ps := Or(Get(clone, "projects"), Arr([]));
    assert ps == ProjectsOf(payload);
    if !ps.Arr? {
      return Err;
    }
    var projects := MapRes(ps.elems, p => PrepareProject(p, fetch));
    if projects.Err? {
      return Err;
    }
    clone := clone["projects" := Arr(projects.value)];
    var items := Or(Get(clone, "progress"), Arr([]));
    assert items == ProgressOf(payload);
    if !items.Arr? {
      return Err;
    }
    var prepared := seq(|items.elems|, i requires 0 <= i < |items.elems| => PrepareItem(items.elems[i], fetch));
    ThreeWrites(Fields(payload), p0, profile, Arr(projects.value), Arr(prepared));
    clone := clone["progress" := Arr(prepared)];
    return Ok(Obj(clone));
  }

  /** Without a network, a prepared payload holds no address that is not a
      data URL in the four inlined fields: each is a data URL or `''`. */
  lemma OfflineProjectThumbnail(p: Val)
    requires PrepareProject(p, _ => None).Ok?
    ensures var t := PrepareProject(p, _ => None).value.fields["thumbnailUrl"];
            t == Str("") || IsDataUrl(t)
  {
  }

  // ---------------------------------------------------------- offline viewer

  /** `v && String(v).trim()` */
  predicate NonBlank(v: Val) {
    Truthy(v) && Trim(ToStr(v)) != ""
  }

  /** `(v || []).map(t => span).join('')`, which throws unless `v || []` is an
      array; each tag is drawn as `#` and its escaped text, in list order. */
  function TagsHtml(v: Val): (r: Res<string>)
    ensures r.Ok? <==> !Truthy(v) || v.Arr?
    ensures r.Ok? && (!Truthy(v) || v.elems == []) ==> r.value == ""
    ensures r.Ok? && v.Arr? ==> forall i | 0 <= i < |v.elems| :: Contains(r.value, "#" + EscapeHtml(v.elems[i]))
  {
    var tags := Or(v, Arr([]));
    if !tags.Arr? then Err
    else
      var spans := TagSpans(tags.elems);
      assert forall i | 0 <= i < |tags.elems| :: Contains(Concat(spans), "#" + EscapeHtml(tags.elems[i])) by {
        forall i | 0 <= i < |tags.elems| ensures Contains(Concat(spans), "#" + EscapeHtml(tags.elems[i])) {
          ConcatHasPart(spans, i);
          ContainsTrans(Concat(spans), spans[i], "#" + EscapeHtml(tags.elems[i]));
        }
      }
      Ok(Concat(spans))
  }

  /** `<span class="tag">#${escapeHtml(t)}</span>` for each tag. */
  function TagSpans(tags: seq<Val>): (r: seq<string>)
    ensures |r| == |tags| && forall i | 0 <= i < |tags| :: Contains(r[i], "#" + EscapeHtml(tags[i]))
  {
    var r := seq(|tags|, i requires 0 <= i < |tags| => "<span class=\"tag\">" + ("#" + EscapeHtml(tags[i])) + "</span>");
    assert forall i | 0 <= i < |tags| :: Contains(r[i], "#" + EscapeHtml(tags[i])) by {
      forall i | 0 <= i < |tags| ensures Contains(r[i], "#" + EscapeHtml(tags[i])) {
        ContainsMiddle("<span class=\"tag\">", "#" + EscapeHtml(tags[i]), "</span>");
      }
    }
    r
  }

  /** A download link for an attachment that carries a data URL, nothing for
      one that does not; a missing attachment throws. */
  function AttachmentLink(a: Val): (r: Res<string>)
    ensures r.Ok? <==> !Nullish(a)
    ensures r.Ok? ==> (r.value == "" <==> !Truthy(OptProp(a, "dataUrl")))
  {
    if Nullish(a) then Err
    else
      var d := OptProp(a, "dataUrl");
      if !Truthy(d) then Ok("")
      else
        var link := "<a href=\"" + EscapeHtml(d) + "\" download=\"" + EscapeHtml(Or(OptProp(a, "name"), Str("attachment")))
          + "\">\U{1F4CE} " + EscapeHtml(Or(OptProp(a, "name"), Str("添付"))) + "</a>";
        assert link[0] == '<';
        Ok(link)
  }

  function AttachmentLinks(atts: seq<Val>): (r: Res<string>)
    ensures r.Ok? <==> forall i | 0 <= i < |atts| :: !Nullish(atts[i])
    ensures r.Ok? ==> (r.value == "" <==> forall i | 0 <= i < |atts| :: !Truthy(OptProp(atts[i], "dataUrl")))
  {
    ConcatRes(atts, AttachmentLink)
  }

  /** The attachment block: present only when some attachment has a data URL. */
  function AttachmentsBlock(v: Val): (r: Res<string>)
    ensures r.Ok? <==> !Truthy(v) || (v.Arr? && forall i | 0 <= i < |v.elems| :: !Nullish(v.elems[i]))
    ensures r.Ok? ==> (r.value != "" <==> v.Arr? && exists i | 0 <= i < |v.elems| :: Truthy(OptProp(v.elems[i], "dataUrl")))
  {
    var atts := Or(v, Arr([]));
    if !atts.Arr? then Err
    else
      var links :- AttachmentLinks(atts.elems);
      Ok(if links != "" then "<div class=\"attachments\">" + links + "</div>" else "")
  }

  /** The collapsed full description: only for a description that is not blank. */
  function FullRegion(desc: Val, fullId: string): (r: string)
    ensures r == "" <==> !NonBlank(desc)
    ensures r != "" ==> IsSuffix(EscapeHtml(desc) + "</div>", r)
  {
    if NonBlank(desc) then
      var head := "<div class=\"full collapsed\" id=\"" + fullId + "\">";
      assert head + EscapeHtml(desc) + "</div>" == head + (EscapeHtml(desc) + "</div>");
      head + EscapeHtml(desc) + "</div>"
    else ""
  }

  /** The button that opens the full description: only when there is one. */
  function MoreButton(desc: Val, fullId: string): (r: string)
    ensures r == "" <==> !NonBlank(desc)
  {
    if NonBlank(desc) then
      var b := "<button class=\"button more-btn\" data-target=\"" + fullId + "\">もっと見る</button>";
      assert |b| > 0;
      b
    else ""
  }

  /** The element id of a card's description: the record's id, or random
      text when it has none. */
  function FullId(prefix: string, id: Val, randomText: string): string {
    prefix + EscapeHtml(Or(id, Str(randomText)))
  }

  /** One project card; it throws for a missing project or for tags or
      attachments that are not arrays. */
  function ProjectCard(p: Val, randomText: string): (r: Res<string>)
    ensures r.Ok? <==> !Nullish(p) && TagsHtml(OptProp(p, "tags")).Ok? && AttachmentsBlock(OptProp(p, "attachments")).Ok?
  {
    if Nullish(p) then Err
    else
      var tags :- TagsHtml(OptProp(p, "tags"));
      var atts :- AttachmentsBlock(OptProp(p, "attachments"));
      var fullId := FullId("full-", OptProp(p, "id"), randomText);
      var full := OptProp(p, "descriptionFull");
      Ok(ProjectCardHtml(Media(OptProp(p, "thumbnailUrl")), EscapeHtml(Or(OptProp(p, "title"), Str("無題"))), tags,
                         EscapeHtml(OptProp(p, "descriptionShort")), FullRegion(full, fullId), atts, MoreButton(full, fullId)))
  }

  /** The thumbnail image, or an empty frame without one. */
  function Media(thumb: Val): (r: string)
    ensures Truthy(thumb) ==> Contains(r, EscapeHtml(thumb))
  {
    if Truthy(thumb) then
      var img := "<img src=\"" + EscapeHtml(thumb) + "\" alt=\"thumbnail\" style=\"width:100%;height:100%;object-fit:cover;border-radius:8px\" />";
      ContainsMiddle("<img src=\"", EscapeHtml(thumb), "\" alt=\"thumbnail\" style=\"width:100%;height:100%;object-fit:cover;border-radius:8px\" />");
      img
    else "<div class=\"thumb\"></div>"
  }

  /** The project card's template with its pieces filled in. */
  function ProjectCardHtml(media: string, title: string, tags: string, short: string, full: string, atts: string,
                           more: string): (r: string)
    ensures Contains(r, media) && Contains(r, title) && Contains(r, tags) && Contains(r, short)
    ensures Contains(r, full) && Contains(r, atts) && Contains(r, more)
  {
    var parts := [CARD_THUMB, media, META_TITLE, title, TAGS, tags, SUB, short, END, full, atts, more, END2];
    ConcatHasPart(parts, 1);
    ConcatHasPart(parts, 3);
    ConcatHasPart(parts, 5);
    ConcatHasPart(parts, 7);
    ConcatHasPart(parts, 9);
    ConcatHasPart(parts, 10);
    ConcatHasPart(parts, 11);
    Concat(parts)
  }

  /** A project card shows the thumbnail, the escaped title (`無題` when
      there is none), the tags, the escaped short description, the collapsed
      full description, the attachments and the "more" button. */
  lemma ProjectCardShows(p: Val, randomText: string)
    requires ProjectCard(p, randomText).Ok?
    ensures var r := ProjectCard(p, randomText).value;
            var fullId := FullId("full-", OptProp(p, "id"), randomText);
            && (Truthy(OptProp(p, "thumbnailUrl")) ==> Contains(r, EscapeHtml(OptProp(p, "thumbnailUrl"))))
            && Contains(r, EscapeHtml(Or(OptProp(p, "title"), Str("無題"))))
            && Contains(r, TagsHtml(OptProp(p, "tags")).value)
            && Contains(r, EscapeHtml(OptProp(p, "descriptionShort")))
            && Contains(r, FullRegion(OptProp(p, "descriptionFull"), fullId))
            && Contains(r, AttachmentsBlock(OptProp(p, "attachments")).value)
            && Contains(r, MoreButton(OptProp(p, "descriptionFull"), fullId))
  {
    var thumb := OptProp(p, "thumbnailUrl");
    if Truthy(thumb) {
      ContainsTrans(ProjectCard(p, randomText).value, Media(thumb), EscapeHtml(thumb));
    }
  }

  /** One progress card; `dateText` is the locale date of a due date. */
  function ProgressCard(item: Val, randomText: string, dateText: Val -> string): (r: Res<string>)
    ensures r.Ok? <==> !Nullish(item) && TagsHtml(OptProp(item, "tags")).Ok?
  {
    if Nullish(item) then Err
    else
      var tags :- TagsHtml(OptProp(item, "tags"));
      var pct := ProgressView.PercentText(ProgressView.ShownPercent(OptProp(item, "percent")));
      var fullId := FullId("pfull-", OptProp(item, "id"), randomText);
      var due := OptProp(item, "dueDate");
      var full := OptProp(item, "descriptionFull");
      Ok(ProgressCardHtml(EscapeHtml(Or(OptProp(item, "title"), Str("無題"))), tags,
                          ProgressView.StatusText(OptProp(item, "status")), if Truthy(due) then dateText(due) else "未設定",
                          EscapeHtml(OptProp(item, "descriptionShort")), FullRegion(full, fullId), pct, MoreButton(full, fullId)))
  }

  /** The progress card's template with its pieces filled in. */
  function ProgressCardHtml(title: string, tags: string, status: string, due: string, short: string, full: string,
                            pct: string, more: string): (r: string)
    ensures Contains(r, title) && Contains(r, tags) && Contains(r, "ステータス: " + status) && Contains(r, "期限: " + due)
    ensures Contains(r, short) && Contains(r, full) && Contains(r, "width:" + pct + "%")
    ensures Contains(r, pct + "%</div>") && Contains(r, more)
  {
    var parts := [CARD_META_TITLE, title, TAGS, tags, SUB, "ステータス: " + status, DUE_SEP, "期限: " + due, SUB,
                  short, END, full, BAR, "width:" + pct + "%", BAR_TO_PERCENT, pct + "%</div>", END, more, END2];
    ConcatHasPart(parts, 1);
    ConcatHasPart(parts, 3);
    ConcatHasPart(parts, 5);
    ConcatHasPart(parts, 7);
    ConcatHasPart(parts, 9);
    ConcatHasPart(parts, 11);
    ConcatHasPart(parts, 13);
    ConcatHasPart(parts, 15);
    ConcatHasPart(parts, 17);
    Concat(parts)
  }

  /** A progress card shows the escaped title, the tags, the status label,
      the due date or `未設定`, the escaped short description, the collapsed
      full description, a bar as wide as the shown percent and the percent
      itself, and the "more" button. */
  lemma ProgressCardShows(item: Val, randomText: string, dateText: Val -> string)
    requires ProgressCard(item, randomText, dateText).Ok?
    ensures var r := ProgressCard(item, randomText, dateText).value;
            var pct := ProgressView.PercentText(ProgressView.ShownPercent(OptProp(item, "percent")));
            var due := OptProp(item, "dueDate");
            var fullId := FullId("pfull-", OptProp(item, "id"), randomText);
            && Contains(r, EscapeHtml(Or(OptProp(item, "title"), Str("無題"))))
            && Contains(r, TagsHtml(OptProp(item, "tags")).value)
            && Contains(r, "ステータス: " + ProgressView.StatusText(OptProp(item, "status")))
            && Contains(r, "期限: " + (if Truthy(due) then dateText(due) else "未設定"))
            && Contains(r, EscapeHtml(OptProp(item, "descriptionShort")))
            && Contains(r, FullRegion(OptProp(item, "descriptionFull"), fullId))
            && Contains(r, "width:" + pct + "%")
            && Contains(r, pct + "%</div>")
            && Contains(r, MoreButton(OptProp(item, "descriptionFull"), fullId))
  {
  }

  /** The cards of a list, in list order, joined; card `k + i` is drawn by
      `card(items[i], k + i)`, and the first card that throws ends the page. */
  function Cards(items: seq<Val>, k: nat, card: (Val, nat) -> Res<string>): (r: Res<string>)
    ensures r.Ok? <==> forall i | 0 <= i < |items| :: card(items[i], k + i).Ok?
    decreases |items|
  {
    if |items| == 0 then Ok("")
    else
      var h := card(items[0], k);
      var t := Cards(items[1..], k + 1, card);
      assert forall i | 1 <= i < |items| :: items[i] == items[1..][i - 1] && k + i == (k + 1) + (i - 1);
      if h.Err? || t.Err? then Err else Ok(h.value + t.value)
  }

  /** The page holds the cards one after another, in list order, and nothing
      else. */
  lemma {:induction false} CardsInOrder(items: seq<Val>, k: nat, card: (Val, nat) -> Res<string>)
    requires Cards(items, k, card).Ok?
    ensures Cards(items, k, card).value == Concat(CardTexts(items, k, card))
    decreases |items|
  {
    if |items| > 0 {
      CardsInOrder(items[1..], k + 1, card);
      assert CardTexts(items, k, card)[1..] == CardTexts(items[1..], k + 1, card);
    }
  }

  /** The text of card `k + i` for each item `i`, when none throws. */
  function CardTexts(items: seq<Val>, k: nat, card: (Val, nat) -> Res<string>): (r: seq<string>)
    requires forall i | 0 <= i < |items| :: card(items[i], k + i).Ok?
    ensures |r| == |items| && forall i | 0 <= i < |items| :: card(items[i], k + i) == Ok(r[i])
  {
    seq(|items|, i requires 0 <= i < |items| => card(items[i], k + i).value)
  }

  /** `(v || []).map(...)`, which throws unless `v || []` is an array. */
  function ListOf(v: Val): Res<seq<Val>> {
    var l := Or(v, Arr([]));
    if l.Arr? then Ok(l.elems) else Err
  }

  /** The progress section: only for a non-empty list. */
  function ProgressSection(progress: Val, cards: string): (r: string)
    ensures r == "" <==> !(progress.Arr? && |progress.elems| > 0)
    ensures r != "" ==> Contains(r, cards)
  {
    if progress.Arr? && |progress.elems| > 0 then
      var s := "<div class=\"section\"><h2>進捗一覧</h2><div class=\"grid\">" + cards + "</div></div>";
      ContainsMiddle("<div class=\"section\"><h2>進捗一覧</h2><div class=\"grid\">", cards, "</div></div>");
      assert |s| > 0;
      s
    else ""
  }

  /** A social badge: `s.label || s.type || 'Link'`, escaped; a missing entry throws. */
  function SocialBadge(s: Val): (r: Res<string>)
    ensures r.Ok? <==> !Nullish(s)
    ensures r.Ok? ==> Contains(r.value, EscapeHtml(Or(Or(OptProp(s, "label"), OptProp(s, "type")), Str("Link"))))
  {
    if Nullish(s) then Err
    else
      var name := EscapeHtml(Or(Or(OptProp(s, "label"), OptProp(s, "type")), Str("Link")));
      ContainsMiddle("<span class=\"social\">", name, "</span>");
      Ok("<span class=\"social\">" + name + "</span>")
  }

  /** The badges, one per entry, in list order. */
  function SocialBadges(socials: seq<Val>): (r: Res<string>)
    ensures r.Ok? <==> forall i | 0 <= i < |socials| :: !Nullish(socials[i])
    ensures r.Ok? ==> r.value == Concat(OkTexts(socials, SocialBadge))
  {
    ConcatRes(socials, SocialBadge)
  }

  /** The profile block: the avatar or a placeholder, the name, the bio and
      the social badges. */
  function ProfileHtml(profile: Val): (r: Res<string>)
    ensures r.Ok? <==> ListOf(OptProp(profile, "socials")).Ok?
                       && SocialBadges(ListOf(OptProp(profile, "socials")).value).Ok?
    ensures r.Ok? ==>
              && Contains(r.value, EscapeHtml(Or(OptProp(profile, "displayName"), Str("（名前未設定）"))))
              && Contains(r.value, EscapeHtml(OptProp(profile, "bio")))
              && Contains(r.value, SocialBadges(ListOf(OptProp(profile, "socials")).value).value)
  {
    var avatar := OptProp(profile, "avatarUrl");
    var img := if Truthy(avatar) then "<img class=\"avatar\" src=\"" + EscapeHtml(avatar) + "\" alt=\"avatar\" />"
               else "<div class=\"avatar placeholder\"></div>";
    var socials :- ListOf(OptProp(profile, "socials"));
    var badges :- SocialBadges(socials);
    Ok(ProfileBlock(img, EscapeHtml(Or(OptProp(profile, "displayName"), Str("（名前未設定）"))),
                    EscapeHtml(OptProp(profile, "bio")), badges))
  }

  /** The profile block's template with its pieces filled in. */
  function ProfileBlock(img: string, name: string, bio: string, badges: string): (r: string)
    ensures Contains(r, img) && Contains(r, name) && Contains(r, bio) && Contains(r, badges)
  {
    var parts := [PROFILE_HEAD, img, NAME, name, SUB, bio, SOCIALS, badges, END2];
    ConcatHasPart(parts, 1);
    ConcatHasPart(parts, 3);
    ConcatHasPart(parts, 5);
    ConcatHasPart(parts, 7);
    Concat(parts)
  }

  /** The head: the page title (the escaped display name, `Portfolio Viewer`
      without one) and the style sheet. */
  function PageHead(profile: Val, css: string): (r: string)
    ensures Contains(r, "<title>" + EscapeHtml(Or(OptProp(profile, "displayName"), Str("Portfolio Viewer"))) + "</title>")
    ensures Contains(r, css)
  {
    var parts := [META, "<title>" + EscapeHtml(Or(OptProp(profile, "displayName"), Str("Portfolio Viewer"))) + "</title>",
                  "<style>", css, "</style>"];
    ConcatHasPart(parts, 1);
    ConcatHasPart(parts, 3);
    Concat(parts)
  }

  /** The body: the header with the escaped display name (`Portfolio`
      without one), the profile block, the project section, the progress
      section and the collapse script. */
  function PageBody(profile: Val, profileHtml: string, projectsHtml: string, progress: Val, progressHtml: string,
                    script: string): (r: string)
    ensures Contains(r, EscapeHtml(Or(OptProp(profile, "displayName"), Str("Portfolio"))))
    ensures Contains(r, profileHtml) && Contains(r, projectsHtml) && Contains(r, ProgressSection(progress, progressHtml))
    ensures Contains(r, "<script>" + script + "</script>")
  {
    var parts := [HEADER, EscapeHtml(Or(OptProp(profile, "displayName"), Str("Portfolio"))), NAV, profileHtml,
                  PROJECTS, projectsHtml, END2, ProgressSection(progress, progressHtml), FOOTER,
                  "<script>" + script + "</script>"];
    ConcatHasPart(parts, 1);
    ConcatHasPart(parts, 3);
    ConcatHasPart(parts, 5);
    ConcatHasPart(parts, 7);
    ConcatHasPart(parts, 9);
    Concat(parts)
  }

  // The fixed markup between the filled-in pieces of the templates.
  const DOC_START: string := "<!doctype html><html lang=\"ja\"><head>"
  const HEAD_TO_BODY: string := "</head><body>"
  const DOC_END: string := "</body></html>"
  const META: string := "<meta charset=\"utf-8\" /><meta name=\"viewport\" content=\"width=device-width, initial-scale=1\" />"
  const HEADER: string := "<div class=\"container\"><div class=\"header\"><h1 class=\"title\">"
  const NAV: string := "</h1><div class=\"nav\"><span class=\"button\">閲覧専用</span></div></div>"
  const PROJECTS: string := "<div class=\"section\"><h2>作品一覧</h2><div class=\"grid\">"
  const FOOTER: string := "<footer class=\"sub\" style=\"margin-top:24px\">このファイルは閲覧専用です（編集機能は含まれていません）。</footer></div>"
  const PROFILE_HEAD: string := "<div class=\"profile\"><div class=\"profile-head\">"
  const NAME: string := "<div><div class=\"title\">"
  const SOCIALS: string := "</div></div></div><div class=\"socials\">"
  const CARD_THUMB: string := "<div class=\"card\"><div class=\"thumb\">"
  const META_TITLE: string := "</div><div class=\"meta\"><div class=\"title\">"
  const CARD_META_TITLE: string := "<div class=\"card\"><div class=\"meta\"><div class=\"title\">"
  const TAGS: string := "</div><div class=\"tags\">"
  const SUB: string := "</div><div class=\"sub\">"
  const BAR: string := "<div class=\"progress\"><div class=\"bar\" style=\""
  const BAR_TO_PERCENT: string := "\"></div><div class=\"percent\">"
  const DUE_SEP: string := " ／ "
  const END: string := "</div>"
  const END2: string := "</div></div>"

  /** The document: the doctype and the head, then the body. */
  function Page(head: string, body: string): (r: string)
    ensures IsPrefix(DOC_START, r)
    ensures Contains(r, head) && Contains(r, body)
  {
    var parts := [DOC_START, head, HEAD_TO_BODY, body, DOC_END];
    ConcatStart(parts);
    ConcatHasPart(parts, 1);
    ConcatHasPart(parts, 3);
    Concat(parts)
  }

  /** Project card `i` with its random fallback id. */
  function ProjectCardAt(randomText: nat -> string): (Val, nat) -> Res<string> {
    (p: Val, i: nat) => ProjectCard(p, randomText(i))
  }

  /** Progress card `i` with its random fallback id. */
  function ProgressCardAt(randomText: nat -> string, dateText: Val -> string): (Val, nat) -> Res<string> {
    (it: Val, i: nat) => ProgressCard(it, randomText(i), dateText)
  }

  lemma ProjectCardsOk(ps: seq<Val>, randomText: nat -> string)
    ensures Cards(ps, 0, ProjectCardAt(randomText)).Ok? <==>
            forall i | 0 <= i < |ps| :: ProjectCard(ps[i], randomText(i)).Ok?
  {
    assert forall i | 0 <= i < |ps| :: ProjectCardAt(randomText)(ps[i], 0 + i) == ProjectCard(ps[i], randomText(i));
  }

  lemma ProgressCardsOk(items: seq<Val>, n: nat, randomText: nat -> string, dateText: Val -> string)
    ensures Cards(items, n, ProgressCardAt(randomText, dateText)).Ok? <==>
            forall i | 0 <= i < |items| :: ProgressCard(items[i], randomText(n + i), dateText).Ok?
  {
    assert forall i | 0 <= i < |items| ::
      ProgressCardAt(randomText, dateText)(items[i], n + i) == ProgressCard(items[i], randomText(n + i), dateText);
  }

  /** The page is built when the profile's socials and both lists are of a
      shape the renderer reads without an exception, and so is every card
      (ProjectCardsOk, ProgressCardsOk). */
  predicate Renderable(payload: Val, randomText: nat -> string, dateText: Val -> string) {
    var projects := ListOf(OptProp(payload, "projects"));
    var progress := ListOf(OptProp(payload, "progress"));
    ProfileHtml(OptProp(payload, "profile")).Ok? && projects.Ok? && progress.Ok?
    && Cards(projects.value, 0, ProjectCardAt(randomText)).Ok?
    && Cards(progress.value, |projects.value|, ProgressCardAt(randomText, dateText)).Ok?
  }

  /** The three rendered parts of the page: the profile block, the project
      cards and the progress cards, in the order the source renders them. */
  function Sections(payload: Val, randomText: nat -> string, dateText: Val -> string): (r: Res<(string, string, string)>)
    ensures r.Ok? <==> Renderable(payload, randomText, dateText)
    ensures r.Ok? ==>
              && r.value.0 == ProfileHtml(OptProp(payload, "profile")).value
              && r.value.1 == Cards(ListOf(OptProp(payload, "projects")).value, 0, ProjectCardAt(randomText)).value
              && r.value.2 == Cards(ListOf(OptProp(payload, "progress")).value, |ListOf(OptProp(payload, "projects")).value|,
                                    ProgressCardAt(randomText, dateText)).value
  {
    var profileHtml :- ProfileHtml(OptProp(payload, "profile"));
    var ps :- ListOf(OptProp(payload, "projects"));
    var projectsHtml :- Cards(ps, 0, ProjectCardAt(randomText));
    var items :- ListOf(OptProp(payload, "progress"));
    var progressHtml :- Cards(items, |ps|, ProgressCardAt(randomText, dateText));
    Ok((profileHtml, projectsHtml, progressHtml))
  }

  /** buildViewerHtmlOffline: the page of the profile, the project cards and,
      when there are any, the progress cards. `css` and `script` are the
      fixed style sheet and collapse script; a record of the wrong shape
      makes the page fail, as the exception does in the source. Project card
      `i` draws `randomText(i)` and progress card `i` draws
      `randomText(n + i)`, n being the number of projects. */
  function BuildViewerHtmlOffline(payload: Val, css: string, script: string, randomText: nat -> string,
                                  dateText: Val -> string): (r: Res<string>)
    ensures r.Ok? <==> Renderable(payload, randomText, dateText)
    ensures r.Ok? ==> IsPrefix(DOC_START, r.value)
    ensures r.Ok? ==>
              var parts := Sections(payload, randomText, dateText).value;
              && Contains(r.value, PageHead(OptProp(payload, "profile"), css))
              && Contains(r.value, parts.0) && Contains(r.value, parts.1)
              && (OptProp(payload, "progress").Arr? && |OptProp(payload, "progress").elems| > 0 ==> Contains(r.value, parts.2))
  {
    var profile := OptProp(payload, "profile");
    var parts :- Sections(payload, randomText, dateText);
    var head := PageHead(profile, css);
    var body := PageBody(profile, parts.0, parts.1, OptProp(payload, "progress"), parts.2, script);
    var page := Page(head, body);
    ContainsTrans(page, body, parts.0);
    ContainsTrans(page, body, parts.1);
    var section := ProgressSection(OptProp(payload, "progress"), parts.2);
    assert section != "" ==> Contains(page, parts.2) by {
      if section != "" {
        ContainsTrans(page, body, section);
        ContainsTrans(page, section, parts.2);
      }
    }
    Ok(page)
  }

  /** A page without progress items has no progress section. */
  lemma NoProgressNoSection(progress: Val, cards: string)
    requires !Truthy(progress) || (progress.Arr? && progress.elems == [])
    ensures ProgressSection(progress, cards) == ""
  {
  }
}
