/** The publish panel of src/components/editor/PublishPanel.jsx: the payload
    of the three stores, and the share link that carries it, stamped with a
    publish id and a nonce, as a percent-encoded JSON text in the `d`
    parameter. JSON.stringify is the parameter `stringify`; the clock reading
    and the random number's base-36 text are parameters too. */
module PublishPanel {
  import opened JsString
  import opened JsValue
  import opened UriCodec

  /** buildPayload: a non-array list becomes `[]` and a falsy profile `{}`;
      values of the right shape are passed through. */
  function BuildPayload(projects: Val, profile: Val, progress: Val): (r: Val)
    ensures r.Obj? && r.fields.Keys == {"projects", "profile", "progress"}
    ensures r.fields["projects"].Arr? && (projects.Arr? ==> r.fields["projects"] == projects)
    ensures r.fields["progress"].Arr? && (progress.Arr? ==> r.fields["progress"] == progress)
    ensures !projects.Arr? ==> r.fields["projects"] == Arr([])
    ensures !progress.Arr? ==> r.fields["progress"] == Arr([])
    ensures Truthy(r.fields["profile"])
    ensures Truthy(profile) ==> r.fields["profile"] == profile
    ensures !Truthy(profile) ==> r.fields["profile"] == Obj(map[])
  {
    Obj(map[
      "projects" := (if projects.Arr? then projects else Arr([])),
      "profile" := Or(profile, Obj(map[])),
      "progress" := (if progress.Arr? then progress else Arr([]))])
  }

  predicate IsBase36Digit(c: char) {
    ('0' <= c <= '9') || ('a' <= c <= 'z')
  }

  /** What `Math.random().toString(36)` yields for a number in [0, 1): `0`, or
      `0.` followed by base-36 digits. */
  predicate IsRandomText(t: string) {
    t == "0" || (|t| >= 2 && t[..2] == "0." && forall i | 2 <= i < |t| :: IsBase36Digit(t[i]))
  }

  /** `s.slice(start, end)` for non-negative bounds, which are clamped to the length. */
  function Slice(s: string, start: nat, end: nat): (r: string)
    ensures |r| <= |s| && (start <= end ==> |r| <= end - start)
    ensures forall i | 0 <= i < |r| :: start + i < |s| && r[i] == s[start + i]
  {
    var a := if start < |s| then start else |s|;
    var b := if end < |s| then end else |s|;
    if a <= b then s[a..b] else ""
  }

  /** `Math.random().toString(36).slice(2, 8)` */
  function Nonce(randomText: string): string {
    Slice(randomText, 2, 8)
  }

  /** The nonce has at most six characters, each a base-36 digit. */
  lemma NonceShape(randomText: string)
    requires IsRandomText(randomText)
    ensures |Nonce(randomText)| <= 6
    ensures forall i | 0 <= i < |Nonce(randomText)| :: IsBase36Digit(Nonce(randomText)[i])
  {
  }

  function Meta(publishId: int, nonce: string): Val {
    Obj(map["publishId" := Num(publishId), "nonce" := Str(nonce)])
  }

  /** `Object.assign({}, payload, { meta })`: the payload's own fields, with
      `meta` set to the new stamp whether or not the payload had one. */
  function Stamped(payload: Val, meta: Val): (r: Val)
    ensures r.Obj? && r.fields.Keys == Spread(payload).Keys + {"meta"} && r.fields["meta"] == meta
    ensures forall k | k in Spread(payload) && k != "meta" :: r.fields[k] == Spread(payload)[k]
  {
    WithField(Assign(Obj(map[]), payload), "meta", meta)
  }

  /** generateShareUrl: the base URL, a `/` unless it already ends in one,
      `?d=`, and the percent-encoded JSON text of the stamped payload. */
  function GenerateShareUrl(baseUrl: string, payload: Val, publishId: int, randomText: string,
                            stringify: Val -> string): (r: string)
    ensures IsPrefix(baseUrl, r)
    ensures r == ShareUrl(baseUrl, stringify(Stamped(payload, Meta(publishId, Nonce(randomText)))))
  {
    var merged := Stamped(payload, Meta(publishId, Nonce(randomText)));
    var json := stringify(merged);
    var encoded := EncodeURIComponent(json);
    var sep := if IsSuffix("/", baseUrl) then "" else "/";
    baseUrl + sep + "?d=" + encoded
  }

  /** The link starts with the base URL followed by exactly one `/` before
      `?d=`, and the rest is only unreserved characters and complete `%XY`
      escapes, which decode back to the JSON text. */
  lemma ShareUrlShape(baseUrl: string, json: string)
    ensures var url := ShareUrl(baseUrl, json);
            var head := if IsSuffix("/", baseUrl) then baseUrl else baseUrl + "/";
            IsPrefix(head + "?d=", url)
            && WellEscaped(url[|head| + 3..])
            && DecodeURIComponent(url[|head| + 3..]) == Ok(json)
  {
    var head := if IsSuffix("/", baseUrl) then baseUrl else baseUrl + "/";
    var e := EncodeURIComponent(json);
    assert ShareUrl(baseUrl, json) == (head + "?d=") + e;
    SplitAfterPrefix(head + "?d=", e);
    EncodeWellEscaped(json);
    DecodeEncode(json);
  }

  lemma SplitAfterPrefix(a: string, b: string)
    ensures IsPrefix(a, a + b) && (a + b)[|a|..] == b
  {
    assert (a + b)[..|a|] == a;
  }

  /** updatePublish: with publishing disabled the link is cleared and nothing
      is encoded; otherwise a fresh link is generated. */
  function UpdatePublish(enabled: bool, baseUrl: string, payload: Val, publishId: int, randomText: string,
                         stringify: Val -> string): (r: string)
    ensures !enabled ==> r == ""
    ensures enabled ==> IsPrefix(baseUrl, r) && r == GenerateShareUrl(baseUrl, payload, publishId, randomText, stringify)
  {
    if !enabled then "" else GenerateShareUrl(baseUrl, payload, publishId, randomText, stringify)
  }
}
