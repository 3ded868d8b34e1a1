/** The profile store of src/store/profile.js: one profile object, the
    `portfolio_profile` slot of durable storage written after every change,
    and the module's sync lock. Every action stamps `updatedAt` with the
    current time; the social links and skills are lists addressed by index. */
module ProfileStore {
  import opened JsValue
  import opened Collection

  const STORAGE_KEY: string := "portfolio_profile"

  /** stateDefaults(): the profile a storage event falls back to, stamped with the time of the event. */
  function StateDefaults(now: string): (r: map<string, Val>)
    ensures r.Keys == {"displayName", "bio", "avatarUrl", "socials", "skills", "updatedAt"}
    ensures r["socials"].Arr? && |r["socials"].elems| == 2 && r["skills"] == Arr([])
    ensures r["updatedAt"] == Str(now)
  {
    map[
      "displayName" := Str("あなたの名前"),
      "bio" := Str("短い紹介文。肩書きや得意分野など。"),
      "avatarUrl" := Str(""),
      "socials" := Arr([
        Obj(map["type" := Str("x"), "label" := Str("X"), "url" := Str("https://x.com/your_id")]),
        Obj(map["type" := Str("roblox"), "label" := Str("Roblox"), "url" := Str("https://www.roblox.com/users/your_id/profile")])]),
      "skills" := Arr([]),
      "updatedAt" := Str(now)]
  }

  /** `{ ...base, ...data }` when the parsed value is an object or an array,
      else `base` alone. */
  function Overlay(base: map<string, Val>, data: Val): (r: map<string, Val>)
    ensures IsObjectLike(data) ==> r.Keys == base.Keys + Spread(data).Keys
    ensures IsObjectLike(data) ==> forall k | k in Spread(data) :: r[k] == Spread(data)[k]
    ensures base.Keys <= r.Keys
    ensures forall k | k in base && k !in Spread(data) :: r[k] == base[k]
    ensures !IsObjectLike(data) ==> r == base
  {
    if Truthy(data) && IsObjectLike(data) then base + Spread(data) else base
  }

  /** safeLoad: the sample profile overlaid by the stored object; the sample
      alone when the slot is empty, unparsable or holds no object. */
  function SafeLoad(raw: Stored, sample: map<string, Val>): (r: map<string, Val>)
    ensures !(raw.Parsed? && IsObjectLike(raw.value)) ==> r == sample
    ensures raw.Parsed? ==> r == Overlay(sample, raw.value)
  {
    match raw
    case Parsed(data) => Overlay(sample, data)
    case _ => sample
  }

  /** The storage listener's merged profile: `JSON.parse(e.newValue || '{}')`
      overlaid on stateDefaults(); unparsable text throws. */
  function SyncProfile(newValue: Stored, now: string): (r: Res<map<string, Val>>)
    ensures r.Err? <==> newValue.Malformed?
    ensures newValue.Missing? ==> r == Ok(StateDefaults(now))
    ensures newValue.Parsed? ==> r == Ok(Overlay(StateDefaults(now), newValue.value))
  {
    var data :- ParseOr(newValue, Obj(map[]));
    assert data == Obj(map[]) ==> StateDefaults(now) + Spread(data) == StateDefaults(now);
    Ok(Overlay(StateDefaults(now), data))
  }

  /** `{ ...profile, [name]: v, updatedAt: now }`: setName, setBio, setAvatarUrl. */
  function SetField(profile: map<string, Val>, name: string, v: Val, now: string): (r: map<string, Val>)
    requires name != "updatedAt"
    ensures r.Keys == profile.Keys + {name, "updatedAt"}
    ensures r[name] == v && r["updatedAt"] == Str(now)
    ensures forall k | k in profile && k != name && k != "updatedAt" :: r[k] == profile[k]
  {
    profile[name := v]["updatedAt" := Str(now)]
  }

  /** `profile.socials || []`, the list an index operation works on. */
  function ListOf(profile: map<string, Val>, key: string): Val {
    Or(Get(profile, key), Arr([]))
  }

  /** `xs.filter((_, i) => i !== index)` for the part of a list starting at
      position `base`: the element at position `index` goes, the others stay. */
  function DropAt(xs: seq<Val>, index: Val, base: nat): (r: seq<Val>)
    ensures index.Num? && base <= index.n < base + |xs| ==> r == xs[..index.n - base] + xs[index.n - base + 1..]
    ensures !(index.Num? && base <= index.n < base + |xs|) ==> r == xs
    decreases |xs|
  {
    if |xs| == 0 then []
    else
      var rest := DropAt(xs[1..], index, base + 1);
      if Num(base) == index then
        assert rest == xs[1..];
        rest
      else
        assert xs == [xs[0]] + xs[1..];
        [xs[0]] + rest
  }

  /** `xs.map((s, i) => i === index ? { ...s, ...patch } : s)` */
  function PatchAt(xs: seq<Val>, index: Val, patch: Val): (r: seq<Val>)
    ensures |r| == |xs|
    ensures forall i | 0 <= i < |xs| && index != Num(i) :: r[i] == xs[i]
    ensures forall i | 0 <= i < |xs| && index == Num(i) :: r[i] == Assign(xs[i], patch)
  {
    seq(|xs|, i requires 0 <= i < |xs| => if index == Num(i) then Assign(xs[i], patch) else xs[i])
  }

  /** addSocial/addSkill: `[...(profile[key] || []), entry]`; spreading a
      value that is not iterable throws. */
  function AddEntry(profile: map<string, Val>, key: string, entry: Val, now: string): (r: Res<map<string, Val>>)
    requires key != "updatedAt"
    ensures r.Ok? <==> ListOf(profile, key).Arr? || ListOf(profile, key).Str?
    ensures r.Ok? ==> r.value.Keys == profile.Keys + {key, "updatedAt"} && r.value["updatedAt"] == Str(now)
    ensures r.Ok? ==> forall k | k in profile && k != key && k != "updatedAt" :: r.value[k] == profile[k]
    ensures r.Ok? ==> var xs := IterSpread(ListOf(profile, key)).value;
                      r.value[key].Arr? && |r.value[key].elems| == |xs| + 1
                      && r.value[key].elems[..|xs|] == xs && r.value[key].elems[|xs|] == entry
  {
    var xs :- IterSpread(ListOf(profile, key));
    Ok(SetField(profile, key, Arr(xs + [entry]), now))
  }

  /** updateSocial/updateSkill: only the entry at `index` is patched; `.map`
      throws when the list is not an array. */
  function UpdateEntry(profile: map<string, Val>, key: string, index: Val, patch: Val, now: string): (r: Res<map<string, Val>>)
    requires key != "updatedAt"
    ensures r.Ok? <==> ListOf(profile, key).Arr?
    ensures r.Ok? ==> r.value.Keys == profile.Keys + {key, "updatedAt"} && r.value["updatedAt"] == Str(now)
    ensures r.Ok? ==> forall k | k in profile && k != key && k != "updatedAt" :: r.value[k] == profile[k]
    ensures r.Ok? ==> var xs := ListOf(profile, key).elems;
                      r.value[key].Arr? && |r.value[key].elems| == |xs|
                      && (forall i | 0 <= i < |xs| && index != Num(i) :: r.value[key].elems[i] == xs[i])
                      && (forall i | 0 <= i < |xs| && index == Num(i) :: r.value[key].elems[i] == Assign(xs[i], patch))
    ensures r.Ok? && !(index.Num? && 0 <= index.n < |ListOf(profile, key).elems|) ==> r.value[key] == ListOf(profile, key)
  {
    var xs :- AsArray(ListOf(profile, key));
    Ok(SetField(profile, key, Arr(PatchAt(xs, index, patch)), now))
  }

  /** removeSocial/removeSkill: exactly the entry at `index` goes; `.filter`
      throws when the list is not an array. */
  function RemoveEntry(profile: map<string, Val>, key: string, index: Val, now: string): (r: Res<map<string, Val>>)
    requires key != "updatedAt"
    ensures r.Ok? <==> ListOf(profile, key).Arr?
    ensures r.Ok? ==> r.value.Keys == profile.Keys + {key, "updatedAt"} && r.value["updatedAt"] == Str(now)
    ensures r.Ok? ==> forall k | k in profile && k != key && k != "updatedAt" :: r.value[k] == profile[k]
    ensures r.Ok? ==> var xs := ListOf(profile, key).elems;
                      index.Num? && 0 <= index.n < |xs| ==> r.value[key] == Arr(xs[..index.n] + xs[index.n + 1..])
    ensures r.Ok? && !(index.Num? && 0 <= index.n < |ListOf(profile, key).elems|) ==> r.value[key] == ListOf(profile, key)
  {
    var xs :- AsArray(ListOf(profile, key));
    Ok(SetField(profile, key, Arr(DropAt(xs, index, 0)), now))
  }

  const NEW_SOCIAL: Val := Obj(map["type" := Str("link"), "label" := Str("Link"), "url" := Str("")])
  const NEW_SKILL: Val := Obj(map["name" := Str(""), "category" := Str("design"), "level" := Num(3)])

  /** Removing the entry just added gives back the list as it was. */
  lemma AddThenRemoveEntry(profile: map<string, Val>, key: string, entry: Val, now: string, later: string)
    requires key != "updatedAt" && ListOf(profile, key).Arr?
    ensures AddEntry(profile, key, entry, now).Ok?
    ensures var added := AddEntry(profile, key, entry, now).value;
            var removed := RemoveEntry(added, key, Num(|ListOf(profile, key).elems|), later);
            removed.Ok? && removed.value[key] == ListOf(profile, key)
  {
    var xs := ListOf(profile, key).elems;
    var added := AddEntry(profile, key, entry, now).value;
    assert ListOf(added, key) == Arr(xs + [entry]);
    assert (xs + [entry])[..|xs|] == xs;
  }

  class Profile {
    var profile: map<string, Val>
    /** The `portfolio_profile` slot of durable storage. */
    var stored: Stored
    /** `__syncLockProfile` */
    var locked: bool

    /** Outside the storage listener the lock is always released. */
    predicate Valid()
      reads this
    {
      !locked
    }

    /** Store creation: the loaded profile; nothing is written. */
    constructor (raw: Stored, sample: map<string, Val>)
      ensures Valid() && profile == SafeLoad(raw, sample) && stored == raw
    {
      profile := SafeLoad(raw, sample);
      stored := raw;
      locked := false;
    }

    /** A state change followed by the persistence subscriber, which writes
        the profile unless the lock is set. */
    method Commit(next: map<string, Val>)
      modifies this
      ensures profile == next && locked == old(locked)
      ensures stored == (if locked then old(stored) else Parsed(Obj(next)))
    {
      profile := next;
      if !locked {
        stored := Parsed(Obj(profile));
      }
    }

    /** setProfile: `{ ...profile, ...patch, updatedAt: now }`; the import
        panel and the share-link loader use it too. */
    method SetProfile(patch: Val, now: string)
      requires Valid()
      modifies this
      ensures Valid()
      ensures profile == Merge(Obj(old(profile)), patch, now).fields && stored == Parsed(Obj(profile))
    {
      Commit(Merge(Obj(profile), patch, now).fields);
    }

    /** `setState({ profile })` */
    method SetState(next: map<string, Val>)
      requires Valid()
      modifies this
      ensures Valid()
      ensures profile == next && stored == Parsed(Obj(next))
    {
      Commit(next);
    }

    /** setName, setBio and setAvatarUrl, with `name` the field each sets. */
    method SetNamedField(name: string, v: Val, now: string)
      requires Valid() && name in {"displayName", "bio", "avatarUrl"}
      modifies this
      ensures Valid()
      ensures profile == SetField(old(profile), name, v, now) && stored == Parsed(Obj(profile))
    {
      Commit(SetField(profile, name, v, now));
    }

    /** addSocial (`key` = socials) and addSkill (`key` = skills); `threw`
        reports the TypeError, which leaves everything unchanged. */
    method Add(key: string, now: string) returns (threw: bool)
      requires Valid() && key in {"socials", "skills"}
      modifies this
      ensures Valid()
      ensures var entry := if key == "socials" then NEW_SOCIAL else NEW_SKILL;
              (threw <==> AddEntry(old(profile), key, entry, now).Err?)
              && (threw ==> profile == old(profile) && stored == old(stored))
              && (!threw ==> profile == AddEntry(old(profile), key, entry, now).value && stored == Parsed(Obj(profile)))
    {
      var entry := if key == "socials" then NEW_SOCIAL else NEW_SKILL;
      var r := AddEntry(profile, key, entry, now);
      if r.Err? {
        return true;
      }
      Commit(r.value);
      return false;
    }

    /** updateSocial and updateSkill. */
    method Update(key: string, index: Val, patch: Val, now: string) returns (threw: bool)
      requires Valid() && key in {"socials", "skills"}
      modifies this
      ensures Valid()
      ensures threw <==> UpdateEntry(old(profile), key, index, patch, now).Err?
      ensures threw ==> profile == old(profile) && stored == old(stored)
      ensures !threw ==> profile == UpdateEntry(old(profile), key, index, patch, now).value && stored == Parsed(Obj(profile))
    {
      var r := UpdateEntry(profile, key, index, patch, now);
      if r.Err? {
        return true;
      }
      Commit(r.value);
      return false;
    }

    /** removeSocial and removeSkill. */
    method Remove(key: string, index: Val, now: string) returns (threw: bool)
      requires Valid() && key in {"socials", "skills"}
      modifies this
      ensures Valid()
      ensures threw <==> RemoveEntry(old(profile), key, index, now).Err?
      ensures threw ==> profile == old(profile) && stored == old(stored)
      ensures !threw ==> profile == RemoveEntry(old(profile), key, index, now).value && stored == Parsed(Obj(profile))
    {
      var r := RemoveEntry(profile, key, index, now);
      if r.Err? {
        return true;
      }
      Commit(r.value);
      return false;
    }

    /** The storage listener: the merged profile replaces the current one
        unless they are equal, under the lock, so nothing is written back. */
    method OnStorage(key: string, newValue: Stored, now: string)
      requires Valid()
      modifies this
      ensures Valid()
      ensures stored == (if key == STORAGE_KEY then newValue else old(stored))
      ensures key == STORAGE_KEY && SyncProfile(newValue, now).Ok? ==> profile == SyncProfile(newValue, now).value
      ensures !(key == STORAGE_KEY && SyncProfile(newValue, now).Ok?) ==> profile == old(profile)
    {
      if key == STORAGE_KEY {
        stored := newValue;
        var r := SyncProfile(newValue, now);
        if r.Ok? && r.value != profile {
          locked := true;
          Commit(r.value);
        }
        locked := false;
      }
    }
  }
}
