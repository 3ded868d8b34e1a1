/** JavaScript values as the editor's stores hold them, and the handful of
    language operations the stores are written with: truthiness, `||` and `??`,
    property reads that throw on null and undefined, object spread, array
    spread, `.map`/`.filter` receivers, and String(v). */
module JsValue {
  import opened JsString

  datatype Option<+T> = None | Some(value: T)

  /** The outcome of evaluating an expression: a value, or a thrown exception
      (a TypeError from reading a property of null or undefined, calling an
      array method on a non-array, or spreading a non-iterable into an array). */
  datatype Res<+T> = Ok(value: T) | Err
  {
    predicate IsFailure() { Err? }

    function PropagateFailure<U>(): Res<U>
      requires Err?
    {
      Err
    }

    function Extract(): T
      requires Ok?
    {
      value
    }
  }

  /** A JSON-like JavaScript value. Numbers are integers; key order of objects is
      not represented. */
  datatype Val =
    | Undefined
    | Null
    | Bool(b: bool)
    | Num(n: int)
    | Str(s: string)
    | Arr(elems: seq<Val>)
    | Obj(fields: map<string, Val>)

  /** What a durable storage slot yields once read and passed through JSON.parse:
      nothing (the slot is absent or holds the empty string), text JSON.parse
      rejects, or a parsed value. */
  datatype Stored = Missing | Malformed | Parsed(value: Val)

  /** `JSON.parse(raw || fallback)` for a slot whose fallback text parses to `fallback`. */
  function ParseOr(raw: Stored, fallback: Val): Res<Val> {
    match raw
    case Missing => Ok(fallback)
    case Malformed => Err
    case Parsed(v) => Ok(v)
  }

  predicate Truthy(v: Val) {
    match v
    case Undefined => false
    case Null => false
    case Bool(b) => b
    case Num(n) => n != 0
    case Str(s) => s != ""
    case Arr(_) => true
    case Obj(_) => true
  }

  /** `a || b` */
  function Or(a: Val, b: Val): (r: Val)
    ensures Truthy(a) ==> r == a
    ensures !Truthy(a) ==> r == b
  {
    if Truthy(a) then a else b
  }

  predicate Nullish(v: Val) {
    v.Undefined? || v.Null?
  }

  /** `a ?? b` */
  function Coalesce(a: Val, b: Val): (r: Val)
    ensures Nullish(a) ==> r == b
    ensures !Nullish(a) ==> r == a
  {
    if Nullish(a) then b else a
  }

  /** `v && typeof v === 'object'`: an object or an array. */
  predicate IsObjectLike(v: Val) {
    v.Obj? || v.Arr?
  }

  /** The value of the digits of `k`, most significant first. */
  function DigitsValue(k: string): nat
    requires forall i | 0 <= i < |k| :: IsDigit(k[i])
  {
    if |k| == 0 then 0
    else
      assert IsDigit(k[|k| - 1]);
      10 * DigitsValue(k[..|k| - 1]) + (k[|k| - 1] as int - '0' as int)
  }

  /** The array index a property key names: a canonical decimal numeral. */
  function IndexKey(k: string): Option<nat> {
    if |k| > 0 && (forall i | 0 <= i < |k| :: IsDigit(k[i])) && (|k| == 1 || k[0] != '0')
    then Some(DigitsValue(k))
    else None
  }

  /** A key with a character other than a digit names no array index. */
  lemma NonDigitKeyIsNoIndex(k: string, i: nat)
    requires i < |k| && !IsDigit(k[i])
    ensures IndexKey(k).None?
  {
  }

  function Get(m: map<string, Val>, k: string): Val {
    if k in m then m[k] else Undefined
  }

  function CharVals(s: string): (r: seq<Val>)
    ensures |r| == |s|
    ensures forall i | 0 <= i < |s| :: r[i] == Str([s[i]])
  {
    seq(|s|, i requires 0 <= i < |s| => Str([s[i]]))
  }

  /** `v[k]`: throws on null and undefined; reads fields, array elements,
      string characters and `length`; every other key reads undefined. */
  function Prop(v: Val, k: string): (r: Res<Val>)
    ensures r.Err? <==> Nullish(v)
    ensures v.Obj? ==> r == Ok(Get(v.fields, k))
  {
    match v
    case Undefined => Err
    case Null => Err
    case Obj(m) => Ok(Get(m, k))
    case Arr(a) =>
      var ix := IndexKey(k);
      if ix.Some? && ix.value < |a| then Ok(a[ix.value])
      else if k == "length" then Ok(Num(|a|))
      else Ok(Undefined)
    case Str(s) =>
      var ix := IndexKey(k);
      if ix.Some? && ix.value < |s| then Ok(Str([s[ix.value]]))
      else if k == "length" then Ok(Num(|s|))
      else Ok(Undefined)
    case _ => Ok(Undefined)
  }

  /** `v?.k` */
  function OptProp(v: Val, k: string): Val {
    if Nullish(v) then Undefined else Prop(v, k).value
  }

  /** The index-keyed entries `{...a}` produces for an array or a string. */
  function IndexMap(a: seq<Val>): (m: map<string, Val>)
    ensures forall k | k in m :: IndexKey(k).Some?
  {
    if |a| == 0 then map[]
    else IndexMap(a[..|a| - 1])[NatStr(|a| - 1) := a[|a| - 1]]
  }

  /** The own enumerable entries `{...v}` copies; null, undefined, booleans
      and numbers contribute none. */
  function Spread(v: Val): (m: map<string, Val>)
    ensures v.Obj? ==> m == v.fields
    ensures !IsObjectLike(v) && !v.Str? ==> m == map[]
  {
    match v
    case Obj(m) => m
    case Arr(a) => IndexMap(a)
    case Str(s) => IndexMap(CharVals(s))
    case _ => map[]
  }

  /** A key that names no array index reads the same from `{...v}` as from `v`,
      unless it is `length`. */
  lemma SpreadKeepsNamedKey(v: Val, k: string)
    requires !Nullish(v) && IndexKey(k).None? && k != "length"
    ensures Prop(Obj(Spread(v)), k) == Prop(v, k)
  {
  }

  /** `{ ...a, ...b }` */
  function Assign(a: Val, b: Val): (r: Val)
    ensures r.Obj? && r.fields.Keys == Spread(a).Keys + Spread(b).Keys
    ensures forall k | k in Spread(b) :: r.fields[k] == Spread(b)[k]
    ensures forall k | k in Spread(a) && k !in Spread(b) :: r.fields[k] == Spread(a)[k]
  {
    Obj(Spread(a) + Spread(b))
  }

  /** `{ ...v, [k]: x }` */
  function WithField(v: Val, k: string, x: Val): (r: Val)
    ensures r.Obj? && r.fields.Keys == Spread(v).Keys + {k} && r.fields[k] == x
    ensures forall j | j in Spread(v) && j != k :: r.fields[j] == Spread(v)[j]
  {
    Obj(Spread(v)[k := x])
  }

  /** The elements `[...v]` iterates: those of an array, the characters of a
      string; anything else throws. */
  function IterSpread(v: Val): (r: Res<seq<Val>>)
    ensures r.Ok? <==> v.Arr? || v.Str?
    ensures v.Arr? ==> r == Ok(v.elems)
  {
    match v
    case Arr(a) => Ok(a)
    case Str(s) => Ok(CharVals(s))
    case _ => Err
  }

  /** The receiver of `.map`, `.filter` or `.some`: only an array has them. */
  function AsArray(v: Val): (r: Res<seq<Val>>)
    ensures r.Ok? <==> v.Arr?
  {
    if v.Arr? then Ok(v.elems) else Err
  }

  /** String(v). */
  function ToStr(v: Val): string
    decreases v, 1
  {
    match v
    case Undefined => "undefined"
    case Null => "null"
    case Bool(b) => if b then "true" else "false"
    case Num(n) => IntStr(n)
    case Str(s) => s
    case Arr(a) => JoinElems(a, v)
    case Obj(_) => "[object Object]"
  }

  /** Array.prototype.join(','), where null and undefined elements render empty. */
  function JoinElems(a: seq<Val>, ghost whole: Val): string
    requires forall i | 0 <= i < |a| :: a[i] < whole
    decreases whole, 0, |a|
  {
    if |a| == 0 then ""
    else
      var first := if Nullish(a[0]) then "" else ToStr(a[0]);
      if |a| == 1 then first else first + "," + JoinElems(a[1..], whole)
  }

  /** Text read from a field for display and search: a string as is, nothing as
      the empty string, anything else through String(v). */
  function Text(v: Val): string {
    if Nullish(v) then "" else ToStr(v)
  }

  /** `xs.map(f)` where `f` may throw: the first exception wins. */
  function MapRes<T, U>(s: seq<T>, f: T -> Res<U>): (r: Res<seq<U>>)
    ensures r.Ok? <==> forall i | 0 <= i < |s| :: f(s[i]).Ok?
    ensures r.Ok? ==> |r.value| == |s| && forall i | 0 <= i < |s| :: r.value[i] == f(s[i]).value
  {
    if |s| == 0 then Ok([])
    else
      var h := f(s[0]);
      var t := MapRes(s[1..], f);
      if h.Err? then Err
      else if t.Err? then (assert !f(s[1..][0]).Ok? || exists i | 0 <= i < |s| - 1 :: !f(s[1..][i]).Ok?; Err)
      else Ok([h.value] + t.value)
  }

  /** `xs.map((x, i) => f(i, x))` where `f` may throw, built from the back so
      that each element keeps its index. */
  function MapResIndexed<T, U>(s: seq<T>, f: (nat, T) -> Res<U>): (r: Res<seq<U>>)
    ensures r.Ok? <==> forall i | 0 <= i < |s| :: f(i, s[i]).Ok?
    ensures r.Ok? ==> |r.value| == |s| && forall i | 0 <= i < |s| :: f(i, s[i]) == Ok(r.value[i])
  {
    if |s| == 0 then Ok([])
    else
      var n := |s| - 1;
      var init := MapResIndexed(s[..n], f);
      var last := f(n, s[n]);
      assert forall i | 0 <= i < n :: s[..n][i] == s[i];
      if init.Err? then Err
      else if last.Err? then Err
      else
        var r := init.value + [last.value];
        assert forall i | 0 <= i < n :: r[i] == init.value[i];
        Ok(r)
  }

  /** `xs.map(f).join('')` where `f` may throw: the first exception wins. */
  function ConcatRes<T>(s: seq<T>, f: T -> Res<string>): (r: Res<string>)
    ensures r.Ok? <==> forall i | 0 <= i < |s| :: f(s[i]).Ok?
    ensures r.Ok? ==> (r.value == "" <==> forall i | 0 <= i < |s| :: f(s[i]) == Ok(""))
    ensures r.Ok? ==> r.value == Concat(OkTexts(s, f))
    decreases |s|
  {
    if |s| == 0 then Ok("")
    else
      var h := f(s[0]);
      var t := ConcatRes(s[1..], f);
      assert forall i | 1 <= i < |s| :: s[i] == s[1..][i - 1];
      if h.Err? || t.Err? then Err
      else
        assert OkTexts(s, f)[1..] == OkTexts(s[1..], f);
        Ok(h.value + t.value)
  }

  /** The texts of elements none of which throws, in order. */
  function OkTexts<T>(s: seq<T>, f: T -> Res<string>): (r: seq<string>)
    requires forall i | 0 <= i < |s| :: f(s[i]).Ok?
    ensures |r| == |s| && forall i | 0 <= i < |s| :: f(s[i]) == Ok(r[i])
  {
    seq(|s|, i requires 0 <= i < |s| => f(s[i]).value)
  }

  /** The number of elements of `s` that `p` accepts. */
  function CountTrue<T>(s: seq<T>, p: T -> Res<bool>): (r: nat)
    ensures r <= |s|
    decreases |s|
  {
    if |s| == 0 then 0 else (if p(s[0]) == Ok(true) then 1 else 0) + CountTrue(s[1..], p)
  }

  /** `r` is `s` with some elements left out and the rest in their order. */
  predicate IsSubsequence<T(==)>(r: seq<T>, s: seq<T>)
    decreases |s|
  {
    if |s| == 0 then |r| == 0
    else (|r| > 0 && r[0] == s[0] && IsSubsequence(r[1..], s[1..])) || IsSubsequence(r, s[1..])
  }

  /** `xs.filter(p)` where `p` may throw: the accepted elements, each as often
      as it is accepted, in their order. */
  function FilterRes<T>(s: seq<T>, p: T -> Res<bool>): (r: Res<seq<T>>)
    ensures r.Ok? <==> forall i | 0 <= i < |s| :: p(s[i]).Ok?
    ensures r.Ok? ==> IsSubsequence(r.value, s) && |r.value| == CountTrue(s, p)
    ensures r.Ok? ==> forall x | x in r.value :: x in s && p(x) == Ok(true)
    ensures r.Ok? ==> forall i | 0 <= i < |s| && p(s[i]) == Ok(true) :: s[i] in r.value
    ensures r.Ok? && (forall i | 0 <= i < |s| :: p(s[i]) == Ok(true)) ==> r.value == s
    decreases |s|
  {
    if |s| == 0 then Ok([])
    else
      var h := p(s[0]);
      var t := FilterRes(s[1..], p);
      if h.Err? then Err
      else if t.Err? then Err
      else
        var rest := t.value;
        assert forall i | 1 <= i < |s| && p(s[i]) == Ok(true) :: s[i] in rest by {
          forall i | 1 <= i < |s| && p(s[i]) == Ok(true) ensures s[i] in rest {
            assert s[1..][i - 1] == s[i];
          }
        }
        if h.value then
          assert ([s[0]] + rest)[1..] == rest;
          Ok([s[0]] + rest)
        else Ok(rest)
  }

  /** The filter keeps every accepted element as often as the list holds it. */
  lemma {:induction false} FilterResMultiplicity<T>(s: seq<T>, p: T -> Res<bool>, x: T)
    requires FilterRes(s, p).Ok?
    ensures multiset(FilterRes(s, p).value)[x] == if p(x) == Ok(true) then multiset(s)[x] else 0
    decreases |s|
  {
    if |s| > 0 {
      FilterResMultiplicity(s[1..], p, x);
      assert s == [s[0]] + s[1..];
    }
  }

  /** A filter every element passes keeps the whole list. */
  lemma FilterResAll<T>(s: seq<T>, p: T -> Res<bool>)
    requires forall i | 0 <= i < |s| :: p(s[i]) == Ok(true)
    ensures FilterRes(s, p) == Ok(s)
  {
    assert FilterRes(s, p).Ok?;
  }

  /** Filtering out one more element that the predicate rejects changes nothing. */
  lemma {:induction false} FilterResDropLast<T>(s: seq<T>, x: T, p: T -> Res<bool>)
    requires p(x) == Ok(false)
    ensures FilterRes(s + [x], p) == FilterRes(s, p)
    decreases |s|
  {
    if |s| == 0 {
      assert (s + [x])[1..] == [];
    } else {
      assert (s + [x])[1..] == s[1..] + [x];
      FilterResDropLast(s[1..], x, p);
    }
  }

  /** `s.slice(0, n)` */
  function Take<T>(s: seq<T>, n: nat): (r: seq<T>)
    ensures |r| <= n && |r| <= |s| && r == s[..|r|]
    ensures |s| <= n ==> r == s
    ensures |s| > n ==> |r| == n
  {
    if |s| <= n then s else s[..n]
  }
}
