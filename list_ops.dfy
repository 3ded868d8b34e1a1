/** Sequence operations the editor applies to item lists: the stable sort by
    the `order` field, the splice pair that moves one element (reorderMedia
    and the drag-and-drop `arrayMove`), and the renumbering of `order`. */
module ListOps {
  import opened JsValue
  import opened JsNumber

  /** `x.order ?? 0` as the comparators' subtraction reads it: a missing or
      null `order` counts as 0, a boolean as 0 or 1, and numeric text as the
      number it denotes (Number coercion). Where Number gives NaN the
      comparison answers "equal" (SortCompare turns NaN into +0), which no
      single key reproduces; the key reads that case as 0. */
  function OrderKey(v: Val): int {
    if v.Obj? && "order" in v.fields && v.fields["order"].Num? then v.fields["order"].n
    else if v.Obj? && "order" in v.fields then CoercedOrder(v.fields["order"])
    else 0
  }

  /** A non-number `order ?? 0` through Number, NaN read as 0. */
  function CoercedOrder(o: Val): int {
    var n := ToNumber(Coalesce(o, Num(0)));
    if n.Some? then n.value else 0
  }

  /** A sequence is sorted by a key when the keys never decrease. */
  predicate SortedBy<T>(s: seq<T>, key: T -> int) {
    forall i, j | 0 <= i < j < |s| :: key(s[i]) <= key(s[j])
  }

  /** Inserts `x` after every element whose key is at most its own. */
  function Insert<T>(t: seq<T>, x: T, key: T -> int): (r: seq<T>)
    requires SortedBy(t, key)
    ensures SortedBy(r, key)
    ensures multiset(r) == multiset(t) + multiset{x}
    ensures |r| == |t| + 1
    ensures r[0] == x || (|t| > 0 && r[0] == t[0])
  {
    if |t| == 0 then [x]
    else if key(t[0]) <= key(x) then
      var rest := Insert(t[1..], x, key);
      assert t == [t[0]] + t[1..];
      FirstBelowRest(t, x, rest, key);
      [t[0]] + rest
    else
      [x] + t
  }

  /** A sorted list's head stays ahead of the rest with one more element
      of no smaller key inserted. */
  lemma FirstBelowRest<T>(t: seq<T>, x: T, rest: seq<T>, key: T -> int)
    requires |t| > 0 && SortedBy(t, key) && key(t[0]) <= key(x)
    requires SortedBy(rest, key) && multiset(rest) == multiset(t[1..]) + multiset{x}
    ensures SortedBy([t[0]] + rest, key)
  {
    forall j | 0 <= j < |rest| ensures key(t[0]) <= key(rest[j]) {
      assert rest[j] in multiset(rest);
      if rest[j] != x {
        assert rest[j] in multiset(t[1..]);
        var i :| 0 <= i < |t[1..]| && t[1..][i] == rest[j];
        assert t[1 + i] == rest[j];
      }
    }
    var r := [t[0]] + rest;
    forall i, j | 0 <= i < j < |r| ensures key(r[i]) <= key(r[j]) {
      assert r[j] == rest[j - 1];
      if i > 0 {
        assert r[i] == rest[i - 1];
      }
    }
  }

  /** Array.prototype.sort with a comparator `key(a) - key(b)`: a stable sort,
      which the recursion realises by inserting each element after the earlier
      ones with the same key. */
  function SortBy<T>(s: seq<T>, key: T -> int): (r: seq<T>)
    ensures SortedBy(r, key)
    ensures multiset(r) == multiset(s)
    ensures |r| == |s|
  {
    if |s| == 0 then []
    else
      assert s == s[..|s| - 1] + [s[|s| - 1]];
      Insert(SortBy(s[..|s| - 1], key), s[|s| - 1], key)
  }

  /** The elements of `s` whose key is `k`, in order. */
  function WithKey<T>(s: seq<T>, key: T -> int, k: int): seq<T> {
    if |s| == 0 then []
    else WithKey(s[..|s| - 1], key, k) + (if key(s[|s| - 1]) == k then [s[|s| - 1]] else [])
  }

  lemma {:induction false} WithKeyPrepend<T>(x: T, t: seq<T>, key: T -> int, k: int)
    ensures WithKey([x] + t, key, k) == (if key(x) == k then [x] else []) + WithKey(t, key, k)
    decreases |t|
  {
    var s := [x] + t;
    if |t| > 0 {
      assert s[..|s| - 1] == [x] + t[..|t| - 1];
      WithKeyPrepend(x, t[..|t| - 1], key, k);
    }
  }

  /** WithKeyPrepend for a list split at its head. */
  lemma WithKeyOfHead<T>(t: seq<T>, key: T -> int, k: int)
    requires |t| > 0
    ensures WithKey(t, key, k) == (if key(t[0]) == k then [t[0]] else []) + WithKey(t[1..], key, k)
  {
    assert t == [t[0]] + t[1..];
    WithKeyPrepend(t[0], t[1..], key, k);
  }

  lemma ConcatAssoc<T>(a: seq<T>, b: seq<T>, c: seq<T>)
    ensures a + (b + c) == (a + b) + c
  {
  }

  lemma {:induction false} WithKeyAbove<T>(t: seq<T>, key: T -> int, k: int)
    requires forall i | 0 <= i < |t| :: key(t[i]) > k
    ensures WithKey(t, key, k) == []
    decreases |t|
  {
    if |t| > 0 {
      WithKeyAbove(t[..|t| - 1], key, k);
    }
  }

  /** The two ways Insert unfolds on a non-empty list. */
  lemma InsertUnfolds<T>(t: seq<T>, x: T, key: T -> int)
    requires |t| > 0 && SortedBy(t, key)
    ensures key(t[0]) <= key(x) ==> Insert(t, x, key) == [t[0]] + Insert(t[1..], x, key)
    ensures key(x) < key(t[0]) ==> Insert(t, x, key) == [x] + t
  {
  }

  lemma {:induction false} InsertWithKey<T>(t: seq<T>, x: T, key: T -> int, k: int)
    requires SortedBy(t, key)
    ensures WithKey(Insert(t, x, key), key, k) == WithKey(t, key, k) + (if key(x) == k then [x] else [])
    decreases |t|
  {
    var px := if key(x) == k then [x] else [];
    if |t| == 0 {
      assert WithKey(Insert(t, x, key), key, k) == px + [] by {
        assert Insert(t, x, key) == [x] + [];
        WithKeyPrepend(x, [], key, k);
      }
      assert px + [] == [] + px;
    } else if key(t[0]) <= key(x) {
      var p0 := if key(t[0]) == k then [t[0]] else [];
      var rest := Insert(t[1..], x, key);
      var w1 := WithKey(t[1..], key, k);
      assert WithKey(Insert(t, x, key), key, k) == p0 + (w1 + px) by {
        InsertUnfolds(t, x, key);
        InsertWithKey(t[1..], x, key, k);
        WithKeyPrepend(t[0], rest, key, k);
      }
      WithKeyOfHead(t, key, k);
      ConcatAssoc(p0, w1, px);
    } else {
      var w := WithKey(t, key, k);
      assert WithKey(Insert(t, x, key), key, k) == px + w by {
        InsertUnfolds(t, x, key);
        WithKeyPrepend(x, t, key, k);
      }
      if key(x) == k {
        WithKeyAbove(t, key, k);
        assert px + [] == [] + px;
      } else {
        assert [] + w == w + [];
      }
    }
  }

  /** The sort is stable: the elements sharing one key keep their relative order. */
  lemma {:induction false} SortByStable<T>(s: seq<T>, key: T -> int, k: int)
    ensures WithKey(SortBy(s, key), key, k) == WithKey(s, key, k)
    decreases |s|
  {
    if |s| > 0 {
      SortByStable(s[..|s| - 1], key, k);
      InsertWithKey(SortBy(s[..|s| - 1], key), s[|s| - 1], key, k);
    }
  }

  /** `r` is `s` sorted by `key`, with the elements of each key in their order in `s`. */
  ghost predicate IsStableSortOf<T>(r: seq<T>, s: seq<T>, key: T -> int) {
    multiset(r) == multiset(s) && SortedBy(r, key) && forall k :: WithKey(r, key, k) == WithKey(s, key, k)
  }

  /** SortBy is a stable sort. */
  lemma SortByIsStableSort<T>(s: seq<T>, key: T -> int)
    ensures IsStableSortOf(SortBy(s, key), s, key)
  {
    forall k ensures WithKey(SortBy(s, key), key, k) == WithKey(s, key, k) {
      SortByStable(s, key, k);
    }
  }

  /** `s.sort((a, b) => (a.order ?? 0) - (b.order ?? 0))` */
  function SortByOrder(s: seq<Val>): (r: seq<Val>)
    ensures SortedBy(r, OrderKey)
    ensures multiset(r) == multiset(s)
    ensures |r| == |s|
  {
    SortBy(s, OrderKey)
  }

  /** `.map((p, idx) => ({ ...p, order: idx }))` */
  function Renumber(s: seq<Val>): (r: seq<Val>)
    ensures |r| == |s|
    ensures forall i | 0 <= i < |s| :: r[i].Obj? && r[i].fields.Keys == Spread(s[i]).Keys + {"order"}
    ensures forall i | 0 <= i < |s| :: r[i].fields["order"] == Num(i)
    ensures forall i, k | 0 <= i < |s| && k in Spread(s[i]) && k != "order" :: r[i].fields[k] == Spread(s[i])[k]
  {
    if |s| == 0 then []
    else
      var last := Obj(Spread(s[|s| - 1])["order" := Num(|s| - 1)]);
      Renumber(s[..|s| - 1]) + [last]
  }

  /** The start index Array.prototype.splice derives from its first argument. */
  function SpliceStart(len: nat, start: int): (r: nat)
    ensures r <= len
    ensures 0 <= start <= len ==> r == start
  {
    if start < 0 then (if len + start < 0 then 0 else len + start)
    else if start > len then len
    else start
  }

  /** `const [m] = arr.splice(from, 1); arr.splice(to, 0, m)` on a copy of `s`.
      A start past the end removes nothing, and the element inserted is then
      undefined. */
  function SpliceMove(s: seq<Val>, from: int, to: int): (r: seq<Val>)
    ensures |r| == (if SpliceStart(|s|, from) < |s| then |s| else |s| + 1)
  {
    var f := SpliceStart(|s|, from);
    var m := if f < |s| then s[f] else Undefined;
    var rest := if f < |s| then s[..f] + s[f + 1..] else s;
    var t := SpliceStart(|rest|, to);
    rest[..t] + [m] + rest[t..]
  }

  /** `arrayMove(s, from, to)` of the drag-and-drop kit: a negative target
      counts from the end of the array before the removal. */
  function ArrayMove(s: seq<Val>, from: int, to: int): (r: seq<Val>)
    ensures |r| == (if from < |s| && |s| > 0 then |s| else |s| + 1)
  {
    SpliceMove(s, from, if to < 0 then |s| + to else to)
  }

  /** `s` without its element at index i. */
  function RemoveIndex(s: seq<Val>, i: nat): (r: seq<Val>)
    requires i < |s|
    ensures |r| == |s| - 1
  {
    s[..i] + s[i + 1..]
  }

  /** With both indices in range the move is a permutation that puts the moved
      element at `to` and keeps the others in their relative order. */
  lemma SpliceMoveInRange(s: seq<Val>, from: int, to: int)
    requires 0 <= from < |s| && 0 <= to < |s|
    ensures |SpliceMove(s, from, to)| == |s|
    ensures multiset(SpliceMove(s, from, to)) == multiset(s)
    ensures SpliceMove(s, from, to)[to] == s[from]
    ensures RemoveIndex(SpliceMove(s, from, to), to) == RemoveIndex(s, from)
  {
    var rest := s[..from] + s[from + 1..];
    var r := SpliceMove(s, from, to);
    assert r == rest[..to] + [s[from]] + rest[to..];
    assert s == s[..from] + [s[from]] + s[from + 1..];
    assert rest == rest[..to] + rest[to..];
    assert r[..to] + r[to + 1..] == rest;
    calc {
      multiset(r);
      multiset(rest[..to]) + multiset{s[from]} + multiset(rest[to..]);
      multiset(rest) + multiset{s[from]};
      multiset(s[..from]) + multiset(s[from + 1..]) + multiset{s[from]};
      multiset(s);
    }
  }

  lemma ArrayMoveInRange(s: seq<Val>, from: int, to: int)
    requires 0 <= from < |s| && 0 <= to < |s|
    ensures ArrayMove(s, from, to) == SpliceMove(s, from, to)
    ensures |ArrayMove(s, from, to)| == |s|
    ensures multiset(ArrayMove(s, from, to)) == multiset(s)
    ensures ArrayMove(s, from, to)[to] == s[from]
    ensures RemoveIndex(ArrayMove(s, from, to), to) == RemoveIndex(s, from)
  {
    SpliceMoveInRange(s, from, to);
  }

  /** Renumbering the stable sort of the entries `5` (order 2), `x` (order 0)
      and `y` (order 2). */
  lemma ExampleResult(e: Val, x: Val, y: Val)
    requires OrderKey(x) == 0 && "id" in Spread(x) && Spread(x)["id"] == Str("x")
    requires OrderKey(e) == 2 && "id" in Spread(e) && Spread(e)["id"] == Str("5")
    requires OrderKey(y) == 2 && "id" in Spread(y) && Spread(y)["id"] == Str("y")
    ensures var r := Renumber(SortByOrder([e, x, y]));
            |r| == 3 && Get(r[0].fields, "id") == Str("x") && Get(r[1].fields, "id") == Str("5")
            && Get(r[2].fields, "id") == Str("y")
  {
    ExampleSort(e, x, y, OrderKey);
    var s := [x, e, y];
    var r := Renumber(s);
    assert r[0].fields["id"] == Spread(s[0])["id"];
    assert r[1].fields["id"] == Spread(s[1])["id"];
    assert r[2].fields["id"] == Spread(s[2])["id"];
  }

  /** The stable sort of keys 2, 0, 2. */
  lemma ExampleSort<T>(e: T, x: T, y: T, key: T -> int)
    requires key(e) == 2 && key(x) == 0 && key(y) == 2
    ensures SortBy([e, x, y], key) == [x, e, y]
  {
    assert key(x) < key(e);
    ExampleSortTwo(e, x, key);
    assert [e, x, y][..2] == [e, x];
    SortByLast([e, x, y], key);
    InsertLast([x, e], y, key);
  }

  /** Two records whose orders are out of place are swapped, then renumbered. */
  lemma SwappedRenumbered(e: Val, x: Val)
    requires OrderKey(x) < OrderKey(e)
    requires "id" in Spread(e) && "id" in Spread(x)
    ensures var r := Renumber(SortByOrder([e, x]));
            |r| == 2 && Get(r[0].fields, "id") == Spread(x)["id"] && Get(r[1].fields, "id") == Spread(e)["id"]
  {
    ExampleSortTwo(e, x, OrderKey);
    var r := Renumber([x, e]);
    assert r[0].fields["id"] == Spread(x)["id"];
    assert r[1].fields["id"] == Spread(e)["id"];
  }

  /** Two elements whose keys are out of order are swapped. */
  lemma ExampleSortTwo<T>(e: T, x: T, key: T -> int)
    requires key(x) < key(e)
    ensures SortBy([e, x], key) == [x, e]
  {
    assert [e, x][..1] == [e] && [e][..0] == [];
    assert SortBy([e], key) == [e];
  }

  /** The sort inserts the last element into the sorted rest. */
  lemma SortByLast<T>(s: seq<T>, key: T -> int)
    requires |s| > 0
    ensures SortBy(s, key) == Insert(SortBy(s[..|s| - 1], key), s[|s| - 1], key)
  {
  }

  /** An element with a key no smaller than any goes last. */
  lemma {:induction false} InsertLast<T>(t: seq<T>, x: T, key: T -> int)
    requires SortedBy(t, key) && forall i | 0 <= i < |t| :: key(t[i]) <= key(x)
    ensures Insert(t, x, key) == t + [x]
    decreases |t|
  {
    if |t| > 0 {
      InsertLast(t[1..], x, key);
      assert t == [t[0]] + t[1..];
    }
  }

}
