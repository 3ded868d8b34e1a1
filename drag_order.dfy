/** What the editor's drag-and-drop lists share: the ids of a list of
    records, `indexOf`, the drag kit's `arrayMove` seen through the ids, and
    the fact that reordering a list of records keeps the multiset of their
    keys (the property names `reorder` looks them up by). */
module DragOrder {
  import opened JsValue
  import opened ListOps
  import Collection

  function IdOf(p: Val): Res<Val> {
    Prop(p, "id")
  }

  /** `s.map(p => p.id)` */
  function Ids(s: seq<Val>): (r: Res<seq<Val>>)
    ensures r.Ok? <==> forall i | 0 <= i < |s| :: !Nullish(s[i])
    ensures r.Ok? ==> |r.value| == |s| && forall i | 0 <= i < |s| :: r.value[i] == OptProp(s[i], "id")
  {
    MapRes(s, IdOf)
  }

  /** `s.indexOf(x)`: the first index holding x, or -1. */
  function IndexOf(s: seq<Val>, x: Val): (r: int)
    ensures -1 <= r < |s|
    ensures r == -1 <==> x !in s
    ensures r >= 0 ==> s[r] == x && forall k | 0 <= k < r :: s[k] != x
    decreases |s|
  {
    if |s| == 0 then -1
    else if s[0] == x then 0
    else
      var k := IndexOf(s[1..], x);
      assert forall y | y in s[1..] :: y in s;
      if k == -1 then -1 else k + 1
  }

  /** Records with distinct keys, as the store keeps them. */
  predicate DistinctRecords(items: seq<Val>) {
    (forall j | 0 <= j < |items| :: items[j].Obj?)
    && forall j, j' | 0 <= j < j' < |items| :: Collection.KeyOf(items[j]) != Collection.KeyOf(items[j'])
  }

  /** Splitting a list by a test and its negation loses and adds nothing. */
  lemma {:induction false} FilterPartition(s: seq<Val>, p: Val -> Res<bool>, q: Val -> Res<bool>)
    requires forall i | 0 <= i < |s| :: p(s[i]).Ok? && q(s[i]) == Ok(!p(s[i]).value)
    ensures FilterRes(s, p).Ok? && FilterRes(s, q).Ok?
    ensures multiset(FilterRes(s, p).value) + multiset(FilterRes(s, q).value) == multiset(s)
    decreases |s|
  {
    if |s| > 0 {
      FilterPartition(s[1..], p, q);
      assert s == [s[0]] + s[1..];
    }
  }

  lemma KeysAppend(a: seq<Val>, b: seq<Val>)
    requires forall i | 0 <= i < |a| :: !Nullish(a[i])
    requires forall i | 0 <= i < |b| :: !Nullish(b[i])
    ensures Collection.Keys(a + b) == Collection.Keys(a) + Collection.Keys(b)
  {
    assert forall i | 0 <= i < |a + b| :: !Nullish((a + b)[i]);
  }

  /** `s.map(f)` for a total f. */
  function MapSeq<T, U>(s: seq<T>, f: T -> U): (r: seq<U>)
    ensures |r| == |s| && forall i | 0 <= i < |s| :: r[i] == f(s[i])
  {
    seq(|s|, i requires 0 <= i < |s| => f(s[i]))
  }

  /** Taking one element out of a list takes its image out of the mapped list. */
  lemma MapRemove<T, U>(b: seq<T>, k: nat, f: T -> U)
    requires k < |b|
    ensures multiset(MapSeq(b, f)) == multiset(MapSeq(b[..k] + b[k + 1..], f)) + multiset{f(b[k])}
  {
    var m, m1, m2 := MapSeq(b, f), MapSeq(b[..k], f), MapSeq(b[k + 1..], f);
    assert m == m1 + [f(b[k])] + m2;
    assert MapSeq(b[..k] + b[k + 1..], f) == m1 + m2;
  }

  /** Mapping two lists that hold the same elements gives lists that hold the
      same images. */
  lemma {:induction false} MapFollowsMultiset<T, U>(a: seq<T>, b: seq<T>, f: T -> U)
    requires multiset(a) == multiset(b)
    ensures multiset(MapSeq(a, f)) == multiset(MapSeq(b, f))
    decreases |a|
  {
    if |a| == 0 {
      assert |b| == |multiset(b)| == 0;
    } else {
      var x := a[|a| - 1];
      var a' := a[..|a| - 1];
      assert a == a' + [x];
      assert x in multiset(b);
      var k :| 0 <= k < |b| && b[k] == x;
      var b' := b[..k] + b[k + 1..];
      assert b == b[..k] + [x] + b[k + 1..];
      assert multiset(a') == multiset(a) - multiset{x};
      assert multiset(b') == multiset(b) - multiset{x};
      MapFollowsMultiset(a', b', f);
      MapRemove(a, |a| - 1, f);
      assert a[..|a| - 1] + a[|a|..] == a';
      MapRemove(b, k, f);
    }
  }

  /** The key of a record, as `String(p.id)`. */
  function KeyText(p: Val): string {
    ToStr(OptProp(p, "id"))
  }

  /** Keys depend only on which records a list holds, not on their order. */
  lemma KeysFollowMultiset(a: seq<Val>, b: seq<Val>)
    requires forall i | 0 <= i < |a| :: !Nullish(a[i])
    requires multiset(a) == multiset(b)
    ensures forall i | 0 <= i < |b| :: !Nullish(b[i])
    ensures multiset(Collection.Keys(a)) == multiset(Collection.Keys(b))
  {
    forall i | 0 <= i < |b| ensures !Nullish(b[i]) {
      assert b[i] in multiset(a);
    }
    MapFollowsMultiset(a, b, KeyText);
    assert Collection.Keys(a) == MapSeq(a, KeyText);
    assert Collection.Keys(b) == MapSeq(b, KeyText);
  }

  /** The ids of records, as keys, are the records' keys. */
  lemma IdKeysOfIds(s: seq<Val>)
    requires forall i | 0 <= i < |s| :: !Nullish(s[i])
    ensures Ids(s).Ok? && Collection.IdKeys(Ids(s).value) == Collection.Keys(s)
  {
  }

  /** Among records with distinct keys, an id names one record. */
  lemma SameIdSameItem(items: seq<Val>, x: Val, y: Val)
    requires DistinctRecords(items) && x in items && y in items
    requires OptProp(x, "id") == OptProp(y, "id")
    ensures x == y
  {
    var j :| 0 <= j < |items| && items[j] == x;
    var j' :| 0 <= j' < |items| && items[j'] == y;
    assert Collection.KeyOf(items[j]) == Collection.KeyOf(items[j']);
  }

  /** A filter whose test rejects everything keeps nothing. */
  lemma {:induction false} FilterNone(s: seq<Val>, p: Val -> Res<bool>)
    requires forall i | 0 <= i < |s| :: p(s[i]) == Ok(false)
    ensures FilterRes(s, p) == Ok([])
    decreases |s|
  {
    if |s| > 0 {
      FilterNone(s[1..], p);
    }
  }

  lemma RestIndex(s: seq<Val>, k: nat, j: nat)
    requires k < |s| && j < |s| - 1
    ensures (s[..k] + s[k + 1..])[j] == s[if j < k then j else j + 1]
  {
  }

  /** The index an element at index i of a moved list came from. */
  function MoveSource(from: nat, to: nat, i: nat): nat {
    if i == to then from
    else
      var j := if i < to then i else i - 1;
      if j < from then j else j + 1
  }

  lemma MoveIndex(s: seq<Val>, from: nat, to: nat, i: nat)
    requires from < |s| && to < |s| && i < |s|
    ensures |ArrayMove(s, from, to)| == |s| && MoveSource(from, to, i) < |s|
    ensures ArrayMove(s, from, to)[i] == s[MoveSource(from, to, i)]
  {
    ArrayMoveInRange(s, from, to);
    MovedIndex(s, ArrayMove(s, from, to), from, to, i);
  }

  /** Any list that holds s[from] at `to` and, without it, the rest of s in order
      takes its element at i from MoveSource. */
  lemma MovedIndex(s: seq<Val>, m: seq<Val>, from: nat, to: nat, i: nat)
    requires from < |s| && to < |s| && i < |s| && |m| == |s|
    requires m[to] == s[from] && RemoveIndex(m, to) == RemoveIndex(s, from)
    ensures MoveSource(from, to, i) < |s| && m[i] == s[MoveSource(from, to, i)]
  {
    if i < to {
      RestIndex(m, to, i);
      RestIndex(s, from, i);
    } else if i > to {
      RestIndex(m, to, i - 1);
      RestIndex(s, from, i - 1);
    }
  }

  /** The ids after a move are the ids before it, moved the same way. */
  lemma IdsOfMove(f: seq<Val>, from: int, to: int)
    requires 0 <= from < |f| && 0 <= to < |f|
    requires forall i | 0 <= i < |f| :: !Nullish(f[i])
    ensures Ids(f).Ok? && Ids(ArrayMove(f, from, to)).Ok?
    ensures Ids(ArrayMove(f, from, to)).value == ArrayMove(Ids(f).value, from, to)
  {
    var ids := Ids(f).value;
    var moved := ArrayMove(f, from, to);
    ArrayMoveInRange(f, from, to);
    ArrayMoveInRange(ids, from, to);
    forall i | 0 <= i < |moved| ensures !Nullish(moved[i]) {
      MoveIndex(f, from, to, i);
    }
    var mi := Ids(moved).value;
    var ri := ArrayMove(ids, from, to);
    forall i | 0 <= i < |moved| ensures mi[i] == ri[i] {
      MoveIndex(f, from, to, i);
      MoveIndex(ids, from, to, i);
    }
  }
}
