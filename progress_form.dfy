/** The to-do list and percent input of src/components/editor/ProgressForm.jsx
    (its tag editor is the module TagEditor). Each handler computes the new
    `todos` list or `percent` that the form hands to the store's updateItem;
    the id of a new to-do is the parameter `freshId`. */
module ProgressForm {
  import opened JsString
  import opened JsValue
  import opened JsNumber
  import Collection
  import ProgressView

  /** The to-do record the add button builds. */
  function Todo(id: string, title: string): Val {
    Obj(map["id" := Str(id), "title" := Str(title), "done" := Bool(false)])
  }

  /** The add button: the trimmed text, ignored when empty; otherwise
      `[...(todos || []), { id, title, done: false }]`. */
  function AddTodo(todos: Val, text: string, freshId: string): (r: Option<Res<Val>>)
    ensures r.None? <==> Trim(text) == ""
    ensures r.Some? ==> (r.value.Ok? <==> IterSpread(Or(todos, Arr([]))).Ok?)
    ensures r.Some? && r.value.Ok? ==>
              var prev := IterSpread(Or(todos, Arr([]))).value;
              r.value.value == Arr(prev + [Todo(freshId, Trim(text))])
  {
    var title := Trim(text);
    if title == "" then None
    else Some(var prev :- IterSpread(Or(todos, Arr([]))); Ok(Arr(prev + [Todo(freshId, title)])))
  }

  /** `todos.map(x => x.id === id ? f(x) : x)`, which throws at an element
      whose id cannot be read. */
  function MapById(todos: seq<Val>, id: Val, f: Val -> Val): (r: Res<seq<Val>>)
    ensures r.Ok? <==> forall i | 0 <= i < |todos| :: !Nullish(todos[i])
    ensures r.Ok? ==> |r.value| == |todos|
    ensures r.Ok? ==> forall i | 0 <= i < |todos| ::
              r.value[i] == if Prop(todos[i], "id") == Ok(id) then f(todos[i]) else todos[i]
  {
    MapRes(todos, x => (var xid :- Prop(x, "id"); Ok(if xid == id then f(x) else x)))
  }

  /** `{ ...x, done: !x.done }` */
  function Flip(x: Val): (r: Val)
    ensures r.Obj? && r.fields.Keys == Spread(x).Keys + {"done"}
    ensures r.fields["done"] == Bool(!Truthy(OptProp(x, "done")))
    ensures forall k | k in Spread(x) && k != "done" :: r.fields[k] == Spread(x)[k]
  {
    WithField(x, "done", Bool(!Truthy(OptProp(x, "done"))))
  }

  /** The checkbox: flips `done` of the to-dos with that id; the others and
      the list's length and order stay as they were. */
  function ToggleTodo(todos: Val, id: Val): (r: Res<Val>)
    ensures r.Ok? <==> Or(todos, Arr([])).Arr? && forall i | 0 <= i < |Or(todos, Arr([])).elems| :: !Nullish(Or(todos, Arr([])).elems[i])
    ensures r.Ok? ==> r.value == Arr(MapById(Or(todos, Arr([])).elems, id, Flip).value)
  {
    var prev :- AsArray(Or(todos, Arr([])));
    var next :- MapById(prev, id, Flip);
    Ok(Arr(next))
  }

  /** A to-do with a boolean `done` is given back by two flips. */
  lemma FlipTwice(x: Val)
    requires x.Obj? && "done" in x.fields && x.fields["done"].Bool?
    ensures Flip(Flip(x)) == x
  {
    assert Flip(Flip(x)).fields == x.fields;
  }

  /** Ticking the same box twice restores a list whose `done` fields are booleans. */
  lemma {:induction false} ToggleTwice(todos: seq<Val>, id: Val)
    requires forall i | 0 <= i < |todos| :: todos[i].Obj? && "done" in todos[i].fields && todos[i].fields["done"].Bool?
    ensures ToggleTodo(Arr(todos), id).Ok?
    ensures ToggleTodo(ToggleTodo(Arr(todos), id).value, id) == Ok(Arr(todos))
  {
    var once := MapById(todos, id, Flip).value;
    forall i | 0 <= i < |todos|
      ensures Prop(once[i], "id") == Prop(todos[i], "id")
    {
      if Prop(todos[i], "id") == Ok(id) {
        assert Get(Flip(todos[i]).fields, "id") == Get(todos[i].fields, "id");
      }
    }
    var twice := MapById(once, id, Flip).value;
    forall i | 0 <= i < |todos|
      ensures twice[i] == todos[i]
    {
      if Prop(todos[i], "id") == Ok(id) {
        FlipTwice(todos[i]);
      }
    }
    assert twice == todos;
  }

  /** The title input: sets `title` of the to-dos with that id. */
  function RenameTodo(todos: Val, id: Val, title: string): (r: Res<Val>)
    ensures r.Ok? <==> Or(todos, Arr([])).Arr? && forall i | 0 <= i < |Or(todos, Arr([])).elems| :: !Nullish(Or(todos, Arr([])).elems[i])
    ensures r.Ok? ==> r.value == Arr(MapById(Or(todos, Arr([])).elems, id, x => WithField(x, "title", Str(title))).value)
  {
    var prev :- AsArray(Or(todos, Arr([])));
    var next :- MapById(prev, id, x => WithField(x, "title", Str(title)));
    Ok(Arr(next))
  }

  /** The delete button: `(todos || []).filter(x => x.id !== id)`. */
  function RemoveTodo(todos: Val, id: Val): (r: Res<Val>)
    ensures r.Ok? <==> Or(todos, Arr([])).Arr? && forall i | 0 <= i < |Or(todos, Arr([])).elems| :: !Nullish(Or(todos, Arr([])).elems[i])
    ensures r.Ok? ==> r.value == Arr(Collection.RemoveById(Or(todos, Arr([])).elems, id).value)
  {
    var prev :- AsArray(Or(todos, Arr([])));
    var kept :- Collection.RemoveById(prev, id);
    Ok(Arr(kept))
  }

  /** Deleting a to-do just added, by its fresh id, gives the list back when
      no earlier to-do carries that id. */
  lemma RemoveUndoesAdd(todos: seq<Val>, text: string, freshId: string)
    requires Trim(text) != ""
    requires forall i | 0 <= i < |todos| :: !Nullish(todos[i]) && Prop(todos[i], "id") != Ok(Str(freshId))
    ensures AddTodo(Arr(todos), text, freshId).Some? && AddTodo(Arr(todos), text, freshId).value.Ok?
    ensures RemoveTodo(AddTodo(Arr(todos), text, freshId).value.value, Str(freshId)) == Ok(Arr(todos))
  {
    var x := Todo(freshId, Trim(text));
    assert AddTodo(Arr(todos), text, freshId) == Some(Ok(Arr(todos + [x])));
    Collection.RemoveAppended(todos, x, Str(freshId));
  }

  /** The percent input: `Number(value) || 0`, so text that is no number
      (and zero) is stored as 0; nothing is clamped here. */
  function PercentInput(value: string): (r: int)
    ensures ToNumber(Str(value)).None? ==> r == 0
    ensures ToNumber(Str(value)).Some? ==> r == ToNumber(Str(value)).value
  {
    var n := ToNumber(Str(value));
    if n.None? then 0 else n.value
  }

  /** A number typed into the percent input is stored as typed and shown
      clamped to 0..100. */
  lemma TypedPercentShown(n: int)
    ensures PercentInput(IntStr(n)) == n
    ensures ProgressView.ShownPercent(Num(PercentInput(IntStr(n)))) == Some(ProgressView.Clamp(n))
  {
    ProgressView.NumberOfIntStr(n);
  }
}
