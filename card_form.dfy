/** The attachment list of src/components/editor/CardForm.jsx: files chosen
    in the form are appended after the card's attachments in file order, and
    the delete button removes attachments by id. FileReader's data URL and
    the fresh id of the i-th file are the parameters `read(i)` and `ids(i)`. */
module CardForm {
  import opened JsValue
  import Collection

  /** What the form reads from a chosen file. */
  datatype FileInfo = FileInfo(name: string, mimeType: string, size: nat)

  const DEFAULT_MIME: string := "application/octet-stream"

  /** The attachment record built for one file once it has been read. */
  function Attachment(f: FileInfo, id: string, dataUrl: string): (r: Val)
    ensures r.Obj? && r.fields.Keys == {"id", "name", "mime", "size", "dataUrl"}
    ensures r.fields["id"] == Str(id) && r.fields["name"] == Str(f.name) && r.fields["size"] == Num(f.size)
    ensures r.fields["dataUrl"] == Str(dataUrl)
    ensures r.fields["mime"] == Str(if f.mimeType == "" then DEFAULT_MIME else f.mimeType)
  {
    Obj(map["id" := Str(id), "name" := Str(f.name),
             "mime" := Str(if f.mimeType == "" then DEFAULT_MIME else f.mimeType),
             "size" := Num(f.size), "dataUrl" := Str(dataUrl)])
  }

  /** onAttachFiles: no files, no update; otherwise the card's attachments
      (`attachments || []`, spread, so a non-iterable throws) followed by one
      record per file, in the order of the files. */
  function AttachFiles(attachments: Val, files: seq<FileInfo>, ids: nat -> string, read: nat -> string)
    : (r: Option<Res<Val>>)
    ensures r.None? <==> |files| == 0
    ensures r.Some? ==> (r.value.Ok? <==> IterSpread(Or(attachments, Arr([]))).Ok?)
    ensures r.Some? && r.value.Ok? ==>
              var prev := IterSpread(Or(attachments, Arr([]))).value;
              var all := r.value.value;
              all.Arr? && |all.elems| == |prev| + |files| && all.elems[..|prev|] == prev
              && forall i | 0 <= i < |files| :: all.elems[|prev| + i] == Attachment(files[i], ids(i), read(i))
  {
    if |files| == 0 then None
    else
      var added := seq(|files|, i requires 0 <= i < |files| => Attachment(files[i], ids(i), read(i)));
      Some(var prev :- IterSpread(Or(attachments, Arr([]))); Ok(Arr(prev + added)))
  }

  /** removeAttachment: `(attachments || []).filter(a => a.id !== id)`. */
  function RemoveAttachment(attachments: Val, id: Val): (r: Res<Val>)
    ensures r.Ok? <==> Or(attachments, Arr([])).Arr?
                       && forall i | 0 <= i < |Or(attachments, Arr([])).elems| :: !Nullish(Or(attachments, Arr([])).elems[i])
    ensures r.Ok? ==> r.value.Arr? && r.value.elems == Collection.RemoveById(Or(attachments, Arr([])).elems, id).value
  {
    var prev :- AsArray(Or(attachments, Arr([])));
    var kept :- Collection.RemoveById(prev, id);
    Ok(Arr(kept))
  }

  /** Removing the one file just attached, by its fresh id, gives the
      attachment list back when no earlier attachment carries that id. */
  lemma RemoveUndoesAttach(prev: seq<Val>, f: FileInfo, ids: nat -> string, read: nat -> string)
    requires forall i | 0 <= i < |prev| :: !Nullish(prev[i]) && Prop(prev[i], "id") != Ok(Str(ids(0)))
    ensures AttachFiles(Arr(prev), [f], ids, read).Some? && AttachFiles(Arr(prev), [f], ids, read).value.Ok?
    ensures RemoveAttachment(AttachFiles(Arr(prev), [f], ids, read).value.value, Str(ids(0))) == Ok(Arr(prev))
  {
    var x := Attachment(f, ids(0), read(0));
    assert seq(1, i requires 0 <= i < 1 => Attachment([f][i], ids(i), read(i))) == [x];
    assert AttachFiles(Arr(prev), [f], ids, read) == Some(Ok(Arr(prev + [x])));
    Collection.RemoveAppended(prev, x, Str(ids(0)));
  }
}
