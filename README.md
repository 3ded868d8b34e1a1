# Portfolio, progress and official-site editor — a Dafny model

This project models the logic of a single-page editor built on React and
Zustand. The editor maintains four stores:

- a portfolio of project cards;
- a list of progress items;
- a profile;
- the nested content document of a railway company's official site.

The model also covers what the editor screens compute over these stores. That
means:

- tag normalisation;
- filtering and suggestions;
- the id orders handed to `reorder` after a drag;
- JSON import and export;
- the share link, which is encoded into a `?d=` parameter and decoded on the home page;
- the self-contained HTML export;
- the login lockout of the session store.

JavaScript values are one datatype, `JsValue.Val` (undefined, null, boolean,
integer number, string, array, object). A `TypeError` raised by reading a
property of null or undefined, by mapping a non-array or by spreading a
non-iterable is the `Err` case of `JsValue.Res`. A store update whose updater
throws leaves the state as it was.

Layout, one module per file:

| module | models |
|---|---|
| `JsString`, `JsValue`, `ListOps` | String.prototype primitives, JS values, spread and property access, the list primitives (`filter`, `map`, `splice`, stable sort) |
| `TagNormalizer` | the store and form variants of `ensureTagDot`, `normalizeBase` |
| `Collection`, `ProjectsStore`, `ProgressStore` | the project and progress stores (classes with `items`, `selectedId`, lock flag and storage slot) |
| `ProfileStore`, `OfficialStore`, `SessionStore` | the profile, official-site and session stores |
| `ImportPanel`, `PublishPanel`, `UriCodec`, `HomePage`, `ExportPanel` | JSON import, the share link, the home page, the offline HTML export |
| `TagEditor`, `CardForm`, `ProgressForm` | the tag, attachment and todo editors of the two forms |
| `ProgressView`, `ProgressSummary`, `ProgressList`, `CardList`, `ProgressKanban`, `DragOrder` | the progress views and the id orders computed after a drag |
| `OfficialMoreForm` | the "more" section editor of the official site |

## Model

| member | source | states |
|---|---|---|
| TagNormalizer.DropTrailingDots | src/store/progress.js:9 | the result is a prefix of the input, it does not end in `。`, `．` or `.`, and everything removed is such a dot |
| TagNormalizer.DropLeadingHashes | src/components/editor/CardForm.jsx:7 | the result is a suffix of the input, it does not start with `#` or `＃`, and everything removed is a hash sign |
| TagNormalizer.EnsureTagDot | src/store/progress.js:6-10 | empty exactly for blank input; otherwise one final half-width dot not preceded by another dot, no white space in front, and the rest a prefix of the trimmed input |
| TagNormalizer.WithOneDot | src/store/progress.js:9 | the trailing run of dots becomes exactly one `.`; what precedes it is a prefix of the input and only dots were removed |
| TagNormalizer.EnsureTagDotFixpoint | src/store/progress.js:6-10 | the store normaliser leaves a string unchanged exactly when it is empty or already of tag shape |
| TagNormalizer.EnsureTagDotIdempotent | src/store/progress.js:6-10 | normalising twice equals normalising once |
| TagNormalizer.EnsureTagDotKeepsHash | src/store/progress.js:7-9 | the store normaliser keeps a leading `#` or `＃` |
| TagNormalizer.FormEnsureTagDot | src/components/editor/CardForm.jsx:6-10 | empty exactly when nothing is left after trimming and stripping leading hashes; otherwise one final dot, no leading hash sign, and the rest a prefix of the stripped text |
| TagNormalizer.FormEnsureTagDotIdempotent | src/components/editor/CardForm.jsx:6-10 | the form normaliser is idempotent unless its result starts with white space (`'# a'` gives `' a.'`) |
| TagNormalizer.FormShapeKept | src/components/editor/CardForm.jsx:6-10 | a tag with one final dot and neither hash nor white space in front is a fixpoint of the form normaliser |
| TagNormalizer.FormTagIsStoreFixpoint | src/components/editor/CardForm.jsx:6-10 | a tag produced by the form normaliser (not starting with white space) is stored unchanged by the store normaliser |
| TagNormalizer.NormalizeBase | src/components/editor/CardForm.jsx:36 | the base is `String(v || '')` with its leading `#`/`＃` run and its trailing `。`/`．`/`.` run removed, then trimmed; the result is trimmed |
| JsString.Trim | src/store/progress.js:7 | the result has no white space or line terminator at either end and is no longer than the input |
| JsString.TrimRemovesOnlySpace | src/store/progress.js:7 | the trimmed string is the input with a run of white space cut from each end |
| JsString.TrimStart | src/store/progress.js:7 | the result is a suffix of the input, and every character removed is white space |
| JsString.TrimEnd | src/store/progress.js:7 | the result is a prefix of the input, and every character removed is white space |
| JsString.TrimOfTrimmed | src/store/progress.js:7 | trimming a trimmed string changes nothing |
| JsString.Lower | src/components/editor/CardForm.jsx:43 | lower-casing keeps the length and maps each character on its own: ASCII capitals to small letters, every other character to itself |
| JsString.ContainsAt | src/components/editor/CardForm.jsx:47 | `includes` holds when the needle occurs at some position |
| JsString.LowerContains | src/components/ProgressSummary.jsx:50 | a string containing another still contains it once both are lower-cased |
| JsString.JoinHasPart | src/components/ProgressSummary.jsx:49 | the joined text contains each of the parts it was joined from |
| JsString.NatStr | src/components/ProgressSummary.jsx:62 | the decimal numeral is non-empty, made of digits, without a leading zero |
| JsString.Split | src/store/official.js:67 | `split('.')` yields at least one part, none containing the separator |
| JsString.SplitWithoutSep | src/store/official.js:67 | a path without a dot splits into itself alone |
| JsString.SplitJoin | src/store/official.js:67 | joining the parts with the separator gives back the path |
| JsValue.Or | src/store/progress.js:54 | `a \|\| b` is `a` when `a` is truthy and `b` otherwise |
| JsValue.Coalesce | src/components/ProgressSummary.jsx:25 | `a ?? b` is `b` exactly when `a` is null or undefined |
| JsValue.Prop | src/store/progress.js:54 | reading a property throws exactly on null and undefined; on an object it reads the field or undefined |
| JsValue.CharVals | src/components/ProgressSummary.jsx:49 | a string iterates as its one-character strings, in order |
| JsValue.Spread | src/store/progress.js:54 | `{...v}` copies an object's fields, and nothing from null, undefined, booleans or numbers |
| JsValue.SpreadKeepsNamedKey | src/store/progress.js:54 | a key that is no array index and not `length` reads the same from `{...v}` as from `v` |
| JsValue.IndexMap | src/store/progress.js:54 | `{...array}` has only array-index keys |
| JsValue.Assign | src/store/progress.js:92 | `{...a, ...b}` has the keys of both; `b`'s values win, `a`'s are kept elsewhere |
| JsValue.WithField | src/store/progress.js:109 | `{...v, [k]: x}` sets `k` to `x` and keeps every other key of `v` |
| JsValue.IterSpread | src/components/ProgressSummary.jsx:49 | `[...v]` succeeds exactly on arrays and strings and gives an array's elements |
| JsValue.AsArray | src/store/progress.js:54 | `.map`/`.filter` exist exactly on arrays |
| JsValue.MapRes | src/store/progress.js:120-125 | a map succeeds exactly when every call does, and then gives each call's result at its index |
| JsValue.FilterRes | src/store/progress.js:97 | a filter succeeds exactly when every test does; the result is a subsequence of the input as long as the number of accepted elements, so it is exactly the accepted elements, each as often as it occurs, in their order |
| JsValue.FilterResMultiplicity | src/components/ProgressSummary.jsx:45 | a filter keeps every accepted element as many times as the list holds it, and drops every other |
| JsValue.FilterResAll | src/components/ProgressSummary.jsx:45 | a filter that every element passes keeps the whole list |
| JsValue.Take | src/components/ProgressSummary.jsx:38 | `slice(0, n)` is a prefix: the whole list when it has at most `n` elements, else exactly its first `n` |
| ListOps.SortBy | src/components/ProgressSummary.jsx:31 | the comparator sort is sorted by the key and a permutation of its input |
| ListOps.Insert | src/components/ProgressSummary.jsx:31 | inserting into a sorted list keeps it sorted and adds exactly the one element |
| ListOps.SortByStable | src/store/progress.js:139 | the sort is stable: the elements with one key keep their relative order |
| ListOps.SortByIsStableSort | src/store/progress.js:139 | the comparator sort is a stable sort of its input: sorted by the key, a permutation, equal keys in their original order |
| ListOps.SortByOrder | src/components/ProgressSummary.jsx:31 | sorting by `order ?? 0`, where a text, boolean or null order counts as the number JavaScript's subtraction makes of it, is sorted and a permutation |
| ListOps.SwappedRenumbered | src/store/progress.js:139 | two records whose order keys are out of place come out swapped and renumbered, each keeping its id |
| ListOps.Renumber | src/store/progress.js:139 | each element keeps its fields and gets `order` equal to its index |
| ListOps.SpliceStart | src/store/official.js:231 | splice's start index is clamped to the array and equals the argument when in range |
| ListOps.SpliceMove | src/store/official.js:229-234 | the remove-then-insert splice pair keeps the length for a source in range and adds one element (undefined) otherwise |
| ListOps.SpliceMoveInRange | src/store/official.js:229-234 | with both indices in range the move keeps the length and the multiset of elements, puts the moved element at the target, and leaves the others in their relative order |
| ListOps.ArrayMoveInRange | src/components/editor/CardList.jsx:58 | `arrayMove` with both indices in range is the same splice pair, with the same permutation properties |
| ListOps.ArrayMove | src/components/editor/CardList.jsx:58 | `arrayMove` keeps the length when its source is an index of a non-empty array, counting a negative one from the end, and grows by one (inserting undefined) otherwise |
| DragOrder.Ids | src/components/editor/CardList.jsx:52 | `s.map(p => p.id)` succeeds exactly when no element is null or undefined and gives each element's id |
| DragOrder.IndexOf | src/components/editor/CardList.jsx:56 | `indexOf` gives -1 exactly for an absent value, otherwise the first index holding it |
| DragOrder.FilterPartition | src/components/editor/ProgressList.jsx:76-82 | splitting a list by a test and its negation loses and adds nothing |
| DragOrder.KeysFollowMultiset | src/store/projects.js:94-98 | the keys of a list depend only on which records it holds |
| DragOrder.SameIdSameItem | src/store/progress.js:108 | among records with distinct keys an id names one record |
| DragOrder.IdsOfMove | src/components/editor/CardList.jsx:58-59 | the ids after a move are the ids before it moved the same way |
| CardList.CardThumb | src/components/editor/CardList.jsx:28-33 | the thumbnail shows when set; otherwise a `data:video/` media URL (any case) as video; otherwise nothing |
| CardList.OnDragEnd | src/components/editor/CardList.jsx:54-60 | no reorder exactly when there is no target or it is the dragged card; otherwise the ids of the moved list, failing only on a null record |
| CardList.CardDropMoves | src/components/editor/CardList.jsx:56-59 | with distinct ids the order is the id list with the dragged id at the target index, the others in their relative order, a permutation of the projects' keys |
| CardList.CardDropKeepsEveryProject | src/components/editor/CardList.jsx:56-59 | reorder with that order keeps every project, each with its new `order` |
| Collection.NormalizeTags | src/store/progress.js:54 | `(tags \|\| []).map(ensureTagDot)` throws exactly unless the tags are an array or falsy; it keeps the count and every tag comes out normalised |
| Collection.NormalizeTagsKeepsStored | src/store/progress.js:54 | a list of stored tags is left as it is |
| Collection.StoredTagKept | src/store/progress.js:6-10 | a stored tag is a fixpoint of ensureTagDot |
| Collection.NormalizeTagsIdempotent | src/store/progress.js:54 | normalising tags twice is normalising them once |
| Collection.NormalizeRecord | src/store/progress.js:54 | throws exactly on a null record or unreadable tags; otherwise the keys of the defaults, the record and `tags`; the record's fields win over the defaults and the tags are the record's tags normalised |
| Collection.NormalizeRecordIdempotent | src/store/progress.js:54 | a normalised record normalises to itself, so what is persisted loads back unchanged |
| Collection.NormalizeAll | src/store/progress.js:54 | the records normalised one by one, same count and order |
| Collection.NormalizeAllIdempotent | src/store/progress.js:54 | a normalised list normalises to itself |
| Collection.HasTagsKey | src/store/progress.js:90 | `'tags' in (patch \|\| {})` throws on a truthy primitive and holds exactly for an object with a `tags` key |
| Collection.NormalizePatch | src/store/progress.js:90 | the patch keeps its keys and values, except that tags are normalised when the patch has a `tags` key; a patch without one is passed through unchanged |
| Collection.Merge | src/store/progress.js:92 | the record's fields overlaid by the patch, then `updatedAt` set to now, overriding both |
| Collection.UpdateById | src/store/progress.js:89-94 | length and positions kept; records with another id unchanged; each matching record merged with the normalised patch and a fresh `updatedAt`; an unknown id changes nothing |
| Collection.RemoveById | src/store/progress.js:101-105 | throws exactly on a null record; otherwise a subsequence of the records, as long as the number of records with another id, holding every such record unchanged and none with the id; nothing is renumbered |
| Collection.RemoveAppended | src/store/progress.js:102 | removing the id of a record just appended takes that record away again |
| Collection.FirstIdOrNull | src/store/progress.js:98 | `list[0]?.id \|\| null`: null for an empty list, otherwise the first id when it is truthy |
| Collection.Dict.Put | src/store/progress.js:134-136 | assigning a key sets its value and keeps every other key's value; a new key goes to the end of the creation order, an existing one keeps its place |
| Collection.Dict.Values | src/store/progress.js:139 | Object.values gives one value per own key, in own-key order (array-index keys ascending first, then the other keys in creation order), and every value of the dictionary |
| Collection.Dict.OwnKeys | src/store/progress.js:139 | the own-key order is a permutation of the creation order in which array-index keys come first, ascending, and the other keys keep their creation order |
| Collection.Dict.OwnKeysSplit | src/store/progress.js:139 | the own keys are the array-index keys sorted ascending, then the other keys in creation order |
| Collection.ById | src/store/progress.js:108 | `Object.fromEntries(items.map(p => [p.id, p]))` throws exactly on a null record |
| Collection.ByIdHasKey | src/store/progress.js:108 | every record's key is a key of the dictionary |
| Collection.ByIdOnlyKeys | src/store/progress.js:108 | the dictionary has no key that is not some record's key |
| Collection.ByIdLast | src/store/progress.js:108 | the value under a key is the last record with that key |
| Collection.Reorder | src/store/progress.js:107-111 | one element per listed id, in list order, with `order` equal to its index; records not listed are dropped |
| Collection.ReorderPicks | src/store/progress.js:109 | a listed id naming a record yields that record with its new order |
| Collection.ReorderUnknownId | src/store/progress.js:109 | a listed id naming no record yields a bare `{ order: i }` |
| Collection.Keys | src/store/progress.js:108 | the key of every record, in order |
| Collection.IdKeys | src/store/progress.js:108 | the key every listed id names, in order |
| Collection.ReorderPermutation | src/store/progress.js:107-111 | when the ids are a permutation of the records' distinct keys, every record reappears once with its new order |
| ProjectsStore.SafeLoad | src/store/projects.js:40-50 | the sample for an absent, unparsable or non-array slot, or one whose records cannot be normalised; otherwise one record per stored record with the same fields, tags normalised from the stored tags |
| ProjectsStore.NewProject | src/store/projects.js:58-70 | the appended record carries the fresh id and `order` equal to the previous count |
| ProjectsStore.SyncProjects | src/store/projects.js:121-122 | a malformed value throws; a missing or non-array value reads as the empty list; an array has every project's tags normalised |
| ProjectsStore.AddThenRemove | src/store/projects.js:56-92 | removing the project addProject has just appended restores the list |
| ProjectsStore.Projects.constructor | src/store/projects.js:102-103 | the loaded list and its first id, the slot untouched |
| ProjectsStore.Projects.Commit | src/store/projects.js:109-114 | the new state, and the slot written with the projects unless the lock is set |
| ProjectsStore.Projects.SetState | src/store/projects.js:109-114 | an outside `setState` replaces projects and selection and is persisted |
| ProjectsStore.Projects.AddProject | src/store/projects.js:56-72 | the list gains the new project at the end, it is selected, and the slot holds the new list |
| ProjectsStore.Projects.Select | src/store/projects.js:74 | only the selection changes |
| ProjectsStore.Projects.UpdateProject | src/store/projects.js:76-81 | the projects become UpdateById's result; a throwing update changes nothing |
| ProjectsStore.Projects.RemoveSelected | src/store/projects.js:83-86 | the selected project is removed and the first remaining id (or null) is selected; a throwing update changes nothing |
| ProjectsStore.Projects.RemoveProject | src/store/projects.js:88-92 | the project is removed; the selection moves to the first remaining id only when the removed id was selected |
| ProjectsStore.Projects.Reorder | src/store/projects.js:94-98 | the projects become Reorder's result; a throwing update changes nothing |
| ProjectsStore.Projects.OnStorage | src/store/projects.js:117-133 | an event for the key replaces the projects with the normalised value unless it is malformed; nothing is written back and the lock is released |
| ProgressStore.SafeLoad | src/store/progress.js:49-59 | the sample for an absent, unparsable or non-array slot, or one whose records cannot be normalised; otherwise every record with its missing defaults filled and its tags normalised |
| ProgressStore.SafeLoadOfSaved | src/store/progress.js:49-59 | a load-normalised list the subscriber saved loads back unchanged |
| ProgressStore.SafeLoadStable | src/store/progress.js:54 | a loaded list, saved and loaded again, is the same list |
| ProgressStore.NewItem | src/store/progress.js:67-83 | the appended record carries the fresh id and `order` equal to the previous count |
| ProgressStore.AddThenRemove | src/store/progress.js:65-105 | removing the item addItem has just appended restores the list |
| ProgressStore.SyncItems | src/store/progress.js:179-186 | a malformed value throws; a missing or non-array value reads as the empty list; an array is normalised record by record |
| ProgressStore.ReadArray | src/store/progress.js:114-119 | the payload when it is an array, else its `items` array, else its `progress` array, else the empty list |
| ProgressStore.ImportRecord | src/store/progress.js:120-125 | the import defaults, then the record's fields, then a string id (the record's when truthy, else a fresh one) and normalised tags; throws exactly on unreadable tags |
| ProgressStore.NormalizeImport | src/store/progress.js:120-125 | succeeds exactly when every record's tags are readable; same count, record i normalised with fresh id i |
| ProgressStore.ReplaceAll | src/store/progress.js:129 | replace mode: same records in input order with `order` 0..n-1, `createdAt` kept when truthy else now, `updatedAt` now, other fields kept |
| ProgressStore.AppendStep | src/store/progress.js:133-137 | one loop step: a new id is added at the end of the key order; other entries unchanged; the entry agrees with the imported record on every field but the three stamps and has `updatedAt` now; a new id (or a falsy stored entry) gets `order` equal to the key count and `createdAt` the record's or now; a truthy stored entry keeps its fields the record lacks |
| ProgressStore.AppendAll | src/store/progress.js:132-138 | the whole loop keeps the existing keys, in order, at the front |
| ProgressStore.AppendAllHas | src/store/progress.js:132-138 | every imported id ends up in the dictionary |
| ProgressStore.AppendAllLastWins | src/store/progress.js:132-138 | the entry for an id carries every field of the last imported record with that id, but the stamps |
| ProgressStore.AppendAllKeepsOthers | src/store/progress.js:132-138 | a stored record whose id no imported record carries is left as it was |
| ProgressStore.AppendResult | src/store/progress.js:139 | one record per dictionary key, with `order` 0..N-1 (the sort itself is AppendResultStableSort) |
| ProgressStore.AppendResultStableSort | src/store/progress.js:139 | the result is Object.values of the dictionary, stably sorted by `order ?? 0` read as a number, then renumbered |
| ProgressStore.AppendIndexKeyFirst | src/store/progress.js:132-139 | stored ids `x` (order 0) and `y` (order 2) plus an imported id `5` come out as x, 5, y: Object.values lists the index key `5` first and the stable sort keeps it ahead of `y` |
| ProgressStore.AppendTextOrder | src/store/progress.js:132-139 | stored `a` (order 0) and `b` (order 1), with `a` re-imported carrying the text order `"5"`, come out as b, a: the subtraction reads `"5"` as 5 |
| ProgressStore.AppendResultHasEntry | src/store/progress.js:139 | every dictionary entry reappears in the result with all its fields but `order` |
| ProgressStore.AppendResultKeepsImported | src/store/progress.js:132-139 | the last imported record with each id is in the result with every field but the stamps |
| ProgressStore.AppendResultKeepsOthers | src/store/progress.js:132-139 | a stored record no imported record mentions is in the result, changed only in `order` |
| ProgressStore.ImportResult | src/store/progress.js:113-142 | succeeds exactly when the normalised list does and, in append mode, the current items index by id; replace mode keeps the count; orders are 0..N-1 in both modes |
| ProgressStore.ImportResultAppend | src/store/progress.js:130-140 | append mode is AppendResult over the id dictionary of the current items |
| ProgressStore.ImportResultReplace | src/store/progress.js:128-129 | replace mode is ReplaceAll of the normalised list |
| ProgressStore.ImportAppendKeepsImported | src/store/progress.js:130-140 | in append mode the last imported record with each id is in the result with every field but the stamps |
| ProgressStore.ImportAppendKeepsUnmentioned | src/store/progress.js:130-140 | in append mode a current record no imported record mentions is in the result, changed only in `order` |
| ProgressStore.AppendLoop | src/store/progress.js:131-138 | the `for` loop over the mutable dictionary computes AppendAll |
| ProgressStore.ExportPayload | src/store/progress.js:144-156 | throws exactly when an item is null or has unreadable tags; otherwise `{type: 'progress', version: 1, exportedAt: now, items}` with one record per item, holding the item's own fields and its tags normalised |
| ProgressStore.ExportKeepsRecords | src/store/progress.js:150-153 | export leaves kept records (object, non-empty string id, stored tags) as they are |
| ProgressStore.ImportRecordKeeps | src/store/progress.js:120-125 | the import normalisation of a kept record keeps every field |
| ProgressStore.ImportKeepsRecords | src/store/progress.js:120-125 | the import normalisation keeps every field of every kept record |
| ProgressStore.ReplaceAllKeeps | src/store/progress.js:129 | replace mode keeps each position's fields but the stamps, and a truthy `createdAt` |
| ProgressStore.ExportImportRoundTrip | src/store/progress.js:113-156 | exporting, then importing in replace mode, gives back the same records in the same order, every field kept but `order` and `updatedAt` (and `createdAt` kept when set) |
| ProgressStore.Progress.constructor | src/store/progress.js:160-161 | the loaded list and its first id, the slot untouched |
| ProgressStore.Progress.Commit | src/store/progress.js:167-172 | the new state, and the slot written with the items unless the lock is set |
| ProgressStore.Progress.SetState | src/store/progress.js:167-172 | an outside `setState` replaces items and selection and is persisted |
| ProgressStore.Progress.AddItem | src/store/progress.js:65-85 | the list gains the new item at the end, it is selected, and the slot holds the new list |
| ProgressStore.Progress.Select | src/store/progress.js:87 | only the selection changes |
| ProgressStore.Progress.UpdateItem | src/store/progress.js:89-94 | the items become UpdateById's result; a throwing update changes nothing |
| ProgressStore.Progress.RemoveSelected | src/store/progress.js:96-99 | the selected item is removed and the first remaining id (or null) selected |
| ProgressStore.Progress.RemoveItem | src/store/progress.js:101-105 | the item is removed; the selection moves to the first remaining id only when the removed id was selected |
| ProgressStore.Progress.Reorder | src/store/progress.js:107-111 | the items become Reorder's result; a throwing update changes nothing |
| ProgressStore.Progress.ImportItems | src/store/progress.js:113-142 | the items become ImportResult's result (the append loop run as a method) and the first id is selected; a throwing import changes nothing |
| ProgressStore.Progress.ExportItems | src/store/progress.js:144-156 | the export payload of the current items |
| ProgressStore.Progress.OnStorage | src/store/progress.js:176-197 | an event for the key replaces the items with the normalised value unless it is malformed; nothing is written back and the lock is released |
| ProfileStore.StateDefaults | src/store/profile.js:118-130 | the default profile has exactly the six fields, two socials, no skills, and `updatedAt` now |
| ProfileStore.Overlay | src/store/profile.js:25 | an object or array overlays the base (its fields win, the base's other fields stay); anything else leaves the base alone |
| ProfileStore.SafeLoad | src/store/profile.js:20-30 | the sample for an absent, unparsable or non-object slot; otherwise the sample overlaid by the stored object |
| ProfileStore.SyncProfile | src/store/profile.js:102-103 | unparsable text throws; a missing value gives the defaults; a parsed value is overlaid on the defaults (the defaults alone for a non-object) |
| ProfileStore.SetField | src/store/profile.js:36-38 | only the named field and `updatedAt` change |
| ProfileStore.DropAt | src/store/profile.js:58 | exactly the element at the index goes and the rest keep their order; an index out of range (or not a number) changes nothing |
| ProfileStore.PatchAt | src/store/profile.js:51 | same length; only the element at the index is patched, the others are unchanged |
| ProfileStore.AddEntry | src/store/profile.js:41-47 | throws exactly when the list is not iterable; otherwise the list gains the entry at the end, `updatedAt` is now and every other field is unchanged |
| ProfileStore.UpdateEntry | src/store/profile.js:48-54 | throws exactly when the list is not an array; otherwise only index i is patched, an out-of-range index leaves the list as it was, and `updatedAt` is still refreshed |
| ProfileStore.RemoveEntry | src/store/profile.js:55-61 | throws exactly when the list is not an array; otherwise exactly index i goes, an out-of-range index leaves the list as it was, and `updatedAt` is refreshed |
| ProfileStore.AddThenRemoveEntry | src/store/profile.js:41-61 | removing the entry just added gives back the list as it was |
| ProfileStore.Profile.constructor | src/store/profile.js:33 | the loaded profile; nothing written |
| ProfileStore.Profile.Commit | src/store/profile.js:90-95 | the new profile, written to the slot unless the lock is set |
| ProfileStore.Profile.SetProfile | src/store/profile.js:35 | the profile overlaid by the patch, then `updatedAt` now, overriding the patch |
| ProfileStore.Profile.SetState | src/store/profile.js:90-95 | an outside `setState` replaces the profile and is persisted |
| ProfileStore.Profile.SetNamedField | src/store/profile.js:36-38 | setName, setBio, setAvatarUrl change only their field and `updatedAt` |
| ProfileStore.Profile.Add | src/store/profile.js:41-47 | addSocial appends `{type:'link',label:'Link',url:''}` and addSkill appends `{name:'',category:'design',level:3}`; a throwing update changes nothing (addSkill: lines 63-69) |
| ProfileStore.Profile.Update | src/store/profile.js:48-54 | the profile becomes UpdateEntry's result; a throwing update changes nothing (updateSkill: lines 70-76) |
| ProfileStore.Profile.Remove | src/store/profile.js:55-61 | the profile becomes RemoveEntry's result; a throwing update changes nothing (removeSkill: lines 77-83) |
| ProfileStore.Profile.OnStorage | src/store/profile.js:98-115 | an event for the key replaces the profile with the merged value unless it is unparsable; nothing is written back and the lock is released |
| OfficialStore.Load | src/store/official.js:51-60 | the sample for an absent or unparsable slot; otherwise a top-level overlay, where stored sections replace the sample's wholesale |
| OfficialStore.SyncData | src/store/official.js:256 | unparsable text throws; a missing value gives `{}`; a parsed value is taken as it is, with no defaults |
| OfficialStore.PatchById | src/store/official.js:83-85 | throws exactly unless the list is an array without null elements; same length; every element with the id patched, the others unchanged |
| OfficialStore.ApplyEdit | src/store/official.js:80-242 | each edit kind: append one, append a batch and prepend keep the old elements and add the new ones; patch-by-id and drop-by-id work per element; move is the splice pair; set-key sets one field |
| OfficialStore.EditAt | src/store/official.js:84 | the nested spread rebuild succeeds exactly when the path reads and the edit applies; the top-level keys other than the path's first are unchanged |
| OfficialStore.EditAtReadsBack | src/store/official.js:84 | reading the edited path back gives the edit of what was there |
| OfficialStore.EditAtFrame | src/store/official.js:84 | at every object along the path, the keys other than the one followed keep their values and none is lost |
| OfficialStore.EditInRoutes | src/store/official.js:110-127 | station and rolling-stock actions edit only the routes with the route id; the other routes and top-level keys are unchanged |
| OfficialStore.ListPath | src/store/official.js:80-205 | every list outside the routes sits one or two keys deep |
| OfficialStore.Template | src/store/official.js:80-205 | each add* template carries its fresh id |
| OfficialStore.AddAppendsOne | src/store/official.js:80-205 | each add* appends exactly its template to the end of its own list and keeps the older elements |
| OfficialStore.MediaEntry | src/store/official.js:220 | `{ id: fresh, ...it }`: the item's fields plus an id, the item's own id winning over the fresh one |
| OfficialStore.MediaEntries | src/store/official.js:220 | one entry per item, in order, item i drawing fresh id i |
| OfficialStore.ReorderMediaInRange | src/store/official.js:229-234 | with both indices in range reorderMedia keeps the length and multiset of the media, puts the moved entry at `to`, and keeps the others in order |
| OfficialStore.AddLogNewestFirst | src/store/official.js:237-242 | addLog puts the new entry first and keeps the older entries after it, unchanged |
| OfficialStore.Write | src/store/official.js:71 | the final write succeeds only on an object or array, and on an object spreads the patch over the old value at the key |
| OfficialStore.SetAt | src/store/official.js:68-71 | the document after the walk and write is an object or an array (what it holds: SetAtOk, SetAtReadsBack, SetAtFrame) |
| OfficialStore.SetAtOk | src/store/official.js:68-71 | the walk and write succeed exactly when every segment but the last reads and the container reached is an object, or an array written at one of its indices |
| OfficialStore.PropOfContainer | src/store/official.js:70 | a child the walk can write into is read from an object or from an array at one of its indices |
| OfficialStore.SetAtReadsBack | src/store/official.js:66-73 | after setPatch the object at the path is the old one with the patch spread over it |
| OfficialStore.SetAtTopFrame | src/store/official.js:66-73 | setPatch keeps every top-level key other than the first path segment |
| OfficialStore.SetAtLocalFrame | src/store/official.js:66-73 | the top container keeps every key and value but the one the path follows; an array keeps its length |
| OfficialStore.SetAtFrame | src/store/official.js:66-73 | at every container along the path, no key is lost, every key or index but the one followed keeps its value, and no array changes length |
| OfficialStore.SetPatchSpecReadsBack | src/store/official.js:66-73 | setPatch on a dotted path succeeds exactly when the path up to its last segment reads and reaches a writable container; the object reached then reads back as the old value with the patch spread over it |
| OfficialStore.SetPatchWalk | src/store/official.js:66-73 | the for-loop walk on a clone, with the in-place write seen through the containers, computes the setPatch specification |
| OfficialStore.Official.constructor | src/store/official.js:63 | the loaded document; nothing written |
| OfficialStore.Official.Commit | src/store/official.js:247-250 | the new document, written to the slot unless the lock is set |
| OfficialStore.Official.Perform | src/store/official.js:62 | an updater that throws changes nothing; otherwise its result is committed |
| OfficialStore.Official.SetPatch | src/store/official.js:66-73 | the document becomes the setPatch result; a throwing walk changes nothing |
| OfficialStore.Official.SetCustom | src/store/official.js:75-77 | setCustomCSS/HTML/JS set only their field |
| OfficialStore.Official.Add | src/store/official.js:80-205 | each add* appends its template to its list (routes' stations and rolling stock only for the route id) |
| OfficialStore.Official.Update | src/store/official.js:83-205 | each update* patches the elements with the id in its own list |
| OfficialStore.Official.Remove | src/store/official.js:86-205 | each remove* drops the elements with the id from its own list |
| OfficialStore.Official.SetMore | src/store/official.js:208-216 | setMoreEnabled/Label/Text change only the named field of the named section |
| OfficialStore.Official.AddMedia | src/store/official.js:217-222 | the section's media gains the batch in order, each entry with a fresh id unless it carries its own |
| OfficialStore.Official.UpdateMedia | src/store/official.js:223-225 | the media with the id are patched |
| OfficialStore.Official.RemoveMedia | src/store/official.js:226-228 | the media with the id are removed |
| OfficialStore.Official.ReorderMedia | src/store/official.js:229-234 | the media list becomes the splice pair's result |
| OfficialStore.Official.AddLog | src/store/official.js:237-242 | the log gains the entry in front |
| OfficialStore.Official.OnStorage | src/store/official.js:252-264 | an event for the key replaces the document wholesale with the parsed value (`{}` for null) unless unparsable; nothing is written back and the lock is released |
| SessionStore.AfterFailure | src/store/session.js:25-31 | a failure raises the counter; on reaching five it clears the counter and sets the lock ten minutes after the check; the counter stays below five |
| SessionStore.ConsecutiveFailures | src/store/session.js:25-31 | fewer than five failures in a row only count; the one that makes five sets the lock from its own time and clears the count |
| SessionStore.Session.constructor | src/store/session.js:6-14 | signed out, viewer, no lock and no attempts |
| SessionStore.Session.Login | src/store/session.js:16-44 | accepted exactly when not locked and the configured user is non-empty and both values match; a locked store changes nothing; a failure only moves the counter; a success clears the counter and lock, signs in as editor until the later time plus the lifetime and arms the timer; role and sign-in stay paired |
| SessionStore.Session.SignOut | src/store/session.js:41-48 | signed out: not authenticated, expiry 0, no user, viewer |
| SessionStore.Session.Logout | src/store/session.js:46-49 | signs out and clears the timer; the lockout is untouched |
| SessionStore.Session.Expire | src/store/session.js:40-42 | the due timer signs out; the lockout is untouched |
| SessionStore.FiveFailuresThenLocked | src/store/session.js:18-31 | five wrong passwords on a fresh store lock it ten minutes from the fifth check, and a correct login just before then is refused |
| ImportPanel.NormalizeProjects | src/components/editor/ImportPanel.jsx:13-19 | the empty list for a non-array; otherwise same length and order, only tags changed (normalised); a null project or unreadable tags throw |
| ImportPanel.NormalizeProgress | src/components/editor/ImportPanel.jsx:21-31 | the empty list for a non-array; otherwise same length and order, defaults fill only missing fields, present fields win, tags normalised |
| ImportPanel.ProjectsAsTheStoreSyncs | src/components/editor/ImportPanel.jsx:13-19 | the panel normalises a project list exactly as the projects store's listener does |
| ImportPanel.ProgressAsTheStoreLoads | src/components/editor/ImportPanel.jsx:21-31 | the panel normalises a progress list exactly as the progress store's listener does |
| ImportPanel.NormalizeProjectsIdempotent | src/components/editor/ImportPanel.jsx:13-19 | a list the panel normalised imports back unchanged |
| ImportPanel.NormalizeProgressIdempotent | src/components/editor/ImportPanel.jsx:21-31 | a progress list the panel normalised imports back unchanged |
| ImportPanel.ErrorText | src/components/editor/ImportPanel.jsx:44-66 | the error line for no file, for a non-object, and for an engine error (its message, else the fallback); never empty |
| ImportPanel.Refusal | src/components/editor/ImportPanel.jsx:44-47 | the file is refused exactly unless it parses to an object or array |
| ImportPanel.ProjectsPart | src/components/editor/ImportPanel.jsx:50-53 | nothing to install unless `json.projects` is an array; otherwise the normalised projects |
| ImportPanel.ProgressPart | src/components/editor/ImportPanel.jsx:57-60 | nothing to install unless `json.progress` is an array; otherwise the normalised items |
| ImportPanel.ProfilePatch | src/components/editor/ImportPanel.jsx:54-56 | a patch exactly when `json.profile` is an object; it carries the profile's fields and `updatedAt` now |
| ImportPanel.ImportedProfileMerges | src/components/editor/ImportPanel.jsx:54-56 | the imported profile is merged into the current one: fields the file lacks keep their values, and `updatedAt` is now |
| ImportPanel.HandleImport | src/components/editor/ImportPanel.jsx:40-68 | a refused file changes no store; projects, profile and progress are applied independently, each only when its field has the right shape, selecting the first id or null; a TypeError in the progress list comes after the projects and profile were applied |
| PublishPanel.BuildPayload | src/components/editor/PublishPanel.jsx:6-12 | the payload has exactly `projects`, `profile` and `progress`; a list that is not an array becomes `[]`, a falsy profile `{}`, and values of the right shape pass through unchanged |
| PublishPanel.Slice | src/components/editor/PublishPanel.jsx:16 | `slice` with bounds clamped to the length: the result is no longer than the string or the range, and each of its characters is the one at the same offset from `start` |
| PublishPanel.NonceShape | src/components/editor/PublishPanel.jsx:16 | for any text `Math.random().toString(36)` can give, the nonce is at most six base-36 digits |
| PublishPanel.Stamped | src/components/editor/PublishPanel.jsx:17 | `Object.assign({}, payload, { meta })` keeps every own field of the payload except `meta`, which is the new stamp |
| PublishPanel.GenerateShareUrl | src/components/editor/PublishPanel.jsx:14-21 | the link starts with the base URL and is the share URL of the JSON text of the stamped payload |
| PublishPanel.ShareUrlShape | src/components/editor/PublishPanel.jsx:19-21 | the base URL gets exactly one `/` before `?d=`, and what follows is only unreserved characters and complete `%XY` escapes that decode back to the JSON text |
| PublishPanel.UpdatePublish | src/components/editor/PublishPanel.jsx:48-53 | disabled publishing clears the link; enabled publishing generates the share link for the current payload |
| UriCodec.Utf8Char | src/components/editor/PublishPanel.jsx:19 | one to four bytes per character, one byte exactly for ASCII |
| UriCodec.DecodeOneOfUtf8Char | src/pages/Home.jsx:33 | the decoder reads back exactly the bytes the encoder wrote for one character |
| UriCodec.Utf8RoundTrip | src/components/editor/PublishPanel.jsx:19 | UTF-8 decoding inverts UTF-8 encoding for every string |
| UriCodec.HexValueOfDigit | src/components/editor/PublishPanel.jsx:19 | a hexadecimal digit written by the encoder reads back as its value |
| UriCodec.PercentBytes | src/components/editor/PublishPanel.jsx:19 | three characters per byte, each unreserved or `%` |
| UriCodec.EncodeURIComponent | src/components/editor/PublishPanel.jsx:19 | the encoded text holds only unreserved characters and `%` |
| UriCodec.EncodeWellEscaped | src/components/editor/PublishPanel.jsx:19 | every `%` in the encoded text starts a complete two-digit escape |
| UriCodec.DecodeWithoutPercent | src/pages/Home.jsx:33 | text without `%` decodes to itself |
| UriCodec.DecodeURIComponent | src/pages/Home.jsx:33 | decoding never lengthens the text (its round trip with the encoder: DecodeEncode) |
| UriCodec.DecodeStrayPercent | src/pages/Home.jsx:33 | a `%` not followed by two hexadecimal digits makes decodeURIComponent throw |
| UriCodec.Utf8CharIsValid | src/pages/Home.jsx:33 | a multi-byte encoding is one the decoder accepts: its lead byte announces its length, the rest are continuation bytes, and it decodes to the character |
| UriCodec.DecodeEncode | src/pages/Home.jsx:33 | decodeURIComponent inverts encodeURIComponent for every string |
| UriCodec.PlusToSpace | src/pages/Home.jsx:30 | form decoding keeps the length and changes nothing when there is no `+` |
| UriCodec.IndexOf | src/pages/Home.jsx:30 | the first occurrence of the character |
| UriCodec.ParamGet | src/pages/Home.jsx:31 | `get` finds a value exactly when some pair has the name |
| UriCodec.FormParseOnePair | src/pages/Home.jsx:30 | a search string of one `?name=value` piece parses to exactly that one pair |
| UriCodec.FormPairOfD | src/pages/Home.jsx:30 | the piece `d=` plus text without `=` is the pair (`d`, the form-decoded text) |
| UriCodec.FormParseOfD | src/pages/Home.jsx:30-31 | `?d=` plus text without `&` or `=` parses to the single pair (`d`, the form-decoded text) |
| UriCodec.PercentDecodeOfEncode | src/pages/Home.jsx:30 | percent-decoding encoded text gives the UTF-8 bytes of the original |
| UriCodec.FormDecodeOfEncode | src/pages/Home.jsx:30 | form decoding (as URLSearchParams does) inverts encodeURIComponent |
| UriCodec.ShareUrlParam | src/pages/Home.jsx:30-31 | reading `d` from a share link gives back the JSON text unchanged, for a base URL without query or fragment |
| UriCodec.EncodedHasNoDelimiters | src/pages/Home.jsx:30 | encoded text holds no `&`, `=`, `#` or `?` |
| UriCodec.SearchOfShareUrl | src/pages/Home.jsx:30 | the search part of a share link is `?d=` and the encoded text |
| HomePage.ShareLinkAsWrittenWithoutPercent | src/pages/Home.jsx:30-33 | as written (the value of `get` decoded a second time), a share link whose JSON text has no `%` still gives that text back |
| HomePage.ShareLinkAsWrittenLosesPercent | src/pages/Home.jsx:30-33 | as written, a JSON text holding a `%` that does not start two hexadecimal digits makes the second decode throw, so the link loads nothing |
| HomePage.ShareLinkPercentExample | src/pages/Home.jsx:30-33 | the link published for the text `50%` fails as written and reads back as `50%` with one decode |
| HomePage.ShareLinkRoundTrip | src/pages/Home.jsx:30-33 | read with one decode, every share link gives back exactly the JSON text it was built from |
| HomePage.LinkText | src/pages/Home.jsx:30-32 | the link text is the `d` parameter URLSearchParams gives, when it is non-empty |
| HomePage.LinkTextAsWritten | src/pages/Home.jsx:30-33 | as written the page decodes the link text a second time: present exactly when the link text is, and its decodeURIComponent |
| HomePage.LinkDocument | src/pages/Home.jsx:33-34 | the loader only accepts a parsed value that is an object (arrays included) |
| HomePage.LinkProfile | src/pages/Home.jsx:38-39 | a profile is installed exactly when the link's `profile` is an object; it has the profile's fields, and `updatedAt` is its own when truthy and now otherwise |
| HomePage.LinkProfileKeepsStamp | src/pages/Home.jsx:39 | a linked profile with a non-empty `updatedAt` is installed unchanged |
| HomePage.LoadShareLink | src/pages/Home.jsx:28-47 | a link is accepted exactly when its document decodes and parses to an object; a refused link changes no store; projects and progress are replaced only when their fields are arrays, selecting the first id or null, and the profile only when it is an object |
| HomePage.TagsOf | src/pages/Home.jsx:51-52 | `p.tags \|\| []` on a null or undefined record throws |
| HomePage.FlatTags | src/pages/Home.jsx:51-52 | the flattening succeeds exactly when no record is null or undefined |
| HomePage.FirstIndex | src/pages/Home.jsx:53 | the position of the first occurrence |
| HomePage.Dedup | src/pages/Home.jsx:53 | `Array.from(new Set(...))` keeps every value once, loses none and adds none |
| HomePage.DedupFirstOccurrence | src/pages/Home.jsx:53 | the set keeps values in the order of their first occurrence |
| HomePage.UniqueTags | src/pages/Home.jsx:50-54 | the tag list is defined exactly when both flattenings are; it repeats no tag and holds exactly the project and progress tags |
| HomePage.UniqueTagsProjectsFirst | src/pages/Home.jsx:53 | every project tag comes before every tag that only progress items carry |
| HomePage.RemoveHashes | src/pages/Home.jsx:57 | no ASCII or full-width hash is left, and nothing is added |
| HomePage.Query | src/pages/Home.jsx:57 | the query holds no hash |
| HomePage.TextHas | src/pages/Home.jsx:60-61 | the test throws unless `v \|\| ''` is a string, and otherwise is case-insensitive substring search |
| HomePage.AnyTagHas | src/pages/Home.jsx:62 | a true answer names a string tag containing the query; for an all-string tag list the answer is whether one contains it |
| HomePage.Filtered | src/pages/Home.jsx:56-67 | throws exactly when a test throws; otherwise exactly the projects passing both tests, in list order: a subsequence, as long as the number passing, missing none of them |
| HomePage.NoFilterShowsAll | src/pages/Home.jsx:59-65 | with an empty query and no active tag every project is shown |
| HomePage.FilteredHasActiveTag | src/pages/Home.jsx:64 | a shown project whose tags are an array carries the active tag |
| HomePage.TagHas | src/pages/Home.jsx:74 | the test throws for a non-string tag and is otherwise case-insensitive substring search |
| HomePage.TagHits | src/pages/Home.jsx:73-74 | throws exactly on a non-string tag; otherwise exactly the tags that contain the query after lower-casing, in list order |
| HomePage.Hits | src/pages/Home.jsx:76-81 | the tag suggestions come first, then one title suggestion per matching record |
| HomePage.Suggestions | src/pages/Home.jsx:70-82 | no suggestion for an empty query; at most twelve, tags before titles, each tag suggestion a listed string tag containing the query |
| HomePage.SuggestionsPick | src/pages/Home.jsx:73-81 | for a non-empty query the suggestions are the first six matching tags, then the titles of the first six records whose title matches |
| HomePage.SuggestionsFail | src/pages/Home.jsx:73-74 | for a non-empty query the suggestions throw exactly when a tag is not a string or a record's title test throws |
| HomePage.FirstSix | src/pages/Home.jsx:75-81 | at most six tag suggestions, in tag order, then at most six title suggestions, in record order |
| HomePage.HitsShape | src/pages/Home.jsx:75-81 | six tags and six titles at most make at most twelve suggestions, tags first |
| HomePage.SuggestedTagsDistinct | src/pages/Home.jsx:73-76 | the tag suggestions repeat no tag |
| HomePage.DropFirstSlash | src/pages/Home.jsx:260 | `replace('/', '')` removes the leading slash and changes a text without `/` in no way |
| HomePage.Segments | src/pages/Home.jsx:264 | `split('/').filter(Boolean)` is exactly the non-empty pieces, in order |
| HomePage.GetEmbed | src/pages/Home.jsx:250-272 | no embed for an empty or unparsable address; YouTube needs a non-empty `v`, youtu.be takes the path, Vimeo the first path segment, in that order of hosts |
| HomePage.EmbedTargets | src/pages/Home.jsx:250-272 | every embed address points at the YouTube embed or the Vimeo player |
| HomePage.VideoDataUrlAnyCase | src/pages/Home.jsx:275-277 | the `data:video/` test ignores letter case |
| HomePage.IsVideoDataUrl | src/pages/Home.jsx:275-277 | a string starts with `data:video/` in any letter case exactly when each of its first eleven characters lower-cases to that prefix |
| HomePage.MediaOf | src/pages/Home.jsx:190-200 | the thumbnail wins, then a video data URL, then an embed, then nothing |
| ExportPanel.ReplaceAllConcat | src/components/editor/ExportPanel.jsx:8-12 | a global one-character replacement distributes over concatenation |
| ExportPanel.ReplaceChainIsEscape | src/components/editor/ExportPanel.jsx:7-12 | the five chained replacements, `&` first, escape each character on its own: no entity is escaped twice |
| ExportPanel.Escape | src/components/editor/ExportPanel.jsx:7-12 | escaped text is safe: no markup character, and every `&` starts one of the five entities |
| ExportPanel.UnescapeEscape | src/components/editor/ExportPanel.jsx:7-12 | escaping loses nothing: the entities read back to the original text |
| ExportPanel.EscapeHtml | src/components/editor/ExportPanel.jsx:6-13 | a falsy value gives `''`; the result is safe and reads back to `String(s)` |
| ExportPanel.Run | src/components/editor/ExportPanel.jsx:19 | the longest prefix whose characters match a character class |
| ExportPanel.YouTubeAt | src/components/editor/ExportPanel.jsx:19 | a captured YouTube id has at least six id characters |
| ExportPanel.VimeoAt | src/components/editor/ExportPanel.jsx:24 | a captured Vimeo id is one or more digits |
| ExportPanel.FirstMatch | src/components/editor/ExportPanel.jsx:19-24 | `match` finds the leftmost position where the pattern matches, and no match exactly when none starts anywhere |
| ExportPanel.EmbedUrl | src/components/editor/ExportPanel.jsx:15-29 | a falsy address gives `''`; otherwise the YouTube embed of the leftmost YouTube match, else the Vimeo player of the leftmost Vimeo match; some address exactly when some pattern matches |
| ExportPanel.EmbedUrlShortLink | src/components/editor/ExportPanel.jsx:19-21 | a `youtu.be/` link after text without `y` or `v` embeds its id |
| ExportPanel.EmbedUrlOfYouTube | src/components/editor/ExportPanel.jsx:19-21 | the leftmost YouTube match decides the embed |
| ExportPanel.UrlToDataUrl | src/components/editor/ExportPanel.jsx:36-50 | an empty value gives `''`, a data URL is kept, anything else is fetched and read, and a failed fetch gives `''` |
| ExportPanel.IsDataUrl | src/components/editor/ExportPanel.jsx:33 | a string starts with `data:` in any letter case exactly when each of its first five characters lower-cases to that prefix |
| ExportPanel.OfflineKeepsOnlyDataUrls | src/components/editor/ExportPanel.jsx:36-50 | without a network every address that is not already a data URL is dropped |
| ExportPanel.PrepareAttachment | src/components/editor/ExportPanel.jsx:103-107 | a null attachment throws; otherwise the name defaults to `attachment`, an existing data URL is kept or the address inlined, the address is cleared, and every other field is copied |
| ExportPanel.PrepareAttachments | src/components/editor/ExportPanel.jsx:103 | `(np.attachments \|\| []).map(...)` throws unless the value is falsy or an array of non-null entries; one entry per attachment |
| ExportPanel.PrepareProject | src/components/editor/ExportPanel.jsx:99-109 | the thumbnail is inlined, the media address cleared, the attachments prepared, and every other field copied |
| ExportPanel.PrepareItem | src/components/editor/ExportPanel.jsx:111-116 | both images are inlined and every other field copied |
| ExportPanel.PreparePayloadOffline | src/components/editor/ExportPanel.jsx:95-119 | succeeds exactly when every record can be prepared; the clone keeps every other field, the profile gets an inlined avatar, and the lists keep length and order with each record prepared |
| ExportPanel.OfflineProjectThumbnail | src/components/editor/ExportPanel.jsx:101 | offline, a prepared thumbnail is a data URL or `''` |
| ExportPanel.TagsHtml | src/components/editor/ExportPanel.jsx:145 | the tag spans throw unless the tags are falsy or an array; no tags draw nothing; every tag is drawn as `#` and its escaped text |
| ExportPanel.AttachmentLink | src/components/editor/ExportPanel.jsx:147-148 | a missing attachment throws; an attachment draws a link exactly when it has a data URL |
| ExportPanel.AttachmentLinks | src/components/editor/ExportPanel.jsx:147-149 | the links are empty exactly when no attachment has a data URL |
| ExportPanel.AttachmentsBlock | src/components/editor/ExportPanel.jsx:147-160 | the attachment block appears exactly when some attachment has a data URL |
| ExportPanel.FullRegion | src/components/editor/ExportPanel.jsx:159 | the collapsed full description appears exactly when it is not blank, and ends with its escaped text |
| ExportPanel.MoreButton | src/components/editor/ExportPanel.jsx:151 | the "more" button appears exactly when there is a full description |
| ExportPanel.ProjectCard | src/components/editor/ExportPanel.jsx:144-165 | a project card throws for a missing project or for tags or attachments that are not arrays |
| ExportPanel.ProjectCardShows | src/components/editor/ExportPanel.jsx:144-165 | a project card shows the escaped thumbnail address when there is one, the escaped title or `無題`, the tag spans, the escaped short description, the collapsed full description, the attachment block and the more button |
| ExportPanel.ProjectCardHtml | src/components/editor/ExportPanel.jsx:152-164 | the card template holds each of its filled-in pieces |
| ExportPanel.Media | src/components/editor/ExportPanel.jsx:146 | a thumbnail is drawn as an image of its escaped address |
| ExportPanel.ProgressCard | src/components/editor/ExportPanel.jsx:167-186 | a progress card throws for a missing item or tags that are not an array |
| ExportPanel.ProgressCardShows | src/components/editor/ExportPanel.jsx:167-186 | a progress card shows the escaped title or `無題`, the tag spans, `ステータス: ` with the status label, `期限: ` with the due date or `未設定`, the escaped short description, the collapsed full description, a bar `width:` the shown percent and the percent itself, and the more button |
| ExportPanel.ProgressCardHtml | src/components/editor/ExportPanel.jsx:173-185 | the card template holds each of its filled-in pieces |
| ExportPanel.Cards | src/components/editor/ExportPanel.jsx:144-165 | the list of cards fails exactly when some card throws |
| ExportPanel.CardsInOrder | src/components/editor/ExportPanel.jsx:144-165 | the cards are the texts of the cards of the list joined one after another, in list order |
| ExportPanel.ProgressSection | src/components/editor/ExportPanel.jsx:199-203 | the progress section appears exactly for a non-empty list, and then holds the progress cards |
| ExportPanel.SocialBadge | src/components/editor/ExportPanel.jsx:140 | a badge throws only for a missing entry, and shows `label \|\| type \|\| 'Link'` escaped |
| ExportPanel.SocialBadges | src/components/editor/ExportPanel.jsx:140 | the badges fail exactly when some entry is missing; otherwise they are the entries' badges joined in list order |
| ExportPanel.ProfileHtml | src/components/editor/ExportPanel.jsx:131-141 | the profile block throws exactly when the socials are not a list or hold a missing entry; it shows the escaped display name or `（名前未設定）`, the escaped bio and the badges |
| ExportPanel.ProfileBlock | src/components/editor/ExportPanel.jsx:132-140 | the profile template holds each of its filled-in pieces |
| ExportPanel.PageHead | src/components/editor/ExportPanel.jsx:123-128 | the head holds the page title, the escaped display name or `Portfolio Viewer`, and the style sheet |
| ExportPanel.PageBody | src/components/editor/ExportPanel.jsx:189-206 | the body holds the escaped display name or `Portfolio`, the profile block, the project cards, the progress section and the script |
| ExportPanel.Page | src/components/editor/ExportPanel.jsx:209 | the page starts with the doctype and the opening of the Japanese-language head, and holds the head and the body |
| ExportPanel.Sections | src/components/editor/ExportPanel.jsx:131-186 | the three parts are produced exactly when the payload is renderable, and are the profile block, the project cards and the progress cards, in that order |
| ExportPanel.BuildViewerHtmlOffline | src/components/editor/ExportPanel.jsx:122-210 | the page is produced exactly when every record has the shape the template needs; it starts with the doctype and holds the head, the profile block, the project cards and, for a non-empty progress list, the progress cards |
| ExportPanel.NoProgressNoSection | src/components/editor/ExportPanel.jsx:199 | a page without progress items has no progress section |
| TagEditor.AllTags | src/components/editor/CardForm.jsx:37-41 | the tag list is defined exactly when no project is null; it repeats no tag |
| TagEditor.CardTags | src/components/editor/CardForm.jsx:45 | the card's tags, each normalised by the form's ensureTagDot; it throws exactly when the tag value is neither falsy nor an array |
| TagEditor.Select | src/components/editor/CardForm.jsx:47-48 | `filter` keeps exactly the elements passing the test, in order, and keeps a list without repeats so |
| TagEditor.Suggest | src/components/editor/CardForm.jsx:42-50 | no suggestion for an empty query; otherwise the first six suggestible tags in list order (all of them when fewer), each matching the query and none already on the card |
| TagEditor.SuggestionsComplete | src/components/editor/CardForm.jsx:42-50 | no suggestion is offered twice, and fewer than six means every suggestible tag is offered |
| TagEditor.NewTag | src/components/editor/CardForm.jsx:171 | a non-empty new tag ends in exactly one dot and does not start with a hash |
| TagEditor.NewTagIsStored | src/components/editor/CardForm.jsx:171 | a new tag not starting with white space is one the store's own normaliser leaves as it is |
| TagEditor.AppendTag | src/components/editor/CardForm.jsx:170-175 | an empty tag makes no update; otherwise the old list with the tag appended |
| TagEditor.ReplaceAt | src/components/editor/CardForm.jsx:114 | the index-wise map replaces exactly position `i` |
| TagEditor.DeleteAt | src/components/editor/CardForm.jsx:125 | the index-wise filter removes exactly position `i`, keeping the rest in order, and changes nothing for an index past the end |
| TagEditor.ReplaceTag | src/components/editor/CardForm.jsx:111-118 | an empty tag makes no update; otherwise the list with tag `i` replaced and nothing else changed |
| TagEditor.DeleteTag | src/components/editor/CardForm.jsx:124-127 | the list without index `i`, the rest in order |
| TagEditor.DeleteUndoesAdd | src/components/editor/CardForm.jsx:125 | deleting the tag just added gives the list back (also lines 171-173) |
| TagEditor.EditStartRoundTrip | src/components/editor/CardForm.jsx:112-142 | opening the edit box of a normalised tag and saving gives that tag back |
| TagEditor.EditUnchangedKeepsList | src/components/editor/CardForm.jsx:111-118 | saving an unchanged edit box leaves the list as it was (also line 142) |
| TagEditor.ReplaceTagSame | src/components/editor/CardForm.jsx:114 | saving a tag as it already is leaves the list as it was |
| CardForm.Attachment | src/components/editor/CardForm.jsx:62-68 | the attachment record has exactly id, name, mime, size and dataUrl; an empty mime type becomes `application/octet-stream` |
| CardForm.AttachFiles | src/components/editor/CardForm.jsx:58-73 | no file makes no update; otherwise the card's attachments followed by one record per file, in file order |
| CardForm.RemoveAttachment | src/components/editor/CardForm.jsx:75-77 | removing by id drops exactly the attachments with that id |
| CardForm.RemoveUndoesAttach | src/components/editor/CardForm.jsx:58-77 | removing the file just attached, by its fresh id, gives the attachment list back |
| ProgressForm.AddTodo | src/components/editor/ProgressForm.jsx:204 | blank text makes no update; otherwise the old list with one to-do appended, titled with the trimmed text and not done |
| ProgressForm.MapById | src/components/editor/ProgressForm.jsx:192-193 | the map keeps the length, changes exactly the to-dos with that id, and throws at a null to-do |
| ProgressForm.Flip | src/components/editor/ProgressForm.jsx:192 | only `done` changes, to the negation of its truthiness |
| ProgressForm.ToggleTodo | src/components/editor/ProgressForm.jsx:192 | the checkbox flips `done` of the to-dos with that id and leaves the others |
| ProgressForm.FlipTwice | src/components/editor/ProgressForm.jsx:192 | two flips give back a to-do with a boolean `done` |
| ProgressForm.ToggleTwice | src/components/editor/ProgressForm.jsx:192 | ticking the same box twice restores a list whose `done` fields are booleans |
| ProgressForm.RenameTodo | src/components/editor/ProgressForm.jsx:193 | the title input sets the title of the to-dos with that id |
| ProgressForm.RemoveTodo | src/components/editor/ProgressForm.jsx:195 | the delete button removes exactly the to-dos with that id |
| ProgressForm.RemoveUndoesAdd | src/components/editor/ProgressForm.jsx:195-204 | deleting a to-do just added, by its fresh id, gives the list back |
| ProgressForm.PercentInput | src/components/editor/ProgressForm.jsx:208 | text that is no number stores 0, a number is stored as typed |
| ProgressForm.TypedPercentShown | src/components/editor/ProgressForm.jsx:55 | a typed number is stored as typed and shown clamped to 0..100 (also line 208) |
| ProgressView.StatusText | src/components/ProgressSummary.jsx:5-9 | done and in progress are named, every other value reads as not started |
| ProgressView.PriorityText | src/components/ProgressSummary.jsx:11-15 | high and low are named, every other value reads as medium |
| ProgressView.NumberOfIntStr | src/components/editor/ProgressForm.jsx:208 | the text of an integer reads back as that integer |
| ProgressView.Clamp | src/components/ProgressSummary.jsx:68 | the result lies in 0..100, keeps values already there, and sends values below and above to the nearest end |
| ProgressView.ShownPercent | src/components/editor/ProgressForm.jsx:55 | a falsy percent shows 0, a number is clamped to 0..100, and text that is no number stays NaN |
| ProgressView.ShownPercentIdempotent | src/components/editor/ProgressForm.jsx:55 | showing a shown percent again changes nothing |
| ProgressView.BarClass | src/components/editor/ProgressList.jsx:18-19 | red below 30, yellow below 70, green from 70; NaN fails both comparisons and is green |
| ProgressView.SummaryBarClass | src/components/ProgressSummary.jsx:67-70 | the summary clamps again after `pct \|\| 0`, so NaN is red, and otherwise agrees with the editor's colour |
| ProgressView.BarClassViewsAgree | src/components/ProgressSummary.jsx:67-70 | the two views give every shown percent the same colour and differ only at NaN |
| ProgressView.CeilDays | src/components/ProgressSummary.jsx:60 | the rounded-up day count brackets the time left |
| ProgressView.DueLabel | src/components/ProgressSummary.jsx:55-65 | no warning without a due date, for a done item or an unparsable date; overdue exactly when the due time has passed by a day or more; otherwise the day count within three days and nothing later |
| ProgressSummary.Effective | src/components/ProgressSummary.jsx:25-27 | a filter passed by the page wins over the list's own |
| ProgressSummary.StatusTest | src/components/ProgressSummary.jsx:45 | the status test throws for a null item and passes exactly the items with that status |
| ProgressSummary.JoinText | src/components/ProgressSummary.jsx:49 | `join(' ')` of the parts: empty for no parts, otherwise the parts' texts joined by single spaces, containing each of them |
| ProgressSummary.SearchParts | src/components/ProgressSummary.jsx:49 | throws for a null item or a tags value that cannot be spread; otherwise title, short and full description (each `|| ''`), then the spread tags |
| ProgressSummary.SearchText | src/components/ProgressSummary.jsx:49 | throws exactly for a null item or a tags value that cannot be spread; otherwise the lower-cased join of the search parts, containing each part lower-cased |
| ProgressSummary.SortItems | src/components/ProgressSummary.jsx:29-32 | undefined elements go last without being compared; the others come out as a permutation sorted by `order` read as a number (missing counting as 0, text such as `"5"` as 5); it throws exactly when two defined elements are compared and one of them is null; without undefined elements this is the plain sorted permutation |
| ProgressSummary.JsSortByOrder | src/components/ProgressSummary.jsx:29-32 | the result is a permutation of the list in which no defined element follows an undefined one and the defined elements are sorted by `order`; without undefined elements it is the stable sort by `order` |
| ProgressSummary.SortItemsDefined | src/components/ProgressSummary.jsx:29-32 | without undefined elements the sort is the stable sort by `order`, and it throws exactly when two elements are compared and one is nullish |
| ProgressSummary.Step | src/components/ProgressSummary.jsx:45-51 | an inactive filter changes nothing; an active one keeps exactly the items passing its test, in list order, as a subsequence as long as the number of passing items |
| ProgressSummary.StepMultiplicity | src/components/ProgressSummary.jsx:45-51 | a step keeps every passing item as many times as the list holds it, and no other item |
| ProgressSummary.Filtered | src/components/ProgressSummary.jsx:43-53 | the shown items are exactly the items passing every active filter, sorted by `order` with any undefined item last; without undefined items, sorted by `order` throughout |
| ProgressSummary.FilteredMultiplicity | src/components/ProgressSummary.jsx:43-53 | each item passing every active filter is shown exactly as many times as the items hold it, and no other item is shown |
| ProgressSummary.FilteredOk | src/components/ProgressSummary.jsx:43-53 | the list is produced exactly when it can read what it reads: no null or undefined item once a filter is active, no null item once two defined items are compared, readable tags on every item the status keeps, spreadable tags on every item status and tag keep; otherwise rendering throws |
| ProgressSummary.NoFilterSortsAll | src/components/ProgressSummary.jsx:43-53 | without any filter every item is shown, sorted by `order` |
| ProgressSummary.TitleSuggestions | src/components/ProgressSummary.jsx:39 | one title suggestion per item, carrying its title and id |
| ProgressSummary.TagSuggestions | src/components/ProgressSummary.jsx:38 | one tag suggestion per tag |
| ProgressSummary.TitleHits | src/components/ProgressSummary.jsx:39 | throws exactly when a title test throws; otherwise exactly the items whose title contains the query, in list order |
| ProgressSummary.TagHitsOf | src/components/ProgressSummary.jsx:34-38 | throws exactly when the flattening does or a tag is not a string; otherwise exactly the tags containing the query, once each, in first-occurrence order |
| ProgressSummary.Compose | src/components/ProgressSummary.jsx:40 | at most eight suggestions, the tags first |
| ProgressSummary.Suggestions | src/components/ProgressSummary.jsx:35-41 | no suggestion for an empty query; otherwise throws exactly when the tag or title hits do, and is the first five tag hits then the first five title hits, cut to eight |
| ProgressSummary.SuggestionsTagsFirst | src/components/ProgressSummary.jsx:38-40 | tag suggestions come first, at most five, each a tag containing the query, none twice |
| ProgressList.StatusFiltered | src/components/editor/ProgressList.jsx:66 | no filter keeps the list as it is; otherwise the items with that status, in order, throwing only at a null item |
| ProgressList.SomeSameId | src/components/editor/ProgressList.jsx:78 | `some` over an empty list is false, and otherwise tells whether some filtered record has the item's id |
| ProgressList.IdOrder | src/components/editor/ProgressList.jsx:76-82 | the ids of the items outside the filter, sorted by `order`, then the ids of the filtered list after the move |
| ProgressList.OnDragEnd | src/components/editor/ProgressList.jsx:70-84 | nothing happens when dropped on nothing or on the dragged item itself; otherwise the id order handed to reorder |
| ProgressList.NotInFilteredExact | src/components/editor/ProgressList.jsx:78 | with distinct ids, "no filtered record has this id" is exactly "the item fails the status filter" |
| ProgressList.SplitKeepsAll | src/components/editor/ProgressList.jsx:76-82 | the items outside the filter and the filtered ones together are all the items |
| ProgressList.DropIsPermutation | src/components/editor/ProgressList.jsx:70-84 | the id order of a drop between two listed items names every item exactly once |
| ProgressList.DropKeepsEveryItem | src/components/editor/ProgressList.jsx:83 | so reorder keeps every item, each renumbered by its new position |
| ProgressList.DropPutsFilteredLast | src/components/editor/ProgressList.jsx:74-82 | the order ends with the filtered ids after the move, the dragged id at the target's index, and no filtered id earlier |
| ProgressKanban.LaneTest | src/components/editor/ProgressKanban.jsx:48-71 | the lane test throws for a null record, and passes the records whose status, empty counting as to do, is the column |
| ProgressKanban.Column | src/components/editor/ProgressKanban.jsx:47-51 | a column is defined exactly when every record is readable; it holds exactly the records of its lane, sorted by `order` |
| ProgressKanban.DestCount | src/components/editor/ProgressKanban.jsx:71 | the count is defined exactly when every record is readable and never exceeds the number of records |
| ProgressKanban.DestCountIsColumnSize | src/components/editor/ProgressKanban.jsx:48-71 | destCount is the size of the destination column |
| ProgressKanban.BuildGroups | src/components/editor/ProgressKanban.jsx:47-51 | every column is sorted by `order`, each record sits in the column its lane names, and no column holds anything else |
| ProgressKanban.Destination | src/components/editor/ProgressKanban.jsx:57-65 | a drop on a column id targets that column; otherwise the first column holding a card with the target's id, or none |
| ProgressKanban.ColumnHasIdOf | src/components/editor/ProgressKanban.jsx:62-64 | with distinct ids, a column holds a card with a record's id exactly when the record's lane is that column |
| ProgressKanban.DropOnCardJoinsItsColumn | src/components/editor/ProgressKanban.jsx:62-64 | a drop on a card targets the card's own column |
| ProgressKanban.Find | src/components/editor/ProgressKanban.jsx:69 | the first record with that id, none exactly when no record has it, and a throw only at a null record |
| ProgressKanban.NextOrderIds | src/components/editor/ProgressKanban.jsx:75-77 | one id per record, naming every record's key once |
| ProgressKanban.MoveOne | src/components/editor/ProgressKanban.jsx:72 | only the dragged record changes; it keeps its id |
| ProgressKanban.Moved | src/components/editor/ProgressKanban.jsx:72 | only the dragged card gets the destination status and, as `order`, the column's size; every other record is as it was |
| ProgressKanban.MovedIsUpdate | src/components/editor/ProgressKanban.jsx:72 | that is exactly what the store's updateItem does with the patch |
| ProgressKanban.DropResult | src/components/editor/ProgressKanban.jsx:72-78 | after the drop the records are numbered 0..N-1 by position |
| ProgressKanban.DropKeepsEveryCard | src/components/editor/ProgressKanban.jsx:72-78 | the drop keeps every card once, as updateItem left it, renumbered by its place |
| ProgressKanban.DropSetsStatus | src/components/editor/ProgressKanban.jsx:72 | after the drop the dragged card has the destination status and shows in that column |
| ProgressKanban.DropKeepsOldRank | src/components/editor/ProgressKanban.jsx:72-78 | as written, every card ends at its rank in the pre-drop `order`, as updateItem left it and renumbered by that rank |
| ProgressKanban.DraggedAtOldRank | src/components/editor/ProgressKanban.jsx:72-78 | as written, the dragged card ends at its pre-drop rank: the column size written into it is overwritten by reorder |
| ProgressKanban.OtherAtOldRank | src/components/editor/ProgressKanban.jsx:75-78 | as written, every other card ends at its pre-drop rank |
| ProgressKanban.DraggedStaysAhead | src/components/editor/ProgressKanban.jsx:68-78 | a dragged card that ranked first stays ahead of a card already in the destination column |
| ProgressKanban.SampleOrderIds | src/components/editor/ProgressKanban.jsx:75-77 | on the two-card board the pre-drop order is `a` then `b` |
| ProgressKanban.DropAsWrittenNotLast | src/components/editor/ProgressKanban.jsx:68-78 | dropping an in-progress card with `order` 0 on a to-do column holding a card with `order` 1 shows it first, not last |
| ProgressKanban.AtEndIds | src/components/editor/ProgressKanban.jsx:68 | the corrected order names every record once, the dragged id last |
| ProgressKanban.MoveToEnd | src/components/editor/ProgressKanban.jsx:68 | the same ids with `x` moved from its first place to the end |
| ProgressKanban.DropResultAtEnd | src/components/editor/ProgressKanban.jsx:68-78 | the corrected drop numbers the records 0..N-1 by position |
| ProgressKanban.DropAtEndKeepsEveryCard | src/components/editor/ProgressKanban.jsx:68-78 | the corrected drop keeps every card once |
| ProgressKanban.DropAtEndLast | src/components/editor/ProgressKanban.jsx:68 | with the corrected order the dragged card is the last record, with the destination status |
| ProgressKanban.DropAtEndIsLast | src/components/editor/ProgressKanban.jsx:68 | with the corrected order the card lands at the end of its destination column |
| ProgressKanban.DropStatus | src/components/editor/ProgressKanban.jsx:53-70 | a destination exactly when there is a drop target that is a column or a card in one, and a record with the dragged id |
| ProgressKanban.OnDragEnd | src/components/editor/ProgressKanban.jsx:53-79 | nothing changes unless the drop finds a destination; a drop applies updateItem then reorder, as DropResult says |
| ProgressKanban.Drop | src/components/editor/ProgressKanban.jsx:71-78 | the store's items become DropResult, the selection is kept, and the saved slot holds the new list |
| OfficialMoreForm.MoreOf | src/components/editor/OfficialMoreForm.jsx:19 | reading `more` of a null document throws; a falsy section shows the default one, and the shown section is always truthy |
| OfficialMoreForm.EditableIffSignedIn | src/components/editor/OfficialMoreForm.jsx:27 | in every state the session store keeps, the form can be edited exactly while someone is signed in |
| OfficialMoreForm.MediaType | src/components/editor/OfficialMoreForm.jsx:53 | `video` exactly when the URL as typed matches the video pattern, `image` otherwise |
| OfficialMoreForm.VideoExtensionAnyCase | src/components/editor/OfficialMoreForm.jsx:53 | a URL ending in a video extension, in any letter case, is a video, with or without a query after it |
| OfficialMoreForm.VideoWithoutQuery | src/components/editor/OfficialMoreForm.jsx:53 | without a `?`, a URL is a video exactly when it ends in a dot and a video extension, ignoring letter case |
| OfficialMoreForm.Run | src/components/editor/OfficialMoreForm.jsx:47-62 | store actions run one after the other; the document is written exactly when the first one runs to the end, and stays as it was otherwise |
| OfficialMoreForm.ReadPathFrame | src/store/official.js:66-73 | an edit under one top-level key leaves what is read under another as it was |
| OfficialMoreForm.AddThenLogEffect | src/components/editor/OfficialMoreForm.jsx:47-48 | a batch then a log entry: the media list gains the batch's entries in order after the old ones, and the log gains exactly the one entry in front |
| OfficialMoreForm.MediaItem | src/components/editor/OfficialMoreForm.jsx:54 | the entry carries the given type and src |
| OfficialMoreForm.UrlSteps | src/components/editor/OfficialMoreForm.jsx:51-56 | a blank URL does nothing; otherwise one addMedia of one entry, then one addLog |
| OfficialMoreForm.UrlAddEffect | src/components/editor/OfficialMoreForm.jsx:51-56 | adding a URL appends one entry whose src is the trimmed URL and whose type is video exactly for a video URL, and logs exactly once |
| OfficialMoreForm.UploadItem | src/components/editor/OfficialMoreForm.jsx:33-45 | a video MIME type gives the blob URL and `ephemeral: true`; anything else the data URL that was read; the entry carries the file's name |
| OfficialMoreForm.Uploads | src/components/editor/OfficialMoreForm.jsx:31-46 | one entry per file, in file order |
| OfficialMoreForm.CollectUploads | src/components/editor/OfficialMoreForm.jsx:31-46 | the loop builds exactly the batch, in file order |
| OfficialMoreForm.EntryNamed | src/components/editor/OfficialMoreForm.jsx:41-44 | the stored entry keeps the file's name |
| OfficialMoreForm.FileSteps | src/components/editor/OfficialMoreForm.jsx:29-49 | no file does nothing; otherwise one addMedia of the whole batch, then one addLog |
| OfficialMoreForm.FilesAddEffect | src/components/editor/OfficialMoreForm.jsx:29-49 | uploading adds one entry per file in file order, each named as its file, and logs once with the number of files |
| OfficialMoreForm.BatchNamed | src/components/editor/OfficialMoreForm.jsx:41-47 | after the old entries, the entry at offset i carries the name of file i |
| OfficialMoreForm.DropSteps | src/components/editor/OfficialMoreForm.jsx:60-62 | reorderMedia, then one addLog |
| OfficialMoreForm.DropEffect | src/components/editor/OfficialMoreForm.jsx:58-63 | a drop between two cards of the list moves the dragged entry to the target's place, keeps every entry and the others' order, and logs once |
| OfficialMoreForm.MoreForm.constructor | src/components/editor/OfficialMoreForm.jsx:5-20 | the form starts on its section with no card being dragged |
| OfficialMoreForm.MoreForm.OnDragStart | src/components/editor/OfficialMoreForm.jsx:121 | the dragged index is the card's index |
| OfficialMoreForm.MoreForm.OnUrlAdd | src/components/editor/OfficialMoreForm.jsx:51-56 | the store ends as UrlSteps run on the old document, and the saved slot is written exactly when an action ran to the end |
| OfficialMoreForm.MoreForm.OnFiles | src/components/editor/OfficialMoreForm.jsx:29-49 | the store ends as FileSteps run on the old document, and the saved slot is written exactly when an action ran to the end |
| OfficialMoreForm.MoreForm.OnDropReorder | src/components/editor/OfficialMoreForm.jsx:58-63 | without a drag start nothing changes; otherwise the store ends as DropSteps run on the old document, and the drag index is cleared once reorderMedia returns |

## Left out

- Rendering, animation and layout are not modelled: framer-motion, masonry, the dnd-kit sensors and contexts, the Modal portal, and the page shells (src/App.jsx, src/pages/Edit.jsx, src/pages/Progress.jsx, src/pages/OfficialManage.jsx, src/pages/Official.jsx with its injected custom CSS/JS/HTML, src/components/AuthGate.jsx, src/components/Modal.jsx, BlockPalette.jsx, ProfileForm.jsx). They are user interface and routing.
- The other official-site forms (OfficialTopForm.jsx, OfficialRoutesForm.jsx, OfficialOperationForm.jsx, OfficialTourismForm.jsx, OfficialCorporateForm.jsx, OfficialCustomForm.jsx) and ProgressPalette.jsx are not modelled. They only forward input events to store operations that are modelled in OfficialStore and ProgressStore. The palette's download filename is date formatting.
- OfficialMoreForm's enabled toggle, label and text inputs (OfficialMoreForm.jsx:74,80,85), the section-label lookup (23-25), the title prompt of the media list (131) and the remove button with its console log (132) are not modelled as form members. They forward to OfficialStore.Official.SetMore and to the media-list actions, which are modelled.
- ProjectModal.jsx and ProgressModal.jsx are not modelled. They are presentational, and their getEmbed, isVideoDataUrl, percent clamp and bar class repeat HomePage.GetEmbed, HomePage.IsVideoDataUrl and the ProgressSummary helpers.
- Browser storage is an abstract slot: a key holds `Missing`, `Malformed` text or a `Parsed` value. JSON.parse is the parse step into that slot. JSON.stringify is a parameter wherever its text matters (the share link).
- ProjectsStore.Projects.Commit: a `setItem` that throws (quota exceeded, storage disabled) is not modelled. The source swallows that error (projects.js:111-113): the state changes and the slot keeps its old value, while the model always writes the slot when the lock is clear. The slot also holds the projects themselves, not their JSON.stringify/JSON.parse round trip. Every method that commits (AddProject, Select, UpdateProject, RemoveSelected, RemoveProject, Reorder, SetState) inherits this.
- ProgressStore.Progress.Commit: the same holds for progress.js:169-171. Every method that commits inherits it, as do ProgressKanban.Drop and ProgressKanban.OnDragEnd.
- ProfileStore.Profile.Commit: the same holds for profile.js:92-94. Every method that commits inherits it.
- OfficialStore.Official.Commit: the same holds for official.js:249. Every method that commits inherits it, as do OfficialMoreForm.MoreForm.OnUrlAdd, OnFiles and OnDropReorder.
- Storage events are explicit method calls (`OnStorage`). Cross-tab delivery and ordering are not modelled.
- ProjectsStore.Projects.OnStorage: compares values structurally where the source compares JSON texts, so the same object with its keys in another order counts as unchanged here. In the source that event would be applied, but it changes no field.
- ProgressStore.Progress.OnStorage: the same structural comparison stands in for the JSON-text comparison.
- ProfileStore.Profile.OnStorage: the same structural comparison stands in for the JSON-text comparison.
- OfficialStore.Official.OnStorage: the same structural comparison stands in for the JSON-text comparison.
- Object key order is not modelled, except for the id-keyed dictionary of the append-mode import (Collection.Dict). There `Object.values` lists the array-index keys first, in ascending numeric order, then the other keys in creation order.
- fetch, FileReader, Blob, URL.createObjectURL, the clipboard, window.open and the download anchor are oracles or parameters. The export's per-field fetch results are what the model takes in. A FileReader read that fails, so that `onload` never fires and the form never updates (CardForm.jsx, OfficialMoreForm.jsx), is not modelled: every file read delivers its data URL.
- The Promise.all fan-out in the offline export runs sequentially in the model. Each field's result depends only on its own fetch, so the per-field results are the same.
- Date.now, new Date, toISOString, toLocale* formatting, Math.random and crypto.randomUUID are parameters: the caller supplies the time, the nonce and fresh ids. The due-date label divides integer milliseconds with ceiling division.
- Numbers are integers. Fractions, exponents, Infinity and floating-point rounding are not modelled.
- JsNumber.ToNumber: reads only signed decimal integer text and returns NaN (None) for arrays. JavaScript's Number also accepts fractions, exponents, hex and Infinity text, and maps `[]` and one-element arrays to numbers.
- JsString.Lower: maps only the ASCII letters A-Z. toLowerCase's full Unicode case mapping is not modelled.
- JsString.Trim uses the fixed ECMAScript whitespace and line-terminator set listed in JsString.IsSpace.
- The login delay (a random 200-600 ms wait at session.js:20), the logout timer (40-42) and src/components/fx/PresentationHotCorner.jsx are timer-driven. The delay's start and end times are the `now` and `later` parameters of SessionStore.Session.Login. Logins that interleave during the delay are not modelled, and the timer firing is the explicit SessionStore.Session.Expire call. PresentationHotCorner also calls a `togglePresentation` that session.js does not define.
- The login credentials come from the build configuration, so they are parameters.
- GLOBAL_CSS, MORE_CSS and the inline collapse script of ExportPanel.jsx are fixed text. They are parameters of the document builders.
- The online HTML export (ExportPanel.jsx:242) calls `buildViewerHtml`, which the file does not define. That path always ends in the catch at 244-246, so it is not modelled beyond that.
- ListOps.OrderKey: an order that Number turns into NaN (non-numeric text, an object, an array) is read as 0. In the source the comparator then returns NaN, which the sort treats as "equal" to every element, so no single key reproduces it and the engine's order is implementation-defined. The same holds for ProgressList.jsx:79 and ProgressKanban.jsx:48-50,76, which sort with `a.order - b.order` and so get NaN for a missing order as well; the model counts a missing order as 0 there.
- ProgressKanban.jsx:76 sorts the store's previous `items` array in place. The model sorts a copy, because the store has already replaced that array when the sort runs, so nothing reads the reordered array.
- ProgressStore.AppendStep: the lookup `byId[p.id]` is modelled over the dictionary's own keys only. An imported id that names a member every object inherits (`constructor`, `toString`, `__proto__` and the like) finds that member in JavaScript and is merged into it; the model adds it as a new entry instead.
- OfficialStore.Write: a write into an array under a key that is not one of its indices is an error. JavaScript would add that property, or grow the array. Every setPatch call site writes a one-segment path into the document, which is an object, so the case does not arise.
- ExportPanel.Page: the page text leaves out the template literal's line breaks and indentation, and the newline between the two style sheets. The same holds for the other templates (ExportPanel.PageHead, ExportPanel.PageBody, ExportPanel.ProfileBlock, ExportPanel.ProjectCardHtml, ExportPanel.ProgressCardHtml). Only the markup, its content and its order are modelled.
- ExportPanel.PreparePayloadOffline: an array-valued `profile` is an error. JavaScript would set `avatarUrl` on the array and go on to render the page. The editor always stores the profile as an object.
- PublishPanel.GenerateShareUrl: does not model the catch that returns an empty string. The serialiser is a total parameter, and the values the payload holds cannot make JSON.stringify throw.
- Theme selection (src/components/ThemeToggle.jsx and src/main.jsx) is not modelled. It reads localStorage and matchMedia to make a two-way choice.

## Findings

| source | as written | input that shows it | evidently intended | confidence | as-written member | corrected member |
|---|---|---|---|---|---|---|
| src/components/editor/ProgressKanban.jsx:68-78 | the drop reorders with the sort taken before the drop, so the dragged card keeps its old rank among the destination column's cards, and the `order` set from the destination count is overwritten by that rank | a = {status in_progress, order 0}, b = {status todo, order 1}; drag a onto the todo column: a is ranked 0 and b 1, so a shows first in todo | the dragged card goes last in its destination column, as the comment at line 68 says | not executed | ProgressKanban.DropResult, ProgressKanban.DraggedAtOldRank, ProgressKanban.DropAsWrittenNotLast | ProgressKanban.DropResultAtEnd, ProgressKanban.MoveToEnd, ProgressKanban.DropAtEndIsLast, ProgressKanban.DropAtEndKeepsEveryCard |
| src/pages/Home.jsx:30-33 | the `d` parameter read through URLSearchParams.get is already decoded, and it goes through decodeURIComponent a second time | a shared document whose JSON text contains `50%`: the second decode throws on the stray `%`, and the link loads nothing (a `%41` in the text would be silently turned into `A`) | decode the parameter once | not executed | HomePage.LinkTextAsWritten, HomePage.ShareLinkAsWrittenLosesPercent, HomePage.ShareLinkPercentExample | HomePage.LinkText, HomePage.ShareLinkRoundTrip, HomePage.LoadShareLink |
