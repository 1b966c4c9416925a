/** The file-list store of `src/lib/store.ts`: a list of at most 40 upload items
    (enforced by `addFiles`) with per-id status and result updates. The store's
    actions replace the `files` field with a list computed by `slice`, `map`,
    `filter` and spread; those lists are the functions below, and the store is
    the class `FileStore` at the end. */
module Store {
  import opened Common
  import Api

  /** The batch ceiling `addFiles` applies. */
  const MaxFiles: nat := 40

  datatype FileStatus = Pending | Uploading | Processing | Completed | Error

  /** The `result` record a conversion attaches to an item. */
  datatype FileResult = FileResult(
    filename: Option<string>,
    original: Option<string>,
    downloadUrl: Option<string>,
    text: Option<string>,
    error: Option<string>)

  datatype FileItem = FileItem(
    id: string,
    file: Api.File,
    name: string,
    size: nat,
    mimeType: string,
    status: FileStatus,
    progress: int,
    result: Option<FileResult>)

  /** `result?.error` is truthy: an error text is present and non-empty. */
  predicate HasError(result: Option<FileResult>) {
    result.Some? && result.value.error.Some? && result.value.error.value != ""
  }

  /** The fresh item `addFiles` builds for `file`, under the random id `id`. */
  function NewItem(file: Api.File, id: string): (item: FileItem)
    ensures item.id == id && item.file == file
    ensures item.name == file.name && item.size == file.size && item.mimeType == file.mimeType
    ensures item.status == Pending && item.progress == 0 && item.result == None
  {
    FileItem(id, file, file.name, file.size, file.mimeType, Pending, 0, None)
  }

  function NewItems(files: seq<Api.File>, ids: seq<string>): (items: seq<FileItem>)
    requires |ids| == |files|
    ensures |items| == |files|
    ensures forall i :: 0 <= i < |files| ==> items[i] == NewItem(files[i], ids[i])
  {
    if files == [] then [] else [NewItem(files[0], ids[0])] + NewItems(files[1..], ids[1..])
  }

  /** `s.slice(0, end)` in JavaScript: a negative `end` counts from the back. */
  function SliceTo<T>(s: seq<T>, end: int): (r: seq<T>)
    ensures end >= 0 ==> r == s[..Min(end, |s|)]
    ensures end < 0 ==> r == s[..Max(|s| + end, 0)]
  {
    if end >= 0 then s[..Min(end, |s|)] else s[..Max(|s| + end, 0)]
  }

  /** The list `addFiles` installs: the first 40 supplied files become items, and
      when the total would exceed 40 only `40 - |items|` of them are kept. */
  function WithAdded(items: seq<FileItem>, files: seq<Api.File>, ids: seq<string>): (r: seq<FileItem>)
    requires |ids| == |files|
    ensures items <= r
    ensures r[|items|..] <= NewItems(files, ids)
    ensures |items| <= MaxFiles ==> |r| == Min(MaxFiles, |items| + |files|)
    ensures |items| > MaxFiles ==> |r| == |items| + Max(Min(|files|, MaxFiles) - (|items| - MaxFiles), 0)
    ensures |r| - |items| <= Min(|files|, MaxFiles)
  {
    var n := Min(|files|, MaxFiles);
    var added := NewItems(files[..n], ids[..n]);
    assert added == NewItems(files, ids)[..n];
    if |items| + |added| > MaxFiles then items + SliceTo(added, MaxFiles - |items|)
    else items + added
  }

  /** The cap holds across `addFiles` for a list that respected it. */
  lemma AddKeepsCap(items: seq<FileItem>, files: seq<Api.File>, ids: seq<string>)
    requires |ids| == |files| && |items| <= MaxFiles
    ensures |WithAdded(items, files, ids)| <= MaxFiles
  {
  }

  /** A list already over the cap (possible only through `setFiles`) still grows:
      `40 - |items|` is negative and `slice(0, negative)` keeps all but that many
      new items. */
  lemma OverfullListStillGrows(items: seq<FileItem>, files: seq<Api.File>, ids: seq<string>)
    requires |items| == 41 && |files| == 3 && |ids| == 3
    ensures |WithAdded(items, files, ids)| == 43
  {
  }

  /** `updateFileStatus` on one item: the given progress, or the old one when none is given. */
  function Updated(item: FileItem, status: FileStatus, progress: Option<int>): FileItem {
    item.(status := status, progress := progress.GetOr(item.progress))
  }

  /** The list `updateFileStatus(id, status, progress)` installs. */
  function WithStatus(items: seq<FileItem>, id: string, status: FileStatus, progress: Option<int>): (r: seq<FileItem>)
    ensures |r| == |items|
    ensures forall i :: 0 <= i < |items| && items[i].id == id ==> r[i] == Updated(items[i], status, progress)
    ensures forall i :: 0 <= i < |items| && items[i].id != id ==> r[i] == items[i]
  {
    if items == [] then []
    else [if items[0].id == id then Updated(items[0], status, progress) else items[0]]
         + WithStatus(items[1..], id, status, progress)
  }

  /** The item after `updateFileResult`: the result, and status `error` exactly
      when the result carries a truthy error. */
  function WithResultOn(item: FileItem, result: Option<FileResult>): (r: FileItem)
    ensures r.result == result
    ensures r.status == (if HasError(result) then Error else Completed)
    ensures r.id == item.id && r.progress == item.progress && r.file == item.file && r.name == item.name
    ensures r.size == item.size && r.mimeType == item.mimeType
  {
    item.(result := result, status := if HasError(result) then Error else Completed)
  }

  /** The list `updateFileResult(id, result)` installs. */
  function WithResult(items: seq<FileItem>, id: string, result: Option<FileResult>): (r: seq<FileItem>)
    ensures |r| == |items|
    ensures forall i :: 0 <= i < |items| && items[i].id == id ==> r[i] == WithResultOn(items[i], result)
    ensures forall i :: 0 <= i < |items| && items[i].id != id ==> r[i] == items[i]
  {
    if items == [] then []
    else [if items[0].id == id then WithResultOn(items[0], result) else items[0]]
         + WithResult(items[1..], id, result)
  }

  /** The list `removeFile(id)` installs: `filter((f) => f.id !== id)`. */
  function Without(items: seq<FileItem>, id: string): (r: seq<FileItem>)
    ensures |r| <= |items|
    ensures forall i :: 0 <= i < |r| ==> r[i].id != id
    ensures forall x: FileItem :: x.id != id ==> multiset(r)[x] == multiset(items)[x]
  {
    if items == [] then []
    else
      var rest := Without(items[1..], id);
      assert items == [items[0]] + items[1..];
      assert multiset(items) == multiset{items[0]} + multiset(items[1..]);
      if items[0].id == id then rest else [items[0]] + rest
  }

  /** Removal works element by element, so the kept items stay in their order. */
  lemma {:induction false} WithoutAppend(a: seq<FileItem>, b: seq<FileItem>, id: string)
    ensures Without(a + b, id) == Without(a, id) + Without(b, id)
  {
    if a == [] {
      assert a + b == b;
    } else {
      assert (a + b)[0] == a[0];
      assert (a + b)[1..] == a[1..] + b;
      WithoutAppend(a[1..], b, id);
    }
  }

  /** Removing an id nobody has changes nothing. */
  lemma {:induction false} WithoutAbsentId(items: seq<FileItem>, id: string)
    requires forall i :: 0 <= i < |items| ==> items[i].id != id
    ensures Without(items, id) == items
  {
    if items != [] {
      WithoutAbsentId(items[1..], id);
    }
  }

  /** Removal is idempotent. */
  lemma WithoutIdempotent(items: seq<FileItem>, id: string)
    ensures Without(Without(items, id), id) == Without(items, id)
  {
    WithoutAbsentId(Without(items, id), id);
  }

  /** The ids a list holds, in order. */
  function Ids(items: seq<FileItem>): (r: seq<string>)
    ensures |r| == |items| && forall i :: 0 <= i < |items| ==> r[i] == items[i].id
  {
    seq(|items|, i requires 0 <= i < |items| => items[i].id)
  }

  /** Status and result updates never change which items the list holds, nor their order. */
  lemma UpdatesKeepIds(items: seq<FileItem>, id: string, status: FileStatus, progress: Option<int>, result: Option<FileResult>)
    ensures Ids(WithStatus(items, id, status, progress)) == Ids(items)
    ensures Ids(WithResult(items, id, result)) == Ids(items)
  {
  }

  /** `files.map((f) => f.file)`: the browser files behind the items, in order. */
  function Uploads(items: seq<FileItem>): (r: seq<Api.File>)
    ensures |r| == |items| && forall i :: 0 <= i < |items| ==> r[i] == items[i].file
  {
    seq(|items|, i requires 0 <= i < |items| => items[i].file)
  }

  /** The zustand store `useFileStore`. */
  class FileStore {
    var files: seq<FileItem>

    constructor ()
      ensures files == []
    {
      files := [];
    }

    /** `addFiles`; `ids` are the random ids the source draws, one per supplied file. */
    method AddFiles(newFiles: seq<Api.File>, ids: seq<string>)
      requires |ids| == |newFiles|
      modifies this
      ensures files == WithAdded(old(files), newFiles, ids)
      ensures old(files) <= files
      ensures |old(files)| <= MaxFiles ==> |files| <= MaxFiles
    {
      files := WithAdded(files, newFiles, ids);
    }

    method RemoveFile(id: string)
      modifies this
      ensures files == Without(old(files), id)
    {
      files := Without(files, id);
    }

    method ClearFiles()
      modifies this
      ensures files == []
    {
      files := [];
    }

    method UpdateFileStatus(id: string, status: FileStatus, progress: Option<int>)
      modifies this
      ensures files == WithStatus(old(files), id, status, progress)
    {
      files := WithStatus(files, id, status, progress);
    }

    method UpdateFileResult(id: string, result: Option<FileResult>)
      modifies this
      ensures files == WithResult(old(files), id, result)
    {
      files := WithResult(files, id, result);
    }

    method SetFiles(newFiles: seq<FileItem>)
      modifies this
      ensures files == newFiles
    {
      files := newFiles;
    }
  }
}
