/** The image converter page, `src/app/images/converter/page.tsx`: the renaming of
    a converted image for download, and the status and result updates the page
    makes to the shared file store while a batch uploads and converts. */
module ImageConverter {
  import opened Common
  import opened Text
  import Api
  import Store
  import opened ProgressTracker

  /** The target formats offered, as the page lists them. */
  const Formats: seq<string> := ["PNG", "JPG", "JPEG", "WebP", "GIF", "BMP", "TIFF", "ICO"]

  /** No character after index `k` is a `.` or a `/`. */
  predicate NoDotOrSlashAfter(name: string, k: nat) {
    forall j :: k < j < |name| ==> name[j] != '.' && name[j] != '/'
  }

  /** Where `/\.[^/.]+$/` matches `name`: a `.` followed by at least one
      character, none of them a `.` or a `/`. Such a position is unique (the last
      `.`), and there is none when the result is None. */
  function FinalExtensionStart(name: string): (r: Option<nat>)
    ensures r.Some? ==> r.value < |name| - 1 && name[r.value] == '.' && NoDotOrSlashAfter(name, r.value)
    ensures r.None? ==> forall k :: 0 <= k < |name| - 1 && name[k] == '.' ==> !NoDotOrSlashAfter(name, k)
  {
    var last := LastIndexOf(name, '.');
    if 0 <= last < |name| - 1 && forall j :: last < j < |name| ==> name[j] != '/' then
      Some(last)
    else
      None
  }

  /** `name.replace(/\.[^/.]+$/, replacement)`. */
  function ReplaceFinalExtension(name: string, replacement: string): (r: string)
    ensures FinalExtensionStart(name).None? ==> r == name
    ensures FinalExtensionStart(name).Some? ==>
              r == name[..FinalExtensionStart(name).value] + replacement
  {
    match FinalExtensionStart(name)
    case None => name
    case Some(k) => name[..k] + replacement
  }

  /** The download name `handleDownload` gives a result: the original name with its
      final extension replaced by the lowercased target format. */
  function DownloadName(targetFormat: string, originalName: string): (r: string)
    ensures FinalExtensionStart(originalName).Some? ==>
              EndsWith(r, "." + ToLowerAscii(targetFormat))
              && originalName[..FinalExtensionStart(originalName).value] <= r
    ensures FinalExtensionStart(originalName).Some? ==>
              r == originalName[..FinalExtensionStart(originalName).value] + "." + ToLowerAscii(targetFormat)
    ensures FinalExtensionStart(originalName).None? ==> r == originalName
  {
    ReplaceFinalExtension(originalName, "." + ToLowerAscii(targetFormat))
  }

  /** A name with no `.` after its last `/`, or ending in `.`, is left as it is and
      gets no extension. */
  lemma UnchangedWithoutExtension(name: string, replacement: string)
    requires (forall j :: 0 <= j < |name| && name[j] == '.' ==> exists k :: j < k < |name| && name[k] == '/')
             || (|name| > 0 && name[|name| - 1] == '.')
    ensures ReplaceFinalExtension(name, replacement) == name
  {
  }

  /** An extension is a `.` and at least one further character, none of them `.` or `/`. */
  predicate IsExtension(e: string) {
    |e| >= 2 && e[0] == '.' && forall j :: 1 <= j < |e| ==> e[j] != '.' && e[j] != '/'
  }

  /** The new extension is itself what the pattern matches, so renaming twice is
      renaming once. */
  lemma {:induction false} ReplaceIdempotent(name: string, ext: string)
    requires IsExtension(ext)
    ensures ReplaceFinalExtension(ReplaceFinalExtension(name, ext), ext) == ReplaceFinalExtension(name, ext)
  {
    var once := ReplaceFinalExtension(name, ext);
    if FinalExtensionStart(name).Some? {
      var k := FinalExtensionStart(name).value;
      assert once == name[..k] + ext;
      assert once[k] == '.';
      forall j | k < j < |once| ensures once[j] != '.' && once[j] != '/' {
        assert once[j] == ext[j - k];
      }
      var m := LastIndexOf(once, '.');
      assert m == k;
      assert FinalExtensionStart(once) == Some(k);
      assert once[..k] == name[..k];
    }
  }

  /** A renamed file whose extension did not start the name keeps its new
      extension through `downloadFile`: `ensureExtension` leaves it alone. */
  lemma {:induction false} RenamedKeepsExtensionOnDownload(name: string, ext: string, sourceFilename: string)
    requires IsExtension(ext) && FinalExtensionStart(name).Some? && FinalExtensionStart(name).value > 0
    requires forall j :: 1 <= j < |ext| ==> ext[j] != '\\'
    ensures Api.EnsureExtension(ReplaceFinalExtension(name, ext), sourceFilename) == ReplaceFinalExtension(name, ext)
  {
    var k := FinalExtensionStart(name).value;
    var r := ReplaceFinalExtension(name, ext);
    assert r[k] == '.';
    forall j | k < j < |r| ensures !Api.IsPathSeparator(r[j]) {
      assert r[j] == ext[j - k];
    }
    assert Api.HasExtension(r);
  }

  /** `updateFileStatus(id, status, progress)` for each id of `ids` in turn, as the
      page's `files.forEach` calls make it. */
  function WithStatusForIds(items: seq<Store.FileItem>, ids: seq<string>, status: Store.FileStatus, progress: Option<int>): seq<Store.FileItem>
    decreases |ids|
  {
    if ids == [] then items
    else Store.WithStatus(WithStatusForIds(items, ids[..|ids| - 1], status, progress), ids[|ids| - 1], status, progress)
  }

  /** Updating a batch of ids updates exactly the items whose id is in the batch,
      each once, whatever the repetitions. */
  lemma {:induction false} WithStatusForIdsEffect(items: seq<Store.FileItem>, ids: seq<string>, status: Store.FileStatus, progress: Option<int>)
    ensures var r := WithStatusForIds(items, ids, status, progress);
            |r| == |items|
            && forall i :: 0 <= i < |items| ==>
                 r[i] == if items[i].id in ids then Store.Updated(items[i], status, progress) else items[i]
    decreases |ids|
  {
    if ids != [] {
      var front := ids[..|ids| - 1];
      WithStatusForIdsEffect(items, front, status, progress);
      var prev := WithStatusForIds(items, front, status, progress);
      forall i | 0 <= i < |items|
        ensures WithStatusForIds(items, ids, status, progress)[i]
             == if items[i].id in ids then Store.Updated(items[i], status, progress) else items[i]
      {
        assert ids == front + [ids[|ids| - 1]];
        assert items[i].id in ids <==> items[i].id in front || items[i].id == ids[|ids| - 1];
      }
    }
  }

  /** When the page's snapshot is the store's list, every item gets the update. */
  lemma WithStatusForAllIds(items: seq<Store.FileItem>, status: Store.FileStatus, progress: Option<int>)
    ensures var r := WithStatusForIds(items, Store.Ids(items), status, progress);
            |r| == |items| && forall i :: 0 <= i < |items| ==> r[i] == Store.Updated(items[i], status, progress)
  {
    WithStatusForIdsEffect(items, Store.Ids(items), status, progress);
    forall i | 0 <= i < |items| ensures items[i].id in Store.Ids(items) {
      assert Store.Ids(items)[i] == items[i].id;
    }
  }

  /** The first `n` steps of `files.forEach((f, i) => { if (convertedFiles[i])
      updateFileResult(f.id, convertedFiles[i]) })`. */
  function WithResultsForIds(items: seq<Store.FileItem>, ids: seq<string>, results: seq<Store.FileResult>, n: nat): seq<Store.FileItem>
    requires n <= |ids|
  {
    if n == 0 then items
    else
      var prev := WithResultsForIds(items, ids, results, n - 1);
      if n - 1 < |results| then Store.WithResult(prev, ids[n - 1], Some(results[n - 1])) else prev
  }

  predicate DistinctIds(items: seq<Store.FileItem>) {
    forall i, j :: 0 <= i < j < |items| ==> items[i].id != items[j].id
  }

  /** With distinct ids, updating the result of item `m`'s id touches item `m` only. */
  lemma ResultOnlyAt(prev: seq<Store.FileItem>, items: seq<Store.FileItem>, m: nat, result: Option<Store.FileResult>)
    requires |prev| == |items| && DistinctIds(items) && m < |items|
    requires forall i :: 0 <= i < |items| ==> prev[i].id == items[i].id
    ensures var r := Store.WithResult(prev, items[m].id, result);
            forall i :: 0 <= i < |items| ==> r[i] == if i == m then Store.WithResultOn(prev[i], result) else prev[i]
  {
    forall i | 0 <= i < |items| && i != m ensures prev[i].id != items[m].id {
      if i < m { assert items[i].id != items[m].id; } else { assert items[m].id != items[i].id; }
    }
  }

  /** Result `i` attached to file `i` for the first `n` files, the rest untouched. */
  predicate AttachedUpTo(r: seq<Store.FileItem>, items: seq<Store.FileItem>, results: seq<Store.FileResult>, n: nat) {
    |r| == |items|
    && forall i :: 0 <= i < |items| ==>
         r[i] == if i < n && i < |results| then Store.WithResultOn(items[i], Some(results[i])) else items[i]
  }

  /** One step of the result loop keeps `AttachedUpTo`. */
  lemma AttachStep(prev: seq<Store.FileItem>, items: seq<Store.FileItem>, results: seq<Store.FileResult>, n: nat)
    requires DistinctIds(items) && 0 < n <= |items| && AttachedUpTo(prev, items, results, n - 1)
    ensures AttachedUpTo(if n - 1 < |results| then Store.WithResult(prev, items[n - 1].id, Some(results[n - 1])) else prev,
                         items, results, n)
  {
    if n - 1 < |results| {
      ResultOnlyAt(prev, items, n - 1, Some(results[n - 1]));
    }
  }

  /** With distinct ids and the snapshot equal to the store's list, result `i` goes to
      file `i` only, and files beyond the results keep their item as it was. */
  lemma {:induction false} ResultsGoToTheirFiles(items: seq<Store.FileItem>, results: seq<Store.FileResult>, n: nat)
    requires DistinctIds(items) && n <= |items|
    ensures AttachedUpTo(WithResultsForIds(items, Store.Ids(items), results, n), items, results, n)
  {
    if n > 0 {
      ResultsGoToTheirFiles(items, results, n - 1);
      ResultsStep(items, results, n);
    }
  }

  /** The `n`-th iteration of the result loop, stated over the fold. */
  lemma ResultsStep(items: seq<Store.FileItem>, results: seq<Store.FileResult>, n: nat)
    requires DistinctIds(items) && 0 < n <= |items|
    requires AttachedUpTo(WithResultsForIds(items, Store.Ids(items), results, n - 1), items, results, n - 1)
    ensures AttachedUpTo(WithResultsForIds(items, Store.Ids(items), results, n), items, results, n)
  {
    var ids := Store.Ids(items);
    assert ids[n - 1] == items[n - 1].id;
    AttachStep(WithResultsForIds(items, ids, results, n - 1), items, results, n);
  }

  /** `response.data` of the image conversion. */
  datatype ImageResponse = ImageResponse(success: bool, files: seq<Store.FileResult>)

  /** The page's state, the shared file store, and the list of files `handleConvert`
      captured when it started (its loops run over that list, while the updates go
      to the store's current list). */
  class ConverterPage {
    /** Index in `Formats` of the selected target format. */
    var format: nat
    var isProcessing: bool
    var results: seq<Store.FileResult>
    var stage: Stage
    var percent: int
    var message: string
    var batch: seq<Store.FileItem>
    /** The target format `handleConvert` captured when it started, which its
        progress callback reports. */
    var batchFormat: string
    const store: Store.FileStore

    ghost predicate Valid()
      reads this
    {
      format < |Formats|
    }

    function TargetFormat(): (f: string)
      reads this
      requires Valid()
      ensures f in Formats
    {
      Formats[format]
    }

    constructor (store: Store.FileStore)
      ensures Valid() && this.store == store && TargetFormat() == "PNG"
      ensures !isProcessing && results == [] && stage == Idle && percent == 0 && message == "" && batch == []
      ensures batchFormat == ""
    {
      this.store := store;
      format := 0;
      isProcessing := false;
      results := [];
      stage := Idle;
      percent := 0;
      message := "";
      batch := [];
      batchFormat := "";
    }

    method ChooseFormat(i: nat)
      requires i < |Formats|
      modifies this
      ensures Valid() && format == i
      ensures isProcessing == old(isProcessing) && results == old(results) && stage == old(stage)
      ensures percent == old(percent) && message == old(message) && batch == old(batch)
      ensures batchFormat == old(batchFormat)
    {
      format := i;
    }

    /** `handleConvert` up to the request: with no files nothing happens; otherwise
        every file is marked `uploading` at 0% and the batch is sent with the
        lowercased target format. */
    method BeginConvert() returns (request: Option<seq<Api.FormEntry>>)
      requires Valid()
      modifies this, store
      ensures Valid() && format == old(format)
      ensures request.None? <==> old(store.files) == []
      ensures request.None? ==>
                store.files == old(store.files) && batch == old(batch) && isProcessing == old(isProcessing)
                && results == old(results) && stage == old(stage) && percent == old(percent) && message == old(message)
                && batchFormat == old(batchFormat)
      ensures request.Some? ==>
                batch == old(store.files) && batchFormat == TargetFormat()
                && store.files == WithStatusForIds(batch, Store.Ids(batch), Store.Uploading, Some(0))
                && request.value == Api.FormEntries(Store.Uploads(batch), Some([("target_format", ToLowerAscii(TargetFormat()))]))
                && isProcessing && results == [] && stage == Uploading && percent == 0
                && message == "Uploading " + NatToString(|batch|) + " file(s)..."
    {
      if |store.files| == 0 {
        request := None;
        return;
      }
      StartBatch();
      MarkAll(Store.Uploading, Some(0));
      var form := Api.CreateFormData(Store.Uploads(batch), Some([("target_format", ToLowerAscii(batchFormat))]));
      request := Some(form);
    }

    /** The state updates `handleConvert` makes before marking the files: the batch
        and the target format are captured, and the page enters `uploading`. */
    method StartBatch()
      requires Valid()
      modifies this
      ensures Valid() && format == old(format)
      ensures batch == store.files && batchFormat == TargetFormat()
      ensures isProcessing && results == [] && stage == Uploading && percent == 0
      ensures message == "Uploading " + NatToString(|batch|) + " file(s)..."
    {
      batch := store.files;
      batchFormat := TargetFormat();
      isProcessing := true;
      results := [];
      stage := Uploading;
      percent := 0;
      message := "Uploading " + NatToString(|batch|) + " file(s)...";
    }

    /** `files.forEach((f) => updateFileStatus(f.id, status, progress))` over the batch. */
    method MarkAll(status: Store.FileStatus, progress: Option<int>)
      modifies store
      ensures store.files == WithStatusForIds(old(store.files), Store.Ids(batch), status, progress)
    {
      var ids := Store.Ids(batch);
      var i := 0;
      while i < |batch|
        invariant 0 <= i <= |batch|
        invariant store.files == WithStatusForIds(old(store.files), ids[..i], status, progress)
      {
        assert ids[..i + 1][..i] == ids[..i];
        store.UpdateFileStatus(batch[i].id, status, progress);
        i := i + 1;
      }
      assert ids[..i] == ids;
    }

    /** An upload-progress report: every file of the batch is marked `uploading`
        at that percent, and at 100 or more the page switches to `processing` at 0%. */
    method OnUploadProgress(loaded: nat, total: Option<nat>)
      requires Valid()
      modifies this, store
      ensures Valid() && format == old(format) && batch == old(batch) && results == old(results)
      ensures isProcessing == old(isProcessing) && batchFormat == old(batchFormat)
      ensures Api.UploadPercent(loaded, total).None? ==>
                store.files == old(store.files) && stage == old(stage) && percent == old(percent) && message == old(message)
      ensures Api.UploadPercent(loaded, total).Some? ==>
                store.files == WithStatusForIds(old(store.files), Store.Ids(batch), Store.Uploading, Api.UploadPercent(loaded, total))
      ensures Api.UploadPercent(loaded, total).Some? && Api.UploadPercent(loaded, total).value < 100 ==>
                stage == old(stage) && percent == Api.UploadPercent(loaded, total).value && message == old(message)
      ensures Api.UploadPercent(loaded, total).Some? && Api.UploadPercent(loaded, total).value >= 100 ==>
                stage == Processing && percent == 0 && message == "Converting to " + batchFormat + "..."
    {
      var progress := Api.UploadPercent(loaded, total);
      if progress.Some? {
        percent := progress.value;
        MarkAll(Store.Uploading, progress);
        if progress.value >= 100 {
          stage := Processing;
          percent := 0;
          message := "Converting to " + batchFormat + "...";
        }
      }
    }

    /** `handleConvert` once the request settles, with the `finally`. A failure marks
        every file of the batch `error` (keeping its progress); a response with
        `success` false changes nothing but `isProcessing`. */
    method FinishConvert(response: Result<ImageResponse>)
      requires Valid()
      modifies this, store
      ensures Valid() && format == old(format) && batch == old(batch) && percent == old(percent) && !isProcessing
      ensures batchFormat == old(batchFormat)
      ensures response.Failure? ==>
                stage == Failed && message == response.error && results == old(results)
                && store.files == WithStatusForIds(old(store.files), Store.Ids(batch), Store.Error, None)
      ensures response.Success? && response.value.success ==>
                results == response.value.files && stage == Completed
                && message == NatToString(|response.value.files|) + " file(s) ready for download"
                && store.files == WithResultsForIds(old(store.files), Store.Ids(batch), response.value.files, |batch|)
      ensures response.Success? && !response.value.success ==>
                store.files == old(store.files) && stage == old(stage) && message == old(message) && results == old(results)
    {
      match response {
        case Failure(error) =>
          stage := Failed;
          message := error;
          MarkAll(Store.Error, None);
        case Success(resp) =>
          if resp.success {
            results := resp.files;
            stage := Completed;
            message := NatToString(|resp.files|) + " file(s) ready for download";
            AttachResults(resp.files);
          }
      }
      isProcessing := false;
    }

    /** `files.forEach((f, i) => { if (convertedFiles[i]) updateFileResult(f.id, convertedFiles[i]) })`. */
    method AttachResults(converted: seq<Store.FileResult>)
      modifies store
      ensures store.files == WithResultsForIds(old(store.files), Store.Ids(batch), converted, |batch|)
    {
      var ids := Store.Ids(batch);
      var i := 0;
      while i < |batch|
        invariant 0 <= i <= |batch|
        invariant store.files == WithResultsForIds(old(store.files), ids, converted, i)
      {
        if i < |converted| {
          store.UpdateFileResult(batch[i].id, Some(converted[i]));
        }
        i := i + 1;
      }
    }

    /** `handleDownload`'s renaming step (the download itself is `Api.DownloadFile`). */
    function DownloadNameFor(originalName: string): (r: string)
      reads this
      requires Valid()
      ensures r == DownloadName(TargetFormat(), originalName)
    {
      ReplaceFinalExtension(originalName, "." + ToLowerAscii(Formats[format]))
    }
  }

  /** The progress message names the format `handleConvert` started with, even when
      another one is chosen while the upload runs. */
  method ProgressNamesStartedFormat(page: ConverterPage)
    requires page.Valid() && page.format == 0 && page.store.files != []
    modifies page, page.store
    ensures page.Valid() && page.message == "Converting to PNG..." && page.TargetFormat() == "JPG"
  {
    var request := page.BeginConvert();
    assert page.batchFormat == "PNG";
    page.ChooseFormat(1);
    assert page.batchFormat == "PNG";
    assert Api.UploadPercent(100, Some(100)) == Some(100);
    page.OnUploadProgress(100, Some(100));
  }
}
