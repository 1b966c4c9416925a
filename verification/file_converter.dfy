/** The document converter page, `src/app/files/converter/page.tsx`: the table of
    conversions, the accepted upload types per source type, the flattening of the
    heterogeneous conversion response into a download list, and the stage the
    page shows while uploading, converting and afterwards. */
module FileConverter {
  import opened Common
  import opened Text
  import Api
  import Store
  import opened ProgressTracker

  /** One entry of the `conversions` table. */
  datatype Conversion = Conversion(from: string, to: string, value: string, sourceType: string, targetFormat: string)

  const Conversions: seq<Conversion> := [
    Conversion("PDF", "PNG", "pdf-to-png", "pdf", "png"),
    Conversion("PDF", "JPG", "pdf-to-jpg", "pdf", "jpg"),
    Conversion("PNG", "PDF", "png-to-pdf", "png", "pdf"),
    Conversion("JPG", "PDF", "jpg-to-pdf", "jpg", "pdf"),
    Conversion("DOCX", "TXT", "docx-to-txt", "docx", "txt"),
    Conversion("DOCX", "PDF", "docx-to-pdf", "docx", "pdf"),
    Conversion("TXT", "DOCX", "txt-to-docx", "txt", "docx")
  ]

  /** The conversion the page starts with. */
  const DefaultConversion := "pdf-to-png"

  /** `conversions.find(c => c.value === value)`. */
  function FindConversion(value: string): (r: Option<Conversion>)
    ensures r.Some? ==> r.value in Conversions && r.value.value == value
    ensures r.Some? ==> exists i :: 0 <= i < |Conversions| && Conversions[i] == r.value
                                   && forall j :: 0 <= j < i ==> Conversions[j].value != value
    ensures r.None? <==> forall i :: 0 <= i < |Conversions| ==> Conversions[i].value != value
  {
    FirstWithValue(Conversions, value)
  }

  function FirstWithValue(cs: seq<Conversion>, value: string): (r: Option<Conversion>)
    ensures r.Some? ==> r.value in cs && r.value.value == value
    ensures r.Some? ==> exists i :: 0 <= i < |cs| && cs[i] == r.value
                                   && forall j :: 0 <= j < i ==> cs[j].value != value
    ensures r.None? <==> forall i :: 0 <= i < |cs| ==> cs[i].value != value
  {
    if cs == [] then None
    else if cs[0].value == value then Some(cs[0])
    else
      var r := FirstWithValue(cs[1..], value);
      assert r.Some? ==> exists i :: 0 <= i < |cs| && cs[i] == r.value
                                   && forall j :: 0 <= j < i ==> cs[j].value != value by {
        if r.Some? {
          var k :| 0 <= k < |cs[1..]| && cs[1..][k] == r.value && forall j :: 0 <= j < k ==> cs[1..][j].value != value;
          assert cs[k + 1] == r.value;
          assert forall j :: 0 <= j < k + 1 ==> cs[j].value != value by {
            forall j | 0 <= j < k + 1 ensures cs[j].value != value {
              if j > 0 { assert cs[j] == cs[1..][j - 1]; }
            }
          }
        }
      }
      r
  }

  /** The conversion values are distinct, so `find` picks the one entry with that value. */
  lemma ConversionValuesDistinct()
    ensures forall i, j :: 0 <= i < j < |Conversions| ==> Conversions[i].value != Conversions[j].value
    ensures FindConversion(DefaultConversion).Some?
  {
  }

  /** `getAcceptTypes`: the MIME types and extensions the drop zone accepts, as the
      entries of the `Accept` object. */
  function AcceptTypes(sourceType: string): (r: seq<(string, seq<string>)>)
    ensures r == [] <==> sourceType !in SourceTypes
    ensures |r| <= 1
  {
    match sourceType
    case "pdf" => [("application/pdf", [".pdf"])]
    case "docx" => [("application/vnd.openxmlformats-officedocument.wordprocessingml.document", [".docx"])]
    case "txt" => [("text/plain", [".txt"])]
    case "png" => [("image/png", [".png"])]
    case "jpg" => [("image/jpeg", [".jpg", ".jpeg"])]
    case _ => []
  }

  /** The source types `getAcceptTypes` knows. */
  const SourceTypes: set<string> := {"pdf", "docx", "txt", "png", "jpg"}

  /** Every conversion in the table has an accept list. */
  lemma {:induction false} EveryConversionAcceptsUploads(i: nat)
    requires i < |Conversions|
    ensures Conversions[i].sourceType in SourceTypes
    ensures AcceptTypes(Conversions[i].sourceType) != []
  {
  }

  /** For each known source type, the drop zone accepts files named with that type
      as extension, under a MIME type the download code maps back to an extension
      the drop zone accepts. */
  lemma {:induction false} AcceptTypesAgreeWithDownloadTable(sourceType: string)
    requires sourceType in SourceTypes
    ensures var r := AcceptTypes(sourceType);
            |r| == 1 && "." + sourceType in r[0].1
            && r[0].0 in Api.MimeToExt && Api.MimeToExt[r[0].0] in r[0].1
  {
    var r := AcceptTypes(sourceType);
    if sourceType == "pdf" {
      assert "." + sourceType == ".pdf";
      assert Api.MimeToExt["application/pdf"] == ".pdf";
    } else if sourceType == "docx" {
      assert "." + sourceType == ".docx";
      assert Api.MimeToExt["application/vnd.openxmlformats-officedocument.wordprocessingml.document"] == ".docx";
    } else if sourceType == "txt" {
      assert "." + sourceType == ".txt";
      assert Api.MimeToExt["text/plain"] == ".txt";
    } else if sourceType == "png" {
      assert "." + sourceType == ".png";
      assert Api.MimeToExt["image/png"] == ".png";
    } else {
      assert "." + sourceType == ".jpg";
      assert Api.MimeToExt["image/jpeg"] == ".jpg";
    }
  }

  /** A page image in a PDF-to-image result. */
  datatype PageFile = PageFile(filename: string, page: Option<int>)

  /** An element of `response.data.files`. `files` is present exactly when the
      element holds an array under that key. */
  datatype ResultItem = ResultItem(
    files: Option<seq<PageFile>>,
    filename: Option<string>,
    original: Option<string>,
    error: Option<string>)

  /** `response.data.file`: a bare name or a record. */
  datatype SingleFile = FileName(name: string) | FileObject(filename: string, original: Option<string>)

  /** `response.data`. `files` is present exactly when it is an array. */
  datatype ConvertResponse = ConvertResponse(success: bool, files: Option<seq<ResultItem>>, file: Option<SingleFile>)

  /** A `ConversionResult`: a file to offer for download and its label. */
  datatype Entry = Entry(filename: string, original: string)

  /** `a || b` over optional strings. */
  function OrElse(a: Option<string>, b: string): (r: string)
    ensures Truthy(a) ==> r == a.value
    ensures !Truthy(a) ==> r == b
  {
    if Truthy(a) then a.value else b
  }

  /** The entry for a page image, pushed when the list already holds `before` entries. */
  function PageEntry(original: Option<string>, p: PageFile, before: nat): (e: Entry)
    ensures e.filename == p.filename
    ensures p.page.Some? && p.page.value != 0 ==>
              e.original == OrElse(original, "PDF") + " - Page " + IntToString(p.page.value)
    ensures !(p.page.Some? && p.page.value != 0) ==>
              e.original == OrElse(original, "PDF") + " - Page " + NatToString(before + 1)
  {
    var number := if p.page.Some? && p.page.value != 0 then IntToString(p.page.value) else NatToString(before + 1);
    Entry(p.filename, OrElse(original, "PDF") + " - Page " + number)
  }

  /** The entries for the pages of one nested array, the first pushed after `before` others. */
  function PageEntries(original: Option<string>, pages: seq<PageFile>, before: nat): (r: seq<Entry>)
    ensures |r| == |pages|
    ensures forall k :: 0 <= k < |pages| ==> r[k] == PageEntry(original, pages[k], before + k)
  {
    seq(|pages|, k requires 0 <= k < |pages| => PageEntry(original, pages[k], before + k))
  }

  lemma PageEntriesSnoc(original: Option<string>, pages: seq<PageFile>, before: nat, j: nat)
    requires j < |pages|
    ensures PageEntries(original, pages[..j + 1], before)
         == PageEntries(original, pages[..j], before) + [PageEntry(original, pages[j], before + j)]
  {
    var longer, shorter := pages[..j + 1], pages[..j];
    var a := PageEntries(original, longer, before);
    var front := PageEntries(original, shorter, before);
    var b := front + [PageEntry(original, pages[j], before + j)];
    assert |a| == |b|;
    forall k | 0 <= k < |a| ensures a[k] == b[k] {
      assert longer[k] == pages[k];
      if k < j {
        assert shorter[k] == pages[k];
        assert b[k] == front[k];
      } else {
        assert b[k] == PageEntry(original, pages[j], before + j);
      }
    }
  }

  /** The entries one element of `files` contributes. A nested array is taken
      first, whatever else the element holds; then a truthy `filename`; an element
      with only an `error` contributes nothing. */
  function ItemEntries(item: ResultItem, before: nat): (r: seq<Entry>)
    ensures item.files.Some? ==> r == PageEntries(item.original, item.files.value, before)
    ensures item.files.None? && Truthy(item.filename) ==>
              r == [Entry(item.filename.value, OrElse(item.original, item.filename.value))]
    ensures item.files.None? && !Truthy(item.filename) ==> r == []
  {
    if item.files.Some? then PageEntries(item.original, item.files.value, before)
    else if Truthy(item.filename) then [Entry(item.filename.value, OrElse(item.original, item.filename.value))]
    else []
  }

  /** The list the `forEach` over `files` builds: each element's entries are pushed
      after those of the elements before it. */
  function FromItems(items: seq<ResultItem>): seq<Entry> {
    if items == [] then []
    else
      var earlier := FromItems(items[..|items| - 1]);
      earlier + ItemEntries(items[|items| - 1], |earlier|)
  }

  /** The entry for a single `file` result. */
  function SingleEntry(file: SingleFile): Entry {
    match file
    case FileName(name) => Entry(name, "Converted file")
    case FileObject(filename, original) => Entry(filename, OrElse(original, OrElse(Some(filename), "Converted file")))
  }

  /** `response.data.file` is truthy: a non-empty name, or any record. */
  predicate SingleTruthy(file: Option<SingleFile>) {
    file.Some? && (file.value.FileName? ==> file.value.name != "")
  }

  /** `normalizedResults`. */
  function Normalized(resp: ConvertResponse): (r: seq<Entry>)
    ensures resp.files.Some? ==> r == FromItems(resp.files.value)
    ensures resp.files.None? && SingleTruthy(resp.file) ==> r == [SingleEntry(resp.file.value)]
    ensures resp.files.None? && !SingleTruthy(resp.file) ==> r == []
  {
    if resp.files.Some? then FromItems(resp.files.value)
    else if SingleTruthy(resp.file) then [SingleEntry(resp.file.value)]
    else []
  }

  /** The normalisation loop of `handleConvert`: a `forEach` over the elements,
      pushing each element's entries as it goes. */
  method NormalizeResults(resp: ConvertResponse) returns (results: seq<Entry>)
    ensures results == Normalized(resp)
  {
    results := [];
    if resp.files.Some? {
      var items := resp.files.value;
      var i := 0;
      while i < |items|
        invariant 0 <= i <= |items|
        invariant results == FromItems(items[..i])
      {
        ghost var done := items[..i];
        assert items[..i + 1] == done + [items[i]];
        NormalizedAppend(done, items[i]);
        results := PushItem(results, items[i]);
        assert results == FromItems(done + [items[i]]);
        i := i + 1;
      }
      assert items[..i] == items;
    } else if SingleTruthy(resp.file) {
      results := [SingleEntry(resp.file.value)];
    }
  }

  /** The body of the `forEach`: for a nested array, an inner `forEach` over its
      pages; otherwise at most one push. */
  method PushItem(results: seq<Entry>, item: ResultItem) returns (pushed: seq<Entry>)
    ensures pushed == results + ItemEntries(item, |results|)
  {
    pushed := results;
    if item.files.Some? {
      var pages := item.files.value;
      var j := 0;
      while j < |pages|
        invariant 0 <= j <= |pages|
        invariant pushed == results + PageEntries(item.original, pages[..j], |results|)
        invariant |pushed| == |results| + j
      {
        PageEntriesSnoc(item.original, pages, |results|, j);
        pushed := pushed + [PageEntry(item.original, pages[j], |pushed|)];
        j := j + 1;
      }
      assert pages[..j] == pages;
    } else if Truthy(item.filename) {
      pushed := pushed + [Entry(item.filename.value, OrElse(item.original, item.filename.value))];
    }
  }

  /** How many entries an element contributes. */
  function ItemCount(item: ResultItem): nat {
    if item.files.Some? then |item.files.value| else if Truthy(item.filename) then 1 else 0
  }

  function TotalCount(items: seq<ResultItem>): nat {
    if items == [] then 0 else TotalCount(items[..|items| - 1]) + ItemCount(items[|items| - 1])
  }

  /** One entry per page of every nested array and per named element, none for the rest. */
  lemma {:induction false} NormalizedCount(items: seq<ResultItem>)
    ensures |FromItems(items)| == TotalCount(items)
  {
    if items != [] {
      NormalizedCount(items[..|items| - 1]);
    }
  }

  /** Later elements only append: the entries of a prefix of the response stay, in
      order, at the front of the list. */
  lemma {:induction false} NormalizedPrefix(a: seq<ResultItem>, b: seq<ResultItem>)
    ensures FromItems(a) <= FromItems(a + b)
    decreases |b|
  {
    if b == [] {
      assert a + b == a;
    } else {
      var b' := b[..|b| - 1];
      assert a + b == (a + b') + [b[|b| - 1]];
      NormalizedAppend(a + b', b[|b| - 1]);
      NormalizedPrefix(a, b');
    }
  }

  /** The entries of the elements that come first are exactly their own normalisation. */
  lemma {:induction false} NormalizedAppend(a: seq<ResultItem>, item: ResultItem)
    ensures FromItems(a + [item]) == FromItems(a) + ItemEntries(item, |FromItems(a)|)
  {
    assert (a + [item])[..|a|] == a;
  }

  /** An element with no nested array and no name (an error report) adds nothing. */
  lemma ErrorItemsAddNothing(a: seq<ResultItem>, item: ResultItem)
    requires item.files.None? && !Truthy(item.filename)
    ensures FromItems(a + [item]) == FromItems(a)
  {
    NormalizedAppend(a, item);
  }

  /** Every entry the elements produce names a file that one of them reported, as
      a page image or as its own `filename`. */
  lemma {:induction false} NormalizedFilesReported(items: seq<ResultItem>, k: nat)
    requires k < |FromItems(items)|
    ensures exists i :: 0 <= i < |items| && Reports(items[i], FromItems(items)[k].filename)
  {
    var n := |items|;
    var earlier := FromItems(items[..n - 1]);
    if k < |earlier| {
      NormalizedFilesReported(items[..n - 1], k);
      var i :| 0 <= i < n - 1 && Reports(items[..n - 1][i], earlier[k].filename);
      assert items[i] == items[..n - 1][i];
    } else {
      var item := items[n - 1];
      assert Reports(item, FromItems(items)[k].filename);
    }
  }

  /** `item` reports `name` as one of its page images, or (with no page array) as its filename. */
  predicate Reports(item: ResultItem, name: string) {
    if item.files.Some? then exists p :: p in item.files.value && p.filename == name
    else Truthy(item.filename) && item.filename.value == name
  }

  /** A PDF response with no explicit page numbers labels its pages 1, 2, 3, … */
  lemma PagesNumberedByPosition()
    ensures FromItems([ResultItem(Some([PageFile("a.png", None), PageFile("b.png", Some(0))]), None, Some("doc.pdf"), None)])
         == [Entry("a.png", "doc.pdf - Page 1"), Entry("b.png", "doc.pdf - Page 2")]
  {
    var pages := [PageFile("a.png", None), PageFile("b.png", Some(0))];
    var item := ResultItem(Some(pages), None, Some("doc.pdf"), None);
    assert [item][..0] == [];
    assert FromItems([item]) == ItemEntries(item, 0);
    assert FromItems([item]) == PageEntries(Some("doc.pdf"), pages, 0);
    PageLabelledByPosition("a.png", None, 0, "doc.pdf - Page 1");
    PageLabelledByPosition("b.png", Some(0), 1, "doc.pdf - Page 2");
  }

  /** One page of `doc.pdf` with no truthy page number, labelled by its position: the
      per-page step of `PagesNumberedByPosition`, kept apart so that proof stays small. */
  lemma PageLabelledByPosition(f: string, page: Option<int>, before: nat, shown: string)
    requires page.None? || page == Some(0)
    requires before <= 1 && shown == (if before == 0 then "doc.pdf - Page 1" else "doc.pdf - Page 2")
    ensures PageEntry(Some("doc.pdf"), PageFile(f, page), before) == Entry(f, shown)
  {
    assert OrElse(Some("doc.pdf"), "PDF") == "doc.pdf";
    assert NatToString(1) == "1" && NatToString(2) == "2";
    assert "doc.pdf" + " - Page " + "1" == "doc.pdf - Page 1";
    assert "doc.pdf" + " - Page " + "2" == "doc.pdf - Page 2";
  }

  /** What `handleConvert` does once `fileApi.convert` settles: the stage, the
      message, and the list shown (None when the list is left as it was). */
  datatype Outcome = Outcome(stage: Stage, message: string, results: Option<seq<Entry>>)

  function ConvertOutcome(response: Result<ConvertResponse>): (o: Outcome)
    ensures o.stage == Completed <==> response.Success? && response.value.success && Normalized(response.value) != []
    ensures o.stage == Completed ==> o.results == Some(Normalized(response.value))
    ensures o.stage != Completed ==> o.stage == Failed && o.results == None
    ensures response.Failure? ==> o.message == response.error
    ensures response.Success? && !response.value.success ==> o.message == "Conversion failed"
    ensures response.Success? && response.value.success && Normalized(response.value) == [] ==>
              o.message == "No files were converted"
    ensures o.stage == Completed ==>
              o.message == NatToString(|Normalized(response.value)|) + " file(s) ready for download"
  {
    match response
    case Failure(error) => Outcome(Failed, error, None)
    case Success(resp) =>
      if !resp.success then Outcome(Failed, "Conversion failed", None)
      else
        var normalized := Normalized(resp);
        if |normalized| > 0 then Outcome(Completed, NatToString(|normalized|) + " file(s) ready for download", Some(normalized))
        else Outcome(Failed, "No files were converted", None)
  }

  /** The page's state, with the shared file store it reads the uploads from. */
  class ConverterPage {
    /** Index in `Conversions` of the selected conversion (the page keeps its
        `value`; the values are distinct, so the two determine each other). */
    var conversion: nat
    var isProcessing: bool
    var results: seq<Entry>
    var stage: Stage
    var percent: int
    var message: string
    /** The `to` label of the conversion the running `handleConvert` started with:
        its progress callback reads the selection captured by its closure. */
    var convertingTo: string
    const store: Store.FileStore

    ghost predicate Valid()
      reads this
    {
      conversion < |Conversions|
    }

    function Selected(): (c: Conversion)
      reads this
      requires Valid()
      ensures c in Conversions
    {
      Conversions[conversion]
    }

    constructor (store: Store.FileStore)
      ensures Valid() && this.store == store
      ensures Selected().value == DefaultConversion && !isProcessing && results == [] && stage == Idle
      ensures percent == 0 && message == "" && convertingTo == ""
    {
      this.store := store;
      convertingTo := "";
      conversion := 0;
      isProcessing := false;
      results := [];
      stage := Idle;
      percent := 0;
      message := "";
    }

    /** Choosing a conversion clears the store and the results and returns to `idle`. */
    method ChooseConversion(value: nat)
      requires value < |Conversions|
      modifies this, store
      ensures Valid() && conversion == value && store.files == [] && results == [] && stage == Idle
      ensures isProcessing == old(isProcessing) && percent == old(percent) && message == old(message)
      ensures convertingTo == old(convertingTo)
    {
      conversion := value;
      store.ClearFiles();
      results := [];
      stage := Idle;
    }

    /** `handleConvert` up to the request: with no files nothing happens and no
        request is made; otherwise the page enters `uploading` and sends the
        uploads with the selected target format. */
    method BeginConvert() returns (request: Option<seq<Api.FormEntry>>)
      requires Valid()
      modifies this
      ensures Valid() && conversion == old(conversion)
      ensures request.None? <==> store.files == []
      ensures request.None? ==>
                isProcessing == old(isProcessing) && results == old(results) && stage == old(stage)
                && percent == old(percent) && message == old(message) && convertingTo == old(convertingTo)
      ensures request.Some? ==>
                request.value == Api.FormEntries(Store.Uploads(store.files), Some([("target_format", Selected().targetFormat)]))
                && convertingTo == Selected().to
                && isProcessing && results == [] && stage == Uploading && percent == 0
                && message == "Uploading " + NatToString(|store.files|) + " file(s)..."
    {
      if |store.files| == 0 {
        request := None;
        return;
      }
      isProcessing := true;
      results := [];
      stage := Uploading;
      percent := 0;
      message := "Uploading " + NatToString(|store.files|) + " file(s)...";
      convertingTo := Selected().to;
      var form := Api.CreateFormData(Store.Uploads(store.files), Some([("target_format", Selected().targetFormat)]));
      request := Some(form);
    }

    /** An axios upload-progress event: the percent is reported only when the total
        is known, and a report of 100 or more switches to `processing` at 0%. */
    method OnUploadProgress(loaded: nat, total: Option<nat>)
      requires Valid()
      modifies this
      ensures Valid() && conversion == old(conversion) && results == old(results) && isProcessing == old(isProcessing)
      ensures convertingTo == old(convertingTo)
      ensures Api.UploadPercent(loaded, total).None? ==>
                stage == old(stage) && percent == old(percent) && message == old(message)
      ensures Api.UploadPercent(loaded, total).Some? && Api.UploadPercent(loaded, total).value < 100 ==>
                stage == old(stage) && percent == Api.UploadPercent(loaded, total).value && message == old(message)
      ensures Api.UploadPercent(loaded, total).Some? && Api.UploadPercent(loaded, total).value >= 100 ==>
                stage == Processing && percent == 0 && message == "Converting to " + convertingTo + "..."
      ensures total.Some? && total.value > 0 && loaded == total.value ==> stage == Processing && percent == 0
    {
      var progress := Api.UploadPercent(loaded, total);
      if progress.Some? {
        percent := progress.value;
        if progress.value >= 100 {
          stage := Processing;
          percent := 0;
          message := "Converting to " + convertingTo + "...";
        }
      }
    }

    /** `handleConvert` once the request settles (`Failure` for a thrown error,
        with its message), including the `finally`. */
    method FinishConvert(response: Result<ConvertResponse>)
      requires Valid()
      modifies this
      ensures Valid() && conversion == old(conversion) && percent == old(percent) && !isProcessing
      ensures convertingTo == old(convertingTo)
      ensures stage == ConvertOutcome(response).stage && message == ConvertOutcome(response).message
      ensures results == ConvertOutcome(response).results.GetOr(old(results))
      ensures stage == Completed <==> response.Success? && response.value.success && Normalized(response.value) != []
    {
      match response {
        case Failure(error) =>
          stage := Failed;
          message := error;
        case Success(resp) =>
          if !resp.success {
            stage := Failed;
            message := "Conversion failed";
          } else {
            var normalized := NormalizeResults(resp);
            if |normalized| > 0 {
              results := normalized;
              stage := Completed;
              message := NatToString(|normalized|) + " file(s) ready for download";
            } else {
              stage := Failed;
              message := "No files were converted";
            }
          }
      }
      isProcessing := false;
    }

    /** "Convert More": back to an empty store and the `idle` stage. */
    method ConvertMore()
      requires Valid()
      modifies this, store
      ensures Valid() && store.files == [] && results == [] && stage == Idle
      ensures conversion == old(conversion) && isProcessing == old(isProcessing) && percent == old(percent) && message == old(message)
      ensures convertingTo == old(convertingTo)
    {
      store.ClearFiles();
      results := [];
      stage := Idle;
    }
  }

  /** The progress message names the conversion `handleConvert` started with, even
      when another one is chosen while the upload runs. */
  method ProgressNamesStartedConversion(page: ConverterPage)
    requires page.Valid() && page.conversion == 0 && page.store.files != []
    modifies page, page.store
    ensures page.Valid() && page.message == "Converting to PNG..." && page.Selected().to == "PDF"
  {
    var request := page.BeginConvert();
    page.ChooseConversion(5);
    page.OnUploadProgress(100, Some(100));
  }
}
