/** The client-side logic of `src/lib/api.ts`: the multipart form built for an
    upload, the upload percentage, the resolution of a download's file name
    (Content-Disposition, extension borrowing, MIME fallback), and the dispatch of
    server-sent progress messages to the caller's callbacks. */
module Api {
  import opened Common
  import opened Text

  // ---------------------------------------------------------------- uploads

  /** A browser `File` as the upload code sees it. */
  datatype File = File(name: string, size: nat, mimeType: string)

  /** One part of a multipart form: a file part or a string part. */
  datatype FormEntry = FileField(key: string, file: File) | TextField(key: string, value: string)

  /** The parts `createFormData` appends, in order: a `files` part per file, then
      one string part per entry of `additionalData` (as `Object.entries` lists them). */
  function FormEntries(files: seq<File>, additionalData: Option<seq<(string, string)>>): seq<FormEntry> {
    var extra := additionalData.GetOr([]);
    seq(|files|, i requires 0 <= i < |files| => FileField("files", files[i]))
    + seq(|extra|, j requires 0 <= j < |extra| => TextField(extra[j].0, extra[j].1))
  }

  /** `createFormData`: appends to the form builder inside two `forEach` loops. */
  method CreateFormData(files: seq<File>, additionalData: Option<seq<(string, string)>>)
    returns (form: seq<FormEntry>)
    ensures |form| == |files| + |additionalData.GetOr([])|
    ensures forall i :: 0 <= i < |files| ==> form[i] == FileField("files", files[i])
    ensures forall j :: 0 <= j < |additionalData.GetOr([])| ==>
              form[|files| + j] == TextField(additionalData.value[j].0, additionalData.value[j].1)
    ensures form == FormEntries(files, additionalData)
  {
    form := [];
    var i := 0;
    while i < |files|
      invariant 0 <= i <= |files|
      invariant |form| == i
      invariant forall k :: 0 <= k < i ==> form[k] == FileField("files", files[k])
    {
      form := form + [FileField("files", files[i])];
      i := i + 1;
    }
    if additionalData.Some? {
      var entries := additionalData.value;
      var j := 0;
      while j < |entries|
        invariant 0 <= j <= |entries|
        invariant |form| == |files| + j
        invariant forall k :: 0 <= k < |files| ==> form[k] == FileField("files", files[k])
        invariant forall k :: 0 <= k < j ==> form[|files| + k] == TextField(entries[k].0, entries[k].1)
      {
        form := form + [TextField(entries[j].0, entries[j].1)];
        j := j + 1;
      }
    }
  }

  /** `formData.getAll(key)` restricted to file parts, in form order. */
  function FilesUnder(form: seq<FormEntry>, key: string): seq<File> {
    if form == [] then []
    else (if form[0].FileField? && form[0].key == key then [form[0].file] else [])
         + FilesUnder(form[1..], key)
  }

  lemma {:induction false} FilesUnderAppend(a: seq<FormEntry>, b: seq<FormEntry>, key: string)
    ensures FilesUnder(a + b, key) == FilesUnder(a, key) + FilesUnder(b, key)
  {
    if a != [] {
      assert (a + b)[0] == a[0];
      assert (a + b)[1..] == a[1..] + b;
      FilesUnderAppend(a[1..], b, key);
    } else {
      assert a + b == b;
    }
  }

  /** The server reads back exactly the uploaded files, in order, under `files`;
      the string parts never add to them. */
  lemma {:induction false} UploadedFilesRoundTrip(files: seq<File>, additionalData: Option<seq<(string, string)>>)
    ensures FilesUnder(FormEntries(files, additionalData), "files") == files
  {
    var extra := additionalData.GetOr([]);
    var fileParts := seq(|files|, i requires 0 <= i < |files| => FileField("files", files[i]));
    var textParts := seq(|extra|, j requires 0 <= j < |extra| => TextField(extra[j].0, extra[j].1));
    FilesUnderAppend(fileParts, textParts, "files");
    FileFieldsRead(files);
    TextFieldsHoldNoFiles(textParts);
  }

  lemma {:induction false} FileFieldsRead(files: seq<File>)
    ensures FilesUnder(seq(|files|, i requires 0 <= i < |files| => FileField("files", files[i])), "files") == files
  {
    var parts := seq(|files|, i requires 0 <= i < |files| => FileField("files", files[i]));
    if files != [] {
      assert parts[1..] == seq(|files[1..]|, i requires 0 <= i < |files[1..]| => FileField("files", files[1..][i]));
      FileFieldsRead(files[1..]);
    }
  }

  lemma {:induction false} TextFieldsHoldNoFiles(parts: seq<FormEntry>)
    requires forall k :: 0 <= k < |parts| ==> parts[k].TextField?
    ensures FilesUnder(parts, "files") == []
  {
    if parts != [] {
      TextFieldsHoldNoFiles(parts[1..]);
    }
  }

  /** The percentage `uploadWithProgress` reports for an axios progress event, or
      None when `total` is missing or zero (no report is made). `Math.round`
      rounds to the nearest integer, halves upwards. */
  function UploadPercent(loaded: nat, total: Option<nat>): (r: Option<int>)
    ensures r.None? <==> total.None? || total.value == 0
    ensures r.Some? ==> 2 * total.value * r.value <= 200 * loaded + total.value < 2 * total.value * (r.value + 1)
    ensures r.Some? && loaded <= total.value ==> 0 <= r.value <= 100
    ensures r.Some? && loaded == total.value ==> r.value == 100
  {
    if total.None? || total.value == 0 then None
    else
      var t := total.value;
      var p := (200 * loaded + t) / (2 * t);
      assert 2 * t * p <= 200 * loaded + t < 2 * t * (p + 1) by { DivBounds(200 * loaded + t, 2 * t); }
      assert loaded <= t ==> p <= 100 by {
        if loaded <= t && p > 100 { MulMonotone(2 * t, 101, p); }
      }
      assert loaded == t ==> p == 100 by {
        if loaded == t { DivExact(2 * t, 100, t); }
      }
      Some(p)
  }

  lemma DivBounds(n: nat, d: nat)
    requires d > 0
    ensures d * (n / d) <= n < d * (n / d + 1)
  {
  }

  lemma MulMonotone(a: nat, b: nat, c: nat)
    requires b <= c
    ensures a * b <= a * c
  {
  }

  lemma DivExact(d: nat, q: nat, r: nat)
    requires d > 0 && r < d
    ensures (d * q + r) / d == q
  {
    var p := (d * q + r) / d;
    DivBounds(d * q + r, d);
    if p > q { MulMonotone(d, q + 1, p); }
    if p < q { MulMonotone(d, p + 1, q); }
  }

  /** A later progress event (more bytes sent of the same total) never reports a
      smaller percentage. */
  lemma UploadPercentMonotone(loaded1: nat, loaded2: nat, total: nat)
    requires loaded1 <= loaded2 && total > 0
    ensures UploadPercent(loaded1, Some(total)).value <= UploadPercent(loaded2, Some(total)).value
  {
    var p1 := UploadPercent(loaded1, Some(total)).value;
    var p2 := UploadPercent(loaded2, Some(total)).value;
    if p1 > p2 {
      MulMonotone(2 * total, p2 + 1, p1);
    }
  }

  // ------------------------------------------------------- download names

  /** The `mimeToExt` table. */
  const MimeToExt: map<string, string> := map[
    "image/png" := ".png",
    "image/jpeg" := ".jpg",
    "image/jpg" := ".jpg",
    "image/webp" := ".webp",
    "image/gif" := ".gif",
    "image/bmp" := ".bmp",
    "image/tiff" := ".tiff",
    "image/x-icon" := ".ico",
    "application/pdf" := ".pdf",
    "application/zip" := ".zip",
    "text/plain" := ".txt",
    "video/mp4" := ".mp4",
    "video/webm" := ".webm",
    "audio/mpeg" := ".mp3",
    "audio/wav" := ".wav",
    "audio/ogg" := ".ogg",
    "audio/x-m4a" := ".m4a",
    "application/vnd.openxmlformats-officedocument.wordprocessingml.document" := ".docx"
  ]

  /** Every extension in the table is a dot followed by letters and digits only. */
  lemma MimeTableExtensionsWellFormed()
    ensures forall ct :: ct in MimeToExt ==>
              |MimeToExt[ct]| >= 2 && MimeToExt[ct][0] == '.'
              && forall i :: 1 <= i < |MimeToExt[ct]| ==> ('a' <= MimeToExt[ct][i] <= 'z' || IsDigit(MimeToExt[ct][i]))
  {
    var exts := [".png", ".jpg", ".webp", ".gif", ".bmp", ".tiff", ".ico", ".pdf", ".zip",
                 ".txt", ".mp4", ".webm", ".mp3", ".wav", ".ogg", ".m4a", ".docx"];
    assert forall ct :: ct in MimeToExt ==> MimeToExt[ct] in exts;
    forall k | 0 <= k < |exts|
      ensures |exts[k]| >= 2 && exts[k][0] == '.'
      ensures forall i :: 1 <= i < |exts[k]| ==> ('a' <= exts[k][i] <= 'z' || IsDigit(exts[k][i]))
    {
    }
  }

  predicate IsPathSeparator(c: char) { c == '/' || c == '\\' }

  /** The name already carries an extension: its last path segment (after the last
      `/` or `\`) holds a `.` that is not the name's first character. */
  predicate HasExtension(name: string) {
    exists i :: 0 < i < |name| && name[i] == '.' && forall j :: i < j < |name| ==> !IsPathSeparator(name[j])
  }

  /** The extension `ensureExtension` borrows from a source name: the suffix from
      its last `.`, provided that dot is not at index 0; otherwise nothing. */
  function BorrowedExtension(sourceFilename: string): (ext: string)
    ensures ext == "" <==> forall i :: 0 < i < |sourceFilename| ==> sourceFilename[i] != '.'
    ensures ext != "" ==> ext[0] == '.' && '.' !in ext[1..]
    ensures ext != "" ==> |ext| < |sourceFilename| && EndsWith(sourceFilename, ext)
  {
    var k := LastIndexOf(sourceFilename, '.');
    if k > 0 then
      assert sourceFilename[k..][1..] == sourceFilename[k + 1..];
      sourceFilename[k..]
    else ""
  }

  /** The test at the head of `ensureExtension` is exactly `HasExtension`. */
  lemma HasExtensionIffLastDot(name: string)
    ensures HasExtension(name) <==>
              (LastIndexOf(name, '.') > Max(LastIndexOf(name, '/'), LastIndexOf(name, '\\'))
               && LastIndexOf(name, '.') > 0)
  {
    var dot := LastIndexOf(name, '.');
    var slash := Max(LastIndexOf(name, '/'), LastIndexOf(name, '\\'));
    if HasExtension(name) {
      var i :| 0 < i < |name| && name[i] == '.' && forall j :: i < j < |name| ==> !IsPathSeparator(name[j]);
      assert dot >= i;
    }
  }

  /** `ensureExtension`: keeps a name that has an extension, otherwise appends the
      extension of the source file name. */
  function EnsureExtension(downloadName: string, sourceFilename: string): (r: string)
    ensures HasExtension(downloadName) ==> r == downloadName
    ensures !HasExtension(downloadName) ==> r == downloadName + BorrowedExtension(sourceFilename)
    ensures downloadName <= r
  {
    HasExtensionIffLastDot(downloadName);
    var lastDot := LastIndexOf(downloadName, '.');
    var lastSlash := Max(LastIndexOf(downloadName, '/'), LastIndexOf(downloadName, '\\'));
    if lastDot > lastSlash && lastDot > 0 then downloadName
    else
      var srcLastDot := LastIndexOf(sourceFilename, '.');
      if srcLastDot > 0 then downloadName + sourceFilename[srcLastDot..] else downloadName
  }

  /** A second application changes nothing, provided the name is non-empty and the
      borrowed extension holds no path separator. */
  lemma EnsureExtensionIdempotent(downloadName: string, sourceFilename: string)
    requires downloadName != ""
    requires forall i :: 0 <= i < |BorrowedExtension(sourceFilename)| ==> !IsPathSeparator(BorrowedExtension(sourceFilename)[i])
    ensures EnsureExtension(EnsureExtension(downloadName, sourceFilename), sourceFilename)
            == EnsureExtension(downloadName, sourceFilename)
  {
    var ext := BorrowedExtension(sourceFilename);
    if !HasExtension(downloadName) && ext != "" {
      var r := downloadName + ext;
      assert r[|downloadName|] == '.';
      assert forall j :: |downloadName| < j < |r| ==> !IsPathSeparator(r[j]) by {
        forall j | |downloadName| < j < |r| ensures !IsPathSeparator(r[j]) {
          assert r[j] == ext[j - |downloadName|];
        }
      }
      assert HasExtension(r);
    }
  }

  /** Without the non-empty condition idempotence fails: an empty name gets the
      source's extension once, and then once more, because a leading dot does not
      count as an extension. */
  lemma EnsureExtensionOnEmptyNameRepeats(sourceFilename: string)
    requires BorrowedExtension(sourceFilename) != ""
    ensures var ext := BorrowedExtension(sourceFilename);
            EnsureExtension("", sourceFilename) == ext
            && EnsureExtension(ext, sourceFilename) == ext + ext
  {
    var ext := BorrowedExtension(sourceFilename);
    assert "" + ext == ext;
    forall i | 0 < i < |ext| ensures ext[i] != '.' {
      assert ext[i] == ext[1..][i - 1];
    }
    assert !HasExtension(ext);
  }


  predicate IsQuote(c: char) { c == '\'' || c == '"' }

  /** The characters a regex `.` does not match (no `s` flag). */
  predicate IsLineTerminator(c: char) { c == '\n' || c == '\r' || c == '\U{2028}' || c == '\U{2029}' }

  predicate NameStop(c: char) { c == ';' || c == '=' || c == '\n' }

  predicate ValueStop(c: char) { c == ';' || c == '\n' }

  /** The first index at or after `p` whose character satisfies `stop`, or `|s|`. */
  function FirstIndexFrom(s: string, p: nat, stop: char -> bool): (r: nat)
    requires p <= |s|
    ensures p <= r <= |s|
    ensures r < |s| ==> stop(s[r])
    ensures forall j :: p <= j < r ==> !stop(s[j])
    decreases |s| - p
  {
    if p == |s| || stop(s[p]) then p else FirstIndexFrom(s, p + 1, stop)
  }

  /** `filename[^;=\n]*=` matches `d` from `p` to `e`: the word `filename`, a run
      free of `;`, `=` and newlines, then `=`. */
  predicate NameMatchEndsAt(d: string, p: nat, e: nat) {
    && p + 9 <= e <= |d|
    && "filename" <= d[p..]
    && d[e - 1] == '='
    && forall j :: p + 8 <= j < e - 1 ==> !NameStop(d[j])
  }

  /** The pattern `filename[^;=\n]*=` tried at position `p`: the index just after
      its `=`. The run before `=` cannot contain `=`, `;` or a newline, so the
      first of those after `filename` must be the `=`, and the match is unique. */
  function NameParamAt(d: string, p: nat): (r: Option<nat>)
    requires p <= |d|
    ensures r.Some? ==> NameMatchEndsAt(d, p, r.value)
    ensures forall e: nat :: NameMatchEndsAt(d, p, e) ==> r == Some(e)
  {
    if "filename" <= d[p..] then
      var k := FirstIndexFrom(d, p + 8, NameStop);
      if k < |d| && d[k] == '=' then Some(k + 1) else None
    else None
  }

  /** The regex search: the leftmost position at or after `p` where the pattern matches. */
  function FindNameParam(d: string, p: nat): (r: Option<nat>)
    requires p <= |d|
    ensures r.Some? ==> exists q :: p <= q <= |d| && NameParamAt(d, q) == r
                                   && forall q' :: p <= q' < q ==> NameParamAt(d, q').None?
    ensures r.None? ==> forall q :: p <= q <= |d| ==> NameParamAt(d, q).None?
    decreases |d| - p
  {
    if NameParamAt(d, p).Some? then NameParamAt(d, p)
    else if p == |d| then None
    else
      var r := FindNameParam(d, p + 1);
      assert r.Some? ==> exists q :: p <= q <= |d| && NameParamAt(d, q) == r
                                     && forall q' :: p <= q' < q ==> NameParamAt(d, q').None? by {
        if r.Some? {
          var q :| p + 1 <= q <= |d| && NameParamAt(d, q) == r
                   && forall q' :: p + 1 <= q' < q ==> NameParamAt(d, q').None?;
          assert forall q' :: p <= q' < q ==> NameParamAt(d, q').None?;
        }
      }
      r
  }

  /** `(['"]).*?\2` matches `d` from `e` to `j + 1`: a quote, then the shortest run
      of characters other than line terminators that reaches the same quote. */
  predicate QuotedRunEndsAt(d: string, e: nat, j: nat) {
    && e < j < |d|
    && IsQuote(d[e])
    && d[j] == d[e]
    && forall k :: e < k < j ==> d[k] != d[e] && !IsLineTerminator(d[k])
  }

  /** The group `((['"]).*?\2|[^;\n]*)` captured from index `e`: a quoted run up
      to the first matching quote on the same line, failing which everything up to
      the next `;` or newline. */
  function CapturedValue(d: string, e: nat): (r: string)
    requires e <= |d|
    ensures r <= d[e..]
    ensures forall j: nat :: QuotedRunEndsAt(d, e, j) ==> r == d[e..j + 1]
    ensures (forall j: nat :: !QuotedRunEndsAt(d, e, j)) ==>
              (forall k :: e <= k < e + |r| ==> !ValueStop(d[k])) && (e + |r| == |d| || ValueStop(d[e + |r|]))
  {
    var unquoted := d[e..FirstIndexFrom(d, e, ValueStop)];
    if e < |d| && IsQuote(d[e]) then
      var q := d[e];
      var j := FirstIndexFrom(d, e + 1, c => c == q || IsLineTerminator(c));
      if j < |d| && d[j] == q then
        assert QuotedRunEndsAt(d, e, j);
        d[e..j + 1]
      else unquoted
    else unquoted
  }

  /** `.replace(/['"]/g, '')`. */
  function StripQuotes(s: string): (r: string)
    ensures |r| <= |s|
    ensures forall i :: 0 <= i < |r| ==> !IsQuote(r[i])
    ensures (forall i :: 0 <= i < |s| ==> !IsQuote(s[i])) ==> r == s
    ensures |s| == 1 ==> r == if IsQuote(s[0]) then [] else s
  {
    if s == [] then []
    else (if IsQuote(s[0]) then [] else [s[0]]) + StripQuotes(s[1..])
  }

  /** Every character other than a quote is kept, as often as it occurs. */
  lemma {:induction false} StripQuotesKeepsOthers(s: string)
    ensures forall c :: !IsQuote(c) ==> multiset(StripQuotes(s))[c] == multiset(s)[c]
  {
    if s != [] {
      assert s == [s[0]] + s[1..];
      StripQuotesKeepsOthers(s[1..]);
    }
  }

  lemma {:induction false} StripQuotesAppend(a: string, b: string)
    ensures StripQuotes(a + b) == StripQuotes(a) + StripQuotes(b)
  {
    if a != [] {
      var head := if IsQuote(a[0]) then [] else [a[0]];
      assert (a + b)[0] == a[0];
      assert (a + b)[1..] == a[1..] + b;
      assert StripQuotes(a + b) == head + StripQuotes(a[1..] + b);
      StripQuotesAppend(a[1..], b);
    } else {
      assert a + b == b;
    }
  }

  /** Step 1 of `downloadFile`: the file name a `Content-Disposition` header
      supplies, if any: the regex's first group, when non-empty, without quotes. */
  function HeaderFilename(disposition: Option<string>): (r: Option<string>)
    ensures r.Some? ==> disposition.Some? && Includes(disposition.value, "filename=")
    ensures r.Some? ==> forall i :: 0 <= i < |r.value| ==> !IsQuote(r.value[i])
    ensures disposition.Some? && Includes(disposition.value, "filename=") ==>
              var e := FindNameParam(disposition.value, 0);
              && e.Some?
              && (r.Some? <==> CapturedValue(disposition.value, e.value) != "")
              && (r.Some? ==> r.value == StripQuotes(CapturedValue(disposition.value, e.value)))
  {
    if disposition.Some? && Includes(disposition.value, "filename=") then
      var d := disposition.value;
      IncludesFilenameMatches(d);
      match FindNameParam(d, 0)
      case Some(e) =>
        var g := CapturedValue(d, e);
        if g != "" then Some(StripQuotes(g)) else None
      case None => None
    else None
  }

  /** Whenever the header contains `filename=` the regex finds a match, so only an
      empty capture leaves the name unchanged. */
  lemma IncludesFilenameMatches(d: string)
    requires Includes(d, "filename=")
    ensures FindNameParam(d, 0).Some?
  {
    var i :| 0 <= i <= |d| && "filename=" <= d[i..];
    assert "filename" <= d[i..];
    assert d[i + 8] == '=';
    assert FirstIndexFrom(d, i + 8, NameStop) == i + 8;
    assert NameParamAt(d, i).Some?;
    FindNameParamReaches(d, 0, i);
  }

  lemma {:induction false} FindNameParamReaches(d: string, p: nat, i: nat)
    requires p <= i <= |d|
    requires NameParamAt(d, i).Some?
    ensures FindNameParam(d, p).Some?
    decreases i - p
  {
    if NameParamAt(d, p).None? && p < i {
      FindNameParamReaches(d, p + 1, i);
    }
  }

  /** The content type the MIME fallback consults: the header's, else the blob's. */
  function ContentTypeOf(header: Option<string>, blobType: string): (r: string)
    ensures Truthy(header) ==> r == header.value
    ensures !Truthy(header) ==> r == blobType
  {
    if header.Some? && header.value != "" then header.value else blobType
  }

  /** The name `downloadFile` starts from: the caller's `downloadName`, or the
      stored file name when that is empty or absent; a header name replaces it. */
  function StartName(filename: string, downloadName: string, disposition: Option<string>): (r: string)
    ensures HeaderFilename(disposition).Some? ==> r == HeaderFilename(disposition).value
    ensures HeaderFilename(disposition).None? && downloadName != "" ==> r == downloadName
    ensures HeaderFilename(disposition).None? && downloadName == "" ==> r == filename
  {
    match HeaderFilename(disposition)
    case Some(h) => h
    case None => if downloadName != "" then downloadName else filename
  }

  /** The name resolution inside `downloadFile`; `finalFilename` is reassigned step
      by step. */
  method ResolveDownloadName(filename: string, downloadName: string, disposition: Option<string>,
                             contentType: Option<string>, blobType: string)
    returns (finalName: string)
    ensures var start := StartName(filename, downloadName, disposition);
            && start <= finalName
            && (HasExtension(start) ==> finalName == start)
            && var named := EnsureExtension(start, filename);
               finalName == named + (if '.' !in named && ContentTypeOf(contentType, blobType) in MimeToExt
                                     then MimeToExt[ContentTypeOf(contentType, blobType)] else "")
    ensures ContentTypeOf(contentType, blobType) in MimeToExt ==> '.' in finalName
  {
    finalName := if downloadName != "" then downloadName else filename;
    var fromHeader := HeaderFilename(disposition);
    if fromHeader.Some? {
      finalName := fromHeader.value;
    }
    ghost var start := finalName;
    finalName := EnsureExtension(finalName, filename);
    if '.' !in finalName {
      var ct := ContentTypeOf(contentType, blobType);
      var ext := if ct in MimeToExt then MimeToExt[ct] else "";
      if ext != "" {
        finalName := finalName + ext;
      }
    }
    FinalNameSteps(start, filename, ContentTypeOf(contentType, blobType));
  }

  /** The steps after the start name: the source's extension when the name has
      none, then the content type's when the name still holds no dot. */
  lemma FinalNameSteps(start: string, filename: string, ct: string)
    ensures var named := EnsureExtension(start, filename);
            var final := named + (if '.' !in named && ct in MimeToExt then MimeToExt[ct] else "");
            && start <= final
            && (HasExtension(start) ==> final == start)
            && (ct in MimeToExt ==> '.' in final)
  {
    var named := EnsureExtension(start, filename);
    if HasExtension(start) {
      var i :| 0 < i < |start| && start[i] == '.' && forall j :: i < j < |start| ==> !IsPathSeparator(start[j]);
      assert named[i] == '.';
      assert named + "" == named;
    }
    if '.' !in named && ct in MimeToExt {
      MimeTableExtensionsWellFormed();
      assert (named + MimeToExt[ct])[|named|] == '.';
    }
  }

  /** What `fetch` gave back for the download request. */
  datatype Response = Response(status: int, disposition: Option<string>, contentType: Option<string>, blobType: string)

  const NotFoundMessage := "File expired or not found. Please process the file again."

  /** `downloadFile` up to handing the file to the browser: the name it saves under,
      or the error it throws. A rejected `fetch` is rethrown unchanged. */
  method DownloadFile(filename: string, downloadName: string, response: Result<Response>)
    returns (r: Result<string>)
    ensures response.Failure? ==> r == Failure(response.error)
    ensures response.Success? && response.value.status == 404 ==> r == Failure(NotFoundMessage)
    ensures response.Success? && !(200 <= response.value.status <= 299) && response.value.status != 404 ==>
              r == Failure("Download failed: " + IntToString(response.value.status))
    ensures r.Success? <==> response.Success? && 200 <= response.value.status <= 299
    ensures r.Success? ==> StartName(filename, downloadName, response.value.disposition) <= r.value
  {
    if response.Failure? {
      return Failure(response.error);
    }
    var resp := response.value;
    if !(200 <= resp.status <= 299) {
      if resp.status == 404 {
        return Failure(NotFoundMessage);
      }
      return Failure("Download failed: " + IntToString(resp.status));
    }
    var name := ResolveDownloadName(filename, downloadName, resp.disposition, resp.contentType, resp.blobType);
    r := Success(name);
  }

  // ------------------------------------------------------- progress streams

  /** One server-sent message after `JSON.parse`; the fields of
      `DownloadProgress` and `DownloadComplete`, plus the error text. */
  datatype StreamData = StreamData(
    status: Option<string>,
    percent: Option<string>,
    percentNum: Option<real>,
    message: Option<string>,
    filename: string,
    title: string,
    duration: Option<nat>,
    size: nat,
    error: Option<string>)

  /** What the `EventSource` hands to its handlers. */
  datatype StreamEvent =
    | Received(data: StreamData)  // `onmessage` with a parsable payload
    | Garbled                     // `onmessage` whose payload `JSON.parse` rejects
    | ConnectionError             // `onerror`

  /** The caller's callback that a handler invokes. */
  datatype Callback = OnProgress(data: StreamData) | OnComplete(data: StreamData) | OnError(error: Option<string>)

  predicate IsTerminal(c: Callback) { !c.OnProgress? }

  /** The handlers' reaction to one event: the callbacks run, and whether the
      stream is closed afterwards. */
  datatype Reaction = Reaction(calls: seq<Callback>, closes: bool)

  const ConnectionLost := "Connection lost"

  /** The shared `onmessage`/`onerror` handlers of the four `*WithProgress` functions. */
  function Dispatch(e: StreamEvent): (r: Reaction)
    ensures |r.calls| <= 1
    ensures r.closes <==> |r.calls| == 1 && IsTerminal(r.calls[0])
    ensures e.Received? && e.data.status == Some("complete") ==> r.calls == [OnComplete(e.data)]
    ensures e.Received? && e.data.status == Some("error") ==> r.calls == [OnError(e.data.error)]
    ensures e.Received? && e.data.status != Some("complete") && e.data.status != Some("error") ==>
              r.calls == [OnProgress(e.data)]
    ensures e.Garbled? ==> r.calls == []
    ensures e.ConnectionError? ==> r.calls == [OnError(Some(ConnectionLost))]
  {
    match e
    case Received(data) =>
      if data.status == Some("complete") then Reaction([OnComplete(data)], true)
      else if data.status == Some("error") then Reaction([OnError(data.error)], true)
      else Reaction([OnProgress(data)], false)
    case Garbled => Reaction([], false)
    case ConnectionError => Reaction([OnError(Some(ConnectionLost))], true)
  }

  /** An `EventSource` with the handlers installed by a `*WithProgress` function,
      and the log of callbacks they have made. The browser delivers no events to a
      closed source. */
  class ProgressStream {
    var open: bool
    var calls: seq<Callback>

    /** Every callback except possibly the last reports progress, and a terminal
        callback leaves the stream closed: at most one terminal callback, last. */
    ghost predicate Valid()
      reads this
    {
      && (forall i :: 0 <= i < |calls| - 1 ==> !IsTerminal(calls[i]))
      && (|calls| > 0 && IsTerminal(calls[|calls| - 1]) ==> !open)
    }

    constructor ()
      ensures Valid() && open && calls == []
    {
      open := true;
      calls := [];
    }

    method Deliver(e: StreamEvent)
      requires Valid() && open
      modifies this
      ensures Valid()
      ensures calls == old(calls) + Dispatch(e).calls
      ensures open == !Dispatch(e).closes
    {
      var reaction := Dispatch(e);
      calls := calls + reaction.calls;
      if reaction.closes {
        open := false;
      }
    }

    /** `eventSource.close()` called by the page. */
    method Close()
      requires Valid()
      modifies this
      ensures Valid() && !open && calls == old(calls)
    {
      open := false;
    }
  }
}
