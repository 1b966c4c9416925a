/** The three streaming video download pages, `src/app/videos/youtube/page.tsx`,
    `src/app/videos/shorts/page.tsx` and `src/app/videos/reels/page.tsx`. They share
    their shape: a URL check, a progress stream whose callbacks update the page, a
    percent derived from the last progress report, and a name to save the video
    under. `Site` selects where they differ. */
module VideoDownload {
  import opened Common
  import opened Text
  import Api

  datatype Site = YouTube | Shorts | Reels

  // ------------------------------------------------------------ URL check

  /** The message `handleDownload` rejects `url` with, or None when it goes ahead. */
  function UrlRejection(site: Site, url: string): (r: Option<string>)
    ensures Trim(url) == [] ==> r.Some?
    ensures site != YouTube ==> (r.None? <==> Trim(url) != [])
    ensures site == YouTube ==>
              (r.None? <==> Trim(url) != [] && (Includes(url, "youtube.com") || Includes(url, "youtu.be")))
  {
    if Trim(url) == [] then
      Some(match site
           case YouTube => "Please enter a YouTube URL"
           case Shorts => "Please enter a YouTube Shorts URL"
           case Reels => "Please enter an Instagram Reels URL")
    else if site == YouTube && !Includes(url, "youtube.com") && !Includes(url, "youtu.be") then
      Some("Please enter a valid YouTube URL")
    else None
  }

  /** A URL is accepted exactly when it has a character other than whitespace and,
      on the YouTube page, names one of YouTube's two hosts somewhere. */
  lemma UrlAcceptedIff(site: Site, url: string)
    ensures UrlRejection(site, url).None? <==>
              (exists i :: 0 <= i < |url| && !IsJsWhitespace(url[i]))
              && (site == YouTube ==> Includes(url, "youtube.com") || Includes(url, "youtu.be"))
  {
    TrimEmptyIffBlank(url);
  }

  /** The host check looks for the text anywhere, so a URL that merely mentions a
      YouTube host in its query is accepted. */
  lemma HostCheckIsSubstringSearch()
    ensures UrlRejection(YouTube, "https://example.com/?next=youtu.be").None?
  {
    var url := "https://example.com/?next=youtu.be";
    assert url[26..] == "youtu.be";
    assert Includes(url, "youtu.be");
    assert !IsJsWhitespace(url[0]);
    TrimEmptyIffBlank(url);
  }

  // ---------------------------------------------------------- save name

  predicate IsSafeChar(c: char) {
    ('a' <= c <= 'z') || ('A' <= c <= 'Z') || ('0' <= c <= '9') || c == ' '
  }

  /** `title.replace(/[^a-zA-Z0-9 ]/g, '')`: the letters, digits and spaces of
      `title`, each kept as often as it occurs and nothing else. */
  function KeepSafe(title: string): (r: string)
    ensures |r| <= |title|
    ensures forall i :: 0 <= i < |r| ==> IsSafeChar(r[i])
    ensures forall c :: IsSafeChar(c) ==> multiset(r)[c] == multiset(title)[c]
    ensures |title| == 1 ==> r == if IsSafeChar(title[0]) then title else []
  {
    if title == [] then []
    else
      assert title == [title[0]] + title[1..];
      (if IsSafeChar(title[0]) then [title[0]] else []) + KeepSafe(title[1..])
  }

  /** A title made only of safe characters is kept whole. */
  lemma {:induction false} KeepSafeOfSafe(title: string)
    requires forall i :: 0 <= i < |title| ==> IsSafeChar(title[i])
    ensures KeepSafe(title) == title
  {
    if title != [] {
      KeepSafeOfSafe(title[1..]);
    }
  }

  /** Filtering works character by character, so the kept characters stay in the
      title's order. */
  lemma {:induction false} KeepSafeAppend(a: string, b: string)
    ensures KeepSafe(a + b) == KeepSafe(a) + KeepSafe(b)
  {
    if a == [] {
      assert a + b == b;
    } else {
      assert (a + b)[0] == a[0];
      assert (a + b)[1..] == a[1..] + b;
      KeepSafeAppend(a[1..], b);
    }
  }

  /** The YouTube page's `safeName`: the safe characters of the title, at most 50 of
      them, and `.mp4`. */
  function SafeName(title: string): (r: string)
    ensures EndsWith(r, ".mp4") && |r| <= 54
    ensures |r| == Min(50, |KeepSafe(title)|) + 4
    ensures r[..|r| - 4] <= KeepSafe(title)
    ensures |KeepSafe(title)| <= 50 ==> r == KeepSafe(title) + ".mp4"
    ensures forall i :: 0 <= i < |r| - 4 ==> IsSafeChar(r[i])
  {
    var kept := KeepSafe(title);
    var stem := kept[..Min(50, |kept|)];
    assert (stem + ".mp4")[..|stem|] == stem;
    stem + ".mp4"
  }

  /** The name each page passes to `downloadFile` as `downloadName`. */
  function SaveName(site: Site, title: string): (r: string)
    ensures site == YouTube ==> r == SafeName(title)
    ensures site == Shorts ==> r == "youtube_shorts.mp4"
    ensures site == Reels ==> r == "instagram_reels.mp4"
  {
    match site
    case YouTube => SafeName(title)
    case Shorts => "youtube_shorts.mp4"
    case Reels => "instagram_reels.mp4"
  }

  /** A title with at least one safe character gives a name whose `.mp4` survives
      `downloadFile`'s extension step untouched. */
  lemma {:induction false} SafeNameKeepsExtension(title: string, sourceFilename: string)
    requires KeepSafe(title) != []
    ensures Api.EnsureExtension(SafeName(title), sourceFilename) == SafeName(title)
  {
    var r := SafeName(title);
    var k := |r| - 4;
    assert r[k..] == ".mp4";
    assert r[k] == '.';
    forall j | k < j < |r| ensures !Api.IsPathSeparator(r[j]) {
      assert r[j] == ".mp4"[j - k];
    }
    assert Api.HasExtension(r);
  }

  /** A title with no safe character gives `.mp4`, whose only dot starts the name,
      so `downloadFile` treats it as having no extension and borrows one. */
  lemma SafeNameOfUnsafeTitle(title: string, sourceFilename: string)
    requires KeepSafe(title) == []
    ensures SafeName(title) == ".mp4"
    ensures !Api.HasExtension(".mp4")
    ensures Api.EnsureExtension(SafeName(title), sourceFilename) == ".mp4" + Api.BorrowedExtension(sourceFilename)
  {
    assert SafeName(title) == [] + ".mp4";
  }

  /** On every page the save name ends in `.mp4`. */
  lemma SaveNamesAreMp4(site: Site, title: string)
    ensures EndsWith(SaveName(site, title), ".mp4")
  {
  }

  // ------------------------------------------------------------ duration

  /** `formatDuration` (and the Shorts page's inline copy of it): whole minutes, a
      colon, and the remaining seconds as two digits. */
  function FormatDuration(seconds: nat): (r: string)
    ensures |r| >= 4 && r[|r| - 3] == ':'
    ensures AllDigits(r[..|r| - 3]) && AllDigits(r[|r| - 2..])
    ensures r[..|r| - 3] == NatToString(seconds / 60)
    ensures r[|r| - 2..] == PadStart(NatToString(seconds % 60), 2, '0')
  {
    var mins := NatToString(seconds / 60);
    var secs := PadStart(NatToString(seconds % 60), 2, '0');
    TwoDigitSeconds(seconds % 60);
    var r := mins + ":" + secs;
    assert r[..|r| - 3] == mins;
    assert r[|r| - 2..] == secs;
    r
  }

  /** Seconds below 60 pad to exactly two digits that denote them. */
  lemma TwoDigitSeconds(s: nat)
    requires s < 60
    ensures var p := PadStart(NatToString(s), 2, '0');
            |p| == 2 && AllDigits(p) && DigitsValue(p) == s
  {
    NatToStringRoundTrip(s);
    var n := NatToString(s);
    var p := PadStart(n, 2, '0');
    if |n| == 1 {
      assert p == ['0'] + n;
      assert p[..1] == ['0'];
      assert DigitsValue(p) == DigitsValue(['0']) * 10 + DigitValue(n[0]);
      assert DigitsValue(n) == DigitsValue(n[..0]) * 10 + DigitValue(n[0]);
    } else {
      assert p == n;
    }
  }

  /** Reads back a `m:ss` duration. */
  function ParseDuration(r: string): nat
    requires |r| >= 4 && AllDigits(r[..|r| - 3]) && AllDigits(r[|r| - 2..])
  {
    DigitsValue(r[..|r| - 3]) * 60 + DigitsValue(r[|r| - 2..])
  }

  /** The formatted duration denotes the number of seconds it was made from. */
  lemma DurationRoundTrip(seconds: nat)
    ensures ParseDuration(FormatDuration(seconds)) == seconds
  {
    var m, s := seconds / 60, seconds % 60;
    var minutes, secs := NatToString(m), PadStart(NatToString(s), 2, '0');
    NatToStringRoundTrip(m);
    TwoDigitSeconds(s);
    assert FormatDuration(seconds) == minutes + ":" + secs;
    ParseJoined(minutes, secs);
  }

  /** Reading back `a:b` gives the minutes `a` and the seconds `b` denote. */
  lemma ParseJoined(a: string, b: string)
    requires |a| >= 1 && AllDigits(a) && |b| == 2 && AllDigits(b)
    ensures ParseDuration(a + ":" + b) == DigitsValue(a) * 60 + DigitsValue(b)
  {
    var r := a + ":" + b;
    assert r[..|r| - 3] == a;
    assert r[|r| - 2..] == b;
  }

  /** What the result panel shows as duration: nothing on the Reels page (its
      result has no duration) nor for a zero duration. */
  function DurationLabel(site: Site, duration: Option<nat>): (r: Option<string>)
    ensures r.Some? <==> site != Reels && duration.Some? && duration.value > 0
    ensures r.Some? ==> r.value == FormatDuration(duration.value)
  {
    if site != Reels && duration.Some? && duration.value > 0 then Some(FormatDuration(duration.value)) else None
  }

  // ------------------------------------------------------------- percent

  /** A `percent_num` is truthy when present and non-zero. */
  predicate NumTruthy(x: Option<real>) {
    x.Some? && x.value != 0.0
  }

  /** `getProgressPercent`. `parse` is the browser's `parseFloat`, None standing
      for NaN; `percent.replace('%', '')` removes only the first `%`. */
  function ProgressPercent(progress: Option<Api.StreamData>, parse: string -> Option<real>): (r: real)
    ensures r <= 100.0
    ensures progress.None? ==> r == 0.0
    ensures progress.Some? && NumTruthy(progress.value.percentNum) ==>
              r == MinReal(progress.value.percentNum.value, 100.0)
    ensures progress.Some? && !NumTruthy(progress.value.percentNum) && Truthy(progress.value.percent) ==>
              r == match parse(RemoveFirst(progress.value.percent.value, '%'))
                   case None => 0.0
                   case Some(n) => MinReal(n, 100.0)
    ensures progress.Some? && !NumTruthy(progress.value.percentNum) && !Truthy(progress.value.percent) ==> r == 0.0
  {
    if progress.None? then 0.0
    else if NumTruthy(progress.value.percentNum) then MinReal(progress.value.percentNum.value, 100.0)
    else if Truthy(progress.value.percent) then
      match parse(RemoveFirst(progress.value.percent.value, '%'))
      case None => 0.0
      case Some(n) => MinReal(n, 100.0)
    else 0.0
  }

  /** A truthy `percent_num` decides the percent alone: the text is not parsed. */
  lemma NumericPercentTakesPrecedence(d: Api.StreamData, parse1: string -> Option<real>, parse2: string -> Option<real>)
    requires NumTruthy(d.percentNum)
    ensures ProgressPercent(Some(d), parse1) == ProgressPercent(Some(d), parse2)
  {
  }

  /** Only the upper bound is applied: a negative report is shown as it is. */
  lemma NoLowerBound(d: Api.StreamData, parse: string -> Option<real>)
    requires d.percentNum == Some(-5.0)
    ensures ProgressPercent(Some(d), parse) == -5.0
  {
  }

  /** A text percentage is parsed with its first `%` removed. */
  lemma PercentSignDropped(d: Api.StreamData, parse: string -> Option<real>)
    requires d.percentNum == None && d.percent == Some("42.5%")
    ensures ProgressPercent(Some(d), parse) == match parse("42.5") case None => 0.0 case Some(n) => MinReal(n, 100.0)
  {
    assert "42.5%"[..4] == "42.5";
    assert RemoveFirst("42.5%", '%') == "42.5";
  }

  // ----------------------------------------------------------- page state

  /** The `result` record the page keeps; the Reels page's has no duration. */
  datatype VideoResult = VideoResult(filename: string, title: string, duration: Option<nat>, size: nat)

  datatype PageState = PageState(isProcessing: bool, progress: Option<Api.StreamData>, result: Option<VideoResult>)

  const InitialState := PageState(false, None, None)

  /** The progress record set when a download starts. Fields the record does not
      have take neutral values. */
  function StartingProgress(site: Site): (p: Api.StreamData)
    ensures p.status == Some("starting") && p.percentNum.None? && p.percent.None?
  {
    Api.StreamData(Some("starting"), None, None,
                   Some(if site == YouTube then "Connecting to YouTube..." else "Connecting..."),
                   "", "", None, 0, None)
  }

  /** The state `handleDownload` sets before opening the stream. */
  function Started(site: Site): (s: PageState)
    ensures s.isProcessing && s.result.None? && s.progress.Some?
  {
    PageState(true, Some(StartingProgress(site)), None)
  }

  /** The effect of one of the page's callbacks. */
  function AfterCallback(s: PageState, c: Api.Callback, site: Site): (r: PageState)
    ensures c.OnProgress? ==> r == s.(progress := Some(c.data))
    ensures c.OnComplete? ==>
              r == PageState(false, None, Some(VideoResult(c.data.filename, c.data.title,
                                                          if site == Reels then None else Some(c.data.duration.GetOr(0)),
                                                          c.data.size)))
    ensures c.OnError? ==> r == s.(isProcessing := false, progress := None)
  {
    match c
    case OnProgress(data) => s.(progress := Some(data))
    case OnComplete(data) =>
      var duration := if site == Reels then None else Some(data.duration.GetOr(0));
      PageState(false, None, Some(VideoResult(data.filename, data.title, duration, data.size)))
    case OnError(_) => s.(isProcessing := false, progress := None)
  }

  function AfterCallbacks(s: PageState, calls: seq<Api.Callback>, site: Site): PageState
    decreases |calls|
  {
    if calls == [] then s else AfterCallbacks(AfterCallback(s, calls[0], site), calls[1..], site)
  }

  /** The page's state after the stream hands it `e`: the dispatch makes at most one
      callback. */
  function AfterEvent(s: PageState, e: Api.StreamEvent, site: Site): (r: PageState)
    ensures Api.Dispatch(e).calls == [] ==> r == s
    ensures Api.Dispatch(e).calls != [] ==> r == AfterCallback(s, Api.Dispatch(e).calls[0], site)
  {
    var calls := Api.Dispatch(e).calls;
    assert calls != [] ==>
             calls[1..] == [] && AfterCallbacks(AfterCallback(s, calls[0], site), calls[1..], site) == AfterCallback(s, calls[0], site);
    AfterCallbacks(s, calls, site)
  }

  /** An event that closes the stream ends processing and clears the progress
      (so the bar reads 0); one that leaves it open touches only the progress. */
  lemma {:induction false} ClosingEventsEndProcessing(s: PageState, e: Api.StreamEvent, site: Site, parse: string -> Option<real>)
    ensures Api.Dispatch(e).closes ==>
              !AfterEvent(s, e, site).isProcessing && AfterEvent(s, e, site).progress.None?
              && ProgressPercent(AfterEvent(s, e, site).progress, parse) == 0.0
    ensures !Api.Dispatch(e).closes ==>
              AfterEvent(s, e, site).isProcessing == s.isProcessing && AfterEvent(s, e, site).result == s.result
  {
  }

  /** A `complete` message stores the result, with a missing duration as 0 except on
      the Reels page, which keeps none; an `error` message keeps the old result. */
  lemma {:induction false} CompletionStoresResult(s: PageState, d: Api.StreamData, site: Site)
    ensures d.status == Some("complete") ==>
              AfterEvent(s, Api.Received(d), site).result
              == Some(VideoResult(d.filename, d.title, if site == Reels then None else Some(d.duration.GetOr(0)), d.size))
    ensures d.status == Some("error") ==> AfterEvent(s, Api.Received(d), site).result == s.result
  {
  }

  /** A page with its current `EventSource` (`eventSourceRef.current`). */
  class DownloaderPage {
    const site: Site
    var state: PageState
    var source: Api.ProgressStream?

    ghost predicate Valid()
      reads this, source
    {
      source != null ==> source.Valid()
    }

    constructor (site: Site)
      ensures Valid() && this.site == site && state == InitialState && source == null
    {
      this.site := site;
      state := InitialState;
      source := null;
    }

    /** `handleDownload`: a rejected URL changes nothing; otherwise the page
        enters the starting state, closes the stream it had and opens a new one. */
    method HandleDownload(url: string) returns (rejection: Option<string>)
      requires Valid()
      modifies this, source
      ensures Valid()
      ensures rejection == UrlRejection(site, url)
      ensures rejection.Some? ==> state == old(state) && source == old(source)
      ensures rejection.Some? && old(source) != null ==>
                source.open == old(source.open) && source.calls == old(source.calls)
      ensures rejection.None? ==>
                state == Started(site) && source != null && fresh(source) && source.open && source.calls == []
      ensures rejection.None? && old(source) != null ==> !old(source).open && old(source).calls == old(source.calls)
    {
      rejection := UrlRejection(site, url);
      if rejection.Some? {
        return;
      }
      state := Started(site);
      if source != null {
        source.Close();
      }
      source := new Api.ProgressStream();
    }

    /** The current stream delivers `e`: its handlers run the page's callbacks. */
    method OnStreamEvent(e: Api.StreamEvent)
      requires Valid() && source != null && source.open
      modifies this, source
      ensures Valid() && source == old(source)
      ensures state == AfterEvent(old(state), e, site)
      ensures source.calls == old(source.calls) + Api.Dispatch(e).calls
      ensures source.open == !Api.Dispatch(e).closes
    {
      source.Deliver(e);
      state := AfterEvent(state, e, site);
    }

    /** The bar's percent. */
    function Percent(parse: string -> Option<real>): (r: real)
      reads this
      ensures r <= 100.0
      ensures state.progress.None? ==> r == 0.0
      ensures r == ProgressPercent(state.progress, parse)
    {
      ProgressPercent(state.progress, parse)
    }

    /** The name "Save Video" passes to `downloadFile`, when there is a result. */
    function SaveNameNow(): (r: Option<string>)
      reads this
      ensures r.Some? <==> state.result.Some?
      ensures r.Some? ==> EndsWith(r.value, ".mp4")
      ensures r.Some? ==> r.value == SaveName(site, state.result.value.title)
    {
      if state.result.Some? then Some(SaveName(site, state.result.value.title)) else None
    }
  }
}
