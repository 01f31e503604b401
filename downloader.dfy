/**
 * The stream downloader: resolving a talk page to media URLs, and the
 * ffmpeg invocations that fetch a stream's audio or video.
 *
 * Network fetches, the browser session and the ffmpeg processes are not
 * modelled; each enters as a parameter that carries what it produced
 * (the fetched page, the browser's findings, the playlist, exit codes).
 */
module Downloader {
  import opened Text
  import opened Optional
  import opened Patterns

  const DefaultUserAgent := "Mozilla/5.0 (Windows NT 10.0; Win64; x64) AppleWebKit/537.36"
  const DefaultReferer := "https://gdcvault.com/"

  /** The player host whose URLs carry the id in their query. */
  const PlayerHost := "gdcvault.blazestreaming.com"

  /** Python's `arg or default` for an optional string: None and "" both select the default. */
  function OrDefault(arg: Option<string>, default: string): string
  {
    if arg.Some? && arg.value != [] then arg.value else default
  }

  // ---------------------------------------------------------------------
  // GDC ids
  // ---------------------------------------------------------------------

  /** The query of a URL: after the first `?` and before any `#` fragment. */
  function QueryOf(url: string): string
  {
    AfterFirst(BeforeFirst(url, '#'), '?')
  }

  /** A query item that `parse_qs` records under `id`: it has an `=`, the name `id` and a non-empty value. */
  predicate IsIdItem(item: string)
  {
    '=' in item && BeforeFirst(item, '=') == "id" && AfterFirst(item, '=') != []
  }

  /** The first item, from `i` on, that supplies an `id`. */
  function FirstIdItem(items: seq<string>, i: nat): (r: Option<nat>)
    requires i <= |items|
    ensures r.Some? ==> i <= r.value < |items| && IsIdItem(items[r.value])
    ensures r.Some? ==> forall k :: i <= k < r.value ==> !IsIdItem(items[k])
    ensures r.None? ==> forall k :: i <= k < |items| ==> !IsIdItem(items[k])
    decreases |items| - i
  {
    if i == |items| then None
    else if IsIdItem(items[i]) then Some(i)
    else FirstIdItem(items, i + 1)
  }

  /** `parse_qs(query).get('id', [None])[0]`: the value of the first `id` item. */
  function QueryId(query: string): (r: Option<string>)
    ensures r.Some? ==> r.value != []
  {
    var items := Fields(query, '&');
    match FirstIdItem(items, 0)
    case None => None
    case Some(i) => Some(AfterFirst(items[i], '='))
  }

  /** `_extract_gdc_id`: the player URL's `id` query value, else the digits of `/play/<digits>/`. */
  function ExtractGdcId(url: string): (r: Option<string>)
    ensures r.Some? ==> r.value != []
  {
    if Contains(url, PlayerHost) then QueryId(QueryOf(url))
    else SearchDigits(url, "/play/")
  }

  /** A player URL yields the value of its first `id` item. */
  lemma GdcIdFromQuery(url: string, i: nat)
    requires Contains(url, PlayerHost)
    requires i < |Fields(QueryOf(url), '&')| && IsIdItem(Fields(QueryOf(url), '&')[i])
    requires forall k :: 0 <= k < i ==> !IsIdItem(Fields(QueryOf(url), '&')[k])
    ensures ExtractGdcId(url) == Some(AfterFirst(Fields(QueryOf(url), '&')[i], '='))
  {
    var r := FirstIdItem(Fields(QueryOf(url), '&'), 0);
    assert r.Some?;
    assert r.value == i;
  }

  /** A player URL without an `id` item yields nothing, whatever its path says. */
  lemma GdcIdMissingFromQuery(url: string)
    requires Contains(url, PlayerHost)
    requires forall k :: 0 <= k < |Fields(QueryOf(url), '&')| ==> !IsIdItem(Fields(QueryOf(url), '&')[k])
    ensures ExtractGdcId(url) == None
  {
    assert FirstIdItem(Fields(QueryOf(url), '&'), 0).None?;
  }

  /** Any other URL yields the digits of its leftmost `/play/<digits>/`. */
  lemma GdcIdFromPath(url: string, p: nat)
    requires !Contains(url, PlayerHost)
    requires DigitsMatchAt(url, "/play/", p)
    requires forall q: nat :: q < p ==> !DigitsMatchAt(url, "/play/", q)
    ensures ExtractGdcId(url) == Some(DigitsAt(url, "/play/", p))
  {
    SearchDigitsLeftmost(url, "/play/", p);
  }

  /** Any other URL without `/play/<digits>/` yields nothing. */
  lemma GdcIdMissingFromPath(url: string)
    requires !Contains(url, PlayerHost)
    requires forall q: nat :: !DigitsMatchAt(url, "/play/", q)
    ensures ExtractGdcId(url) == None
  {
    SearchDigitsNone(url, "/play/");
  }

  // ---------------------------------------------------------------------
  // Resolution by plain request
  // ---------------------------------------------------------------------

  /** The patterns tried on the player page, in priority order. */
  const RequestsPatterns: seq<Pattern> :=
    [BareUrl(".m3u8"), BareUrl(".mp4"), JsonUrl, Quoted("source:"), Quoted("playlist:")]

  /** The patterns scanned on a browser-rendered page. */
  const PagePatterns: seq<Pattern> :=
    RequestsPatterns
    + [Assigned("PLAYBACK_URL"), Assigned("playbackUrl"), Assigned("videoUrl"), Assigned("streamUrl")]

  function PlayerUrl(id: string): string
  {
    "https://gdcvault.blazestreaming.com/?id=" + id
  }

  /** The URLs found, and the player page requested (None when nothing was requested). */
  datatype RequestsResult = RequestsResult(urls: seq<string>, requested: Option<string>)

  /**
   * `_get_urls_with_requests`. `response` is the text of the player page,
   * or None when the request raised or returned an error status.
   */
  function RequestsSpec(url: string, response: Option<string>): RequestsResult
  {
    match ExtractGdcId(url)
    case None => RequestsResult([], None)
    case Some(id) =>
      match response
      case None => RequestsResult([], Some(PlayerUrl(id)))
      case Some(page) => RequestsResult(FirstHit(page, RequestsPatterns), Some(PlayerUrl(id)))
  }

  /** Without an id nothing is requested and nothing is found. */
  lemma RequestsWithoutId(url: string, response: Option<string>)
    requires ExtractGdcId(url).None?
    ensures RequestsSpec(url, response) == RequestsResult([], None)
  {
  }

  /**
   * With an id and a page, pattern `i` decides when it is the first to match:
   * the result is all of its matches, in page order.
   */
  lemma RequestsPriority(url: string, page: string, i: nat)
    requires ExtractGdcId(url).Some?
    requires i < |RequestsPatterns| && FindAll(page, RequestsPatterns[i]) != []
    requires forall k :: 0 <= k < i ==> FindAll(page, RequestsPatterns[k]) == []
    ensures RequestsSpec(url, Some(page)).urls == FindAll(page, RequestsPatterns[i])
  {
    FirstHitPriority(page, RequestsPatterns, i);
  }

  /** Every URL the plain request finds ends in `.m3u8` or `.mp4`. */
  lemma RequestsFindMedia(url: string, response: Option<string>)
    ensures forall u :: u in RequestsSpec(url, response).urls ==> IsMediaUrl(u)
  {
    if ExtractGdcId(url).Some? && response.Some? {
      var page := response.value;
      var r := FirstMatchingFrom(page, RequestsPatterns, 0);
      if r.Some? {
        assert EndsInExtension(RequestsPatterns[r.value]);
        FindFromIsMedia(page, RequestsPatterns[r.value], 0);
      }
    }
  }

  // ---------------------------------------------------------------------
  // Resolution in a browser
  // ---------------------------------------------------------------------

  /** What the browser session produced. */
  datatype BrowserOutcome =
    | FrameHit(urls: seq<string>)  // a player variable, <video> source or video.js source list inside an iframe
    | MainPage(source: string)     // nothing inside the iframes: the main page's source, to be scanned
    | BrowserFailed                // the session raised

  /** The candidates the page scan keeps. */
  predicate IsMediaCandidate(u: string)
  {
    Contains(u, ".m3u8") || Contains(u, ".mp4")
  }

  /** The media candidates of `us`, in order. */
  function MediaOnly(us: seq<string>): (r: seq<string>)
    ensures forall u :: u in r <==> u in us && IsMediaCandidate(u)
  {
    if us == [] then []
    else MediaOnly(us[..|us| - 1]) + (if IsMediaCandidate(us[|us| - 1]) then [us[|us| - 1]] else [])
  }

  /** The media candidates of every pattern's matches, pattern by pattern. */
  function PageCandidates(page: string, pats: seq<Pattern>): (r: seq<string>)
    ensures forall u :: u in r <==> IsMediaCandidate(u) && exists k :: 0 <= k < |pats| && u in FindAll(page, pats[k])
  {
    if pats == [] then []
    else
      var init := pats[..|pats| - 1];
      var r := PageCandidates(page, init) + MediaOnly(FindAll(page, pats[|pats| - 1]));
      assert forall k :: 0 <= k < |init| ==> init[k] == pats[k];
      r
  }

  lemma MediaOnlyStep(us: seq<string>, j: nat)
    requires j < |us|
    ensures MediaOnly(us[..j + 1]) == MediaOnly(us[..j]) + (if IsMediaCandidate(us[j]) then [us[j]] else [])
  {
    assert us[..j + 1][..j] == us[..j];
  }

  lemma PageCandidatesStep(page: string, pats: seq<Pattern>, i: nat)
    requires i < |pats|
    ensures PageCandidates(page, pats[..i + 1]) == PageCandidates(page, pats[..i]) + MediaOnly(FindAll(page, pats[i]))
  {
    assert pats[..i + 1][..i] == pats[..i];
  }

  predicate NoDuplicates(s: seq<string>)
  {
    forall i, j :: 0 <= i < j < |s| ==> s[i] != s[j]
  }

  /** `list(set(xs))`. Python leaves the order open; this model keeps first occurrences. */
  function Distinct(xs: seq<string>): (r: seq<string>)
    ensures NoDuplicates(r)
    ensures forall x :: x in r <==> x in xs
  {
    if xs == [] then []
    else
      var r := Distinct(xs[..|xs| - 1]);
      if xs[|xs| - 1] in r then r else r + [xs[|xs| - 1]]
  }

  /** `_get_urls_with_selenium`, from the browser's outcome. */
  function SeleniumUrls(outcome: BrowserOutcome): seq<string>
  {
    match outcome
    case FrameHit(urls) => urls
    case MainPage(source) => Distinct(PageCandidates(source, PagePatterns))
    case BrowserFailed => []
  }

  // ---------------------------------------------------------------------
  // Selection of the resolution steps
  // ---------------------------------------------------------------------

  predicate RunsRequests(mode: string) { mode == "requests" || mode == "both" }
  predicate RunsSelenium(mode: string) { mode == "selenium" || mode == "both" }

  /** The browser step runs only when its mode allows it and the request step found nothing. */
  predicate CallsSelenium(url: string, mode: string, response: Option<string>)
  {
    RunsSelenium(mode) && (!RunsRequests(mode) || RequestsSpec(url, response).urls == [])
  }

  /** The URLs collected before deduplication. */
  function FoundUrls(url: string, mode: string, response: Option<string>, browser: BrowserOutcome): seq<string>
  {
    var first := if RunsRequests(mode) then RequestsSpec(url, response).urls else [];
    if CallsSelenium(url, mode, response) then first + SeleniumUrls(browser) else first
  }

  /** `get_stream_urls`'s result. */
  function StreamUrls(url: string, mode: string, response: Option<string>, browser: BrowserOutcome): seq<string>
  {
    Distinct(FoundUrls(url, mode, response, browser))
  }

  /** What the browser would have found is irrelevant once the request step found something. */
  lemma BrowserIrrelevantAfterHit(url: string, mode: string, response: Option<string>, b1: BrowserOutcome, b2: BrowserOutcome)
    requires RunsRequests(mode) && RequestsSpec(url, response).urls != []
    ensures !CallsSelenium(url, mode, response)
    ensures StreamUrls(url, mode, response, b1) == StreamUrls(url, mode, response, b2)
  {
  }

  // ---------------------------------------------------------------------
  // ffmpeg commands
  // ---------------------------------------------------------------------

  /** `format.lower() == 'mp3'`; no character outside ASCII lower-cases to `m`, `p` or `3`. */
  predicate IsMp3(format: string)
  {
    |format| == 3 && (format[0] == 'm' || format[0] == 'M') && (format[1] == 'p' || format[1] == 'P') && format[2] == '3'
  }

  function HeaderBlock(referer: string, userAgent: string): string
  {
    "Referer: " + referer + "\r\nUser-Agent: " + userAgent + "\r\n"
  }

  function CodecArgs(format: string, quality: string): seq<string>
  {
    if IsMp3(format) then ["-c:a", "libmp3lame", "-q:a", quality] else ["-c:a", "aac", "-b:a", "192k"]
  }

  /** The direct download command of `_ffmpeg_download`. */
  function FfmpegCommand(referer: string, userAgent: string, url: string, output: string, format: string, quality: string): seq<string>
  {
    ["ffmpeg", "-headers", HeaderBlock(referer, userAgent), "-i", url, "-vn"] + CodecArgs(format, quality) + ["-y", output]
  }

  /** The command's fixed head and tail, and the codec choice between them. */
  lemma FfmpegCommandShape(referer: string, userAgent: string, url: string, output: string, format: string, quality: string)
    ensures var cmd := FfmpegCommand(referer, userAgent, url, output, format, quality);
      && |cmd| == 12
      && cmd[..6] == ["ffmpeg", "-headers", "Referer: " + referer + "\r\nUser-Agent: " + userAgent + "\r\n", "-i", url, "-vn"]
      && cmd[10..] == ["-y", output]
      && (IsMp3(format) ==> cmd[6..10] == ["-c:a", "libmp3lame", "-q:a", quality])
      && (!IsMp3(format) ==> cmd[6..10] == ["-c:a", "aac", "-b:a", "192k"])
  {
    var cmd := FfmpegCommand(referer, userAgent, url, output, format, quality);
    assert cmd[6..10] == CodecArgs(format, quality);
  }

  /** How a spawned ffmpeg process went. */
  datatype FfmpegRun = FfmpegRun(
    started: bool,          // the process could be spawned
    progressReadable: bool, // its `Duration:` and `time=` lines parsed
    exitCode: int)

  predicate FfmpegSucceeded(run: FfmpegRun)
  {
    run.started && run.progressReadable && run.exitCode == 0
  }

  /** The concatenation command, with the conditional on its quality argument as written. */
  function ConcatCommand(listFile: string, format: string, quality: string, output: string): seq<string>
  {
    ["ffmpeg", "-f", "concat", "-safe", "0", "-i", listFile,
     "-c:a", if IsMp3(format) then "libmp3lame" else "aac",
     "-q:a", if IsMp3(format) then quality else "-b:a", "192k",
     "-y", output]
  }

  /**
   * The conditional after `-q:a` picks a single element, so `192k` always
   * follows it: `-q:a <quality> 192k` for mp3 and `-q:a -b:a 192k` otherwise.
   */
  lemma ConcatQualityAsWritten(listFile: string, format: string, quality: string, output: string)
    ensures var cmd := ConcatCommand(listFile, format, quality, output);
      && |cmd| == 14 && cmd[..7] == ["ffmpeg", "-f", "concat", "-safe", "0", "-i", listFile]
      && cmd[12..] == ["-y", output]
      && (IsMp3(format) ==> cmd[7..12] == ["-c:a", "libmp3lame", "-q:a", quality, "192k"])
      && (!IsMp3(format) ==> cmd[7..12] == ["-c:a", "aac", "-q:a", "-b:a", "192k"])
  {
  }

  // ---------------------------------------------------------------------
  // Segment download
  // ---------------------------------------------------------------------

  /** A playlist entry: its URI when the playlist gives it as a string, and whether fetching and writing it completed. */
  datatype PlaylistSegment = PlaylistSegment(uri: Option<string>, fetched: bool)

  predicate StrictlyIncreasing(s: seq<nat>)
  {
    forall i, j :: 0 <= i < j < |s| ==> s[i] < s[j]
  }

  /** The indices of the segments that have a URI, in order. */
  function UriIndices(segs: seq<PlaylistSegment>): (r: seq<nat>)
    ensures StrictlyIncreasing(r)
    ensures forall k :: 0 <= k < |r| ==> r[k] < |segs| && segs[r[k]].uri.Some?
    ensures forall i :: 0 <= i < |segs| && segs[i].uri.Some? ==> i in r
  {
    if segs == [] then []
    else
      var init := segs[..|segs| - 1];
      var r := UriIndices(init);
      assert forall k :: 0 <= k < |r| ==> r[k] < |init|;
      r + (if segs[|segs| - 1].uri.Some? then [|segs| - 1] else [])
  }

  function SegmentPath(dir: string, i: nat): string
  {
    PathJoin(dir, "seg_" + NatToString(i) + ".ts")
  }

  /** The files written for the segments, one per segment with a URI, in order. */
  function SegmentFiles(dir: string, segs: seq<PlaylistSegment>): seq<string>
  {
    if segs == [] then []
    else
      SegmentFiles(dir, segs[..|segs| - 1])
      + (if segs[|segs| - 1].uri.Some? then [SegmentPath(dir, |segs| - 1)] else [])
  }

  /** Segment files are named by the original index of their segment. */
  lemma {:induction false} SegmentFilesNamed(dir: string, segs: seq<PlaylistSegment>)
    ensures |SegmentFiles(dir, segs)| == |UriIndices(segs)|
    ensures forall k :: 0 <= k < |UriIndices(segs)| ==> SegmentFiles(dir, segs)[k] == SegmentPath(dir, UriIndices(segs)[k])
  {
    if segs != [] {
      SegmentFilesNamed(dir, segs[..|segs| - 1]);
    }
  }

  /** No segment file exists exactly when no segment has a URI. */
  lemma {:induction false} SegmentFilesEmpty(dir: string, segs: seq<PlaylistSegment>)
    ensures SegmentFiles(dir, segs) == [] <==> forall i :: 0 <= i < |segs| ==> segs[i].uri.None?
  {
    SegmentFilesNamed(dir, segs);
    if SegmentFiles(dir, segs) != [] {
      var i := UriIndices(segs)[0];
      assert segs[i].uri.Some?;
    }
  }

  /** Every segment with a URI was fetched and written. */
  predicate AllFetched(segs: seq<PlaylistSegment>)
  {
    forall i :: 0 <= i < |segs| && segs[i].uri.Some? ==> segs[i].fetched
  }

  function ConcatLine(path: string): string
  {
    "file '" + path + "'"
  }

  /** The concat list: one `file '<path>'` line per segment file. */
  function ConcatList(files: seq<string>): string
  {
    if files == [] then [] else ConcatList(files[..|files| - 1]) + ConcatLine(files[|files| - 1]) + "\n"
  }

  function ConcatLines(files: seq<string>): (r: seq<string>)
    ensures |r| == |files|
    ensures forall k :: 0 <= k < |files| ==> r[k] == ConcatLine(files[k])
  {
    if files == [] then [] else ConcatLines(files[..|files| - 1]) + [ConcatLine(files[|files| - 1])]
  }

  /** Appending a character other than the separator extends the last field. */
  lemma FieldsSnoc(s: string, c: char, sep: char)
    requires c != sep
    ensures var f := Fields(s, sep);
      Fields(s + [c], sep) == f[..|f| - 1] + [f[|f| - 1] + [c]]
  {
    assert (s + [c])[..|s + [c]| - 1] == s;
  }

  /** Appending the separator starts a new, empty field. */
  lemma FieldsSep(s: string, sep: char)
    ensures Fields(s + [sep], sep) == Fields(s, sep) + [[]]
  {
    assert (s + [sep])[..|s + [sep]| - 1] == s;
  }

  lemma SplitLast(t: string)
    requires t != []
    ensures t == t[..|t| - 1] + [t[|t| - 1]]
  {
  }

  /** Extending a string by a piece without separators extends its last field. */
  lemma {:induction false} FieldsExtend(s: string, t: string, sep: char)
    requires sep !in t
    ensures var f := Fields(s, sep);
      Fields(s + t, sep) == f[..|f| - 1] + [f[|f| - 1] + t]
    decreases |t|
  {
    var f := Fields(s, sep);
    if t == [] {
      assert s + t == s;
      assert f[|f| - 1] + t == f[|f| - 1];
    } else {
      var u := t[..|t| - 1];
      var c := t[|t| - 1];
      SplitLast(t);
      assert sep !in u;
      FieldsExtend(s, u, sep);
      FieldsExtendStep(s, u, c, sep);
    }
  }

  lemma FieldsExtendStep(s: string, u: string, c: char, sep: char)
    requires c != sep
    requires var f := Fields(s, sep);
      Fields(s + u, sep) == f[..|f| - 1] + [f[|f| - 1] + u]
    ensures var f := Fields(s, sep);
      Fields(s + (u + [c]), sep) == f[..|f| - 1] + [f[|f| - 1] + (u + [c])]
  {
    var f := Fields(s, sep);
    var h := f[..|f| - 1];
    var last := f[|f| - 1] + u;
    var g := Fields(s + u, sep);
    assert g[..|g| - 1] == h && g[|g| - 1] == last;
    AppendAssoc(s, u, [c]);
    AppendAssoc(f[|f| - 1], u, [c]);
    FieldsSnoc(s + u, c, sep);
    calc {
      Fields(s + (u + [c]), sep);
      Fields((s + u) + [c], sep);
      h + [last + [c]];
      h + [f[|f| - 1] + (u + [c])];
    }
  }

  /** Reading the concat list back line by line gives the lines for the files, in order. */
  lemma {:induction false} ConcatListLines(files: seq<string>)
    requires forall k :: 0 <= k < |files| ==> '\n' !in files[k]
    ensures Fields(ConcatList(files), '\n') == ConcatLines(files) + [[]]
  {
    if files != [] {
      var init := files[..|files| - 1];
      var last := files[|files| - 1];
      ConcatListLines(init);
      var c := ConcatList(init);
      var line := ConcatLine(last);
      assert '\n' !in line;
      FieldsExtend(c, line, '\n');
      FieldsSep(c + line, '\n');
      var f := Fields(c, '\n');
      assert f[..|f| - 1] == ConcatLines(init);
      assert f[|f| - 1] == [];
      assert f[|f| - 1] + line == line;
      assert ConcatList(files) == (c + line) + ['\n'];
      calc {
        Fields(ConcatList(files), '\n');
        Fields(c + line, '\n') + [[]];
        (ConcatLines(init) + [line]) + [[]];
        ConcatLines(files) + [[]];
      }
    }
  }

  /** What `download_audio` did: success, the segment files concatenated, the list written and the commands run. */
  datatype AudioRun = AudioRun(ok: bool, files: seq<string>, listing: string, commands: seq<seq<string>>)

  /**
   * `download_audio`. `playlist` is the loaded playlist's segments, or None
   * when loading raised; `direct` is the direct ffmpeg run used for an empty
   * playlist; `concatExit` is the concatenation run's exit code.
   */
  function AudioSpec(referer: string, userAgent: string, url: string, output: string, format: string, quality: string,
                     playlist: Option<seq<PlaylistSegment>>, tempDir: string, direct: FfmpegRun, concatExit: int): AudioRun
  {
    match playlist
    case None => AudioRun(false, [], [], [])
    case Some(segs) =>
      if segs == [] then
        AudioRun(FfmpegSucceeded(direct), [], [], [FfmpegCommand(referer, userAgent, url, output, format, quality)])
      else if !AllFetched(segs) then AudioRun(false, [], [], [])
      else
        var files := SegmentFiles(tempDir, segs);
        if files == [] then AudioRun(false, [], [], [])
        else
          AudioRun(concatExit == 0, files, ConcatList(files),
                   [ConcatCommand(PathJoin(tempDir, "concat.txt"), format, quality, output)])
  }

  /** An empty playlist hands the whole stream to the direct ffmpeg download. */
  lemma EmptyPlaylistDelegates(referer: string, userAgent: string, url: string, output: string, format: string, quality: string,
                               tempDir: string, direct: FfmpegRun, concatExit: int)
    ensures var a := AudioSpec(referer, userAgent, url, output, format, quality, Some([]), tempDir, direct, concatExit);
      a.commands == [FfmpegCommand(referer, userAgent, url, output, format, quality)]
      && (a.ok <==> FfmpegSucceeded(direct))
  {
  }

  /** Segments without URIs produce no files, and with no files at all the download fails without running anything. */
  lemma NoUriFails(referer: string, userAgent: string, url: string, output: string, format: string, quality: string,
                   segs: seq<PlaylistSegment>, tempDir: string, direct: FfmpegRun, concatExit: int)
    requires segs != [] && forall i :: 0 <= i < |segs| ==> segs[i].uri.None?
    ensures AudioSpec(referer, userAgent, url, output, format, quality, Some(segs), tempDir, direct, concatExit)
      == AudioRun(false, [], [], [])
  {
    SegmentFilesEmpty(tempDir, segs);
  }

  /** A successful segment download concatenated exactly the files named after the segments with URIs, in order. */
  lemma AudioFilesNamed(referer: string, userAgent: string, url: string, output: string, format: string, quality: string,
                        playlist: Option<seq<PlaylistSegment>>, tempDir: string, direct: FfmpegRun, concatExit: int)
    requires playlist.Some? && playlist.value != []
    ensures var a := AudioSpec(referer, userAgent, url, output, format, quality, playlist, tempDir, direct, concatExit);
      var idx := UriIndices(playlist.value);
      a.ok ==> |a.files| == |idx| && forall k :: 0 <= k < |idx| ==> a.files[k] == SegmentPath(tempDir, idx[k])
  {
    SegmentFilesNamed(tempDir, playlist.value);
  }

  // ---------------------------------------------------------------------
  // The downloader object
  // ---------------------------------------------------------------------

  class M3U8Downloader {
    const userAgent: string
    const referer: string
    const headers: map<string, string>

    /** The request headers are the user agent and the referer. */
    predicate Valid()
    {
      headers == map["User-Agent" := userAgent, "Referer" := referer]
    }

    constructor (userAgentArg: Option<string>, refererArg: Option<string>)
      ensures Valid()
      ensures userAgent == OrDefault(userAgentArg, DefaultUserAgent)
      ensures referer == OrDefault(refererArg, DefaultReferer)
    {
      userAgent := OrDefault(userAgentArg, DefaultUserAgent);
      referer := OrDefault(refererArg, DefaultReferer);
      headers := map["User-Agent" := OrDefault(userAgentArg, DefaultUserAgent),
                     "Referer" := OrDefault(refererArg, DefaultReferer)];
    }

    /** `_get_urls_with_requests`: patterns tried in order, the first with any match wins. */
    method GetUrlsWithRequests(url: string, response: Option<string>) returns (urls: seq<string>, requested: Option<string>)
      ensures RequestsResult(urls, requested) == RequestsSpec(url, response)
    {
      var id := ExtractGdcId(url);
      if id.None? {
        return [], None;
      }
      requested := Some(PlayerUrl(id.value));
      if response.None? {
        return [], requested;
      }
      var page := response.value;
      var i := 0;
      while i < |RequestsPatterns|
        invariant i <= |RequestsPatterns|
        invariant forall k :: 0 <= k < i ==> FindAll(page, RequestsPatterns[k]) == []
      {
        var found := FindAll(page, RequestsPatterns[i]);
        if found != [] {
          FirstHitPriority(page, RequestsPatterns, i);
          return found, requested;
        }
        i := i + 1;
      }
      FirstHitEmpty(page, RequestsPatterns);
      urls := [];
    }

    /** The scan of the main page: every pattern's media candidates, deduplicated. */
    method ScanPageSource(page: string) returns (urls: seq<string>)
      ensures urls == Distinct(PageCandidates(page, PagePatterns))
    {
      var all: seq<string> := [];
      for i := 0 to |PagePatterns|
        invariant all == PageCandidates(page, PagePatterns[..i])
      {
        var found := FindAll(page, PagePatterns[i]);
        ghost var before := all;
        for j := 0 to |found|
          invariant all == before + MediaOnly(found[..j])
        {
          MediaOnlyStep(found, j);
          if IsMediaCandidate(found[j]) {
            all := all + [found[j]];
          }
        }
        assert found[..|found|] == found;
        PageCandidatesStep(page, PagePatterns, i);
      }
      assert PagePatterns[..|PagePatterns|] == PagePatterns;
      if all != [] {
        urls := Distinct(all);
      } else {
        urls := [];
      }
    }

    /** `_get_urls_with_selenium`, given what the browser session produced. */
    method GetUrlsWithSelenium(outcome: BrowserOutcome) returns (urls: seq<string>)
      ensures urls == SeleniumUrls(outcome)
    {
      match outcome
      case FrameHit(found) =>
        urls := found;
      case MainPage(source) =>
        urls := ScanPageSource(source);
      case BrowserFailed =>
        urls := [];
    }

    /** `get_stream_urls`: the request step, the browser step only when that found nothing, then deduplication. */
    method GetStreamUrls(url: string, mode: string, response: Option<string>, browser: BrowserOutcome)
      returns (urls: seq<string>, seleniumCalled: bool)
      ensures seleniumCalled <==> CallsSelenium(url, mode, response)
      ensures urls == StreamUrls(url, mode, response, browser)
      ensures NoDuplicates(urls)
      ensures forall u :: u in urls <==> u in FoundUrls(url, mode, response, browser)
    {
      var found: seq<string> := [];
      if mode == "requests" || mode == "both" {
        var fromRequests, _ := GetUrlsWithRequests(url, response);
        found := found + fromRequests;
      }
      assert found == if RunsRequests(mode) then RequestsSpec(url, response).urls else [];
      seleniumCalled := false;
      if (mode == "selenium" || mode == "both") && found == [] {
        seleniumCalled := true;
        var fromBrowser := GetUrlsWithSelenium(browser);
        found := found + fromBrowser;
      }
      assert found == FoundUrls(url, mode, response, browser);
      urls := Distinct(found);
    }

    /** `_ffmpeg_download`'s command, built as the source builds it. */
    method BuildFfmpegCommand(url: string, output: string, format: string, quality: string) returns (cmd: seq<string>)
      requires Valid()
      ensures cmd == FfmpegCommand(referer, userAgent, url, output, format, quality)
    {
      cmd := ["ffmpeg", "-headers", "Referer: " + headers["Referer"] + "\r\nUser-Agent: " + headers["User-Agent"] + "\r\n",
              "-i", url, "-vn"];
      if IsMp3(format) {
        cmd := cmd + ["-c:a", "libmp3lame", "-q:a", quality];
      } else {
        cmd := cmd + ["-c:a", "aac", "-b:a", "192k"];
      }
      cmd := cmd + ["-y", output];
    }

    /** `_ffmpeg_download`: the command run, and success exactly when the run exits with 0. */
    method FfmpegDownload(url: string, output: string, format: string, quality: string, run: FfmpegRun)
      returns (ok: bool, cmd: seq<string>)
      requires Valid()
      ensures cmd == FfmpegCommand(referer, userAgent, url, output, format, quality)
      ensures ok <==> FfmpegSucceeded(run)
    {
      cmd := BuildFfmpegCommand(url, output, format, quality);
      ok := run.started && run.progressReadable && run.exitCode == 0;
    }

    /** `download_video`: the direct download with format `mp4` and quality 4. */
    method DownloadVideo(url: string, output: string, run: FfmpegRun) returns (ok: bool, cmd: seq<string>)
      requires Valid()
      ensures cmd == FfmpegCommand(referer, userAgent, url, output, "mp4", "4")
      ensures ok <==> FfmpegSucceeded(run)
    {
      ok, cmd := FfmpegDownload(url, output, "mp4", "4", run);
    }

    /** `download_audio`: the segment loop, the concat list and the concatenation run. */
    method DownloadAudio(url: string, output: string, format: string, quality: string,
                         playlist: Option<seq<PlaylistSegment>>, tempDir: string, direct: FfmpegRun, concatExit: int)
      returns (run: AudioRun)
      requires Valid()
      ensures run == AudioSpec(referer, userAgent, url, output, format, quality, playlist, tempDir, direct, concatExit)
    {
      if playlist.None? {
        return AudioRun(false, [], [], []);
      }
      var segs := playlist.value;
      if segs == [] {
        var ok, cmd := FfmpegDownload(url, output, format, quality, direct);
        return AudioRun(ok, [], [], [cmd]);
      }
      var files: seq<string> := [];
      for i := 0 to |segs|
        invariant files == SegmentFiles(tempDir, segs[..i])
        invariant forall k :: 0 <= k < i && segs[k].uri.Some? ==> segs[k].fetched
      {
        assert segs[..i + 1][..i] == segs[..i];
        if segs[i].uri.Some? {
          if !segs[i].fetched {
            assert !AllFetched(segs);
            return AudioRun(false, [], [], []);
          }
          files := files + [SegmentPath(tempDir, i)];
        }
      }
      assert segs[..|segs|] == segs;
      if files == [] {
        return AudioRun(false, [], [], []);
      }
      var listing := "";
      for k := 0 to |files|
        invariant listing == ConcatList(files[..k])
      {
        assert files[..k + 1][..k] == files[..k];
        listing := listing + "file '" + files[k] + "'\n";
      }
      assert files[..|files|] == files;
      var cmd := ConcatCommand(PathJoin(tempDir, "concat.txt"), format, quality, output);
      run := AudioRun(concatExit == 0, files, listing, [cmd]);
    }
  }

  // ---------------------------------------------------------------------
  // Command line
  // ---------------------------------------------------------------------

  /** The argument values the parser accepts. */
  predicate ValidArguments(mode: string, kind: string, format: string)
  {
    mode in ["requests", "selenium", "both"] && kind in ["video", "audio"] && format in ["mp3", "aac"]
  }

  /**
   * `main`: exit status 2 for arguments the parser rejects, otherwise the
   * outcome of `MainDownload` on the URLs found. The second component is
   * the URL handed to the download.
   */
  function MainSpec(url: string, output: string, mode: string, kind: string, format: string, quality: int,
                    response: Option<string>, browser: BrowserOutcome,
                    playlist: Option<seq<PlaylistSegment>>, tempDir: string, direct: FfmpegRun, concatExit: int)
    : (int, Option<string>)
  {
    if !ValidArguments(mode, kind, format) then (2, None)
    else MainDownload(StreamUrls(url, mode, response, browser), output, kind, format, IntToString(quality),
                      playlist, tempDir, direct, concatExit)
  }

  /** The rest of `main`: 1 when no URL was found, otherwise the download of the last one decides between 0 and 1. */
  function MainDownload(urls: seq<string>, output: string, kind: string, format: string, quality: string,
                        playlist: Option<seq<PlaylistSegment>>, tempDir: string, direct: FfmpegRun, concatExit: int)
    : (int, Option<string>)
  {
    if urls == [] then (1, None)
    else
      var chosen := urls[|urls| - 1];
      var ok := if kind == "audio"
        then AudioSpec(DefaultReferer, DefaultUserAgent, chosen, output, format, quality,
                       playlist, tempDir, direct, concatExit).ok
        else FfmpegSucceeded(direct);
      (if ok then 0 else 1, Some(chosen))
  }

  /** The exit statuses of `main` and the URL it downloads. */
  lemma MainOutcome(url: string, output: string, mode: string, kind: string, format: string, quality: int,
                    response: Option<string>, browser: BrowserOutcome,
                    playlist: Option<seq<PlaylistSegment>>, tempDir: string, direct: FfmpegRun, concatExit: int)
    ensures var (exitCode, stream) := MainSpec(url, output, mode, kind, format, quality, response, browser,
                                                playlist, tempDir, direct, concatExit);
      && (!ValidArguments(mode, kind, format) ==> exitCode == 2 && stream.None?)
      && (ValidArguments(mode, kind, format) ==>
            var urls := StreamUrls(url, mode, response, browser);
            && (urls == [] ==> exitCode == 1 && stream.None?)
            && (urls != [] ==> stream == Some(urls[|urls| - 1]) && stream.value in FoundUrls(url, mode, response, browser))
            && (urls != [] && kind == "audio" ==>
                  (exitCode == 0 <==> AudioSpec(DefaultReferer, DefaultUserAgent, stream.value, output, format, IntToString(quality),
                                                playlist, tempDir, direct, concatExit).ok))
            && (urls != [] && kind == "video" ==> (exitCode == 0 <==> FfmpegSucceeded(direct)))
            && (exitCode == 0 || exitCode == 1))
  {
    var urls := StreamUrls(url, mode, response, browser);
    if ValidArguments(mode, kind, format) && urls != [] {
      assert urls[|urls| - 1] in urls;
    }
  }

  /** `main`, run as a method against `MainSpec`. */
  method CommandLine(url: string, output: string, mode: string, kind: string, format: string, quality: int,
                     response: Option<string>, browser: BrowserOutcome,
                     playlist: Option<seq<PlaylistSegment>>, tempDir: string, direct: FfmpegRun, concatExit: int)
    returns (exitCode: int, stream: Option<string>)
    ensures (exitCode, stream) == MainSpec(url, output, mode, kind, format, quality, response, browser,
                                           playlist, tempDir, direct, concatExit)
  {
    if !ValidArguments(mode, kind, format) {
      return 2, None;
    }
    var downloader := new M3U8Downloader(None, None);
    var urls, _ := downloader.GetStreamUrls(url, mode, response, browser);
    if urls == [] {
      return 1, None;
    }
    exitCode, stream := DownloadLast(downloader, urls, output, kind, format, IntToString(quality),
                                     playlist, tempDir, direct, concatExit);
  }

  /** The download step of `main`, on the last URL found. */
  method DownloadLast(downloader: M3U8Downloader, urls: seq<string>, output: string, kind: string, format: string,
                      quality: string, playlist: Option<seq<PlaylistSegment>>, tempDir: string,
                      direct: FfmpegRun, concatExit: int)
    returns (exitCode: int, stream: Option<string>)
    requires downloader.Valid()
    requires downloader.referer == DefaultReferer && downloader.userAgent == DefaultUserAgent
    requires urls != []
    ensures (exitCode, stream) == MainDownload(urls, output, kind, format, quality, playlist, tempDir, direct, concatExit)
  {
    var chosen := urls[|urls| - 1];
    stream := Some(chosen);
    var ok: bool;
    if kind == "audio" {
      var run := downloader.DownloadAudio(chosen, output, format, quality, playlist, tempDir, direct, concatExit);
      ok := run.ok;
    } else {
      var cmd;
      ok, cmd := downloader.DownloadVideo(chosen, output, direct);
    }
    exitCode := if ok then 0 else 1;
  }
}
