# video2sum, modelled in Dafny

video2sum turns a video into a Markdown study note. The input is a local file, a YouTube-style URL or a GDC Vault page. `VideoProcessor` in `app/video_to_summary.py` does the work:

- it names the video and probes its duration;
- it extracts or downloads the audio, and transcribes it with Whisper into an SRT subtitle file;
- it checks the audio length and the subtitle coverage against the duration;
- it asks Gemini for a summary of the transcript and cleans the answer into a `.md` file;
- it relocates the subtitles and deletes the temporary audio.

GDC Vault streams are fetched by `app/m3u8_downloader.py`:

- it finds the stream URL in the player page, either by a plain request or, as a fallback, in a browser;
- it downloads the HLS (m3u8) playlist's segments and concatenates them with ffmpeg.

The model keeps the logic between the external tools and replaces every tool with its answer, given as a parameter. The tools are yt-dlp, ffprobe, ffmpeg, Whisper, Gemini, Selenium, HTTP requests and the clock. The file system is a `map` from path to contents.

Modules, one per file:

- `Text`: Python string operations on `seq<char>`. This covers `strip`, `\s` as `str.isspace`, `split`, `replace`, path joining and decimal rendering.
- `Timestamp`: `_format_timestamp` on non-negative integer milliseconds. It also holds the `HH:MM:SS` parse of `verify_srt`, and the proof that parsing a formatted time gives back its whole seconds.
- `Durations`: the audio tolerance (±2 s, on microseconds) and the subtitle coverage rule (at least 95 % of the original, and less than 120 s off). Both are in exact integer arithmetic.
- `Srt`: the subtitle file that `transcribe_audio` writes (`WriteSrt`, an imperative loop, proved against `Document`). It also holds the `findall` of `verify_srt`, and the header-stripping `re.sub` that turns the file into the transcript for the prompt. The main results concern a file just written. If every segment renders with two-digit hours and no text holds `>`, the check on that file judges exactly the last segment's end. If every segment renders and no text holds a line break, the transcript of that file is exactly the segments' texts.
- `Titles`: the choice of the raw title and the three cleaning substitutions of `_get_video_title`, with the `default_video_title` fallback. It also holds `is_url`.
- `Patterns`: the stream-URL regular expressions of the downloader, hand-coded with their lazy and greedy semantics, and the first-pattern-wins rule.
- `Downloader`: the class `M3U8Downloader` and its methods: id extraction, URL resolution, segment files and concat list, ffmpeg commands. It also holds `main`.
- `Pipeline`: file names, the duration retry loop, prompt preparation and fence removal, and the subtitle relocation. It holds the class `VideoProcessor`, whose `Run` is proved to produce exactly the stage trace and file map of the specification `RunSpec`. The lemmas about `RunWith` state the sequencing rules of `run`. The run follows the code as written, including the subtitle relocation described under "## Findings".

Some members model a source function directly but carry no contract of their own. Their properties are the lemmas and methods about them, listed in "## Model":

- `Timestamp.Format` is `_format_timestamp` (app/video_to_summary.py:489-495). See `FormatShape`, `FormatParseRoundTrip` and `FormatExample`.
- `Durations.AudioDurationOk` is the comparison of `verify_audio_duration` (app/video_to_summary.py:401-407). See `AudioTolerance`.
- `Durations.SrtCoverageOk` is the duration rule of `verify_srt` (app/video_to_summary.py:466-470). See `SrtCoverageBand` and `SrtCoverageExamples`.
- `Srt.Transcript` is the transcript preparation of `summarize_srt` (app/video_to_summary.py:507-509). See `TranscriptOfDocument`.
- `Titles.IsUrl` is `is_url` (app/video_to_summary.py:651-652). See `UrlIsNoLocalPath` and `UrlExamples`.
- `Pipeline.VideoDuration` is `get_video_duration` (app/video_to_summary.py:302-333). See `ProbeFrom`, `FirstPrintedWins`, `AllProbesFail` and the method `GetVideoDuration`.
- `Pipeline.RunSpec` is `run` (app/video_to_summary.py:618-649), through `RunWith`, `AfterAudio` and `AfterTranscript`. See the `Run…` lemmas and the method `Run`.
- `Downloader.StreamUrls` is `get_stream_urls` (app/m3u8_downloader.py:213-227). See `BrowserIrrelevantAfterHit` and the method `GetStreamUrls`.
- `Downloader.AudioSpec` is the stream downloader's `download_audio` (app/m3u8_downloader.py:229-271). See `EmptyPlaylistDelegates`, `NoUriFails`, `AudioFilesNamed` and the method `DownloadAudio`.
- `Downloader.MainSpec` is `main` (app/m3u8_downloader.py:326-367). See `MainOutcome` and the method `CommandLine`.

## Model

| member | source | states |
|---|---|---|
| Text.TrimLeft | app/video_to_summary.py:589 | the greedy leading `\s*`: the result is a suffix of the input that does not start with white space |
| Text.TrimRight | app/video_to_summary.py:590 | the greedy trailing `\s*`: the result is a prefix of the input that does not end with white space |
| Text.ReplaceChar | app/video_to_summary.py:509 | `str.replace` of one character: same length, every occurrence replaced, every other character kept |
| Text.PathJoin | app/video_to_summary.py:250-253 | `Path /`: the joined path ends with the added part and, for a relative part, starts with the directory |
| Text.LastField | app/video_to_summary.py:270 | `split('/')[-1]`: the longest suffix without the separator, preceded by a separator when shorter than the input |
| Text.ZeroPad | app/video_to_summary.py:495 | the `:02d`/`:03d` padding: the digits keep their place at the end and only zeros are added in front, up to the width |
| Text.NatToString | app/video_to_summary.py:602 | decimal rendering: non-empty, digits only, one digit exactly below 10 |
| Text.NatToStringValue | app/video_to_summary.py:602 | decimal rendering is inverted by reading the digits back |
| Text.IntToString | app/m3u8_downloader.py:259 | `str(int)`: non-empty, with a leading `-` exactly for negative numbers |
| Text.DigitRun | app/video_to_summary.py:451 | `\d+` at the start: the longest run of digits |
| Timestamp.Decompose | app/video_to_summary.py:489-495 | minutes and seconds below 60, milliseconds below 1000; `h*3600+m*60+s` is the whole seconds and the parts add up to the input |
| Timestamp.ParseSeconds | app/video_to_summary.py:459-464 | `re.match(r'(\d{2}):(\d{2}):(\d{2})')` succeeds exactly when the text starts with two digits, colon, two digits, colon, two digits |
| Timestamp.RenderShape | app/video_to_summary.py:495 | fields in range render as a `\d{2}:\d{2}:\d{2},\d{3}` timestamp |
| Timestamp.RenderParse | app/video_to_summary.py:459-464 | parsing a rendered time gives `h*3600+m*60+s` |
| Timestamp.HoursBelowHundred | app/video_to_summary.py:491 | times under 100 hours have two-digit hours |
| Timestamp.FormatShape | app/video_to_summary.py:489-495 | every time under 100 hours formats as a timestamp that `verify_srt` recognises |
| Timestamp.FormatParseRoundTrip | app/video_to_summary.py:459-464 | formatting a time under 100 hours and parsing it back gives its whole seconds, the milliseconds dropped |
| Timestamp.FormatExample | app/video_to_summary.py:489-495 | 3725.25 s formats as `01:02:05,250` |
| Durations.AudioTolerance | app/video_to_summary.py:401-407 | the audio check passes exactly within 2 s of the original, both bounds inclusive; 2.01 s off fails on either side |
| Durations.SrtCoverageBand | app/video_to_summary.py:466-470 | both conditions are required: at least 95 % coverage and less than 120 s difference; up to 2380 s the 95 % bound is the binding one, above it the 120 s bound |
| Durations.SrtCoverageExamples | app/video_to_summary.py:467-468 | 96 of 100 passes, 94 of 100 fails, 889 of 1000 fails though within 120 s, an exact match passes |
| Srt.DocumentAppend | app/video_to_summary.py:430-435 | the file grows by one numbered block per segment |
| Srt.WriteSrt | app/video_to_summary.py:429-435 | the enumerate loop writes exactly `Document(segments)`, blocks numbered from 1 |
| Srt.EndTimestamps | app/video_to_summary.py:451-452 | every captured group of the `findall` is a timestamp |
| Srt.NoMatchIffNoArrow | app/video_to_summary.py:452-455 | the `findall` is empty exactly when the time-line pattern matches nowhere |
| Srt.VerifySrtRule | app/video_to_summary.py:451-462 | no match fails the check; otherwise the last match parses, so the check is decided by the duration rule |
| Srt.EndTimestampsConcat | app/video_to_summary.py:452 | matches cannot span a line break at a block boundary, so the `findall` of two concatenated blocks is the concatenation |
| Srt.NoArrowWithoutGreater | app/video_to_summary.py:451 | text without `>` holds no match |
| Srt.TimeLineIsArrow | app/video_to_summary.py:432-433 | the time line of a segment matches the pattern and captures the formatted end |
| Srt.BlockEndTimestamps | app/video_to_summary.py:430-435 | a block yields exactly one end timestamp, its own end |
| Srt.DocumentEndTimestamps | app/video_to_summary.py:429-452 | the `findall` over a written file yields the segments' end timestamps in order |
| Srt.VerifyByLastStamp | app/video_to_summary.py:457-473 | the check depends only on the last match: its whole seconds against the original duration |
| Srt.VerifySrt | app/video_to_summary.py:444-477 | `verify_srt`: a pass needs a file that could be read and that holds at least one time line |
| Srt.VerifyWrittenSrt | app/video_to_summary.py:444-473 | for segments that render with two-digit hours and hold no `>`, the check on a file just written is true exactly when there is a segment and the last end's whole seconds satisfy the coverage rule |
| Srt.StripHeadersConcat | app/video_to_summary.py:508 | the header removal works block by block |
| Srt.NoHeaderInText | app/video_to_summary.py:508 | a text line is not mistaken for a header |
| Srt.LayoutStripped | app/video_to_summary.py:508 | removing the header of a block leaves its text line and the blank line |
| Srt.BlockStripped | app/video_to_summary.py:508-509 | a written block is reduced to its stripped text and two line breaks |
| Srt.TranscriptStep | app/video_to_summary.py:508-509 | the transcript of a file grows by the text of each block and two spaces |
| Srt.TranscriptOfDocument | app/video_to_summary.py:507-509 | the transcript of a written file is exactly the segments' stripped texts, each followed by two spaces |
| Titles.PathName | app/video_to_summary.py:259 | `Path.name`: no `/` in it |
| Titles.Stem | app/video_to_summary.py:259 | `Path.stem`: a non-empty prefix of a non-empty name |
| Titles.PathStem | app/video_to_summary.py:259 | the stem of a path has no `/` |
| Titles.StemDropsSuffix | app/video_to_summary.py:259 | the stem drops exactly the last extension |
| Titles.LastFieldOfSuffix | app/video_to_summary.py:270 | the last `/` field is the part after the last separator |
| Titles.StemExample | app/video_to_summary.py:258-259 | `input/My Talk.mp4` is titled `My Talk` |
| Titles.RemovePunct | app/video_to_summary.py:289 | no quote, bracket, `、` or `：` is left; letters and digits are kept in order; punctuation-free input is unchanged |
| Titles.RemovePunctConcat | app/video_to_summary.py:289 | step 1 works character by character: it distributes over concatenation |
| Titles.RemovePunctChar | app/video_to_summary.py:289 | on one character, step 1 drops exactly the punctuation and keeps every other character; with `RemovePunctConcat` this makes it the filter of the non-punctuation characters, in order |
| Titles.CollapseSeparators | app/video_to_summary.py:291 | no white space or hyphen is left; letters and digits are kept in order |
| Titles.CollapsePlain | app/video_to_summary.py:291 | separator-free input is unchanged |
| Titles.CollapseWord | app/video_to_summary.py:291 | a word without separators passes through the substitution unchanged |
| Titles.CollapseRun | app/video_to_summary.py:291 | a maximal run of separators becomes one `_` |
| Titles.KeepTitleChars | app/video_to_summary.py:293 | only `[A-Za-z0-9_]` is left; letters and digits are kept in order; such input is unchanged; input without such characters gives the empty string |
| Titles.KeepTitleCharsConcat | app/video_to_summary.py:293 | step 3 works character by character: it distributes over concatenation |
| Titles.KeepTitleCharChar | app/video_to_summary.py:293 | on one character, step 3 keeps exactly `[A-Za-z0-9_]`, `_` included; with `KeepTitleCharsConcat` this makes it the filter of the title characters, in order |
| Titles.CleanTitle | app/video_to_summary.py:287-300 | the cleaned title is non-empty and made of `[A-Za-z0-9_]` only; a raw title with letters or digits keeps all of them in order |
| Titles.CleanKeepsTitle | app/video_to_summary.py:287-300 | a non-empty title of `[A-Za-z0-9_]` is left unchanged |
| Titles.CleanTitleDefault | app/video_to_summary.py:295-297 | a raw title made only of symbols outside `[A-Za-z0-9_]` that are not separators leaves nothing, and the title becomes `default_video_title` |
| Titles.CleanTwoWords | app/video_to_summary.py:287-300 | two ASCII words joined by a run of spaces or hyphens come out joined by one `_`, so `My Talk` becomes `My_Talk` |
| Titles.CleanIdempotent | app/video_to_summary.py:287-300 | cleaning twice is cleaning once |
| Titles.GdcRawTitle | app/video_to_summary.py:260-276 | a GDC Vault raw title is never empty |
| Titles.VideoTitle | app/video_to_summary.py:255-300 | the title is missing exactly for an online non-GDC input whose title probe failed; every non-local title is cleaned; no title contains `/` |
| Titles.GdcTitleFromId | app/video_to_summary.py:264-266 | a GDC URL whose leftmost `play/<digits>/` match has these digits is titled `gdcvault_<digits>` |
| Titles.GdcTitleWithoutId | app/video_to_summary.py:268-273 | without such a match the title is the cleaned last URL segment, or `m3u8_stream` when that segment is empty |
| Titles.UrlIsNoLocalPath | app/video_to_summary.py:651-652 | an http(s) address never starts with `/` or `input/`, the local-path prefixes |
| Titles.UrlExamples | app/video_to_summary.py:651-652 | the prefix test is exact and lower-case: `HTTPS://…`, `ftp://…` and `input/…` are not URLs; `https://host/v.mp4` is a URL and also counts as local input |
| Titles.LocalTitle | app/video_to_summary.py:258-259 | a local input is titled by its path stem, uncleaned, and the title probe is not consulted |
| Patterns.FirstDigitsMatch | app/video_to_summary.py:264 | `re.search`: the leftmost position of a `<lead>\d+/` match |
| Patterns.SearchDigits | app/video_to_summary.py:264 | a found group is a non-empty run of digits |
| Patterns.SearchDigitsNone | app/video_to_summary.py:264-265 | the search fails exactly when the pattern matches nowhere |
| Patterns.SearchDigitsLeftmost | app/video_to_summary.py:264-266 | the search reports the digits of the leftmost match |
| Patterns.LazyEnd | app/m3u8_downloader.py:62 | a lazy `+?` run stops at the first position where the rest of the pattern matches |
| Patterns.GreedyEnd | app/m3u8_downloader.py:182 | a greedy `+` run extends to the first character outside its class |
| Patterns.SpaceEnd | app/m3u8_downloader.py:65 | `\s*` consumes exactly the white space that follows |
| Patterns.UrlHead | app/m3u8_downloader.py:62 | `https?://` spans 7 or 8 characters from `http` |
| Patterns.MatchAt | app/m3u8_downloader.py:61-67 | a match at a position ends after it, within the text |
| Patterns.BareMatch | app/m3u8_downloader.py:62-63 | a bare URL match is the matched text itself, starting with `http` and ending with the extension |
| Patterns.JsonMatch | app/m3u8_downloader.py:64 | the captured JSON URL starts with `http` and ends with `.m3u8` |
| Patterns.QuotedMatch | app/m3u8_downloader.py:65-66 | the captured `source:`/`playlist:` value ends with `.m3u8` and contains no quote |
| Patterns.AssignedMatch | app/m3u8_downloader.py:182-185 | the captured assignment value is non-empty and contains no quote |
| Patterns.FindFromIsMedia | app/m3u8_downloader.py:62-66 | every match of an extension pattern ends in `.m3u8` or `.mp4` |
| Patterns.FirstMatchingFrom | app/m3u8_downloader.py:69-75 | the first pattern, in list order, with any match |
| Patterns.FirstHitPriority | app/m3u8_downloader.py:69-75 | when pattern `i` is the first with a match, the result is all of its matches in page order |
| Patterns.FirstHitEmpty | app/m3u8_downloader.py:69-80 | the result is empty exactly when no pattern matches |
| Downloader.FirstIdItem | app/m3u8_downloader.py:36 | the first `id=` item of the query |
| Downloader.QueryId | app/m3u8_downloader.py:35-36 | a found `id` value is non-empty, as `parse_qs` drops blank values |
| Downloader.ExtractGdcId | app/m3u8_downloader.py:31-41 | a found id is non-empty |
| Downloader.GdcIdFromQuery | app/m3u8_downloader.py:33-36 | on the player host, the value of the first `id` item of the query is the id |
| Downloader.GdcIdMissingFromQuery | app/m3u8_downloader.py:33-36 | on the player host without an `id` item there is no id, whatever the path holds |
| Downloader.GdcIdFromPath | app/m3u8_downloader.py:38-40 | elsewhere, the digits of the leftmost `/play/<digits>/` match are the id |
| Downloader.GdcIdMissingFromPath | app/m3u8_downloader.py:38-41 | elsewhere, no such match means no id |
| Downloader.RequestsWithoutId | app/m3u8_downloader.py:47-50 | without an id nothing is requested and nothing is found |
| Downloader.RequestsPriority | app/m3u8_downloader.py:69-75 | the first pattern with a match decides, returning all its matches in order |
| Downloader.RequestsFindMedia | app/m3u8_downloader.py:61-75 | every URL the request step finds ends in `.m3u8` or `.mp4` |
| Downloader.MediaOnly | app/m3u8_downloader.py:196-198 | exactly the candidates containing `.m3u8` or `.mp4` are kept |
| Downloader.PageCandidates | app/m3u8_downloader.py:188-198 | a URL is collected exactly when some pattern matches it and it contains `.m3u8` or `.mp4` |
| Downloader.Distinct | app/m3u8_downloader.py:201 | `list(set(..))`: no duplicates and the same members |
| Downloader.BrowserIrrelevantAfterHit | app/m3u8_downloader.py:222 | once the request step found something the browser is not used, and what it would have found does not matter |
| Downloader.FfmpegCommandShape | app/m3u8_downloader.py:274-284 | the command starts `ffmpeg -headers <Referer/User-Agent> -i url -vn` and ends `-y output`; mp3 adds `-c:a libmp3lame -q:a q`, anything else `-c:a aac -b:a 192k` |
| Downloader.ConcatQualityAsWritten | app/m3u8_downloader.py:256-261 | the concat command as written: the conditional picks only the element after `-q:a`, giving `-q:a q 192k` for mp3 and `-q:a -b:a 192k` for aac |
| Downloader.UriIndices | app/m3u8_downloader.py:242-243 | the indices of the segments with a URI, increasing, and all of them |
| Downloader.SegmentFilesNamed | app/m3u8_downloader.py:242-249 | the segment files are `seg_<original index>.ts`, one per segment with a URI, in order |
| Downloader.SegmentFilesEmpty | app/m3u8_downloader.py:251 | no files exactly when no segment has a URI |
| Downloader.ConcatLines | app/m3u8_downloader.py:253-255 | one `file '<path>'` line per file |
| Downloader.ConcatListLines | app/m3u8_downloader.py:253-255 | for file paths without line breaks, splitting the written list at line breaks gives exactly those lines in file order, and the empty field after the final break |
| Downloader.EmptyPlaylistDelegates | app/m3u8_downloader.py:236-238 | an empty playlist runs the direct ffmpeg command and succeeds exactly when that run does |
| Downloader.NoUriFails | app/m3u8_downloader.py:266-268 | segments without any URI give failure, no files and no command |
| Downloader.AudioFilesNamed | app/m3u8_downloader.py:242-255 | a successful segment download concatenated exactly the files of the segments with URIs, in order |
| Downloader.M3U8Downloader.constructor | app/m3u8_downloader.py:22-29 | the agent and referer default when not given, and the headers carry them |
| Downloader.M3U8Downloader.GetUrlsWithRequests | app/m3u8_downloader.py:43-83 | the method returns what `RequestsSpec` defines: nothing without an id, otherwise the first pattern's matches on the player page |
| Downloader.M3U8Downloader.ScanPageSource | app/m3u8_downloader.py:188-204 | the scan loop collects the deduplicated media candidates of all nine patterns |
| Downloader.M3U8Downloader.GetUrlsWithSelenium | app/m3u8_downloader.py:85-211 | the browser step returns the frame hit, the page scan, or nothing on failure |
| Downloader.M3U8Downloader.GetStreamUrls | app/m3u8_downloader.py:213-227 | the browser runs exactly when its mode allows and the request step found nothing; the result has no duplicates and the same members as the URLs found |
| Downloader.M3U8Downloader.BuildFfmpegCommand | app/m3u8_downloader.py:274-284 | the command is built from the downloader's own headers |
| Downloader.M3U8Downloader.FfmpegDownload | app/m3u8_downloader.py:273-314 | succeeds exactly when the ffmpeg run started, its progress lines were readable and it exited with 0 |
| Downloader.M3U8Downloader.DownloadVideo | app/m3u8_downloader.py:316-324 | the direct download with format `mp4` and quality `4` |
| Downloader.M3U8Downloader.DownloadAudio | app/m3u8_downloader.py:229-271 | the segment loop and the concat list produce exactly `AudioSpec` |
| Downloader.MainOutcome | app/m3u8_downloader.py:326-367 | exit 2 for rejected arguments, 1 without URLs; otherwise the last URL, which is one of those found, is downloaded, and the exit status is 0 exactly when that download succeeds |
| Downloader.CommandLine | app/m3u8_downloader.py:326-367 | `main` computes exactly `MainSpec` |
| Downloader.DownloadLast | app/m3u8_downloader.py:352-367 | the last URL is downloaded as audio or video, by `--type` |
| Pipeline.BackupPath | app/video_to_summary.py:602 | the backup name extends the subtitle path, so it differs from it |
| Pipeline.PathsOf | app/video_to_summary.py:252-253 | the audio, subtitle and summary files of a video are three different paths |
| Pipeline.JoinExt | app/video_to_summary.py:252-253 | joining `title + ext` is joining `title` and appending the extension |
| Pipeline.PathsOfBackupClear | app/video_to_summary.py:602 | the backup name of `title.srt` is never `title.mp3` or `title.md` |
| Pipeline.ProbeFrom | app/video_to_summary.py:319-333 | the loop never makes more than three attempts |
| Pipeline.ProbeSkipsFailures | app/video_to_summary.py:327-330 | failed attempts only move on to the next one |
| Pipeline.FirstPrintedWins | app/video_to_summary.py:320-326 | the first attempt that prints a duration decides it, after exactly that many attempts |
| Pipeline.AllProbesFail | app/video_to_summary.py:327-333 | after three failures the duration is 0 |
| Pipeline.PromptUrl | app/video_to_summary.py:571 | the prompt's video address is empty or an http(s) URL |
| Pipeline.CleanSummary | app/video_to_summary.py:586-593 | the written summary neither starts nor ends with white space |
| Pipeline.StripEnds | app/video_to_summary.py:593 | `strip()` leaves no white space at either end |
| Pipeline.StripIdempotent | app/video_to_summary.py:586-593 | stripping twice is stripping once |
| Pipeline.UnfencedSummary | app/video_to_summary.py:588-590 | an answer without fences is only stripped |
| Pipeline.OpeningFence | app/video_to_summary.py:589 | an opening ```` ```markdown ```` or ```` ``` ```` fence and the white space after it are removed |
| Pipeline.ClosingFence | app/video_to_summary.py:590 | a closing fence and the white space before it are removed |
| Pipeline.FencedSummary | app/video_to_summary.py:586-593 | an answer wrapped in a fence is written as exactly the body inside it |
| Pipeline.RelocationLosesSrt | app/video_to_summary.py:597-611 | as written, relocating a local video's subtitle file onto itself leaves no `title.srt`, only the backup |
| Pipeline.RelocateSrtKeeps | app/video_to_summary.py:597-611 | the corrected relocation leaves the subtitles at the destination and keeps a different previous file as the backup |
| Pipeline.RunStopsWithoutAudio | app/video_to_summary.py:622-625 | a failed audio step ends the run after probing and fetching, with the files unchanged |
| Pipeline.RunStopsWithoutTranscription | app/video_to_summary.py:633-636 | a failed transcription ends the run, with neither summary nor cleanup, and the audio kept |
| Pipeline.AudioCheckOnlyOnline | app/video_to_summary.py:627-630 | the audio check runs exactly when the audio was obtained for an http(s) input with a positive duration |
| Pipeline.SrtCheckOnlyOnline | app/video_to_summary.py:638-641 | the subtitle check runs exactly when the transcription succeeded for an http(s) input with a positive duration |
| Pipeline.AudioCheckAdvisory | app/video_to_summary.py:627-630 | the audio check's verdict changes nothing else in the run |
| Pipeline.RunSummarizes | app/video_to_summary.py:643-649 | once the subtitles exist the run ends by asking for a summary of their transcript and cleaning up, whatever the checks found |
| Pipeline.RunLeavesFiles | app/video_to_summary.py:643-649 | a completed run leaves no audio file and the summary when the model answered; the subtitles stay in place for an online input, or when no summary was written |
| Pipeline.RunLosesLocalSrt | app/video_to_summary.py:597-611 | for a local input whose summary was written, the run ends without `title.srt`; the subtitles are under the backup name |
| Pipeline.RunWritesSummary | app/video_to_summary.py:586-593 | the summary file of a completed run holds the cleaned answer |
| Pipeline.RunPromptsSpokenText | app/video_to_summary.py:507-509 | for segments that render with two-digit hours and hold no line break, the model is asked about exactly the segments' stripped texts |
| Pipeline.RunChecksLastSegment | app/video_to_summary.py:638-641 | for segments that render with two-digit hours and hold no `>`, an online run's subtitle check judges the whole seconds of the last segment's end against the probed duration, and fails when there is no segment |
| Pipeline.SrtCheckVerdict | app/video_to_summary.py:639-641 | the subtitle check reads the file just written |
| Pipeline.VideoProcessor.constructor | app/video_to_summary.py:248-253 | the processor holds its input, its title and the paths derived from them |
| Pipeline.VideoProcessor.GetVideoDuration | app/video_to_summary.py:302-333 | the retry loop computes `VideoDuration` in at most three attempts |
| Pipeline.VideoProcessor.DownloadAudio | app/video_to_summary.py:335-390 | succeeds exactly when the tool produced audio, which is then stored at the audio path |
| Pipeline.VideoProcessor.VerifyAudioDuration | app/video_to_summary.py:392-410 | passes exactly when the probe succeeded and is within tolerance |
| Pipeline.VideoProcessor.TranscribeAudio | app/video_to_summary.py:412-442 | on success writes `Document(segments)` at the subtitle path and returns that path; on failure writes nothing |
| Pipeline.VideoProcessor.VerifySrtFile | app/video_to_summary.py:444-477 | the verdict of `verify_srt` on the file at the path, false when it is missing |
| Pipeline.VideoProcessor.SummarizeSrt | app/video_to_summary.py:497-616 | reads the file, asks the model, writes the cleaned summary and, for a local input, relocates the subtitles as written, as `SummarizeFiles` defines |
| Pipeline.VideoProcessor.CleanupTempFiles | app/video_to_summary.py:479-486 | the audio file is removed and nothing else |
| Pipeline.VideoProcessor.Run | app/video_to_summary.py:618-649 | the stages and the files after `run` are exactly those of `RunSpec` |
| Pipeline.OpenProcessor | app/video_to_summary.py:248-253 | a processor exists exactly when a title was obtained, with the output directory `base/category/subcategory/title` |

## Left out

- Unicode digits: `\d` in `play/(\d+)/` and in the timestamp patterns of `verify_srt` matches any Unicode decimal digit in Python. The model accepts only ASCII `0`-`9`.

- Input and output of every external tool: yt-dlp, ffprobe, ffmpeg, Whisper, Gemini, the browser and HTTP. Each is an input holding its answer, with None where it fails.
- The interactive menus of `VideoProcessor.__init__` (category, subcategory, language, Whisper model), `ensure_dirs`, `check_env_and_key` and the `__main__` script of `app/video_to_summary.py`. The chosen category and subcategory are parameters.
- Logging, printing and the tqdm progress bars. This includes the "text shorter than 50 characters" warning of `summarize_srt`, which changes nothing.
- Pipeline.Request: the prompt template text is not modelled; only its two inputs, the transcript and the video address, are kept.
- Floating point. Segment times are integer milliseconds, probed durations are integer microseconds (ffprobe prints six decimals), and the 95 % rule is `100*srt >= 95*orig`. A float time such as `x.25` whose binary value lies just below it, and so renders one millisecond lower, is not modelled.
- Pipeline.ProbeFrom: a probe that prints something other than an integer raises `ValueError`, which `get_video_duration` does not catch. The model's probe only prints integers.
- The browser session itself: iframe switching, script execution, waits and cookies. It becomes `BrowserOutcome`: the URLs found inside a frame, the main page's source, or a failure.
- The parsing of ffmpeg's `Duration:` and `time=` lines. Only whether that parsing raised, which makes the download fail, is kept.
- Percent-decoding in `parse_qs`, and blank-value items other than the empty `id=`.
- Downloader.Distinct: Python's `list(set(..))` has no defined order. The model keeps first occurrences, and the contracts state only the members and the absence of duplicates.
- Pipeline.BackupPath: `with_suffix` is modelled for paths ending in `.srt`, the only ones `summarize_srt` uses.
- Text.TrimLeft: the contract does not state that the removed characters are all white space, only that the result is a suffix not starting with one. The same holds for Text.TrimRight.
- Text.TrimRight: the contract does not state that the removed characters are all white space, only that the result is a prefix not ending with one.
- The directory creation (`mkdir`, `os.makedirs`, `tempfile.mkdtemp`) and the choice of the Python interpreter for the stream downloader.

## Findings

| source | as written | input that shows it | evidently intended | confidence | as-written member | corrected member |
|---|---|---|---|---|---|---|
| app/video_to_summary.py:597-611 | For a local input, `run` passes `self.srt_path` to `summarize_srt`, and that path is also the relocation target `output_srt`. The target exists, so it is renamed to the backup first; `shutil.move` then finds no source, and its error is only printed. | `input/talk.mp4`: the subtitles are written to `<out>/talk.srt`, then renamed to `<out>/talk.srt.bak_<clock>` | the subtitles stay at `<out>/talk.srt`, since they are already at their destination | not executed | Pipeline.RelocationLosesSrt | Pipeline.RelocateSrtKeeps |
