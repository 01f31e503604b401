/**
 * `VideoProcessor`: where its files live, how it probes the duration of a
 * video, the order in which `run` invokes its stages, and how
 * `summarize_srt` prepares the prompt and cleans the model's answer.
 *
 * Every external tool (the duration and title probes, the audio download,
 * the speech recogniser, the language model, the wall clock) is an input:
 * its answer, or None where the tool fails. The file system is a map from
 * path to contents.
 */
module Pipeline {
  import opened Text
  import opened Optional
  import opened Durations
  import opened Srt
  import opened Titles
  import opened Timestamp

  // ---------------------------------------------------------------------
  // Files of one video

  /** `base_dir / category / subcategory / video_title`. */
  function OutputDir(baseDir: string, category: string, subcategory: string, title: string): string
  {
    PathJoin(PathJoin(PathJoin(baseDir, category), subcategory), title)
  }

  function AudioPathOf(outputDir: string, title: string): string
  {
    PathJoin(outputDir, title + ".mp3")
  }

  function SrtPathOf(outputDir: string, title: string): string
  {
    PathJoin(outputDir, title + ".srt")
  }

  function MdPathOf(outputDir: string, title: string): string
  {
    PathJoin(outputDir, title + ".md")
  }

  /** `with_suffix(".srt.bak_<seconds>")` on a path ending in `.srt`. */
  function BackupPath(srtPath: string, clock: nat): (r: string)
    ensures |r| > |srtPath| && r[..|srtPath|] == srtPath
  {
    srtPath + ".bak_" + NatToString(clock)
  }

  lemma JoinEndsWith(dir: string, title: string, ext: string)
    requires ext != []
    ensures var p := PathJoin(dir, title + ext); p != [] && p[|p| - 1] == ext[|ext| - 1]
  {
    var p := PathJoin(dir, title + ext);
    assert p[|p| - |title + ext|..] == title + ext;
  }

  /** The audio, subtitle and summary files of one video. */
  datatype Paths = Paths(audio: string, srt: string, md: string)

  predicate Separate(p: Paths)
  {
    p.audio != p.srt && p.audio != p.md && p.srt != p.md
  }

  /** The files `title.mp3`, `title.srt` and `title.md` of the output
      directory are three different files. */
  function PathsOf(outputDir: string, title: string): (p: Paths)
    ensures Separate(p)
  {
    JoinEndsWith(outputDir, title, ".mp3");
    JoinEndsWith(outputDir, title, ".srt");
    JoinEndsWith(outputDir, title, ".md");
    Paths(AudioPathOf(outputDir, title), SrtPathOf(outputDir, title), MdPathOf(outputDir, title))
  }

  /** Joining `title + ext` is joining `title` and appending the extension. */
  lemma JoinExt(dir: string, title: string, ext: string)
    requires ext != [] && ext[0] == '.'
    ensures PathJoin(dir, title + ext) == PathJoin(dir, title) + ext
  {
    assert StartsWith(title + ext, "/") <==> StartsWith(title, "/") by {
      if title != [] {
        assert (title + ext)[0] == title[0];
      } else {
        assert title + ext == ext;
      }
    }
    if StartsWith(title, "/") {
    } else if dir == [] || dir[|dir| - 1] == '/' {
      AppendAssoc(dir, title, ext);
    } else {
      AppendAssoc(dir + "/", title, ext);
    }
  }

  /** The backup name of the subtitle file is none of the other two files of the video. */
  predicate BackupClear(p: Paths, clock: nat)
  {
    BackupPath(p.srt, clock) != p.audio && BackupPath(p.srt, clock) != p.md
  }

  /** For the files of the output directory it always is: the backup continues
      `.srt` where the others continue `.mp3` and `.md`. */
  lemma PathsOfBackupClear(outputDir: string, title: string, clock: nat)
    ensures BackupClear(PathsOf(outputDir, title), clock)
  {
    var j := PathJoin(outputDir, title);
    JoinExt(outputDir, title, ".mp3");
    JoinExt(outputDir, title, ".srt");
    JoinExt(outputDir, title, ".md");
    BackupDiffers(j, ".mp3", NatToString(clock));
    BackupDiffers(j, ".md", NatToString(clock));
  }

  /** `j.srt.bak_n` and `j<ext>` differ in the character after the dot. */
  lemma BackupDiffers(j: string, ext: string, n: string)
    requires |ext| >= 2 && ext[1] != 's'
    ensures j + ".srt" + ".bak_" + n != j + ext
  {
    assert (j + ".srt" + ".bak_" + n)[|j| + 1] == 's';
    assert (j + ext)[|j| + 1] == ext[1];
  }


  // ---------------------------------------------------------------------
  // get_video_duration

  /** One answer of the online duration probe: a failed run, or the whole
      seconds it printed. */
  datatype Probe = ProbeFailed | Printed(seconds: int)

  const MaxRetries: nat := 3

  /** Duration and number of probes made in all, when attempt `i` is next. */
  function ProbeFrom(probe: nat -> Probe, i: nat): (r: (int, nat))
    requires i <= MaxRetries
    ensures i <= r.1 <= MaxRetries
    decreases MaxRetries - i
  {
    if i == MaxRetries then (0, i)
    else match probe(i)
      case Printed(v) => (v, i + 1)
      case ProbeFailed => ProbeFrom(probe, i + 1)
  }

  /** `get_video_duration`: a local file is probed once, its failure giving 0
      (`localMicros` is the probed duration in microseconds, truncated to
      seconds as `int(float(...))` does); an online video is probed up to
      `MaxRetries` times. The second component counts the online probes. */
  function VideoDuration(url: string, probe: nat -> Probe, localMicros: Option<nat>): (int, nat)
  {
    if !IsUrl(url) then
      (if localMicros.Some? then localMicros.value / MicrosPerSecond else 0, 0)
    else ProbeFrom(probe, 0)
  }

  lemma {:induction false} ProbeSkipsFailures(probe: nat -> Probe, i: nat, k: nat)
    requires i <= k <= MaxRetries
    requires forall j: nat :: i <= j < k ==> probe(j).ProbeFailed?
    ensures ProbeFrom(probe, i) == ProbeFrom(probe, k)
    decreases k - i
  {
    if i < k {
      ProbeSkipsFailures(probe, i + 1, k);
    }
  }

  /** The first attempt that prints a duration decides it, after `k + 1` probes. */
  lemma FirstPrintedWins(probe: nat -> Probe, k: nat)
    requires k < MaxRetries && probe(k).Printed?
    requires forall j: nat :: j < k ==> probe(j).ProbeFailed?
    ensures ProbeFrom(probe, 0) == (probe(k).seconds, k + 1)
  {
    ProbeSkipsFailures(probe, 0, k);
  }

  /** Three failed attempts give 0, and no fourth attempt is made. */
  lemma AllProbesFail(probe: nat -> Probe)
    requires forall j: nat :: j < MaxRetries ==> probe(j).ProbeFailed?
    ensures ProbeFrom(probe, 0) == (0, MaxRetries)
  {
    ProbeSkipsFailures(probe, 0, MaxRetries);
  }

  // ---------------------------------------------------------------------
  // summarize_srt

  /** The video address put into the prompt: the input when it is a URL, else empty. */
  function PromptUrl(url: string): (r: string)
    ensures r == [] || IsUrl(r)
  {
    if IsUrl(url) then url else ""
  }

  /** What the language model is asked about: the flat transcript and the video address. */
  datatype Request = Request(transcript: string, videoUrl: string)

  /** `^(\s*```markdown\s*|\s*```\s*)` replaced by nothing: an opening fence,
      with the whitespace around it, is dropped. */
  function LeadingFence(s: string): string
  {
    var t := TrimLeft(s);
    if StartsWith(t, "```markdown") then TrimLeft(t[11..])
    else if StartsWith(t, "```") then TrimLeft(t[3..])
    else s
  }

  /** `(\s*```\s*)$` replaced by nothing: a closing fence, with the whitespace
      around it, is dropped. */
  function TrailingFence(s: string): string
  {
    var t := TrimRight(s);
    if EndsWith(t, "```") then TrimRight(t[..|t| - 3]) else s
  }

  /** The markdown written for the answer `response` of the language model. */
  function CleanSummary(response: string): (r: string)
    ensures r != [] ==> !IsSpace(r[0]) && !IsSpace(r[|r| - 1])
  {
    var unfenced := TrailingFence(LeadingFence(Strip(response)));
    StripEnds(unfenced);
    Strip(unfenced)
  }

  lemma StripEnds(s: string)
    ensures Strip(s) != [] ==> !IsSpace(Strip(s)[0]) && !IsSpace(Strip(s)[|Strip(s)| - 1])
  {
    var l := TrimLeft(s);
    var r := TrimRight(l);
    if r != [] {
      assert r[0] == l[0];
    }
  }

  /** Stripping twice is stripping once. */
  lemma StripIdempotent(s: string)
    ensures Strip(Strip(s)) == Strip(s)
  {
    var r := Strip(s);
    StripEnds(s);
    assert TrimLeft(r) == r;
  }

  /** An answer without fences is only stripped. */
  lemma UnfencedSummary(response: string)
    requires !StartsWith(Strip(response), "```") && !EndsWith(Strip(response), "```")
    ensures CleanSummary(response) == Strip(response)
  {
    var s := Strip(response);
    StripEnds(response);
    assert TrimLeft(s) == s;
    assert !StartsWith(s, "```markdown");
    assert TrimRight(s) == s;
    StripIdempotent(response);
  }

  lemma NoSpaceAfterNewline(body: string, tail: string)
    requires body != [] && !IsSpace(body[0])
    ensures TrimLeft("\n" + body + tail) == body + tail
  {
    var s := "\n" + body + tail;
    assert s[1..] == body + tail;
    assert TrimLeft(s) == TrimLeft(s[1..]);
  }

  lemma NoSpaceBeforeNewline(head: string, body: string)
    requires body != [] && !IsSpace(body[|body| - 1])
    ensures TrimRight(head + body + "\n") == head + body
  {
    var s := head + body + "\n";
    assert s[..|s| - 1] == head + body;
    assert TrimRight(s) == TrimRight(s[..|s| - 1]);
  }

  /** A body wrapped in an opening fence (with or without the language tag)
      and a closing fence comes back unchanged. */
  lemma StripBare(s: string)
    requires s != [] && !IsSpace(s[0]) && !IsSpace(s[|s| - 1])
    ensures Strip(s) == s
  {
    assert TrimLeft(s) == s;
  }

  lemma OpeningFence(fence: string, rest: string)
    requires fence == "```markdown" || fence == "```"
    requires rest != [] && rest[0] == '\n'
    ensures LeadingFence(fence + rest) == TrimLeft(rest)
  {
    if fence == "```markdown" {
      TaggedFence(rest);
    } else {
      BareFence(rest);
    }
  }

  lemma TaggedFence(rest: string)
    ensures LeadingFence("```markdown" + rest) == TrimLeft(rest)
  {
    var response := "```markdown" + rest;
    assert TrimLeft(response) == response;
    assert StartsWith(response, "```markdown");
    assert response[11..] == rest;
  }

  lemma BareFence(rest: string)
    requires rest != [] && rest[0] == '\n'
    ensures LeadingFence("```" + rest) == TrimLeft(rest)
  {
    var response := "```" + rest;
    assert TrimLeft(response) == response;
    assert response[3] == '\n';
    if |response| >= 11 {
      assert response[..11][3] != "```markdown"[3];
    }
    assert !StartsWith(response, "```markdown");
    assert StartsWith(response, "```");
    assert response[3..] == rest;
  }

  lemma ClosingFence(body: string)
    requires body != [] && !IsSpace(body[|body| - 1])
    ensures TrailingFence(body + "\n```") == body
  {
    var unfenced := body + "\n```";
    assert TrimRight(unfenced) == unfenced;
    assert EndsWith(unfenced, "```");
    assert unfenced[..|unfenced| - 3] == [] + body + "\n";
    NoSpaceBeforeNewline([], body);
  }

  /** A body wrapped in an opening fence (with or without the language tag)
      and a closing fence comes back unchanged. */
  lemma FencedSummary(fence: string, body: string)
    requires fence == "```markdown" || fence == "```"
    requires body != [] && !IsSpace(body[0]) && !IsSpace(body[|body| - 1])
    ensures CleanSummary(fence + "\n" + body + "\n```") == body
  {
    var rest := "\n" + body + "\n```";
    var response := fence + "\n" + body + "\n```";
    AppendAssoc(fence, "\n", body);
    AppendAssoc(fence, "\n" + body, "\n```");
    assert response == fence + rest;
    StripBare(response);
    OpeningFence(fence, rest);
    NoSpaceAfterNewline(body, "\n```");
    ClosingFence(body);
    StripBare(body);
  }

  /** `shutil.move(src, dst)` after an existing `dst` was renamed to `backup`,
      as `summarize_srt` does it for local inputs. */
  function RelocateAsWritten(files: map<string, string>, src: string, dst: string, backup: string): map<string, string>
  {
    var saved := if dst in files then (files - {dst})[backup := files[dst]] else files;
    if src in saved then (saved - {src})[dst := saved[src]] else saved
  }

  /** For a local video the subtitle file already sits at its destination:
      the backup rename moves it away, the move then finds no source, and the
      destination is left without a subtitle file. */
  lemma RelocationLosesSrt(files: map<string, string>, srtPath: string, clock: nat)
    requires srtPath in files
    ensures srtPath !in RelocateAsWritten(files, srtPath, srtPath, BackupPath(srtPath, clock))
    ensures BackupPath(srtPath, clock) in RelocateAsWritten(files, srtPath, srtPath, BackupPath(srtPath, clock))
  {
    var backup := BackupPath(srtPath, clock);
    assert backup != srtPath;
  }

  /** The relocation as intended: nothing to do when the subtitle file is
      already at its destination. */
  function RelocateSrt(files: map<string, string>, src: string, dst: string, backup: string): (r: map<string, string>)
  {
    if src == dst then files else RelocateAsWritten(files, src, dst, backup)
  }

  /** After relocation the destination holds the subtitles, and a different
      file found there before is kept under the backup name. */
  lemma RelocateSrtKeeps(files: map<string, string>, src: string, dst: string, backup: string)
    requires src in files && backup != dst && backup != src
    ensures var r := RelocateSrt(files, src, dst, backup);
      && dst in r && r[dst] == files[src]
      && (src != dst && dst in files ==> backup in r && r[backup] == files[dst])
      && (src != dst ==> src !in r)
  {
  }

  /** Files after `summarize_srt(srtFile)`; `markdown` is the cleaned answer
      of the model, or None when asking it failed. */
  function SummarizeFiles(url: string, p: Paths, srtFile: string, files: map<string, string>,
                          markdown: Option<string>, clock: nat): map<string, string>
  {
    if srtFile !in files then files
    else match markdown
      case None => files
      case Some(text) =>
        var written := files[p.md := text];
        if IsUrl(url) then written
        else RelocateAsWritten(written, srtFile, p.srt, BackupPath(p.srt, clock))
  }

  /** With an answer from the model, the summary is written and, for a local
      input, the subtitle file relocated. */
  lemma SummarizeWritten(url: string, p: Paths, srtFile: string, files: map<string, string>,
                         markdown: string, clock: nat)
    requires srtFile in files
    ensures SummarizeFiles(url, p, srtFile, files, Some(markdown), clock)
      == if IsUrl(url) then files[p.md := markdown]
         else RelocateAsWritten(files[p.md := markdown], srtFile, p.srt, BackupPath(p.srt, clock))
  {
  }

  /** The markdown written for an answer of the model. */
  function Markdown(response: Option<string>): Option<string>
  {
    match response
    case None => None
    case Some(text) => Some(CleanSummary(text))
  }

  /** The model is asked only when the subtitle file could be read. */
  function SummarizeStages(url: string, srtFile: string, files: map<string, string>): seq<Stage>
  {
    if srtFile in files then [Summarized(Request(Transcript(files[srtFile]), PromptUrl(url)))] else []
  }

  // ---------------------------------------------------------------------
  // run

  /** How the audio is obtained: extracted from a local file, fetched by the
      stream downloader for GDC Vault pages, or downloaded by yt-dlp. */
  datatype AudioTool = ExtractLocal | StreamDownloader | YtDlp

  function AudioToolFor(url: string): AudioTool
  {
    if !IsUrl(url) then ExtractLocal else if IsGdcVault(url) then StreamDownloader else YtDlp
  }

  /** A stage invoked by `run`, with what it reports. */
  datatype Stage =
    | Probed(attempts: nat)
    | AudioFetched(tool: AudioTool)
    | AudioChecked(passed: bool)
    | Transcribed
    | SrtChecked(passed: bool)
    | Summarized(request: Request)
    | CleanedUp

  /** The answers of the external tools during one run. */
  datatype Tools = Tools(
    durationProbe: nat -> Probe,           // the online probe, attempt by attempt
    localMicros: Option<nat>,              // the local probe
    audio: Option<string>,                 // the audio file obtained
    audioMicros: Option<int>,              // the probe of that audio file
    transcription: Option<seq<Segment>>,   // the recogniser's segments
    response: Option<string>,              // the language model's answer
    clock: nat)                            // seconds since the epoch, for backup names

  /** `verify_audio_duration`: a failed probe fails the check. */
  function AudioPasses(audioMicros: Option<int>, originalSeconds: int): bool
  {
    audioMicros.Some? && AudioDurationOk(audioMicros.value, originalSeconds)
  }

  datatype Outcome = Outcome(stages: seq<Stage>, files: map<string, string>)

  /** What the external steps contribute to one run: the probed duration and
      the number of online probes, the audio obtained and its probed length,
      the subtitle file written, the markdown written, and the clock. */
  datatype Effects = Effects(
    duration: int,
    attempts: nat,
    audio: Option<string>,
    audioMicros: Option<int>,
    srt: Option<string>,
    markdown: Option<string>,
    clock: nat)

  /** The subtitle file `transcribe_audio` writes for the recogniser's answer. */
  function SrtText(transcription: Option<seq<Segment>>): Option<string>
  {
    match transcription
    case None => None
    case Some(segs) => Some(Document(segs))
  }

  function EffectsOf(url: string, tools: Tools): Effects
  {
    var probed := VideoDuration(url, tools.durationProbe, tools.localMicros);
    Effects(probed.0, probed.1, tools.audio, tools.audioMicros, SrtText(tools.transcription),
            Markdown(tools.response), tools.clock)
  }

  /** The stages `run` invokes, appended to `trace`, and the files it leaves,
      starting from `files`. */
  function RunSpec(url: string, p: Paths, files: map<string, string>, tools: Tools, trace: seq<Stage>): Outcome
  {
    RunWith(url, p, files, EffectsOf(url, tools), trace)
  }

  /** `run` from the start: probe, fetch the audio, and go on only if it was obtained. */
  function RunWith(url: string, p: Paths, files: map<string, string>, e: Effects, trace: seq<Stage>): Outcome
  {
    var t := trace + [Probed(e.attempts)] + [AudioFetched(AudioToolFor(url))];
    match e.audio
    case None => Outcome(t, files)
    case Some(audio) => AfterAudio(url, p, files[p.audio := audio], e, IsUrl(url) && e.duration > 0, t)
  }

  /** `run` once the audio exists: check it if `checks`, transcribe, and go on
      only if the transcription succeeded. */
  function AfterAudio(url: string, p: Paths, files: map<string, string>, e: Effects, checks: bool, trace: seq<Stage>): Outcome
  {
    var t := (if checks then trace + [AudioChecked(AudioPasses(e.audioMicros, e.duration))] else trace) + [Transcribed];
    match e.srt
    case None => Outcome(t, files)
    case Some(text) => AfterTranscript(url, p, files[p.srt := text], e, checks, t)
  }

  /** `run` once the subtitle file is written: check it if `checks`, then
      summarise and clean up if the file exists. */
  function AfterTranscript(url: string, p: Paths, files: map<string, string>, e: Effects, checks: bool, trace: seq<Stage>): Outcome
  {
    var t := if checks then trace + [SrtChecked(VerifySrt(e.duration, if p.srt in files then Some(files[p.srt]) else None))] else trace;
    if p.srt in files then
      Outcome(t + SummarizeStages(url, p.srt, files) + [CleanedUp], SummarizeFiles(url, p, p.srt, files, e.markdown, e.clock) - {p.audio})
    else Outcome(t, files)
  }

  /** A failed audio download ends the run before transcription, leaving the files as they were. */
  lemma RunStopsWithoutAudio(url: string, p: Paths, files: map<string, string>, e: Effects)
    requires e.audio.None?
    ensures var o := RunWith(url, p, files, e, []);
      o.files == files && o.stages == [Probed(e.attempts), AudioFetched(AudioToolFor(url))]
  {
  }

  /** A failed transcription ends the run before summarisation: the audio is
      kept, no summary is written, and the last stage is the transcription. */
  lemma RunStopsWithoutTranscription(url: string, p: Paths, files: map<string, string>, e: Effects)
    requires e.audio.Some? && e.srt.None?
    ensures var o := RunWith(url, p, files, e, []);
      && o.files == files[p.audio := e.audio.value]
      && o.stages[|o.stages| - 1] == Transcribed
      && forall s :: s in o.stages ==> !s.Summarized? && s != CleanedUp
  {
  }

  /** The audio check runs exactly when the audio was obtained for a URL with
      a known positive duration. */
  lemma AudioCheckOnlyOnline(url: string, p: Paths, files: map<string, string>, e: Effects)
    ensures (exists s :: s in RunWith(url, p, files, e, []).stages && s.AudioChecked?)
            <==> e.audio.Some? && IsUrl(url) && e.duration > 0
  {
    var o := RunWith(url, p, files, e, []);
    var checks := IsUrl(url) && e.duration > 0;
    var head := [Probed(e.attempts), AudioFetched(AudioToolFor(url))];
    assert [] + [Probed(e.attempts)] + [AudioFetched(AudioToolFor(url))] == head;
    if e.audio.Some? {
      var f1 := files[p.audio := e.audio.value];
      if checks {
        var t := head + [AudioChecked(AudioPasses(e.audioMicros, e.duration))] + [Transcribed];
        assert o.stages[..|t|] == t by {
          if e.srt.Some? {
            var f2 := f1[p.srt := e.srt.value];
            var u := t + [SrtChecked(VerifySrt(e.duration, Some(f2[p.srt])))];
            assert o.stages == u + SummarizeStages(url, p.srt, f2) + [CleanedUp];
          }
        }
        assert o.stages[2] == t[2];
      } else if e.srt.Some? {
        var f2 := f1[p.srt := e.srt.value];
        assert o.stages == head + [Transcribed] + SummarizeStages(url, p.srt, f2) + [CleanedUp];
      }
    }
  }

  /** The subtitle check runs exactly when audio and transcription succeeded
      for a URL with a known positive duration. */
  lemma SrtCheckOnlyOnline(url: string, p: Paths, files: map<string, string>, e: Effects)
    ensures (exists s :: s in RunWith(url, p, files, e, []).stages && s.SrtChecked?)
            <==> e.audio.Some? && e.srt.Some? && IsUrl(url) && e.duration > 0
  {
    var o := RunWith(url, p, files, e, []);
    var checks := IsUrl(url) && e.duration > 0;
    var head := [Probed(e.attempts), AudioFetched(AudioToolFor(url))];
    assert [] + [Probed(e.attempts)] + [AudioFetched(AudioToolFor(url))] == head;
    if e.audio.Some? && e.srt.Some? {
      var f2 := files[p.audio := e.audio.value][p.srt := e.srt.value];
      if checks {
        var u := head + [AudioChecked(AudioPasses(e.audioMicros, e.duration))] + [Transcribed]
                 + [SrtChecked(VerifySrt(e.duration, Some(f2[p.srt])))];
        assert o.stages == u + SummarizeStages(url, p.srt, f2) + [CleanedUp];
        assert o.stages[4] == u[4];
      } else {
        assert o.stages == head + [Transcribed] + SummarizeStages(url, p.srt, f2) + [CleanedUp];
      }
    }
  }

  /** Once audio and subtitles exist the run always ends by asking the model
      for a summary of the flat transcript and cleaning up, whatever the two
      checks found. */
  lemma RunSummarizes(url: string, p: Paths, files: map<string, string>, e: Effects)
    requires e.audio.Some? && e.srt.Some?
    ensures var o := RunWith(url, p, files, e, []);
      && |o.stages| >= 2
      && o.stages[|o.stages| - 2] == Summarized(Request(Transcript(e.srt.value), PromptUrl(url)))
      && o.stages[|o.stages| - 1] == CleanedUp
  {
  }

  /** What a completed run leaves: the summary (when the model answered), no
      audio file, and the subtitle file at its place when the input is online
      or no summary was written. */
  lemma RunLeavesFiles(url: string, p: Paths, files: map<string, string>, e: Effects)
    requires Separate(p) && BackupClear(p, e.clock) && e.audio.Some? && e.srt.Some?
    ensures var o := RunWith(url, p, files, e, []);
      && p.audio !in o.files
      && (e.markdown.Some? ==> p.md in o.files && o.files[p.md] == e.markdown.value)
      && (IsUrl(url) || e.markdown.None? ==> p.srt in o.files && o.files[p.srt] == e.srt.value)
  {
    var f2 := files[p.audio := e.audio.value][p.srt := e.srt.value];
    var s := SummarizeFiles(url, p, p.srt, f2, e.markdown, e.clock);
    assert RunWith(url, p, files, e, []).files == s - {p.audio};
  }

  /** For a local input whose summary was written, the run ends with the
      subtitles under the backup name and no `title.srt`: the relocation of
      `summarize_srt` renames the file it was meant to move. */
  lemma RunLosesLocalSrt(url: string, p: Paths, files: map<string, string>, e: Effects)
    requires Separate(p) && BackupClear(p, e.clock) && e.audio.Some? && e.srt.Some? && e.markdown.Some?
    requires !IsUrl(url)
    ensures var o := RunWith(url, p, files, e, []);
      var backup := BackupPath(p.srt, e.clock);
      && p.srt !in o.files
      && backup in o.files && o.files[backup] == e.srt.value
  {
    var f2 := files[p.audio := e.audio.value][p.srt := e.srt.value];
    var written := f2[p.md := e.markdown.value];
    var backup := BackupPath(p.srt, e.clock);
    RelocationLosesSrt(written, p.srt, e.clock);
    assert SummarizeFiles(url, p, p.srt, f2, e.markdown, e.clock) == RelocateAsWritten(written, p.srt, p.srt, backup);
    assert RunWith(url, p, files, e, []).files == RelocateAsWritten(written, p.srt, p.srt, backup) - {p.audio};
  }

  /** The outcome of the audio check changes nothing but its own report. */
  lemma AudioCheckAdvisory(url: string, p: Paths, files: map<string, string>, e: Effects, other: Option<int>)
    ensures var o := RunWith(url, p, files, e, []);
      var q := RunWith(url, p, files, e.(audioMicros := other), []);
      && o.files == q.files
      && |o.stages| == |q.stages|
      && forall k :: 0 <= k < |o.stages| && !o.stages[k].AudioChecked? ==> o.stages[k] == q.stages[k]
  {
    var e' := e.(audioMicros := other);
    if e.audio.Some? && e.srt.Some? {
      var f2 := files[p.audio := e.audio.value][p.srt := e.srt.value];
      var head := [] + [Probed(e.attempts)] + [AudioFetched(AudioToolFor(url))];
      var rest := SummarizeStages(url, p.srt, f2) + [CleanedUp];
      if IsUrl(url) && e.duration > 0 {
        var t := head + [AudioChecked(AudioPasses(e.audioMicros, e.duration))] + [Transcribed];
        var t' := head + [AudioChecked(AudioPasses(other, e.duration))] + [Transcribed];
        var tail := [SrtChecked(VerifySrt(e.duration, Some(f2[p.srt])))] + rest;
        assert RunWith(url, p, files, e, []).stages == t + tail;
        assert RunWith(url, p, files, e', []).stages == t' + tail;
      } else {
        assert RunWith(url, p, files, e, []).stages == head + [Transcribed] + ([] + rest);
        assert RunWith(url, p, files, e', []).stages == head + [Transcribed] + ([] + rest);
      }
    }
  }

  /** The summary written by a completed run is the cleaned answer of the model. */
  lemma RunWritesSummary(url: string, p: Paths, files: map<string, string>, tools: Tools)
    requires Separate(p) && BackupClear(p, tools.clock) && tools.audio.Some? && tools.transcription.Some? && tools.response.Some?
    ensures var o := RunSpec(url, p, files, tools, []);
      p.md in o.files && o.files[p.md] == CleanSummary(tools.response.value)
  {
    RunLeavesFiles(url, p, files, EffectsOf(url, tools));
  }

  /** For segments that render as subtitles, the model reads exactly the segment texts. */
  lemma RunPromptsSpokenText(url: string, p: Paths, files: map<string, string>, tools: Tools)
    requires tools.audio.Some? && tools.transcription.Some?
    requires var segs := tools.transcription.value;
      forall k :: 0 <= k < |segs| ==> Renderable(segs[k]) && '\n' !in segs[k].text
    ensures var o := RunSpec(url, p, files, tools, []);
      && |o.stages| >= 2
      && o.stages[|o.stages| - 2] == Summarized(Request(SpokenText(tools.transcription.value), PromptUrl(url)))
  {
    RunSummarizes(url, p, files, EffectsOf(url, tools));
    TranscriptOfDocument(tools.transcription.value);
  }

  /** For segments that render as subtitles, the subtitle check of an online
      run judges the whole seconds of the last segment's end. */
  lemma RunChecksLastSegment(url: string, p: Paths, files: map<string, string>, tools: Tools)
    requires tools.audio.Some? && tools.transcription.Some?
    requires var segs := tools.transcription.value;
      forall k :: 0 <= k < |segs| ==> Renderable(segs[k]) && '>' !in segs[k].text
    requires IsUrl(url) && VideoDuration(url, tools.durationProbe, tools.localMicros).0 > 0
    ensures var o := RunSpec(url, p, files, tools, []);
      var segs := tools.transcription.value;
      var d := VideoDuration(url, tools.durationProbe, tools.localMicros).0;
      && |o.stages| >= 5
      && o.stages[4] == SrtChecked(segs != [] && SrtCoverageOk(segs[|segs| - 1].end / SecondMs, d))
  {
    var segs := tools.transcription.value;
    var e := EffectsOf(url, tools);
    VerifyWrittenSrt(e.duration, segs);
    SrtCheckVerdict(url, p, files, e);
  }

  /** The subtitle check of an online run judges the file just written. */
  lemma SrtCheckVerdict(url: string, p: Paths, files: map<string, string>, e: Effects)
    requires e.audio.Some? && e.srt.Some? && IsUrl(url) && e.duration > 0
    ensures var o := RunWith(url, p, files, e, []);
      |o.stages| >= 5 && o.stages[4] == SrtChecked(VerifySrt(e.duration, Some(e.srt.value)))
  {
    var f2 := files[p.audio := e.audio.value][p.srt := e.srt.value];
    var u := [] + [Probed(e.attempts)] + [AudioFetched(AudioToolFor(url))]
             + [AudioChecked(AudioPasses(e.audioMicros, e.duration))] + [Transcribed]
             + [SrtChecked(VerifySrt(e.duration, Some(f2[p.srt])))];
    assert RunWith(url, p, files, e, []).stages == u + SummarizeStages(url, p.srt, f2) + [CleanedUp];
  }

  // ---------------------------------------------------------------------
  // The processor

  class VideoProcessor {
    const url: string
    const isM3u8: bool
    const videoTitle: string
    const outputDir: string
    const audioPath: string
    const srtPath: string
    /** The file system as this processor sees it. */
    var files: map<string, string>
    /** The stages invoked so far. */
    var trace: seq<Stage>

    ghost predicate Valid()
    {
      && isM3u8 == IsGdcVault(url)
      && audioPath == AudioPathOf(outputDir, videoTitle)
      && srtPath == SrtPathOf(outputDir, videoTitle)
    }

    /** The files of this video, the summary included. */
    function OwnPaths(): Paths
    {
      Paths(audioPath, srtPath, MdPathOf(outputDir, videoTitle))
    }

    /** `__init__` once the title is known and the category chosen. */
    constructor (url: string, videoTitle: string, outputDir: string, files: map<string, string>)
      ensures Valid()
      ensures this.url == url && this.videoTitle == videoTitle && this.outputDir == outputDir
      ensures this.files == files && trace == []
    {
      this.url := url;
      this.isM3u8 := IsGdcVault(url);
      this.videoTitle := videoTitle;
      this.outputDir := outputDir;
      this.audioPath := AudioPathOf(outputDir, videoTitle);
      this.srtPath := SrtPathOf(outputDir, videoTitle);
      this.files := files;
      this.trace := [];
    }

    /** `get_video_duration`; also reports how many online probes it made. */
    method GetVideoDuration(probe: nat -> Probe, localMicros: Option<nat>) returns (d: int, attempts: nat)
      ensures (d, attempts) == VideoDuration(url, probe, localMicros)
      ensures attempts <= MaxRetries
    {
      if !IsUrl(url) {
        d := if localMicros.Some? then localMicros.value / MicrosPerSecond else 0;
        attempts := 0;
        return;
      }
      for attempt := 0 to MaxRetries
        invariant ProbeFrom(probe, attempt) == ProbeFrom(probe, 0)
      {
        match probe(attempt)
        case Printed(v) =>
          d, attempts := v, attempt + 1;
          return;
        case ProbeFailed =>
          if attempt < MaxRetries - 1 {
            continue;
          }
          d, attempts := 0, attempt + 1;
          return;
      }
      d, attempts := 0, MaxRetries;
    }

    /** `download_audio`: on success the audio file exists. */
    method DownloadAudio(audio: Option<string>) returns (ok: bool)
      modifies this
      ensures ok <==> audio.Some?
      ensures files == if audio.Some? then old(files)[audioPath := audio.value] else old(files)
      ensures trace == old(trace) + [AudioFetched(AudioToolFor(url))]
    {
      trace := trace + [AudioFetched(AudioToolFor(url))];
      match audio
      case None =>
        ok := false;
      case Some(data) =>
        files := files[audioPath := data];
        ok := true;
    }

    /** `verify_audio_duration`. */
    method VerifyAudioDuration(audioMicros: Option<int>, originalSeconds: int) returns (ok: bool)
      modifies this
      ensures ok == AudioPasses(audioMicros, originalSeconds)
      ensures files == old(files) && trace == old(trace) + [AudioChecked(ok)]
    {
      ok := audioMicros.Some? && AudioDurationOk(audioMicros.value, originalSeconds);
      trace := trace + [AudioChecked(ok)];
    }

    /** `transcribe_audio`: the segments are written as numbered blocks to the
        subtitle file, whose path is returned. */
    method TranscribeAudio(result: Option<seq<Segment>>) returns (path: Option<string>)
      modifies this
      ensures path.Some? <==> result.Some?
      ensures path.Some? ==> path.value == srtPath
      ensures files == if result.Some? then old(files)[srtPath := Document(result.value)] else old(files)
      ensures trace == old(trace) + [Transcribed]
    {
      trace := trace + [Transcribed];
      match result
      case None =>
        path := None;
      case Some(segments) =>
        var content := WriteSrt(segments);
        files := files[srtPath := content];
        path := Some(srtPath);
    }

    /** `verify_srt` on the file at `path`; an unreadable file fails. */
    method VerifySrtFile(originalSeconds: int, path: string) returns (ok: bool)
      modifies this
      ensures ok == VerifySrt(originalSeconds, if path in files then Some(files[path]) else None)
      ensures files == old(files) && trace == old(trace) + [SrtChecked(ok)]
    {
      ok := VerifySrt(originalSeconds, if path in files then Some(files[path]) else None);
      trace := trace + [SrtChecked(ok)];
    }

    /** `summarize_srt`: the flat transcript and the video address go to the
        model, its cleaned answer becomes the markdown file, and for a local
        input the subtitle file is moved into the output directory. */
    method SummarizeSrt(srtFile: string, response: Option<string>, clock: nat)
      requires Valid()
      modifies this
      ensures files == SummarizeFiles(url, OwnPaths(), srtFile, old(files), Markdown(response), clock)
      ensures trace == old(trace) + SummarizeStages(url, srtFile, old(files))
    {
      if srtFile !in files {
        return;
      }
      ghost var before := files;
      var request := Request(Transcript(files[srtFile]), PromptUrl(url));
      trace := trace + [Summarized(request)];
      if response.None? {
        return;
      }
      var markdown := CleanSummary(response.value);
      var written := files[MdPathOf(outputDir, videoTitle) := markdown];
      files := written;
      if !IsUrl(url) {
        var target := SrtPathOf(outputDir, videoTitle);
        files := RelocateAsWritten(files, srtFile, target, BackupPath(target, clock));
      }
      assert Markdown(response) == Some(markdown);
      SummarizeWritten(url, OwnPaths(), srtFile, before, markdown, clock);
    }

    /** `cleanup_temp_files`: the audio file is removed. */
    method CleanupTempFiles()
      modifies this
      ensures files == old(files) - {audioPath}
      ensures trace == old(trace) + [CleanedUp]
    {
      files := files - {audioPath};
      trace := trace + [CleanedUp];
    }

    /** `run`. */
    method Run(tools: Tools)
      requires Valid()
      modifies this
      ensures Outcome(trace, files) == RunSpec(url, OwnPaths(), old(files), tools, old(trace))
    {
      var d, attempts := GetVideoDuration(tools.durationProbe, tools.localMicros);
      trace := trace + [Probed(attempts)];
      var fetched := DownloadAudio(tools.audio);
      if !fetched {
        return;
      }
      if IsUrl(url) && d > 0 {
        // advisory: a failed check is reported and the run goes on
        var passed := VerifyAudioDuration(tools.audioMicros, d);
      }
      var srt := TranscribeAudio(tools.transcription);
      if srt.None? {
        return;
      }
      if IsUrl(url) && d > 0 {
        var passed := VerifySrtFile(d, srt.value);
      }
      if srtPath in files {
        SummarizeSrt(srtPath, tools.response, tools.clock);
        CleanupTempFiles();
      }
    }
  }

  /** `VideoProcessor(url)`: the title probe's failure propagates, so no
      processor is made. */
  method OpenProcessor(url: string, titleProbe: Option<string>, baseDir: string, category: string,
                       subcategory: string, files: map<string, string>)
    returns (vp: Option<VideoProcessor>)
    ensures vp.None? <==> VideoTitle(url, titleProbe).None?
    ensures vp.Some? ==>
      var title := VideoTitle(url, titleProbe).value;
      && fresh(vp.value) && vp.value.Valid()
      && vp.value.url == url && vp.value.videoTitle == title
      && vp.value.outputDir == OutputDir(baseDir, category, subcategory, title)
      && vp.value.files == files && vp.value.trace == []
  {
    match VideoTitle(url, titleProbe)
    case None =>
      vp := None;
    case Some(title) =>
      var p := new VideoProcessor(url, title, OutputDir(baseDir, category, subcategory, title), files);
      vp := Some(p);
  }
}
