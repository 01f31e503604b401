/** The subtitle file: how `transcribe_audio` writes it, how `verify_srt`
    finds its last end timestamp, and how `summarize_srt` strips it down to
    a flat transcript. */
module Srt {
  import opened Text
  import opened Optional
  import opened Timestamp
  import opened Durations

  /** A transcription segment: start and end in milliseconds, and its text. */
  datatype Segment = Segment(start: nat, end: nat, text: string)

  /** Both times of the segment render with two-digit hours. */
  predicate Renderable(seg: Segment)
  {
    seg.start < TwoDigitHoursLimit && seg.end < TwoDigitHoursLimit
  }

  /** `start --> end`, 29 characters for a renderable segment. */
  function TimeLine(seg: Segment): string
  {
    Format(seg.start) + " --> " + Format(seg.end)
  }

  /** One numbered block as `transcribe_audio` prints it: the index line,
      the time line, the text line, and the empty line that `print` adds. */
  function Layout(number: string, line: string, text: string): string
  {
    number + "\n" + line + "\n" + text + "\n" + "\n"
  }

  /** Block `index` of the file, holding `seg` with its text stripped. */
  function Block(index: nat, seg: Segment): string
  {
    Layout(NatToString(index), TimeLine(seg), Strip(seg.text))
  }

  /** The whole file: blocks numbered from 1 in segment order. */
  function Document(segs: seq<Segment>): string
  {
    if segs == [] then "" else Document(segs[..|segs| - 1]) + Block(|segs|, segs[|segs| - 1])
  }

  lemma DocumentAppend(segs: seq<Segment>, i: nat)
    requires i < |segs|
    ensures Document(segs[..i + 1]) == Document(segs[..i]) + Block(i + 1, segs[i])
  {
    assert segs[..i + 1][..i] == segs[..i];
  }

  /** The enumerate loop of `transcribe_audio` that writes the blocks. */
  method WriteSrt(segments: seq<Segment>) returns (content: string)
    ensures content == Document(segments)
  {
    content := "";
    for i := 0 to |segments|
      invariant content == Document(segments[..i])
    {
      DocumentAppend(segments, i);
      content := content + Block(i + 1, segments[i]);
    }
    assert segments[..|segments|] == segments;
  }

  // ---------------------------------------------------------------------
  // verify_srt

  /** `\d{2}:\d{2}:\d{2},\d{3}` at position `i` of `s`. */
  predicate StampAt(s: string, i: nat)
  {
    && i + 12 <= |s|
    && IsDigit(s[i]) && IsDigit(s[i + 1]) && s[i + 2] == ':'
    && IsDigit(s[i + 3]) && IsDigit(s[i + 4]) && s[i + 5] == ':'
    && IsDigit(s[i + 6]) && IsDigit(s[i + 7]) && s[i + 8] == ','
    && IsDigit(s[i + 9]) && IsDigit(s[i + 10]) && IsDigit(s[i + 11])
  }

  /** The pattern of `verify_srt`, two timestamps joined by ` --> `, at
      position `i` of `s`: 29 characters. */
  predicate ArrowAt(s: string, i: nat)
  {
    && i + 29 <= |s|
    && StampAt(s, i)
    && s[i + 12] == ' ' && s[i + 13] == '-' && s[i + 14] == '-' && s[i + 15] == '>' && s[i + 16] == ' '
    && StampAt(s, i + 17)
  }

  /** `w` is exactly one match of the pattern. */
  predicate IsArrow(w: string)
  {
    |w| == 29 && ArrowAt(w, 0)
  }

  lemma StampSlice(s: string, i: nat)
    requires StampAt(s, i)
    ensures IsTimestamp(s[i..i + 12])
  {
  }

  /** `re.findall` of the pattern of `verify_srt`: the captured end timestamps
      of the non-overlapping matches, from left to right. */
  function EndTimestamps(s: string): (r: seq<string>)
    ensures forall k :: 0 <= k < |r| ==> IsTimestamp(r[k])
    decreases |s|
  {
    if |s| < 29 then []
    else if ArrowAt(s, 0) then
      StampSlice(s, 17);
      [s[17..29]] + EndTimestamps(s[29..])
    else EndTimestamps(s[1..])
  }

  /** The pattern of `verify_srt` matches somewhere in `s`. */
  predicate HasArrow(s: string)
  {
    exists i: nat :: i < |s| && ArrowAt(s, i)
  }

  /** `verify_srt` on the contents of the file (None when reading it fails). */
  function VerifySrt(originalSeconds: int, content: Option<string>): (r: bool)
    ensures r ==> content.Some? && EndTimestamps(content.value) != []
  {
    match content
    case None => false
    case Some(text) =>
      var ends := EndTimestamps(text);
      if ends == [] then false
      else match ParseSeconds(ends[|ends| - 1])
        case None => false
        case Some(srtSeconds) => SrtCoverageOk(srtSeconds, originalSeconds)
  }

  /** Positions in a suffix are positions in the whole, shifted. */
  lemma ArrowInSuffix(s: string, j: nat, i: nat)
    requires j <= |s|
    ensures ArrowAt(s[j..], i) <==> ArrowAt(s, j + i)
  {
  }

  /** A match inside `A` is a match inside `A + B`. */
  lemma ArrowInPrefix(a: string, b: string, i: nat)
    requires i + 29 <= |a|
    ensures ArrowAt(a + b, i) <==> ArrowAt(a, i)
  {
  }

  /** A match placed between two strings is found there. */
  lemma ArrowEmbedded(x: string, w: string, y: string)
    requires IsArrow(w)
    ensures ArrowAt(x + w + y, |x|)
  {
    var s := x + w + y;
    assert forall k :: 0 <= k < 29 ==> s[|x| + k] == w[k];
  }

  lemma ArrowChars(s: string, i: nat)
    requires ArrowAt(s, i)
    ensures forall k :: i <= k < i + 29 ==> s[k] != '\n'
  {
  }

  lemma NewlineBreaksArrow(s: string, i: nat, k: nat)
    requires i <= k < i + 29 && k < |s| && s[k] == '\n'
    ensures !ArrowAt(s, i)
  {
    if ArrowAt(s, i) {
      ArrowChars(s, i);
    }
  }

  /** Finding no match is the same as the pattern occurring nowhere. */
  lemma {:induction false} NoMatchIffNoArrow(s: string)
    ensures EndTimestamps(s) == [] <==> !HasArrow(s)
    decreases |s|
  {
    if |s| < 29 {
    } else if ArrowAt(s, 0) {
    } else {
      NoMatchIffNoArrow(s[1..]);
      if HasArrow(s) {
        var i: nat :| i < |s| && ArrowAt(s, i);
        ArrowInSuffix(s, 1, i - 1);
      }
      if HasArrow(s[1..]) {
        var i: nat :| i < |s[1..]| && ArrowAt(s[1..], i);
        ArrowInSuffix(s, 1, i);
      }
    }
  }

  /** `verify_srt` fails whenever the pattern occurs nowhere in the file, and
      otherwise judges the last end timestamp found (its parse never fails). */
  lemma VerifySrtRule(originalSeconds: int, text: string)
    ensures !HasArrow(text) ==> !VerifySrt(originalSeconds, Some(text))
    ensures HasArrow(text) ==>
      var ends := EndTimestamps(text);
      && ends != []
      && ParseSeconds(ends[|ends| - 1]).Some?
      && VerifySrt(originalSeconds, Some(text))
         == SrtCoverageOk(ParseSeconds(ends[|ends| - 1]).value, originalSeconds)
  {
    NoMatchIffNoArrow(text);
  }

  /** Scanning stops at a newline: the matches of `A + B` are those of `A`
      followed by those of `B` when `A` ends a line. */
  lemma {:induction false} EndTimestampsConcat(a: string, b: string)
    requires a == [] || a[|a| - 1] == '\n'
    ensures EndTimestamps(a + b) == EndTimestamps(a) + EndTimestamps(b)
    decreases |a|
  {
    var s := a + b;
    if a == [] {
      assert s == b;
    } else if |s| >= 29 {
      if |a| <= 29 {
        NewlineBreaksArrow(s, 0, |a| - 1);
      } else {
        ArrowInPrefix(a, b, 0);
      }
      if ArrowAt(s, 0) {
        assert s[29..] == a[29..] + b;
        assert s[17..29] == a[17..29];
        EndTimestampsConcat(a[29..], b);
      } else {
        if |a| == 29 {
          assert a == s[..29];
        }
        assert s[1..] == a[1..] + b;
        EndTimestampsConcat(a[1..], b);
      }
    }
  }

  lemma {:induction false} NoArrowWithoutGreater(s: string)
    requires '>' !in s
    ensures EndTimestamps(s) == []
    decreases |s|
  {
    if |s| >= 29 {
      assert s[15] != '>';
      NoArrowWithoutGreater(s[1..]);
    }
  }

  lemma ArrowLayout(x: string, y: string)
    requires IsTimestamp(x) && IsTimestamp(y)
    ensures IsArrow(x + " --> " + y) && (x + " --> " + y)[17..] == y
  {
    var t := x + " --> " + y;
    assert forall k :: 0 <= k < 12 ==> t[k] == x[k];
    assert forall k :: 0 <= k < 12 ==> t[17 + k] == y[k];
    assert t[17..] == y;
  }

  lemma TimeLineIsArrow(seg: Segment)
    requires Renderable(seg)
    ensures IsArrow(TimeLine(seg))
    ensures TimeLine(seg)[17..] == Format(seg.end)
  {
    FormatShape(seg.start);
    FormatShape(seg.end);
    ArrowLayout(Format(seg.start), Format(seg.end));
  }

  lemma StripKeepsOut(s: string, c: char)
    requires c !in s
    ensures c !in Strip(s)
  {
    var l := TrimLeft(s);
    assert l == s[|s| - |l|..];
    assert c !in l;
    var r := TrimRight(l);
    assert r == l[..|r|];
  }

  /** A block whose text has no `>` matches once, with its time line. */
  lemma LayoutEndTimestamps(number: string, line: string, text: string)
    requires AllDigits(number) && IsArrow(line) && '>' !in text
    ensures EndTimestamps(Layout(number, line, text)) == [line[17..]]
  {
    var p1 := number + "\n";
    var p2 := line + "\n";
    var p3 := text + "\n";
    var p4 := "\n";
    assert Layout(number, line, text) == p1 + (p2 + (p3 + p4));
    EndTimestampsConcat(p1, p2 + (p3 + p4));
    EndTimestampsConcat(p2, p3 + p4);
    EndTimestampsConcat(p3, p4);
    assert '>' !in p1 by {
      forall k | 0 <= k < |p1| ensures p1[k] != '>' {
        if k < |number| { assert p1[k] == number[k]; }
      }
    }
    NoArrowWithoutGreater(p1);
    NoArrowWithoutGreater(p3);
    ArrowInPrefix(line, "\n", 0);
    assert p2[29..] == "\n";
    assert p2[17..29] == line[17..];
  }

  /** Each block contributes exactly its end timestamp to the matches. */
  lemma BlockEndTimestamps(index: nat, seg: Segment)
    requires Renderable(seg) && '>' !in seg.text
    ensures EndTimestamps(Block(index, seg)) == [Format(seg.end)]
  {
    TimeLineIsArrow(seg);
    StripKeepsOut(seg.text, '>');
    LayoutEndTimestamps(NatToString(index), TimeLine(seg), Strip(seg.text));
  }

  /** The end timestamps of the segments, in order. */
  function EndStamps(segs: seq<Segment>): (r: seq<string>)
    ensures |r| == |segs|
  {
    if segs == [] then [] else EndStamps(segs[..|segs| - 1]) + [Format(segs[|segs| - 1].end)]
  }

  lemma LayoutEndsLine(x: string, number: string, line: string, text: string)
    ensures EndsWith(x + Layout(number, line, text), "\n\n")
  {
    var s := x + Layout(number, line, text);
    assert s == (x + number + "\n" + line + "\n" + text) + "\n\n";
    assert s[|s| - 2..] == "\n\n";
  }

  lemma DocumentEndsLine(segs: seq<Segment>)
    ensures Document(segs) == [] || EndsWith(Document(segs), "\n\n")
  {
    if segs != [] {
      var last := segs[|segs| - 1];
      LayoutEndsLine(Document(segs[..|segs| - 1]), NatToString(|segs|), TimeLine(last), Strip(last.text));
    }
  }

  /** In a file written by `transcribe_audio`, the pattern of `verify_srt`
      finds exactly one match per segment, carrying that segment's end time. */
  lemma {:induction false} DocumentEndTimestamps(segs: seq<Segment>)
    requires forall k :: 0 <= k < |segs| ==> Renderable(segs[k]) && '>' !in segs[k].text
    ensures EndTimestamps(Document(segs)) == EndStamps(segs)
    decreases |segs|
  {
    if segs != [] {
      var init := segs[..|segs| - 1];
      DocumentEndTimestamps(init);
      DocumentEndsLine(init);
      EndTimestampsConcat(Document(init), Block(|segs|, segs[|segs| - 1]));
      BlockEndTimestamps(|segs|, segs[|segs| - 1]);
    }
  }

  /** `verify_srt` judges the seconds read from the last end timestamp found. */
  lemma VerifyByLastStamp(originalSeconds: int, text: string, stamp: string, seconds: nat)
    requires var ends := EndTimestamps(text); ends != [] && ends[|ends| - 1] == stamp
    requires ParseSeconds(stamp) == Some(seconds)
    ensures VerifySrt(originalSeconds, Some(text)) == SrtCoverageOk(seconds, originalSeconds)
  {
  }

  /** Writing a transcription and verifying it agree: `verify_srt` reads back
      the whole seconds of the last segment's end and applies the subtitle
      rule to them; an empty transcription fails. */
  lemma VerifyWrittenSrt(originalSeconds: int, segs: seq<Segment>)
    requires forall k :: 0 <= k < |segs| ==> Renderable(segs[k]) && '>' !in segs[k].text
    ensures VerifySrt(originalSeconds, Some(Document(segs)))
            == (segs != [] && SrtCoverageOk(segs[|segs| - 1].end / SecondMs, originalSeconds))
  {
    DocumentEndTimestamps(segs);
    if segs != [] {
      var last := segs[|segs| - 1];
      assert EndStamps(segs)[|segs| - 1] == Format(last.end);
      FormatParseRoundTrip(last.end);
      VerifyByLastStamp(originalSeconds, Document(segs), Format(last.end), last.end / SecondMs);
    }
  }

  // ---------------------------------------------------------------------
  // summarize_srt: the flat transcript

  /** Length of a match of `\d+\n<time line>\n` at the start of `s`, if any. */
  function HeaderLength(s: string): (r: Option<nat>)
    ensures r.Some? ==> 0 < r.value <= |s|
  {
    var d := DigitRun(s);
    if 0 < d && d + 31 <= |s| && s[d] == '\n' && ArrowAt(s, d + 1) && s[d + 30] == '\n'
    then Some(d + 31)
    else None
  }

  /** `re.sub` of the index-and-time-line pattern with the empty string. */
  function StripHeaders(s: string): string
    decreases |s|
  {
    if s == [] then []
    else match HeaderLength(s)
      case Some(n) => StripHeaders(s[n..])
      case None => [s[0]] + StripHeaders(s[1..])
  }

  /** The transcript `summarize_srt` puts into the prompt. */
  function Transcript(srt: string): string
  {
    ReplaceChar(StripHeaders(srt), '\n', ' ')
  }

  /** What a transcription should read as: each stripped text and two spaces. */
  function SpokenText(segs: seq<Segment>): string
  {
    if segs == [] then "" else SpokenText(segs[..|segs| - 1]) + Strip(segs[|segs| - 1].text) + "  "
  }

  lemma {:induction false} DigitRunPrefix(a: string, b: string)
    requires DigitRun(a) < |a|
    ensures DigitRun(a + b) == DigitRun(a)
    decreases |a|
  {
    if IsDigit(a[0]) {
      assert (a + b)[1..] == a[1..] + b;
      DigitRunPrefix(a[1..], b);
    }
  }

  /** A text that is empty or ends with an empty line. */
  predicate EndsParagraph(a: string)
  {
    a == [] || a == "\n" || EndsWith(a, "\n\n")
  }

  lemma ParagraphSuffix(a: string, n: nat)
    requires EndsParagraph(a) && n <= |a|
    ensures EndsParagraph(a[n..])
  {
    var t := a[n..];
    if |t| >= 2 {
      assert a != "\n";
      assert t[|t| - 2..] == a[|a| - 2..];
    } else if |t| == 1 {
      assert t == [a[|a| - 1]];
      if a != "\n" { assert a[|a| - 2..] == "\n\n"; }
    }
  }

  /** A header never holds two line breaks in a row. */
  lemma NoEmptyLineInHeader(s: string, d: nat)
    requires 0 < d && d + 31 <= |s| && DigitRun(s) == d
    requires s[d] == '\n' && ArrowAt(s, d + 1) && s[d + 30] == '\n'
    ensures forall k :: 0 < k <= d + 30 ==> s[k - 1] != '\n' || s[k] != '\n'
  {
    ArrowChars(s, d + 1);
    forall k | 0 < k <= d + 30 ensures s[k - 1] != '\n' || s[k] != '\n' {
      if k <= d {
        assert IsDigit(s[k - 1]);
      } else if k < d + 30 {
        assert s[k] != '\n';
      } else {
        assert s[k - 1] != '\n';
      }
    }
  }

  /** When `A` ends with an empty line, a header that starts at the front of
      `A + B` lies within `A`, at least one character short of its end. */
  lemma HeaderWithin(a: string, b: string)
    requires a != [] && EndsParagraph(a)
    ensures HeaderLength(a + b) == HeaderLength(a)
    ensures HeaderLength(a).Some? ==> HeaderLength(a).value < |a|
  {
    assert a[|a| - 1] == '\n' && (|a| >= 2 ==> a[|a| - 2] == '\n') by {
      if a != "\n" { assert a[|a| - 2..] == "\n\n"; }
    }
    DigitRunPrefix(a, b);
    if HeaderLength(a + b).Some? {
      HeaderOfWhole(a, b);
    } else if HeaderLength(a).Some? {
      HeaderOfPart(a, b);
    }
  }

  lemma HeaderOfWhole(a: string, b: string)
    requires a != [] && a[|a| - 1] == '\n' && (|a| >= 2 ==> a[|a| - 2] == '\n')
    requires DigitRun(a + b) == DigitRun(a)
    requires HeaderLength(a + b).Some?
    ensures HeaderLength(a) == HeaderLength(a + b) && HeaderLength(a).value < |a|
  {
    var s, d := a + b, DigitRun(a);
    NoEmptyLineInHeader(s, d);
    assert s[|a| - 2] == '\n' && s[|a| - 1] == '\n';
    ArrowInPrefix(a, b, d + 1);
  }

  lemma HeaderOfPart(a: string, b: string)
    requires DigitRun(a + b) == DigitRun(a)
    requires HeaderLength(a).Some?
    ensures HeaderLength(a + b) == HeaderLength(a)
  {
    ArrowInPrefix(a, b, DigitRun(a) + 1);
  }

  /** How far one step of the substitution advances. */
  function Skip(s: string): (n: nat)
    requires s != []
    ensures 0 < n <= |s|
  {
    match HeaderLength(s)
    case Some(n) => n
    case None => 1
  }

  /** What one step of the substitution keeps: nothing after a header. */
  function Kept(s: string): string
    requires s != []
  {
    if HeaderLength(s).Some? then [] else [s[0]]
  }

  lemma StripStep(s: string)
    requires s != []
    ensures StripHeaders(s) == Kept(s) + StripHeaders(s[Skip(s)..])
  {
  }

  /** The first step on `A + B` is the first step on `A`, when `A` ends with
      an empty line. */
  lemma StepWithin(a: string, b: string)
    requires a != [] && EndsParagraph(a)
    ensures Skip(a + b) == Skip(a) && Kept(a + b) == Kept(a) && Skip(a) <= |a|
    ensures (a + b)[Skip(a)..] == a[Skip(a)..] + b
  {
    HeaderWithin(a, b);
  }

  /** A header can start inside `A` only if it also ends inside `A`, when `A`
      ends with an empty line. */
  lemma {:induction false} StripHeadersConcat(a: string, b: string)
    requires EndsParagraph(a)
    ensures StripHeaders(a + b) == StripHeaders(a) + StripHeaders(b)
    decreases |a|
  {
    var s := a + b;
    if a == [] {
      assert s == b;
    } else {
      var n := Skip(a);
      StepWithin(a, b);
      ParagraphSuffix(a, n);
      var k, x, y := Kept(a), StripHeaders(a[n..]), StripHeaders(b);
      StripStep(s);
      StripHeadersConcat(a[n..], b);
      StripStep(a);
      AppendAssoc(k, x, y);
    }
  }

  /** A single line of text followed by an empty line holds no header. */
  lemma {:induction false} NoHeaderInText(t: string)
    requires '\n' !in t
    ensures StripHeaders(t + "\n\n") == t + "\n\n"
    decreases |t|
  {
    var s := t + "\n\n";
    assert s[|t|] == '\n';
    assert HeaderLength(s) == None;
    if t == [] {
      assert s[1..] == "\n";
      assert HeaderLength("\n") == None;
    } else {
      assert s[1..] == t[1..] + "\n\n";
      NoHeaderInText(t[1..]);
    }
  }

  lemma ReplaceCharConcat(x: string, y: string, a: char, b: char)
    ensures ReplaceChar(x + y, a, b) == ReplaceChar(x, a, b) + ReplaceChar(y, a, b)
  {
    assert forall k :: 0 <= k < |x| ==> (x + y)[k] == x[k];
    assert forall k :: |x| <= k < |x + y| ==> (x + y)[k] == y[k - |x|];
  }

  lemma {:induction false} DigitsRun(digits: string, rest: string)
    requires AllDigits(digits)
    requires rest != [] && !IsDigit(rest[0])
    ensures DigitRun(digits + rest) == |digits|
    decreases |digits|
  {
    if digits == [] {
      assert digits + rest == rest;
    } else {
      assert (digits + rest)[1..] == digits[1..] + rest;
      DigitsRun(digits[1..], rest);
    }
  }

  /** A block whose text is one line loses exactly its index and time line. */
  lemma LayoutStripped(number: string, line: string, text: string)
    requires number != [] && AllDigits(number) && IsArrow(line) && '\n' !in text
    ensures StripHeaders(Layout(number, line, text)) == text + "\n\n"
  {
    var s := Layout(number, line, text);
    var tail := text + "\n\n";
    var d := |number|;
    assert s == number + ("\n" + line + "\n" + tail);
    assert s == (number + "\n") + line + ("\n" + tail);
    DigitsRun(number, "\n" + line + "\n" + tail);
    ArrowEmbedded(number + "\n", line, "\n" + tail);
    assert s[d] == '\n';
    assert s[d + 30] == '\n';
    assert HeaderLength(s) == Some(d + 31);
    assert s[d + 31..] == tail;
    NoHeaderInText(text);
  }

  /** Each block loses exactly its index and time line. */
  lemma BlockStripped(index: nat, seg: Segment)
    requires Renderable(seg) && '\n' !in seg.text
    ensures StripHeaders(Block(index, seg)) == Strip(seg.text) + "\n\n"
  {
    TimeLineIsArrow(seg);
    StripKeepsOut(seg.text, '\n');
    LayoutStripped(NatToString(index), TimeLine(seg), Strip(seg.text));
  }

  /** Appending a block whose headers strip to one line of text appends that
      text and two spaces to the transcript. */
  lemma TranscriptStep(x: string, b: string, t: string)
    requires EndsParagraph(x) && StripHeaders(b) == t + "\n\n" && '\n' !in t
    ensures Transcript(x + b) == Transcript(x) + t + "  "
  {
    StripHeadersConcat(x, b);
    ReplaceCharConcat(StripHeaders(x), t + "\n\n", '\n', ' ');
    LineBreaksToSpaces(t);
    AppendAssoc(Transcript(x), t, "  ");
  }

  lemma LineBreaksToSpaces(t: string)
    requires '\n' !in t
    ensures ReplaceChar(t + "\n\n", '\n', ' ') == t + "  "
  {
    var r := ReplaceChar(t + "\n\n", '\n', ' ');
    forall k | 0 <= k < |r| ensures r[k] == (t + "  ")[k] {
      if k < |t| { assert (t + "\n\n")[k] == t[k]; }
    }
  }

  /** The transcript of a file written by `transcribe_audio` is exactly the
      segment texts, each followed by two spaces: index lines and time lines
      are removed, and the line breaks become spaces. */
  lemma {:induction false} TranscriptOfDocument(segs: seq<Segment>)
    requires forall k :: 0 <= k < |segs| ==> Renderable(segs[k]) && '\n' !in segs[k].text
    ensures Transcript(Document(segs)) == SpokenText(segs)
    decreases |segs|
  {
    if segs != [] {
      var init, last := segs[..|segs| - 1], segs[|segs| - 1];
      TranscriptOfDocument(init);
      DocumentEndsLine(init);
      BlockStripped(|segs|, last);
      StripKeepsOut(last.text, '\n');
      TranscriptStep(Document(init), Block(|segs|, last), Strip(last.text));
    }
  }
}
