/**
 * Where a video's title comes from and how it is normalised into the name
 * of its output directory and files.
 */
module Titles {
  import opened Text
  import opened Optional
  import opened Patterns

  /** `is_url`: the input is an http(s) address. */
  predicate IsUrl(s: string)
  {
    StartsWith(s, "http://") || StartsWith(s, "https://")
  }

  /** An http(s) address never starts like a local path, so the local-path
      prefixes of `IsLocalInput` never catch an online input. */
  lemma UrlIsNoLocalPath(s: string)
    requires IsUrl(s)
    ensures !StartsWith(s, "/") && !StartsWith(s, "input/")
  {
    assert s[0] == 'h';
  }

  /** The test is on the exact lower-case prefix; an online address with a
      media suffix counts both as a URL and as a local input. */
  lemma UrlExamples()
    ensures IsUrl("https://gdcvault.com/play/1025/")
    ensures !IsUrl("input/talk.mp4") && !IsUrl("HTTPS://gdcvault.com") && !IsUrl("ftp://host/a.mp4")
    ensures IsUrl("https://host/v.mp4") && IsLocalInput("https://host/v.mp4")
  {
    var gdc, local, upper, ftp, media := "https://gdcvault.com/play/1025/", "input/talk.mp4", "HTTPS://gdcvault.com", "ftp://host/a.mp4", "https://host/v.mp4";
    assert gdc[..8] == "https://";
    assert local[0] != 'h' && upper[0] != 'h' && ftp[0] != 'h';
    assert media[..8] == "https://";
    assert media[|media| - 4..] == ".mp4";
  }

  /** GDC Vault inputs are recognised by their host name anywhere in the input. */
  predicate IsGdcVault(url: string)
  {
    Contains(url, "gdcvault.com")
  }

  /** Inputs taken to be local files: a media or subtitle suffix, or a local path prefix. */
  predicate IsLocalInput(url: string)
  {
    || EndsWith(url, ".srt") || EndsWith(url, ".mp4") || EndsWith(url, ".mkv")
    || EndsWith(url, ".mov") || EndsWith(url, ".avi") || EndsWith(url, ".webm")
    || StartsWith(url, "/") || StartsWith(url, "input/")
  }

  // ---------------------------------------------------------------------
  // Path stems
  // ---------------------------------------------------------------------

  /** The final component of a POSIX path, ignoring empty and `.` components. */
  function PathName(s: string): (r: string)
    ensures '/' !in r && r != "."
    decreases |s|
  {
    var f := LastField(s, '/');
    if f != [] && f != "." then f
    else if |f| == |s| then []
    else PathName(s[..|s| - |f| - 1])
  }

  /** The final component without its last suffix (a suffix needs a dot that is neither first nor last). */
  function Stem(name: string): (r: string)
    ensures |r| <= |name| && r == name[..|r|]
    ensures name != [] ==> r != []
  {
    var ext := LastField(name, '.');
    var i := |name| - |ext| - 1;
    if |ext| < |name| && 0 < i && ext != [] then name[..i] else name
  }

  /** `Path(s).stem`. */
  function PathStem(s: string): (r: string)
    ensures '/' !in r
  {
    var name := PathName(s);
    var r := Stem(name);
    assert forall k :: 0 <= k < |r| ==> r[k] == name[k];
    r
  }

  /** A file name with a one-dot suffix such as `.mp4` loses exactly that suffix. */
  lemma StemDropsSuffix(name: string, base: string, ext: string)
    requires base != [] && ext != [] && '.' !in ext
    requires name == base + "." + ext
    ensures Stem(name) == base
  {
    var e := LastField(name, '.');
    assert name[|name| - |ext| - 1] == '.';
    assert name[|name| - |ext|..] == ext;
    LastFieldOfSuffix(name, ext, '.');
    assert e == ext;
    assert name[..|base|] == base;
  }

  /** The last field is the text after the final separator. */
  lemma LastFieldOfSuffix(s: string, f: string, sep: char)
    requires |f| < |s| && s[|s| - |f|..] == f && sep !in f && s[|s| - |f| - 1] == sep
    ensures LastField(s, sep) == f
  {
  }

  lemma StemExample()
    ensures PathStem("input/My Talk.mp4") == "My Talk"
  {
    LastFieldOfSuffix("input/My Talk.mp4", "My Talk.mp4", '/');
    StemDropsSuffix("My Talk.mp4", "My Talk", "mp4");
  }

  // ---------------------------------------------------------------------
  // Cleaning
  // ---------------------------------------------------------------------

  /** Quotes, brackets, the ideographic comma and the full-width colon. */
  predicate IsTitlePunct(c: char)
  {
    c in {'\'', '"', '(', ')', '[', ']', '{', '}', '、', '：'}
  }

  /** White space and hyphens, the characters whose runs become `_`. */
  predicate IsSeparator(c: char)
  {
    IsSpace(c) || c == '-'
  }

  predicate IsAsciiAlnum(c: char)
  {
    IsAsciiLetter(c) || IsDigit(c)
  }

  /** The ASCII letters and digits of `s`, in order. */
  function AlnumOf(s: string): seq<char>
  {
    if s == [] then [] else (if IsAsciiAlnum(s[0]) then [s[0]] else []) + AlnumOf(s[1..])
  }

  lemma {:induction false} AlnumOfConcat(a: string, b: string)
    ensures AlnumOf(a + b) == AlnumOf(a) + AlnumOf(b)
  {
    if a == [] {
      assert a + b == b;
    } else {
      var h := if IsAsciiAlnum(a[0]) then [a[0]] else [];
      assert (a + b)[0] == a[0];
      assert (a + b)[1..] == a[1..] + b;
      AlnumOfConcat(a[1..], b);
      calc {
        AlnumOf(a + b);
        h + AlnumOf(a[1..] + b);
        h + (AlnumOf(a[1..]) + AlnumOf(b));
        (h + AlnumOf(a[1..])) + AlnumOf(b);
        AlnumOf(a) + AlnumOf(b);
      }
    }
  }

  /** Step 1: delete punctuation. */
  function RemovePunct(s: string): (r: string)
    ensures forall k :: 0 <= k < |r| ==> !IsTitlePunct(r[k])
    ensures AlnumOf(r) == AlnumOf(s)
    ensures (forall k :: 0 <= k < |s| ==> !IsTitlePunct(s[k])) ==> r == s
  {
    if s == [] then []
    else
      var h := if IsTitlePunct(s[0]) then [] else [s[0]];
      AlnumOfConcat(h, RemovePunct(s[1..]));
      h + RemovePunct(s[1..])
  }

  /** `s` without its leading separators. */
  function DropSeparators(s: string): (r: string)
    ensures |r| <= |s| && r == s[|s| - |r|..]
    ensures r != [] ==> !IsSeparator(r[0])
    ensures AlnumOf(r) == AlnumOf(s)
  {
    if s != [] && IsSeparator(s[0]) then
      SkipNonAlnum(s);
      DropSeparators(s[1..])
    else s
  }

  lemma SkipNonAlnum(s: string)
    requires s != [] && !IsAsciiAlnum(s[0])
    ensures AlnumOf(s) == AlnumOf(s[1..])
  {
  }

  /** Step 2: each maximal run of separators becomes one `_`. */
  function CollapseSeparators(s: string): (r: string)
    ensures forall k :: 0 <= k < |r| ==> !IsSeparator(r[k])
    ensures AlnumOf(r) == AlnumOf(s)
    decreases |s|
  {
    if s == [] then []
    else if IsSeparator(s[0]) then
      var rest := DropSeparators(s[1..]);
      var r := "_" + CollapseSeparators(rest);
      AlnumOfConcat("_", CollapseSeparators(rest));
      SkipNonAlnum(s);
      r
    else
      var r := [s[0]] + CollapseSeparators(s[1..]);
      AlnumOfConcat([s[0]], CollapseSeparators(s[1..]));
      r
  }

  /** Step 3: keep only ASCII letters, digits and `_`. */
  function KeepTitleChars(s: string): (r: string)
    ensures forall k :: 0 <= k < |r| ==> IsTitleChar(r[k])
    ensures AlnumOf(r) == AlnumOf(s)
    ensures (forall k :: 0 <= k < |s| ==> IsTitleChar(s[k])) ==> r == s
    ensures (forall k :: 0 <= k < |s| ==> !IsTitleChar(s[k])) ==> r == []
  {
    if s == [] then []
    else
      var h := if IsTitleChar(s[0]) then [s[0]] else [];
      AlnumOfConcat(h, KeepTitleChars(s[1..]));
      h + KeepTitleChars(s[1..])
  }

  const DefaultTitle := "default_video_title"

  /** The three cleaning steps, with the fallback for an empty result. */
  function CleanTitle(raw: string): (r: string)
    ensures r != []
    ensures forall k :: 0 <= k < |r| ==> IsTitleChar(r[k])
    ensures AlnumOf(raw) != [] ==> AlnumOf(r) == AlnumOf(raw)
  {
    var t := KeepTitleChars(CollapseSeparators(RemovePunct(raw)));
    if t == [] then DefaultTitle else t
  }

  /** Step 1 is a filter: it works character by character ... */
  lemma {:induction false} RemovePunctConcat(a: string, b: string)
    ensures RemovePunct(a + b) == RemovePunct(a) + RemovePunct(b)
  {
    if a == [] {
      assert a + b == b;
    } else {
      var h := if IsTitlePunct(a[0]) then [] else [a[0]];
      var t := a[1..];
      assert RemovePunct(a + b) == h + RemovePunct(t + b) by {
        assert (a + b)[0] == a[0];
        assert (a + b)[1..] == t + b;
        RemovePunctCons(a + b);
      }
      assert RemovePunct(t + b) == RemovePunct(t) + RemovePunct(b) by {
        RemovePunctConcat(t, b);
      }
      assert RemovePunct(a) == h + RemovePunct(t) by {
        RemovePunctCons(a);
      }
      calc {
        RemovePunct(a + b);
        h + RemovePunct(t + b);
        h + (RemovePunct(t) + RemovePunct(b));
        { AppendAssoc(h, RemovePunct(t), RemovePunct(b)); }
        (h + RemovePunct(t)) + RemovePunct(b);
        RemovePunct(a) + RemovePunct(b);
      }
    }
  }


  lemma RemovePunctCons(s: string)
    requires s != []
    ensures RemovePunct(s) == (if IsTitlePunct(s[0]) then [] else [s[0]]) + RemovePunct(s[1..])
  {
  }

  /** ... dropping exactly the punctuation and keeping every other character. */
  lemma RemovePunctChar(c: char)
    ensures RemovePunct([c]) == if IsTitlePunct(c) then [] else [c]
  {
    assert [c][1..] == [];
  }

  /** Step 3 is a filter: it works character by character ... */
  lemma {:induction false} KeepTitleCharsConcat(a: string, b: string)
    ensures KeepTitleChars(a + b) == KeepTitleChars(a) + KeepTitleChars(b)
  {
    if a == [] {
      assert a + b == b;
    } else {
      var h := if IsTitleChar(a[0]) then [a[0]] else [];
      var t := a[1..];
      assert KeepTitleChars(a + b) == h + KeepTitleChars(t + b) by {
        assert (a + b)[0] == a[0];
        assert (a + b)[1..] == t + b;
        KeepTitleCharsCons(a + b);
      }
      assert KeepTitleChars(t + b) == KeepTitleChars(t) + KeepTitleChars(b) by {
        KeepTitleCharsConcat(t, b);
      }
      assert KeepTitleChars(a) == h + KeepTitleChars(t) by {
        KeepTitleCharsCons(a);
      }
      calc {
        KeepTitleChars(a + b);
        h + KeepTitleChars(t + b);
        h + (KeepTitleChars(t) + KeepTitleChars(b));
        { AppendAssoc(h, KeepTitleChars(t), KeepTitleChars(b)); }
        (h + KeepTitleChars(t)) + KeepTitleChars(b);
        KeepTitleChars(a) + KeepTitleChars(b);
      }
    }
  }


  lemma KeepTitleCharsCons(s: string)
    requires s != []
    ensures KeepTitleChars(s) == (if IsTitleChar(s[0]) then [s[0]] else []) + KeepTitleChars(s[1..])
  {
  }

  /** ... keeping exactly the `[A-Za-z0-9_]` characters, `_` included. */
  lemma KeepTitleCharChar(c: char)
    ensures KeepTitleChars([c]) == if IsTitleChar(c) then [c] else []
  {
    assert [c][1..] == [];
  }

  /** An ASCII letter or digit is a title character and neither punctuation nor a separator. */
  lemma AlnumWord(s: string)
    requires forall k :: 0 <= k < |s| ==> IsAsciiAlnum(s[k])
    ensures forall k :: 0 <= k < |s| ==> IsTitleChar(s[k]) && !IsTitlePunct(s[k]) && !IsSeparator(s[k])
  {
  }

  /** The two words and the run hold no punctuation, so step 1 keeps them. */
  lemma TwoWordsStep1(x: string, run: string, y: string)
    requires forall k :: 0 <= k < |x| ==> IsAsciiAlnum(x[k])
    requires forall k :: 0 <= k < |run| ==> IsSeparator(run[k])
    requires forall k :: 0 <= k < |y| ==> IsAsciiAlnum(y[k])
    ensures RemovePunct(x + run + y) == x + run + y
  {
    AlnumWord(x);
    AlnumWord(y);
    assert forall k :: 0 <= k < |run| ==> !IsTitlePunct(run[k]);
    assert RemovePunct(x) == x && RemovePunct(run) == run && RemovePunct(y) == y;
    RemovePunctConcat(x, run);
    RemovePunctConcat(x + run, y);
  }

  /** Step 2 turns the run into one `_`. */
  lemma TwoWordsStep2(x: string, run: string, y: string)
    requires forall k :: 0 <= k < |x| ==> IsAsciiAlnum(x[k])
    requires run != [] && forall k :: 0 <= k < |run| ==> IsSeparator(run[k])
    requires y != [] && forall k :: 0 <= k < |y| ==> IsAsciiAlnum(y[k])
    ensures CollapseSeparators(x + run + y) == x + "_" + y
  {
    AlnumWord(x);
    AlnumWord(y);
    CollapseWord(x, run + y);
    CollapseRun(run, y);
    calc {
      CollapseSeparators(x + run + y);
      { AppendAssoc(x, run, y); }
      CollapseSeparators(x + (run + y));
      x + CollapseSeparators(run + y);
      x + ("_" + CollapseSeparators(y));
      { CollapsePlain(y); }
      x + ("_" + y);
      { AppendAssoc(x, "_", y); }
      x + "_" + y;
    }
  }

  /** Step 3 keeps the words and the `_`. */
  lemma TwoWordsStep3(x: string, y: string)
    requires forall k :: 0 <= k < |x| ==> IsAsciiAlnum(x[k])
    requires forall k :: 0 <= k < |y| ==> IsAsciiAlnum(y[k])
    ensures KeepTitleChars(x + "_" + y) == x + "_" + y
  {
    AlnumWord(x);
    AlnumWord(y);
    assert KeepTitleChars(x) == x && KeepTitleChars("_") == "_" && KeepTitleChars(y) == y;
    KeepTitleCharsConcat(x, "_");
    KeepTitleCharsConcat(x + "_", y);
  }

  /** Two words joined by a run of spaces or hyphens come out joined by one
      `_`, so `My Talk` is cleaned to `My_Talk`. */
  lemma CleanTwoWords(x: string, run: string, y: string)
    requires x != [] && forall k :: 0 <= k < |x| ==> IsAsciiAlnum(x[k])
    requires run != [] && forall k :: 0 <= k < |run| ==> IsSeparator(run[k])
    requires y != [] && forall k :: 0 <= k < |y| ==> IsAsciiAlnum(y[k])
    ensures CleanTitle(x + run + y) == x + "_" + y
  {
    TwoWordsStep1(x, run, y);
    TwoWordsStep2(x, run, y);
    TwoWordsStep3(x, y);
  }

  /** A symbol outside the title alphabet that is no separator survives step 1 as itself or not at all. */
  lemma {:induction false} RemovePunctSymbols(s: string)
    requires forall k :: 0 <= k < |s| ==> !IsTitleChar(s[k]) && !IsSeparator(s[k])
    ensures forall k :: 0 <= k < |RemovePunct(s)| ==> !IsTitleChar(RemovePunct(s)[k]) && !IsSeparator(RemovePunct(s)[k])
  {
    if s != [] {
      RemovePunctSymbols(s[1..]);
      var h := if IsTitlePunct(s[0]) then [] else [s[0]];
      var r := RemovePunct(s[1..]);
      assert RemovePunct(s) == h + r;
      forall k | 0 <= k < |h + r|
        ensures !IsTitleChar((h + r)[k]) && !IsSeparator((h + r)[k])
      {
        if k < |h| {
          assert (h + r)[k] == s[0] && !IsTitleChar(s[0]) && !IsSeparator(s[0]);
        } else {
          assert (h + r)[k] == r[k - |h|];
        }
      }
    }
  }

  /** Raw text made only of symbols outside the title alphabet, separators
      excluded, has nothing left after cleaning and falls back to the default. */
  lemma CleanTitleDefault(raw: string)
    requires forall k :: 0 <= k < |raw| ==> !IsTitleChar(raw[k]) && !IsSeparator(raw[k])
    ensures CleanTitle(raw) == DefaultTitle
  {
    RemovePunctSymbols(raw);
    var x := RemovePunct(raw);
    CollapsePlain(x);
    assert KeepTitleChars(x) == [];
  }

  /** A title made only of `[A-Za-z0-9_]` passes every step unchanged. */
  lemma CleanKeepsTitle(t: string)
    requires t != [] && forall k :: 0 <= k < |t| ==> IsTitleChar(t[k])
    ensures CleanTitle(t) == t
  {
    assert forall k :: 0 <= k < |t| ==> !IsTitlePunct(t[k]) && !IsSeparator(t[k]);
    CollapsePlain(t);
  }

  /** Cleaning is idempotent. */
  lemma CleanIdempotent(raw: string)
    ensures CleanTitle(CleanTitle(raw)) == CleanTitle(raw)
  {
    CleanKeepsTitle(CleanTitle(raw));
  }

  /** A word without separators passes through step 2 unchanged. */
  lemma {:induction false} CollapseWord(w: string, rest: string)
    requires forall k :: 0 <= k < |w| ==> !IsSeparator(w[k])
    ensures CollapseSeparators(w + rest) == w + CollapseSeparators(rest)
  {
    if w == [] {
      assert w + rest == rest;
    } else {
      var s := w + rest;
      assert s[0] == w[0] && !IsSeparator(s[0]);
      assert s[1..] == w[1..] + rest;
      CollapseWord(w[1..], rest);
      calc {
        CollapseSeparators(s);
        [w[0]] + CollapseSeparators(w[1..] + rest);
        [w[0]] + (w[1..] + CollapseSeparators(rest));
        { AppendAssoc([w[0]], w[1..], CollapseSeparators(rest)); }
        ([w[0]] + w[1..]) + CollapseSeparators(rest);
        { assert [w[0]] + w[1..] == w; }
        w + CollapseSeparators(rest);
      }
    }
  }

  /** Text without separators passes through step 2 unchanged. */
  lemma CollapsePlain(s: string)
    requires forall k :: 0 <= k < |s| ==> !IsSeparator(s[k])
    ensures CollapseSeparators(s) == s
  {
    CollapseWord(s, []);
    assert s + [] == s;
  }

  /** A run of separators before a non-separator becomes a single `_`. */
  lemma {:induction false} CollapseRun(run: string, rest: string)
    requires run != [] && forall k :: 0 <= k < |run| ==> IsSeparator(run[k])
    requires rest != [] ==> !IsSeparator(rest[0])
    ensures CollapseSeparators(run + rest) == "_" + CollapseSeparators(rest)
  {
    DropRun(run[1..], rest);
    assert (run + rest)[1..] == run[1..] + rest;
  }

  lemma {:induction false} DropRun(run: string, rest: string)
    requires forall k :: 0 <= k < |run| ==> IsSeparator(run[k])
    requires rest != [] ==> !IsSeparator(rest[0])
    ensures DropSeparators(run + rest) == rest
  {
    if run == [] {
      assert run + rest == rest;
    } else {
      assert (run + rest)[1..] == run[1..] + rest;
      DropRun(run[1..], rest);
    }
  }

  // ---------------------------------------------------------------------
  // Title selection
  // ---------------------------------------------------------------------

  /** The raw title of a GDC Vault input: its `play/<digits>/` id, else its last URL segment. */
  function GdcRawTitle(url: string): (r: string)
    ensures r != []
  {
    match SearchDigits(url, "play/")
    case Some(id) => "gdcvault_" + id
    case None =>
      var last := LastField(url, '/');
      if last == [] then "m3u8_stream" else last
  }

  /**
   * `_get_video_title`. `titleProbe` is the title printed by the external
   * probe, or None when that probe failed; the failure propagates as None.
   */
  function VideoTitle(url: string, titleProbe: Option<string>): (r: Option<string>)
    ensures r.None? <==> !IsLocalInput(url) && !IsGdcVault(url) && titleProbe.None?
    ensures !IsLocalInput(url) && r.Some? ==> r.value != [] && forall k :: 0 <= k < |r.value| ==> IsTitleChar(r.value[k])
    ensures r.Some? ==> '/' !in r.value
  {
    if IsLocalInput(url) then Some(PathStem(url))
    else if IsGdcVault(url) then
      var t := CleanTitle(GdcRawTitle(url));
      TitleHasNoSlash(t);
      Some(t)
    else
      match titleProbe
      case None => None
      case Some(out) =>
        var t := CleanTitle(Strip(out));
        TitleHasNoSlash(t);
        Some(t)
  }

  /** A cleaned title has no path separator. */
  lemma TitleHasNoSlash(t: string)
    requires forall k :: 0 <= k < |t| ==> IsTitleChar(t[k])
    ensures '/' !in t
  {
  }

  /** A GDC Vault URL with a `play/<digits>/` id is titled `gdcvault_<digits>`. */
  lemma GdcTitleFromId(url: string, p: nat, probe: Option<string>)
    requires !IsLocalInput(url) && IsGdcVault(url)
    requires DigitsMatchAt(url, "play/", p)
    requires forall q: nat :: q < p ==> !DigitsMatchAt(url, "play/", q)
    ensures VideoTitle(url, probe) == Some("gdcvault_" + DigitsAt(url, "play/", p))
  {
    SearchDigitsLeftmost(url, "play/", p);
    var id := SearchDigits(url, "play/").value;
    IdTitleChars(id);
    CleanKeepsTitle("gdcvault_" + id);
  }

  /** `gdcvault_` followed by digits is made of title characters only. */
  lemma IdTitleChars(id: string)
    requires AllDigits(id)
    ensures var t := "gdcvault_" + id; forall k :: 0 <= k < |t| ==> IsTitleChar(t[k])
  {
    var t := "gdcvault_" + id;
    forall k | 0 <= k < |t| ensures IsTitleChar(t[k]) {
      if k >= 9 {
        assert t[k] == id[k - 9];
      }
    }
  }

  /** Without an id, a GDC Vault URL is titled by its cleaned last `/` segment, or `m3u8_stream`. */
  lemma GdcTitleWithoutId(url: string, probe: Option<string>)
    requires !IsLocalInput(url) && IsGdcVault(url)
    requires forall q: nat :: !DigitsMatchAt(url, "play/", q)
    ensures LastField(url, '/') != [] ==> VideoTitle(url, probe) == Some(CleanTitle(LastField(url, '/')))
    ensures LastField(url, '/') == [] ==> VideoTitle(url, probe) == Some("m3u8_stream")
  {
    SearchDigitsNone(url, "play/");
    CleanKeepsTitle("m3u8_stream");
  }

  /** A local input is named by its path stem, which is not cleaned; the probe is not consulted. */
  lemma LocalTitle(url: string, probe: Option<string>)
    requires IsLocalInput(url)
    ensures VideoTitle(url, probe) == VideoTitle(url, None) == Some(PathStem(url))
  {
  }
}
