/**
 * Hand-written matchers for the handful of regular expressions that the
 * stream resolver and the title logic apply, and the left-to-right,
 * non-overlapping scan of Python's `re.findall` over them.
 */
module Patterns {
  import opened Text
  import opened Optional

  // ---------------------------------------------------------------------
  // `<lead>(\d+)/` searches, as in `play/(\d+)/` and `/play/(\d+)/`
  // ---------------------------------------------------------------------

  /**
   * `lead`, then one or more digits, then `/`, starting at position `p`.
   * The digit run is maximal: a shorter run would leave a digit where the
   * `/` must be.
   */
  predicate DigitsMatchAt(s: string, lead: string, p: nat)
  {
    && OccursAt(s, p, lead)
    && var d := DigitRun(s[p + |lead|..]);
       0 < d && p + |lead| + d < |s| && s[p + |lead| + d] == '/'
  }

  /** The leftmost position, from `p` on, at which `DigitsMatchAt` holds. */
  function FirstDigitsMatch(s: string, lead: string, p: nat): (r: Option<nat>)
    ensures r.Some? ==> p <= r.value && DigitsMatchAt(s, lead, r.value)
    ensures r.Some? ==> forall q :: p <= q < r.value ==> !DigitsMatchAt(s, lead, q)
    ensures r.None? ==> forall q :: p <= q ==> !DigitsMatchAt(s, lead, q)
    decreases |s| + 1 - p
  {
    if p > |s| then None
    else if DigitsMatchAt(s, lead, p) then Some(p)
    else FirstDigitsMatch(s, lead, p + 1)
  }

  /** The digits of a match at `p`. */
  function DigitsAt(s: string, lead: string, p: nat): string
    requires DigitsMatchAt(s, lead, p)
  {
    var i := p + |lead|;
    s[i..i + DigitRun(s[i..])]
  }

  /** `re.search(lead + r'(\d+)/', s)`: group 1 of the leftmost match. */
  function SearchDigits(s: string, lead: string): (r: Option<string>)
    ensures r.Some? ==> r.value != [] && AllDigits(r.value)
  {
    match FirstDigitsMatch(s, lead, 0)
    case None => None
    case Some(p) => Some(DigitsAt(s, lead, p))
  }

  /** The search fails exactly when there is no match anywhere. */
  lemma SearchDigitsNone(s: string, lead: string)
    ensures SearchDigits(s, lead).None? <==> forall p: nat :: !DigitsMatchAt(s, lead, p)
  {
    if SearchDigits(s, lead).None? {
      forall p: nat ensures !DigitsMatchAt(s, lead, p) {
        assert 0 <= p;
      }
    } else {
      var q := FirstDigitsMatch(s, lead, 0).value;
      assert DigitsMatchAt(s, lead, q);
    }
  }

  /** A match that has no match before it is the one the search reports. */
  lemma SearchDigitsLeftmost(s: string, lead: string, p: nat)
    requires DigitsMatchAt(s, lead, p)
    requires forall q: nat :: q < p ==> !DigitsMatchAt(s, lead, q)
    ensures SearchDigits(s, lead) == Some(DigitsAt(s, lead, p))
  {
    var r := FirstDigitsMatch(s, lead, 0);
    assert r.Some?;
    assert r.value == p;
  }

  // ---------------------------------------------------------------------
  // The media-URL patterns
  // ---------------------------------------------------------------------

  /** The character classes the patterns use. */
  datatype CharClass =
    | UrlChar         // [^\s<>"]
    | NotDoubleQuote  // [^"]
    | NotQuote        // [^"']

  predicate IsQuote(c: char) { c == '"' || c == '\'' }

  predicate InClass(c: char, cls: CharClass)
  {
    match cls
    case UrlChar => !IsSpace(c) && c != '<' && c != '>' && c != '"'
    case NotDoubleQuote => c != '"'
    case NotQuote => !IsQuote(c)
  }

  /** What must follow a lazily matched run: a literal, then optionally a quote. */
  datatype Terminator = Terminator(literal: string, quoteAfter: bool)

  predicate TerminatesAt(s: string, j: nat, t: Terminator)
  {
    && OccursAt(s, j, t.literal)
    && (t.quoteAfter ==> j + |t.literal| < |s| && IsQuote(s[j + |t.literal|]))
  }

  /** Every character of `s[i..j]` is in the class. */
  predicate AllIn(s: string, i: nat, j: nat, cls: CharClass)
    requires i <= j <= |s|
  {
    forall k :: i <= k < j ==> InClass(s[k], cls)
  }

  /** Every character of `g` is in the class. */
  predicate Within(g: string, cls: CharClass)
  {
    forall k :: 0 <= k < |g| ==> InClass(g[k], cls)
  }

  /** A run of class characters followed by a literal made of class characters. */
  lemma RunThenLiteral(s: string, i: nat, j: nat, lit: string, cls: CharClass)
    requires i <= j <= |s| && AllIn(s, i, j, cls) && OccursAt(s, j, lit) && Within(lit, cls)
    ensures Within(s[i..j + |lit|], cls)
  {
    var g := s[i..j + |lit|];
    forall k | 0 <= k < |g| ensures InClass(g[k], cls) {
      if i + k >= j {
        assert g[k] == s[j..j + |lit|][i + k - j];
      }
    }
  }

  /**
   * `[cls]+?` then the terminator, the run starting at `q`: the first end
   * `j > q` at which the terminator occurs, while every character of the
   * run is in the class.
   */
  function LazyEnd(s: string, q: nat, cls: CharClass, t: Terminator): (r: Option<nat>)
    ensures r.Some? ==> q < r.value <= |s| && AllIn(s, q, r.value, cls) && TerminatesAt(s, r.value, t)
    ensures r.Some? ==> forall j :: q < j < r.value ==> !TerminatesAt(s, j, t)
  {
    if q < |s| && InClass(s[q], cls) then LazyFrom(s, q, q + 1, cls, t) else None
  }

  function LazyFrom(s: string, q: nat, j: nat, cls: CharClass, t: Terminator): (r: Option<nat>)
    requires q < j <= |s| && AllIn(s, q, j, cls)
    requires forall i :: q < i < j ==> !TerminatesAt(s, i, t)
    ensures r.Some? ==> j <= r.value <= |s| && AllIn(s, q, r.value, cls) && TerminatesAt(s, r.value, t)
    ensures r.Some? ==> forall i :: q < i < r.value ==> !TerminatesAt(s, i, t)
    decreases |s| - j
  {
    if TerminatesAt(s, j, t) then Some(j)
    else if j < |s| && InClass(s[j], cls) then LazyFrom(s, q, j + 1, cls, t)
    else None
  }

  /** The end of the maximal run of class characters from `q` (a greedy `[cls]*`). */
  function GreedyEnd(s: string, q: nat, cls: CharClass): (r: nat)
    requires q <= |s|
    ensures q <= r <= |s| && AllIn(s, q, r, cls)
    ensures r < |s| ==> !InClass(s[r], cls)
    decreases |s| - q
  {
    if q < |s| && InClass(s[q], cls) then GreedyEnd(s, q + 1, cls) else q
  }

  /** The end of the maximal run of white space from `q` (`\s*`). */
  function SpaceEnd(s: string, q: nat): (r: nat)
    requires q <= |s|
    ensures q <= r <= |s|
    ensures forall k :: q <= k < r ==> IsSpace(s[k])
    ensures r < |s| ==> !IsSpace(s[r])
    decreases |s| - q
  {
    if q < |s| && IsSpace(s[q]) then SpaceEnd(s, q + 1) else q
  }

  /** `https?://` at `p`; the optional `s` is taken when present. */
  function UrlHead(s: string, p: nat): (r: Option<nat>)
    ensures r.Some? ==> r.value <= |s| && OccursAt(s, p, "http") && (r.value == p + 7 || r.value == p + 8)
  {
    if OccursAt(s, p, "https://") then
      assert s[p..p + 4] == s[p..p + 8][..4];
      Some(p + 8)
    else if OccursAt(s, p, "http://") then
      assert s[p..p + 4] == s[p..p + 7][..4];
      Some(p + 7)
    else None
  }

  /** The stream-resolution patterns. */
  datatype Pattern =
    | BareUrl(ext: string)   // https?://[^\s<>"]+?<ext>, the whole match
    | JsonUrl                // "url":"(https?://[^"]+?\.m3u8)"
    | Quoted(key: string)    // <key>\s*["']([^"']+?\.m3u8)["']
    | Assigned(name: string) // <name>\s*=\s*["']([^"']+)["']

  /** The text `re.findall` reports for one match, and where the match ends. */
  datatype Hit = Hit(group: string, end: nat)

  /** The match of `pat` that starts exactly at `p`, if any. */
  function MatchAt(s: string, p: nat, pat: Pattern): (r: Option<Hit>)
    requires p <= |s|
    ensures r.Some? ==> p < r.value.end <= |s|
  {
    match pat
    case BareUrl(ext) => BareMatch(s, p, ext)
    case JsonUrl => JsonMatch(s, p)
    case Quoted(key) => QuotedMatch(s, p, key)
    case Assigned(name) => AssignedMatch(s, p, name)
  }

  /** `https?://[^\s<>"]+?<ext>` at `p`; the whole match is reported. */
  function BareMatch(s: string, p: nat, ext: string): (r: Option<Hit>)
    requires p <= |s|
    ensures r.Some? ==> p < r.value.end <= |s| && r.value.group == s[p..r.value.end]
    ensures r.Some? ==> StartsWith(r.value.group, "http") && EndsWith(r.value.group, ext)
  {
    match UrlHead(s, p)
    case None => None
    case Some(q) =>
      match LazyEnd(s, q, UrlChar, Terminator(ext, false))
      case None => None
      case Some(j) =>
        OccursAtEnd(s, p, j, ext);
        assert s[p..j + |ext|][..4] == s[p..p + 4];
        Some(Hit(s[p..j + |ext|], j + |ext|))
  }

  /** `"url":"(https?://[^"]+?\.m3u8)"` at `p`; the group is reported. */
  function JsonMatch(s: string, p: nat): (r: Option<Hit>)
    requires p <= |s|
    ensures r.Some? ==> p < r.value.end <= |s|
    ensures r.Some? ==> StartsWith(r.value.group, "http") && EndsWith(r.value.group, ".m3u8")
  {
    if !OccursAt(s, p, "\"url\":\"") then None
    else
      match UrlHead(s, p + 7)
      case None => None
      case Some(q) =>
        match LazyEnd(s, q, NotDoubleQuote, Terminator(".m3u8\"", false))
        case None => None
        case Some(j) =>
          assert s[j..j + 5] == s[j..j + 6][..5];
          OccursAtEnd(s, p + 7, j, ".m3u8");
          assert s[p + 7..j + 5][..4] == s[p + 7..p + 11];
          Some(Hit(s[p + 7..j + 5], j + 6))
  }

  /** `<key>\s*["']([^"']+?\.m3u8)["']` at `p`; the group is reported. */
  function QuotedMatch(s: string, p: nat, key: string): (r: Option<Hit>)
    requires p <= |s|
    ensures r.Some? ==> p < r.value.end <= |s|
    ensures r.Some? ==> EndsWith(r.value.group, ".m3u8") && |r.value.group| > 5
    ensures r.Some? ==> Within(r.value.group, NotQuote)
  {
    if !OccursAt(s, p, key) then None
    else
      var q := SpaceEnd(s, p + |key|);
      if q < |s| && IsQuote(s[q]) then
        match LazyEnd(s, q + 1, NotQuote, Terminator(".m3u8", true))
        case None => None
        case Some(j) =>
          QuotedGroup(s, q + 1, j);
          Some(Hit(s[q + 1..j + 5], j + 6))
      else None
  }

  lemma QuotedGroup(s: string, i: nat, j: nat)
    requires i < j <= |s| && AllIn(s, i, j, NotQuote) && OccursAt(s, j, ".m3u8")
    ensures EndsWith(s[i..j + 5], ".m3u8") && Within(s[i..j + 5], NotQuote)
  {
    OccursAtEnd(s, i, j, ".m3u8");
    RunThenLiteral(s, i, j, ".m3u8", NotQuote);
  }

  /** `<name>\s*=\s*["']([^"']+)["']` at `p`; the group is reported. */
  function AssignedMatch(s: string, p: nat, name: string): (r: Option<Hit>)
    requires p <= |s|
    ensures r.Some? ==> p < r.value.end <= |s|
    ensures r.Some? ==> r.value.group != []
    ensures r.Some? ==> Within(r.value.group, NotQuote)
  {
    if !OccursAt(s, p, name) then None
    else
      var q := SpaceEnd(s, p + |name|);
      if q < |s| && s[q] == '=' then
        var v := SpaceEnd(s, q + 1);
        if v < |s| && IsQuote(s[v]) then
          var e := GreedyEnd(s, v + 1, NotQuote);
          if v + 1 < e < |s| then Some(Hit(s[v + 1..e], e + 1)) else None
        else None
      else None
  }

  /** `re.findall` from position `p`: try each start in turn, resume after a match. */
  function FindFrom(s: string, pat: Pattern, p: nat): seq<string>
    requires p <= |s|
    decreases |s| - p
  {
    if p == |s| then []
    else
      match MatchAt(s, p, pat)
      case Some(h) => [h.group] + FindFrom(s, pat, h.end)
      case None => FindFrom(s, pat, p + 1)
  }

  /** Python's `re.findall(pat, s)`. */
  function FindAll(s: string, pat: Pattern): seq<string>
  {
    FindFrom(s, pat, 0)
  }

  /** The patterns whose reported text ends in the media extension they look for. */
  predicate EndsInExtension(pat: Pattern)
  {
    match pat
    case BareUrl(ext) => ext == ".m3u8" || ext == ".mp4"
    case JsonUrl => true
    case Quoted(_) => true
    case Assigned(_) => false
  }

  predicate IsMediaUrl(u: string)
  {
    EndsWith(u, ".m3u8") || EndsWith(u, ".mp4")
  }

  lemma OccursAtEnd(s: string, i: nat, j: nat, t: string)
    requires i <= j && OccursAt(s, j, t)
    ensures EndsWith(s[i..j + |t|], t)
  {
    assert s[i..j + |t|][j - i..] == s[j..j + |t|];
  }

  /** A single match of a media pattern ends in `.m3u8` or `.mp4`; a bare URL also starts with `http`. */
  lemma MatchIsMedia(s: string, p: nat, pat: Pattern)
    requires p <= |s| && EndsInExtension(pat) && MatchAt(s, p, pat).Some?
    ensures IsMediaUrl(MatchAt(s, p, pat).value.group)
  {
  }

  /** Every result of a media pattern's scan is a media URL. */
  lemma {:induction false} FindFromIsMedia(s: string, pat: Pattern, p: nat)
    requires p <= |s| && EndsInExtension(pat)
    ensures forall u :: u in FindFrom(s, pat, p) ==> IsMediaUrl(u)
    decreases |s| - p
  {
    if p < |s| {
      match MatchAt(s, p, pat)
      case Some(h) =>
        MatchIsMedia(s, p, pat);
        FindFromIsMedia(s, pat, h.end);
      case None =>
        FindFromIsMedia(s, pat, p + 1);
    }
  }

  // ---------------------------------------------------------------------
  // First pattern that matches
  // ---------------------------------------------------------------------

  /** The index of the first pattern, from `i` on, with any match in `page`. */
  function FirstMatchingFrom(page: string, pats: seq<Pattern>, i: nat): (r: Option<nat>)
    requires i <= |pats|
    ensures r.Some? ==> i <= r.value < |pats| && FindAll(page, pats[r.value]) != []
    ensures r.Some? ==> forall k :: i <= k < r.value ==> FindAll(page, pats[k]) == []
    ensures r.None? ==> forall k :: i <= k < |pats| ==> FindAll(page, pats[k]) == []
    decreases |pats| - i
  {
    if i == |pats| then None
    else if FindAll(page, pats[i]) != [] then Some(i)
    else FirstMatchingFrom(page, pats, i + 1)
  }

  /** All matches of the first pattern, in list order, that matches at all; `[]` if none does. */
  function FirstHit(page: string, pats: seq<Pattern>): seq<string>
  {
    match FirstMatchingFrom(page, pats, 0)
    case None => []
    case Some(i) => FindAll(page, pats[i])
  }

  /**
   * The priority rule: when pattern `i` matches and no earlier one does,
   * the result is exactly pattern `i`'s matches, whatever later patterns
   * would find.
   */
  lemma FirstHitPriority(page: string, pats: seq<Pattern>, i: nat)
    requires i < |pats| && FindAll(page, pats[i]) != []
    requires forall k :: 0 <= k < i ==> FindAll(page, pats[k]) == []
    ensures FirstHit(page, pats) == FindAll(page, pats[i])
  {
    var r := FirstMatchingFrom(page, pats, 0);
    assert r.Some?;
    assert r.value == i;
  }

  /** No pattern matches exactly when the result is empty. */
  lemma FirstHitEmpty(page: string, pats: seq<Pattern>)
    ensures FirstHit(page, pats) == [] <==> forall k :: 0 <= k < |pats| ==> FindAll(page, pats[k]) == []
  {
    var r := FirstMatchingFrom(page, pats, 0);
    if r.Some? {
      assert FindAll(page, pats[r.value]) != [];
    }
  }
}
