/**
 * Finding an Apple Maps link in an SMS body and classifying it
 * (supabase/functions/ingest-sms/index.ts, the URL parsing helpers).
 *
 * The link pattern is `/(https?:\/\/maps\.apple(?:\.com)?\/[^\s]+)/i` and the
 * short-link pattern `/^https?:\/\/maps\.apple\/p\/([^/?#\s]+)/i`; both are
 * written out here as prefixes compared after ASCII case folding (a regex
 * without the `u` flag folds only ASCII letters) followed by a run of
 * permitted characters.
 */
module MapLinks {
  import opened Wrappers
  import opened Text
  import opened Js

  const HttpShort := "http://maps.apple/"
  const HttpsShort := "https://maps.apple/"
  const HttpCom := "http://maps.apple.com/"
  const HttpsCom := "https://maps.apple.com/"

  /** A link match of the given prefix at `i`: the prefix, then at least one non-whitespace character. */
  predicate PrefixMatchAt(s: string, i: nat, p: string) {
    PrefixAtCI(s, i, p) && i + |p| < |s| && !IsWhitespace(s[i + |p|])
  }

  /**
   * The link regex matches at `i`. Its `s?` and `(?:\.com)?` can only be
   * taken one way at a given position, so the four prefixes are the only ways
   * to match.
   */
  predicate MatchesAt(s: string, i: nat) {
    PrefixMatchAt(s, i, HttpShort) || PrefixMatchAt(s, i, HttpsShort)
    || PrefixMatchAt(s, i, HttpCom) || PrefixMatchAt(s, i, HttpsCom)
  }

  /** The least index from `from` up to (not including) `n` that satisfies `p`, if any. */
  function FirstIndexFrom(n: nat, from: nat, p: nat -> bool): (r: Option<nat>)
    requires from <= n
    ensures r.Some? ==> from <= r.value < n && p(r.value)
    ensures r.Some? ==> forall j :: from <= j < r.value ==> !p(j)
    ensures r.None? ==> forall j :: from <= j < n ==> !p(j)
    decreases n - from
  {
    if from == n then None
    else if p(from) then Some(from)
    else FirstIndexFrom(n, from + 1, p)
  }

  /** The leftmost position at or after `from` where the link regex matches: the regex engine's scan. */
  function FirstMatchFrom(s: string, from: nat): (r: Option<nat>)
    requires from <= |s|
    ensures r.Some? ==> from <= r.value < |s| && MatchesAt(s, r.value)
    ensures r.Some? ==> forall j :: from <= j < r.value ==> !MatchesAt(s, j)
    ensures r.None? ==> forall j :: from <= j < |s| ==> !MatchesAt(s, j)
  {
    var matches := (j: nat) => MatchesAt(s, j);
    assert forall j: nat :: matches(j) == MatchesAt(s, j);
    FirstIndexFrom(|s|, from, matches)
  }

  /** `i` is where the regex's leftmost match starts. */
  predicate LeftmostMatch(s: string, i: nat) {
    i < |s| && MatchesAt(s, i) && forall j :: 0 <= j < i ==> !MatchesAt(s, j)
  }

  /** The greedy `[^\s]+` tail: the match runs on to just before the next whitespace. */
  function RunEnd(s: string, i: nat): nat
    requires i <= |s|
  {
    SpanEnd(s, i, IsWhitespace)
  }

  /** `extractAppleMapsUrl`. */
  function ExtractAppleMapsUrl(text: string): (r: Option<string>)
    ensures r.None? <==> forall i :: 0 <= i < |text| ==> !MatchesAt(text, i)
    ensures r.Some? ==> exists i: nat :: LeftmostMatch(text, i) && r.value == text[i..RunEnd(text, i)]
    ensures r.Some? ==> |r.value| > 0 && forall k :: 0 <= k < |r.value| ==> !IsWhitespace(r.value[k])
  {
    match FirstMatchFrom(text, 0)
    case None => None
    case Some(i) =>
      MatchReachesPastPrefix(text, i);
      var u := text[i..RunEnd(text, i)];
      assert LeftmostMatch(text, i);
      Some(u)
  }

  predicate NoWhitespace(p: string) {
    forall k :: 0 <= k < |p| ==> !IsWhitespace(p[k])
  }

  /** A text of visible ASCII characters holds no whitespace. */
  lemma VisibleHasNoWhitespace(p: string)
    requires forall k :: 0 <= k < |p| ==> '!' <= p[k] <= '~'
    ensures NoWhitespace(p)
  {
  }

  lemma LinkPrefixesHaveNoWhitespace()
    ensures NoWhitespace(HttpShort) && NoWhitespace(HttpsShort) && NoWhitespace(HttpCom) && NoWhitespace(HttpsCom)
  {
    VisibleHasNoWhitespace(HttpShort);
    VisibleHasNoWhitespace(HttpsShort);
    VisibleHasNoWhitespace(HttpCom);
    VisibleHasNoWhitespace(HttpsCom);
  }

  /** ASCII case folding never turns whitespace into something else or back. */
  lemma AsciiLowerKeepsWhitespace(c: char)
    ensures IsWhitespace(AsciiLower(c)) <==> IsWhitespace(c)
  {
  }

  /** A match of prefix `p` runs on past `p`: the `[^\s]+` tail holds at least one character. */
  lemma PrefixMatchReachesPast(s: string, i: nat, p: string)
    requires PrefixMatchAt(s, i, p) && NoWhitespace(p)
    ensures i + |p| < RunEnd(s, i)
  {
    forall k | i <= k <= i + |p| ensures !IsWhitespace(s[k]) {
      if k < i + |p| {
        AsciiLowerKeepsWhitespace(s[k]);
      }
    }
  }

  /** Every match runs on past its prefix. */
  lemma MatchReachesPastPrefix(s: string, i: nat)
    requires MatchesAt(s, i)
    ensures i < RunEnd(s, i)
  {
    LinkPrefixesHaveNoWhitespace();
    if PrefixMatchAt(s, i, HttpShort) { PrefixMatchReachesPast(s, i, HttpShort); }
    else if PrefixMatchAt(s, i, HttpsShort) { PrefixMatchReachesPast(s, i, HttpsShort); }
    else if PrefixMatchAt(s, i, HttpCom) { PrefixMatchReachesPast(s, i, HttpCom); }
    else { PrefixMatchReachesPast(s, i, HttpsCom); }
  }

  /** A copy of a prefix-`p` match's text elsewhere in `s` is itself a prefix-`p` match. */
  lemma CopyOfMatchMatches(s: string, i: nat, k: nat, p: string)
    requires PrefixMatchAt(s, i, p) && NoWhitespace(p)
    requires OccursAt(s, s[i..RunEnd(s, i)], k)
    ensures PrefixMatchAt(s, k, p)
  {
    PrefixMatchReachesPast(s, i, p);
    var u := s[i..RunEnd(s, i)];
    assert s[k..k + |u|] == u;
    forall m | 0 <= m <= |p| ensures s[k + m] == u[m] == s[i + m] {
      assert s[k..k + |u|][m] == u[m];
    }
  }

  /**
   * Wherever the extracted link's text occurs in the body, the regex matches
   * there too; so its first occurrence is the match itself. This is what
   * makes `body.replace(url, "")` remove exactly the matched run.
   */
  lemma OccurrenceIsMatch(s: string, i: nat, k: nat)
    requires MatchesAt(s, i)
    requires OccursAt(s, s[i..RunEnd(s, i)], k)
    ensures MatchesAt(s, k)
  {
    LinkPrefixesHaveNoWhitespace();
    if PrefixMatchAt(s, i, HttpShort) { CopyOfMatchMatches(s, i, k, HttpShort); }
    else if PrefixMatchAt(s, i, HttpsShort) { CopyOfMatchMatches(s, i, k, HttpsShort); }
    else if PrefixMatchAt(s, i, HttpCom) { CopyOfMatchMatches(s, i, k, HttpCom); }
    else { CopyOfMatchMatches(s, i, k, HttpsCom); }
  }

  /** The first occurrence of the extracted link in the body is where the regex found it. */
  lemma ExtractedUrlFirstOccurrence(s: string, i: nat)
    requires LeftmostMatch(s, i)
    ensures IndexOf(s, s[i..RunEnd(s, i)]) == Some(i)
  {
    var u := s[i..RunEnd(s, i)];
    assert OccursAt(s, u, i);
    var r := IndexOf(s, u);
    if r.value < i {
      OccurrenceIsMatch(s, i, r.value);
    }
  }

  // ---------------- short links ----------------

  const HttpShortPlace := "http://maps.apple/p/"
  const HttpsShortPlace := "https://maps.apple/p/"

  /** The characters that end a short-link place id: `/`, `?`, `#` and whitespace. */
  predicate IsIdStop(c: char) {
    c == '/' || c == '?' || c == '#' || IsWhitespace(c)
  }

  /** No URL starts with both short-link prefixes: they differ at index 4. */
  lemma ShortPrefixesExclusive(url: string)
    ensures !(PrefixAtCI(url, 0, HttpShortPlace) && PrefixAtCI(url, 0, HttpsShortPlace))
  {
    assert HttpShortPlace[4] != HttpsShortPlace[4];
    if |url| > 4 {
      assert PrefixAtCI(url, 0, HttpShortPlace) ==> AsciiLower(url[4]) == HttpShortPlace[4];
    }
  }

  /** The short-link prefix anchored at the start of `url`, if there is one. */
  function ShortPrefix(url: string): (p: Option<string>)
    ensures p.Some? ==> p.value in [HttpShortPlace, HttpsShortPlace] && PrefixAtCI(url, 0, p.value)
    ensures p.None? ==> !PrefixAtCI(url, 0, HttpShortPlace) && !PrefixAtCI(url, 0, HttpsShortPlace)
  {
    if PrefixAtCI(url, 0, HttpShortPlace) then Some(HttpShortPlace)
    else if PrefixAtCI(url, 0, HttpsShortPlace) then Some(HttpsShortPlace)
    else None
  }

  /** `([^/?#\s]+)` at `n`: the maximal run of id characters starting there, when it is not empty. */
  function IdAt(url: string, n: nat): (r: Option<string>)
    requires n <= |url|
    ensures r.Some? <==> n < |url| && !IsIdStop(url[n])
    ensures r.Some? ==> r.value != [] && forall k :: 0 <= k < |r.value| ==> !IsIdStop(r.value[k])
    ensures r.Some? ==> OccursAt(url, r.value, n) && (n + |r.value| == |url| || IsIdStop(url[n + |r.value|]))
  {
    var e := SpanEnd(url, n, IsIdStop);
    if e == n then None
    else
      assert url[n..e][..e - n] == url[n..e];
      Some(url[n..e])
  }

  /** `extractApplePlaceIdFromShortLink`. */
  function ExtractApplePlaceIdFromShortLink(url: string): (r: Option<string>)
    ensures r.Some? <==>
      (exists p :: p in [HttpShortPlace, HttpsShortPlace] && PrefixAtCI(url, 0, p) && |p| < |url| && !IsIdStop(url[|p|]))
    ensures r.Some? ==> r.value != [] && forall k :: 0 <= k < |r.value| ==> !IsIdStop(r.value[k])
    ensures r.Some? ==>
      exists p :: p in [HttpShortPlace, HttpsShortPlace] && PrefixAtCI(url, 0, p)
        && OccursAt(url, r.value, |p|)
        && (|p| + |r.value| == |url| || IsIdStop(url[|p| + |r.value|]))
  {
    ShortPrefixesExclusive(url);
    match ShortPrefix(url)
    case None => None
    case Some(p) => IdAt(url, |p|)
  }

  /** `p` is written in lower case already, so a `/i` comparison against it accepts `p` itself. */
  predicate FoldedAlready(p: string) {
    forall k :: 0 <= k < |p| ==> AsciiLower(p[k]) == p[k]
  }

  lemma ShortPrefixesFolded()
    ensures FoldedAlready(HttpShortPlace) && FoldedAlready(HttpsShortPlace)
  {
  }

  lemma FoldedPrefixMatches(p: string, tail: string)
    requires FoldedAlready(p)
    ensures PrefixAtCI(p + tail, 0, p)
  {
    var s := p + tail;
    forall k | 0 <= k < |p| ensures AsciiLower(s[k]) == p[k - 0] {
      assert s[k] == p[k];
    }
  }

  /** The place-id run of `p + id + rest` is exactly `id`. */
  lemma IdRunEnds(p: string, id: string, rest: string)
    requires forall k :: 0 <= k < |id| ==> !IsIdStop(id[k])
    requires rest == [] || IsIdStop(rest[0])
    ensures SpanEnd(p + id + rest, |p|, IsIdStop) == |p| + |id|
  {
    var url := p + id + rest;
    var e := SpanEnd(url, |p|, IsIdStop);
    assert forall k :: |p| <= k < |p| + |id| ==> url[k] == id[k - |p|];
    assert |rest| > 0 ==> url[|p| + |id|] == rest[0];
  }

  /** A well-formed short link yields exactly its id, without the delimiter that follows it. */
  lemma ShortLinkYieldsId(p: string, id: string, rest: string)
    requires p == HttpShortPlace || p == HttpsShortPlace
    requires id != [] && forall k :: 0 <= k < |id| ==> !IsIdStop(id[k])
    requires rest == [] || IsIdStop(rest[0])
    ensures ExtractApplePlaceIdFromShortLink(p + id + rest) == Some(id)
  {
    var url := p + id + rest;
    assert url == p + (id + rest);
    ShortPrefixesFolded();
    FoldedPrefixMatches(p, id + rest);
    ShortPrefixesExclusive(url);
    assert ShortPrefix(url) == Some(p);
    IdAfterPrefix(p, id, rest);
  }

  /** The id run that follows a prefix `p` in `p + id + rest` is `id`. */
  lemma IdAfterPrefix(p: string, id: string, rest: string)
    requires id != [] && forall k :: 0 <= k < |id| ==> !IsIdStop(id[k])
    requires rest == [] || IsIdStop(rest[0])
    ensures IdAt(p + id + rest, |p|) == Some(id)
  {
    var url := p + id + rest;
    IdRunEnds(p, id, rest);
    assert url[|p|] == id[0];
    assert url[|p|..|p| + |id|] == id;
  }

  /** A `maps.apple.com` link is never a short link, whatever follows the host. */
  lemma ComLinkIsNotShortLink(url: string)
    requires PrefixAtCI(url, 0, "http://maps.apple.com") || PrefixAtCI(url, 0, "https://maps.apple.com")
    ensures ExtractApplePlaceIdFromShortLink(url) == None
  {
    assert HttpShortPlace[17] == '/' && HttpsShortPlace[18] == '/';
    assert HttpShortPlace[4] == ':' && HttpsShortPlace[4] == 's';
    assert "http://maps.apple.com"[17] == '.' && "https://maps.apple.com"[18] == '.';
    assert "http://maps.apple.com"[4] == ':' && "https://maps.apple.com"[4] == 's';
    assert AsciiLower(url[4]) == ':' || AsciiLower(url[4]) == 's';
    if AsciiLower(url[4]) == ':' {
      assert AsciiLower(url[17]) == '.';
    } else {
      assert AsciiLower(url[18]) == '.';
    }
  }

  // ---------------- query links ----------------

  /** The title and coordinates a long-form link carries in its `q` and `ll` parameters. */
  datatype QueryPlace = QueryPlace(latitude: Option<Number>, longitude: Option<Number>, title: Option<string>)

  /** `safeDecode`: `decodeURIComponent`, or the raw text when it throws (`decode` gives None). */
  function SafeDecode(s: string, decode: string -> Option<string>): (r: string)
    ensures decode(s).None? ==> r == s
    ensures decode(s).Some? ==> r == decode(s).value
  {
    match decode(s)
    case Some(d) => d
    case None => s
  }

  /** The first two fields of `ll.split(",")`; a missing second field is `undefined`. */
  function CoordinateTexts(ll: string): (string, Option<string>) {
    var parts := Split(ll, ',');
    (parts[0], if |parts| > 1 then Some(parts[1]) else None)
  }

  /**
   * `parseAppleMaps`. `searchParam(url, key)` stands for `getQueryParam`
   * (`new URL(url).searchParams.get(key)`, None when absent or when the URL
   * does not parse); `parseFloat(undefined)` is NaN.
   */
  function ParseAppleMaps(url: string, searchParam: (string, string) -> Option<string>,
                          parseFloat: string -> Number, decode: string -> Option<string>): (r: QueryPlace)
    ensures searchParam(url, "ll").None? || searchParam(url, "ll") == Some("") ==>
      r.latitude.None? && r.longitude.None?
    ensures r.latitude.Some? ==> r.latitude.value.Finite?
    ensures r.longitude.Some? ==> r.longitude.value.Finite?
    ensures r.title.None? <==> searchParam(url, "q").None? || searchParam(url, "q") == Some("")
    ensures r.title.Some? ==> var q := searchParam(url, "q").value;
      (decode(q).Some? ==> r.title.value == decode(q).value) && (decode(q).None? ==> r.title.value == q)
  {
    var ll := searchParam(url, "ll");
    var q := searchParam(url, "q");
    var (latitude, longitude) :=
      if ll.Some? && ll.value != "" then
        var (latStr, lonStr) := CoordinateTexts(ll.value);
        var lat := parseFloat(latStr);
        var lon := if lonStr.Some? then parseFloat(lonStr.value) else NaN;
        (FiniteOrNull(lat), FiniteOrNull(lon))
      else (None, None);
    var title := if q.Some? && q.value != "" then Some(SafeDecode(q.value, decode)) else None;
    QueryPlace(latitude, longitude, title)
  }

  /**
   * For `ll = a + "," + b` each coordinate is decided by its own half alone:
   * one can be set while the other is null (pairing is left to the record).
   */
  lemma CoordinatesDecidedIndependently(url: string, a: string, b: string,
                                        searchParam: (string, string) -> Option<string>,
                                        parseFloat: string -> Number, decode: string -> Option<string>)
    requires searchParam(url, "ll") == Some(a + "," + b)
    requires ',' !in a && ',' !in b
    ensures ParseAppleMaps(url, searchParam, parseFloat, decode).latitude == FiniteOrNull(parseFloat(a))
    ensures ParseAppleMaps(url, searchParam, parseFloat, decode).longitude == FiniteOrNull(parseFloat(b))
  {
    JoinSplit([a, b], ',');
    assert JoinWith([a, b], [',']) == a + "," + b;
  }

  /** An `ll` with no comma has an undefined second half, so the longitude is null. */
  lemma NoCommaNoLongitude(url: string, searchParam: (string, string) -> Option<string>,
                           parseFloat: string -> Number, decode: string -> Option<string>)
    requires searchParam(url, "ll").Some? && ',' !in searchParam(url, "ll").value
    ensures ParseAppleMaps(url, searchParam, parseFloat, decode).longitude.None?
  {
    var ll := searchParam(url, "ll").value;
    JoinSplit([ll], ',');
  }
}
