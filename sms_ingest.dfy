/**
 * The request handler of supabase/functions/ingest-sms/index.ts: a text
 * message (Twilio form post) becomes one row of the `places` table. The
 * message's first Apple Maps link is enriched (place lookup for a short link,
 * `ll`/`q` parameters otherwise); any enrichment error is swallowed; the rest
 * of the message becomes the notes.
 */
module SmsIngest {
  import opened Wrappers
  import opened Text
  import opened Js
  import opened MapLinks
  import opened Hashtags
  import opened AppleMaps

  /** The engine and library behaviour the handler relies on, passed in. */
  datatype Engine = Engine(
    parseJson: string -> Option<Value>,
    parseFloat: string -> Number,
    formatNumber: Number -> string,
    decodeUri: string -> Option<string>,
    searchParam: (string, string) -> Option<string>,
    toLower: string -> string)

  /** What enrichment found; None is null. */
  datatype Enrichment = Enrichment(title: Option<string>, latitude: Option<Number>, longitude: Option<Number>,
                                   address: Option<string>)

  /** The initial `let latitude = null, longitude = null, title = null, address = null`. */
  const NoEnrichment := Enrichment(None, None, None, None)

  /** The fields `From` and `Body` of the posted form; None when a field is absent. */
  datatype SmsForm = SmsForm(from: Option<string>, body: Option<string>)

  /** The coordinate columns, written together or not at all. */
  datatype Position = Position(latitude: Number, longitude: Number, location: string)

  /** The `insertPayload` of the handler; `position` None means the three coordinate keys are absent. */
  datatype SmsRecord = SmsRecord(
    fromPhone: string, rawText: string, mapsUrl: Option<string>, notes: string, hashtags: seq<string>,
    title: Option<string>, address: Option<string>, position: Option<Position>)

  // ---------------- notes ----------------

  /** `body.replace(extractedUrl ?? "", "").trim()`. */
  function Notes(body: string, url: Option<string>): (r: string)
    ensures |r| <= |body|
    ensures r == [] || (!IsWhitespace(r[0]) && !IsWhitespace(r[|r| - 1]))
  {
    Trim(ReplaceFirst(body, url.GetOr(""), ""))
  }

  /**
   * The notes are the trimmed body when it has no map link, and otherwise the
   * trimmed text around the extracted link, which is cut out where it was found.
   */
  lemma {:induction false} NotesAroundLink(body: string)
    ensures ExtractAppleMapsUrl(body).None? ==> Notes(body, None) == Trim(body)
    ensures ExtractAppleMapsUrl(body).Some? ==>
      exists i: nat :: LeftmostMatch(body, i) && Notes(body, ExtractAppleMapsUrl(body)) == Trim(body[..i] + body[RunEnd(body, i)..])
  {
    var url := ExtractAppleMapsUrl(body);
    if url.None? {
      ReplaceEmptyIsIdentity(body);
    } else {
      var i: nat :| LeftmostMatch(body, i) && url.value == body[i..RunEnd(body, i)];
      NotesCutAt(body, i);
    }
  }

  /** Cutting the link found at `i` out of the body. */
  lemma NotesCutAt(body: string, i: nat)
    requires LeftmostMatch(body, i)
    ensures Notes(body, Some(body[i..RunEnd(body, i)])) == Trim(body[..i] + body[RunEnd(body, i)..])
  {
    var e := RunEnd(body, i);
    var u := body[i..e];
    ExtractedUrlFirstOccurrence(body, i);
    assert i + |u| == e;
    assert body[..i] + "" + body[e..] == body[..i] + body[e..];
    assert ReplaceFirst(body, u, "") == body[..i] + body[e..];
  }

  // ---------------- the record ----------------

  const LocationPrefix := "SRID=4326;POINT("

  /** `` `SRID=4326;POINT(${longitude} ${latitude})` ``: longitude first. */
  function LocationText(latitude: Number, longitude: Number, formatNumber: Number -> string): (r: string)
    ensures |r| > |LocationPrefix| && r[..|LocationPrefix|] == LocationPrefix && r[|r| - 1] == ')'
  {
    LocationPrefix + formatNumber(longitude) + " " + formatNumber(latitude) + ")"
  }

  /**
   * Reading the `POINT` back: when the number texts hold no space, the first
   * field is the longitude and the second the latitude.
   */
  lemma {:induction false} LocationFieldsOrder(latitude: Number, longitude: Number, formatNumber: Number -> string)
    requires ' ' !in formatNumber(latitude) && ' ' !in formatNumber(longitude)
    ensures var t := LocationText(latitude, longitude, formatNumber);
      && |t| > |LocationPrefix| && t[..|LocationPrefix|] == LocationPrefix && t[|t| - 1] == ')'
      && Split(t[|LocationPrefix|..|t| - 1], ' ') == [formatNumber(longitude), formatNumber(latitude)]
  {
    var lon, lat := formatNumber(longitude), formatNumber(latitude);
    var t := LocationText(latitude, longitude, formatNumber);
    assert t[|LocationPrefix|..|t| - 1] == lon + " " + lat;
    JoinSplit([lon, lat], ' ');
    assert JoinWith([lon, lat], [' ']) == lon + " " + lat;
  }

  /** The payload the handler inserts for a message from `fromPhone` with text `body`. */
  function SmsRecordOf(fromPhone: string, body: string, e: Enrichment, engine: Engine): (r: SmsRecord)
    ensures r.fromPhone == fromPhone && r.rawText == body && r.mapsUrl == ExtractAppleMapsUrl(body)
    ensures r.position.Some? <==> e.latitude.Some? && e.longitude.Some?
  {
    var url := ExtractAppleMapsUrl(body);
    var notes := Notes(body, url);
    SmsRecord(fromPhone, body, url, notes,
              HashtagsOf(HashtagArgs(e.title, None, None, None, Some(notes)), engine.toLower),
              e.title, e.address,
              if e.latitude.Some? && e.longitude.Some?
              then Some(Position(e.latitude.value, e.longitude.value,
                                 LocationText(e.latitude.value, e.longitude.value, engine.formatNumber)))
              else None)
  }

  /**
   * The coordinate columns appear exactly when both coordinates were found,
   * with the location naming the longitude first; the message text is kept
   * whole; the tags come from the title and the notes.
   */
  lemma RecordShape(fromPhone: string, body: string, e: Enrichment, engine: Engine)
    ensures var r := SmsRecordOf(fromPhone, body, e, engine);
      && (r.position.Some? <==> e.latitude.Some? && e.longitude.Some?)
      && (r.position.Some? ==>
            r.position.value.latitude == e.latitude.value && r.position.value.longitude == e.longitude.value
            && r.position.value.location == LocationText(e.latitude.value, e.longitude.value, engine.formatNumber))
      && r.rawText == body && r.fromPhone == fromPhone
      && r.title == e.title && r.address == e.address
      && (forall t :: t in r.hashtags ==> |t| > 1 && t[0] == '#')
      && Distinct(r.hashtags)
  {
    var notes := Notes(body, ExtractAppleMapsUrl(body));
    HashtagsSpec(HashtagArgs(e.title, None, None, None, Some(notes)), engine.toLower);
  }

  // ---------------- enrichment ----------------

  /**
   * The values the `try` block leaves in `title`, `latitude`, `longitude` and
   * `address`, given what the place lookup would return or throw.
   */
  function EnrichmentOf(url: Option<string>, lookup: Result<ApplePlace, EnrichError>, engine: Engine): (r: Enrichment)
    ensures url.None? ==> r == NoEnrichment
    ensures url.Some? && ExtractApplePlaceIdFromShortLink(url.value).Some? && lookup.Failure? ==> r == NoEnrichment
    ensures url.Some? && ExtractApplePlaceIdFromShortLink(url.value).None? ==> r.address.None?
  {
    if url.None? then NoEnrichment
    else if ExtractApplePlaceIdFromShortLink(url.value).Some? then
      match lookup
      case Success(p) => Enrichment(p.name, p.lat, p.lon, p.address)
      case Failure(_) => NoEnrichment
    else
      var q := ParseAppleMaps(url.value, engine.searchParam, engine.parseFloat, engine.decodeUri);
      Enrichment(q.title, q.latitude, q.longitude, None)
  }

  /**
   * Enrichment never leaves a non-finite coordinate behind, a failed lookup
   * leaves everything null, and a long-form link never yields an address.
   */
  lemma EnrichmentBounds(url: Option<string>, lookup: Result<ApplePlace, EnrichError>, engine: Engine)
    requires lookup.Success? ==> (lookup.value.lat.Some? ==> lookup.value.lat.value.Finite?)
                                 && (lookup.value.lon.Some? ==> lookup.value.lon.value.Finite?)
    ensures var e := EnrichmentOf(url, lookup, engine);
      && (e.latitude.Some? ==> e.latitude.value.Finite?)
      && (e.longitude.Some? ==> e.longitude.value.Finite?)
      && (url.Some? && ExtractApplePlaceIdFromShortLink(url.value).Some? && lookup.Failure? ==> e == NoEnrichment)
      && (url.Some? && ExtractApplePlaceIdFromShortLink(url.value).None? ==> e.address.None?)
      && (url.None? ==> e == NoEnrichment)
  {
  }

  // ---------------- the handler ----------------

  /**
   * `serve(async (req) => ...)` for one request. `form` is what
   * `req.formData()` delivers, None when reading the form throws, which the
   * server answers with 500; the token and place replies are what the Apple
   * endpoints would answer; `insertFails` is whether the database rejects the
   * insert. `payload` is what was sent to the `places` table, if anything.
   */
  method HandleSms(cache: TokenCache, httpMethod: string, form: Option<SmsForm>,
                   now: int, authToken: string, tokenReply: HttpReply, placeReply: HttpReply,
                   engine: Engine, insertFails: bool)
    returns (status: int, payload: Option<SmsRecord>)
    modifies cache
    ensures httpMethod != "POST" ==> status == 405 && payload.None? && cache.cached == old(cache.cached)
    ensures httpMethod == "POST" && form.None? ==> status == 500 && payload.None? && cache.cached == old(cache.cached)
    ensures httpMethod == "POST" && form.Some? ==>
      var text := form.value.body.GetOr("");
      var lookup := LookupOutcome(old(cache.cached), now, authToken, tokenReply, placeReply,
                                  engine.parseJson, engine.parseFloat, engine.formatNumber);
      && payload == Some(SmsRecordOf(form.value.from.GetOr(""), text, EnrichmentOf(ExtractAppleMapsUrl(text), lookup, engine), engine))
      && status == (if insertFails then 500 else 200)
    ensures httpMethod == "POST" && form.Some? ==>
      cache.cached == if IsShortLinkMessage(form.value.body.GetOr(""))
                      then CacheAfter(old(cache.cached), now, authToken, tokenReply, engine.parseJson)
                      else old(cache.cached)
  {
    if httpMethod != "POST" {
      return 405, None;
    }
    if form.None? {
      return 500, None;
    }
    var from := form.value.from;
    var body := form.value.body;
    var fromPhone := from.GetOr("");
    var text := body.GetOr("");
    var mapsUrl := ExtractAppleMapsUrl(text);

    var latitude: Option<Number> := None;
    var longitude: Option<Number> := None;
    var title: Option<string> := None;
    var address: Option<string> := None;

    if mapsUrl.Some? {
      var placeId := ExtractApplePlaceIdFromShortLink(mapsUrl.value);
      if placeId.Some? {
        var place := cache.LookupApplePlace(now, authToken, tokenReply, placeReply,
                                            engine.parseJson, engine.parseFloat, engine.formatNumber);
        // a thrown error is caught and logged: the four values stay null
        if place.Success? {
          title := place.value.name;
          latitude := place.value.lat;
          longitude := place.value.lon;
          address := place.value.address;
        }
      } else {
        var parsed := ParseAppleMaps(mapsUrl.value, engine.searchParam, engine.parseFloat, engine.decodeUri);
        latitude := parsed.latitude;
        longitude := parsed.longitude;
        title := parsed.title;
      }
    }

    var notes := Notes(text, mapsUrl);
    var hashtags := GenerateHashtags(HashtagArgs(title, None, None, None, Some(notes)), engine.toLower);
    var record := SmsRecord(fromPhone, text, mapsUrl, notes, hashtags, title, address, None);
    if latitude.Some? && longitude.Some? {
      record := record.(position := Some(Position(latitude.value, longitude.value,
                                                  LocationText(latitude.value, longitude.value, engine.formatNumber))));
    }
    payload := Some(record);
    status := if insertFails then 500 else 200;
  }

  /** The message carries a short link, the only case that consults the token cache. */
  predicate IsShortLinkMessage(text: string) {
    var url := ExtractAppleMapsUrl(text);
    url.Some? && ExtractApplePlaceIdFromShortLink(url.value).Some?
  }
}
