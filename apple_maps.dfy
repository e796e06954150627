/**
 * The Apple Maps Server API client of ingest-sms: the process-wide access
 * token cache (`getAppleMapsAccessToken`) and the field selection of
 * `lookupApplePlace`. The HTTP exchanges are not modelled: each call is given
 * the reply the endpoint would send, and the clock reading `Date.now()`.
 */
module AppleMaps {
  import opened Wrappers
  import opened Js

  /** What `fetch(...)` and `resp.text()` deliver: `resp.ok`, `resp.status` and the body text. */
  datatype HttpReply = HttpReply(ok: bool, status: int, text: string)

  /** The cached access token and the instant (ms since the epoch) it expires. */
  datatype CachedToken = CachedToken(token: string, expiresAtMs: Number)

  /** The errors enrichment may throw. */
  datatype EnrichError =
    | MissingAuthToken
    | TokenExchangeFailed(status: int)
    | TokenNotJson
    | UnexpectedTokenResponse
    | PlaceLookupFailed(status: int)
    | PlaceNotJson

  /** A cached token is used only while it has more than this many milliseconds left. */
  const FreshnessMarginMs: int := 30000

  /** The lifetime assumed when the token reply names none: 25 minutes. */
  const DefaultExpiresInSec: int := 25 * 60

  /** `x > y` for a JavaScript number `x` and a finite `y`. */
  predicate Exceeds(x: Number, y: real) {
    match x
    case Finite(v) => v > y
    case NaN => false
    case Infinite(negative) => !negative
  }

  /** `cached.expiresAtMs > now + 30_000`. */
  predicate Fresh(c: CachedToken, now: int)
    ensures c.expiresAtMs.NaN? ==> !Fresh(c, now)
    ensures c.expiresAtMs == Infinite(false) ==> Fresh(c, now)
    ensures c.expiresAtMs == Infinite(true) ==> !Fresh(c, now)
  {
    Exceeds(c.expiresAtMs, (now + FreshnessMarginMs) as real)
  }

  /** A token fresh at some instant is fresh at every earlier instant. */
  lemma FreshEarlier(c: CachedToken, now: int, earlier: int)
    requires earlier <= now && Fresh(c, now)
    ensures Fresh(c, earlier)
  {
  }

  /** The keys tried, in order, for the access token. */
  const TokenKeys: seq<string> := ["accessToken", "access_token", "token", "value"]

  /** Key `TokenKeys[i]` is the first of the token keys present in `data`. */
  predicate FirstPresentKey(data: Value, i: int) {
    0 <= i < |TokenKeys| && !Nullish(Get(data, TokenKeys[i]))
    && forall j :: 0 <= j < i ==> Nullish(Get(data, TokenKeys[j]))
  }

  function TokenCandidates(data: Value): seq<Value> {
    seq(|TokenKeys|, i requires 0 <= i < |TokenKeys| => Get(data, TokenKeys[i]))
  }

  /**
   * `data?.accessToken ?? data?.access_token ?? data?.token ?? data?.value`,
   * accepted only when it is a non-empty string.
   */
  function TokenOf(data: Value): (r: Option<string>)
    ensures r.Some? <==> exists i :: FirstPresentKey(data, i) && IsNonEmptyString(Get(data, TokenKeys[i]))
    ensures r.Some? ==> r.value != "" && exists i :: FirstPresentKey(data, i) && Get(data, TokenKeys[i]) == Str(r.value)
    ensures r.None? ==> forall i :: FirstPresentKey(data, i) ==> !IsNonEmptyString(Get(data, TokenKeys[i]))
  {
    var vs := TokenCandidates(data);
    assert forall i :: 0 <= i < |TokenKeys| ==> vs[i] == Get(data, TokenKeys[i]);
    var v := FirstNonNullish(vs);
    if IsNonEmptyString(v) then Some(v.s) else None
  }

  predicate IsNumber(v: Value) { v.Num? }

  /** `v && typeof v === "string"`. */
  predicate IsNonEmptyString(v: Value) { v.Str? && v.s != "" }

  /** `typeof data?.expiresIn === "number" ? ... : typeof data?.expires_in === "number" ? ... : 25 * 60`. */
  function ExpiresInSeconds(data: Value): (r: Number)
    ensures Get(data, "expiresIn").Num? ==> r == Get(data, "expiresIn").n
    ensures !Get(data, "expiresIn").Num? && Get(data, "expires_in").Num? ==> r == Get(data, "expires_in").n
    ensures !Get(data, "expiresIn").Num? && !Get(data, "expires_in").Num? ==> r == Finite(DefaultExpiresInSec as real)
  {
    var vs := [Get(data, "expiresIn"), Get(data, "expires_in")];
    assert vs[1] == Get(data, "expires_in");
    match FirstWhere(vs, IsNumber)
    case Some(v) => v.n
    case None => Finite(DefaultExpiresInSec as real)
  }

  /** `now + expiresInSec * 1000`; an infinite or NaN lifetime stays so. */
  function ExpiryInstant(now: int, expiresInSec: Number): (r: Number)
    ensures expiresInSec.Finite? ==> r == Finite(now as real + 1000.0 * expiresInSec.value)
    ensures !expiresInSec.Finite? ==> r == expiresInSec
  {
    match expiresInSec
    case Finite(v) => Finite(now as real + v * 1000.0)
    case NaN => NaN
    case Infinite(negative) => Infinite(negative)
  }

  /** The token exchange after the request went out: status check, JSON parse, token and expiry. */
  function Exchange(now: int, reply: HttpReply, parseJson: string -> Option<Value>): (r: Result<CachedToken, EnrichError>)
    ensures !reply.ok ==> r == Failure(TokenExchangeFailed(reply.status))
    ensures reply.ok && parseJson(reply.text).None? ==> r == Failure(TokenNotJson)
    ensures reply.ok && parseJson(reply.text).Some? ==>
      var data := parseJson(reply.text).value;
      match TokenOf(data)
      case None => r == Failure(UnexpectedTokenResponse)
      case Some(t) => r == Success(CachedToken(t, ExpiryInstant(now, ExpiresInSeconds(data))))
  {
    if !reply.ok then Failure(TokenExchangeFailed(reply.status))
    else match parseJson(reply.text)
      case None => Failure(TokenNotJson)
      case Some(data) =>
        match TokenOf(data)
        case None => Failure(UnexpectedTokenResponse)
        case Some(t) => Success(CachedToken(t, ExpiryInstant(now, ExpiresInSeconds(data))))
  }

  /**
   * A token whose reply names no lifetime, obtained at `now`, is served from
   * the cache exactly until 30 seconds before its 25 minutes are up.
   */
  lemma DefaultLifetimeWindow(c: CachedToken, now: int, later: int, reply: HttpReply, parseJson: string -> Option<Value>)
    requires Exchange(now, reply, parseJson) == Success(c)
    requires !Get(parseJson(reply.text).value, "expiresIn").Num? && !Get(parseJson(reply.text).value, "expires_in").Num?
    ensures Fresh(c, later) <==> later < now + 1470000
  {
  }

  /** What `getAppleMapsAccessToken` returns or throws, from the cache content it starts with. */
  function TokenOutcome(cached: Option<CachedToken>, now: int, authToken: string, reply: HttpReply,
                        parseJson: string -> Option<Value>): (r: Result<string, EnrichError>)
    ensures cached.Some? && Fresh(cached.value, now) ==> r == Success(cached.value.token)
    ensures r == Failure(MissingAuthToken) <==> !(cached.Some? && Fresh(cached.value, now)) && authToken == ""
    ensures r.Success? && !(cached.Some? && Fresh(cached.value, now)) ==> r.value != ""
  {
    if cached.Some? && Fresh(cached.value, now) then Success(cached.value.token)
    else if authToken == "" then Failure(MissingAuthToken)
    else match Exchange(now, reply, parseJson)
      case Success(c) => Success(c.token)
      case Failure(e) => Failure(e)
  }

  /**
   * `cachedAppleAccessToken` after `getAppleMapsAccessToken`: it is replaced
   * only by a successful exchange, and never emptied.
   */
  function CacheAfter(cached: Option<CachedToken>, now: int, authToken: string, reply: HttpReply,
                      parseJson: string -> Option<Value>): (r: Option<CachedToken>)
    ensures r != cached ==> r.Some? && Exchange(now, reply, parseJson) == Success(r.value)
    ensures cached.Some? ==> r.Some?
  {
    if cached.Some? && Fresh(cached.value, now) then cached
    else if authToken == "" then cached
    else match Exchange(now, reply, parseJson)
      case Success(c) => Some(c)
      case Failure(_) => cached
  }

  /** Every token handed out is the one the cache holds afterwards. */
  lemma TokenIsCached(cached: Option<CachedToken>, now: int, authToken: string, reply: HttpReply,
                      parseJson: string -> Option<Value>)
    ensures var r := TokenOutcome(cached, now, authToken, reply, parseJson);
      var after := CacheAfter(cached, now, authToken, reply, parseJson);
      r.Success? ==> after.Some? && after.value.token == r.value
  {
  }

  /**
   * A later call while the token obtained by an earlier one is still fresh
   * gets that same token from the cache, whatever the endpoint and the auth
   * token would then be, and leaves the cache as it is.
   */
  lemma LaterCallServedFromCache(cached: Option<CachedToken>, now: int, authToken: string, reply: HttpReply,
                                 later: int, laterAuthToken: string, laterReply: HttpReply,
                                 parseJson: string -> Option<Value>)
    requires TokenOutcome(cached, now, authToken, reply, parseJson).Success?
    requires Fresh(CacheAfter(cached, now, authToken, reply, parseJson).value, later)
    ensures var after := CacheAfter(cached, now, authToken, reply, parseJson);
      && TokenOutcome(after, later, laterAuthToken, laterReply, parseJson) == TokenOutcome(cached, now, authToken, reply, parseJson)
      && CacheAfter(after, later, laterAuthToken, laterReply, parseJson) == after
  {
    TokenIsCached(cached, now, authToken, reply, parseJson);
  }

  /** The process-wide access-token cache and the two calls that use it. */
  class TokenCache {
    /** `cachedAppleAccessToken`; None is null. */
    var cached: Option<CachedToken>

    constructor()
      ensures cached == None
    {
      cached := None;
    }

    /**
     * `getAppleMapsAccessToken()` at clock reading `now`, with the configured
     * auth token and the reply the token endpoint would give; `exchanged`
     * tells whether the endpoint was called.
     */
    method GetAccessToken(now: int, authToken: string, reply: HttpReply, parseJson: string -> Option<Value>)
      returns (r: Result<string, EnrichError>, exchanged: bool)
      modifies this
      ensures old(cached).Some? && Fresh(old(cached).value, now) ==>
        r == Success(old(cached).value.token) && !exchanged && cached == old(cached)
      ensures !(old(cached).Some? && Fresh(old(cached).value, now)) && authToken == "" ==>
        r == Failure(MissingAuthToken) && !exchanged && cached == old(cached)
      ensures !(old(cached).Some? && Fresh(old(cached).value, now)) && authToken != "" ==>
        exchanged && match Exchange(now, reply, parseJson)
          case Success(c) => r == Success(c.token) && cached == Some(c)
          case Failure(e) => r == Failure(e) && cached == old(cached)
      ensures r == TokenOutcome(old(cached), now, authToken, reply, parseJson)
      ensures cached == CacheAfter(old(cached), now, authToken, reply, parseJson)
    {
      if cached.Some? && Fresh(cached.value, now) {
        return Success(cached.value.token), false;
      }
      if authToken == "" {
        return Failure(MissingAuthToken), false;
      }
      exchanged := true;
      if !reply.ok {
        return Failure(TokenExchangeFailed(reply.status)), exchanged;
      }
      var parsed := parseJson(reply.text);
      if parsed.None? {
        return Failure(TokenNotJson), exchanged;
      }
      var data := parsed.value;
      var token := TokenOf(data);
      if token.None? {
        return Failure(UnexpectedTokenResponse), exchanged;
      }
      var expiresInSec := ExpiresInSeconds(data);
      cached := Some(CachedToken(token.value, ExpiryInstant(now, expiresInSec)));
      r := Success(token.value);
    }

    /**
     * `lookupApplePlace(placeId)`: an access token, then the place request
     * whose reply is `placeReply`, then the field selection.
     */
    method LookupApplePlace(now: int, authToken: string, tokenReply: HttpReply, placeReply: HttpReply,
                            parseJson: string -> Option<Value>, parseFloat: string -> Number, formatNumber: Number -> string)
      returns (r: Result<ApplePlace, EnrichError>)
      modifies this
      ensures r == LookupOutcome(old(cached), now, authToken, tokenReply, placeReply, parseJson, parseFloat, formatNumber)
      ensures cached == CacheAfter(old(cached), now, authToken, tokenReply, parseJson)
      ensures r.Success? ==> r.value.lat.Some? ==> r.value.lat.value.Finite?
    {
      var token, _ := GetAccessToken(now, authToken, tokenReply, parseJson);
      if token.Failure? {
        return Failure(token.error);
      }
      if !placeReply.ok {
        return Failure(PlaceLookupFailed(placeReply.status));
      }
      var parsed := parseJson(placeReply.text);
      if parsed.None? {
        return Failure(PlaceNotJson);
      }
      r := Success(SelectPlaceFields(parsed.value, parseFloat, formatNumber));
    }
  }

  // ---------------- place lookup ----------------

  /** What `lookupApplePlace` returns or throws, from the cache content it starts with. */
  function LookupOutcome(cached: Option<CachedToken>, now: int, authToken: string, tokenReply: HttpReply,
                         placeReply: HttpReply, parseJson: string -> Option<Value>, parseFloat: string -> Number,
                         formatNumber: Number -> string): (r: Result<ApplePlace, EnrichError>)
    ensures TokenOutcome(cached, now, authToken, tokenReply, parseJson).Failure? ==>
      r == Failure(TokenOutcome(cached, now, authToken, tokenReply, parseJson).error)
    ensures TokenOutcome(cached, now, authToken, tokenReply, parseJson).Success? ==>
      r == PlaceOutcome(placeReply, parseJson, parseFloat, formatNumber)
  {
    match TokenOutcome(cached, now, authToken, tokenReply, parseJson)
    case Failure(e) => Failure(e)
    case Success(_) => PlaceOutcome(placeReply, parseJson, parseFloat, formatNumber)
  }

  /** `ApplePlaceResult`; None is null. */
  datatype ApplePlace = ApplePlace(name: Option<string>, lat: Option<Number>, lon: Option<Number>, address: Option<string>)

  /** The place request after the token was obtained. */
  function PlaceOutcome(reply: HttpReply, parseJson: string -> Option<Value>, parseFloat: string -> Number,
                        formatNumber: Number -> string): (r: Result<ApplePlace, EnrichError>)
    ensures !reply.ok ==> r == Failure(PlaceLookupFailed(reply.status))
    ensures reply.ok && parseJson(reply.text).None? ==> r == Failure(PlaceNotJson)
    ensures reply.ok && parseJson(reply.text).Some? ==>
      r == Success(SelectPlaceFields(parseJson(reply.text).value, parseFloat, formatNumber))
  {
    if !reply.ok then Failure(PlaceLookupFailed(reply.status))
    else match parseJson(reply.text)
      case None => Failure(PlaceNotJson)
      case Some(data) => Success(SelectPlaceFields(data, parseFloat, formatNumber))
  }

  predicate IsString(v: Value) { v.Str? }

  /** The first of the candidates that is a string, as a string. */
  function FirstString(vs: seq<Value>): (r: Option<string>)
    ensures r.None? <==> forall i :: 0 <= i < |vs| ==> !vs[i].Str?
    ensures r.Some? ==> exists i :: 0 <= i < |vs| && vs[i] == Str(r.value) && forall j :: 0 <= j < i ==> !vs[j].Str?
  {
    match FirstWhere(vs, IsString)
    case None => None
    case Some(v) => Some(v.s)
  }

  lemma FirstStringOfTwo(a: Value, b: Value)
    ensures FirstString([a, b]) == if a.Str? then Some(a.s) else if b.Str? then Some(b.s) else None
  {
    assert [a, b][1..] == [b] && [b][1..] == [];
    assert FirstWhere([b], IsString) == if b.Str? then Some(b) else None;
  }

  lemma FirstStringOfThree(a: Value, b: Value, c: Value)
    ensures FirstString([a, b, c]) ==
      if a.Str? then Some(a.s) else if b.Str? then Some(b.s) else if c.Str? then Some(c.s) else None
  {
    assert [a, b, c][1..] == [b, c] && [b, c][1..] == [c] && [c][1..] == [];
    assert FirstWhere([c], IsString) == if c.Str? then Some(c) else None;
    assert FirstWhere([b, c], IsString) == if b.Str? then Some(b) else FirstWhere([c], IsString);
  }

  /**
   * `typeof raw === "number" ? raw : raw ? parseFloat(String(raw)) : null`,
   * then kept only when finite.
   */
  function CoordinateOf(raw: Value, parseFloat: string -> Number, formatNumber: Number -> string): (r: Option<Number>)
    ensures r.Some? ==> r.value.Finite?
    ensures raw.Num? ==> r == FiniteOrNull(raw.n)
    ensures !raw.Num? && Truthy(raw) ==> r == FiniteOrNull(parseFloat(ToJsString(raw, formatNumber)))
    ensures !raw.Num? && !Truthy(raw) ==> r == None
  {
    if raw.Num? then FiniteOrNull(raw.n)
    else if Truthy(raw) then FiniteOrNull(ParseFloatOf(raw, parseFloat, formatNumber))
    else None
  }

  /** `coord?.latitude ?? coord?.lat ?? null`, made a finite number or null. */
  function Latitude(coord: Value, parseFloat: string -> Number, formatNumber: Number -> string): (r: Option<Number>)
    ensures !Nullish(Get(coord, "latitude")) ==> r == CoordinateOf(Get(coord, "latitude"), parseFloat, formatNumber)
    ensures Nullish(Get(coord, "latitude")) ==> r == CoordinateOf(Get(coord, "lat"), parseFloat, formatNumber)
  {
    FirstNonNullishOfTwo(Get(coord, "latitude"), Get(coord, "lat"));
    CoordinateOf(FirstNonNullish([Get(coord, "latitude"), Get(coord, "lat")]), parseFloat, formatNumber)
  }

  /** `coord?.longitude ?? coord?.lon ?? null`, made a finite number or null. */
  function Longitude(coord: Value, parseFloat: string -> Number, formatNumber: Number -> string): (r: Option<Number>)
    ensures !Nullish(Get(coord, "longitude")) ==> r == CoordinateOf(Get(coord, "longitude"), parseFloat, formatNumber)
    ensures Nullish(Get(coord, "longitude")) ==> r == CoordinateOf(Get(coord, "lon"), parseFloat, formatNumber)
  {
    FirstNonNullishOfTwo(Get(coord, "longitude"), Get(coord, "lon"));
    CoordinateOf(FirstNonNullish([Get(coord, "longitude"), Get(coord, "lon")]), parseFloat, formatNumber)
  }

  /**
   * The `return { name, lat, lon, address }` of `lookupApplePlace`, given the
   * parsed reply: every field from the first source that has it.
   */
  function SelectPlaceFields(data: Value, parseFloat: string -> Number, formatNumber: Number -> string): (r: ApplePlace)
    ensures r.lat.Some? ==> r.lat.value.Finite?
    ensures r.lon.Some? ==> r.lon.value.Finite?
    ensures Get(data, "name").Str? ==> r.name == Some(Get(data, "name").s)
    ensures !Get(data, "name").Str? && Get(Get(data, "place"), "name").Str? ==> r.name == Some(Get(Get(data, "place"), "name").s)
    ensures !Get(data, "name").Str? && !Get(Get(data, "place"), "name").Str? ==> r.name == None
    ensures !Nullish(Get(data, "coordinate")) ==>
      r.lat == Latitude(Get(data, "coordinate"), parseFloat, formatNumber)
      && r.lon == Longitude(Get(data, "coordinate"), parseFloat, formatNumber)
    ensures Nullish(Get(data, "coordinate")) ==>
      r.lat == Latitude(Get(Get(data, "place"), "coordinate"), parseFloat, formatNumber)
      && r.lon == Longitude(Get(Get(data, "place"), "coordinate"), parseFloat, formatNumber)
    ensures Get(data, "formattedAddress").Str? ==> r.address == Some(Get(data, "formattedAddress").s)
    ensures !Get(data, "formattedAddress").Str? && Get(Get(data, "address"), "formattedAddress").Str? ==>
      r.address == Some(Get(Get(data, "address"), "formattedAddress").s)
    ensures (!Get(data, "formattedAddress").Str? && !Get(Get(data, "address"), "formattedAddress").Str?
             && Get(Get(data, "place"), "formattedAddress").Str?) ==>
      r.address == Some(Get(Get(data, "place"), "formattedAddress").s)
    ensures (!Get(data, "formattedAddress").Str? && !Get(Get(data, "address"), "formattedAddress").Str?
             && !Get(Get(data, "place"), "formattedAddress").Str?) ==> r.address == None
  {
    var names := [Get(data, "name"), Get(Get(data, "place"), "name")];
    var coords := [Get(data, "coordinate"), Get(Get(data, "place"), "coordinate")];
    var addresses := [Get(data, "formattedAddress"), Get(Get(data, "address"), "formattedAddress"),
                      Get(Get(data, "place"), "formattedAddress")];
    FirstStringOfTwo(names[0], names[1]);
    FirstStringOfThree(addresses[0], addresses[1], addresses[2]);
    FirstNonNullishOfTwo(coords[0], coords[1]);
    var name := FirstString(names);
    var coord := FirstNonNullish(coords);
    var address := FirstString(addresses);
    ApplePlace(name, Latitude(coord, parseFloat, formatNumber), Longitude(coord, parseFloat, formatNumber), address)
  }
}
