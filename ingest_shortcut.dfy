/**
 * The request handler of supabase/functions/ingest-shortcut/index.ts: a JSON
 * payload from an iOS Shortcut (place name and address, coordinates, a note,
 * the OpenStreetMap `address` and `extratags` objects) becomes one row of the
 * `places` table, for the profile whose api key is `user_token`.
 */
module ShortcutIngest {
  import opened Wrappers
  import opened Text
  import opened Js
  import opened ManageRules
  import SmsIngest

  // ---------------- the OSM address ----------------

  /** The normalised address columns. */
  datatype AddressParts = AddressParts(
    streetLine1: Option<string>, streetLine2: Option<string>,
    city: Value, stateRegion: Value, postalCode: Value, country: Value, countryCode: Value)

  /** `text || null` on a string. */
  function TextOrNull(text: string): (r: Option<string>)
    ensures r.None? <==> text == ""
    ensures r.Some? ==> r.value == text
  {
    if text == "" then None else Some(text)
  }

  /** The values of `keys` in `v`, in order. */
  function Fields(v: Value, keys: seq<string>): (vs: seq<Value>)
    ensures |vs| == |keys| && forall i :: 0 <= i < |keys| ==> vs[i] == Get(v, keys[i])
  {
    seq(|keys|, i requires 0 <= i < |keys| => Get(v, keys[i]))
  }

  const StreetLine1Keys: seq<string> := ["house_number", "road"]
  const StreetLine2Keys: seq<string> := ["neighbourhood", "suburb", "city_district"]
  const CityKeys: seq<string> := ["city", "town", "village", "hamlet", "municipality"]
  const StateKeys: seq<string> := ["state", "state_district", "region", "province"]

  /**
   * `extractAddressParts`: the two street lines are the truthy parts joined
   * (by a space, by ", ") or null when that join is empty; city and state are
   * the first truthy of their fallback chains; the three codes are copied
   * when truthy.
   */
  function ExtractAddressParts(address: Value, formatNumber: Number -> string): (r: AddressParts)
    ensures r.streetLine1.Some? ==> r.streetLine1.value != ""
    ensures r.streetLine2.Some? ==> r.streetLine2.value != ""
    ensures Truthy(r.city) ==> exists i :: 0 <= i < |CityKeys| && r.city == Get(address, CityKeys[i])
                                          && forall j :: 0 <= j < i ==> !Truthy(Get(address, CityKeys[j]))
    ensures !Truthy(r.city) ==> r.city == Null && forall i :: 0 <= i < |CityKeys| ==> !Truthy(Get(address, CityKeys[i]))
    ensures Truthy(r.stateRegion) ==> exists i :: 0 <= i < |StateKeys| && r.stateRegion == Get(address, StateKeys[i])
                                                 && forall j :: 0 <= j < i ==> !Truthy(Get(address, StateKeys[j]))
    ensures !Truthy(r.stateRegion) ==> r.stateRegion == Null && forall i :: 0 <= i < |StateKeys| ==> !Truthy(Get(address, StateKeys[i]))
    ensures r.postalCode == (if Truthy(Get(address, "postcode")) then Get(address, "postcode") else Null)
    ensures r.country == (if Truthy(Get(address, "country")) then Get(address, "country") else Null)
    ensures r.countryCode == (if Truthy(Get(address, "country_code")) then Get(address, "country_code") else Null)
  {
    AddressParts(
      TextOrNull(JoinTruthy(Fields(address, StreetLine1Keys), " ", formatNumber)),
      TextOrNull(JoinTruthy(Fields(address, StreetLine2Keys), ", ", formatNumber)),
      FirstTruthy(Fields(address, CityKeys)),
      FirstTruthy(Fields(address, StateKeys)),
      Or(Get(address, "postcode"), Null),
      Or(Get(address, "country"), Null),
      Or(Get(address, "country_code"), Null))
  }

  /**
   * The first street line of a house number and a road, when each is a
   * string or falsy: both joined by one space, the one that is there, or
   * null.
   */
  lemma {:induction false} StreetLine1Cases(address: Value, formatNumber: Number -> string)
    requires var h, road := Get(address, "house_number"), Get(address, "road");
      (h.Str? || !Truthy(h)) && (road.Str? || !Truthy(road))
    ensures var h, road := Get(address, "house_number"), Get(address, "road");
      var r := ExtractAddressParts(address, formatNumber).streetLine1;
      && (Truthy(h) && Truthy(road) ==> r == Some(h.s + " " + road.s))
      && (Truthy(h) && !Truthy(road) ==> r == Some(h.s))
      && (!Truthy(h) && Truthy(road) ==> r == Some(road.s))
      && (!Truthy(h) && !Truthy(road) ==> r.None?)
  {
    var h, road := Get(address, "house_number"), Get(address, "road");
    assert Fields(address, StreetLine1Keys) == [h, road];
    JoinTwoTruthy(h, road, " ", formatNumber);
  }

  /** `[a, b].filter(Boolean).join(sep) || null` on two values that are each a string or falsy. */
  lemma JoinTwoTruthy(a: Value, b: Value, sep: string, formatNumber: Number -> string)
    requires (a.Str? || !Truthy(a)) && (b.Str? || !Truthy(b))
    ensures var r := TextOrNull(JoinTruthy([a, b], sep, formatNumber));
      && (Truthy(a) && Truthy(b) ==> r == Some(a.s + sep + b.s))
      && (Truthy(a) && !Truthy(b) ==> r == Some(a.s))
      && (!Truthy(a) && Truthy(b) ==> r == Some(b.s))
      && (!Truthy(a) && !Truthy(b) ==> r.None?)
  {
    if Truthy(a) && Truthy(b) {
      JoinTwoStrings(a.s, b.s, sep, formatNumber);
    } else if Truthy(a) {
      JoinSkipsFalsyOfTwo(a, b, 1, sep, formatNumber);
      JoinOneString(a.s, sep, formatNumber);
    } else if Truthy(b) {
      JoinSkipsFalsyOfTwo(a, b, 0, sep, formatNumber);
      JoinOneString(b.s, sep, formatNumber);
    } else {
      JoinTruthyOfFalsy([a, b], sep, formatNumber);
    }
  }

  lemma JoinTwoStrings(x: string, y: string, sep: string, formatNumber: Number -> string)
    requires x != "" && y != ""
    ensures JoinTruthy([Str(x), Str(y)], sep, formatNumber) == x + sep + y
  {
    assert [Str(x), Str(y)] == StrValues([x, y]);
    JoinTruthyOfStrings([x, y], sep, formatNumber);
    assert [x, y][1..] == [y];
  }

  lemma JoinOneString(x: string, sep: string, formatNumber: Number -> string)
    requires x != ""
    ensures JoinTruthy([Str(x)], sep, formatNumber) == x
  {
    assert [Str(x)] == StrValues([x]);
    JoinTruthyOfStrings([x], sep, formatNumber);
  }

  lemma JoinSkipsFalsyOfTwo(a: Value, b: Value, i: nat, sep: string, formatNumber: Number -> string)
    requires i < 2 && !Truthy([a, b][i])
    ensures JoinTruthy([a, b], sep, formatNumber) == JoinTruthy(if i == 0 then [b] else [a], sep, formatNumber)
  {
    var vs := [a, b];
    JoinTruthySkipsFalsy(vs, i, sep, formatNumber);
    assert vs[..i] + vs[i + 1..] == if i == 0 then [b] else [a];
  }

  /** With neighbourhood, suburb and district all non-empty strings, the second street line is the three joined by ", ". */
  lemma {:induction false} StreetLine2OfStrings(address: Value, formatNumber: Number -> string)
    requires forall i :: 0 <= i < 3 ==> Get(address, StreetLine2Keys[i]).Str? && Get(address, StreetLine2Keys[i]).s != ""
    ensures var vs := Fields(address, StreetLine2Keys);
      ExtractAddressParts(address, formatNumber).streetLine2 == Some(vs[0].s + ", " + vs[1].s + ", " + vs[2].s)
  {
    var vs := Fields(address, StreetLine2Keys);
    var ss := [vs[0].s, vs[1].s, vs[2].s];
    assert vs == StrValues(ss);
    JoinTruthyOfStrings(ss, ", ", formatNumber);
    JoinWithThree(vs[0].s, vs[1].s, vs[2].s, ", ");
  }

  /** With all three parts falsy, the second street line is null. */
  lemma StreetLine2OfFalsy(address: Value, formatNumber: Number -> string)
    requires forall i :: 0 <= i < 3 ==> !Truthy(Get(address, StreetLine2Keys[i]))
    ensures ExtractAddressParts(address, formatNumber).streetLine2.None?
  {
    JoinTruthyOfFalsy(Fields(address, StreetLine2Keys), ", ", formatNumber);
  }

  /** A falsy part of the second street line can be left out without changing it. */
  lemma StreetLine2SkipsFalsy(address: Value, i: nat, formatNumber: Number -> string)
    requires i < 3 && !Truthy(Get(address, StreetLine2Keys[i]))
    ensures var vs := Fields(address, StreetLine2Keys);
      ExtractAddressParts(address, formatNumber).streetLine2 == TextOrNull(JoinTruthy(vs[..i] + vs[i + 1..], ", ", formatNumber))
  {
    JoinTruthySkipsFalsy(Fields(address, StreetLine2Keys), i, ", ", formatNumber);
  }

  // ---------------- contact details ----------------

  datatype ContactInfo = ContactInfo(phone: Value, website: Value, openingHours: Value)

  /** `extractContactInfo`: `??` chains, so a falsy value that is not null or undefined is kept. */
  function ExtractContactInfo(tags: Value): (r: ContactInfo)
    ensures !Nullish(Get(tags, "phone")) ==> r.phone == Get(tags, "phone")
    ensures Nullish(Get(tags, "phone")) && !Nullish(Get(tags, "contact:phone")) ==> r.phone == Get(tags, "contact:phone")
    ensures Nullish(Get(tags, "phone")) && Nullish(Get(tags, "contact:phone")) ==> r.phone == Null
    ensures !Nullish(Get(tags, "website")) ==> r.website == Get(tags, "website")
    ensures Nullish(Get(tags, "website")) && !Nullish(Get(tags, "contact:website")) ==> r.website == Get(tags, "contact:website")
    ensures Nullish(Get(tags, "website")) && Nullish(Get(tags, "contact:website")) ==> r.website == Null
    ensures r.openingHours == (if Nullish(Get(tags, "opening_hours")) then Null else Get(tags, "opening_hours"))
  {
    var phones := [Get(tags, "phone"), Get(tags, "contact:phone")];
    var sites := [Get(tags, "website"), Get(tags, "contact:website")];
    assert phones[1] == Get(tags, "contact:phone") && sites[1] == Get(tags, "contact:website");
    ContactInfo(FirstNonNullish(phones), FirstNonNullish(sites), Coalesce(Get(tags, "opening_hours"), Null))
  }

  /** An empty `phone` is kept, where a `||` chain would have fallen back to `contact:phone`. */
  lemma EmptyPhoneKept(tags: Value)
    requires Get(tags, "phone") == Str("") && Get(tags, "contact:phone") == Str("+1 555")
    ensures ExtractContactInfo(tags).phone == Str("")
    ensures FirstTruthy([Get(tags, "phone"), Get(tags, "contact:phone")]) == Str("+1 555")
  {
  }

  // ---------------- the record ----------------

  /** The `insertPayload` of the handler; `position` None means the three coordinate keys are absent. */
  datatype ShortcutRecord = ShortcutRecord(
    userId: string, title: Value, rawText: Value, notes: Value, category: Value,
    osmAddress: Value, osmExtratags: Value, address: AddressParts, contact: ContactInfo,
    position: Option<SmsIngest.Position>)

  /** `typeof v === "number" ? v : Number.parseFloat(v)`. */
  function CoordinateNumber(v: Value, parseFloat: string -> Number, formatNumber: Number -> string): Number {
    if v.Num? then v.n else ParseFloatOf(v, parseFloat, formatNumber)
  }

  /** The record the handler inserts for the caller `userId`. */
  function ShortcutRecordOf(userId: string, payload: Value, parseFloat: string -> Number,
                            formatNumber: Number -> string): (r: ShortcutRecord)
    ensures r.userId == userId && Truthy(r.category)
    ensures r.position.Some? ==> !r.position.value.latitude.NaN? && !r.position.value.longitude.NaN?
  {
    var osmAddress, osmTags := Get(payload, "osm_address"), Get(payload, "osm_extratags");
    var lat := CoordinateNumber(Get(payload, "latitude"), parseFloat, formatNumber);
    var lon := CoordinateNumber(Get(payload, "longitude"), parseFloat, formatNumber);
    ShortcutRecord(
      userId, Or(Get(payload, "place_name"), Null), Or(Get(payload, "place_address"), Null),
      Or(Get(payload, "user_note"), Null), Or(Get(payload, "category"), Str("Other")),
      Coalesce(osmAddress, Null), Coalesce(osmTags, Null),
      ExtractAddressParts(Or(osmAddress, Obj(map[])), formatNumber),
      ExtractContactInfo(Or(osmTags, Obj(map[]))),
      if !lat.NaN? && !lon.NaN? then Some(SmsIngest.Position(lat, lon, SmsIngest.LocationText(lat, lon, formatNumber)))
      else None)
  }

  /**
   * The category is never empty ("Other" stands in for a falsy one); the
   * coordinates are stored exactly when neither parses to NaN (an infinite
   * one passes), with the location naming the longitude first; a number
   * given as a number is stored as it is.
   */
  lemma RecordShape(userId: string, payload: Value, parseFloat: string -> Number, formatNumber: Number -> string)
    ensures var r := ShortcutRecordOf(userId, payload, parseFloat, formatNumber);
      var lat := CoordinateNumber(Get(payload, "latitude"), parseFloat, formatNumber);
      var lon := CoordinateNumber(Get(payload, "longitude"), parseFloat, formatNumber);
      && Truthy(r.category)
      && (r.category == Str("Other") <==> !Truthy(Get(payload, "category")) || Get(payload, "category") == Str("Other"))
      && (r.position.Some? <==> !lat.NaN? && !lon.NaN?)
      && (r.position.Some? ==> r.position.value.latitude == lat && r.position.value.longitude == lon
                               && r.position.value.location == SmsIngest.LocationText(lat, lon, formatNumber))
      && (Get(payload, "latitude").Num? ==> lat == Get(payload, "latitude").n)
      && (Truthy(r.title) || r.title == Null) && r.userId == userId
  {
  }

  /** A missing coordinate is read as `parseFloat("undefined")`, which is NaN, so nothing is stored. */
  lemma MissingCoordinateNoPosition(userId: string, payload: Value, parseFloat: string -> Number,
                                    formatNumber: Number -> string)
    requires Get(payload, "latitude").Undefined? || Get(payload, "longitude").Undefined?
    requires parseFloat("undefined").NaN?
    ensures ShortcutRecordOf(userId, payload, parseFloat, formatNumber).position.None?
  {
    RecordShape(userId, payload, parseFloat, formatNumber);
    assert CoordinateNumber(Undefined, parseFloat, formatNumber) == parseFloat("undefined");
  }

  // ---------------- the handler ----------------

  /**
   * `serve(async (req) => ...)` for one request. `body` None is a body
   * `req.json()` rejects; `profiles` and `lookupFails` are what the
   * `profiles` lookup would see; `inserted` is the row sent to `places`.
   */
  method HandleShortcut(httpMethod: string, body: Option<Value>, profiles: map<string, ProfileRow>, lookupFails: bool,
                        parseFloat: string -> Number, formatNumber: Number -> string, insertFails: bool)
    returns (status: int, inserted: Option<ShortcutRecord>)
    ensures httpMethod == "OPTIONS" ==> status == 200 && inserted.None?
    ensures httpMethod != "OPTIONS" && httpMethod != "POST" ==> status == 405 && inserted.None?
    ensures httpMethod == "POST" && body.None? ==> status == 400 && inserted.None?
    ensures httpMethod == "POST" && body.Some? && !Truthy(Get(body.value, "user_token")) ==> status == 401 && inserted.None?
    ensures httpMethod == "POST" && body.Some? && Truthy(Get(body.value, "user_token")) ==>
      var caller := ProfileFromToken(profiles, ToJsString(Get(body.value, "user_token"), formatNumber), lookupFails);
      && (caller.None? ==> status == 401 && inserted.None?)
      && (caller.Some? ==> inserted == Some(ShortcutRecordOf(caller.value, body.value, parseFloat, formatNumber))
                           && status == (if insertFails then 500 else 200))
  {
    if httpMethod == "OPTIONS" {
      return 200, None;
    }
    if httpMethod != "POST" {
      return 405, None;
    }
    if body.None? {
      return 400, None;
    }
    var payload := body.value;
    var token := Get(payload, "user_token");
    if !Truthy(token) {
      return 401, None;
    }
    var profile := ProfileFromToken(profiles, ToJsString(token, formatNumber), lookupFails);
    if profile.None? {
      return 401, None;
    }
    var latNum := CoordinateNumber(Get(payload, "latitude"), parseFloat, formatNumber);
    var lonNum := CoordinateNumber(Get(payload, "longitude"), parseFloat, formatNumber);
    var osmAddress, osmTags := Get(payload, "osm_address"), Get(payload, "osm_extratags");
    var addressParts := ExtractAddressParts(Or(osmAddress, Obj(map[])), formatNumber);
    var contact := ExtractContactInfo(Or(osmTags, Obj(map[])));
    var record := ShortcutRecord(
      profile.value, Or(Get(payload, "place_name"), Null), Or(Get(payload, "place_address"), Null),
      Or(Get(payload, "user_note"), Null), Or(Get(payload, "category"), Str("Other")),
      Coalesce(osmAddress, Null), Coalesce(osmTags, Null), addressParts, contact, None);
    if !latNum.NaN? && !lonNum.NaN? {
      record := record.(position := Some(SmsIngest.Position(latNum, lonNum, SmsIngest.LocationText(latNum, lonNum, formatNumber))));
    }
    inserted := Some(record);
    status := if insertFails then 500 else 200;
  }
}
