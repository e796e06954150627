/**
 * The earlier shortcut handler, supabase/functions/ingest-shortcut/index_010626.ts:
 * no user token; the body is checked by hand (content type, emptiness, JSON),
 * a payload that Shortcuts wrapped in a one-key object is unwrapped, and a
 * row of `places` is built from the place name, address and note.
 */
module LegacyShortcut {
  import opened Wrappers
  import opened Text
  import opened Js
  import SmsIngest

  // ---------------- the nested payload ----------------

  /** `"place_name" in v` for the values `typeof` calls objects; arrays never hold that key. */
  predicate HasPlaceName(v: Value) {
    v.Obj? && "place_name" in v.fields
  }

  /** `Object.keys(v).length`: the own keys of an object, the indices of an array. */
  function OwnKeyCount(v: Value): nat {
    match v
    case Obj(fields) => |fields.Keys|
    case Arr(items) => |items|
    case _ => 0
  }

  /** `v[Object.keys(v)[0]]` on a value with exactly one own key. */
  function OnlyMember(v: Value): (r: Value)
    requires IsObjectLike(v) && OwnKeyCount(v) == 1
    ensures v.Obj? ==> exists k :: k in v.fields && v.fields == map[k := r]
    ensures v.Arr? ==> v.items == [r]
  {
    match v
    case Obj(fields) =>
      assert forall a, b :: a in fields && b in fields ==> a == b by {
        forall a, b | a in fields && b in fields { SingletonMember(fields.Keys, a, b); }
      }
      var k :| k in fields;
      assert fields == map[k := fields[k]];
      fields[k]
    case Arr(items) => items[0]
  }

  /**
   * The unwrap of `{ "": { place_name: ... } }`: a value with a `place_name`
   * key, or not an object, or without exactly one key is kept; otherwise its
   * only member replaces it when that member is an object (or array).
   */
  function Unwrap(parsed: Value): (r: Value)
    ensures HasPlaceName(parsed) || !IsObjectLike(parsed) || OwnKeyCount(parsed) != 1 ==> r == parsed
    ensures r != parsed ==> IsObjectLike(r) && r == OnlyMember(parsed)
    ensures IsObjectLike(parsed) && !HasPlaceName(parsed) && OwnKeyCount(parsed) == 1 && IsObjectLike(OnlyMember(parsed))
            ==> r == OnlyMember(parsed)
    ensures Nullish(r) <==> Nullish(parsed)
  {
    if Truthy(parsed) && IsObjectLike(parsed) && !HasPlaceName(parsed) && OwnKeyCount(parsed) == 1 then
      var inner := OnlyMember(parsed);
      if Truthy(inner) && IsObjectLike(inner) then inner else parsed
    else parsed
  }

  /** The Shortcuts wrapper `{ k: inner }` is peeled once, whatever its key. */
  lemma WrapperPeeled(k: string, inner: map<string, Value>)
    requires k != "place_name"
    ensures Unwrap(Obj(map[k := Obj(inner)])) == Obj(inner)
  {
  }

  /** A payload naming its place at the top level is used as it is, even with one key. */
  lemma TopLevelPayloadKept(name: Value)
    ensures Unwrap(Obj(map["place_name" := name])) == Obj(map["place_name" := name])
  {
  }

  /** A one-key object whose member is a string is not a wrapper. */
  lemma StringMemberNotUnwrapped(k: string, s: string)
    requires k != "place_name"
    ensures Unwrap(Obj(map[k := Str(s)])) == Obj(map[k := Str(s)])
  {
  }

  // ---------------- the record ----------------

  /** The `insertPayload`; `position` None means the three coordinate keys are absent. */
  datatype LegacyRecord = LegacyRecord(
    fromPhone: Option<string>, rawText: string, mapsUrl: Option<string>, notes: Value,
    hashtags: seq<string>, title: Value, position: Option<SmsIngest.Position>)

  /** `!place_name && !place_address && !user_note`. */
  predicate MissingFields(payload: Value)
    ensures MissingFields(payload) <==>
      FilterTruthy([Get(payload, "place_name"), Get(payload, "place_address"), Get(payload, "user_note")]) == []
  {
    var vs := [Get(payload, "place_name"), Get(payload, "place_address"), Get(payload, "user_note")];
    assert vs[0] in vs && vs[1] in vs && vs[2] in vs;
    assert vs[1..] == [vs[1], vs[2]] && [vs[1], vs[2]][1..] == [vs[2]] && [vs[2]][1..] == [];
    assert !Truthy(vs[2]) ==> FilterTruthy([vs[2]]) == [];
    assert !Truthy(vs[1]) && !Truthy(vs[2]) ==> FilterTruthy([vs[1], vs[2]]) == [];
    !Truthy(Get(payload, "place_name")) && !Truthy(Get(payload, "place_address")) && !Truthy(Get(payload, "user_note"))
  }

  /** `String(v).trim()`. */
  function TrimmedText(v: Value, formatNumber: Number -> string): string {
    Trim(ToJsString(v, formatNumber))
  }

  /**
   * `(place_name && String(place_name).trim()) || (place_address && String(place_address).trim()) || null`:
   * the trimmed name when that is non-empty, else the trimmed address when
   * that is non-empty, else null.
   */
  function TitleOf(name: Value, address: Value, formatNumber: Number -> string): (r: Value)
    ensures Truthy(name) && TrimmedText(name, formatNumber) != "" ==> r == Str(TrimmedText(name, formatNumber))
    ensures !(Truthy(name) && TrimmedText(name, formatNumber) != "") && Truthy(address) && TrimmedText(address, formatNumber) != ""
            ==> r == Str(TrimmedText(address, formatNumber))
    ensures !(Truthy(name) && TrimmedText(name, formatNumber) != "") && !(Truthy(address) && TrimmedText(address, formatNumber) != "")
            ==> r == Null
  {
    Or(Or(And(name, Str(TrimmedText(name, formatNumber))), And(address, Str(TrimmedText(address, formatNumber)))), Null)
  }

  /** The record the handler inserts for an unwrapped payload. */
  function LegacyRecordOf(payload: Value, formatNumber: Number -> string): (r: LegacyRecord)
    ensures r.fromPhone.None? && r.mapsUrl.None? && r.hashtags == []
    ensures r.position.Some? <==> Get(payload, "latitude").Num? && Get(payload, "longitude").Num?
  {
    var name, address, note := Get(payload, "place_name"), Get(payload, "place_address"), Get(payload, "user_note");
    var lat, lon := Get(payload, "latitude"), Get(payload, "longitude");
    LegacyRecord(None, JoinTruthy([name, address, note], "\n\n", formatNumber), None, Coalesce(note, Null), [],
                 TitleOf(name, address, formatNumber),
                 if lat.Num? && lon.Num? then Some(SmsIngest.Position(lat.n, lon.n, SmsIngest.LocationText(lat.n, lon.n, formatNumber)))
                 else None)
  }

  /**
   * The constant columns (no phone, no map link, no tags), the note kept by
   * `??`, and the coordinates stored exactly when both are numbers, the
   * longitude first in the location.
   */
  lemma RecordShape(payload: Value, formatNumber: Number -> string)
    ensures var r := LegacyRecordOf(payload, formatNumber);
      var lat, lon := Get(payload, "latitude"), Get(payload, "longitude");
      && r.fromPhone.None? && r.mapsUrl.None? && r.hashtags == []
      && r.notes == (if Nullish(Get(payload, "user_note")) then Null else Get(payload, "user_note"))
      && (r.position.Some? <==> lat.Num? && lon.Num?)
      && (r.position.Some? ==> r.position.value.latitude == lat.n && r.position.value.longitude == lon.n
                               && r.position.value.location == SmsIngest.LocationText(lat.n, lon.n, formatNumber))
  {
  }

  /** With name, address and note all non-empty strings, the raw text is the three separated by blank lines. */
  lemma {:induction false} RawTextOfStrings(name: string, address: string, note: string, payload: Value,
                                            formatNumber: Number -> string)
    requires name != "" && address != "" && note != ""
    requires Get(payload, "place_name") == Str(name) && Get(payload, "place_address") == Str(address)
    requires Get(payload, "user_note") == Str(note)
    ensures LegacyRecordOf(payload, formatNumber).rawText == name + "\n\n" + address + "\n\n" + note
  {
    var ss := [name, address, note];
    var vs := [Str(name), Str(address), Str(note)];
    assert vs == StrValues(ss);
    JoinTruthyOfStrings(ss, "\n\n", formatNumber);
    JoinWithThree(name, address, note, "\n\n");
  }

  /** A falsy field leaves no trace in the raw text: it is the join of the other two. */
  lemma RawTextSkipsFalsy(payload: Value, i: nat, formatNumber: Number -> string)
    requires i < 3
    requires var vs := [Get(payload, "place_name"), Get(payload, "place_address"), Get(payload, "user_note")];
      !Truthy(vs[i])
    ensures var vs := [Get(payload, "place_name"), Get(payload, "place_address"), Get(payload, "user_note")];
      LegacyRecordOf(payload, formatNumber).rawText == JoinTruthy(vs[..i] + vs[i + 1..], "\n\n", formatNumber)
  {
    var vs := [Get(payload, "place_name"), Get(payload, "place_address"), Get(payload, "user_note")];
    JoinTruthySkipsFalsy(vs, i, "\n\n", formatNumber);
  }

  // ---------------- the handler ----------------

  /**
   * `serve(async (req) => ...)` for one request with the `content-type`
   * header (None when absent) and the body text; `inserted` is the row sent
   * to `places`. Destructuring a null payload throws, which the server turns
   * into a 500.
   */
  method HandleLegacyShortcut(httpMethod: string, contentType: Option<string>, rawBody: string,
                              parseJson: string -> Option<Value>, formatNumber: Number -> string, insertFails: bool)
    returns (status: int, inserted: Option<LegacyRecord>)
    ensures httpMethod != "POST" ==> status == 405 && inserted.None?
    ensures httpMethod == "POST" && !Includes(contentType.GetOr(""), "application/json") ==> status == 400 && inserted.None?
    ensures httpMethod == "POST" && rawBody == "" ==> status == 400 && inserted.None?
    ensures httpMethod == "POST" && rawBody != "" && parseJson(rawBody).None? ==> status == 400 && inserted.None?
    ensures httpMethod == "POST" && Includes(contentType.GetOr(""), "application/json") && rawBody != ""
            && parseJson(rawBody).Some? ==>
      var payload := Unwrap(parseJson(rawBody).value);
      && (Nullish(payload) ==> status == 500 && inserted.None?)
      && (!Nullish(payload) && MissingFields(payload) ==> status == 400 && inserted.None?)
      && (!Nullish(payload) && !MissingFields(payload) ==>
            inserted == Some(LegacyRecordOf(payload, formatNumber)) && status == (if insertFails then 500 else 200))
  {
    if httpMethod != "POST" {
      return 405, None;
    }
    var header := contentType.GetOr("");
    if !Includes(header, "application/json") {
      return 400, None;
    }
    if rawBody == "" {
      return 400, None;
    }
    var parsed := parseJson(rawBody);
    if parsed.None? {
      return 400, None;
    }
    var payload := parsed.value;
    if Truthy(payload) && IsObjectLike(payload) && !HasPlaceName(payload) && OwnKeyCount(payload) == 1 {
      var inner := OnlyMember(payload);
      if Truthy(inner) && IsObjectLike(inner) {
        payload := inner;
      }
    }
    if Nullish(payload) {
      return 500, None;
    }
    var name, address, note := Get(payload, "place_name"), Get(payload, "place_address"), Get(payload, "user_note");
    if !Truthy(name) && !Truthy(address) && !Truthy(note) {
      return 400, None;
    }
    var title := TitleOf(name, address, formatNumber);
    var record := LegacyRecord(None, JoinTruthy([name, address, note], "\n\n", formatNumber), None,
                               Coalesce(note, Null), [], title, None);
    var lat, lon := Get(payload, "latitude"), Get(payload, "longitude");
    if lat.Num? && lon.Num? {
      record := record.(position := Some(SmsIngest.Position(lat.n, lon.n, SmsIngest.LocationText(lat.n, lon.n, formatNumber))));
    }
    inserted := Some(record);
    status := if insertFails then 500 else 200;
  }
}
