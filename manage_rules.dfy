/**
 * The request-independent rules of supabase/functions/manage-places/index.ts:
 * which profile a `user_token` names, the `links` check, the update payload,
 * file-name sanitising, storage paths and the profile-photo size bound.
 */
module ManageRules {
  import opened Wrappers
  import opened Text
  import opened Js

  // ---------------- tables ----------------

  /** A row of `profiles`; `isActive` None is a null `is_active`. */
  datatype ProfileRow = ProfileRow(apiKey: string, isActive: Option<bool>, photoPath: Option<string>)

  /** The `profiles` rows whose `api_key` is `key`. */
  function KeyHolders(profiles: map<string, ProfileRow>, key: string): set<string> {
    set id | id in profiles && profiles[id].apiKey == key
  }

  /**
   * `getProfileFromToken`: `.eq("api_key", key).single()` fails unless exactly
   * one row matches (or when the lookup errs); a row whose `is_active` is
   * false is refused, a null `is_active` is accepted. The result is the
   * profile id.
   */
  function ProfileFromToken(profiles: map<string, ProfileRow>, key: string, lookupFails: bool): (r: Option<string>)
    ensures r.Some? <==> !lookupFails && |KeyHolders(profiles, key)| == 1
                         && exists id :: id in KeyHolders(profiles, key) && profiles[id].isActive != Some(false)
    ensures r.Some? ==> r.value in profiles && profiles[r.value].apiKey == key
                        && profiles[r.value].isActive != Some(false)
  {
    var holders := KeyHolders(profiles, key);
    if lookupFails || |holders| != 1 then None
    else
      var id :| id in holders;
      assert forall other :: other in holders ==> other == id by {
        forall other | other in holders { SingletonMember(holders, id, other); }
      }
      if profiles[id].isActive == Some(false) then None else Some(id)
  }

  /** A profile with a null or true `is_active` flag, alone in holding its key, is accepted. */
  lemma NullActiveAccepted(profiles: map<string, ProfileRow>, id: string)
    requires id in profiles && profiles[id].isActive.None?
    requires forall other :: other in profiles && other != id ==> profiles[other].apiKey != profiles[id].apiKey
    ensures ProfileFromToken(profiles, profiles[id].apiKey, false) == Some(id)
  {
    var holders := KeyHolders(profiles, profiles[id].apiKey);
    assert holders == {id};
  }

  // ---------------- links ----------------

  /** The outcome of the `links` check: accepted, refused with 400, or a TypeError (uncaught, 500). */
  datatype LinksVerdict = LinksAccepted | LinksRefused | LinksCrash

  /** `link.url && typeof link.url === "string"` on a link that is not null or undefined. */
  predicate GoodLink(link: Value) {
    Get(link, "url").Str? && Get(link, "url").s != ""
  }

  /** The `links` rule: an array of at most 3 items, each with a non-empty string `url`. */
  function LinksVerdictOf(links: Value): (r: LinksVerdict)
    ensures r == LinksAccepted <==> links.Arr? && |links.items| <= 3 && forall i :: 0 <= i < |links.items| ==> GoodLink(links.items[i])
    ensures r == LinksCrash <==>
      links.Arr? && |links.items| <= 3 && exists i :: 0 <= i < |links.items| && Nullish(links.items[i]) && forall j :: 0 <= j < i ==> GoodLink(links.items[j])
  {
    if !links.Arr? || |links.items| > 3 then LinksRefused
    else FirstBadLink(links.items, 0)
  }

  /** The verdict of the `for (const link of links)` loop from item `from` on. */
  function FirstBadLink(items: seq<Value>, from: nat): (r: LinksVerdict)
    requires from <= |items|
    ensures r == LinksAccepted <==> forall i :: from <= i < |items| ==> GoodLink(items[i])
    ensures r == LinksCrash <==> exists i :: from <= i < |items| && Nullish(items[i]) && forall j :: from <= j < i ==> GoodLink(items[j])
    decreases |items| - from
  {
    if from == |items| then LinksAccepted
    else if Nullish(items[from]) then LinksCrash
    else if !GoodLink(items[from]) then LinksRefused
    else FirstBadLink(items, from + 1)
  }

  /** The check of `links` as written: type, length, then a `for` loop over the items. */
  method CheckLinks(links: Value) returns (r: LinksVerdict)
    ensures r == LinksVerdictOf(links)
  {
    if !links.Arr? {
      return LinksRefused;
    }
    if |links.items| > 3 {
      return LinksRefused;
    }
    for i := 0 to |links.items|
      invariant FirstBadLink(links.items, i) == FirstBadLink(links.items, 0)
    {
      var link := links.items[i];
      if Nullish(link) {
        return LinksCrash;
      }
      if !GoodLink(link) {
        return LinksRefused;
      }
    }
    return LinksAccepted;
  }

  // ---------------- update payload ----------------

  /** The columns `update` writes, each from the payload field of the same name. */
  const UpdateColumns: seq<string> := ["title", "notes", "street_line1", "street_line2", "city", "state",
                                       "postal_code", "country", "phone", "website", "category"]

  /**
   * The `updatePayload` object: each of the 11 columns set to the supplied
   * value or null, and `links` only when it was supplied.
   */
  function UpdatePayloadOf(payload: Value): (r: map<string, Value>)
    ensures forall k :: k in UpdateColumns ==> k in r && r[k] == Coalesce(Get(payload, k), Null)
    ensures forall k :: k in UpdateColumns ==> !r[k].Undefined?
    ensures "links" in r <==> !Get(payload, "links").Undefined?
    ensures "links" in r ==> r["links"] == Get(payload, "links")
    ensures forall k :: k in r ==> k in UpdateColumns || k == "links"
  {
    var base := map k | k in UpdateColumns :: Coalesce(Get(payload, k), Null);
    if Get(payload, "links").Undefined? then base else base["links" := Get(payload, "links")]
  }

  // ---------------- file names and paths ----------------

  /** The characters `[a-zA-Z0-9._-]` that sanitising keeps. */
  predicate FileNameChar(c: char) {
    IsAsciiUpper(c) || IsAsciiLower(c) || IsAsciiDigit(c) || c == '.' || c == '_' || c == '-'
  }

  /**
   * What `/[^a-zA-Z0-9._-]/g` replaced by "_" makes of one character. The
   * pattern has no `u` flag, so it matches UTF-16 code units: a character
   * beyond U+FFFF is a surrogate pair and becomes two underscores.
   */
  function SanitizeChar(c: char): (r: string)
    ensures |r| == CodeUnitsOf(c)
    ensures forall k :: 0 <= k < |r| ==> FileNameChar(r[k])
    ensures FileNameChar(c) ==> r == [c]
  {
    if FileNameChar(c) then [c] else if IsAstral(c) then "__" else "_"
  }

  /** `file_name.replace(/[^a-zA-Z0-9._-]/g, "_")`: one kept character or underscore per code unit. */
  function SanitizeFileName(name: string): (r: string)
    ensures |r| == Utf16Length(name)
    ensures forall k :: 0 <= k < |r| ==> FileNameChar(r[k])
  {
    if name == [] then [] else SanitizeChar(name[0]) + SanitizeFileName(name[1..])
  }

  /**
   * On a name without characters beyond U+FFFF sanitising works character by
   * character: kept characters stay where they are and every other one
   * becomes `_`.
   */
  lemma {:induction false} SanitizeBasicPlane(name: string)
    requires forall k :: 0 <= k < |name| ==> !IsAstral(name[k])
    ensures |SanitizeFileName(name)| == |name|
    ensures forall k :: 0 <= k < |name| ==>
      SanitizeFileName(name)[k] == if FileNameChar(name[k]) then name[k] else '_'
    decreases |name|
  {
    if name != [] {
      assert forall k :: 0 <= k < |name| - 1 ==> name[1..][k] == name[k + 1];
      SanitizeBasicPlane(name[1..]);
      Utf16LengthBasicPlane(name);
    }
  }

  /** A name made of kept characters only is left as it is. */
  lemma {:induction false} SanitizeKeepsFileNames(name: string)
    requires forall k :: 0 <= k < |name| ==> FileNameChar(name[k])
    ensures SanitizeFileName(name) == name
    decreases |name|
  {
    if name != [] {
      assert forall k :: 0 <= k < |name| - 1 ==> name[1..][k] == name[k + 1];
      SanitizeKeepsFileNames(name[1..]);
    }
  }

  /** Sanitising a sanitised name changes nothing. */
  lemma SanitizeIdempotent(name: string)
    ensures SanitizeFileName(SanitizeFileName(name)) == SanitizeFileName(name)
  {
    SanitizeKeepsFileNames(SanitizeFileName(name));
  }

  /** A sanity example: an emoji is one character but two code units, so it becomes two underscores. */
  lemma SanitizeEmojiExample()
    ensures SanitizeFileName("\U{1F600}.jpg") == "__.jpg"
  {
    var name := "\U{1F600}.jpg";
    assert name[1..] == ".jpg" && ".jpg"[1..] == "jpg" && "jpg"[1..] == "pg" && "pg"[1..] == "g" && "g"[1..] == [];
  }

  function DigitChar(d: nat): (c: char)
    requires d < 10
    ensures IsAsciiDigit(c)
  {
    "0123456789"[d]
  }

  /** The decimal text of a natural number, as template literals write `Date.now()`. */
  function NatText(n: nat): (r: string)
    ensures |r| > 0 && forall k :: 0 <= k < |r| ==> IsAsciiDigit(r[k])
  {
    if n < 10 then [DigitChar(n)] else NatText(n / 10) + [DigitChar(n % 10)]
  }

  /** `${userId}/${place_id}/${timestamp}_${sanitizedFileName}`. */
  function PhotoPath(userId: string, placeKey: string, timestamp: nat, name: string): (r: string)
    ensures |userId + "/" + placeKey + "/"| < |r| && r[..|userId + "/" + placeKey + "/"|] == userId + "/" + placeKey + "/"
    ensures |SanitizeFileName(name)| < |r| && r[|r| - |SanitizeFileName(name)|..] == SanitizeFileName(name)
  {
    var dir, file := userId + "/" + placeKey + "/", NatText(timestamp) + "_" + SanitizeFileName(name);
    assert userId + "/" + placeKey + "/" + NatText(timestamp) + "_" + SanitizeFileName(name) == dir + file;
    dir + file
  }

  /** `${userId}/${place_id}/thumb_${timestamp}_${sanitizedFileName}`. */
  function ThumbnailPath(userId: string, placeKey: string, timestamp: nat, name: string): (r: string)
    ensures |userId + "/" + placeKey + "/"| < |r| && r[..|userId + "/" + placeKey + "/"|] == userId + "/" + placeKey + "/"
    ensures |SanitizeFileName(name)| < |r| && r[|r| - |SanitizeFileName(name)|..] == SanitizeFileName(name)
  {
    var dir, file := userId + "/" + placeKey + "/", "thumb_" + NatText(timestamp) + "_" + SanitizeFileName(name);
    assert userId + "/" + placeKey + "/thumb_" + NatText(timestamp) + "_" + SanitizeFileName(name) == dir + file;
    dir + file
  }

  /** `profiles/${userId}/${timestamp}_${sanitizedFileName}`. */
  function ProfilePhotoPath(userId: string, timestamp: nat, name: string): (r: string)
    ensures |"profiles/" + userId + "/"| < |r| && r[..|"profiles/" + userId + "/"|] == "profiles/" + userId + "/"
    ensures |SanitizeFileName(name)| < |r| && r[|r| - |SanitizeFileName(name)|..] == SanitizeFileName(name)
  {
    var dir, file := "profiles/" + userId + "/", NatText(timestamp) + "_" + SanitizeFileName(name);
    assert "profiles/" + userId + "/" + NatText(timestamp) + "_" + SanitizeFileName(name) == dir + file;
    dir + file
  }

  /** The file part of a path: its segments hold no `/`, since sanitising removes it. */
  lemma FileSegmentHasNoSlash(timestamp: nat, name: string, thumb: bool)
    ensures '/' !in (if thumb then "thumb_" else "") + NatText(timestamp) + "_" + SanitizeFileName(name)
  {
    var t, f := NatText(timestamp), SanitizeFileName(name);
    assert '/' !in t by {
      forall k | 0 <= k < |t| ensures t[k] != '/' {
        assert IsAsciiDigit(t[k]);
      }
    }
    assert '/' !in f by {
      forall k | 0 <= k < |f| ensures f[k] != '/' {
        assert FileNameChar(f[k]);
      }
    }
  }

  /**
   * A photo path reads back as user id, place id and file part, when the two
   * ids hold no `/`.
   */
  lemma PhotoPathSegments(userId: string, placeKey: string, timestamp: nat, name: string)
    requires '/' !in userId && '/' !in placeKey
    ensures Split(PhotoPath(userId, placeKey, timestamp, name), '/')
      == [userId, placeKey, NatText(timestamp) + "_" + SanitizeFileName(name)]
  {
    var f := NatText(timestamp) + "_" + SanitizeFileName(name);
    assert '/' !in f by {
      FileSegmentHasNoSlash(timestamp, name, false);
      assert "" + f == f;
    }
    assert PhotoPath(userId, placeKey, timestamp, name) == userId + ['/'] + placeKey + ['/'] + f;
    SplitThree(userId, placeKey, f, '/');
  }

  /** A profile photo path reads back as "profiles", user id and file part. */
  lemma ProfilePhotoPathSegments(userId: string, timestamp: nat, name: string)
    requires '/' !in userId
    ensures Split(ProfilePhotoPath(userId, timestamp, name), '/')
      == ["profiles", userId, NatText(timestamp) + "_" + SanitizeFileName(name)]
  {
    var f := NatText(timestamp) + "_" + SanitizeFileName(name);
    assert '/' !in f by {
      FileSegmentHasNoSlash(timestamp, name, false);
      assert "" + f == f;
    }
    assert ProfilePhotoPath(userId, timestamp, name) == "profiles" + ['/'] + userId + ['/'] + f;
    SplitThree("profiles", userId, f, '/');
  }

  /** The thumbnail never lands on the photo it belongs to: their paths differ right after the place id. */
  lemma ThumbnailPathDiffers(userId: string, placeKey: string, timestamp: nat, name: string)
    ensures ThumbnailPath(userId, placeKey, timestamp, name) != PhotoPath(userId, placeKey, timestamp, name)
  {
    var n := |userId + "/" + placeKey + "/"|;
    assert ThumbnailPath(userId, placeKey, timestamp, name)[n] == 't';
    assert PhotoPath(userId, placeKey, timestamp, name)[n] == NatText(timestamp)[0];
  }

  // ---------------- profile photo size ----------------

  /** `5 * 1024 * 1024`. */
  const MaxProfilePhotoBytes: int := 5 * 1024 * 1024

  /** `Math.ceil((length * 3) / 4)`. */
  function EstimatedBytes(length: nat): (r: nat)
    ensures 4 * r >= 3 * length && 4 * r < 3 * length + 4
  {
    (3 * length + 3) / 4
  }

  /** A base64 text is refused exactly when it has 6990507 characters or more. */
  lemma SizeBoundThreshold(length: nat)
    ensures EstimatedBytes(length) > MaxProfilePhotoBytes <==> length >= 6990507
  {
  }
}
