/**
 * The request handler of supabase/functions/manage-places/index.ts over the
 * three tables it touches (`places`, `place_photos`, `profiles`) and the
 * `place-photos` storage bucket. Each action is a method of `Backend` that
 * updates those maps in place; the function of the same name with `Step`
 * appended says what the action does to a snapshot of them, and the lemmas
 * at the end say what every action keeps.
 *
 * A failing database or storage call is named in `Env.faults`; the clock
 * (`Date.now()`), the photo id the database would assign, `String(n)` for
 * numbers and whether `atob` accepts a text are passed in as well.
 */
module ManagePlaces {
  import opened Wrappers
  import opened Js
  import opened ManageRules

  // ---------------- state ----------------

  /** A `places` row: its `user_id` (None is null) and the other columns by name. */
  datatype PlaceRow = PlaceRow(owner: Option<string>, columns: map<string, Value>)

  /** A `place_photos` row. */
  datatype PhotoRow = PhotoRow(placeId: string, storagePath: string, thumbnailPath: Option<string>,
                               description: Value, displayOrder: int)

  /** A snapshot of the tables, keyed by id, and of the paths held in the bucket. */
  datatype Tables = Tables(places: map<string, PlaceRow>, photos: map<string, PhotoRow>,
                           profiles: map<string, ProfileRow>, storage: set<string>)

  /** The database and storage calls of the handler, each of which may report an error. */
  datatype Op =
    | LookupProfile | ListPlaces | LookupPlace | UpdatePlace | DeletePlace
    | CountPhotos | UploadPhotoFile | UploadThumbnail | InsertPhoto | RemoveUploadedPhoto | RemoveUploadedThumbnail
    | LookupPhoto | RemovePhotoFiles | DeletePhotoRow | UpdatePhotoRow
    | ReadProfilePhoto | RemoveOldProfilePhoto | UploadProfilePhotoFile | UpdateProfile | RemoveProfileUpload

  datatype Env = Env(formatNumber: Number -> string, base64Valid: string -> bool, now: nat,
                     newPhotoId: string, faults: set<Op>)

  /** The status an action answers with and the tables it leaves behind. */
  datatype Step = Step(status: int, after: Tables)

  /** The text a filter `.eq(column, v)` compares with: `String(v)`. */
  function Key(v: Value, env: Env): string {
    ToJsString(v, env.formatNumber)
  }

  // ---------------- ownership ----------------

  datatype Access = Owned | NotFound | Forbidden

  /**
   * The `select("id, user_id").eq("id", place_id).single()` lookup and the
   * `user_id !== userId` test: a failed or empty lookup is 404, a row of
   * another user (or with a null owner) is 403.
   */
  function AccessTo(t: Tables, userId: string, placeId: Value, env: Env): (r: Access)
    ensures r == Owned <==> LookupPlace !in env.faults && Key(placeId, env) in t.places
                            && t.places[Key(placeId, env)].owner == Some(userId)
    ensures r == NotFound <==> LookupPlace in env.faults || Key(placeId, env) !in t.places
  {
    var key := Key(placeId, env);
    if LookupPlace in env.faults || key !in t.places then NotFound
    else if t.places[key].owner != Some(userId) then Forbidden
    else Owned
  }

  function RefusalStatus(a: Access): int {
    if a == NotFound then 404 else 403
  }

  /** The places `list` returns: the rows of `places_with_profiles` whose `user_id` is the caller. */
  function OwnedPlaces(places: map<string, PlaceRow>, userId: string): set<string> {
    set k | k in places && places[k].owner == Some(userId)
  }

  // ---------------- photos ----------------

  /** The photo rows of one place. */
  function PhotosOf(photos: map<string, PhotoRow>, placeKey: string): set<string> {
    set id | id in photos && photos[id].placeId == placeKey
  }

  /** The exact `count` of `place_photos` rows for a place. */
  function PhotoCount(photos: map<string, PhotoRow>, placeKey: string): nat {
    |PhotosOf(photos, placeKey)|
  }

  const MaxPhotosPerPlace: nat := 5

  /** No place holds more than five photos. */
  predicate WithinQuota(photos: map<string, PhotoRow>) {
    forall id :: id in photos ==> PhotoCount(photos, photos[id].placeId) <= MaxPhotosPerPlace
  }

  /** `thumbnail_path` is truthy. */
  predicate HasThumbnail(row: PhotoRow) {
    row.thumbnailPath.Some? && row.thumbnailPath.value != ""
  }

  /** `filesToDelete`: the photo and, when it has one, its thumbnail. */
  function FilesOf(row: PhotoRow): set<string> {
    {row.storagePath} + (if HasThumbnail(row) then {row.thumbnailPath.value} else {})
  }

  /**
   * `file_base64.length` for the values that have one: UTF-16 code units for
   * a string, items for an array. Anything else is never too large.
   */
  function Length(v: Value): (r: Option<nat>)
    ensures r.Some? <==> v.Str? || v.Arr?
    ensures v.Str? ==> |v.s| <= r.value <= 2 * |v.s|
  {
    match v
    case Str(s) => Some(Utf16Length(s))
    case Arr(items) => Some(|items|)
    case _ => None
  }

  /** The profile-photo size check: `Math.ceil(length * 3 / 4) > 5 MiB`. */
  predicate TooLarge(v: Value)
    ensures TooLarge(v) <==> Length(v).Some? && Length(v).value >= 6990507
  {
    if Length(v).None? then false
    else
      SizeBoundThreshold(Length(v).value);
      EstimatedBytes(Length(v).value) > MaxProfilePhotoBytes
  }

  // ---------------- the actions, as functions of the tables ----------------

  /** The three tables are as they were; only the bucket may differ. */
  predicate SameRows(t: Tables, after: Tables) {
    after.places == t.places && after.photos == t.photos && after.profiles == t.profiles
  }

  function ListStep(t: Tables, userId: string, env: Env): (r: (int, set<string>))
    ensures r.0 == 200 || r.0 == 500
    ensures r.0 == 500 ==> r.1 == {}
    ensures forall k :: k in r.1 ==> k in t.places && t.places[k].owner == Some(userId)
    ensures r.0 == 200 ==> forall k :: k in t.places && t.places[k].owner == Some(userId) ==> k in r.1
  {
    if ListPlaces in env.faults then (500, {}) else (200, OwnedPlaces(t.places, userId))
  }

  function UpdateStep(t: Tables, userId: string, payload: Value, env: Env): (r: Step)
    ensures r.status == 200 ==> AccessTo(t, userId, Get(payload, "place_id"), env) == Owned
    ensures r.status != 200 ==> SameRows(t, r.after)
    ensures r.status in {200, 400, 403, 404, 500}
  {
    var placeId := Get(payload, "place_id");
    if !Truthy(placeId) then Step(400, t)
    else
      var access := AccessTo(t, userId, placeId, env);
      if access != Owned then Step(RefusalStatus(access), t)
      else
        var links := Get(payload, "links");
        var verdict := if links.Undefined? then LinksAccepted else LinksVerdictOf(links);
        if verdict == LinksRefused then Step(400, t)
        else if verdict == LinksCrash then Step(500, t)
        else if UpdatePlace in env.faults then Step(500, t)
        else
          var key := Key(placeId, env);
          var row := t.places[key];
          Step(200, t.(places := t.places[key := row.(columns := row.columns + UpdatePayloadOf(payload))]))
  }

  function DeleteStep(t: Tables, userId: string, payload: Value, env: Env): (r: Step)
    ensures r.status == 200 ==> AccessTo(t, userId, Get(payload, "place_id"), env) == Owned
    ensures r.status != 200 ==> SameRows(t, r.after)
    ensures r.status in {200, 400, 403, 404, 500}
  {
    var placeId := Get(payload, "place_id");
    if !Truthy(placeId) then Step(400, t)
    else
      var access := AccessTo(t, userId, placeId, env);
      if access != Owned then Step(RefusalStatus(access), t)
      else if DeletePlace in env.faults then Step(500, t)
      else Step(200, t.(places := t.places - {Key(placeId, env)}))
  }

  function UploadPhotoStep(t: Tables, userId: string, payload: Value, env: Env): (r: Step)
    ensures r.status == 200 ==> AccessTo(t, userId, Get(payload, "place_id"), env) == Owned
    ensures r.status != 200 ==> SameRows(t, r.after)
    ensures r.status in {200, 400, 403, 404, 500}
  {
    var placeId := Get(payload, "place_id");
    var data := Get(payload, "file_base64");
    var name := Get(payload, "file_name");
    if !Truthy(placeId) || !Truthy(data) || !Truthy(name) then Step(400, t)
    else
      var access := AccessTo(t, userId, placeId, env);
      if access != Owned then Step(RefusalStatus(access), t)
      else if CountPhotos in env.faults then Step(500, t)
      else
        var key := Key(placeId, env);
        var count := PhotoCount(t.photos, key);
        if count >= MaxPhotosPerPlace then Step(400, t)
        // atob throws on text that is not base64; `.replace` throws on a name that is not a string
        else if !env.base64Valid(Key(data, env)) || !name.Str? then Step(500, t)
        else StorePhotoStep(t, userId, key, count, name.s, payload, env)
  }

  /** From the upload of the file on: upload, optional thumbnail, row insert with clean-up. */
  function StorePhotoStep(t: Tables, userId: string, key: string, count: nat, name: string, payload: Value, env: Env): (r: Step)
    ensures r.after.places == t.places && r.after.profiles == t.profiles
    ensures r.status != 200 ==> r.after.photos == t.photos
    ensures r.status == 200 || r.status == 500
  {
    var path := PhotoPath(userId, key, env.now, name);
    if UploadPhotoFile in env.faults || path in t.storage then Step(500, t)
    else
      var t1 := t.(storage := t.storage + {path});
      var thumbData := Get(payload, "thumbnail_base64");
      if Truthy(thumbData) && !env.base64Valid(Key(thumbData, env)) then Step(500, t1)
      else
        var thumbPath := ThumbnailPath(userId, key, env.now, name);
        var thumb := if Truthy(thumbData) && UploadThumbnail !in env.faults && thumbPath !in t1.storage
                     then Some(thumbPath) else None;
        var t2 := if thumb.Some? then t1.(storage := t1.storage + {thumbPath}) else t1;
        if InsertPhoto in env.faults || env.newPhotoId in t2.photos then
          var s1 := if RemoveUploadedPhoto in env.faults then t2.storage else t2.storage - {path};
          var s2 := if thumb.Some? && RemoveUploadedThumbnail !in env.faults then s1 - {thumbPath} else s1;
          Step(500, t2.(storage := s2))
        else
          var row := PhotoRow(key, path, thumb, Or(Get(payload, "description"), Null), count);
          Step(200, t2.(photos := t2.photos[env.newPhotoId := row]))
  }

  function DeletePhotoStep(t: Tables, userId: string, payload: Value, env: Env): (r: Step)
    ensures r.status == 200 ==> AccessTo(t, userId, Get(payload, "place_id"), env) == Owned
    ensures r.status != 200 ==> SameRows(t, r.after)
    ensures r.status in {200, 400, 403, 404, 500}
  {
    var photoId := Get(payload, "photo_id");
    var placeId := Get(payload, "place_id");
    if !Truthy(photoId) || !Truthy(placeId) then Step(400, t)
    else
      var access := AccessTo(t, userId, placeId, env);
      if access != Owned then Step(RefusalStatus(access), t)
      else
        var id := Key(photoId, env);
        if LookupPhoto in env.faults || id !in t.photos || t.photos[id].placeId != Key(placeId, env) then Step(404, t)
        else
          // a failed removal is only logged
          var t1 := if RemovePhotoFiles in env.faults then t else t.(storage := t.storage - FilesOf(t.photos[id]));
          if DeletePhotoRow in env.faults then Step(500, t1)
          else Step(200, t1.(photos := t1.photos - {id}))
  }

  function UpdatePhotoStep(t: Tables, userId: string, payload: Value, env: Env): (r: Step)
    ensures r.status == 200 ==> AccessTo(t, userId, Get(payload, "place_id"), env) == Owned
    ensures r.status != 200 ==> SameRows(t, r.after)
    ensures r.status in {200, 400, 403, 404, 500}
  {
    var photoId := Get(payload, "photo_id");
    var placeId := Get(payload, "place_id");
    if !Truthy(photoId) || !Truthy(placeId) then Step(400, t)
    else
      var access := AccessTo(t, userId, placeId, env);
      if access != Owned then Step(RefusalStatus(access), t)
      else if UpdatePhotoRow in env.faults then Step(500, t)
      else
        var id := Key(photoId, env);
        // the update filters on both ids; matching no row is not an error
        if id in t.photos && t.photos[id].placeId == Key(placeId, env) then
          Step(200, t.(photos := t.photos[id := t.photos[id].(description := Coalesce(Get(payload, "description"), Null))]))
        else Step(200, t)
  }

  function UploadProfilePhotoStep(t: Tables, userId: string, payload: Value, env: Env): (r: Step)
    ensures r.after.places == t.places && r.after.photos == t.photos
    ensures r.status != 200 ==> SameRows(t, r.after)
    ensures r.status in {200, 400, 500}
  {
    var data := Get(payload, "file_base64");
    var name := Get(payload, "file_name");
    if !Truthy(data) || !Truthy(name) then Step(400, t)
    else if TooLarge(data) then Step(400, t)
    else
      var t1 := t.(storage := StorageAfterOldPhotoRemoval(t, userId, env));
      if !env.base64Valid(Key(data, env)) || !name.Str? then Step(500, t1)
      else
        var path := ProfilePhotoPath(userId, env.now, name.s);
        if UploadProfilePhotoFile in env.faults || path in t1.storage then Step(500, t1)
        else
          var t2 := t1.(storage := t1.storage + {path});
          if UpdateProfile in env.faults then
            Step(500, if RemoveProfileUpload in env.faults then t2 else t2.(storage := t2.storage - {path}))
          else if userId in t2.profiles then
            Step(200, t2.(profiles := t2.profiles[userId := t2.profiles[userId].(photoPath := Some(path))]))
          else Step(200, t2)
  }

  /** The bucket after the previous profile photo, when there is a truthy one, is removed. */
  function StorageAfterOldPhotoRemoval(t: Tables, userId: string, env: Env): (r: set<string>)
    ensures r <= t.storage
    ensures forall p :: p in t.storage && p !in r ==> userId in t.profiles && t.profiles[userId].photoPath == Some(p)
  {
    if ReadProfilePhoto !in env.faults && userId in t.profiles && t.profiles[userId].photoPath.Some?
       && t.profiles[userId].photoPath.value != "" && RemoveOldProfilePhoto !in env.faults
    then t.storage - {t.profiles[userId].photoPath.value}
    else t.storage
  }

  /** The response: status, the tables afterwards and, for `list`, the places returned. */
  datatype Response = Response(status: int, after: Tables, listed: set<string>)

  const Actions: set<string> := {"list", "update", "delete", "upload_photo", "delete_photo",
                                 "update_photo", "upload_profile_photo"}

  /** The caller's profile id, when the `user_token` is truthy and names an accepted profile. */
  function Caller(t: Tables, payload: Value, env: Env): (r: Option<string>)
    ensures r.Some? ==>
      && Truthy(Get(payload, "user_token")) && r.value in t.profiles
      && t.profiles[r.value].apiKey == Key(Get(payload, "user_token"), env)
      && t.profiles[r.value].isActive != Some(false)
    ensures LookupProfile in env.faults ==> r.None?
  {
    var token := Get(payload, "user_token");
    if !Truthy(token) then None
    else ProfileFromToken(t.profiles, Key(token, env), LookupProfile in env.faults)
  }

  /** One request: `body` None is a body `req.json()` rejects. */
  function HandleStep(t: Tables, httpMethod: string, body: Option<Value>, env: Env): (r: Response)
    ensures r.status in {200, 400, 401, 403, 404, 405, 500}
    ensures r.status != 200 ==> SameRows(t, r.after)
    ensures r.after != t ==> httpMethod == "POST" && body.Some? && Caller(t, body.value, env).Some?
    ensures r.listed != {} ==> body.Some? && Get(body.value, "action") == Str("list") && r.after == t
  {
    if httpMethod == "OPTIONS" then Response(200, t, {})
    else if httpMethod != "POST" then Response(405, t, {})
    else if body.None? then Response(400, t, {})
    else
      var payload := body.value;
      var caller := Caller(t, payload, env);
      if caller.None? then Response(401, t, {})
      else
        var userId := caller.value;
        var action := Get(payload, "action");
        if action == Str("list") then
          var (status, listed) := ListStep(t, userId, env);
          Response(status, t, listed)
        else
          var step := ActionStep(t, userId, action, payload, env);
          Response(step.status, step.after, {})
  }

  // ---------------- what every action keeps ----------------

  /**
   * The top-level refusals: OPTIONS is answered 200, any other method but
   * POST 405, an unreadable body 400, a missing or unaccepted `user_token`
   * 401, an unknown action 400; none of them touches the tables.
   */
  lemma TopLevelRefusals(t: Tables, httpMethod: string, body: Option<Value>, env: Env)
    ensures var r := HandleStep(t, httpMethod, body, env);
      && (httpMethod == "OPTIONS" ==> r.status == 200 && r.after == t)
      && (httpMethod != "OPTIONS" && httpMethod != "POST" ==> r.status == 405 && r.after == t)
      && (httpMethod == "POST" && body.None? ==> r.status == 400 && r.after == t)
      && (httpMethod == "POST" && body.Some? && !Truthy(Get(body.value, "user_token")) ==> r.status == 401 && r.after == t)
      && (httpMethod == "POST" && body.Some? && Caller(t, body.value, env).None? ==> r.status == 401 && r.after == t)
      && ((httpMethod == "POST" && body.Some? && Caller(t, body.value, env).Some?
           && !(Get(body.value, "action").Str? && Get(body.value, "action").s in Actions))
          ==> r.status == 400 && r.after == t)
  {
  }

  /** The actions on one place, each of which checks that the caller owns it. */
  const PlaceActions: set<string> := {"update", "delete", "upload_photo", "delete_photo", "update_photo"}

  /** The payload fields an action needs before it looks the place up, all truthy. */
  predicate RequiredFieldsGiven(action: string, payload: Value) {
    && Truthy(Get(payload, "place_id"))
    && (action == "upload_photo" ==> Truthy(Get(payload, "file_base64")) && Truthy(Get(payload, "file_name")))
    && (action == "delete_photo" || action == "update_photo" ==> Truthy(Get(payload, "photo_id")))
  }

  /**
   * An action on a place, once its fields are given, answers 404 when the
   * place cannot be read and 403 when it belongs to someone else, and writes
   * nothing in either case.
   */
  lemma OwnershipRefusals(t: Tables, userId: string, action: string, payload: Value, env: Env)
    requires action in PlaceActions && RequiredFieldsGiven(action, payload)
    ensures AccessTo(t, userId, Get(payload, "place_id"), env) == NotFound ==>
      ActionStep(t, userId, Str(action), payload, env) == Step(404, t)
    ensures AccessTo(t, userId, Get(payload, "place_id"), env) == Forbidden ==>
      ActionStep(t, userId, Str(action), payload, env) == Step(403, t)
  {
  }

  /** Every 4xx answer, of any action, is given before anything is written. */
  lemma {:induction false} RefusalsWriteNothing(t: Tables, httpMethod: string, body: Option<Value>, env: Env)
    ensures var r := HandleStep(t, httpMethod, body, env);
      400 <= r.status < 500 ==> r.after == t
  {
    if httpMethod == "POST" && body.Some? && Caller(t, body.value, env).Some? {
      var userId, payload := Caller(t, body.value, env).value, body.value;
      var action := Get(payload, "action");
      if action != Str("list") {
        ActionRefusalsWriteNothing(t, userId, action, payload, env);
      }
    }
  }

  lemma {:induction false} ActionRefusalsWriteNothing(t: Tables, userId: string, action: Value, payload: Value, env: Env)
    ensures var s := ActionStep(t, userId, action, payload, env); 400 <= s.status < 500 ==> s.after == t
  {
    if action == Str("update") {
      UpdateRefusalsWriteNothing(t, userId, payload, env);
    } else if action == Str("delete") {
      DeleteRefusalsWriteNothing(t, userId, payload, env);
    } else if action == Str("upload_photo") {
      UploadPhotoOnlyAddsOnSuccess(t, userId, payload, env);
    } else if action == Str("delete_photo") {
      DeletePhotoRefusalsWriteNothing(t, userId, payload, env);
    } else if action == Str("update_photo") {
      UpdatePhotoRefusalsWriteNothing(t, userId, payload, env);
    } else if action == Str("upload_profile_photo") {
      UploadProfilePhotoRefusalsWriteNothing(t, userId, payload, env);
    }
  }

  lemma UpdateRefusalsWriteNothing(t: Tables, userId: string, payload: Value, env: Env)
    ensures var s := UpdateStep(t, userId, payload, env); 400 <= s.status < 500 ==> s.after == t
  {
  }

  lemma DeleteRefusalsWriteNothing(t: Tables, userId: string, payload: Value, env: Env)
    ensures var s := DeleteStep(t, userId, payload, env); 400 <= s.status < 500 ==> s.after == t
  {
  }

  lemma DeletePhotoRefusalsWriteNothing(t: Tables, userId: string, payload: Value, env: Env)
    ensures var s := DeletePhotoStep(t, userId, payload, env); 400 <= s.status < 500 ==> s.after == t
  {
  }

  lemma UpdatePhotoRefusalsWriteNothing(t: Tables, userId: string, payload: Value, env: Env)
    ensures var s := UpdatePhotoStep(t, userId, payload, env); 400 <= s.status < 500 ==> s.after == t
  {
  }

  lemma UploadProfilePhotoRefusalsWriteNothing(t: Tables, userId: string, payload: Value, env: Env)
    ensures var s := UploadProfilePhotoStep(t, userId, payload, env); 400 <= s.status < 500 ==> s.after == t
  {
  }

  /** A profile photo of 6990507 base64 characters or more is refused before the old one is removed. */
  lemma OversizedProfilePhotoRefused(t: Tables, userId: string, payload: Value, env: Env)
    requires Truthy(Get(payload, "file_name"))
    requires Get(payload, "file_base64").Str? && Utf16Length(Get(payload, "file_base64").s) >= 6990507
    ensures UploadProfilePhotoStep(t, userId, payload, env) == Step(400, t)
  {
  }

  /** Adding a photo row under a fresh id adds it to its own place's photos and to no other. */
  lemma PhotosOfInsert(photos: map<string, PhotoRow>, id: string, row: PhotoRow, placeKey: string)
    requires id !in photos
    ensures PhotosOf(photos[id := row], placeKey)
      == PhotosOf(photos, placeKey) + (if row.placeId == placeKey then {id} else {})
  {
  }

  /** Removing a photo row never adds to a place's photos. */
  lemma PhotosOfRemove(photos: map<string, PhotoRow>, id: string, placeKey: string)
    ensures PhotoCount(photos - {id}, placeKey) <= PhotoCount(photos, placeKey)
  {
    assert PhotosOf(photos - {id}, placeKey) == PhotosOf(photos, placeKey) - {id};
  }

  /** Rewriting a photo row within its place changes no place's photos. */
  lemma PhotosOfRewrite(photos: map<string, PhotoRow>, id: string, row: PhotoRow, placeKey: string)
    requires id in photos && row.placeId == photos[id].placeId
    ensures PhotosOf(photos[id := row], placeKey) == PhotosOf(photos, placeKey)
  {
  }

  /**
   * A successful `upload_photo` adds exactly one row, under the new id, to the
   * place's photos; its `display_order` is the count before, which was below
   * five, and the place ends with one photo more.
   */
  lemma {:induction false} UploadAddsOnePhoto(t: Tables, userId: string, payload: Value, env: Env)
    ensures var s := UploadPhotoStep(t, userId, payload, env);
      var key := Key(Get(payload, "place_id"), env);
      s.status == 200 ==>
        && env.newPhotoId !in t.photos && env.newPhotoId in s.after.photos
        && s.after.photos == t.photos[env.newPhotoId := s.after.photos[env.newPhotoId]]
        && s.after.photos[env.newPhotoId].placeId == key
        && s.after.photos[env.newPhotoId].displayOrder == PhotoCount(t.photos, key) < MaxPhotosPerPlace
        && PhotoCount(s.after.photos, key) == PhotoCount(t.photos, key) + 1
        && s.after.places == t.places && s.after.profiles == t.profiles
  {
    var s := UploadPhotoStep(t, userId, payload, env);
    if s.status == 200 {
      var key := Key(Get(payload, "place_id"), env);
      var count := PhotoCount(t.photos, key);
      var name := Get(payload, "file_name");
      assert count < MaxPhotosPerPlace && name.Str? && s == StorePhotoStep(t, userId, key, count, name.s, payload, env);
      StoreAddsRow(t, userId, key, count, name.s, payload, env);
      PhotosOfInsert(t.photos, env.newPhotoId, s.after.photos[env.newPhotoId], key);
    }
  }

  /** A stored photo is one new row, under the new id, for the place and at the order given; nothing else but the bucket changes. */
  lemma StoreAddsRow(t: Tables, userId: string, key: string, count: nat, name: string, payload: Value, env: Env)
    ensures var s := StorePhotoStep(t, userId, key, count, name, payload, env);
      s.status == 200 ==>
        && env.newPhotoId !in t.photos && env.newPhotoId in s.after.photos
        && s.after.photos == t.photos[env.newPhotoId := s.after.photos[env.newPhotoId]]
        && s.after.photos[env.newPhotoId].placeId == key
        && s.after.photos[env.newPhotoId].displayOrder == count
        && s.after.places == t.places && s.after.profiles == t.profiles
  {
  }

  /**
   * A row insert that fails after the uploads succeeded leaves the bucket and
   * the photos as they were, when the clean-up removals succeed.
   */
  lemma {:induction false} FailedInsertCleansUp(t: Tables, userId: string, key: string, count: nat, name: string,
                                                payload: Value, env: Env)
    requires UploadPhotoFile !in env.faults && PhotoPath(userId, key, env.now, name) !in t.storage
    requires Truthy(Get(payload, "thumbnail_base64")) ==> env.base64Valid(Key(Get(payload, "thumbnail_base64"), env))
    requires InsertPhoto in env.faults || env.newPhotoId in t.photos
    requires RemoveUploadedPhoto !in env.faults && RemoveUploadedThumbnail !in env.faults
    ensures StorePhotoStep(t, userId, key, count, name, payload, env) == Step(500, t)
  {
    var path := PhotoPath(userId, key, env.now, name);
    var thumbPath := ThumbnailPath(userId, key, env.now, name);
    ThumbnailPathDiffers(userId, key, env.now, name);
    var s1 := t.storage + {path};
    assert s1 - {path} == t.storage;
    if thumbPath !in s1 {
      assert s1 + {thumbPath} - {path} - {thumbPath} == t.storage;
    }
  }

  /**
   * `delete_photo` removes a row only of the named place: on success the row
   * is gone and, unless the storage removal failed, so are its files; when
   * the row delete fails after the files were removed, the row is left
   * pointing at files that no longer exist.
   */
  lemma DeletePhotoOutcome(t: Tables, userId: string, payload: Value, env: Env)
    ensures var s := DeletePhotoStep(t, userId, payload, env);
      var id := Key(Get(payload, "photo_id"), env);
      var key := Key(Get(payload, "place_id"), env);
      && (s.status == 200 ==>
            id in t.photos && t.photos[id].placeId == key && key in OwnedPlaces(t.places, userId)
            && s.after.photos == t.photos - {id}
            && (RemovePhotoFiles !in env.faults ==> s.after.storage == t.storage - FilesOf(t.photos[id])))
      && (s.status == 500 ==>
            s.after.photos == t.photos && id in t.photos
            && (RemovePhotoFiles !in env.faults ==> t.photos[id].storagePath !in s.after.storage))
  {
  }

  /** Only a 200 answer from `upload_photo` adds to the photos. */
  lemma UploadPhotoOnlyAddsOnSuccess(t: Tables, userId: string, payload: Value, env: Env)
    ensures var s := UploadPhotoStep(t, userId, payload, env);
      s.status != 200 ==> s.after.photos == t.photos && s.after.places == t.places && s.after.profiles == t.profiles
  {
  }

  /** No request takes a place past five photos. */
  lemma {:induction false} QuotaKept(t: Tables, httpMethod: string, body: Option<Value>, env: Env)
    requires WithinQuota(t.photos)
    ensures WithinQuota(HandleStep(t, httpMethod, body, env).after.photos)
  {
    if httpMethod == "POST" && body.Some? && Caller(t, body.value, env).Some? {
      var userId, payload := Caller(t, body.value, env).value, body.value;
      var action := Get(payload, "action");
      if action != Str("list") {
        ActionKeepsQuota(t, userId, action, payload, env);
      }
    }
  }

  lemma {:induction false} ActionKeepsQuota(t: Tables, userId: string, action: Value, payload: Value, env: Env)
    requires WithinQuota(t.photos)
    ensures WithinQuota(ActionStep(t, userId, action, payload, env).after.photos)
  {
    if action == Str("upload_photo") {
      UploadKeepsQuota(t, userId, payload, env);
    } else if action == Str("delete_photo") {
      DeletePhotoKeepsQuota(t, userId, payload, env);
    } else if action == Str("update_photo") {
      UpdatePhotoKeepsQuota(t, userId, payload, env);
    } else {
      OtherActionsKeepPhotos(t, userId, action, payload, env);
    }
  }

  /** `update`, `delete` (no cascade to the photo rows) and `upload_profile_photo` leave the photo rows as they are. */
  lemma OtherActionsKeepPhotos(t: Tables, userId: string, action: Value, payload: Value, env: Env)
    requires action !in {Str("upload_photo"), Str("delete_photo"), Str("update_photo")}
    ensures ActionStep(t, userId, action, payload, env).after.photos == t.photos
  {
    if action == Str("update") {
      UpdateKeepsPhotos(t, userId, payload, env);
    } else if action == Str("delete") {
      DeleteKeepsPhotos(t, userId, payload, env);
    } else if action == Str("upload_profile_photo") {
      ProfilePhotoKeepsPhotos(t, userId, payload, env);
    }
  }

  lemma UpdateKeepsPhotos(t: Tables, userId: string, payload: Value, env: Env)
    ensures UpdateStep(t, userId, payload, env).after.photos == t.photos
  {
  }

  lemma DeleteKeepsPhotos(t: Tables, userId: string, payload: Value, env: Env)
    ensures DeleteStep(t, userId, payload, env).after.photos == t.photos
  {
  }

  lemma ProfilePhotoKeepsPhotos(t: Tables, userId: string, payload: Value, env: Env)
    ensures UploadProfilePhotoStep(t, userId, payload, env).after.photos == t.photos
  {
  }

  lemma {:induction false} DeletePhotoKeepsQuota(t: Tables, userId: string, payload: Value, env: Env)
    requires WithinQuota(t.photos)
    ensures WithinQuota(DeletePhotoStep(t, userId, payload, env).after.photos)
  {
    var s := DeletePhotoStep(t, userId, payload, env);
    if s.status == 200 {
      var id := Key(Get(payload, "photo_id"), env);
      assert s.after.photos == t.photos - {id};
      forall other | other in s.after.photos
        ensures PhotoCount(s.after.photos, s.after.photos[other].placeId) <= MaxPhotosPerPlace
      {
        PhotosOfRemove(t.photos, id, t.photos[other].placeId);
      }
    } else {
      assert s.after.photos == t.photos;
    }
  }

  lemma {:induction false} UpdatePhotoKeepsQuota(t: Tables, userId: string, payload: Value, env: Env)
    requires WithinQuota(t.photos)
    ensures WithinQuota(UpdatePhotoStep(t, userId, payload, env).after.photos)
  {
    var s := UpdatePhotoStep(t, userId, payload, env);
    if s.after.photos != t.photos {
      var id := Key(Get(payload, "photo_id"), env);
      var row := s.after.photos[id];
      assert s.after.photos == t.photos[id := row];
      forall other | other in s.after.photos
        ensures PhotoCount(s.after.photos, s.after.photos[other].placeId) <= MaxPhotosPerPlace
      {
        PhotosOfRewrite(t.photos, id, row, s.after.photos[other].placeId);
      }
    }
  }

  lemma {:induction false} UploadKeepsQuota(t: Tables, userId: string, payload: Value, env: Env)
    requires WithinQuota(t.photos)
    ensures WithinQuota(UploadPhotoStep(t, userId, payload, env).after.photos)
  {
    var s := UploadPhotoStep(t, userId, payload, env);
    UploadPhotoOnlyAddsOnSuccess(t, userId, payload, env);
    if s.status == 200 {
      UploadAddsOnePhoto(t, userId, payload, env);
      var n := env.newPhotoId;
      var row := s.after.photos[n];
      forall other | other in s.after.photos
        ensures PhotoCount(s.after.photos, s.after.photos[other].placeId) <= MaxPhotosPerPlace
      {
        PhotosOfInsert(t.photos, n, row, s.after.photos[other].placeId);
      }
    }
  }

  /**
   * What a request may change of other users' data: no place row it does not
   * own, no photo row of such a place, and no other profile; it creates no
   * place and no profile.
   */
  predicate OnlyCallersRows(t: Tables, after: Tables, userId: string) {
    && (forall k :: k in after.places ==> k in t.places)
    && (forall k :: k in t.places && t.places[k].owner != Some(userId) ==> k in after.places && after.places[k] == t.places[k])
    && (forall id :: id in t.photos && t.photos[id].placeId !in OwnedPlaces(t.places, userId)
                     ==> id in after.photos && after.photos[id] == t.photos[id])
    && after.profiles.Keys == t.profiles.Keys
    && (forall p :: p in t.profiles && p != userId ==> after.profiles[p] == t.profiles[p])
  }

  /** A request with no accepted caller changes nothing; one with a caller changes only the caller's rows. */
  lemma {:induction false} OnlyCallersRowsChange(t: Tables, httpMethod: string, body: Option<Value>, env: Env)
    ensures var r := HandleStep(t, httpMethod, body, env);
      && (body.None? || Caller(t, body.value, env).None? ==> r.after == t)
      && (body.Some? && Caller(t, body.value, env).Some? ==> OnlyCallersRows(t, r.after, Caller(t, body.value, env).value))
  {
    if httpMethod == "POST" && body.Some? && Caller(t, body.value, env).Some? {
      var userId, payload := Caller(t, body.value, env).value, body.value;
      var action := Get(payload, "action");
      if action != Str("list") {
        ActionTouchesOnlyCallersRows(t, userId, action, payload, env);
      }
    }
  }

  lemma {:induction false} ActionTouchesOnlyCallersRows(t: Tables, userId: string, action: Value, payload: Value, env: Env)
    ensures OnlyCallersRows(t, ActionStep(t, userId, action, payload, env).after, userId)
  {
    if action == Str("update") {
      UpdateTouchesOnlyCallersRows(t, userId, payload, env);
    } else if action == Str("delete") {
      DeleteTouchesOnlyCallersRows(t, userId, payload, env);
    } else if action == Str("upload_photo") {
      UploadPhotoTouchesOnlyCallersRows(t, userId, payload, env);
    } else if action == Str("delete_photo") {
      DeletePhotoTouchesOnlyCallersRows(t, userId, payload, env);
    } else if action == Str("update_photo") {
      UpdatePhotoTouchesOnlyCallersRows(t, userId, payload, env);
    } else if action == Str("upload_profile_photo") {
      UploadProfilePhotoTouchesOnlyCallersRows(t, userId, payload, env);
    }
  }

  lemma UpdateTouchesOnlyCallersRows(t: Tables, userId: string, payload: Value, env: Env)
    ensures OnlyCallersRows(t, UpdateStep(t, userId, payload, env).after, userId)
  {
  }

  lemma DeleteTouchesOnlyCallersRows(t: Tables, userId: string, payload: Value, env: Env)
    ensures OnlyCallersRows(t, DeleteStep(t, userId, payload, env).after, userId)
  {
  }

  lemma UploadPhotoTouchesOnlyCallersRows(t: Tables, userId: string, payload: Value, env: Env)
    ensures OnlyCallersRows(t, UploadPhotoStep(t, userId, payload, env).after, userId)
  {
    UploadPhotoOnlyAddsOnSuccess(t, userId, payload, env);
    UploadAddsOnePhoto(t, userId, payload, env);
  }

  lemma DeletePhotoTouchesOnlyCallersRows(t: Tables, userId: string, payload: Value, env: Env)
    ensures OnlyCallersRows(t, DeletePhotoStep(t, userId, payload, env).after, userId)
  {
    var s := DeletePhotoStep(t, userId, payload, env);
    assert s.after.places == t.places && s.after.profiles == t.profiles;
    if s.after.photos != t.photos {
      var id := Key(Get(payload, "photo_id"), env);
      assert s.after.photos == t.photos - {id} && t.photos[id].placeId in OwnedPlaces(t.places, userId);
      CallersPhotoChanged(t, s.after, userId, id);
    }
  }

  lemma UpdatePhotoTouchesOnlyCallersRows(t: Tables, userId: string, payload: Value, env: Env)
    ensures OnlyCallersRows(t, UpdatePhotoStep(t, userId, payload, env).after, userId)
  {
    var s := UpdatePhotoStep(t, userId, payload, env);
    assert s.after.places == t.places && s.after.profiles == t.profiles;
    if s.after.photos != t.photos {
      var id := Key(Get(payload, "photo_id"), env);
      assert s.after.photos == t.photos[id := s.after.photos[id]] && t.photos[id].placeId in OwnedPlaces(t.places, userId);
      CallersPhotoChanged(t, s.after, userId, id);
    }
  }

  lemma UploadProfilePhotoTouchesOnlyCallersRows(t: Tables, userId: string, payload: Value, env: Env)
    ensures OnlyCallersRows(t, UploadProfilePhotoStep(t, userId, payload, env).after, userId)
  {
    var s := UploadProfilePhotoStep(t, userId, payload, env);
    assert s.after.places == t.places && s.after.photos == t.photos;
    if s.after.profiles != t.profiles {
      assert userId in t.profiles && s.after.profiles == t.profiles[userId := s.after.profiles[userId]];
    }
  }

  /** Removing or rewriting one photo row of a place the caller owns changes only the caller's rows. */
  lemma CallersPhotoChanged(t: Tables, after: Tables, userId: string, id: string)
    requires after.places == t.places && after.profiles == t.profiles
    requires id in t.photos && t.photos[id].placeId in OwnedPlaces(t.places, userId)
    requires after.photos == t.photos - {id} || (id in after.photos && after.photos == t.photos[id := after.photos[id]])
    ensures OnlyCallersRows(t, after, userId)
  {
  }

  /** The state-changing actions, chosen by `action`; anything unknown is 400. */
  function ActionStep(t: Tables, userId: string, action: Value, payload: Value, env: Env): (r: Step)
    ensures r.status in {200, 400, 403, 404, 500}
    ensures r.status != 200 ==> SameRows(t, r.after)
    ensures !(action.Str? && action.s in Actions - {"list"}) ==> r == Step(400, t)
  {
    if action == Str("update") then UpdateStep(t, userId, payload, env)
    else if action == Str("delete") then DeleteStep(t, userId, payload, env)
    else if action == Str("upload_photo") then UploadPhotoStep(t, userId, payload, env)
    else if action == Str("delete_photo") then DeletePhotoStep(t, userId, payload, env)
    else if action == Str("update_photo") then UpdatePhotoStep(t, userId, payload, env)
    else if action == Str("upload_profile_photo") then UploadProfilePhotoStep(t, userId, payload, env)
    else Step(400, t)
  }

  // ---------------- the backend ----------------

  class Backend {
    var places: map<string, PlaceRow>
    var photos: map<string, PhotoRow>
    var profiles: map<string, ProfileRow>
    var storage: set<string>

    function Snapshot(): Tables
      reads this
    {
      Tables(places, photos, profiles, storage)
    }

    constructor (t: Tables)
      ensures Snapshot() == t
    {
      places, photos, profiles, storage := t.places, t.photos, t.profiles, t.storage;
    }

    /** The place lookup and owner test shared by five actions. */
    method CheckAccess(userId: string, placeId: Value, env: Env) returns (a: Access)
      ensures a == AccessTo(Snapshot(), userId, placeId, env)
    {
      var key := Key(placeId, env);
      if LookupPlace in env.faults || key !in places {
        return NotFound;
      }
      if places[key].owner != Some(userId) {
        return Forbidden;
      }
      return Owned;
    }

    /** `list`: reads only. */
    method List(userId: string, env: Env) returns (status: int, listed: set<string>)
      ensures ListPlaces in env.faults ==> status == 500 && listed == {}
      ensures ListPlaces !in env.faults ==> status == 200
      ensures ListPlaces !in env.faults ==> forall k :: k in listed <==> k in places && places[k].owner == Some(userId)
    {
      if ListPlaces in env.faults {
        return 500, {};
      }
      return 200, OwnedPlaces(places, userId);
    }

    method Update(userId: string, payload: Value, env: Env) returns (status: int)
      modifies this
      ensures Step(status, Snapshot()) == UpdateStep(old(Snapshot()), userId, payload, env)
    {
      var placeId := Get(payload, "place_id");
      if !Truthy(placeId) {
        return 400;
      }
      var access := CheckAccess(userId, placeId, env);
      if access != Owned {
        return RefusalStatus(access);
      }
      var links := Get(payload, "links");
      if !links.Undefined? {
        var verdict := CheckLinks(links);
        if verdict == LinksRefused {
          return 400;
        } else if verdict == LinksCrash {
          return 500;
        }
      }
      var updatePayload := map k | k in UpdateColumns :: Coalesce(Get(payload, k), Null);
      if !links.Undefined? {
        updatePayload := updatePayload["links" := links];
      }
      assert updatePayload == UpdatePayloadOf(payload);
      if UpdatePlace in env.faults {
        return 500;
      }
      var key := Key(placeId, env);
      places := places[key := places[key].(columns := places[key].columns + updatePayload)];
      return 200;
    }

    method Delete(userId: string, payload: Value, env: Env) returns (status: int)
      modifies this
      ensures Step(status, Snapshot()) == DeleteStep(old(Snapshot()), userId, payload, env)
    {
      var placeId := Get(payload, "place_id");
      if !Truthy(placeId) {
        return 400;
      }
      var access := CheckAccess(userId, placeId, env);
      if access != Owned {
        return RefusalStatus(access);
      }
      if DeletePlace in env.faults {
        return 500;
      }
      places := places - {Key(placeId, env)};
      return 200;
    }

    method UploadPhoto(userId: string, payload: Value, env: Env) returns (status: int)
      modifies this
      ensures Step(status, Snapshot()) == UploadPhotoStep(old(Snapshot()), userId, payload, env)
    {
      var placeId := Get(payload, "place_id");
      var data := Get(payload, "file_base64");
      var name := Get(payload, "file_name");
      if !Truthy(placeId) || !Truthy(data) || !Truthy(name) {
        return 400;
      }
      var access := CheckAccess(userId, placeId, env);
      if access != Owned {
        return RefusalStatus(access);
      }
      if CountPhotos in env.faults {
        return 500;
      }
      var key := Key(placeId, env);
      var count := PhotoCount(photos, key);
      if count >= MaxPhotosPerPlace {
        return 400;
      }
      if !env.base64Valid(Key(data, env)) || !name.Str? {
        return 500;
      }
      status := StorePhoto(userId, key, count, name.s, payload, env);
    }

    method StorePhoto(userId: string, key: string, count: nat, name: string, payload: Value, env: Env)
      returns (status: int)
      modifies this
      ensures Step(status, Snapshot()) == StorePhotoStep(old(Snapshot()), userId, key, count, name, payload, env)
    {
      var path := PhotoPath(userId, key, env.now, name);
      if UploadPhotoFile in env.faults || path in storage {
        return 500;
      }
      storage := storage + {path};
      ghost var t1 := Snapshot();
      var thumbData := Get(payload, "thumbnail_base64");
      var thumbPath := ThumbnailPath(userId, key, env.now, name);
      var thumb: Option<string> := None;
      if Truthy(thumbData) {
        if !env.base64Valid(Key(thumbData, env)) {
          return 500;
        }
        if UploadThumbnail !in env.faults && thumbPath !in storage {
          storage := storage + {thumbPath};
          thumb := Some(thumbPath);
        }
      }
      assert thumb.Some? ==> thumb.value == thumbPath;
      assert Snapshot() == if thumb.Some? then t1.(storage := t1.storage + {thumbPath}) else t1;
      if InsertPhoto in env.faults || env.newPhotoId in photos {
        if RemoveUploadedPhoto !in env.faults {
          storage := storage - {path};
        }
        if thumb.Some? && RemoveUploadedThumbnail !in env.faults {
          storage := storage - {thumb.value};
        }
        return 500;
      }
      photos := photos[env.newPhotoId := PhotoRow(key, path, thumb, Or(Get(payload, "description"), Null), count)];
      return 200;
    }

    method DeletePhoto(userId: string, payload: Value, env: Env) returns (status: int)
      modifies this
      ensures Step(status, Snapshot()) == DeletePhotoStep(old(Snapshot()), userId, payload, env)
    {
      var photoId := Get(payload, "photo_id");
      var placeId := Get(payload, "place_id");
      if !Truthy(photoId) || !Truthy(placeId) {
        return 400;
      }
      var access := CheckAccess(userId, placeId, env);
      if access != Owned {
        return RefusalStatus(access);
      }
      var id := Key(photoId, env);
      if LookupPhoto in env.faults || id !in photos || photos[id].placeId != Key(placeId, env) {
        return 404;
      }
      var photo := photos[id];
      var filesToDelete := {photo.storagePath};
      if HasThumbnail(photo) {
        filesToDelete := filesToDelete + {photo.thumbnailPath.value};
      }
      if RemovePhotoFiles !in env.faults {
        storage := storage - filesToDelete;
      }
      if DeletePhotoRow in env.faults {
        return 500;
      }
      photos := photos - {id};
      return 200;
    }

    method UpdatePhoto(userId: string, payload: Value, env: Env) returns (status: int)
      modifies this
      ensures Step(status, Snapshot()) == UpdatePhotoStep(old(Snapshot()), userId, payload, env)
    {
      var photoId := Get(payload, "photo_id");
      var placeId := Get(payload, "place_id");
      if !Truthy(photoId) || !Truthy(placeId) {
        return 400;
      }
      var access := CheckAccess(userId, placeId, env);
      if access != Owned {
        return RefusalStatus(access);
      }
      if UpdatePhotoRow in env.faults {
        return 500;
      }
      var id := Key(photoId, env);
      if id in photos && photos[id].placeId == Key(placeId, env) {
        photos := photos[id := photos[id].(description := Coalesce(Get(payload, "description"), Null))];
      }
      return 200;
    }

    method UploadProfilePhoto(userId: string, payload: Value, env: Env) returns (status: int)
      modifies this
      ensures Step(status, Snapshot()) == UploadProfilePhotoStep(old(Snapshot()), userId, payload, env)
    {
      var data := Get(payload, "file_base64");
      var name := Get(payload, "file_name");
      if !Truthy(data) || !Truthy(name) {
        return 400;
      }
      if TooLarge(data) {
        return 400;
      }
      if ReadProfilePhoto !in env.faults && userId in profiles {
        var current := profiles[userId].photoPath;
        if current.Some? && current.value != "" && RemoveOldProfilePhoto !in env.faults {
          storage := storage - {current.value};
        }
      }
      if !env.base64Valid(Key(data, env)) || !name.Str? {
        return 500;
      }
      var path := ProfilePhotoPath(userId, env.now, name.s);
      if UploadProfilePhotoFile in env.faults || path in storage {
        return 500;
      }
      storage := storage + {path};
      if UpdateProfile in env.faults {
        if RemoveProfileUpload !in env.faults {
          storage := storage - {path};
        }
        return 500;
      }
      if userId in profiles {
        profiles := profiles[userId := profiles[userId].(photoPath := Some(path))];
      }
      return 200;
    }

    /** `serve(async (req) => ...)` for one request. */
    method Handle(httpMethod: string, body: Option<Value>, env: Env) returns (status: int, listed: set<string>)
      modifies this
      ensures Response(status, Snapshot(), listed) == HandleStep(old(Snapshot()), httpMethod, body, env)
    {
      listed := {};
      if httpMethod == "OPTIONS" {
        return 200, {};
      }
      if httpMethod != "POST" {
        return 405, {};
      }
      if body.None? {
        return 400, {};
      }
      var payload := body.value;
      var token := Get(payload, "user_token");
      if !Truthy(token) {
        return 401, {};
      }
      var profile := ProfileFromToken(profiles, Key(token, env), LookupProfile in env.faults);
      if profile.None? {
        return 401, {};
      }
      var userId := profile.value;
      var action := Get(payload, "action");
      if action == Str("list") {
        status, listed := List(userId, env);
      } else if action == Str("update") {
        status := Update(userId, payload, env);
      } else if action == Str("delete") {
        status := Delete(userId, payload, env);
      } else if action == Str("upload_photo") {
        status := UploadPhoto(userId, payload, env);
      } else if action == Str("delete_photo") {
        status := DeletePhoto(userId, payload, env);
      } else if action == Str("update_photo") {
        status := UpdatePhoto(userId, payload, env);
      } else if action == Str("upload_profile_photo") {
        status := UploadProfilePhoto(userId, payload, env);
      } else {
        status := 400;
      }
    }
  }
}
