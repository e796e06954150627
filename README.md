# Five Wonders edge functions, modelled in Dafny

This project models four Supabase edge functions that turn what a user sends into
rows of a `places` table, and that manage those rows afterwards.

- **ingest-sms** takes a Twilio text message. It finds the first Apple Maps link in
  it. A `maps.apple/p/<id>` short link is looked up through the Apple Maps Server
  API, using an access token cached for the life of the process. A long-form link is
  read from its `ll` and `q` parameters. Any enrichment error is swallowed. The rest
  of the message becomes the notes, and hashtags come from the title and the notes.
  Coordinates are stored only as a pair.
- **ingest-shortcut** takes a JSON payload from an iOS Shortcut and a `user_token`.
  The token is the api key of an active profile. The function normalises the
  OpenStreetMap `address` and `extratags` objects into address and contact columns.
- **ingest-shortcut (earlier handler, `index_010626.ts`)** takes an unauthenticated
  JSON body. It checks the content type, emptiness and JSON by hand, peels the
  one-key wrapper that Shortcuts sometimes adds, and builds the title and raw text
  from the place name, address and note.
- **manage-places** is the owner's API over `places`, `place_photos`, `profiles`
  and the `place-photos` storage bucket. Its actions are `list`, `update`, `delete`,
  `upload_photo`, `delete_photo`, `update_photo` and `upload_profile_photo`. Every
  action runs for the caller named by `user_token`. The five actions on one place
  (`update`, `delete`, `upload_photo`, `delete_photo`, `update_photo`) first check
  that the caller owns that place. `upload_profile_photo` acts on the caller's own
  profile and checks no place. A place holds at most five photos.

Modules:

- `Js`: JSON values, truthiness, `??`, `||`, `&&`, `String(v)` and `join`.
- `Text`: `trim`, `indexOf`, `replace`, `split`, ASCII case folding.
- `Wrappers`: `Option` and `Result`.
- `MapLinks`, `Hashtags`, `AppleMaps` and `SmsIngest`: ingest-sms.
- `ShortcutIngest`: ingest-shortcut.
- `LegacyShortcut`: the earlier shortcut handler.
- `ManageRules` and `ManagePlaces`: manage-places.

Everything the code asks of the engine or of the outside world is a parameter. That
covers `JSON.parse`, `parseFloat`, number formatting, `decodeURIComponent`, URL
query parsing, Unicode `toLowerCase` and whether `atob` accepts a text. It also
covers the clock, the HTTP replies from Apple and the failure of any database or
storage call.

The Apple token cache is a class (`AppleMaps.TokenCache`), because the source
updates a module-level variable in place. The manage-places tables are a class
(`ManagePlaces.Backend`) whose methods update its maps. Each method is proved equal
to a function of a snapshot of the tables (`UpdateStep`, `UploadPhotoStep`, …). The
properties of manage-places are then proved about those functions:

- every refusal writes nothing;
- no request takes a place past five photos;
- a request changes only the caller's own rows.

## Model

| member | source | states |
|---|---|---|
| Text.AsciiLowerString | supabase/functions/ingest-sms/index.ts:161 | A `/i` comparison folds exactly the ASCII letters. Every character is folded and the length is kept. |
| Text.SpanEnd | supabase/functions/ingest-sms/index.ts:168 | A greedy character-class run ends at the first stop character or at the end of the text. |
| Text.TrimStart | supabase/functions/ingest-sms/index.ts:297 | `trimStart` drops exactly the leading whitespace. It leaves a suffix that starts with a non-whitespace character. |
| Text.TrimEnd | supabase/functions/ingest-sms/index.ts:297 | `trimEnd` drops exactly the trailing whitespace. It leaves a prefix that ends with a non-whitespace character. |
| Text.Trim | supabase/functions/ingest-sms/index.ts:297 | `trim` never lengthens the text, and what it leaves neither starts nor ends with whitespace. |
| Text.TrimSpec | supabase/functions/ingest-sms/index.ts:297 | `trim` keeps a contiguous middle slice and strips only whitespace around it. No whitespace is left at either end. |
| Text.TrimIdempotent | supabase/functions/ingest-shortcut/index_010626.ts:76-77 | Trimming twice is the same as trimming once. |
| Text.TrimWithoutWhitespace | supabase/functions/ingest-sms/index.ts:224 | A text without whitespace is its own trim, so the `trim` in `makeTag` changes nothing. |
| Text.IndexOf | supabase/functions/ingest-sms/index.ts:297 | Returns the first index where the pattern occurs. When there is none, no index matches. |
| Text.ReplaceEmptyIsIdentity | supabase/functions/ingest-sms/index.ts:297 | `body.replace("", "")` returns the body unchanged. |
| Text.ReplaceFirst | supabase/functions/ingest-sms/index.ts:297 | Without an occurrence the text is unchanged. With one, the length changes by the difference between the replacement and the pattern, and everything before the first occurrence is kept. |
| Text.ReplaceFirstAt | supabase/functions/ingest-sms/index.ts:297 | A string-pattern `replace` cuts out the first occurrence only. |
| Text.CharIndex | supabase/functions/ingest-sms/index.ts:190 | Returns the first index of a character, or proves the character absent. |
| Text.Split | supabase/functions/ingest-sms/index.ts:190 | `split` on one character gives at least one part, and no part holds the separator. |
| Text.SplitJoin | supabase/functions/ingest-sms/index.ts:190 | Joining the parts of a split with the same separator gives the text back. |
| Text.JoinSplit | supabase/functions/manage-places/index.ts:352 | Splitting a join of separator-free parts gives the parts back. |
| Text.JoinWith | supabase/functions/ingest-shortcut/index.ts:25 | `join` of no parts is empty, and of one part is that part. `SplitJoin` and `JoinSplit` tie it to `split`. |
| Text.SplitThree | supabase/functions/manage-places/index.ts:352 | Three separator-free parts joined by the separator split back into those three parts. |
| Js.FirstNonNullish | supabase/functions/ingest-shortcut/index.ts:68-78 | The meaning of a `??` chain: the first candidate that is not null or undefined, or null. |
| Js.Truthy | supabase/functions/ingest-sms/index.ts:226-229 | A truthy value is never null or undefined, and every object or array is truthy. |
| Js.ToJsString | supabase/functions/ingest-sms/index.ts:133-135 | `String(s)` of a string is the string. `String([])` and `String([null])` are empty, and `String([s])` is `s`. |
| Js.CodeUnitsOf | supabase/functions/manage-places/index.ts:591 | A character takes one or two UTF-16 code units. |
| Js.Utf16Length | supabase/functions/manage-places/index.ts:591 | `length` counts UTF-16 code units: at least one and at most two per character. |
| Js.Utf16LengthBasicPlane | supabase/functions/manage-places/index.ts:591 | Without characters beyond U+FFFF, `length` is the number of characters. |
| Js.FirstTruthy | supabase/functions/ingest-shortcut/index.ts:36-49 | The meaning of a `\|\|` chain: the first truthy candidate, or null. |
| Js.FirstWhere | supabase/functions/ingest-sms/index.ts:120-125 | The meaning of a `typeof … ? … :` chain: the first candidate satisfying the test, if any. |
| Js.FilterTruthy | supabase/functions/ingest-shortcut/index.ts:25 | `filter(Boolean)` keeps every truthy element and only those. |
| Js.JoinTruthySkipsFalsy | supabase/functions/ingest-shortcut/index_010626.ts:80-88 | A falsy part leaves no trace in a `filter(Boolean).join(sep)`. |
| Js.JoinTruthyOfStrings | supabase/functions/ingest-shortcut/index_010626.ts:80-88 | Non-empty strings are all kept, so the join is the plain join. |
| Js.JoinTruthyOfFalsy | supabase/functions/ingest-shortcut/index.ts:27-34 | When every part is falsy, the filtered list and its join are empty. |
| MapLinks.FirstMatchFrom | supabase/functions/ingest-sms/index.ts:161-162 | The regex search finds the leftmost match, with no match before it. |
| MapLinks.FirstIndexFrom | supabase/functions/ingest-sms/index.ts:161-162 | The least index at or after the start that satisfies the test, with none before it, or proof that there is none. |
| MapLinks.ExtractAppleMapsUrl | supabase/functions/ingest-sms/index.ts:156-164 | Null exactly when no position matches. Otherwise the result is the leftmost match's greedy run: non-empty and free of whitespace. |
| MapLinks.LinkPrefixesHaveNoWhitespace | supabase/functions/ingest-sms/index.ts:161 | None of the four link prefixes holds whitespace. |
| MapLinks.AsciiLowerKeepsWhitespace | supabase/functions/ingest-sms/index.ts:161 | ASCII case folding never creates or removes whitespace. |
| MapLinks.PrefixMatchReachesPast | supabase/functions/ingest-sms/index.ts:161 | The `[^\s]+` tail takes at least one character past the prefix. |
| MapLinks.MatchReachesPastPrefix | supabase/functions/ingest-sms/index.ts:161 | Every match is non-empty. |
| MapLinks.CopyOfMatchMatches | supabase/functions/ingest-sms/index.ts:161 | A copy of a match's text elsewhere in the body is a match itself. |
| MapLinks.OccurrenceIsMatch | supabase/functions/ingest-sms/index.ts:161-162 | Wherever the extracted link occurs, the regex matches there too. |
| MapLinks.ExtractedUrlFirstOccurrence | supabase/functions/ingest-sms/index.ts:297 | The first occurrence of the extracted link is where the regex found it, so `replace` removes that very run. |
| MapLinks.ShortPrefixesExclusive | supabase/functions/ingest-sms/index.ts:168 | No URL starts with both the `http` and the `https` short-link prefix. |
| MapLinks.ShortPrefix | supabase/functions/ingest-sms/index.ts:168 | The prefix found is one of the two short-link prefixes and matches the start of the URL, ignoring case. None means that neither prefix matches. |
| MapLinks.IdAt | supabase/functions/ingest-sms/index.ts:168-169 | An id exactly when the character at the position is not `/?#` or whitespace. The id is the maximal such run that starts there, and it is followed by the end or a stop character. |
| MapLinks.ExtractApplePlaceIdFromShortLink | supabase/functions/ingest-sms/index.ts:166-170 | An id exactly when the URL starts with a short-link prefix followed by a permitted character. The id is the maximal run free of `/?#` and whitespace. |
| MapLinks.ShortPrefixesFolded | supabase/functions/ingest-sms/index.ts:168 | The short-link prefixes are already lower case. |
| MapLinks.FoldedPrefixMatches | supabase/functions/ingest-sms/index.ts:168 | A lower-case prefix matches itself under `/i`. |
| MapLinks.IdRunEnds | supabase/functions/ingest-sms/index.ts:168 | The id run stops right at the delimiter after the id. |
| MapLinks.ShortLinkYieldsId | supabase/functions/ingest-sms/index.ts:166-170 | `maps.apple/p/<id>` followed by a delimiter yields exactly `<id>`. |
| MapLinks.IdAfterPrefix | supabase/functions/ingest-sms/index.ts:168-169 | After any prefix, an id run followed by the end or a delimiter is taken whole. |
| MapLinks.ComLinkIsNotShortLink | supabase/functions/ingest-sms/index.ts:166-170 | A `maps.apple.com` link is never taken for a short link. |
| MapLinks.ParseAppleMaps | supabase/functions/ingest-sms/index.ts:181-199 | A missing or empty `ll` gives no coordinates, and any coordinate given is finite. The title is null exactly when `q` is missing or empty; otherwise it is the decoded `q`, or the raw `q` when decoding fails. |
| MapLinks.SafeDecode | supabase/functions/ingest-sms/index.ts:201-206 | A text that `decodeURIComponent` rejects is kept as it is. Otherwise the result is the decoded text. |
| MapLinks.CoordinatesDecidedIndependently | supabase/functions/ingest-sms/index.ts:189-195 | For `ll = a,b`, each coordinate depends on its own half only. |
| MapLinks.NoCommaNoLongitude | supabase/functions/ingest-sms/index.ts:190-194 | An `ll` without a comma gives a null longitude. |
| Hashtags.KeepAlnum | supabase/functions/ingest-sms/index.ts:223 | Only `[a-z0-9]` characters remain, and the text never grows. |
| Hashtags.MakeTag | supabase/functions/ingest-sms/index.ts:219-224 | A tag is "#" followed only by `[a-z0-9]`. |
| Hashtags.AlnumTag | supabase/functions/ingest-sms/index.ts:219-224 | The final `trim` of `makeTag` has nothing to strip. |
| Hashtags.NextTagMatch | supabase/functions/ingest-sms/index.ts:233-235 | `re.exec` from `lastIndex` finds the leftmost `#\w+` at or after it, with a maximal word run, or reports that none is left. |
| Hashtags.NoteTagShape | supabase/functions/ingest-sms/index.ts:236 | A note tag is "#" followed by at least one lower-case word character. |
| Hashtags.NoteTagsFrom | supabase/functions/ingest-sms/index.ts:233-237 | Each tag of the scan consumes at least two characters, so the notes give at most half their length in tags. |
| Hashtags.InsertAllAppend | supabase/functions/ingest-sms/index.ts:217 | Adding two runs of elements to a `Set` is adding them one run after the other. |
| Hashtags.InsertAllMembers | supabase/functions/ingest-sms/index.ts:217 | The set holds exactly what it held plus what was added. |
| Hashtags.InsertAllDistinct | supabase/functions/ingest-sms/index.ts:217 | A `Set` never holds an element twice. |
| Hashtags.InsertAllIsKeepFirst | supabase/functions/ingest-sms/index.ts:217-240 | Filling an empty `Set` keeps each element at its first insertion. |
| Hashtags.FilterLong | supabase/functions/ingest-sms/index.ts:240 | The filter keeps exactly the tags longer than one character. |
| Hashtags.FilterLongDistinct | supabase/functions/ingest-sms/index.ts:240 | Filtering keeps the tags distinct. |
| Hashtags.AddFieldIsInsertAll | supabase/functions/ingest-sms/index.ts:226-229 | One conditional `tags.add(makeTag(x))` inserts the field's tag, when the field is given. |
| Hashtags.FieldSetIsInsertAll | supabase/functions/ingest-sms/index.ts:226-229 | The four field adds fill the set with the field tags in order. |
| Hashtags.OptTagShape | supabase/functions/ingest-sms/index.ts:226 | A field tag starts with "#". |
| Hashtags.FieldTagsShape | supabase/functions/ingest-sms/index.ts:226-229 | Every field tag starts with "#". |
| Hashtags.HashtagsSpec | supabase/functions/ingest-sms/index.ts:210-241 | Every result starts with "#" and is longer than "#", and none repeats. The results are exactly the long candidates, in first-insertion order. |
| Hashtags.HashtagsOf | supabase/functions/ingest-sms/index.ts:210-241 | The result holds exactly the candidates longer than one character, and none twice. |
| Hashtags.HashtagsFromFieldSet | supabase/functions/ingest-sms/index.ts:226-238 | Scanning the notes after the field adds yields the set of all candidates. |
| Hashtags.ScanStep | supabase/functions/ingest-sms/index.ts:235-237 | One round of the `exec` loop adds the match's tag and resumes after the match. |
| Hashtags.ScanNotes | supabase/functions/ingest-sms/index.ts:233-237 | The loop adds the tags of the notes to the set built so far, in scan order: the notes' part of `HashtagsOf`. |
| Hashtags.GenerateHashtags | supabase/functions/ingest-sms/index.ts:210-241 | The loop as written returns `HashtagsOf`, whose meaning is `HashtagsSpec`. |
| Hashtags.ScanSkips | supabase/functions/ingest-sms/index.ts:235 | Positions where no tag starts are skipped. |
| Hashtags.ExampleFirstMatch | supabase/functions/ingest-sms/index.ts:233-235 | A sanity example: in "Hi #bbq #KC" the first match spans "#bbq". |
| Hashtags.ExampleSecondMatch | supabase/functions/ingest-sms/index.ts:233-235 | A sanity example: the second match spans "#KC". |
| Hashtags.ExampleScan | supabase/functions/ingest-sms/index.ts:233-237 | A sanity example: the scan of that note gives "#bbq" then "#kc". |
| Hashtags.NotesExample | supabase/functions/ingest-sms/index.ts:210-241 | A sanity example: those notes alone give the tags "#bbq" and "#kc". |
| AppleMaps.FreshEarlier | supabase/functions/ingest-sms/index.ts:34 | A token fresh now was fresh at every earlier instant. |
| AppleMaps.Fresh | supabase/functions/ingest-sms/index.ts:34 | A cached token with a NaN or minus-infinite expiry is never fresh, and one with an infinite expiry always is. |
| AppleMaps.TokenOf | supabase/functions/ingest-sms/index.ts:61-69 | The token is taken from the first present key of `accessToken`, `access_token`, `token`, `value`, and only when it is a non-empty string. |
| AppleMaps.ExpiresInSeconds | supabase/functions/ingest-sms/index.ts:72-77 | The lifetime is `expiresIn` when it is a number, else `expires_in`, else 1500 seconds. |
| AppleMaps.ExpiryInstant | supabase/functions/ingest-sms/index.ts:81 | The expiry is `now + 1000 × lifetime`. An infinite or NaN lifetime stays so. |
| AppleMaps.Exchange | supabase/functions/ingest-sms/index.ts:49-82 | A non-OK reply fails with its status, and a non-JSON reply fails. Otherwise the result is the token and its expiry, or a failure when there is no token. |
| AppleMaps.DefaultLifetimeWindow | supabase/functions/ingest-sms/index.ts:34-82 | A token without a stated lifetime is served from the cache exactly until 30 seconds before its 25 minutes are up. |
| AppleMaps.TokenOutcome | supabase/functions/ingest-sms/index.ts:31-86 | A fresh cached token is returned as it is. The missing-auth-token error happens exactly when the cache is not fresh and the auth token is empty. A token obtained by an exchange is never empty. |
| AppleMaps.CacheAfter | supabase/functions/ingest-sms/index.ts:34-82 | The cache changes only to the token of a successful exchange, and a filled cache is never emptied. |
| AppleMaps.TokenIsCached | supabase/functions/ingest-sms/index.ts:79-85 | Every token handed out is the one the cache holds afterwards. |
| AppleMaps.LaterCallServedFromCache | supabase/functions/ingest-sms/index.ts:31-36 | A later call, while the token is still fresh, gets the same token and leaves the cache alone, whatever the endpoint would answer. |
| AppleMaps.TokenCache.GetAccessToken | supabase/functions/ingest-sms/index.ts:31-86 | A fresh cached token is returned without an exchange. A missing auth token throws. Otherwise the exchange's outcome is returned. The result is `TokenOutcome`, and the cache afterwards is `CacheAfter`. |
| AppleMaps.TokenCache.LookupApplePlace | supabase/functions/ingest-sms/index.ts:95-153 | The result is the lookup outcome from the cache as it was, and its coordinates are finite. The cache afterwards is `CacheAfter` of the token reply. |
| AppleMaps.LookupOutcome | supabase/functions/ingest-sms/index.ts:95-118 | A failure to get a token is the lookup's failure. Otherwise the outcome is that of the place request. |
| AppleMaps.PlaceOutcome | supabase/functions/ingest-sms/index.ts:108-118 | A non-OK reply or a non-JSON reply fails. Otherwise the fields are selected from the parsed reply. |
| AppleMaps.FirstString | supabase/functions/ingest-sms/index.ts:120-145 | Returns the first candidate that is a string, or null. |
| AppleMaps.CoordinateOf | supabase/functions/ingest-sms/index.ts:132-150 | A number is kept if finite. A truthy non-number goes through `parseFloat(String(raw))`. Anything else is null. Never non-finite. |
| AppleMaps.Latitude | supabase/functions/ingest-sms/index.ts:129 | `latitude` is used unless it is nullish, and then `lat`. |
| AppleMaps.Longitude | supabase/functions/ingest-sms/index.ts:130 | `longitude` is used unless it is nullish, and then `lon`. |
| AppleMaps.SelectPlaceFields | supabase/functions/ingest-sms/index.ts:120-152 | Name, coordinate and address each come from the first source that has them. The coordinates are finite or null. |
| SmsIngest.NotesAroundLink | supabase/functions/ingest-sms/index.ts:297 | Without a link, the notes are the trimmed body. Otherwise they are the trimmed text around the link, cut where the regex found it. |
| SmsIngest.NotesCutAt | supabase/functions/ingest-sms/index.ts:297 | Removing the link found at `i` leaves the text before and after it. |
| SmsIngest.Notes | supabase/functions/ingest-sms/index.ts:297 | The notes are never longer than the message, and neither start nor end with whitespace. |
| SmsIngest.LocationFieldsOrder | supabase/functions/ingest-sms/index.ts:325 | The `POINT` text reads back as longitude, then latitude. |
| SmsIngest.LocationText | supabase/functions/ingest-sms/index.ts:325 | The location is `SRID=4326;POINT(`, then the coordinates, then `)`. |
| SmsIngest.SmsRecordOf | supabase/functions/ingest-sms/index.ts:304-326 | The record keeps the sender, the whole message and the extracted link. It has a position exactly when both coordinates were found. |
| SmsIngest.RecordShape | supabase/functions/ingest-sms/index.ts:304-326 | The coordinate columns appear exactly when both coordinates were found. The message is kept whole, and the tags are distinct and well-formed. |
| SmsIngest.EnrichmentOf | supabase/functions/ingest-sms/index.ts:259-294 | No link means no enrichment, and so does a failed short-link lookup. A long-form link never yields an address. |
| SmsIngest.EnrichmentBounds | supabase/functions/ingest-sms/index.ts:259-294 | No non-finite coordinate survives. A failed lookup leaves all four values null, and a long-form link never yields an address. |
| SmsIngest.HandleSms | supabase/functions/ingest-sms/index.ts:244-335 | A method other than POST gets 405. A form that cannot be read gets 500 and inserts nothing. Otherwise the inserted record is the one built from the enrichment outcome, and the status is 500 exactly when the insert fails. The token cache becomes `CacheAfter` for a short link and is untouched otherwise. |
| ShortcutIngest.TextOrNull | supabase/functions/ingest-shortcut/index.ts:24-34 | `text \|\| null` is null exactly for the empty text. |
| ShortcutIngest.Fields | supabase/functions/ingest-shortcut/index.ts:25-34 | Reads the listed keys of the address in order. |
| ShortcutIngest.ExtractAddressParts | supabase/functions/ingest-shortcut/index.ts:23-64 | The street lines are never "". City and state are the first truthy value of their fallback chains, or null only when all are falsy. The three codes are copied when truthy. |
| ShortcutIngest.StreetLine1Cases | supabase/functions/ingest-shortcut/index.ts:24-25 | The house number and road are joined by a space, or either one alone, or null. |
| ShortcutIngest.StreetLine2OfStrings | supabase/functions/ingest-shortcut/index.ts:27-34 | Three non-empty parts are joined by ", ". |
| ShortcutIngest.StreetLine2OfFalsy | supabase/functions/ingest-shortcut/index.ts:27-34 | Three falsy parts give null. |
| ShortcutIngest.StreetLine2SkipsFalsy | supabase/functions/ingest-shortcut/index.ts:33 | A falsy part is left out of the second street line. |
| ShortcutIngest.ExtractContactInfo | supabase/functions/ingest-shortcut/index.ts:67-81 | Phone, website and opening hours follow their `??` chains: a falsy but present value is kept. |
| ShortcutIngest.EmptyPhoneKept | supabase/functions/ingest-shortcut/index.ts:68-71 | An empty `phone` wins over `contact:phone`, where `\|\|` would not. |
| ShortcutIngest.RecordShape | supabase/functions/ingest-shortcut/index.ts:147-187 | The category is never falsy: it is "Other" when none was given. Coordinates are stored exactly when neither parses to NaN, with the longitude first in the location. |
| ShortcutIngest.ShortcutRecordOf | supabase/functions/ingest-shortcut/index.ts:147-187 | The record belongs to the caller and always has a truthy category. A stored position never holds NaN. |
| ShortcutIngest.MissingCoordinateNoPosition | supabase/functions/ingest-shortcut/index.ts:147-187 | A missing coordinate parses to NaN, so no position is stored. |
| ShortcutIngest.HandleShortcut | supabase/functions/ingest-shortcut/index.ts:84-203 | OPTIONS gets 200 and other non-POST methods 405. An unreadable body gets 400, and a missing or unaccepted token 401. Otherwise the record for the caller is inserted, and the status is 500 exactly when the insert fails. |
| LegacyShortcut.OnlyMember | supabase/functions/ingest-shortcut/index_010626.ts:48-49 | The value under the only key of a one-key object, or the only item of a one-item array. |
| LegacyShortcut.Unwrap | supabase/functions/ingest-shortcut/index_010626.ts:39-54 | A payload with `place_name`, a non-object or a payload without exactly one key is kept. Otherwise it is replaced by its only member exactly when that member is an object. Nullishness is kept. |
| LegacyShortcut.WrapperPeeled | supabase/functions/ingest-shortcut/index_010626.ts:39-54 | `{ k: {...} }` is peeled once, whatever the key. |
| LegacyShortcut.TopLevelPayloadKept | supabase/functions/ingest-shortcut/index_010626.ts:45 | A one-key payload holding `place_name` is used as it is. |
| LegacyShortcut.StringMemberNotUnwrapped | supabase/functions/ingest-shortcut/index_010626.ts:50 | A one-key object whose member is a string is not unwrapped. |
| LegacyShortcut.TitleOf | supabase/functions/ingest-shortcut/index_010626.ts:75-78 | The title is the trimmed name if non-empty, else the trimmed address if non-empty, else null. |
| LegacyShortcut.RecordShape | supabase/functions/ingest-shortcut/index_010626.ts:86-99 | Phone, map link and tags are empty, and the note is kept by `??`. Coordinates are stored exactly when both are numbers. |
| LegacyShortcut.LegacyRecordOf | supabase/functions/ingest-shortcut/index_010626.ts:86-99 | Phone, map link and tags are empty. A position is stored exactly when both coordinates are numbers. |
| LegacyShortcut.MissingFields | supabase/functions/ingest-shortcut/index_010626.ts:70-73 | The payload is refused exactly when none of name, address and note is truthy, so the raw text would be empty. |
| LegacyShortcut.RawTextOfStrings | supabase/functions/ingest-shortcut/index_010626.ts:80-88 | Name, address and note are joined by blank lines. |
| LegacyShortcut.RawTextSkipsFalsy | supabase/functions/ingest-shortcut/index_010626.ts:80-88 | A falsy field leaves no trace in the raw text. |
| LegacyShortcut.HandleLegacyShortcut | supabase/functions/ingest-shortcut/index_010626.ts:9-112 | The checks run in order: 405, then the content type, the empty body and bad JSON (each 400). A nullish payload gets 500 and missing fields 400. Otherwise the record is inserted, and the status is 500 exactly when the insert fails. |
| ManageRules.ProfileFromToken | supabase/functions/manage-places/index.ts:21-39 | A profile exactly when the lookup works, exactly one profile holds the key, and that profile's `is_active` is not false. |
| ManageRules.NullActiveAccepted | supabase/functions/manage-places/index.ts:34 | A sole key holder with a null `is_active` is accepted. |
| ManageRules.LinksVerdictOf | supabase/functions/manage-places/index.ts:178-199 | `links` is accepted exactly when it is an array of at most 3 items, each with a non-empty string url. A null item before any bad one crashes. |
| ManageRules.FirstBadLink | supabase/functions/manage-places/index.ts:190-198 | The loop's verdict from an index on, in both directions. |
| ManageRules.CheckLinks | supabase/functions/manage-places/index.ts:178-199 | The loop as written gives `LinksVerdictOf`. |
| ManageRules.UpdatePayloadOf | supabase/functions/manage-places/index.ts:201-218 | Each of the 11 columns is set to the value given, or null, and never undefined. `links` is set exactly when given, and nothing else is written. |
| ManageRules.SanitizeFileName | supabase/functions/manage-places/index.ts:351 | One character per UTF-16 code unit of the name, each in `[a-zA-Z0-9._-]`. |
| ManageRules.SanitizeChar | supabase/functions/manage-places/index.ts:351 | A kept character stays. Any other becomes one `_` per UTF-16 code unit, so two for a character beyond U+FFFF. |
| ManageRules.SanitizeBasicPlane | supabase/functions/manage-places/index.ts:351 | Without characters beyond U+FFFF the length is kept, allowed characters stay in place, and every other character becomes `_`. |
| ManageRules.SanitizeKeepsFileNames | supabase/functions/manage-places/index.ts:351 | A name made only of allowed characters is unchanged. |
| ManageRules.SanitizeEmojiExample | supabase/functions/manage-places/index.ts:351 | A sanity example: an emoji followed by `.jpg` becomes `__.jpg`. |
| ManageRules.SanitizeIdempotent | supabase/functions/manage-places/index.ts:351 | Sanitising twice is sanitising once. |
| ManageRules.NatText | supabase/functions/manage-places/index.ts:350-352 | The timestamp text is non-empty and all digits. |
| ManageRules.PhotoPath | supabase/functions/manage-places/index.ts:352 | A photo is stored in the folder of the caller and the place, and its path ends with the sanitised name. |
| ManageRules.ThumbnailPath | supabase/functions/manage-places/index.ts:373 | A thumbnail is stored in the same folder, and its path ends with the sanitised name. |
| ManageRules.ProfilePhotoPath | supabase/functions/manage-places/index.ts:620 | A profile photo is stored under `profiles/` in the caller's folder, and its path ends with the sanitised name. |
| ManageRules.FileSegmentHasNoSlash | supabase/functions/manage-places/index.ts:352 | The file part of a storage path holds no "/". |
| ManageRules.PhotoPathSegments | supabase/functions/manage-places/index.ts:352 | A photo path splits back into user id, place id and file part. |
| ManageRules.ProfilePhotoPathSegments | supabase/functions/manage-places/index.ts:620 | A profile photo path splits back into "profiles", user id and file part. |
| ManageRules.ThumbnailPathDiffers | supabase/functions/manage-places/index.ts:349-373 | A thumbnail never overwrites its own photo. |
| ManageRules.EstimatedBytes | supabase/functions/manage-places/index.ts:591 | The result is the ceiling of `3 × length / 4`. |
| ManageRules.SizeBoundThreshold | supabase/functions/manage-places/index.ts:590-601 | The 5 MiB bound refuses exactly the base64 texts of length 6990507 or more. |
| ManagePlaces.AccessTo | supabase/functions/manage-places/index.ts:155-175 | Owned exactly when the lookup works, the row exists and its owner is the caller. A failed lookup or a missing row is 404, and another owner 403. |
| ManagePlaces.OwnershipRefusals | supabase/functions/manage-places/index.ts:155-175 | Each of the five place actions, once its fields are given, answers 404 for a place it cannot read and 403 for another user's place, and writes nothing. The checks are at lines 155-175, 252-272, 306-325, 453-471 and 535-553. |
| ManagePlaces.Caller | supabase/functions/manage-places/index.ts:65-83 | A caller exists only with a truthy `user_token` that an active profile holds as its api key. A failed profile lookup names no caller. |
| ManagePlaces.Length | supabase/functions/manage-places/index.ts:591 | Strings and arrays have a length. A string's is its UTF-16 code units, between one and two per character. |
| ManagePlaces.TooLarge | supabase/functions/manage-places/index.ts:590-601 | A file is too large exactly when its length is 6990507 or more. |
| ManagePlaces.ListStep | supabase/functions/manage-places/index.ts:86-127 | A failed query gets 500 and nothing. Otherwise the result is 200 and exactly the caller's places. |
| ManagePlaces.UpdateStep | supabase/functions/manage-places/index.ts:130-238 | A 200 means the caller owns the place. Any other answer leaves every table as it was. The status is 200, 400, 403, 404 or 500. |
| ManagePlaces.DeleteStep | supabase/functions/manage-places/index.ts:241-292 | A 200 means the caller owns the place. Any other answer leaves every table as it was. The status is 200, 400, 403, 404 or 500. |
| ManagePlaces.UploadPhotoStep | supabase/functions/manage-places/index.ts:295-352 | A 200 means the caller owns the place. Any other answer leaves every table as it was, though the bucket may have changed. The status is 200, 400, 403, 404 or 500. |
| ManagePlaces.StorePhotoStep | supabase/functions/manage-places/index.ts:354-439 | Places and profiles are never touched. Without a 200 the photo rows are as they were. The status is 200 or 500. |
| ManagePlaces.DeletePhotoStep | supabase/functions/manage-places/index.ts:442-521 | A 200 means the caller owns the place. Any other answer leaves every table as it was, though the files may be gone. The status is 200, 400, 403, 404 or 500. |
| ManagePlaces.UpdatePhotoStep | supabase/functions/manage-places/index.ts:524-574 | A 200 means the caller owns the place. Any other answer leaves every table as it was. The status is 200, 400, 403, 404 or 500. |
| ManagePlaces.UploadProfilePhotoStep | supabase/functions/manage-places/index.ts:577-675 | Places and photo rows are never touched. Without a 200 the profiles are as they were. The status is 200, 400 or 500. |
| ManagePlaces.StorageAfterOldPhotoRemoval | supabase/functions/manage-places/index.ts:603-614 | The bucket only shrinks, and only by the caller's current profile photo. |
| ManagePlaces.ActionStep | supabase/functions/manage-places/index.ts:130-681 | An unknown action gets 400 and changes nothing. Any answer but 200 leaves every table as it was. |
| ManagePlaces.HandleStep | supabase/functions/manage-places/index.ts:41-682 | A request changes something only when it is a POST from an accepted caller. Any answer but 200 leaves every table as it was. Only `list` returns places, and it writes nothing. |
| ManagePlaces.TopLevelRefusals | supabase/functions/manage-places/index.ts:43-681 | OPTIONS gets 200 and other non-POST methods 405. Bad JSON gets 400, a missing or unaccepted token 401, and an unknown action 400. None of them writes. |
| ManagePlaces.RefusalsWriteNothing | supabase/functions/manage-places/index.ts:43-681 | Every 4xx answer leaves all tables and the bucket unchanged. |
| ManagePlaces.ActionRefusalsWriteNothing | supabase/functions/manage-places/index.ts:130-675 | Every 4xx answer of an action leaves everything unchanged. |
| ManagePlaces.UpdateRefusalsWriteNothing | supabase/functions/manage-places/index.ts:130-239 | A 4xx answer of `update` leaves everything unchanged. |
| ManagePlaces.DeleteRefusalsWriteNothing | supabase/functions/manage-places/index.ts:241-293 | A 4xx answer of `delete` leaves everything unchanged. |
| ManagePlaces.DeletePhotoRefusalsWriteNothing | supabase/functions/manage-places/index.ts:442-522 | A 4xx answer of `delete_photo` leaves everything unchanged. |
| ManagePlaces.UpdatePhotoRefusalsWriteNothing | supabase/functions/manage-places/index.ts:524-575 | A 4xx answer of `update_photo` leaves everything unchanged. |
| ManagePlaces.UploadProfilePhotoRefusalsWriteNothing | supabase/functions/manage-places/index.ts:577-675 | A 4xx answer of `upload_profile_photo` leaves everything unchanged. |
| ManagePlaces.OversizedProfilePhotoRefused | supabase/functions/manage-places/index.ts:590-601 | A profile photo of 6990507 UTF-16 code units or more gets 400 before the old photo is removed. |
| ManagePlaces.PhotosOfInsert | supabase/functions/manage-places/index.ts:389-403 | A new photo row joins only its own place's photos. |
| ManagePlaces.PhotosOfRemove | supabase/functions/manage-places/index.ts:504-508 | Removing a photo row never raises a count. |
| ManagePlaces.PhotosOfRewrite | supabase/functions/manage-places/index.ts:556-562 | Rewriting a row within its place changes no place's photos. |
| ManagePlaces.UploadAddsOnePhoto | supabase/functions/manage-places/index.ts:327-413 | A successful upload adds exactly one row, under the new id and to the named place. Its `display_order` is the previous count, which was below 5, and the count grows by one. |
| ManagePlaces.StoreAddsRow | supabase/functions/manage-places/index.ts:389-413 | After the uploads, a 200 answer means one new row under a fresh id, for the given place and at the given order. The place and profile rows are unchanged. |
| ManagePlaces.FailedInsertCleansUp | supabase/functions/manage-places/index.ts:389-413 | A failed row insert gets 500. When the clean-up removals work, it leaves the bucket and the rows as they were. |
| ManagePlaces.DeletePhotoOutcome | supabase/functions/manage-places/index.ts:442-521 | A 200 removes the photo row of the named place and, unless the removal failed, its files. A failed row delete leaves the row but its files gone. |
| ManagePlaces.UploadPhotoOnlyAddsOnSuccess | supabase/functions/manage-places/index.ts:295-439 | Only a 200 from `upload_photo` adds photo rows. |
| ManagePlaces.QuotaKept | supabase/functions/manage-places/index.ts:327-346 | No request takes a place past five photos. |
| ManagePlaces.ActionKeepsQuota | supabase/functions/manage-places/index.ts:327-346 | No action takes a place past five photos. |
| ManagePlaces.OtherActionsKeepPhotos | supabase/functions/manage-places/index.ts:130-293 | `update`, `delete` and `upload_profile_photo` leave the photo rows as they are; deleting a place does not cascade to its photos. |
| ManagePlaces.DeletePhotoKeepsQuota | supabase/functions/manage-places/index.ts:504-508 | `delete_photo` keeps the five-photo bound. |
| ManagePlaces.UpdatePhotoKeepsQuota | supabase/functions/manage-places/index.ts:556-562 | `update_photo` keeps the five-photo bound. |
| ManagePlaces.UploadKeepsQuota | supabase/functions/manage-places/index.ts:341-346 | `upload_photo` keeps the five-photo bound. |
| ManagePlaces.OnlyCallersRowsChange | supabase/functions/manage-places/index.ts:65-681 | Without an accepted caller nothing changes. Otherwise only the caller's places, their photos and the caller's profile change, and no place or profile is created. |
| ManagePlaces.ActionTouchesOnlyCallersRows | supabase/functions/manage-places/index.ts:130-675 | Every action changes only the caller's rows. |
| ManagePlaces.UpdateTouchesOnlyCallersRows | supabase/functions/manage-places/index.ts:220-232 | `update` changes only the caller's own place. |
| ManagePlaces.DeleteTouchesOnlyCallersRows | supabase/functions/manage-places/index.ts:274-286 | `delete` removes only the caller's own place. |
| ManagePlaces.UploadPhotoTouchesOnlyCallersRows | supabase/functions/manage-places/index.ts:389-403 | A new photo row belongs to the caller's place. |
| ManagePlaces.DeletePhotoTouchesOnlyCallersRows | supabase/functions/manage-places/index.ts:504-508 | The deleted photo belonged to the caller's place. |
| ManagePlaces.UpdatePhotoTouchesOnlyCallersRows | supabase/functions/manage-places/index.ts:556-562 | The rewritten photo belongs to the caller's place. |
| ManagePlaces.UploadProfilePhotoTouchesOnlyCallersRows | supabase/functions/manage-places/index.ts:640-657 | Only the caller's profile is rewritten. |
| ManagePlaces.CallersPhotoChanged | supabase/functions/manage-places/index.ts:504-562 | Removing or rewriting one photo row of a place the caller owns changes only the caller's rows. |
| ManagePlaces.Backend.CheckAccess | supabase/functions/manage-places/index.ts:155-175 | The owner check as written gives `AccessTo`. |
| ManagePlaces.Backend.List | supabase/functions/manage-places/index.ts:86-127 | A failed query gets 500 and nothing. Otherwise the result is 200 and exactly the caller's places. |
| ManagePlaces.Backend.Update | supabase/functions/manage-places/index.ts:130-238 | Updates the tables as `UpdateStep` says. |
| ManagePlaces.Backend.Delete | supabase/functions/manage-places/index.ts:241-292 | Updates the tables as `DeleteStep` says. |
| ManagePlaces.Backend.UploadPhoto | supabase/functions/manage-places/index.ts:295-352 | Updates the tables as `UploadPhotoStep` says. |
| ManagePlaces.Backend.StorePhoto | supabase/functions/manage-places/index.ts:354-439 | Updates the tables as `StorePhotoStep` says. |
| ManagePlaces.Backend.DeletePhoto | supabase/functions/manage-places/index.ts:442-521 | Updates the tables as `DeletePhotoStep` says. |
| ManagePlaces.Backend.UpdatePhoto | supabase/functions/manage-places/index.ts:524-574 | Updates the tables as `UpdatePhotoStep` says. |
| ManagePlaces.Backend.UploadProfilePhoto | supabase/functions/manage-places/index.ts:577-675 | Updates the tables as `UploadProfilePhotoStep` says. |
| ManagePlaces.Backend.Handle | supabase/functions/manage-places/index.ts:41-682 | A whole request updates the tables as `HandleStep` says. |

## Left out

- CORS headers, logging, and the reply bodies are not modelled. That covers the TwiML text, the JSON responses with the place id, and the public URLs of uploads. Only the status codes and the data written are modelled.
- Reading secrets and environment variables is left out. A missing Apple auth token is the empty `authToken`.
- The HTTP exchanges with Apple, Supabase and storage are left out. Each call's reply or failure is a parameter.
- Concurrency is left out. Two requests refreshing the token cache at once, and two uploads racing between the photo count and the insert, are not modelled. Each request runs alone.
- IEEE-754 arithmetic is not modelled. A number is finite (a real), NaN or infinite. Its text (`String(n)`) and the engine's `parseFloat`, `decodeURIComponent`, URL query parsing, `atob` and Unicode `toLowerCase` are parameters.
- `ManagePlaces.Backend.List`: returns the ids of the caller's places as a set. The joined profile columns of `places_with_profiles` and the `created_at` ordering are not modelled.
- `ManagePlaces.Length`: `file_base64.length` is modelled for strings (UTF-16 code units) and arrays only. An object with its own `length` property is treated as having none.
- Strings are sequences of Unicode scalar values. A JavaScript string holding an unpaired surrogate cannot be written down, and a pair is one character whose `length` counts two.
- The `file_type` content type given to storage is not modelled. Neither is the `upsert: false` refusal beyond "the upload call fails".
- JSON object key order is not modelled: objects are maps. This matters only when the one-key wrapper is unwrapped, where order plays no part.
- Deleting a place does not model the database's foreign-key cascade, if any, on `place_photos`. The model deletes the `places` row only, as the function's code does.
- `ingest-sms/index_bak_122825.ts`, `ingest-sms/index_bak_122725.ts` and `manage-places-updates.ts` are earlier or alternative versions. They are not part of this model.

Where the written behaviour is less tidy than a description of it might suggest, the model follows the code:

- `parseAppleMaps` nulls each coordinate on its own. A half-valid `ll` still yields one coordinate, and the record then stores no position.
- In `upload_photo`, a thumbnail that `atob` rejects throws after the main file was uploaded. The answer is 500, and the main file stays in the bucket.
- In `delete_photo`, when the row delete fails after the files were removed, the row is left pointing at files that no longer exist.
- In the earlier shortcut handler, a `null` JSON body makes the destructuring throw, which the server answers with 500.
