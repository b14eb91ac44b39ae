# Check-in client: a verified model

This project models the logic of the two browser scripts of the check-in
client: the capture page `check_in/js/app_checkin.js` and the login page
`check_in/js/login.js`. The browser itself is not modelled. Calls whose
outcome lies outside the script enter as parameters: getUserMedia, `play()`,
`getCapabilities`/`applyConstraints`, `fetch`, geolocation, `toDataURL`,
script loading, `getInternalKey`, `createClient` and the Supabase query.
Storage writes that can throw (a full quota) enter as parameters saying
which write throws: the point cache's two `lsSet` calls, the shot's
`sessionStorage.setItem` and the three writes of a login.

Capture page:

- `SheetCsv` parses the reference-point sheet (`parseCsv`). Column choice
  goes by header aliases. A row is kept only when both coordinates pass
  `Number()`. The loop is a method proved equal to a row-by-row
  specification.
- `SheetCache` models the point cache (`ensureSheetPoints`) as a class over
  the in-memory list and localStorage. It has three outcomes: memory, fresh
  storage, or fetch and write back.
- `Proximity` holds the nearest-point scan (`findNearbyInArray`), the
  accuracy gate and the label fallback.
- `Framing` computes the crop rectangle of `drawToCanvas` over exact reals.
- `Camera` models the page's module-level state as a class: the stream, the
  zoom range and value, the torch, the shot flag, session storage and the
  navigations. It has `getBestStream`, `startCam`, `stopCam`, `initZoom`,
  `setZoom`, `tryApplyTorch`, the shot handler, and the 800 ms cooldown as a
  step of its own.

Login page:

- `Login` covers the `goMain` target, the auto redirect, the
  internal_key.js search, the `resolveConfig` fallback chain, the `init`
  prerequisite chain and `doLogin`.
- `doLogin` is split at its `await` into `BeginLogin` (guards, flag raised)
  and `FinishLogin` (outcome, storage writes, flag lowered).

Shared modules:

- `Text` models `trim`, `toLowerCase`, `split`, `/\r?\n/` line splitting,
  `filter(Boolean)`, `indexOf` and `||` on strings.
- `JsNumber` models `Number()` on cells.
- `UriEncoding` models `encodeURIComponent`, with a decoder and the round
  trip.
- `Wrappers` holds `Option`, where None stands for `undefined`/`null` and,
  for numbers, NaN.

## Model

| member | source | states |
|---|---|---|
| Text.TrimStartSpec | check_in/js/app_checkin.js:31 | the leading white space removed is exactly the run of white-space characters at the start of the string |
| Text.TrimEndSpec | check_in/js/app_checkin.js:31 | the trailing white space removed is exactly the run of white-space characters at the end |
| Text.TrimSpec | check_in/js/app_checkin.js:19 | a trimmed string is empty or starts and ends with a non-space; it is empty iff the input is all white space |
| Text.TrimUnspaced | check_in/js/login.js:146-147 | trim leaves a string that starts and ends with a non-space unchanged |
| Text.Split | check_in/js/app_checkin.js:19 | `split(',')` gives at least one part and no part contains the separator |
| Text.JoinSplit | check_in/js/app_checkin.js:31 | joining the parts of a split with the separator gives back the input |
| Text.SplitNoSeparator | check_in/js/app_checkin.js:413 | a string without the separator splits into itself alone |
| Text.SplitAtFirst | check_in/js/app_checkin.js:413 | splitting `a + sep + b` gives `a` followed by the parts of `b` |
| Text.UpTo | check_in/js/app_checkin.js:413 | the text before the first separator holds no separator, is a prefix, and is everything when there is no separator |
| Text.After | check_in/js/app_checkin.js:413 | there is text after a first separator iff the string holds one |
| Text.SplitHead | check_in/js/app_checkin.js:413 | the first part of a split is the text before the first separator |
| Text.SplitSecond | check_in/js/app_checkin.js:413 | a split has a second part iff there is a separator, and that part is the text between the first separator and the next |
| Text.TrimTwice | check_in/js/app_checkin.js:31 | trimming is idempotent and adds no character, so a trimmed cell keeps no comma |
| Text.LowerTwice | check_in/js/app_checkin.js:19 | a lower-cased string is its own lower case |
| Text.SplitLines | check_in/js/app_checkin.js:17 | one line per `\n`-separated part and none holding `\n`; the last line is the text after the last line feed, and every earlier line plus the carriage return it lost (if its part ended in one) is exactly its part |
| Text.NonEmpty | check_in/js/app_checkin.js:17 | `filter(Boolean)` keeps exactly the non-empty elements (membership both ways) and never lengthens the list |
| Text.NonEmptyAppend | check_in/js/app_checkin.js:17 | filtering a concatenation is concatenating the filters, and one element is kept iff non-empty, so the kept lines stay in source order |
| Text.NonEmptyFirst | check_in/js/app_checkin.js:17-18 | the filtered list is empty iff every line is empty; otherwise its first element is the first non-empty line |
| Text.IndexOf | check_in/js/app_checkin.js:20 | `indexOf` is -1 iff the name is absent, else the first position holding it |
| Text.OrElse | check_in/js/app_checkin.js:123-124 | `a \|\| b` on a string is one of its operands, and is empty iff a is undefined or empty and b is empty |
| JsNumber.ParseUnsigned | check_in/js/app_checkin.js:32 | an unsigned decimal literal reads as a non-negative number (its value and the strings it accepts are ParseFraction and ParseUnsignedAccepts) |
| JsNumber.ParseFraction | check_in/js/app_checkin.js:32 | `a.b` reads as a plus b over 10^\|b\|, a value in [a, a + 1); a literal without a point reads as its digits |
| JsNumber.ParseUnsignedAccepts | check_in/js/app_checkin.js:32 | a string is a number iff it is a decimal literal: non-empty, not '.', only digits and at most one point; every other string is NaN |
| JsNumber.ParseNum | check_in/js/app_checkin.js:32 | blank text reads as 0; any other number is a decimal literal after an optional sign |
| JsNumber.ParseNumSign | check_in/js/app_checkin.js:32 | a decimal literal reads as itself, with '+' in front as itself, and with '-' in front as its negation |
| JsNumber.ParseNumTrim | check_in/js/app_checkin.js:31-32 | white space around a cell does not change its number |
| JsNumber.DigitsOfShowNat | check_in/js/app_checkin.js:32 | the digit string of n has value n |
| JsNumber.ParseShowNat | check_in/js/app_checkin.js:32 | `Number()` reads a whole number written in decimal back as that number |
| SheetCsv.Cells | check_in/js/app_checkin.js:31 | a row has one cell per comma-separated part; no cell holds a comma or white space at either end |
| SheetCsv.HeaderNames | check_in/js/app_checkin.js:19 | the header has one name per part; no name holds a comma or white space at either end, and each is its own lower case |
| SheetCsv.Pick | check_in/js/app_checkin.js:20-28 | the column is -1 iff no alias is a header; else it is the first position of the first alias, in the listed order, that is a header |
| SheetCsv.Cell | check_in/js/app_checkin.js:32 | `cols[i]` is defined iff i is a position of the row (so -1 and short rows give undefined, hence NaN) |
| SheetCsv.ColumnsChoice | check_in/js/app_checkin.js:20-28 | each field of `idx` is -1 iff none of its aliases is a header name, else the column of the first of its aliases, in the listed order, that is a header name |
| SheetCsv.ParseRows | check_in/js/app_checkin.js:30-40 | the loop over the data lines yields exactly the row-by-row specification, in row order |
| SheetCsv.ParseCsv | check_in/js/app_checkin.js:16-42 | the header's columns applied to the later lines give exactly the sheet's specification, with at most one point per data line |
| SheetCsv.ParseSheetLength | check_in/js/app_checkin.js:16-42 | a sheet gives at most one point per non-empty line after the header |
| SheetCsv.ParsedRowsSnoc | check_in/js/app_checkin.js:30-40 | one more data row appends its point, if any, at the end |
| SheetCsv.ParsedRowsLength | check_in/js/app_checkin.js:30-40 | no more points than data rows |
| SheetCsv.ParsedRowsAppend | check_in/js/app_checkin.js:30-40 | the points of two runs of rows are the points of the first followed by those of the second (source-row order) |
| SheetCsv.ParsedRowsFromRows | check_in/js/app_checkin.js:30-40 | every point comes from some data row and every row with two numeric coordinates contributes its point |
| SheetCsv.NoCoordinateColumnNoPoints | check_in/js/app_checkin.js:23-24 | without a latitude or longitude column the result is empty |
| SheetCsv.PointFields | check_in/js/app_checkin.js:36-38 | name, ma_kh and ma_hd are '' when their header is absent, and otherwise the row's cell (undefined past a short row's end) |
| SheetCsv.ParseSheetEmpty | check_in/js/app_checkin.js:17-18 | text without a non-empty line, or whose header lacks a coordinate column, parses to no points |
| SheetCache.RecordPoints | check_in/js/app_checkin.js:56-59 | the JSON records never yield more points than records |
| SheetCache.RecordPointsAppend | check_in/js/app_checkin.js:56-59 | `map` then `filter` keeps the records' order: the points of `a + b` are the points of `a` followed by those of `b` |
| SheetCache.Records | check_in/js/app_checkin.js:56-57 | an array's items are all records, in order, or there is a `null` item, whose `r.lat` throws |
| SheetCache.ArrayPointsSpec | check_in/js/app_checkin.js:55-59 | an array rejects iff it holds a `null` item; otherwise it gives the points of its records, never more than its items |
| SheetCache.PointCache.constructor | check_in/js/app_checkin.js:9 | the in-memory list starts empty, with the given storage |
| SheetCache.PointCache.EnsurePoints | check_in/js/app_checkin.js:43-68 | a non-empty in-memory list is returned untouched; else a stored list with a non-zero stamp younger than 300000 ms is taken; else the download becomes the memory list and is written to the list key, then the stamp key (stamp = the clock read again after the download), stopping at a write that throws, which rejects; a failed download changes nothing |
| SheetCache.DownloadDispatch | check_in/js/app_checkin.js:50-62 | a JSON content type gives the points of the array itself or of its `data` array, [] for another object, and rejects for null, an array holding a null item, or a non-JSON body; any other content type parses the text as CSV; a network failure rejects |
| SheetCache.WrittenBackFreshness | check_in/js/app_checkin.js:45-47 | what a fetch writes back is fresh exactly until the TTL has elapsed |
| SheetCache.RecordPointFields | check_in/js/app_checkin.js:56-59 | a record gives a point iff both coordinates are finite, with the `name\|\|ten\|\|''`, `ma_kh\|\|''` and `ma_hd\|\|mahd\|\|''` fallbacks |
| SheetCache.RecordPointsFromRecords | check_in/js/app_checkin.js:55-59 | every point comes from a record and every record with finite coordinates contributes its point |
| Proximity.FindNearby | check_in/js/app_checkin.js:76-83 | null iff no point lies within the radius (inclusive); otherwise a point within the radius with its rounded distance, no point closer, every earlier point strictly farther |
| Proximity.Label | check_in/js/app_checkin.js:91 | the label is the first non-empty of name, ma_kh and ma_hd, in that order, else 'Vị trí'; it is never empty |
| Proximity.NearbyNotice | check_in/js/app_checkin.js:84-96 | the scan runs iff there is a fix with accuracy absent or at most 60; a notice is shown iff some point lies within 20 m, and it names the nearest such point, the first among equally near ones |
| Framing.CentreCrop | check_in/js/app_checkin.js:370-374 | the crop lies inside the frame, is centred, has aspect 900:1600 and spans the frame's width or height |
| Framing.ShrinkAboutCentre | check_in/js/app_checkin.js:375-379 | the shrunk rectangle times z is the original, about the same centre |
| Framing.CaptureCrop | check_in/js/app_checkin.js:368-379 | nothing is drawn iff a frame dimension is 0; the crop is inside the frame, centred and 900:1600; without simulated zoom above 1 it is the centre crop |
| Framing.ZoomedCropScale | check_in/js/app_checkin.js:375-379 | with simulated zoom z > 1 the crop is the centre crop divided by z in each direction, hence strictly smaller |
| Framing.ShrinkScale | check_in/js/app_checkin.js:377-378 | shrinking by z > 1 divides each side by z, so each side gets strictly smaller |
| Framing.ShrunkInside | check_in/js/app_checkin.js:375-379 | shrinking a centred 900:1600 crop by z > 1 keeps it inside, centred and 900:1600 |
| Camera.FirstGrantedUnique | check_in/js/app_checkin.js:236-241 | the outcome of the fallback order is determined by which attempts getUserMedia grants |
| Camera.GetBestStream | check_in/js/app_checkin.js:223-242 | the stream comes from the first granted attempt in the order exact/ideal environment, exact/ideal user, any camera; none iff all fail |
| Camera.Clamp | check_in/js/app_checkin.js:323 | the result lies in [lo, hi] when that is non-empty, is x when x already does, and is lo when the range is empty |
| Camera.ZoomRequest | check_in/js/app_checkin.js:322 | `Number(x) \|\| 1` is never 0: x when a non-zero number, else 1 |
| Camera.NumberOr | check_in/js/app_checkin.js:300-301 | `a \|\| d` on numbers is one of its operands, and is 0 iff neither is a non-zero number |
| Camera.ZoomAfterInit | check_in/js/app_checkin.js:281-319 | the zoom `initZoom` leaves: the value is in the range and the buttons are disabled at its ends; it is native iff the track reports a numeric `zoom.min`, and simulated iff that or its apply is missing |
| Camera.ZoomAfterSet | check_in/js/app_checkin.js:321-341 | the zoom `setZoom` leaves: the range and step never change, a value in the range stays in it, and the value ends within 1e-3 of the clamped request |
| Camera.ZoomAfterSetSpec | check_in/js/app_checkin.js:321-341 | a clamped request under 1e-3 away changes nothing; otherwise it becomes the value, a failed native apply degrades to simulated zoom, other flags are kept, and the buttons follow the ends of the range |
| Camera.StartedZoom | check_in/js/app_checkin.js:262-263 | after `initZoom(); setZoom(1)` the value is 1 clamped into the range (within 1e-3); without a working native zoom it is the simulated range [1, 5] at exactly 1 with only zoom-out disabled |
| Camera.Base64Part | check_in/js/app_checkin.js:413 | the payload data holds no comma |
| Camera.Base64PartIsSplit | check_in/js/app_checkin.js:413 | the payload data is the second part of `split(',')`, or '' when there is none |
| Camera.Base64PartOfDataUrl | check_in/js/app_checkin.js:413 | a data URL `header,data` yields its data |
| Camera.Lookup | check_in/js/app_checkin.js:420-426 | a key reads as absent iff no entry has it, else as the value of an entry with that key |
| Camera.EntriesLookup | check_in/js/app_checkin.js:420-426 | with distinct keys, each conditionally set parameter reads back as its value iff it was set, else as absent |
| Camera.EntriesDistinct | check_in/js/app_checkin.js:420-426 | with distinct keys, no key is set twice |
| Camera.TargetCoordinates | check_in/js/app_checkin.js:409-410 | lat, lng and lag (= lat) read back as the fix's values iff there is a fix, else as absent |
| Camera.TargetCodes | check_in/js/app_checkin.js:423-426 | ma_kh and ma_hd are set iff non-empty, img is always 'session', and no key is set twice |
| Camera.CameraPage.constructor | check_in/js/app_checkin.js:123-124 | ma_kh and ma_hd are the query parameters or ''; no stream, zoom 1 in [1, 1] step 0.1, nothing stored |
| Camera.CameraPage.StopCam | check_in/js/app_checkin.js:217-221 | stream and track are dropped; nothing else changes |
| Camera.CameraPage.UseCssZoom | check_in/js/app_checkin.js:303-307 | the simulated range [1, 5], step 0.2, value 1, with the fallback flag set |
| Camera.CameraPage.InitZoom | check_in/js/app_checkin.js:281-319 | a numeric `zoom.min` on a track gives the native range (max `\|\|` min, step `\|\|` 0.1, value = min) if applying succeeds; a failed apply switches to the simulated range but leaves `zoomSupported` set; no zoom gives the simulated range; the button flags follow; the value ends within the range |
| Camera.CameraPage.SetZoom | check_in/js/app_checkin.js:321-341 | the zoom variables and button flags become ZoomAfterSet of the old ones, with the apply succeeding iff there is a track and it accepts |
| Camera.CameraPage.TryApplyTorch | check_in/js/app_checkin.js:346-359 | true iff there is a track with a torch capability and the apply succeeds, then the torch is as asked; otherwise the torch is unchanged and, with a track, its button disabled |
| Camera.CameraPage.StartCam | check_in/js/app_checkin.js:244-274 | the stream is the first granted attempt; the shot button is enabled iff a stream was granted and played; then the zoom is ZoomAfterSet(ZoomAfterInit(...), 1), within 1e-3 of 1 clamped into the range; the torch is off if it could be switched, and otherwise its button is disabled when there is a track; on failure zoom and torch are untouched |
| Camera.CameraPage.DrawToCanvas | check_in/js/app_checkin.js:366-382 | the frame is drawn through the capture crop; a frame without size leaves the last drawing as it was |
| Camera.CameraPage.PressShot | check_in/js/app_checkin.js:396-432 | busy with nothing changed iff no stream or a shot in progress; else the flag is raised; the crop is drawn unless audio threw; the payload is stored and the check-in URL opened iff no step threw |
| Camera.CameraPage.Cooldown | check_in/js/app_checkin.js:433 | the shot flag is lowered and the button enabled iff a stream is present |
| UriEncoding.HexDigit | check_in/js/login.js:27 | a digit below 16 becomes an upper-case hex digit |
| UriEncoding.PercentByte | check_in/js/login.js:27 | a byte becomes `%XY` whose two hex digits read back as the byte |
| UriEncoding.Utf8 | check_in/js/login.js:27 | a code point takes 1 to 4 bytes, one byte iff below 0x80, all after the first being continuation bytes |
| UriEncoding.Utf8RoundTrip | check_in/js/login.js:27 | the lead byte tells the sequence length and the bytes decode back to the code point |
| UriEncoding.EncodeAlphabet | check_in/js/login.js:27 | the encoding uses only unreserved characters, '%' and upper-case hex digits |
| UriEncoding.EncodeOmitsDelimiters | check_in/js/login.js:27 | no '&', '#', '?', '=', '+', '/' or space survives encoding |
| UriEncoding.EncodeIdentity | check_in/js/login.js:27 | encoding leaves a string unchanged iff all its characters are unreserved |
| UriEncoding.DecodeEncode | check_in/js/login.js:27 | `decodeURIComponent(encodeURIComponent(s)) == s` |
| Login.NextUrl | check_in/js/login.js:20-23 | the `next` parameter when non-empty, else 'main.html' |
| Login.StripDotSlash | check_in/js/login.js:28 | exactly one leading './' is removed, if present |
| Login.GoMainTargetPath | check_in/js/login.js:24-32 | the target is './' plus the stripped next page, extended iff a non-empty token was made (a missing or throwing `makeAccess` adds nothing) |
| Login.GoMainTargetToken | check_in/js/login.js:26-28 | a non-empty token follows `?token=`, decodes back to itself and carries no query or fragment delimiter |
| Login.AutoRedirect | check_in/js/login.js:36-42 | a redirect to the `goMain` target happens iff the stored `nv` is a record with non-empty `ma_nv` and `hoat_dong === true` |
| Login.EnsureInternalKey | check_in/js/login.js:52-59 | 'preloaded' when `getConfig` exists; else the first path whose load defines it; null iff none does |
| Login.Or | check_in/js/login.js:95-96 | `a \|\| b` on optional strings is one of its operands, truthy iff one of them is |
| Login.KeyHeader | check_in/js/login.js:130-133 | the `x-internal-key` header is sent iff `getInternalKey` is a function giving a non-empty key, and then carries that key |
| Login.ResolvedSource | check_in/js/login.js:70-101 | a configuration names a source iff it has both url and anon, and the source is one of the three names |
| Login.ResolvedOrder | check_in/js/login.js:70-101 | API, then getConfig, then COD_BASE: the first source giving both values wins; a throwing getConfig rejects |
| Login.ResolveConfig | check_in/js/login.js:70-101 | the step-by-step assignments give the first-accepting-source configuration |
| Login.LoginPage.constructor | check_in/js/login.js:104 | no client, not logging, button enabled, the given storage |
| Login.LoginPage.AutoRedirectOnLoad | check_in/js/login.js:36-42 | one navigation to the `goMain` target iff a valid session is stored, else none |
| Login.LoginPage.Init | check_in/js/login.js:105-138 | the button is enabled; the client is created (with KeyHeader) iff the key script is found, url and anon resolve, the library is loaded, and neither `getInternalKey` nor `createClient` throws; else the client is unchanged |
| Login.LoginPage.BeginLogin | check_in/js/login.js:142-150 | no query while logging, without a client, or with an empty trimmed code or password; otherwise the flag is raised and the button disabled |
| Login.LoginPage.FinishLogin | check_in/js/login.js:151-178 | the outcome per reply; `nv`, `last_ma_nv`, `nv_ctx` are written in order only for an active row, up to the first failing write; navigation only after all three; the flag is always lowered and the button re-enabled |
| Login.StoredLoginRedirects | check_in/js/login.js:38 | an active row stored under `nv` triggers the auto redirect iff its `ma_nv` is non-empty |

## Left out

- Shutter audio (`ensureAudioCtx`, `noiseBurst`, `playShutter`): only whether it throws is modelled, as a shot fault.
- `getGPSOnce` is a parameter of the shot: a fix or none. `toDataURL` is a parameter too: the data URL it returns, or a fault. The `!video || !canvas` early return of `drawToCanvas` is not modelled; the model takes both elements as present.
- `distanceMeters` (haversine) and `Math.round` are parameters of the scan. Floating point is replaced by exact reals throughout.
- Text.ToLower: only the length and idempotence are stated. The mapping covers ASCII, Latin-1, Latin Extended-A except U+0130, the two horned letters and the Vietnamese precomposed letters (U+1EA0 to U+1EF9), which is the range header aliases can take. U+0130 (which JavaScript lowers to two code units) and other scripts are left unmapped.
- JsNumber.ParseNum: covers an optional sign, decimal digits and one decimal point. Exponents, the `0x`, `0b` and `0o` literals and `Infinity` are not modelled; each reads as NaN here.
- Camera.CameraPage.InitZoom: a `zoom.min` that is NaN is treated as absent, so the model takes the simulated path, whereas `typeof NaN === 'number'` sends the source down the native path with a NaN range.
- Camera.CameraPage.SetZoom: the `toFixed(2)` rounding of the zoom buttons is not modelled. The request arrives already converted by `Number()`.
- DOM updates, toasts, messages, `renderCssZoom`, vibration and the button texts are left out. The disabled flags of the shot, zoom, torch and login buttons are modelled.
- JSON parse and stringify, `new URL` serialisation and `URLSearchParams` encoding are left out. Stored values are decoded datatypes and the check-in URL is a path with a list of query entries. A storage entry under the cache key that is not a list counts as absent.
- `fetchWithTimeout` and the abort timer are left out. A timeout is one of the ways `/api/getConfig` fails.
- `loadScript` DOM injection is left out. Each path's load is an outcome parameter.
- The auto-boot permission probing, the `visibilitychange` restart, `bindEvents` and the menu button are event plumbing and are left out.
- Login.LoginPage.FinishLogin: the query text (table, columns, equality filters) is not modelled. The query is a reply parameter.
- `startCam` calls the proximity check at the end, but the composition is not modelled; `Proximity.NearbyNotice` covers it on its own. `getBestStream` rethrows the last error, which appears here only as the absence of a stream.
- SheetCsv.ParseCsv: the loop is the separate method `ParseRows`.
- UriEncoding.Encode: strings hold Unicode scalar values only, so the `URIError` that `encodeURIComponent` raises on a lone surrogate cannot arise, and neither can the catch path of `goMain` that it would take.
