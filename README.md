# Obstacle creation form — a Dafny model

This project models the obstacle-creation screen of a small React Native app
(`ReactNative/my-app/app/create.tsx`). On that screen a user reports an
"obstacle", meaning an incident blocking a route. The screen holds a title,
free-text instructions, a latitude and a longitude, an optional photo and a
department/department-code pair. It appends the finished record to the list
that local storage keeps under the `"obstacles"` key.

The model is built from five modules:

- `Wrappers`: `Option`, standing for JavaScript's `null`/`undefined` or a value.
- `JsString`: the part of `String.prototype.trim` that the form uses to
  decide that a field is blank. Whitespace is ECMAScript's WhiteSpace and
  LineTerminator code points.
- `CoordinateInput`: the keystroke sanitizer `text.replace(/[^0-9.]/g, '')`.
  It is a pure function. Lemmas about it cover the character set, order
  preservation, the count of each kept character, uniqueness, idempotence
  and concatenation.
- `DepartmentLookup`: how the reverse-geocoding outcome becomes the
  `{ department, departmentCode }` pair, with its `"Inconnu"` fallback.
- `CreateForm`: the `Obstacle` record, the `ObstacleStore` class, and the
  `CreateScreen` class. `ObstacleStore` holds the decoded list under the
  key, with `None` while the key is absent. `CreateScreen` holds the
  component's state and its handlers as methods. Each handler runs as one
  atomic step.

Two inputs become method parameters:

- The record id, which the screen reads from the clock with
  `String(Date.now())`.
- Whether the storage calls fail. This covers `getItem`, `JSON.parse`,
  pushing onto a parsed value that is not an array, and `setItem`.

Three behaviours of `create.tsx` shape the model:

- The latitude and longitude fields are digits and dots only after a
  keystroke. The position fix writes `toFixed(6)` text into them, and that
  text may carry a minus sign. So no invariant of the form claims
  digits-and-dots for them. `NewObstacle` promises digits-and-dots only
  when the form's text already has that shape.
- A geocoding answer without an `address` member, or without `county` or
  `postcode`, gives absent fields (`undefined`), not `"Inconnu"`. Only a
  failed lookup yields the placeholder pair.
- Record ids are not unique by construction. Two submits with the same
  clock reading would produce the same id, so the model claims nothing
  about uniqueness.

## Model

| member | source | states |
|---|---|---|
| `JsString.Trim` | ReactNative/my-app/app/create.tsx:85 | `s.trim()` is never longer than `s`, and it is empty or has a non-whitespace character at both ends |
| `JsString.TrimStartDropsWhitespacePrefix` | ReactNative/my-app/app/create.tsx:85 | what trimming the start removes is whitespace only, and the rest of the text is kept as it was |
| `JsString.TrimEndDropsWhitespaceSuffix` | ReactNative/my-app/app/create.tsx:85 | what trimming the end removes is whitespace only, and the start of the text is kept as it was |
| `JsString.TrimIsInfix` | ReactNative/my-app/app/create.tsx:85 | `s.trim()` is a contiguous slice of `s` whose removed prefix and suffix are all whitespace |
| `JsString.IsBlank` | ReactNative/my-app/app/create.tsx:85-90 | `!s.trim()` holds exactly when every character of `s` is whitespace, including for the empty string |
| `CoordinateInput.Sanitize` | ReactNative/my-app/app/create.tsx:76-83 | the sanitized text holds only the characters `0`–`9` and `.`, and is never longer than the input |
| `CoordinateInput.SanitizeIsSubsequence` | ReactNative/my-app/app/create.tsx:77 | the output is a subsequence of the input: the kept characters stay in their original relative order |
| `CoordinateInput.SanitizeCounts` | ReactNative/my-app/app/create.tsx:77 | every digit and every `.` occurs in the output exactly as often as in the input, and every other character occurs zero times |
| `CoordinateInput.SanitizeUnique` | ReactNative/my-app/app/create.tsx:77 | any digits-and-dots subsequence of the input with the input's digit and dot counts equals the sanitized text, so the output is exactly the input's digits and dots in order |
| `CoordinateInput.SanitizeFixesExactlyCoordinateText` | ReactNative/my-app/app/create.tsx:81 | sanitizing leaves a text unchanged if and only if it is made only of digits and dots |
| `CoordinateInput.SanitizeIdempotent` | ReactNative/my-app/app/create.tsx:77 | sanitizing twice gives the same text as sanitizing once |
| `CoordinateInput.SanitizeAppend` | ReactNative/my-app/app/create.tsx:76-79 | sanitizing a concatenation equals concatenating the sanitized parts, so text typed after clean text is filtered on its own |
| `DepartmentLookup.DepartmentFromLookup` | ReactNative/my-app/app/create.tsx:9-20 | an answered lookup passes county and postcode through; an answer without `address` gives both fields absent; each field is absent exactly when the lookup answered without `address` or without that member; the result is `("Inconnu","Inconnu")` exactly when the lookup failed or the answer itself says `"Inconnu"` for both |
| `CreateForm.StoredCoordinateNeverBlank` | ReactNative/my-app/app/create.tsx:89-90 | the stored coordinate is never blank; it is the held text, untrimmed, whenever that is not blank; it is digits and dots whenever the held text is |
| `CreateForm.NewObstacle` | ReactNative/my-app/app/create.tsx:94-103 | a record built after validation has non-blank title, instructions, latitude and longitude; it carries the given id, the title, instructions and image as given, each coordinate defaulted when blank, and the department pair; its coordinates are digits and dots when the form's are |
| `CreateForm.AppendKeepsComplete` | ReactNative/my-app/app/create.tsx:104 | pushing a complete record onto a list of complete records gives a list of complete records |
| `CreateForm.ObstacleStore.Append` | ReactNative/my-app/app/create.tsx:92-105 | the stored list becomes the previous list as `Obstacles` reads it (`existingData ? JSON.parse(existingData) : []`, so empty when the key was absent) with the record added at the end, and it stays all-complete |
| `CreateForm.CreateScreen.constructor` | ReactNative/my-app/app/create.tsx:22-27 | every text field starts empty, the image starts null, and the department pair starts as `("Inconnu","Inconnu")` |
| `CreateForm.CreateScreen.SetTitle` | ReactNative/my-app/app/create.tsx:150 | the title becomes the typed text unfiltered; no other field changes |
| `CreateForm.CreateScreen.SetInstructions` | ReactNative/my-app/app/create.tsx:157-158 | the instructions become the typed text unfiltered; no other field changes |
| `CreateForm.CreateScreen.HandleLatitudeChange` | ReactNative/my-app/app/create.tsx:76-79 | the latitude becomes the sanitized text, which is digits and dots only; no other field changes |
| `CreateForm.CreateScreen.HandleLongitudeChange` | ReactNative/my-app/app/create.tsx:80-83 | the longitude becomes the sanitized text, which is digits and dots only; no other field changes |
| `CreateForm.CreateScreen.OnImageCompressed` | ReactNative/my-app/app/create.tsx:71 | the pending image becomes the compressed file's reference; no other field changes |
| `CreateForm.CreateScreen.OnPositionResolved` | ReactNative/my-app/app/create.tsx:41-44 | both coordinates take the formatted position, and the pair takes the lookup's mapping (the placeholder when the lookup failed); image, title and instructions are untouched |
| `CreateForm.CreateScreen.HandleSubmit` | ReactNative/my-app/app/create.tsx:84-116 | a blank title or blank instructions gives the validation outcome with store and form unchanged; a storage failure gives the failure outcome with store and form unchanged; otherwise the store holds the old list (empty if absent) plus one record at the end, carrying the untrimmed title and instructions, defaulted coordinates, the image, the department pair and the given id, and the form is reset; an all-complete stored list stays all-complete |
| `CreateForm.CreateScreen.HandleBack` | ReactNative/my-app/app/create.tsx:117-125 | every form field is reset and the store is not modified |
| `CreateForm.CreateScreen.ClearFields` | ReactNative/my-app/app/create.tsx:106-111 | after the six setter calls every field is back at its initial value |

## Left out

- Location permission, the position request and its `toFixed(6)` formatting
  (lines 29-40) are device services and floating-point formatting. The
  formatted coordinates and the lookup outcome are parameters of
  `OnPositionResolved`. A denied permission changes no state, so it needs
  no member.
- The reverse-geocoding HTTP request and JSON decoding (lines 11-12) are
  network I/O. The model starts from the decoded outcome. `null` and
  `undefined` are both modelled as `None`.
- The image library permission, the picker, and compression at quality 0.5
  (lines 48-70, 72-74) are foreign library calls. Only the state update on
  success (line 71) is modelled. A failed compression only raises an alert
  and changes no state.
- `AsyncStorage` and the JSON text it stores (lines 92-93, 105) are a
  library and a serialisation. The store keeps the decoded list.
  Malformed stored data is covered by the storage-failure parameter.
- `Date.now()` (line 95) reads the clock, so the id is a parameter.
- `Alert.alert`, `router.push`, the rendered form (including showing the
  department only when both coordinates are non-empty, line 177) and the
  styles (lines 126-301) are UI only. `HandleSubmit` returns which alert
  or navigation happens instead.
- The interleaving of the asynchronous position effect with user actions
  is not modelled: every handler is one atomic step, so a late position
  result is modelled as one more step.
- HandleSubmit: the promise "old list plus one record at the end" holds only
  when submits do not overlap. The handler awaits `getItem` and then
  `setItem` (lines 91-105) with no guard against a second tap, so two
  overlapping submits read the same list and the later write replaces the
  earlier record (last write wins). The atomic model cannot show this.
- The obstacle list screen, with its seeding of the example record and its
  deletion, and the contacts screen (`ReactNative/my-app/app/(tabs)/explore.tsx`,
  `ReactNative/my-app/app/(tabs)/index.tsx`, `ReactNative/my-app/app/(tabs)/_layout.tsx`)
  are not part of this model.
