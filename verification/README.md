# Near-Earth object feed and asteroid scene — a Dafny model

This project models the two pieces of logic of the asteroid visualiser that
are more than plumbing.

- **Server side (main.py).** `get_asteroids_data` fetches the NASA NeoWs
  feed. Before returning it, the handler deletes every `"links"` member that
  carries the API key. It deletes the top-level one and the one inside each
  asteroid object of each date list of `near_earth_objects`. The model is a
  pure function `Redaction.Redact` on a JSON value tree (`Json.Json`). An
  object is kept as an ordered sequence of fields, because a Python dict
  keeps insertion order and `del` keeps the order of the other keys. Every
  Python exception the handler can raise on an unexpected shape becomes one
  error value, `Redaction.Raised`: FastAPI answers them all with HTTP 500.
- **Browser side (static/main.js).** Three functions are modelled:
  - `createAsteroid3D` turns a record into a mesh value: tint, radius, orbit
    state, position and rotation (`Scene.CreateAsteroid3D`).
  - The per-mesh body of `animate` is one frame step (`Scene.Step`,
    `Scene.Animate`).
  - `fetchAsteroidData` replaces the mesh list and the side list
    (`Fetch.FetchAsteroidData`). Each list entry holds a display label
    (`Labels.Label`) and the rounded size and distance. The date whose
    records are shown is the first key `Object.keys` lists, which is not
    always the first member in the text (`PropertyOrder.FirstKeyPosition`).
  - Numbers are Dafny `real`s. The five `Math.random()` results of a mesh
    are a `Draws` parameter. `Math.cos`/`Math.sin` are the two functions of
    a `Trig` parameter.

## Behaviour worth noting

- A record without a close approach aborts the rest of the batch. It is not
  skipped, and the meshes already built stay in the scene.
- A failed request leaves the old meshes in place and shows the error text.
- The mesh radius is a constant chosen by the hazard flag, 0.6 or 0.3; it
  does not depend on the diameter.
- The angle advances by the per-mesh speed once per frame, with no further
  factor.
- `Object.keys` lists array-index keys (such as `"7"`) before all others, in
  ascending numeric order. Date keys `YYYY-MM-DD` are never array indices,
  so with the real feed the first date in the text is the one shown.

## Model

| member | source | states |
|---|---|---|
| Json.Lookup | main.py:40 | `d.get(k)` finds a value exactly when the key is present, and the value found is a field of the dict |
| Json.RemoveKey | main.py:36-37 | the result's fields are exactly the input's fields whose key is not `k`, in their original order; every other key looks up to the same value as before; a dict without `k` is returned unchanged |
| Json.LookupSameKeys | main.py:40-41 | two dicts with the same keys in the same order find a key at the same position |
| Redaction.RedactAsteroid | main.py:42-44 | an asteroid object loses exactly its `"links"` member and keeps every other member, with its value and in its place in the order, nested `"links"` included; an object never raises; any non-object element is returned unchanged when the handler does not raise |
| Redaction.RedactAsteroids | main.py:42-44 | a date list keeps its length and order, and each element is redacted as above |
| Redaction.RedactDateEntry | main.py:41-44 | a date's list is redacted element-wise; any other date value is left unchanged when no exception is raised |
| Redaction.RedactDates | main.py:41-44 | `near_earth_objects` keeps the same dates in the same order, and each date's value is redacted |
| Redaction.RedactNeo | main.py:40-41 | a `near_earth_objects` dict has its dates redacted; an empty list or string is iterated zero times and left as it is, without raising; any other value that is not a dict raises |
| Redaction.RedactTopFields | main.py:40-44 | the top-level keys keep their order; every field other than `near_earth_objects` is unchanged; `near_earth_objects` is redacted |
| Redaction.Redact | main.py:36-47 | a feed that is not a dict always raises; a successful reply is a dict |
| Redaction.RedactRemovesLinks | main.py:36-44 | after a successful reply there is no `"links"` at the top level, nor in any asteroid object of any date list |
| Redaction.RedactKeepsOtherMembers | main.py:36-40 | every top-level key other than `"links"` and `near_earth_objects` keeps its value, and the key order is that of the feed without `"links"` |
| Redaction.RedactNeoMember | main.py:40-44 | `near_earth_objects` is present after redaction exactly when it was present before; dates, asteroid counts and order are preserved, and asteroids lose only their own `"links"`, keeping the order of their remaining members |
| Redaction.RedactWithoutNeo | main.py:40 | without `near_earth_objects`, it is treated as empty and only the top-level `"links"` is removed |
| Redaction.RedactIdempotent | main.py:36-44 | redacting a successful reply again gives the same reply |
| Redaction.RedactAcceptsFeed | main.py:36-47 | a feed whose `near_earth_objects`, when present, maps dates to lists of objects never makes the handler raise |
| Labels.RemoveFirst | static/main.js:165 | `replace(c, '')` leaves a string without `c` unchanged and otherwise makes it one character shorter |
| Labels.RemoveFirstKeepsOthers | static/main.js:165 | `replace(c, '')` removes exactly one `c` when there is one and keeps every other character |
| Labels.RemoveFirstSplices | static/main.js:165 | the `c` removed is the first one, and the characters before and after it keep their places |
| Labels.RemoveFirstCommutes | static/main.js:165 | removing the first `c` and the first `d` gives the same string in either order |
| Labels.CleanNameRemovesFirstParens | static/main.js:165 | the cleaned name is the original name with its first `(` and its first `)` removed; all other characters stay |
| Labels.LabelFromName | static/main.js:165-170 | the label starts with `[Warning] ` for a hazardous record and with nothing added otherwise; apart from that prefix it holds the characters of the name less its first `(` and first `)`, so it is that much shorter; a name without parentheses appears verbatim |
| Labels.LabelWarnsIffHazardous | static/main.js:167-170 | the label starts with `[Warning] ` if and only if the record is hazardous or its cleaned name already starts with it |
| Labels.JsRound | static/main.js:172-173 | `Math.round` gives the integer `n` with `n - 1/2 <= x < n + 1/2` |
| Labels.ItemFor | static/main.js:165-179 | an entry exists exactly when the record has a close approach; it holds the label, and its size and distance are the integers within one half of the diameter and of the first miss distance |
| Scene.VisualDistance | static/main.js:54-55 | `14 + km/1000000` determines the miss distance, which can be read back from it; for `km >= 0` it is at least 14, beyond the Earth radius 6 |
| Scene.CreateAsteroid3D | static/main.js:53-91 | a mesh is built exactly when the record has a close approach; its orbit radius is the visual distance of the first approach; the tint and radius follow the hazard flag (`0xff5555`/0.6 or `0xffffff`/0.3); it starts at the origin, unrotated; the angle, speed, height and both spin rates each determine their own random draw, which can be read back from them |
| Scene.CreateAsteroid3DBounds | static/main.js:77-86 | with draws in [0,1), the angle is in [0, 2 pi), the speed is in [0.0005, 0.001), the height is in [-7.5, 7.5) and both spin rates are in [-0.01, 0.01) |
| Scene.Step | static/main.js:100-110 | one frame adds the speed to the angle, strictly increasing it for a positive speed; distance, height, speed and spin rates are unchanged; `y` is pinned to the height; rotations advance by the spin rates; tint and radius are kept; a sound mesh stays sound |
| Scene.StepStaysOnOrbit | static/main.js:103-106 | with a true cosine and sine, the new position lies on the circle of radius `distance` |
| Scene.FramesClosedForm | static/main.js:99-111 | after `n` frames, the angle is the start angle plus `n` times the speed and each rotation is its start plus `n` times its spin rate; nothing else in the orbit state changes; the position is recomputed from the current angle without drift |
| Scene.Animate | static/main.js:99-111 | a frame advances every mesh of the list once, in place and in order, and keeps every mesh sound |
| PropertyOrder.FirstKeyPosition | static/main.js:154 | `Object.keys(o)[0]` is the array-index key of least numeric value when some key is an array index, and the first key in textual order otherwise |
| PropertyOrder.DateKeysKeepTextualOrder | static/main.js:154 | when every key holds a `-`, as dates do, `Object.keys(o)[0]` is the first member |
| Fetch.FirstMissing | static/main.js:161-173 | the first record without a close approach: every record before it has one |
| Fetch.ReplaceMeshes | static/main.js:161-186 | records are processed in order up to the first one without a close approach; the meshes are exactly those of the earlier records, in order; the list holds one entry per record, or the error text when some record has no close approach |
| Fetch.FetchAsteroidData | static/main.js:145-188 | a failed request or a missing `near_earth_objects` keeps the old meshes and shows the error text; an empty `near_earth_objects` clears the meshes and shows the error text; otherwise the mesh list is replaced as in `ReplaceMeshes` with the records of the date `Object.keys` lists first, which for date keys is the first member, and no old mesh remains |
| Fetch.BatchMeshesSound | static/main.js:161-181 | with genuine draws, every mesh of a new batch is sound, and one with a non-negative miss distance orbits outside the Earth sphere |

## Left out

- The Three.js scene, camera, renderer, textures, OrbitControls, the starfield, the resize handler and `renderer.render` (static/main.js:8-51, 113-143) are rendering calls whose effect is not visible to the logic. Adding a mesh to or removing it from the scene is represented only by the `asteroids3D` list.
- `fetch`, `response.json()` and the DOM (`innerHTML`, `createElement`, `appendChild`, class names) are I/O. Their outcome is the `Fetch.Response` input, and the list's content is the `Fetch.ListView` value. A 500 reply from the server is not valid JSON, so it reaches the page as `FetchFailed`.
- `requests.get`, FastAPI routing and static serving, `.env` loading and the date in the URL (main.py:1-33, 49-50) are network and framework plumbing. The decoded feed is the input of `Redact`.
- Python's exception classes (TypeError, AttributeError, IndexError) are not distinguished, since they all produce the same HTTP 500.
- `Redaction.RedactTopFields` visits every top-level field named `near_earth_objects`. A decoded dict holds that key at most once, so this is the one field that `data.get` returns.
- The browser reads records as typed values: a string name, a boolean flag, a numeric diameter and a list of approaches. JavaScript's dynamic behaviour on other shapes is not modelled: a missing name, truthiness of a non-boolean flag and `Object.keys` on a non-object `near_earth_objects`.
- Fetch.FetchAsteroidData: the groups are the members of the parsed `near_earth_objects`, one per key. `JSON.parse` keeps the last of duplicate keys; duplicates are not modelled.
- `parseFloat` (static/main.js:54) and the `Number` coercion inside `Math.round` (static/main.js:173) both read `kilometers` as the same already parsed real.
- IEEE double rounding is not modelled: arithmetic is exact on reals, so angle accumulation and `14 + km/1e6` carry no rounding error. `Labels.JsRound` ignores negative zero.
- `Math.random` is not modelled. Its results are the `Draws` per mesh, indexed by record position.
- `Math.cos` and `Math.sin` are uninterpreted; only `Scene.StepStaysOnOrbit` assumes the identity cos² + sin² = 1.
- Overlapping calls of `fetchAsteroidData` are not modelled. The page calls it once at start-up (static/main.js:191), so only one call is modelled.
