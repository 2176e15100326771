# AeroVista upload pipeline, modelled in Dafny

AeroVista (shuflovic/bratislava_flights) draws flight routes on a globe. A user
uploads a spreadsheet of routes. Each row is mapped to a `Flight`. Rows without
both endpoints are dropped. The city names missing from the coordinate cache are
sent to a text-generation service for geocoding, and its answer is merged into
the cache. Routes whose endpoints both have coordinates are drawn as arcs, and
the places they touch as labels.

The repository holds two front ends with two slightly different pipelines, and
each is modelled as its own state transition:

- `index.tsx` is a standalone page with an SVG globe (module `SvgApp`). It trims
  endpoints, accepts six header spellings per endpoint, catches decode
  failures, and geocodes before replacing the route list.
- `App.tsx` drives a 3D globe (module `GlobeApp`, with `GlobeVisualizer` for
  `components/GlobeVisualizer.tsx`). It reads two spellings per endpoint, does not trim,
  does not catch decode failures, and replaces the route list before
  geocoding.

Shared modules:

- `Types`: the records of types.ts.
- `Text`: JavaScript `trim` and the decimal rendering of row indices.
- `Seqs`: `Array.prototype.filter`.
- `Sheet`: rows as header-to-cell maps, and the `a || b || c` alias lookup.
- `Routes`: `HasEndpoints`, distinct ids, and the `find` by id.
- `Cache`: the `{...prev, ...fresh}` merge, the missing-city set and the renderable filter.
- `Geocoder`: services/geminiService.ts.
- `Constants`: constants.ts.

Inputs the model takes from outside:

- The spreadsheet library is replaced by a `FileRead` value: no file, a decode failure, or the rows of the first sheet.
- The geocoding service is an oracle `Reply` with three cases:
  - `ClientError`: constructing the client throws. This happens before the `try`, so the exception leaves `geocodeCities`.
  - `ServiceError`: anything thrown inside the `try` (the request, `JSON.parse`, a reply that is not an array) makes the result `{}`.
  - `Answer(items)`: the parsed array.
- `Date.now()` in `index.tsx` is a function `clock`: `clock(i)` is the reading taken while mapping row `i`.

State-changing parts are written imperatively:

- The React state of each front end is a `class App` with methods.
- The `forEach` loops are `for` loops with invariants: the missing set, the geocoder fold, and the arc and point builder.

Two loop methods, the geocoder fold and the arc and point builder, are proved
equal to specification functions. The missing-city loop is proved to return each
missing name exactly once. The properties are proved about the functions.

The merge is right-biased: a name the service returns replaces an existing cache
entry (index.tsx:267, App.tsx:37), and `Cache.Merge` follows this.

`index.tsx` repeats the seed constants of constants.ts and its own copy of
`geocodeCities`. The seed constants are literal copies, and are modelled once
in `Constants`. The copy of `geocodeCities` differs in two ways.
Its prompt is worded differently (index.tsx:62, services/geminiService.ts:9),
and the model does not look at prompt text. It also parses an empty response
text as `[]` instead of throwing, and both paths give the empty map. So it is
modelled once in `Geocoder`.

## Model

| member | source | states |
|---|---|---|
| Text.TrimStartSpec | index.tsx:246-247 | `trim`'s leading half keeps a suffix, drops only whitespace, and leaves no leading whitespace |
| Text.TrimEndSpec | index.tsx:246-247 | `trim`'s trailing half keeps a prefix, drops only whitespace, and leaves no trailing whitespace |
| Text.TrimEmptyIffBlank | index.tsx:246-247 | a trimmed cell is empty iff every character is ECMAScript whitespace |
| Text.Decimal | index.tsx:245 | a number renders as a non-empty run of decimal digits |
| Text.DecimalRoundTrip | index.tsx:245 | reading back the rendered digits gives the number |
| Text.LeadingDigits | index.tsx:245 | the leading digit run is a digit-only prefix |
| Text.LeadingDigitsOf | index.tsx:245 | a digit run followed by a non-digit is read back exactly |
| Seqs.Filter | index.tsx:251 | `filter` keeps at most the input, and only elements of the input that pass |
| Seqs.FilterMembership | index.tsx:251 | an element is kept iff it occurs in the input and passes |
| Seqs.FilterKeepsAll | index.tsx:251 | when every element passes, `filter` returns its input |
| Seqs.FilterPositions | index.tsx:251 | each kept element sits at a strictly increasing source position, and every passing position is kept, so order is preserved |
| Sheet.FirstTruthySpec | index.tsx:239-242 | `a || b || ...` yields nothing iff no alias cell is truthy, otherwise the cell of the first truthy alias |
| Sheet.FirstTruthyPicks | index.tsx:239-242 | the lookup returns exactly the cell of the first truthy alias |
| Routes.FindById | index.tsx:280 | `find` by id returns the first flight with that id, and nothing iff nothing is selected or the id is dangling |
| Routes.FindDistinct | App.tsx:82 | with distinct ids, looking up a flight's id returns that flight |
| Cache.Merge | index.tsx:267 | `{...prev, ...fresh}`: key set is the union, fresh values win, other keys keep their values |
| Cache.MergeIdempotent | index.tsx:267 | merging the same answer twice equals merging it once |
| Cache.MergeWellNamed | App.tsx:37 | merging keeps every entry filed under its own name |
| Cache.EndpointsMembership | index.tsx:259-263 | a name is an endpoint iff some flight starts or ends there |
| Cache.MissingCities | index.tsx:259-263 | the `forEach` into a `Set` yields exactly the endpoints that are not cache keys, each once |
| Cache.RenderableIff | index.tsx:168-171 | a flight is drawable iff it is in the list and both endpoints are cache keys |
| Cache.NothingMissingAllRender | index.tsx:259-269 | with nothing missing, every flight is drawable |
| Cache.MergeShrinksMissing | index.tsx:265-267 | after a merge, the missing set loses exactly the keys of the answer |
| Geocoder.ResultMap | services/geminiService.ts:33-36 | the result map's keys are exactly the names in the result list, each filed under its own name |
| Geocoder.ResultMapLastWins | services/geminiService.ts:34-36 | with duplicate names, the last item carrying the name wins |
| Geocoder.FoldResults | services/geminiService.ts:33-37 | the `forEach` builds exactly the result map |
| Geocoder.GeocodeCities | services/geminiService.ts:5-42 | an empty request returns `{}` without calling; a client error escapes with no result; anything thrown inside the `try` (the request, `JSON.parse`, a non-array reply) returns `{}`; an answer returns the result map, unfiltered by the request |
| Geocoder.OutcomeWellNamed | services/geminiService.ts:7-41 | only a client error yields no result, and every result files each entry under its own name |
| Constants.SeedRoutesResolved | constants.ts:4-19 | every seed endpoint is cached, so every seed route is drawable |
| Constants.SeedWellNamed | constants.ts:12-19 | each seed cache entry's name equals its key |
| Constants.SeedIdsDistinct | constants.ts:4-10 | seed flight ids are pairwise distinct |
| Constants.SeedInRange | constants.ts:13-18 | seed latitudes lie in [-90, 90] and longitudes in [-180, 180] |
| SvgApp.RowIndexOfUploadId | index.tsx:245 | the id `up-{i}-{t}` gives back its row index `i` for any clock reading |
| SvgApp.RowFields | index.tsx:239-250 | each endpoint is the trimmed cell of its first truthy alias and duration and airline the untrimmed cell of theirs; with no alias truthy the field is `''`, `''`, `N/A` or `Unknown` |
| SvgApp.BlankOriginShadows | index.tsx:239-251 | a blank first truthy origin cell shadows later aliases; the origin is empty and the row dropped |
| SvgApp.IngestSpec | index.tsx:238-251 | kept flights have both endpoints, map the row their id names, come in source order, and include every row with both endpoints |
| SvgApp.IngestIdsDistinct | index.tsx:245 | ids within one upload are distinct |
| SvgApp.IngestKeepsValidRows | index.tsx:238-251 | when every row has both endpoints, every row is kept in order |
| SvgApp.SvgArcIff | index.tsx:168-180 | a path is drawn iff both endpoints are cached; it joins the cached coordinates and is highlighted iff selected |
| SvgApp.OriginDestinationHeaders | index.tsx:239-247 | a sheet headed `Origin` / `Destination` is read from those columns, trimmed |
| SvgApp.App.constructor | index.tsx:208-211 | the page starts with the seed routes and cache, nothing selected, not loading |
| SvgApp.App.SelectedFlight | index.tsx:280 | the selected flight carries the selected id, is in the list, and is unique when ids are distinct |
| SvgApp.App.Select | index.tsx:184 | a click sets the selection and nothing else |
| SvgApp.App.HandleFileUpload | index.tsx:225-278 | no file: nothing; decode failure or no valid row: routes and cache kept; otherwise exactly the missing names are geocoded; a client error escaping the geocoder keeps routes and cache, else the answer is merged and routes replaced; loading ends false; cache keys only grow |
| GlobeApp.RowIndexOfUploadId | App.tsx:55 | the id `upload-{index}` gives back its row index |
| GlobeApp.RowFields | App.tsx:56-59 | each field is the untrimmed cell of its first truthy alias; with no alias truthy it is `''`, `''`, `N/A` or `Unknown` |
| GlobeApp.IngestSpec | App.tsx:54-60 | kept flights have both endpoints, map the row their id names, come in source order, and include every row with both endpoints |
| GlobeApp.IngestIdsDistinct | App.tsx:55 | ids within one upload are distinct |
| GlobeApp.BlankOriginKeptHereDroppedThere | App.tsx:56 | a whitespace-only `from` cell is kept as is here, while index.tsx drops that row |
| GlobeApp.OriginHeaderIgnored | App.tsx:56 | without a `from` / `From` cell the origin is empty and the row dropped |
| GlobeApp.App.constructor | App.tsx:20-23 | the component starts with the seed routes and cache, nothing selected, not processing |
| GlobeApp.App.SelectedFlight | App.tsx:82 | the selected flight carries the selected id, is in the list, and is unique when ids are distinct |
| GlobeApp.App.Select | App.tsx:92 | a selection sets the selected id and nothing else |
| GlobeApp.App.ResolveMissingCoords | App.tsx:27-40 | exactly the missing names are requested; none missing: nothing changes; a client error leaves the cache and `isProcessing` true; otherwise the answer is merged and `isProcessing` ends false |
| GlobeApp.App.HandleFileUpload | App.tsx:42-68 | no file, decode failure or no valid row: nothing changes; otherwise routes replaced, then the missing names geocoded; the answer is merged and `isProcessing` ends false, unless a client error leaves the old cache and `isProcessing` true; cache keys only grow |
| GlobeVisualizer.ArcsSpec | components/GlobeVisualizer.tsx:31-46 | one arc per drawable flight, in flight order, built from that flight |
| GlobeVisualizer.ArcIff | components/GlobeVisualizer.tsx:31-46 | a flight has an arc iff both endpoints are cached; arcs start and end at the cached coordinates, carry their flight and label, and are amber iff selected |
| GlobeVisualizer.NamesSnoc | components/GlobeVisualizer.tsx:49-59 | offering one more place adds exactly its name |
| GlobeVisualizer.FirstByNameNames | components/GlobeVisualizer.tsx:49-59 | every offered place name is kept |
| GlobeVisualizer.FirstByNameDistinct | components/GlobeVisualizer.tsx:49-59 | no two kept places share a name |
| GlobeVisualizer.FirstByNameFirstAt | components/GlobeVisualizer.tsx:50 | each kept place is the first offered under its name |
| GlobeVisualizer.VisitsSpec | components/GlobeVisualizer.tsx:49 | offered places come from the cache; with a well-named cache their names are the drawable flights' endpoints |
| GlobeVisualizer.PointsDistinct | components/GlobeVisualizer.tsx:50-65 | one label per place name |
| GlobeVisualizer.PointsPlaced | components/GlobeVisualizer.tsx:51-57 | each label is white, size 0.1, and is the label of the first place offered under its name, which is a cache entry |
| GlobeVisualizer.PointsLabels | components/GlobeVisualizer.tsx:49-65 | with a well-named cache the labels are exactly the drawable flights' endpoints |
| GlobeVisualizer.AddPointStep | components/GlobeVisualizer.tsx:50-58 | one insertion step keeps `pointsData` in step with the kept places |
| GlobeVisualizer.AddPoint | components/GlobeVisualizer.tsx:50-58 | a new name is stored and appended to the key order; a known name is left alone |
| GlobeVisualizer.VisitFlight | components/GlobeVisualizer.tsx:31-60 | one flight pushes its arc and offers its endpoints iff both are cached |
| GlobeVisualizer.BuildGlobeData | components/GlobeVisualizer.tsx:23-67 | no flight list: empty layers; otherwise the arcs and labels of the specification functions |
| GlobeVisualizer.ArcClickSelection | components/GlobeVisualizer.tsx:123-127 | clicking an arc selects its flight's id; otherwise the selection stays |
| GlobeVisualizer.RenderableDistinct | components/GlobeVisualizer.tsx:31-35 | drawable flights keep distinct ids |
| GlobeVisualizer.ClickSelectsArcFlight | components/GlobeVisualizer.tsx:123-127 | with distinct ids, clicking arc k selects its flight, and on re-render only arc k is amber |

Each function the model is built on (`SvgApp.RowFlight`, `SvgApp.Ingest`,
`SvgApp.SvgArcs`, `GlobeApp.RowFlight`, `GlobeApp.Ingest`, `GlobeVisualizer.Arcs`,
`GlobeVisualizer.Points`, `GlobeVisualizer.FirstByName`, `Cache.MissingSet`,
`Cache.Renderable`, `Sheet.FirstTruthy`, `Text.Trim`, `Geocoder.Outcome`) has no
row of its own. The lemma rows that name it, and cite the same lines, describe it.

## Left out

- JSX rendering, styling, icons, overlays and the welcome banner are presentation only.
- Spreadsheet decoding (`XLSX.read`, `sheet_to_json`) is a foreign library, replaced by `FileRead`. Writing the sample sheet (`downloadSample`, `downloadSampleFile`) is left out for the same reason.
- Cells are modelled as strings. Numeric cells, and `String(...)` of non-strings, are not modelled.
- The text-generation request (`generateContent`, the prompt, the API key) is left out. Its outcome is the reply oracle.
- `FileReader`, `async`/`await`, the world-atlas `fetch`, `alert` and `console` are I/O. Each upload is one atomic step, so `loading` / `isProcessing` being true mid-upload is not observable in the model.
- Overlapping uploads racing on the same state are concurrency, and are left out.
- The d3 projection, graticule, drag rotation and rotate-to-selection (index.tsx:114-143) are float geometry and library effects. So are the globe camera and auto-rotation (components/GlobeVisualizer.tsx:69-92).
- The SVG place layer (index.tsx:190-201) is projection-dependent, and is left out.
- Keys inherited from `Object.prototype` (such as `toString`) are not modelled: truthiness is "present and non-empty".
- `Object.values` lists integer-like keys in numeric order before the others. The model uses insertion order (`GlobeVisualizer.Points`).
- types.ts declares interfaces only. They are mirrored as datatypes in `Types`, with `labelText` standing for the field `label`.
- GlobeVisualizer.VisitsSpec: the equality of label names and drawable endpoints is stated only for well-named caches. Labels are keyed by the coordinate's `name`, not its cache key.
- GlobeVisualizer.PointsLabels: requires a well-named cache for the same reason.
- Cache.MissingCities: the order of the missing names (a `Set` iterates in insertion order) is not stated, only that each missing name appears once.
- Geocoder.GeocodeCities: answers are assumed to follow the declared schema, that is each item has a string `name` and numeric `lat` / `lng`. A reply that breaks the schema is not modelled. The source does not check the schema, and it files such an item under `String(item.name)`, for example `"undefined"`.
