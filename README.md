# meta-surf-forecast: forecast ingestion, modelled in Dafny

The application collects surf forecasts from three providers and stores them
as rows of one table, keyed by `(spot_id, timestamp)`. This project models the
ingestion code of the three provider models:

- **Surfline** (`app/models/surfline.rb`). `api_url` builds the request URL.
  `parse_response` does the rest:
  - it normalises a single response into a list;
  - it merges the three axes of each response into an insertion-ordered
    `spot id → timestamp → values` hash (Surf gives the heights, Sort the
    best of six swell scores, Wind the optimal-wind flag);
  - it fills interior gaps in the swell rating with the mean of the
    neighbours;
  - it moves Pacific timestamps onto the 3-hour UTC grid;
  - it upserts every row that ends up with a swell rating.

  The display helpers `wind_factor` and `display_swell_rating` are modelled
  as well.
- **MagicSeaweed** (`app/models/msw.rb`). `api_url`, and `parse_data`: a flat
  list of entries with fallback heights, the 3-hour snap on the hour in the
  application zone, and a save gated on `solidRating`.
- **Spitcast** (`app/models/spitcast.rb`). `api_url`, and `parse_response`:
  entries without `gmt` are skipped, the shape label maps to a rating 0..5,
  and the row is upserted with no time correction.

Files and modules:

- `forecast.dfy` (`Forecast`): the shared parts.
  - The `Record` schema; every column is an `Option`, nil being `None`.
  - The `Store` class, which holds `rows: map<Key, Record>` and whose
    `Save` is `save!`.
  - `first_or_initialize`, Ruby's `blank?` and the hour of an instant.
  - The 3-hour snap and `avg_height`. Surfline and `Msw` define it
    identically.
- `surfline_merge.dfy` (`SurflineMerge`): the payload and the three axis
  passes.
  - A spot's series is a key sequence plus a map. This is how the Ruby hash
    keeps insertion order.
  - Every pass is a nested-loop method. Each is proved equal to a function
    that walks the axis cell by cell.
  - Lemmas about that function state what each pass writes.
- `surfline_gapfill.dfy` (`SurflineGapFill`): the in-place gap-fill loop, and
  its specification as a left-to-right fold.
- `surfline.dfy` (`Surfline`): the URL, the display helpers, the timestamp
  correction and the upsert.
  - `ParseResponse` is a method that takes the `Store` and modifies its rows.
    It is proved to leave exactly the rows of the function `Ingest`.
- `msw.dfy` (`Msw`) and `spitcast.dfy` (`Spitcast`): the two flat-list
  providers.
  - Each `parse` loop is a method that takes the `Store` and modifies its
    rows, proved equal to a fold.
  - Each fold has a pointwise characterisation: the last saved entry for a
    key wins. From it follow idempotence and the per-entry save facts.

Instants are whole seconds since the epoch.

Time zone parsing is a parameter `parse: string -> Time`. This covers
`zone.parse` for Surfline and `Time.zone.parse` for Spitcast.

The application zone used by MagicSeaweed is a fixed offset from UTC in
seconds. Surfline's correction uses the UTC hour.

`ENV['SURFLINE_DAYS']` and `ENV['MSW_API_KEY']` are parameters of type
`Option<string>`. An unset key interpolates as empty text.

`Spot.find_by(surfline_id:)` is a `map<string, Spot>`.

A `raise` is an `Err` result.

### Behaviour worth knowing

An ingestion pipeline of this kind would usually be expected to re-ingest
idempotently, to persist only rated records, and to gap-fill in time order.
The code does otherwise in the cases below, and the model follows the code.

- **Re-ingesting a Surfline payload is not idempotent.** Two raw Pacific
  instants can snap to the same key.
  - On the first run, the values without a rating are not saved; the row is
    created by the later values.
  - On the second run, the row already exists with a rating. So the earlier
    values pass the gate and are written as well.
  - `Surfline.ReingestChangesRow` is a concrete case.
- **A Surfline row can be partly written without a rating in the new
  values.** The upsert assigns only the attributes present in the values,
  so a stored row with a swell rating passes the gate
  (`Surfline.ExistingRatingPassesGate`).
- **The gap-fill neither follows sorted order nor skips rated entries.**
  - The skip test at surfline.rb:83 looks at the spot's hash rather than the
    entry, so it never fires.
  - Neighbours are taken in insertion order, and the previous neighbour may
    already have been filled in the same pass.
  - A rated interior entry is overwritten whenever both neighbours are
    rated (`SurflineGapFill.GapFillAt`, `SurflineGapFill.GapFillExample`).
- **Spitcast saves unknown shape labels.** Their rating is 0, and an integer
  0 is `present?`, so every entry with a `gmt` is saved
  (`Spitcast.EveryEntrySaved`).
- **MagicSeaweed and Spitcast re-ingestion is idempotent.** Each assignment
  overwrites every column the provider writes.

## Model

| member | source | states |
|---|---|---|
| Forecast.FirstOrInitialize | app/models/surfline.rb:101 | the stored row at the key when there is one, else a blank row with no rating |
| Forecast.Store.Save | app/models/surfline.rb:106 | `save!` inserts or replaces the row at its key and changes no other row |
| Forecast.HourOf | app/models/surfline.rb:98 | the hour of an instant in a zone is in 0..23 |
| Forecast.SnapAligns | app/models/surfline.rb:98-100 | snapping by an instant's own hour lands on an hour divisible by 3, moves by exactly `3 - hour % 3` hours when the remainder is not 0 (else not at all), and keeps minutes and seconds |
| Forecast.LastWrite | app/models/msw.rb:24-37 | the last saving entry it names for a key comes before `n` and is saved under that key |
| Forecast.LastWriteIsLast | app/models/spitcast.rb:20-35 | no entry after the last saving entry for a key is saved under that key |
| Forecast.AvgHeight | app/models/surfline.rb:16-18 | the mean exists iff both heights do; it lies between them and is equidistant from them |
| SurflineMerge.Normalize | app/models/surfline.rb:41 | a single response becomes a one-element list; a list is kept |
| SurflineMerge.StepKeys | app/models/surfline.rb:51 | `||= {}` appends a timestamp to the key order exactly when it is new |
| SurflineMerge.StepAt | app/models/surfline.rb:51-53 | an assignment merges the cell's attributes into that timestamp's values and changes no other timestamp |
| SurflineMerge.MaxScore | app/models/surfline.rb:61-65 | the running maximum started at 0 is never negative |
| SurflineMerge.MaxScoreBounds | app/models/surfline.rb:61-65 | the Sort rating is at least every sub-score (nil as 0), and equals 0 or one of them |
| SurflineMerge.SwellRatingAt | app/models/surfline.rb:61-65 | the `(1..6)` loop computes the maximum of 0 and `optimal1..optimal6` |
| SurflineMerge.PassKeys | app/models/surfline.rb:48-75 | an axis pass creates exactly the timestamps of the cells it has visited |
| SurflineMerge.PassValid | app/models/surfline.rb:48-75 | an axis pass keeps the key order duplicate-free and equal to the key set |
| SurflineMerge.PassOnly | app/models/surfline.rb:48-75 | an axis pass leaves every attribute of the other axes, at every timestamp, as it was |
| SurflineMerge.PassFills | app/models/surfline.rb:48-75 | every visited timestamp holds what the axis assigns: both heights (Surf), a non-negative rating (Sort), the wind flag (Wind) |
| SurflineMerge.AxisPassFacts | app/models/surfline.rb:48-75 | a whole axis pass is well formed, adds exactly the axis's timestamps, writes only its own attributes, fills all its timestamps and leaves every other timestamp as it was |
| SurflineMerge.LastCell | app/models/surfline.rb:48-75 | the last cell of the walk stamped `t` is a real cell before the cursor, stamped `t` |
| SurflineMerge.LastCellNone | app/models/surfline.rb:48-75 | there is no last cell stamped `t` exactly when no visited cell is stamped `t` |
| SurflineMerge.LastCellIsLast | app/models/surfline.rb:48-75 | no visited cell after the last one stamped `t` is stamped `t` |
| SurflineMerge.PassAt | app/models/surfline.rb:48-75 | after a walk, a timestamp no cell is stamped with is as before; otherwise the axis's own attributes there are those of the last cell stamped with it |
| SurflineMerge.MergeSurfDay | app/models/surfline.rb:49-54 | the inner loop over one Surf day advances the walk by exactly that day |
| SurflineMerge.MergeSurf | app/models/surfline.rb:48-55 | the Surf loops compute the whole Surf pass |
| SurflineMerge.MergeSortDay | app/models/surfline.rb:58-66 | the inner loop over one Sort day advances the walk by exactly that day |
| SurflineMerge.MergeSort | app/models/surfline.rb:57-67 | the Sort loops compute the whole Sort pass |
| SurflineMerge.MergeWindDay | app/models/surfline.rb:70-74 | the inner loop over one Wind day advances the walk by exactly that day |
| SurflineMerge.MergeWind | app/models/surfline.rb:69-75 | the Wind loops compute the whole Wind pass |
| SurflineMerge.ResponsePassIs | app/models/surfline.rb:48-75 | a response is the Surf, then the Sort, then the Wind pass |
| SurflineMerge.ResponseFacts | app/models/surfline.rb:48-75 | after a response: every timestamp on any axis has an entry and no other is new; heights are the Surf pass's and the rating the Sort pass's, untouched by later passes; each axis's timestamps stay filled |
| SurflineMerge.ResponseValid | app/models/surfline.rb:48-75 | the three passes keep a series well formed |
| SurflineMerge.ResponseRating | app/models/surfline.rb:57-67 | after a response the swell rating at `t` is as before when no Sort cell is stamped `t`, else the best sub-score of the last Sort cell stamped `t` |
| SurflineMerge.MergeResponseFacts | app/models/surfline.rb:46-47 | merging a response keeps the forecasts well formed and adds exactly its spot id, once |
| SurflineMerge.MergeAllValid | app/models/surfline.rb:45-76 | the accumulated forecasts are well formed: distinct ids, one series per id, each series well formed |
| SurflineMerge.MergeAllIds | app/models/surfline.rb:45-47 | the forecasts hold a series for exactly the ids of the merged responses |
| SurflineMerge.MergeInto | app/models/surfline.rb:46-75 | the loop body for one response computes its merge |
| SurflineMerge.Accumulate | app/models/surfline.rb:41-76 | the accumulation loop over the normalised payload computes the fold of the merges |
| SurflineGapFill.NeighbourMean | app/models/surfline.rb:85-89 | a mean exists exactly when both neighbours' current ratings are non-nil |
| SurflineGapFill.GapFillFirst | app/models/surfline.rb:82-90 | the pass never changes the key order |
| SurflineGapFill.GapStepOther | app/models/surfline.rb:85-89 | a visit changes no other timestamp |
| SurflineGapFill.GapStepAt | app/models/surfline.rb:85-89 | a visit changes at most the visited rating, to the neighbours' mean when both are rated |
| SurflineGapFill.GapFillValid | app/models/surfline.rb:79-91 | the pass keeps the series well formed |
| SurflineGapFill.GapFillOnlyRatings | app/models/surfline.rb:89 | the pass changes nothing but swell ratings |
| SurflineGapFill.GapFillUntouched | app/models/surfline.rb:82-90 | positions not yet visited, and the first one, keep their original values |
| SurflineGapFill.GapFillSettled | app/models/surfline.rb:82-90 | a visited position keeps what its own visit gave it |
| SurflineGapFill.GapFillEnds | app/models/surfline.rb:82 | the first and last timestamps are never changed |
| SurflineGapFill.GapFillAt | app/models/surfline.rb:82-90 | an interior rating becomes the mean of the final previous rating and the original next rating when both are non-nil, even over an existing rating; else it is kept |
| SurflineGapFill.GapFillExample | app/models/surfline.rb:82-90 | ratings `2, nil, 4, 6` become `2, 3, 4.5, 6` |
| SurflineGapFill.GapFillNonNegative | app/models/surfline.rb:89 | non-negative ratings stay non-negative |
| SurflineGapFill.GapFillSpot | app/models/surfline.rb:80-90 | the in-place loop fails exactly on a spot without timestamps and otherwise computes the pass |
| SurflineGapFill.FillSpots | app/models/surfline.rb:79-91 | a successful pass keeps the spot ids and the spots with a series |
| SurflineGapFill.FillSpotsKeys | app/models/surfline.rb:79-91 | the pass keeps the timestamps of every series |
| SurflineGapFill.FillSpotsErr | app/models/surfline.rb:82 | the pass fails exactly when some spot has no timestamps |
| SurflineGapFill.FillSpotsAt | app/models/surfline.rb:79-91 | after a successful pass, each visited spot is gap-filled and every other spot is as it was |
| SurflineGapFill.FillSpotsErrStays | app/models/surfline.rb:79-91 | once a spot has failed, the whole pass fails with its error |
| SurflineGapFill.GapFillForecasts | app/models/surfline.rb:79-91 | the loop over all spots computes the pass over all spots, error included |
| Surfline.WindFactor | app/models/surfline.rb:12-14 | 1 exactly when the wind flag is `true`, 0.5 exactly when it is nil or `false` |
| Surfline.Round | app/models/surfline.rb:9 | rounding lands within 0.5, and halves go away from zero |
| Surfline.DisplaySwellRating | app/models/surfline.rb:8-10 | nil exactly when the swell rating or the wind flag is nil |
| Surfline.DisplayBounds | app/models/surfline.rb:8-14 | a rating in 0..1 displays in 0..5, in 0..3 without optimal wind, and never above its optimal-wind display |
| Surfline.NumDays | app/models/surfline.rb:113-115 | the environment value when set, else `15` |
| Surfline.ApiUrl | app/models/surfline.rb:29-33 | fails exactly when the Surfline id is blank, naming the spot; otherwise the id in the forecast URL, then the query with days, `getAllSpots` and `usenearshore`; both flags default to true |
| Surfline.ApiUrlIdentifies | app/models/surfline.rb:32 | ids without `?` get equal URLs only when they are equal |
| Surfline.ApiUrlEndsWithNearshore | app/models/surfline.rb:32 | the URL ends with the `usenearshore` flag |
| Surfline.CorrectTimestampFacts | app/models/surfline.rb:98-100 | in the Pacific zone the UTC hour becomes divisible by 3, moving by `3 - r` hours; other zones are unchanged |
| Surfline.AssignValues | app/models/surfline.rb:102-105 | `api_request` is set, and exactly the attributes present in the values are overwritten |
| Surfline.UpsertCellFacts | app/models/surfline.rb:101-106 | the row is saved exactly when it ends with a swell rating, from the values or kept from the stored row; nothing else changes |
| Surfline.UpsertSeriesGrows | app/models/surfline.rb:96-107 | upserting a spot never removes a row, adds rows of that spot only, and leaves other spots' rows alone |
| Surfline.UpsertSeriesRated | app/models/surfline.rb:96-107 | upserting a spot's series writes no row without a swell rating: every row after it is either untouched or rated |
| Surfline.UpsertSpotsRated | app/models/surfline.rb:93-108 | upserting all spots writes no row without a swell rating |
| Surfline.UpsertUnknownSpots | app/models/surfline.rb:93-94 | responses whose id matches no spot leave the rows unchanged |
| Surfline.ExistingRatingPassesGate | app/models/surfline.rb:103-106 | a stored row with a swell rating is saved with new values that bring no rating, and keeps its rating |
| Surfline.ReingestChangesRow | app/models/surfline.rb:96-107 | two raw Pacific instants that snap to one key make a second ingestion change the row |
| Surfline.SaveSeries | app/models/surfline.rb:96-107 | the loop over a spot's timestamps leaves exactly the rows of the upsert fold |
| Surfline.SaveForecasts | app/models/surfline.rb:93-108 | the loop over the spots leaves exactly the rows of the upsert fold over the known spots |
| Surfline.IngestRated | app/models/surfline.rb:39-108 | after a successful ingestion every row is either one stored before, untouched, or one with a swell rating |
| Surfline.ParseResponse | app/models/surfline.rb:39-108 | fails exactly when the gap-fill does, leaving the store unchanged; otherwise the store holds the ingested rows |
| Msw.ApiUrl | app/models/msw.rb:13-17 | fails exactly when the MagicSeaweed id is blank, naming the spot; otherwise the URL with the API key (empty when unset) and the id, then the fixed fields |
| Msw.ApiUrlIdentifies | app/models/msw.rb:16 | with one key, ids without `&` get equal URLs only when they are equal |
| Msw.CorrectTimestampFacts | app/models/msw.rb:25-29 | for a Pacific spot the application-zone hour becomes divisible by 3, moving by `3 - r` hours; other zones are unchanged |
| Msw.OrElse | app/models/msw.rb:32-33 | the breaking height when it is non-nil, else the plain height |
| Msw.Assign | app/models/msw.rb:31-35 | request, both heights with fallback, rating and wind effect are assigned even when nil; other columns are kept |
| Msw.AssignOverwrites | app/models/msw.rb:31-35 | a later assignment overwrites every column an earlier one wrote |
| Msw.ParseAllAt | app/models/msw.rb:24-37 | the row at a key is the old row under the last entry with a rating at that key; without one the row is untouched |
| Msw.ParseAllKeys | app/models/msw.rb:30 | every new row belongs to the spot |
| Msw.ParseAllIdempotent | app/models/msw.rb:24-37 | ingesting the same entries twice gives the rows of once |
| Msw.LaterEntryWins | app/models/msw.rb:24-37 | two entries on one key leave one row, holding the later saved one |
| Msw.ParseData | app/models/msw.rb:23-38 | the loop leaves exactly the rows of the fold over the entries |
| Spitcast.ApiUrl | app/models/spitcast.rb:9-13 | fails exactly when the Spitcast id is blank, naming the spot; otherwise `.../forecast/<id>/?dcat=week` |
| Spitcast.ApiUrlIdentifies | app/models/spitcast.rb:12 | ids without `/` get equal URLs only when they are equal |
| Spitcast.Rating | app/models/spitcast.rb:26-33 | the rating is in 0..5; 0 exactly for an unknown or missing label, else the label's rank on the scale |
| Spitcast.RatingOrdersShapes | app/models/spitcast.rb:26-33 | known labels get distinct positive ratings in scale order |
| Spitcast.Assign | app/models/spitcast.rb:24-33 | request, height and rating are assigned; other columns are kept |
| Spitcast.StepFacts | app/models/spitcast.rb:21-34 | an entry without `gmt` changes nothing; one with `gmt` is always saved at its uncorrected key |
| Spitcast.ParseAllAt | app/models/spitcast.rb:20-35 | the row at a key is the old row under the last entry landing there; without one it is untouched |
| Spitcast.EveryEntrySaved | app/models/spitcast.rb:34 | every entry with `gmt` leaves a row at its key, rated in 0..5 |
| Spitcast.ParseAllIdempotent | app/models/spitcast.rb:20-35 | ingesting the same entries twice gives the rows of once |
| Spitcast.ParseResponse | app/models/spitcast.rb:19-36 | the loop leaves exactly the rows of the fold over the entries |

## Left out

- Time parsing: `zone.parse`, `Time.zone.at` and `Time.zone.parse` are library calls. They are the parameter `parse`, or for MagicSeaweed the identity on epoch seconds.
- Daylight saving time: the application zone of MagicSeaweed is a fixed UTC offset.
- ActiveRecord: `unscoped`, `where`, validations and SQL are replaced by the map in `Store`. Also left out: `default_scope`, `with_rating_and_wind`, `for_chart` with its SQL rounding, and `site_url`.
- HTTP fetching, the `ApiRequest` log, scheduling and concurrent ingestion: outside the ingestion code. A request is an opaque `RequestId`.
- Numbers: BigDecimal and Float values are `real`, so there is no binary rounding. `display_swell_rating` rounds half away from zero, as `BigDecimal#round` does.
- The Surfline payload's parallel arrays are modelled zipped into one cell per `[day][index]`. A payload whose arrays differ in shape is not modelled.
- Malformed payloads are not modelled: missing axes, and values of the wrong type, raise in Ruby.
- The text of the `raise` messages: an error carries the provider, spot name and spot id.
- `Spot` and its subregion: a spot record holds its subregion's zone name.
- `Surfline.ApiUrl`, `Msw.ApiUrl`, `Spitcast.ApiUrl`: whether an id is recovered from its URL is proved only for ids without the separator that follows them (`?`, `&`, `/`).
