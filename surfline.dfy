/** The Surfline provider: the request URL, the two display helpers of a
    stored row, and `parse_response` from the payload to the rows it writes. */
module Surfline {
  import opened Forecast
  import opened SurflineMerge
  import opened SurflineGapFill

  // ---------------------------------------------------------------------------
  // Display helpers of a stored row

  /** `optimal_wind ? 1 : 0.5`: only `true` is truthy, nil and `false` are not. */
  function WindFactor(optimalWind: Option<bool>): (w: real)
    ensures w == 1.0 <==> optimalWind == Some(true)
    ensures w == 0.5 <==> optimalWind != Some(true)
  {
    if optimalWind == Some(true) then 1.0 else 0.5
  }

  /** `Numeric#round` to an integer: halves away from zero. */
  function Round(x: real): (n: int)
    ensures x - 0.5 <= n as real <= x + 0.5
    ensures n as real == x + 0.5 ==> x >= 0.0
    ensures n as real == x - 0.5 ==> x < 0.0
  {
    if x >= 0.0 then (x + 0.5).Floor else -((0.5 - x).Floor)
  }

  /** `display_swell_rating`: nil unless both the rating and the wind flag
      are present; otherwise the rating on a 0..5 scale, halved when the wind
      is not optimal, rounded. */
  function DisplaySwellRating(r: Record): (d: Option<int>)
    ensures d.None? <==> r.swellRating.None? || r.optimalWind.None?
  {
    if r.swellRating.None? || r.optimalWind.None? then None
    else Some(Round(r.swellRating.value * 5.0 * WindFactor(r.optimalWind)))
  }

  /** A rating in 0..1 displays as 0..5 with optimal wind and as 0..3 without
      (`2.5` rounds up), and the display never exceeds the optimal-wind one. */
  lemma DisplayBounds(r: Record)
    requires r.swellRating.Some? && r.optimalWind.Some? && 0.0 <= r.swellRating.value <= 1.0
    ensures 0 <= DisplaySwellRating(r).value <= 5
    ensures r.optimalWind == Some(false) ==> DisplaySwellRating(r).value <= 3
    ensures DisplaySwellRating(r).value <= DisplaySwellRating(r.(optimalWind := Some(true))).value
  {
  }

  // ---------------------------------------------------------------------------
  // The request URL

  /** `ENV['SURFLINE_DAYS'] || 15`; any set value, even empty, is used as is. */
  function NumDays(env: Option<string>): (days: string)
    ensures env.Some? ==> days == env.value
    ensures env.None? ==> days == "15"
  {
    if env.Some? then env.value else "15"
  }

  /** A boolean as Ruby interpolates it. */
  function BoolText(b: bool): string {
    if b then "true" else "false"
  }

  const UrlHead := "http://api.surfline.com/v1/forecasts/"

  /** The query up to the `usenearshore` flag. */
  function QueryHead(days: string, getAllSpots: bool): string {
    "resources=surf,wind,sort&days=" + days + "&getAllSpots=" + BoolText(getAllSpots) + "&units=e&interpolate=true&showOptimal=true"
  }

  function NearshoreParam(useNearshore: bool): string {
    "&usenearshore=" + BoolText(useNearshore)
  }

  /** The whole query string. */
  function Query(days: string, getAllSpots: bool, useNearshore: bool): string {
    QueryHead(days, getAllSpots) + NearshoreParam(useNearshore)
  }

  /** `api_url`: fails when the spot has no Surfline id; otherwise the
      forecast URL of that id, whose query carries the number of days,
      `getAllSpots` and, last, `usenearshore`; both flags default to true. */
  function ApiUrl(spot: Spot, env: Option<string>, useNearshore: bool := true, getAllSpots: bool := true): (r: Result<string, ConfigError>)
    ensures r.Err? <==> IsBlank(spot.surflineId)
    ensures r.Err? ==> r.error == NoProviderSpot("Surfline", spot.name, spot.id)
    ensures r.Ok? ==> r.value == UrlHead + spot.surflineId.value + ['?'] + Query(NumDays(env), getAllSpots, useNearshore)
  {
    if IsBlank(spot.surflineId) then Err(NoProviderSpot("Surfline", spot.name, spot.id))
    else Ok(UrlHead + spot.surflineId.value + "?" + Query(NumDays(env), getAllSpots, useNearshore))
  }

  /** Two spots whose Surfline ids hold no `?` get the same URL only when the
      ids are the same. */
  lemma ApiUrlIdentifies(a: Spot, b: Spot, env: Option<string>, useNearshore: bool, getAllSpots: bool)
    requires ApiUrl(a, env, useNearshore, getAllSpots).Ok? && ApiUrl(b, env, useNearshore, getAllSpots).Ok?
    requires '?' !in a.surflineId.value && '?' !in b.surflineId.value
    requires ApiUrl(a, env, useNearshore, getAllSpots).value == ApiUrl(b, env, useNearshore, getAllSpots).value
    ensures a.surflineId == b.surflineId
  {
    var q := Query(NumDays(env), getAllSpots, useNearshore);
    EmbeddedIdUnique(UrlHead, a.surflineId.value, b.surflineId.value, '?', q, q);
  }

  /** The URL ends with `&usenearshore=` and the flag. */
  lemma ApiUrlEndsWithNearshore(spot: Spot, env: Option<string>, useNearshore: bool, getAllSpots: bool)
    requires ApiUrl(spot, env, useNearshore, getAllSpots).Ok?
    ensures var u := ApiUrl(spot, env, useNearshore, getAllSpots).value;
            var tail := NearshoreParam(useNearshore);
            |u| >= |tail| && u[|u| - |tail|..] == tail
  {
  }

  // ---------------------------------------------------------------------------
  // The upsert of the merged forecasts

  /** The Pacific correction of surfline.rb lines 98-100, on the UTC hour. */
  function CorrectTimestamp(zoneName: string, t: Time): Time {
    if zoneName == PacificZone then SnapToThreeHourGrid(t, HourOf(t, 0)) else t
  }

  /** In the Pacific zone the corrected instant has a UTC hour divisible by
      three and lies `3 - r` hours later when the UTC hour leaves remainder
      `r != 0`; in any other zone the instant is kept. */
  lemma CorrectTimestampFacts(zoneName: string, t: Time)
    ensures zoneName == PacificZone ==> HourOf(CorrectTimestamp(zoneName, t), 0) % 3 == 0
    ensures zoneName == PacificZone ==>
              CorrectTimestamp(zoneName, t) - t == (if HourOf(t, 0) % 3 == 0 then 0 else (3 - HourOf(t, 0) % 3) * SecondsPerHour)
    ensures zoneName != PacificZone ==> CorrectTimestamp(zoneName, t) == t
  {
    SnapAligns(t, 0);
  }

  /** `record.api_request = request` and `record[attribute] = value` for every
      attribute the values hold. */
  function AssignValues(rec: Record, values: Partial, request: RequestId): (r: Record)
    ensures r.apiRequest == Some(request)
    ensures r.minHeight == if values.minHeight.Set? then values.minHeight.value else rec.minHeight
    ensures r.maxHeight == if values.maxHeight.Set? then values.maxHeight.value else rec.maxHeight
    ensures r.swellRating == if values.swellRating.Set? then values.swellRating.value else rec.swellRating
    ensures r.optimalWind == if values.optimalWind.Set? then values.optimalWind.value else rec.optimalWind
    ensures r.height == rec.height && r.rating == rec.rating && r.windEffect == rec.windEffect
  {
    rec.(apiRequest := Some(request),
         minHeight := if values.minHeight.Set? then values.minHeight.value else rec.minHeight,
         maxHeight := if values.maxHeight.Set? then values.maxHeight.value else rec.maxHeight,
         swellRating := if values.swellRating.Set? then values.swellRating.value else rec.swellRating,
         optimalWind := if values.optimalWind.Set? then values.optimalWind.value else rec.optimalWind)
  }

  /** The rows after the upsert of one timestamp of a known spot. */
  function UpsertCell(rows: map<Key, Record>, spotId: SpotId, zoneName: string, request: RequestId, t: Time, values: Partial): map<Key, Record> {
    var k := (spotId, CorrectTimestamp(zoneName, t));
    var rec := AssignValues(FirstOrInitialize(rows, k), values, request);
    if rec.swellRating.Some? then rows[k := rec] else rows
  }

  /** The row is saved exactly when it ends up with a swell rating: one the
      values bring, or one it already had when the values bring none. A saved
      row holds the values over what was stored; nothing else changes. */
  lemma UpsertCellFacts(rows: map<Key, Record>, spotId: SpotId, zoneName: string, request: RequestId, t: Time, values: Partial)
    ensures var k := (spotId, CorrectTimestamp(zoneName, t));
            var saved := values.Rating().Some? || (values.swellRating.Unset? && k in rows && rows[k].swellRating.Some?);
            UpsertCell(rows, spotId, zoneName, request, t, values)
            == if saved then rows[k := AssignValues(FirstOrInitialize(rows, k), values, request)] else rows
  {
  }

  /** Every row of `after` is either the row of `before` at that key, untouched,
      or one with a swell rating: the upsert writes no row without one. */
  ghost predicate OnlyRatedWrites(before: map<Key, Record>, after: map<Key, Record>) {
    forall k :: k in after ==> (k in before && after[k] == before[k]) || after[k].swellRating.Some?
  }

  /** Two stages that each write only rated rows write only rated rows. */
  lemma OnlyRatedWritesTrans(a: map<Key, Record>, b: map<Key, Record>, c: map<Key, Record>)
    requires OnlyRatedWrites(a, b) && OnlyRatedWrites(b, c)
    ensures OnlyRatedWrites(a, c)
  {
  }

  /** The rows after the upsert of the first `n` timestamps of a series. */
  function UpsertSeries(rows: map<Key, Record>, spotId: SpotId, zoneName: string, request: RequestId, s: Series, n: nat): map<Key, Record>
    requires n <= |s.keys|
  {
    if n == 0 then rows
    else UpsertCell(UpsertSeries(rows, spotId, zoneName, request, s, n - 1), spotId, zoneName, request, s.keys[n - 1], s.At(s.keys[n - 1]))
  }

  /** The upsert of a series keeps every row and adds rows of that spot only. */
  lemma {:induction false} UpsertSeriesGrows(rows: map<Key, Record>, spotId: SpotId, zoneName: string, request: RequestId, s: Series, n: nat)
    requires n <= |s.keys|
    ensures rows.Keys <= UpsertSeries(rows, spotId, zoneName, request, s, n).Keys
    ensures forall k :: k in UpsertSeries(rows, spotId, zoneName, request, s, n) && k !in rows ==> k.0 == spotId
    ensures forall k :: k in rows && k.0 != spotId ==> UpsertSeries(rows, spotId, zoneName, request, s, n)[k] == rows[k]
  {
    if n > 0 {
      UpsertSeriesGrows(rows, spotId, zoneName, request, s, n - 1);
    }
  }

  /** The upsert of a series writes only rows that have a swell rating. */
  lemma {:induction false} UpsertSeriesRated(rows: map<Key, Record>, spotId: SpotId, zoneName: string, request: RequestId, s: Series, n: nat)
    requires n <= |s.keys|
    ensures OnlyRatedWrites(rows, UpsertSeries(rows, spotId, zoneName, request, s, n))
  {
    if n > 0 {
      var prior := UpsertSeries(rows, spotId, zoneName, request, s, n - 1);
      UpsertSeriesRated(rows, spotId, zoneName, request, s, n - 1);
      assert OnlyRatedWrites(prior, UpsertCell(prior, spotId, zoneName, request, s.keys[n - 1], s.At(s.keys[n - 1])));
      OnlyRatedWritesTrans(rows, prior, UpsertSeries(rows, spotId, zoneName, request, s, n));
    }
  }

  /** The rows after the upsert of the first `n` spots of the forecasts;
      spots no known Spot has as Surfline id are skipped. */
  function UpsertSpots(rows: map<Key, Record>, spots: map<string, Spot>, zoneName: string, request: RequestId, f: Forecasts, n: nat): map<Key, Record>
    requires Keyed(f) && n <= |f.ids|
  {
    if n == 0 then rows
    else
      var prior := UpsertSpots(rows, spots, zoneName, request, f, n - 1);
      var id := f.ids[n - 1];
      if id in spots then UpsertSeries(prior, spots[id].id, zoneName, request, f.bySpot[id], |f.bySpot[id].keys|) else prior
  }

  /** Responses for which no Spot is known leave the rows unchanged. */
  lemma {:induction false} UpsertUnknownSpots(rows: map<Key, Record>, spots: map<string, Spot>, zoneName: string, request: RequestId, f: Forecasts, n: nat)
    requires Keyed(f) && n <= |f.ids|
    requires forall k :: 0 <= k < n ==> f.ids[k] !in spots
    ensures UpsertSpots(rows, spots, zoneName, request, f, n) == rows
  {
    if n > 0 {
      UpsertUnknownSpots(rows, spots, zoneName, request, f, n - 1);
    }
  }

  /** The upsert of all spots writes only rows that have a swell rating. */
  lemma {:induction false} UpsertSpotsRated(rows: map<Key, Record>, spots: map<string, Spot>, zoneName: string, request: RequestId, f: Forecasts, n: nat)
    requires Keyed(f) && n <= |f.ids|
    ensures OnlyRatedWrites(rows, UpsertSpots(rows, spots, zoneName, request, f, n))
  {
    if n > 0 {
      var prior := UpsertSpots(rows, spots, zoneName, request, f, n - 1);
      var id := f.ids[n - 1];
      UpsertSpotsRated(rows, spots, zoneName, request, f, n - 1);
      if id in spots {
        UpsertSeriesRated(prior, spots[id].id, zoneName, request, f.bySpot[id], |f.bySpot[id].keys|);
        OnlyRatedWritesTrans(rows, prior, UpsertSpots(rows, spots, zoneName, request, f, n));
      }
    }
  }

  /** The whole of `parse_response` on the stored rows: the merge, the
      gap-fill (which fails before any row is written for a spot without
      timestamps) and the upsert. */
  function Ingest(rows: map<Key, Record>, spots: map<string, Spot>, zoneName: string, parse: string -> Time, request: RequestId, p: Payload): Result<map<Key, Record>, GapError> {
    var rs := Normalize(p);
    var f := MergeAll(rs, parse, |rs|);
    MergeAllValid(rs, parse, |rs|);
    match GapFillAll(f)
    case Err(e) => Err(e)
    case Ok(g) => Ok(UpsertSpots(rows, spots, zoneName, request, g, |g.ids|))
  }

  /** After a successful ingestion every stored row is either one that was
      there before, untouched, or one with a swell rating. */
  lemma IngestRated(rows: map<Key, Record>, spots: map<string, Spot>, zoneName: string, parse: string -> Time, request: RequestId, p: Payload)
    ensures Ingest(rows, spots, zoneName, parse, request, p).Ok? ==> OnlyRatedWrites(rows, Ingest(rows, spots, zoneName, parse, request, p).value)
  {
    var rs := Normalize(p);
    var f := MergeAll(rs, parse, |rs|);
    MergeAllValid(rs, parse, |rs|);
    var g := GapFillAll(f);
    if g.Ok? {
      UpsertSpotsRated(rows, spots, zoneName, request, g.value, |g.value.ids|);
    }
  }

  /** A stored row with a swell rating is saved again with the new values even
      when they bring no rating; that is, the gate passes on the old rating. */
  lemma ExistingRatingPassesGate(rows: map<Key, Record>, spotId: SpotId, zoneName: string, request: RequestId, t: Time, values: Partial)
    requires var k := (spotId, CorrectTimestamp(zoneName, t)); k in rows && rows[k].swellRating.Some?
    requires values.swellRating.Unset?
    ensures var k := (spotId, CorrectTimestamp(zoneName, t));
            var after := UpsertCell(rows, spotId, zoneName, request, t, values);
            k in after && after[k] == AssignValues(rows[k], values, request) && after[k].swellRating == rows[k].swellRating
  {
    UpsertCellFacts(rows, spotId, zoneName, request, t, values);
  }

  /** Re-ingesting is not idempotent: two raw Pacific instants at 01:00 and
      02:00 UTC both land on 03:00. The first brings only heights and is not
      saved the first time, the second brings the rating; the second time
      round the row already has its rating, so the heights get in as well. */
  lemma ReingestChangesRow()
    ensures var s := Series([3600, 7200], map[3600 := Partial(Set(Some(2.0)), Set(Some(3.0)), Unset, Unset), 7200 := Rated(0.5)]);
            var once := UpsertSeries(map[], 1, PacificZone, 7, s, 2);
            var twice := UpsertSeries(once, 1, PacificZone, 7, s, 2);
            && (1, 10800) in once && once[(1, 10800)].minHeight == None
            && (1, 10800) in twice && twice[(1, 10800)].minHeight == Some(2.0)
            && once != twice
  {
    var heights := Partial(Set(Some(2.0)), Set(Some(3.0)), Unset, Unset);
    var s := Series([3600, 7200], map[3600 := heights, 7200 := Rated(0.5)]);
    assert HourOf(3600, 0) == 1 && HourOf(7200, 0) == 2;
    assert CorrectTimestamp(PacificZone, 3600) == 10800;
    assert CorrectTimestamp(PacificZone, 7200) == 10800;
    var k := (1, 10800);
    assert s.keys[0] == 3600 && s.At(3600) == heights;
    assert s.keys[1] == 7200 && s.At(7200) == Rated(0.5);
    assert UpsertSeries(map[], 1, PacificZone, 7, s, 0) == map[];
    var once1 := UpsertSeries(map[], 1, PacificZone, 7, s, 1);
    assert once1 == UpsertCell(map[], 1, PacificZone, 7, 3600, heights);
    UpsertCellFacts(map[], 1, PacificZone, 7, 3600, heights);
    assert once1 == map[];
    var once := UpsertSeries(map[], 1, PacificZone, 7, s, 2);
    assert once == UpsertCell(once1, 1, PacificZone, 7, 7200, Rated(0.5));
    UpsertCellFacts(once1, 1, PacificZone, 7, 7200, Rated(0.5));
    assert once == map[k := AssignValues(Blank, Rated(0.5), 7)];
    assert UpsertSeries(once, 1, PacificZone, 7, s, 0) == once;
    var twice1 := UpsertSeries(once, 1, PacificZone, 7, s, 1);
    assert twice1 == UpsertCell(once, 1, PacificZone, 7, 3600, heights);
    UpsertCellFacts(once, 1, PacificZone, 7, 3600, heights);
    assert twice1 == once[k := AssignValues(once[k], heights, 7)];
    var twice := UpsertSeries(once, 1, PacificZone, 7, s, 2);
    assert twice == UpsertCell(twice1, 1, PacificZone, 7, 7200, Rated(0.5));
    UpsertCellFacts(twice1, 1, PacificZone, 7, 7200, Rated(0.5));
    assert twice[k].minHeight == Some(2.0);
  }

  // ---------------------------------------------------------------------------
  // `parse_response` on the store

  /** `timestamps.each`: the upsert of every timestamp of one known spot. */
  method SaveSeries(store: Store, spotId: SpotId, zoneName: string, request: RequestId, s: Series)
    modifies store
    ensures store.rows == UpsertSeries(old(store.rows), spotId, zoneName, request, s, |s.keys|)
  {
    ghost var rows0 := store.rows;
    for i := 0 to |s.keys|
      invariant store.rows == UpsertSeries(rows0, spotId, zoneName, request, s, i)
    {
      var timestamp := s.keys[i];
      var values := s.At(timestamp);
      if zoneName == PacificZone {
        var offset := HourOf(timestamp, 0) % 3;
        if offset != 0 {
          timestamp := timestamp + (3 - offset) * SecondsPerHour;
        }
      }
      var record := FirstOrInitialize(store.rows, (spotId, timestamp));
      record := record.(apiRequest := Some(request));
      if values.minHeight.Set? { record := record.(minHeight := values.minHeight.value); }
      if values.maxHeight.Set? { record := record.(maxHeight := values.maxHeight.value); }
      if values.swellRating.Set? { record := record.(swellRating := values.swellRating.value); }
      if values.optimalWind.Set? { record := record.(optimalWind := values.optimalWind.value); }
      if record.swellRating.Some? {
        store.Save((spotId, timestamp), record);
      }
    }
  }

  /** `forecasts.each`: the upsert of every spot a known Spot has as its
      Surfline id, in insertion order. */
  method SaveForecasts(store: Store, spots: map<string, Spot>, zoneName: string, request: RequestId, forecasts: Forecasts)
    requires Keyed(forecasts)
    modifies store
    ensures store.rows == UpsertSpots(old(store.rows), spots, zoneName, request, forecasts, |forecasts.ids|)
  {
    ghost var rows0 := store.rows;
    for n := 0 to |forecasts.ids|
      invariant store.rows == UpsertSpots(rows0, spots, zoneName, request, forecasts, n)
    {
      var surflineId := forecasts.ids[n];
      if surflineId in spots {
        var known := spots[surflineId];
        SaveSeries(store, known.id, zoneName, request, forecasts.bySpot[surflineId]);
      }
    }
  }

  /** `Surfline.parse_response(spot, request, responses)`: `spot` gives the
      zone (its subregion's) in which `parse` reads the time stamps and whose
      name decides the Pacific correction; `spots` is `Spot.find_by` on the
      Surfline id. When the gap-fill fails nothing is written; otherwise the
      store holds the upserted rows. */
  method ParseResponse(store: Store, spot: Spot, spots: map<string, Spot>, parse: string -> Time, request: RequestId, responses: Payload)
    returns (r: Result<(), GapError>)
    modifies store
    ensures r.Err? <==> Ingest(old(store.rows), spots, spot.timezone, parse, request, responses).Err?
    ensures r.Err? ==> store.rows == old(store.rows)
    ensures r.Ok? ==> store.rows == Ingest(old(store.rows), spots, spot.timezone, parse, request, responses).value
  {
    var zoneName := spot.timezone;
    var rs := Normalize(responses);
    var merged := Accumulate(responses, parse);
    MergeAllValid(rs, parse, |rs|);
    var filled := GapFillForecasts(merged);
    if filled.Err? {
      return Err(filled.error);
    }
    SaveForecasts(store, spots, zoneName, request, filled.value);
    return Ok(());
  }
}
