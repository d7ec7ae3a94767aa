/** The MagicSeaweed provider: the request URL and `parse_data`, which turns
    a flat list of forecast entries into rows of one spot. */
module Msw {
  import opened Forecast

  /** The `swell` part of an entry. */
  datatype Swell = Swell(
    absMinBreakingHeight: Option<real>,
    absMaxBreakingHeight: Option<real>,
    absHeight: Option<real>)

  /** One forecast entry; `timestamp` is in seconds since the epoch. */
  datatype Entry = Entry(
    timestamp: Time,
    solidRating: Option<int>,
    fadedRating: Option<int>,
    swell: Swell)

  // ---------------------------------------------------------------------------
  // The request URL

  const UrlHead := "http://magicseaweed.com/api/"

  /** The path up to the spot id; an unset key interpolates as the empty text. */
  function KeyedPath(apiKey: Option<string>): string {
    UrlHead + apiKey.GetOr("") + "/forecast?spot_id="
  }

  const FieldsQuery := "units=us&fields=timestamp,solidRating,fadedRating,swell.absMinBreakingHeight,swell.absMaxBreakingHeight,swell.absHeight"

  /** `api_url`: fails when the spot has no MagicSeaweed id; otherwise the URL
      carries the API key (`ENV['MSW_API_KEY']`) and the id. */
  function ApiUrl(spot: Spot, apiKey: Option<string>): (r: Result<string, ConfigError>)
    ensures r.Err? <==> IsBlank(spot.mswId)
    ensures r.Err? ==> r.error == NoProviderSpot("MagicSeaweed", spot.name, spot.id)
    ensures r.Ok? ==> r.value == KeyedPath(apiKey) + spot.mswId.value + ['&'] + FieldsQuery
  {
    if IsBlank(spot.mswId) then Err(NoProviderSpot("MagicSeaweed", spot.name, spot.id))
    else Ok(KeyedPath(apiKey) + spot.mswId.value + "&" + FieldsQuery)
  }

  /** With one API key, two spots whose ids hold no `&` get the same URL only
      when the ids are the same. */
  lemma ApiUrlIdentifies(a: Spot, b: Spot, apiKey: Option<string>)
    requires ApiUrl(a, apiKey).Ok? && ApiUrl(b, apiKey).Ok?
    requires '&' !in a.mswId.value && '&' !in b.mswId.value
    requires ApiUrl(a, apiKey).value == ApiUrl(b, apiKey).value
    ensures a.mswId == b.mswId
  {
    EmbeddedIdUnique(KeyedPath(apiKey), a.mswId.value, b.mswId.value, '&', FieldsQuery, FieldsQuery);
  }

  // ---------------------------------------------------------------------------
  // One entry

  /** The Pacific correction of msw.rb lines 27-29: by the hour of `t` in the
      application zone, `appOffset` seconds ahead of UTC, and by the name of
      the spot's own zone. */
  function CorrectTimestamp(spotZone: string, appOffset: int, t: Time): Time {
    if spotZone == PacificZone then SnapToThreeHourGrid(t, HourOf(t, appOffset)) else t
  }

  /** In the Pacific zone the corrected instant has an application-zone hour
      divisible by three and lies `3 - r` hours later when that hour leaves
      remainder `r != 0`; in any other zone the instant is kept. */
  lemma CorrectTimestampFacts(spotZone: string, appOffset: int, t: Time)
    ensures spotZone == PacificZone ==> HourOf(CorrectTimestamp(spotZone, appOffset, t), appOffset) % 3 == 0
    ensures spotZone == PacificZone ==>
              CorrectTimestamp(spotZone, appOffset, t) - t
              == (if HourOf(t, appOffset) % 3 == 0 then 0 else (3 - HourOf(t, appOffset) % 3) * SecondsPerHour)
    ensures spotZone != PacificZone ==> CorrectTimestamp(spotZone, appOffset, t) == t
  {
    SnapAligns(t, appOffset);
  }

  /** Ruby's `a || b` on nullable numbers: `a` unless it is nil. */
  function OrElse(a: Option<real>, b: Option<real>): (r: Option<real>)
    ensures r.Some? <==> a.Some? || b.Some?
    ensures a.Some? ==> r == a
    ensures a.None? ==> r == b
  {
    if a.Some? then a else b
  }

  /** The key of the row an entry writes. */
  function EntryKey(spot: Spot, appOffset: int, e: Entry): Key {
    (spot.id, CorrectTimestamp(spot.timezone, appOffset, e.timestamp))
  }

  /** The five assignments of msw.rb lines 31-35, made even when the value is nil. */
  function Assign(rec: Record, e: Entry, request: RequestId): (r: Record)
    ensures r.apiRequest == Some(request)
    ensures r.minHeight == OrElse(e.swell.absMinBreakingHeight, e.swell.absHeight)
    ensures r.maxHeight == OrElse(e.swell.absMaxBreakingHeight, e.swell.absHeight)
    ensures r.rating == e.solidRating && r.windEffect == e.fadedRating
    ensures r.height == rec.height && r.swellRating == rec.swellRating && r.optimalWind == rec.optimalWind
  {
    rec.(apiRequest := Some(request),
         minHeight := OrElse(e.swell.absMinBreakingHeight, e.swell.absHeight),
         maxHeight := OrElse(e.swell.absMaxBreakingHeight, e.swell.absHeight),
         rating := e.solidRating,
         windEffect := e.fadedRating)
  }

  /** A later assignment overwrites every column an earlier one wrote, so a
      second assignment of the same entry changes nothing. */
  lemma AssignOverwrites(rec: Record, e: Entry, e2: Entry, request: RequestId, request2: RequestId)
    ensures Assign(Assign(rec, e, request), e2, request2) == Assign(rec, e2, request2)
  {
  }

  /** The rows after the upsert of one entry; `rating.present?` is true of
      every non-nil integer. */
  function Step(rows: map<Key, Record>, spot: Spot, appOffset: int, request: RequestId, e: Entry): map<Key, Record> {
    var k := EntryKey(spot, appOffset, e);
    var rec := Assign(FirstOrInitialize(rows, k), e, request);
    if rec.rating.Some? then rows[k := rec] else rows
  }

  /** The rows after the upsert of the first `n` entries, in order. */
  function ParseAll(rows: map<Key, Record>, spot: Spot, appOffset: int, request: RequestId, data: seq<Entry>, n: nat): map<Key, Record>
    requires n <= |data|
  {
    if n == 0 then rows
    else Step(ParseAll(rows, spot, appOffset, request, data, n - 1), spot, appOffset, request, data[n - 1])
  }

  /** The key an entry is saved under, or `None` when it has no rating. */
  function SavedKey(spot: Spot, appOffset: int, e: Entry): Option<Key> {
    if e.solidRating.Some? then Some(EntryKey(spot, appOffset, e)) else None
  }

  /** The keys the entries are saved under, entry by entry. */
  function Writes(spot: Spot, appOffset: int, data: seq<Entry>): seq<Option<Key>> {
    seq(|data|, i requires 0 <= i < |data| => SavedKey(spot, appOffset, data[i]))
  }

  /** Entries are applied in order and the last saved one wins: the row at
      `k` is the earlier row (or a blank one) under the assignments of the last
      entry saved there, and is untouched when no entry is saved there. */
  lemma {:induction false} ParseAllAt(rows: map<Key, Record>, spot: Spot, appOffset: int, request: RequestId, data: seq<Entry>, n: nat, k: Key)
    requires n <= |data|
    ensures var after := ParseAll(rows, spot, appOffset, request, data, n);
            match LastWrite(Writes(spot, appOffset, data), n, k)
            case None => (k in after <==> k in rows) && (k in rows ==> after[k] == rows[k])
            case Some(i) => k in after && after[k] == Assign(FirstOrInitialize(rows, k), data[i], request)
  {
    if n > 0 {
      ParseAllAt(rows, spot, appOffset, request, data, n - 1, k);
      var prior := ParseAll(rows, spot, appOffset, request, data, n - 1);
      var e := data[n - 1];
      if EntryKey(spot, appOffset, e) == k && e.solidRating.Some? {
        AssignOverwrites(FirstOrInitialize(rows, k), data[LastWrite(Writes(spot, appOffset, data), n - 1, k).GetOr(0)], e, request, request);
      }
    }
  }

  /** Every row the entries write belongs to the spot. */
  lemma ParseAllKeys(rows: map<Key, Record>, spot: Spot, appOffset: int, request: RequestId, data: seq<Entry>, n: nat, k: Key)
    requires n <= |data|
    requires k in ParseAll(rows, spot, appOffset, request, data, n) && k !in rows
    ensures k.0 == spot.id
  {
    ParseAllAt(rows, spot, appOffset, request, data, n, k);
  }

  /** Ingesting the same entries twice gives the same rows as once. */
  lemma ParseAllIdempotent(rows: map<Key, Record>, spot: Spot, appOffset: int, request: RequestId, data: seq<Entry>)
    ensures var once := ParseAll(rows, spot, appOffset, request, data, |data|);
            ParseAll(once, spot, appOffset, request, data, |data|) == once
  {
    var once := ParseAll(rows, spot, appOffset, request, data, |data|);
    var twice := ParseAll(once, spot, appOffset, request, data, |data|);
    forall k
      ensures (k in twice <==> k in once) && (k in once ==> twice[k] == once[k])
    {
      ParseAllAt(rows, spot, appOffset, request, data, |data|, k);
      ParseAllAt(once, spot, appOffset, request, data, |data|, k);
      var last := LastWrite(Writes(spot, appOffset, data), |data|, k);
      if last.Some? {
        AssignOverwrites(FirstOrInitialize(rows, k), data[last.value], data[last.value], request, request);
      }
    }
    assert twice.Keys == once.Keys;
  }

  /** Two entries that land on one key leave one row, holding the later one
      when it is saved and no entry after it is saved there. */
  lemma LaterEntryWins(rows: map<Key, Record>, spot: Spot, appOffset: int, request: RequestId, data: seq<Entry>, i: nat, j: nat)
    requires i < j < |data|
    requires EntryKey(spot, appOffset, data[i]) == EntryKey(spot, appOffset, data[j])
    requires data[j].solidRating.Some?
    requires forall m :: j < m < |data| ==> SavedKey(spot, appOffset, data[m]) != Some(EntryKey(spot, appOffset, data[j]))
    ensures var k := EntryKey(spot, appOffset, data[j]);
            var after := ParseAll(rows, spot, appOffset, request, data, |data|);
            k in after && after[k] == Assign(FirstOrInitialize(rows, k), data[j], request)
  {
    var k := EntryKey(spot, appOffset, data[j]);
    ParseAllAt(rows, spot, appOffset, request, data, |data|, k);
    var last := LastWrite(Writes(spot, appOffset, data), |data|, k);
    if last.None? || last.value < j {
      LastWriteIsLast(Writes(spot, appOffset, data), |data|, k, j);
    }
  }

  // ---------------------------------------------------------------------------
  // `parse_data` on the store

  /** `Msw.parse_data(spot, request, data)`, with the application zone
      `appOffset` seconds ahead of UTC. */
  method ParseData(store: Store, spot: Spot, appOffset: int, request: RequestId, data: seq<Entry>)
    modifies store
    ensures store.rows == ParseAll(old(store.rows), spot, appOffset, request, data, |data|)
  {
    ghost var rows0 := store.rows;
    for i := 0 to |data|
      invariant store.rows == ParseAll(rows0, spot, appOffset, request, data, i)
    {
      var entry := data[i];
      var tstamp := entry.timestamp;
      if spot.timezone == PacificZone {
        var offset := HourOf(tstamp, appOffset) % 3;
        if offset != 0 {
          tstamp := tstamp + (3 - offset) * SecondsPerHour;
        }
      }
      var record := FirstOrInitialize(store.rows, (spot.id, tstamp));
      record := record.(apiRequest := Some(request));
      record := record.(minHeight := OrElse(entry.swell.absMinBreakingHeight, entry.swell.absHeight));
      record := record.(maxHeight := OrElse(entry.swell.absMaxBreakingHeight, entry.swell.absHeight));
      record := record.(rating := entry.solidRating);
      record := record.(windEffect := entry.fadedRating);
      if record.rating.Some? {
        store.Save((spot.id, tstamp), record);
      }
    }
  }
}
