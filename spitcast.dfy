/** The Spitcast provider: the request URL and `parse_response`, which turns
    a flat list of hourly entries into rows of one spot. */
module Spitcast {
  import opened Forecast

  /** One hourly entry: `gmt` is the UTC date and hour as text, without the
      minutes; `shapeFull` the surf quality label. */
  datatype Entry = Entry(gmt: Option<string>, sizeFt: Option<real>, shapeFull: Option<string>)

  // ---------------------------------------------------------------------------
  // The request URL

  const UrlHead := "http://api.spitcast.com/api/spot/forecast/"

  const UrlTail := "?dcat=week"

  /** `api_url`: fails when the spot has no Spitcast id; otherwise
      `.../forecast/<id>/?dcat=week`. */
  function ApiUrl(spot: Spot): (r: Result<string, ConfigError>)
    ensures r.Err? <==> IsBlank(spot.spitcastId)
    ensures r.Err? ==> r.error == NoProviderSpot("Spitcast", spot.name, spot.id)
    ensures r.Ok? ==> r.value == UrlHead + spot.spitcastId.value + ['/'] + UrlTail
  {
    if IsBlank(spot.spitcastId) then Err(NoProviderSpot("Spitcast", spot.name, spot.id))
    else Ok(UrlHead + spot.spitcastId.value + "/" + UrlTail)
  }

  /** Two spots whose ids hold no `/` get the same URL only when the ids are
      the same. */
  lemma ApiUrlIdentifies(a: Spot, b: Spot)
    requires ApiUrl(a).Ok? && ApiUrl(b).Ok?
    requires '/' !in a.spitcastId.value && '/' !in b.spitcastId.value
    requires ApiUrl(a).value == ApiUrl(b).value
    ensures a.spitcastId == b.spitcastId
  {
    EmbeddedIdUnique(UrlHead, a.spitcastId.value, b.spitcastId.value, '/', UrlTail, UrlTail);
  }

  // ---------------------------------------------------------------------------
  // One entry

  /** The quality labels from worst to best. */
  const Shapes: seq<string> := ["Poor", "Poor-Fair", "Fair", "Fair-Good", "Good"]

  /** The `case` on `shape_full`: a label's rank on the scale, 1 for `Poor`
      up to 5 for `Good`, and 0 for any other label or none. */
  function Rating(shape: Option<string>): (r: int)
    ensures 0 <= r <= |Shapes|
    ensures r == 0 <==> shape.None? || shape.value !in Shapes
    ensures r > 0 ==> Shapes[r - 1] == shape.value
  {
    if shape == Some("Poor") then 1
    else if shape == Some("Poor-Fair") then 2
    else if shape == Some("Fair") then 3
    else if shape == Some("Fair-Good") then 4
    else if shape == Some("Good") then 5
    else 0
  }

  /** Known labels get distinct ratings, in the order of the scale. */
  lemma RatingOrdersShapes(i: nat, j: nat)
    requires i < j < |Shapes|
    ensures 0 < Rating(Some(Shapes[i])) < Rating(Some(Shapes[j]))
  {
    assert Rating(Some(Shapes[i])) == i + 1 by {
      var r := Rating(Some(Shapes[i]));
      assert Shapes[r - 1] == Shapes[i];
    }
    assert Rating(Some(Shapes[j])) == j + 1 by {
      var r := Rating(Some(Shapes[j]));
      assert Shapes[r - 1] == Shapes[j];
    }
  }

  /** The key of the row an entry with a `gmt` writes: the instant `parse`
      reads from `"<gmt>:00 UTC"`, not corrected. */
  function EntryKey(spot: Spot, parse: string -> Time, gmt: string): Key {
    (spot.id, parse(gmt + ":00 UTC"))
  }

  /** The three assignments of spitcast.rb lines 24-33. */
  function Assign(rec: Record, e: Entry, request: RequestId): (r: Record)
    ensures r.apiRequest == Some(request) && r.height == e.sizeFt
    ensures r.rating == Some(Rating(e.shapeFull))
    ensures r.minHeight == rec.minHeight && r.maxHeight == rec.maxHeight && r.windEffect == rec.windEffect
    ensures r.swellRating == rec.swellRating && r.optimalWind == rec.optimalWind
  {
    rec.(apiRequest := Some(request), height := e.sizeFt, rating := Some(Rating(e.shapeFull)))
  }

  /** The rows after one entry: none is written without a `gmt`, and otherwise
      the gate `rating.present?` is passed, the rating being an integer. */
  function Step(rows: map<Key, Record>, spot: Spot, parse: string -> Time, request: RequestId, e: Entry): map<Key, Record> {
    if e.gmt.None? then rows
    else
      var k := EntryKey(spot, parse, e.gmt.value);
      var rec := Assign(FirstOrInitialize(rows, k), e, request);
      if rec.rating.Some? then rows[k := rec] else rows
  }

  /** An entry without a `gmt` changes nothing; one with a `gmt` is saved,
      whatever its label, over the row stored at its key. */
  lemma StepFacts(rows: map<Key, Record>, spot: Spot, parse: string -> Time, request: RequestId, e: Entry)
    ensures e.gmt.None? ==> Step(rows, spot, parse, request, e) == rows
    ensures e.gmt.Some? ==>
              var k := EntryKey(spot, parse, e.gmt.value);
              Step(rows, spot, parse, request, e) == rows[k := Assign(FirstOrInitialize(rows, k), e, request)]
  {
  }

  /** The rows after the first `n` entries, in order. */
  function ParseAll(rows: map<Key, Record>, spot: Spot, parse: string -> Time, request: RequestId, data: seq<Entry>, n: nat): map<Key, Record>
    requires n <= |data|
  {
    if n == 0 then rows
    else Step(ParseAll(rows, spot, parse, request, data, n - 1), spot, parse, request, data[n - 1])
  }

  /** The key an entry is saved under, or `None` when it has no `gmt`. */
  function SavedKey(spot: Spot, parse: string -> Time, e: Entry): Option<Key> {
    if e.gmt.Some? then Some(EntryKey(spot, parse, e.gmt.value)) else None
  }

  /** The keys the entries are saved under, entry by entry. */
  function Writes(spot: Spot, parse: string -> Time, data: seq<Entry>): seq<Option<Key>> {
    seq(|data|, i requires 0 <= i < |data| => SavedKey(spot, parse, data[i]))
  }

  /** The last entry with a `gmt` at `k` wins: the row there is the earlier row
      (or a blank one) under that entry's assignments, and is untouched when
      no entry lands there. */
  lemma {:induction false} ParseAllAt(rows: map<Key, Record>, spot: Spot, parse: string -> Time, request: RequestId, data: seq<Entry>, n: nat, k: Key)
    requires n <= |data|
    ensures var after := ParseAll(rows, spot, parse, request, data, n);
            match LastWrite(Writes(spot, parse, data), n, k)
            case None => (k in after <==> k in rows) && (k in rows ==> after[k] == rows[k])
            case Some(i) => k in after && after[k] == Assign(FirstOrInitialize(rows, k), data[i], request)
  {
    if n > 0 {
      ParseAllAt(rows, spot, parse, request, data, n - 1, k);
    }
  }

  /** Every entry with a `gmt` leaves a row at its key, unknown labels too,
      rated 0 for an unknown label. */
  lemma EveryEntrySaved(rows: map<Key, Record>, spot: Spot, parse: string -> Time, request: RequestId, data: seq<Entry>, i: nat)
    requires i < |data| && data[i].gmt.Some?
    ensures var k := EntryKey(spot, parse, data[i].gmt.value);
            var after := ParseAll(rows, spot, parse, request, data, |data|);
            k in after && after[k].rating.Some? && 0 <= after[k].rating.value <= |Shapes|
  {
    var k := EntryKey(spot, parse, data[i].gmt.value);
    ParseAllAt(rows, spot, parse, request, data, |data|, k);
    if LastWrite(Writes(spot, parse, data), |data|, k).None? {
      LastWriteIsLast(Writes(spot, parse, data), |data|, k, i);
    }
  }

  /** Ingesting the same entries twice gives the same rows as once. */
  lemma ParseAllIdempotent(rows: map<Key, Record>, spot: Spot, parse: string -> Time, request: RequestId, data: seq<Entry>)
    ensures var once := ParseAll(rows, spot, parse, request, data, |data|);
            ParseAll(once, spot, parse, request, data, |data|) == once
  {
    var once := ParseAll(rows, spot, parse, request, data, |data|);
    var twice := ParseAll(once, spot, parse, request, data, |data|);
    forall k
      ensures (k in twice <==> k in once) && (k in once ==> twice[k] == once[k])
    {
      ParseAllAt(rows, spot, parse, request, data, |data|, k);
      ParseAllAt(once, spot, parse, request, data, |data|, k);
    }
    assert twice.Keys == once.Keys;
  }

  // ---------------------------------------------------------------------------
  // `parse_response` on the store

  /** `Spitcast.parse_response(spot, request, responses)`; `parse` stands for
      `Time.zone.parse`. */
  method ParseResponse(store: Store, spot: Spot, parse: string -> Time, request: RequestId, responses: seq<Entry>)
    modifies store
    ensures store.rows == ParseAll(old(store.rows), spot, parse, request, responses, |responses|)
  {
    ghost var rows0 := store.rows;
    for i := 0 to |responses|
      invariant store.rows == ParseAll(rows0, spot, parse, request, responses, i)
    {
      var response := responses[i];
      if response.gmt.None? {
        continue;
      }
      var k := (spot.id, parse(response.gmt.value + ":00 UTC"));
      var record := FirstOrInitialize(store.rows, k);
      record := record.(apiRequest := Some(request));
      record := record.(height := response.sizeFt);
      var rating := 0;
      match response.shapeFull {
        case Some("Poor") => rating := 1;
        case Some("Poor-Fair") => rating := 2;
        case Some("Fair") => rating := 3;
        case Some("Fair-Good") => rating := 4;
        case Some("Good") => rating := 5;
        case _ =>
      }
      record := record.(rating := Some(rating));
      if record.rating.Some? {
        store.Save(k, record);
      }
    }
  }
}
