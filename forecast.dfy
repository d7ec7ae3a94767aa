/** The record schema and record store shared by the three forecast providers
    (the `Forecast` base model), with the small pieces of logic more than one
    provider uses: Ruby's `blank?`, the hour of an instant, the 3-hour snap and
    the average height. */
module Forecast {

  datatype Option<+T> = None | Some(value: T) {
    function GetOr(default: T): T {
      match this
      case Some(v) => v
      case None => default
    }
  }

  datatype Result<+T, +E> = Ok(value: T) | Err(error: E)

  type SpotId = int

  /** An instant, in whole seconds since the Unix epoch. */
  type Time = int

  /** The handle of the fetch attempt (an `ApiRequest` row) that wrote a record. */
  type RequestId = nat

  /** Identity of a forecast row: `(spot_id, timestamp)`. */
  type Key = (SpotId, Time)

  /** A surf spot with the external identifiers of each provider and the name
      of its subregion's time zone. */
  datatype Spot = Spot(
    id: SpotId,
    name: string,
    surflineId: Option<string>,
    mswId: Option<string>,
    spitcastId: Option<string>,
    timezone: string)

  /** One forecast row. Every column is nullable; a provider fills only some. */
  datatype Record = Record(
    apiRequest: Option<RequestId>,
    minHeight: Option<real>,
    maxHeight: Option<real>,
    height: Option<real>,
    rating: Option<int>,
    windEffect: Option<int>,
    swellRating: Option<real>,
    optimalWind: Option<bool>)

  /** The row `first_or_initialize` builds when no row has the key. */
  const Blank := Record(None, None, None, None, None, None, None, None)

  /** The error `api_url` raises when a spot has no identifier for the provider. */
  datatype ConfigError = NoProviderSpot(provider: string, spotName: string, spotId: SpotId)

  /** The stored row at `k`, or a fresh blank row (`first_or_initialize`). */
  function FirstOrInitialize(rows: map<Key, Record>, k: Key): (r: Record)
    ensures k in rows ==> r == rows[k]
    ensures k !in rows ==> r == Blank && r.swellRating.None? && r.rating.None?
  {
    if k in rows then rows[k] else Blank
  }

  /** The persistent forecast table, unique on `(spot_id, timestamp)`. */
  class Store {
    var rows: map<Key, Record>

    constructor ()
      ensures rows == map[]
    {
      rows := map[];
    }

    /** `save!`: inserts the row, or updates the row with the same key. */
    method Save(k: Key, r: Record)
      modifies this
      ensures rows == old(rows)[k := r]
    {
      rows := rows[k := r];
    }
  }

  /** The last of the first `n` writes of a run that goes to `k`, if any.
      Entry `i` of `writes` is the key the run's `i`-th item is saved under,
      or `None` when it is not saved. */
  function LastWrite(writes: seq<Option<Key>>, n: nat, k: Key): (r: Option<nat>)
    requires n <= |writes|
    ensures r.Some? ==> r.value < n && writes[r.value] == Some(k)
  {
    if n == 0 then None
    else if writes[n - 1] == Some(k) then Some(n - 1)
    else LastWrite(writes, n - 1, k)
  }

  /** No write after the last one to `k`, and none at all when there is
      none, goes to `k`. */
  lemma {:induction false} LastWriteIsLast(writes: seq<Option<Key>>, n: nat, k: Key, j: nat)
    requires j < n <= |writes|
    requires LastWrite(writes, n, k).None? || LastWrite(writes, n, k).value < j
    ensures writes[j] != Some(k)
  {
    if j < n - 1 && writes[n - 1] != Some(k) {
      LastWriteIsLast(writes, n - 1, k, j);
    }
  }

  /** Ruby's `[[:space:]]` class (Unicode white space). */
  predicate IsSpace(c: char) {
    c in {' ', '\t', '\n', '\U{000B}', '\U{000C}', '\r', '\U{0085}', '\U{00A0}', '\U{1680}',
          '\U{2028}', '\U{2029}', '\U{202F}', '\U{205F}', '\U{3000}'}
    || '\U{2000}' <= c <= '\U{200A}'
  }

  /** Rails' `blank?` on a nullable string column: nil, empty or only white space. */
  predicate IsBlank(id: Option<string>) {
    id.None? || forall i :: 0 <= i < |id.value| ==> IsSpace(id.value[i])
  }

  /** The longest prefix of `s` without `sep`. */
  function TakeUntil(s: string, sep: char): (t: string)
    ensures |t| <= |s| && t == s[..|t|] && sep !in t
  {
    if |s| == 0 || s[0] == sep then [] else [s[0]] + TakeUntil(s[1..], sep)
  }

  /** An id without `sep`, followed by `sep`, is read back by `TakeUntil`. */
  lemma {:induction false} TakeUntilId(a: string, sep: char, rest: string)
    requires sep !in a
    ensures TakeUntil(a + [sep] + rest, sep) == a
  {
    var s := a + [sep] + rest;
    if |a| == 0 {
      assert s[0] == sep;
    } else {
      assert s[0] == a[0];
      assert s[1..] == a[1..] + [sep] + rest;
      TakeUntilId(a[1..], sep, rest);
      assert [a[0]] + a[1..] == a;
    }
  }

  /** An id that ends at the first `sep` after a fixed head is determined by
      the text it is embedded in. */
  lemma EmbeddedIdUnique(head: string, a: string, b: string, sep: char, ra: string, rb: string)
    requires sep !in a && sep !in b
    requires head + a + [sep] + ra == head + b + [sep] + rb
    ensures a == b
  {
    var u := head + a + [sep] + ra;
    assert u[|head|..] == a + [sep] + ra;
    assert u[|head|..] == b + [sep] + rb;
    TakeUntilId(a, sep, ra);
    TakeUntilId(b, sep, rb);
  }

  const SecondsPerHour := 3600

  /** The hour of the day (0..23) of `t` in a zone `utcOffset` seconds ahead of UTC. */
  function HourOf(t: Time, utcOffset: int): (h: int)
    ensures 0 <= h < 24
  {
    ((t + utcOffset) / SecondsPerHour) % 24
  }

  /** The zone whose timestamps are snapped onto the 3-hour grid. */
  const PacificZone := "Pacific Time (US & Canada)"

  /** Moves `t` forward by `3 - hour % 3` hours when `hour % 3` is not zero. */
  function SnapToThreeHourGrid(t: Time, hour: int): Time {
    var offset := hour % 3;
    if offset != 0 then t + (3 - offset) * SecondsPerHour else t
  }

  /** Adding whole hours adds to the hour count and keeps the rest. */
  lemma AddHours(x: int, k: int)
    ensures (x + k * SecondsPerHour) / SecondsPerHour == x / SecondsPerHour + k
    ensures (x + k * SecondsPerHour) % SecondsPerHour == x % SecondsPerHour
  {
    var q := x / SecondsPerHour;
    var r := x % SecondsPerHour;
    assert x + k * SecondsPerHour == (q + k) * SecondsPerHour + r;
  }

  /** The hour of the day after `k` more hours. */
  lemma AddToHourOfDay(q: int, k: int)
    ensures (q + k) % 24 == (q % 24 + k) % 24
  {
    assert q + k == 24 * (q / 24) + (q % 24 + k);
  }

  /** Snapping by the hour of `t` itself lands on an hour divisible by three,
      moves by exactly `3 - r` hours when the remainder `r` is not zero, and
      keeps the minutes and seconds. */
  lemma SnapAligns(t: Time, utcOffset: int)
    ensures var h := HourOf(t, utcOffset);
            var u := SnapToThreeHourGrid(t, h);
            && HourOf(u, utcOffset) % 3 == 0
            && u - t == (if h % 3 == 0 then 0 else (3 - h % 3) * SecondsPerHour)
            && (u + utcOffset) % SecondsPerHour == (t + utcOffset) % SecondsPerHour
  {
    var x := t + utcOffset;
    var q := x / SecondsPerHour;
    var h := q % 24;
    var k := if h % 3 == 0 then 0 else 3 - h % 3;
    AddHours(x, k);
    AddToHourOfDay(q, k);
    assert (h + k) % 3 == 0;
  }

  /** `avg_height`: the mean of the two heights; nil arithmetic raises, modelled as None. */
  function AvgHeight(r: Record): (a: Option<real>)
    ensures a.Some? <==> r.minHeight.Some? && r.maxHeight.Some?
    ensures a.Some? && r.minHeight.value <= r.maxHeight.value ==>
              r.minHeight.value <= a.value <= r.maxHeight.value
    ensures a.Some? ==> a.value - r.minHeight.value == r.maxHeight.value - a.value
  {
    if r.minHeight.Some? && r.maxHeight.Some? then
      Some((r.minHeight.value + r.maxHeight.value) / 2.0)
    else
      None
  }
}
