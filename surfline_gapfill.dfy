/** The gap-fill pass of `Surfline.parse_response` (surfline.rb lines 79-91):
    for every spot, each interior timestamp, in insertion order, gets the mean
    of the current ratings of its neighbours in that order whenever both are
    non-nil. The guard meant to skip rated timestamps looks up `:swell_rating`
    in the spot's map, whose keys are instants, so it never skips; the model
    has no skip. */
module SurflineGapFill {
  import opened Forecast
  import opened SurflineMerge

  /** `keys[1..-2]` is nil for a spot without timestamps, and iterating it raises. */
  datatype GapError = NoTimestamps(spotId: string)

  /** The number of interior timestamps, `keys[1..-2].length`. */
  function Interior(s: Series): nat {
    if |s.keys| < 2 then 0 else |s.keys| - 2
  }

  /** `a` and `b` carry the same values except perhaps the swell rating. */
  predicate SameButRating(a: Partial, b: Partial) {
    Erase(a, Sort) == Erase(b, Sort)
  }

  /** The mean of the current ratings of the neighbours of `keys[i]`, when both
      are non-nil. */
  function NeighbourMean(s: Series, i: nat): (m: Option<real>)
    requires 1 <= i && i + 1 < |s.keys|
    ensures m.Some? <==> s.At(s.keys[i - 1]).Rating().Some? && s.At(s.keys[i + 1]).Rating().Some?
  {
    var prev := s.At(s.keys[i - 1]).Rating();
    var next := s.At(s.keys[i + 1]).Rating();
    if prev.Some? && next.Some? then Some((prev.value + next.value) / 2.0) else None
  }

  /** The visit of the interior timestamp `keys[i]`. */
  function GapStep(s: Series, i: nat): Series
    requires 1 <= i && i + 1 < |s.keys|
  {
    var m := NeighbourMean(s, i);
    if m.Some? then s.(cells := s.cells[s.keys[i] := s.At(s.keys[i]).(swellRating := Set(m))]) else s
  }

  /** The series after visiting the first `n` interior timestamps. */
  function GapFillFirst(s: Series, n: nat): (r: Series)
    requires n <= Interior(s)
    ensures r.keys == s.keys
  {
    if n == 0 then s else GapStep(GapFillFirst(s, n - 1), n)
  }

  /** The series after the whole gap-fill pass. */
  function GapFilled(s: Series): Series {
    GapFillFirst(s, Interior(s))
  }

  /** One visit changes no other timestamp. */
  lemma GapStepOther(s: Series, i: nat, t: Time)
    requires 1 <= i && i + 1 < |s.keys| && t != s.keys[i]
    ensures GapStep(s, i).At(t) == s.At(t)
  {
  }

  /** One visit changes at most the rating of `keys[i]`, and sets it to the
      mean when both neighbours are rated. */
  lemma GapStepAt(s: Series, i: nat)
    requires 1 <= i && i + 1 < |s.keys|
    ensures SameButRating(GapStep(s, i).At(s.keys[i]), s.At(s.keys[i]))
    ensures GapStep(s, i).At(s.keys[i]).Rating()
         == if NeighbourMean(s, i).Some? then NeighbourMean(s, i) else s.At(s.keys[i]).Rating()
  {
  }

  /** One visit keeps the series well formed. */
  lemma GapStepValid(s: Series, i: nat)
    requires 1 <= i && i + 1 < |s.keys| && s.Valid()
    ensures GapStep(s, i).Valid()
  {
  }

  /** The pass keeps the series well formed. */
  lemma {:induction false} GapFillValid(s: Series, n: nat)
    requires n <= Interior(s) && s.Valid()
    ensures GapFillFirst(s, n).Valid()
  {
    if n > 0 {
      GapFillValid(s, n - 1);
      GapStepValid(GapFillFirst(s, n - 1), n);
    }
  }

  /** The pass changes nothing but swell ratings. */
  lemma {:induction false} GapFillOnlyRatings(s: Series, n: nat, t: Time)
    requires n <= Interior(s)
    ensures SameButRating(GapFillFirst(s, n).At(t), s.At(t))
  {
    if n > 0 {
      var prior := GapFillFirst(s, n - 1);
      GapFillOnlyRatings(s, n - 1, t);
      if t == s.keys[n] {
        GapStepAt(prior, n);
      } else {
        GapStepOther(prior, n, t);
      }
    }
  }

  /** Positions not yet visited, and the first position, still carry their
      original values. */
  lemma {:induction false} GapFillUntouched(s: Series, n: nat, p: nat)
    requires s.Valid() && n <= Interior(s) && p < |s.keys| && (p == 0 || p > n)
    ensures GapFillFirst(s, n).At(s.keys[p]) == s.At(s.keys[p])
  {
    if n > 0 {
      GapFillUntouched(s, n - 1, p);
      GapStepOther(GapFillFirst(s, n - 1), n, s.keys[p]);
    }
  }

  /** A visited position keeps the value its own visit gave it. */
  lemma {:induction false} GapFillSettled(s: Series, n: nat, p: nat)
    requires s.Valid() && 1 <= p <= n <= Interior(s)
    ensures GapFillFirst(s, n).At(s.keys[p]) == GapFillFirst(s, p).At(s.keys[p])
  {
    if n > p {
      GapFillSettled(s, n - 1, p);
      GapStepOther(GapFillFirst(s, n - 1), n, s.keys[p]);
    }
  }

  /** The first and the last timestamp keep their values. */
  lemma GapFillEnds(s: Series)
    requires s.Valid() && |s.keys| > 0
    ensures GapFilled(s).At(s.keys[0]) == s.At(s.keys[0])
    ensures GapFilled(s).At(s.keys[|s.keys| - 1]) == s.At(s.keys[|s.keys| - 1])
  {
    GapFillUntouched(s, Interior(s), 0);
    GapFillUntouched(s, Interior(s), |s.keys| - 1);
  }

  /** The rating of interior position `i` after the pass: the mean of the
      final rating of the previous position (which may itself have been
      filled) and the original rating of the next one when both are non-nil,
      replacing any rating it had; otherwise its original rating. */
  lemma GapFillAt(s: Series, i: nat)
    requires s.Valid() && 1 <= i <= Interior(s)
    ensures var r := GapFilled(s);
            var prev := r.At(s.keys[i - 1]).Rating();
            var next := s.At(s.keys[i + 1]).Rating();
            r.At(s.keys[i]).Rating()
            == if prev.Some? && next.Some? then Some((prev.value + next.value) / 2.0) else s.At(s.keys[i]).Rating()
  {
    var n := Interior(s);
    var before := GapFillFirst(s, i - 1);
    GapFillSettled(s, n, i);
    GapStepAt(before, i);
    GapFillUntouched(s, i - 1, i);
    GapFillUntouched(s, i - 1, i + 1);
    if i > 1 {
      GapFillSettled(s, n, i - 1);
      GapFillSettled(s, i - 1, i - 1);
    } else {
      GapFillUntouched(s, n, 0);
      GapFillUntouched(s, i - 1, 0);
    }
  }

  /** A partial record holding only `swell_rating`. */
  function Rated(x: real): Partial {
    Partial(Unset, Unset, Set(Some(x)), Unset)
  }

  /** A spot rated `2, nil, 4, 6` at four consecutive timestamps: the second
      gets `(2 + 4) / 2 = 3`, and the third, though rated, gets the mean of the
      just-filled `3` and `6`. */
  lemma GapFillExample()
    ensures var s := Series([0, 3600, 7200, 10800], map[0 := Rated(2.0), 3600 := Empty, 7200 := Rated(4.0), 10800 := Rated(6.0)]);
            var r := GapFilled(s);
            && r.At(0).Rating() == Some(2.0)
            && r.At(3600).Rating() == Some(3.0)
            && r.At(7200).Rating() == Some(4.5)
            && r.At(10800).Rating() == Some(6.0)
  {
    var s := Series([0, 3600, 7200, 10800], map[0 := Rated(2.0), 3600 := Empty, 7200 := Rated(4.0), 10800 := Rated(6.0)]);
    assert Interior(s) == 2;
    var s1 := GapStep(s, 1);
    assert NeighbourMean(s, 1) == Some(3.0);
    assert s1 == s.(cells := s.cells[3600 := Rated(3.0)]);
    assert NeighbourMean(s1, 2) == Some(4.5);
    assert GapStep(s1, 2) == s1.(cells := s1.cells[7200 := Rated(4.5)]);
    assert GapFillFirst(s, 1) == s1;
    assert GapFilled(s) == GapFillFirst(s, 2) == GapStep(s1, 2);
  }

  /** Ratings that are all non-negative stay non-negative. */
  ghost predicate RatingsNonNegative(s: Series) {
    forall t :: s.At(t).Rating().Some? ==> s.At(t).Rating().value >= 0.0
  }

  lemma {:induction false} GapFillNonNegative(s: Series, n: nat)
    requires n <= Interior(s) && RatingsNonNegative(s)
    ensures RatingsNonNegative(GapFillFirst(s, n))
  {
    if n > 0 {
      var prior := GapFillFirst(s, n - 1);
      GapFillNonNegative(s, n - 1);
      GapStepAt(prior, n);
      forall t | t != s.keys[n]
        ensures GapStep(prior, n).At(t) == prior.At(t)
      {
        GapStepOther(prior, n, t);
      }
    }
  }

  /** The in-place pass over one spot (`spot_data.keys[1..-2].each_with_index`). */
  method GapFillSpot(spotId: string, s: Series) returns (r: Result<Series, GapError>)
    ensures |s.keys| == 0 ==> r == Err(NoTimestamps(spotId))
    ensures |s.keys| > 0 ==> r == Ok(GapFilled(s))
  {
    if |s.keys| == 0 {
      return Err(NoTimestamps(spotId));
    }
    var keys := s.keys;
    var inner := keys[1..if |keys| < 2 then 1 else |keys| - 1];
    var spotData := s;
    for index := 0 to |inner|
      invariant spotData == GapFillFirst(s, index)
    {
      var tstamp := inner[index];
      var prevTstamp := keys[index];
      var nextTstamp := keys[index + 2];
      var prevRating := spotData.At(prevTstamp).Rating();
      var nextRating := spotData.At(nextTstamp).Rating();
      if prevRating.Some? && nextRating.Some? {
        var values := spotData.At(tstamp).(swellRating := Set(Some((prevRating.value + nextRating.value) / 2.0)));
        spotData := spotData.(cells := spotData.cells[tstamp := values]);
      }
    }
    return Ok(spotData);
  }

  /** Every spot id has a series. */
  predicate Keyed(f: Forecasts) {
    forall k :: 0 <= k < |f.ids| ==> f.ids[k] in f.bySpot
  }

  /** The forecasts after the pass over the first `n` spots, or the error of
      the first spot without timestamps. */
  function FillSpots(f: Forecasts, n: nat): (r: Result<Forecasts, GapError>)
    requires Keyed(f) && n <= |f.ids|
    ensures r.Ok? ==> r.value.ids == f.ids && r.value.bySpot.Keys == f.bySpot.Keys
  {
    if n == 0 then Ok(f)
    else
      match FillSpots(f, n - 1)
      case Err(e) => Err(e)
      case Ok(g) =>
        var id := f.ids[n - 1];
        var s := g.bySpot[id];
        if |s.keys| == 0 then Err(NoTimestamps(id)) else Ok(g.(bySpot := g.bySpot[id := GapFilled(s)]))
  }

  /** The gap-fill pass over every spot, in insertion order. */
  function GapFillAll(f: Forecasts): Result<Forecasts, GapError>
    requires Keyed(f)
  {
    FillSpots(f, |f.ids|)
  }

  /** The pass keeps the timestamps of every series. */
  lemma {:induction false} FillSpotsKeys(f: Forecasts, n: nat, id: string)
    requires Keyed(f) && n <= |f.ids| && id in f.bySpot
    ensures FillSpots(f, n).Ok? ==> FillSpots(f, n).value.bySpot[id].keys == f.bySpot[id].keys
  {
    if n > 0 {
      FillSpotsKeys(f, n - 1, id);
    }
  }

  /** The pass over the first `n` spots fails exactly when one of them has no
      timestamps. */
  lemma {:induction false} FillSpotsErr(f: Forecasts, n: nat)
    requires Keyed(f) && n <= |f.ids|
    ensures FillSpots(f, n).Err? <==> exists k :: 0 <= k < n && |f.bySpot[f.ids[k]].keys| == 0
  {
    if n > 0 {
      FillSpotsErr(f, n - 1);
      FillSpotsKeys(f, n - 1, f.ids[n - 1]);
    }
  }

  /** After a successful pass over the first `n` spots, each of them is
      gap-filled and every other spot is as it was. */
  lemma {:induction false} FillSpotsAt(f: Forecasts, n: nat, k: nat)
    requires Keyed(f) && n <= |f.ids| && k < |f.ids|
    requires forall a, b :: 0 <= a < b < |f.ids| ==> f.ids[a] != f.ids[b]
    ensures FillSpots(f, n).Ok? ==>
              FillSpots(f, n).value.bySpot[f.ids[k]] == if k < n then GapFilled(f.bySpot[f.ids[k]]) else f.bySpot[f.ids[k]]
  {
    if n > 0 {
      FillSpotsAt(f, n - 1, k);
      FillSpotsAt(f, n - 1, n - 1);
    }
  }

  /** Once a spot has failed, the whole pass fails with its error. */
  lemma {:induction false} FillSpotsErrStays(f: Forecasts, k: nat, n: nat)
    requires Keyed(f) && k <= n <= |f.ids| && FillSpots(f, k).Err?
    ensures FillSpots(f, n) == FillSpots(f, k)
  {
    if n > k {
      FillSpotsErrStays(f, k, n - 1);
    }
  }

  /** `forecasts.each_key`: the pass over every spot, in insertion order. */
  method GapFillForecasts(f: Forecasts) returns (r: Result<Forecasts, GapError>)
    requires Keyed(f)
    ensures r == GapFillAll(f)
  {
    var forecasts := f;
    for k := 0 to |f.ids|
      invariant FillSpots(f, k) == Ok(forecasts)
    {
      var spotId := f.ids[k];
      var filled := GapFillSpot(spotId, forecasts.bySpot[spotId]);
      if filled.Err? {
        FillSpotsErrStays(f, k + 1, |f.ids|);
        return Err(filled.error);
      }
      forecasts := forecasts.(bySpot := forecasts.bySpot[spotId := filled.value]);
    }
    return Ok(forecasts);
  }
}
