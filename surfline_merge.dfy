/** The first half of `Surfline.parse_response`: the payload is normalised to a
    list of spot responses, the Surf, Sort and Wind axes of each are merged into
    an insertion-ordered map `spot_id -> timestamp -> values`, and the interior
    swell ratings of every spot are gap-filled in place. */
module SurflineMerge {
  import opened Forecast

  /** A day-index by intra-day-index grid, as the provider sends every axis. */
  type Grid<T> = seq<seq<T>>

  /** Cell `[day][index]` of the Surf axis: its `dateStamp`, `surf_min` and
      `surf_max` entries. */
  datatype SurfCell = SurfCell(dateStamp: string, surfMin: Option<real>, surfMax: Option<real>)

  /** Cell `[day][index]` of the Sort axis: its `dateStamp` and the entries of
      `optimal1` to `optimal6`. */
  datatype SortCell = SortCell(
    dateStamp: string,
    optimal1: Option<real>, optimal2: Option<real>, optimal3: Option<real>,
    optimal4: Option<real>, optimal5: Option<real>, optimal6: Option<real>)
  {
    /** The sub-scores in the order `(1..6)` visits them. */
    function Scores(): (xs: seq<Option<real>>)
      ensures |xs| == SwellCount
    {
      [optimal1, optimal2, optimal3, optimal4, optimal5, optimal6]
    }
  }

  /** Cell `[day][index]` of the Wind axis: its `dateStamp` and `optimalWind`
      entries. */
  datatype WindCell = WindCell(dateStamp: string, optimalWind: Option<bool>)

  /** One spot's response. Each axis is a grid of cells: the provider's
      parallel arrays (`dateStamp`, `surf_min`, ...) zipped cell by cell. */
  datatype SpotResponse = SpotResponse(id: string, surf: Grid<SurfCell>, sort: Grid<SortCell>, wind: Grid<WindCell>)

  /** The provider sends one object, or an array of them when all spots of the
      region were asked for. */
  datatype Payload = Single(response: SpotResponse) | Batch(responses: seq<SpotResponse>)

  /** Number of swell sub-scores, `optimal1` to `optimal6`. */
  const SwellCount := 6

  /** `responses = [responses] unless responses.is_a? Array` */
  function Normalize(p: Payload): (rs: seq<SpotResponse>)
    ensures p.Single? ==> |rs| == 1 && rs[0] == p.response
    ensures p.Batch? ==> rs == p.responses
  {
    match p
    case Single(r) => [r]
    case Batch(rs) => rs
  }

  // ---------------------------------------------------------------------------
  // Partial records and the insertion-ordered per-spot series

  /** One entry of a `values` hash: `Unset` when the key was never assigned,
      `Set(v)` when it was, `v` being possibly nil. */
  datatype Slot<+T> = Unset | Set(value: Option<T>)

  /** The `values` hash of one timestamp: the attributes the axes assigned. */
  datatype Partial = Partial(minHeight: Slot<real>, maxHeight: Slot<real>, swellRating: Slot<real>, optimalWind: Slot<bool>) {
    /** `values[:swell_rating]`, nil when never assigned. */
    function Rating(): Option<real> {
      if swellRating.Set? then swellRating.value else None
    }
  }

  /** A freshly created `{}`. */
  const Empty := Partial(Unset, Unset, Unset, Unset)

  /** `values` after assigning every attribute that `patch` assigns. */
  function Merge(p: Partial, patch: Partial): Partial {
    Partial(
      if patch.minHeight.Set? then patch.minHeight else p.minHeight,
      if patch.maxHeight.Set? then patch.maxHeight else p.maxHeight,
      if patch.swellRating.Set? then patch.swellRating else p.swellRating,
      if patch.optimalWind.Set? then patch.optimalWind else p.optimalWind)
  }

  datatype AxisKind = Surf | Sort | Wind

  /** `p` without the attributes the axis `ax` writes. */
  function Erase(p: Partial, ax: AxisKind): Partial {
    match ax
    case Surf => p.(minHeight := Unset, maxHeight := Unset)
    case Sort => p.(swellRating := Unset)
    case Wind => p.(optimalWind := Unset)
  }

  /** `forecasts[spot_id]`: timestamps in insertion order and their values. */
  datatype Series = Series(keys: seq<Time>, cells: map<Time, Partial>) {
    ghost predicate Valid() {
      && (forall i, j :: 0 <= i < j < |keys| ==> keys[i] != keys[j])
      && (forall t :: t in cells <==> t in keys)
    }

    /** `self[t]`, reading a missing key as `{}`. */
    function At(t: Time): Partial {
      if t in cells then cells[t] else Empty
    }

    /** `self[t] ||= {}`. */
    function Touch(t: Time): Series {
      if t in cells then this else Series(keys + [t], cells[t := Empty])
    }
  }

  const EmptySeries := Series([], map[])

  /** `self[t] ||= {}` followed by the assignments of `patch`. */
  function Step(s: Series, t: Time, patch: Partial): Series {
    var s1 := s.Touch(t);
    s1.(cells := s1.cells[t := Merge(s1.cells[t], patch)])
  }

  /** One step appends `t` exactly when it is new. */
  lemma StepKeys(s: Series, t: Time, patch: Partial)
    ensures Step(s, t, patch).keys == if t in s.cells then s.keys else s.keys + [t]
    ensures Step(s, t, patch).cells.Keys == s.cells.Keys + {t}
  {
  }

  /** One step keeps the series well formed. */
  lemma StepValid(s: Series, t: Time, patch: Partial)
    requires s.Valid()
    ensures Step(s, t, patch).Valid()
  {
  }

  /** One step merges `patch` into the values at `t` and changes no other
      timestamp. */
  lemma StepAt(s: Series, t: Time, patch: Partial)
    ensures Step(s, t, patch).At(t) == Merge(s.At(t), patch)
    ensures forall u :: u != t ==> Step(s, t, patch).At(u) == s.At(u)
  {
  }

  /** The values hold what the axis `ax` always assigns: both heights for
      Surf (possibly nil), a non-nil, non-negative rating for Sort, the wind
      flag for Wind (possibly nil). */
  predicate Fills(p: Partial, ax: AxisKind) {
    match ax
    case Surf => p.minHeight.Set? && p.maxHeight.Set?
    case Sort => p.Rating().Some? && p.Rating().value >= 0.0
    case Wind => p.optimalWind.Set?
  }

  /** A step whose patch keeps the attributes outside `k` of the values at
      `t` keeps them at every timestamp. */
  lemma StepOnly(s: Series, base: Series, t: Time, patch: Partial, k: AxisKind)
    requires forall u :: Erase(s.At(u), k) == Erase(base.At(u), k)
    requires Erase(Merge(s.At(t), patch), k) == Erase(s.At(t), k)
    ensures forall u :: Erase(Step(s, t, patch).At(u), k) == Erase(base.At(u), k)
  {
    StepAt(s, t, patch);
  }

  /** A step never unfills a timestamp when its patch fills `t`. */
  lemma StepKeepsFills(s: Series, base: Series, t: Time, patch: Partial, k: AxisKind)
    requires forall u :: Fills(base.At(u), k) ==> Fills(s.At(u), k)
    requires Fills(Merge(s.At(t), patch), k)
    ensures forall u :: Fills(base.At(u), k) ==> Fills(Step(s, t, patch).At(u), k)
  {
    StepAt(s, t, patch);
  }

  /** A step whose patch fills `t` adds `t` to the filled timestamps. */
  lemma StepFills(s: Series, done: set<Time>, t: Time, patch: Partial, k: AxisKind)
    requires forall u :: u in done ==> Fills(s.At(u), k)
    requires Fills(Merge(s.At(t), patch), k)
    ensures forall u :: u in done + {t} ==> Fills(Step(s, t, patch).At(u), k)
  {
    StepAt(s, t, patch);
  }

  // ---------------------------------------------------------------------------
  // The three axes and what each cell assigns

  function Max(x: real, y: real): real {
    if x < y then y else x
  }

  /** `BigDecimal#to_d`, with `nil.to_d == 0`. */
  function ToD(x: Option<real>): real {
    x.GetOr(0.0)
  }

  /** The largest of `0` and the sub-scores, as the `(1..6)` loop keeps it. */
  function MaxScore(xs: seq<Option<real>>): (m: real)
    ensures m >= 0.0
  {
    if |xs| == 0 then 0.0 else Max(MaxScore(xs[..|xs| - 1]), ToD(xs[|xs| - 1]))
  }

  /** The best score is at least every sub-score (nil counting as 0), and is
      one of them unless it is 0. */
  lemma {:induction false} MaxScoreBounds(xs: seq<Option<real>>)
    ensures forall k :: 0 <= k < |xs| ==> ToD(xs[k]) <= MaxScore(xs)
    ensures MaxScore(xs) == 0.0 || exists k :: 0 <= k < |xs| && MaxScore(xs) == ToD(xs[k])
  {
    if |xs| > 0 {
      var init := xs[..|xs| - 1];
      MaxScoreBounds(init);
      assert forall k :: 0 <= k < |init| ==> init[k] == xs[k];
    }
  }

  /** One axis of a response. */
  datatype Axis = SurfData(surf: Grid<SurfCell>) | SortData(sort: Grid<SortCell>) | WindData(wind: Grid<WindCell>) {
    function Days(): nat {
      match this
      case SurfData(g) => |g|
      case SortData(g) => |g|
      case WindData(g) => |g|
    }

    function DayLength(d: nat): nat
      requires d < Days()
    {
      match this
      case SurfData(g) => |g[d]|
      case SortData(g) => |g[d]|
      case WindData(g) => |g[d]|
    }

    /** The raw `dateStamp` of cell `(d, j)`. */
    function StampAt(d: nat, j: nat): string
      requires d < Days() && j < DayLength(d)
    {
      match this
      case SurfData(g) => g[d][j].dateStamp
      case SortData(g) => g[d][j].dateStamp
      case WindData(g) => g[d][j].dateStamp
    }

    /** What cell `(d, j)` assigns: both heights for Surf, the best sub-score
        as `swell_rating` for Sort, `optimal_wind` for Wind. */
    function PatchAt(d: nat, j: nat): Partial
      requires d < Days() && j < DayLength(d)
    {
      match this
      case SurfData(g) => Partial(Set(g[d][j].surfMin), Set(g[d][j].surfMax), Unset, Unset)
      case SortData(g) => Partial(Unset, Unset, Set(Some(MaxScore(g[d][j].Scores()))), Unset)
      case WindData(g) => Partial(Unset, Unset, Unset, Set(g[d][j].optimalWind))
    }

    function Kind(): AxisKind {
      match this
      case SurfData(_) => Surf
      case SortData(_) => Sort
      case WindData(_) => Wind
    }
  }

  // ---------------------------------------------------------------------------
  // One pass over an axis, in `each_with_index` order

  /** A point of the walk over an axis: the days before `d` and the first `j`
      cells of day `d` are done. */
  predicate Cursor(ax: Axis, d: nat, j: nat) {
    if d < ax.Days() then j <= ax.DayLength(d) else d == ax.Days() && j == 0
  }

  /** The series once the walk over the axis has reached `(d, j)`. */
  function Pass(s: Series, ax: Axis, parse: string -> Time, d: nat, j: nat): Series
    requires Cursor(ax, d, j)
    decreases d, j
  {
    if j > 0 then Step(Pass(s, ax, parse, d, j - 1), parse(ax.StampAt(d, j - 1)), ax.PatchAt(d, j - 1))
    else if d > 0 then Pass(s, ax, parse, d - 1, ax.DayLength(d - 1))
    else s
  }

  /** The series after the whole pass over the axis. */
  function AxisPass(s: Series, ax: Axis, parse: string -> Time): Series {
    Pass(s, ax, parse, ax.Days(), 0)
  }

  /** The timestamps of the cells before `(d, j)`. */
  ghost function Stamped(ax: Axis, parse: string -> Time, d: nat, j: nat): set<Time>
    requires Cursor(ax, d, j)
    decreases d, j
  {
    if j > 0 then Stamped(ax, parse, d, j - 1) + {parse(ax.StampAt(d, j - 1))}
    else if d > 0 then Stamped(ax, parse, d - 1, ax.DayLength(d - 1))
    else {}
  }

  /** The timestamps of every cell of the axis. */
  ghost function AxisTimes(ax: Axis, parse: string -> Time): set<Time> {
    Stamped(ax, parse, ax.Days(), 0)
  }

  /** A timestamp is stamped before `(d, j)` exactly when some cell before
      `(d, j)` carries it. */
  lemma {:induction false} StampedMember(ax: Axis, parse: string -> Time, d: nat, j: nat, t: Time)
    requires Cursor(ax, d, j)
    ensures t in Stamped(ax, parse, d, j)
        <==> exists e, i :: 0 <= e <= d && e < ax.Days() && 0 <= i < ax.DayLength(e) && (e < d || i < j) && parse(ax.StampAt(e, i)) == t
    decreases d, j
  {
    if j > 0 {
      StampedMember(ax, parse, d, j - 1, t);
      if parse(ax.StampAt(d, j - 1)) == t {
        assert 0 <= d <= d && d < ax.Days() && 0 <= j - 1 < ax.DayLength(d) && (d < d || j - 1 < j) && parse(ax.StampAt(d, j - 1)) == t;
      }
    } else if d > 0 {
      StampedMember(ax, parse, d - 1, ax.DayLength(d - 1), t);
    }
  }

  /** Reaching the next cell of day `d` is one more step. */
  lemma PassNext(s: Series, ax: Axis, parse: string -> Time, d: nat, j: nat)
    requires d < ax.Days() && j < ax.DayLength(d)
    ensures Pass(s, ax, parse, d, j + 1) == Step(Pass(s, ax, parse, d, j), parse(ax.StampAt(d, j)), ax.PatchAt(d, j))
  {
  }

  /** The walk creates exactly the timestamps it stamps. */
  lemma {:induction false} PassKeys(s: Series, ax: Axis, parse: string -> Time, d: nat, j: nat)
    requires Cursor(ax, d, j)
    ensures Pass(s, ax, parse, d, j).cells.Keys == s.cells.Keys + Stamped(ax, parse, d, j)
    decreases d, j
  {
    if j > 0 {
      PassKeys(s, ax, parse, d, j - 1);
      PassNext(s, ax, parse, d, j - 1);
      StepKeys(Pass(s, ax, parse, d, j - 1), parse(ax.StampAt(d, j - 1)), ax.PatchAt(d, j - 1));
    } else if d > 0 {
      PassKeys(s, ax, parse, d - 1, ax.DayLength(d - 1));
    }
  }

  /** The walk keeps the series well formed. */
  lemma {:induction false} PassValid(s: Series, ax: Axis, parse: string -> Time, d: nat, j: nat)
    requires Cursor(ax, d, j) && s.Valid()
    ensures Pass(s, ax, parse, d, j).Valid()
    decreases d, j
  {
    if j > 0 {
      PassValid(s, ax, parse, d, j - 1);
      PassNext(s, ax, parse, d, j - 1);
      StepValid(Pass(s, ax, parse, d, j - 1), parse(ax.StampAt(d, j - 1)), ax.PatchAt(d, j - 1));
    } else if d > 0 {
      PassValid(s, ax, parse, d - 1, ax.DayLength(d - 1));
    }
  }

  /** Every cell of an axis assigns only attributes of that axis. */
  lemma PatchOnly(p: Partial, ax: Axis, d: nat, j: nat)
    requires d < ax.Days() && j < ax.DayLength(d)
    ensures Erase(Merge(p, ax.PatchAt(d, j)), ax.Kind()) == Erase(p, ax.Kind())
  {
  }

  /** The walk leaves every attribute of other axes of every timestamp as it
      was (or unset, for a new timestamp). */
  lemma {:induction false} PassOnly(s: Series, ax: Axis, parse: string -> Time, d: nat, j: nat)
    requires Cursor(ax, d, j)
    ensures forall t :: Erase(Pass(s, ax, parse, d, j).At(t), ax.Kind()) == Erase(s.At(t), ax.Kind())
    decreases d, j
  {
    if j > 0 {
      var prior := Pass(s, ax, parse, d, j - 1);
      var t := parse(ax.StampAt(d, j - 1));
      PassOnly(s, ax, parse, d, j - 1);
      PassNext(s, ax, parse, d, j - 1);
      PatchOnly(prior.At(t), ax, d, j - 1);
      StepOnly(prior, s, t, ax.PatchAt(d, j - 1), ax.Kind());
    } else if d > 0 {
      PassOnly(s, ax, parse, d - 1, ax.DayLength(d - 1));
    }
  }

  /** What one axis fills survives the writes of another axis. */
  lemma FillsErase(p: Partial, ax: AxisKind, other: AxisKind)
    requires ax != other
    ensures Fills(Erase(p, other), ax) == Fills(p, ax)
  {
  }

  /** Every cell of an axis fills that axis. */
  lemma PatchFills(p: Partial, ax: Axis, d: nat, j: nat)
    requires d < ax.Days() && j < ax.DayLength(d)
    ensures Fills(Merge(p, ax.PatchAt(d, j)), ax.Kind())
  {
  }

  /** No timestamp filled for the axis loses it during the walk. */
  lemma {:induction false} PassKeepsFills(s: Series, ax: Axis, parse: string -> Time, d: nat, j: nat)
    requires Cursor(ax, d, j)
    ensures forall t :: Fills(s.At(t), ax.Kind()) ==> Fills(Pass(s, ax, parse, d, j).At(t), ax.Kind())
    decreases d, j
  {
    if j > 0 {
      var prior := Pass(s, ax, parse, d, j - 1);
      var t := parse(ax.StampAt(d, j - 1));
      PassKeepsFills(s, ax, parse, d, j - 1);
      PassNext(s, ax, parse, d, j - 1);
      PatchFills(prior.At(t), ax, d, j - 1);
      StepKeepsFills(prior, s, t, ax.PatchAt(d, j - 1), ax.Kind());
    } else if d > 0 {
      PassKeepsFills(s, ax, parse, d - 1, ax.DayLength(d - 1));
    }
  }

  /** Every timestamp stamped before `(d, j)` is filled for the axis. */
  lemma {:induction false} PassFills(s: Series, ax: Axis, parse: string -> Time, d: nat, j: nat)
    requires Cursor(ax, d, j)
    ensures forall t :: t in Stamped(ax, parse, d, j) ==> Fills(Pass(s, ax, parse, d, j).At(t), ax.Kind())
    decreases d, j
  {
    if j > 0 {
      var prior := Pass(s, ax, parse, d, j - 1);
      var t := parse(ax.StampAt(d, j - 1));
      PassFills(s, ax, parse, d, j - 1);
      PassNext(s, ax, parse, d, j - 1);
      PatchFills(prior.At(t), ax, d, j - 1);
      StepFills(prior, Stamped(ax, parse, d, j - 1), t, ax.PatchAt(d, j - 1), ax.Kind());
    } else if d > 0 {
      PassFills(s, ax, parse, d - 1, ax.DayLength(d - 1));
    }
  }

  /** The attributes of `p` that the axis `ax` writes, the others unset. */
  function Own(p: Partial, ax: AxisKind): Partial {
    match ax
    case Surf => Partial(p.minHeight, p.maxHeight, Unset, Unset)
    case Sort => Partial(Unset, Unset, p.swellRating, Unset)
    case Wind => Partial(Unset, Unset, Unset, p.optimalWind)
  }

  /** A cell overwrites every attribute of its own axis. */
  lemma OwnMerge(p: Partial, ax: Axis, d: nat, j: nat)
    requires d < ax.Days() && j < ax.DayLength(d)
    ensures Own(Merge(p, ax.PatchAt(d, j)), ax.Kind()) == Own(ax.PatchAt(d, j), ax.Kind())
  {
  }

  /** The last cell before `(d, j)`, in walk order, whose time stamp is `t`. */
  function LastCell(ax: Axis, parse: string -> Time, d: nat, j: nat, t: Time): (c: Option<(nat, nat)>)
    requires Cursor(ax, d, j)
    ensures c.Some? ==> && c.value.0 <= d && c.value.0 < ax.Days() && c.value.1 < ax.DayLength(c.value.0)
                        && (c.value.0 < d || c.value.1 < j) && parse(ax.StampAt(c.value.0, c.value.1)) == t
    decreases d, j
  {
    if j > 0 then
      if parse(ax.StampAt(d, j - 1)) == t then Some((d, j - 1)) else LastCell(ax, parse, d, j - 1, t)
    else if d > 0 then LastCell(ax, parse, d - 1, ax.DayLength(d - 1), t)
    else None
  }

  /** There is no last cell stamped `t` exactly when no cell is. */
  lemma {:induction false} LastCellNone(ax: Axis, parse: string -> Time, d: nat, j: nat, t: Time)
    requires Cursor(ax, d, j)
    ensures LastCell(ax, parse, d, j, t).None? <==> t !in Stamped(ax, parse, d, j)
    decreases d, j
  {
    if j > 0 {
      LastCellNone(ax, parse, d, j - 1, t);
    } else if d > 0 {
      LastCellNone(ax, parse, d - 1, ax.DayLength(d - 1), t);
    }
  }

  /** No cell after the last one stamped `t`, and before `(d, j)`, is stamped `t`. */
  lemma {:induction false} LastCellIsLast(ax: Axis, parse: string -> Time, d: nat, j: nat, t: Time, e: nat, i: nat)
    requires Cursor(ax, d, j)
    requires e < ax.Days() && i < ax.DayLength(e) && (e < d || (e == d && i < j))
    requires match LastCell(ax, parse, d, j, t)
             case None => true
             case Some((e0, i0)) => e0 < e || (e0 == e && i0 < i)
    ensures parse(ax.StampAt(e, i)) != t
    decreases d, j
  {
    if j > 0 {
      if !(e == d && i == j - 1) {
        LastCellIsLast(ax, parse, d, j - 1, t, e, i);
      }
    } else if d > 0 {
      LastCellIsLast(ax, parse, d - 1, ax.DayLength(d - 1), t, e, i);
    }
  }

  /** The values at `t` after the walk: those before it when no cell so far is
      stamped `t`; otherwise the walk's own attributes are those of the last
      cell stamped `t`. */
  lemma {:induction false} PassAt(s: Series, ax: Axis, parse: string -> Time, d: nat, j: nat, t: Time)
    requires Cursor(ax, d, j)
    ensures match LastCell(ax, parse, d, j, t)
            case None => Pass(s, ax, parse, d, j).At(t) == s.At(t)
            case Some((e, i)) => Own(Pass(s, ax, parse, d, j).At(t), ax.Kind()) == Own(ax.PatchAt(e, i), ax.Kind())
    decreases d, j
  {
    if j > 0 {
      var prior := Pass(s, ax, parse, d, j - 1);
      var u := parse(ax.StampAt(d, j - 1));
      PassAt(s, ax, parse, d, j - 1, t);
      PassNext(s, ax, parse, d, j - 1);
      StepAt(prior, u, ax.PatchAt(d, j - 1));
      if u == t {
        OwnMerge(prior.At(t), ax, d, j - 1);
      }
    } else if d > 0 {
      PassAt(s, ax, parse, d - 1, ax.DayLength(d - 1), t);
    }
  }

  /** A whole pass keeps the series well formed, creates exactly the stamped
      timestamps, assigns no attribute of another axis, leaves every stamped
      timestamp filled for its own axis and every other timestamp as it was. */
  lemma AxisPassFacts(s: Series, ax: Axis, parse: string -> Time)
    ensures s.Valid() ==> AxisPass(s, ax, parse).Valid()
    ensures AxisPass(s, ax, parse).cells.Keys == s.cells.Keys + AxisTimes(ax, parse)
    ensures forall t :: Erase(AxisPass(s, ax, parse).At(t), ax.Kind()) == Erase(s.At(t), ax.Kind())
    ensures forall t :: Fills(s.At(t), ax.Kind()) ==> Fills(AxisPass(s, ax, parse).At(t), ax.Kind())
    ensures forall t :: t in AxisTimes(ax, parse) ==> Fills(AxisPass(s, ax, parse).At(t), ax.Kind())
    ensures forall t :: t !in AxisTimes(ax, parse) ==> AxisPass(s, ax, parse).At(t) == s.At(t)
  {
    var n := ax.Days();
    forall t | t !in AxisTimes(ax, parse)
      ensures AxisPass(s, ax, parse).At(t) == s.At(t)
    {
      LastCellNone(ax, parse, n, 0, t);
      PassAt(s, ax, parse, n, 0, t);
    }
    if s.Valid() {
      PassValid(s, ax, parse, n, 0);
    }
    PassKeys(s, ax, parse, n, 0);
    PassOnly(s, ax, parse, n, 0);
    PassKeepsFills(s, ax, parse, n, 0);
    PassFills(s, ax, parse, n, 0);
  }

  // ---------------------------------------------------------------------------
  // The passes as the source runs them

  /** The Surf cells of day `d`, one by one (the inner `each_with_index`);
      `s0` is the series before the pass. */
  method MergeSurfDay(s: Series, g: Grid<SurfCell>, d: nat, parse: string -> Time, ghost s0: Series) returns (r: Series)
    requires d < |g| && s == Pass(s0, SurfData(g), parse, d, 0)
    ensures r == Pass(s0, SurfData(g), parse, d + 1, 0)
  {
    var day := g[d];
    r := s;
    var j := 0;
    while j < |day|
      invariant 0 <= j <= |day|
      invariant r == Pass(s0, SurfData(g), parse, d, j)
    {
      ghost var prior := r;
      var tstamp := parse(day[j].dateStamp);
      r := r.Touch(tstamp);
      var values := r.cells[tstamp];
      values := values.(minHeight := Set(day[j].surfMin));
      values := values.(maxHeight := Set(day[j].surfMax));
      r := r.(cells := r.cells[tstamp := values]);
      PassNext(s0, SurfData(g), parse, d, j);
      assert r == Step(prior, tstamp, SurfData(g).PatchAt(d, j));
      j := j + 1;
    }
  }

  /** The Surf pass over one series, day by day. */
  method MergeSurf(s: Series, g: Grid<SurfCell>, parse: string -> Time) returns (r: Series)
    ensures r == AxisPass(s, SurfData(g), parse)
  {
    r := s;
    var d := 0;
    while d < |g|
      invariant 0 <= d <= |g|
      invariant r == Pass(s, SurfData(g), parse, d, 0)
    {
      r := MergeSurfDay(r, g, d, parse, s);
      d := d + 1;
    }
  }

  /** `max_swell_rating` of one Sort cell, over `optimal1` to `optimal6`. */
  method SwellRatingAt(c: SortCell) returns (maxSwellRating: real)
    ensures maxSwellRating == MaxScore(c.Scores())
  {
    var scores := c.Scores();
    maxSwellRating := 0.0;
    for k := 0 to SwellCount
      invariant maxSwellRating == MaxScore(scores[..k])
    {
      assert scores[..k + 1][..k] == scores[..k];
      maxSwellRating := Max(maxSwellRating, ToD(scores[k]));
    }
    assert scores[..SwellCount] == scores;
  }

  /** The Sort cells of day `d`, one by one (the inner `each_with_index`);
      `s0` is the series before the pass. */
  method MergeSortDay(s: Series, g: Grid<SortCell>, d: nat, parse: string -> Time, ghost s0: Series) returns (r: Series)
    requires d < |g| && s == Pass(s0, SortData(g), parse, d, 0)
    ensures r == Pass(s0, SortData(g), parse, d + 1, 0)
  {
    var day := g[d];
    r := s;
    var j := 0;
    while j < |day|
      invariant 0 <= j <= |day|
      invariant r == Pass(s0, SortData(g), parse, d, j)
    {
      ghost var prior := r;
      var tstamp := parse(day[j].dateStamp);
      r := r.Touch(tstamp);
      var maxSwellRating := SwellRatingAt(day[j]);
      var values := r.cells[tstamp].(swellRating := Set(Some(maxSwellRating)));
      r := r.(cells := r.cells[tstamp := values]);
      PassNext(s0, SortData(g), parse, d, j);
      assert r == Step(prior, tstamp, SortData(g).PatchAt(d, j));
      j := j + 1;
    }
  }

  /** The Sort pass over one series, day by day. */
  method MergeSort(s: Series, g: Grid<SortCell>, parse: string -> Time) returns (r: Series)
    ensures r == AxisPass(s, SortData(g), parse)
  {
    r := s;
    var d := 0;
    while d < |g|
      invariant 0 <= d <= |g|
      invariant r == Pass(s, SortData(g), parse, d, 0)
    {
      r := MergeSortDay(r, g, d, parse, s);
      d := d + 1;
    }
  }

  /** The Wind cells of day `d`, one by one (the inner `each_with_index`);
      `s0` is the series before the pass. */
  method MergeWindDay(s: Series, g: Grid<WindCell>, d: nat, parse: string -> Time, ghost s0: Series) returns (r: Series)
    requires d < |g| && s == Pass(s0, WindData(g), parse, d, 0)
    ensures r == Pass(s0, WindData(g), parse, d + 1, 0)
  {
    var day := g[d];
    r := s;
    var j := 0;
    while j < |day|
      invariant 0 <= j <= |day|
      invariant r == Pass(s0, WindData(g), parse, d, j)
    {
      ghost var prior := r;
      var tstamp := parse(day[j].dateStamp);
      r := r.Touch(tstamp);
      var values := r.cells[tstamp].(optimalWind := Set(day[j].optimalWind));
      r := r.(cells := r.cells[tstamp := values]);
      PassNext(s0, WindData(g), parse, d, j);
      assert r == Step(prior, tstamp, WindData(g).PatchAt(d, j));
      j := j + 1;
    }
  }

  /** The Wind pass over one series, day by day. */
  method MergeWind(s: Series, g: Grid<WindCell>, parse: string -> Time) returns (r: Series)
    ensures r == AxisPass(s, WindData(g), parse)
  {
    r := s;
    var d := 0;
    while d < |g|
      invariant 0 <= d <= |g|
      invariant r == Pass(s, WindData(g), parse, d, 0)
    {
      r := MergeWindDay(r, g, d, parse, s);
      d := d + 1;
    }
  }

  // ---------------------------------------------------------------------------
  // One response, and the whole payload

  /** The series after a pass over each axis in turn. */
  function Passes(s: Series, axes: seq<Axis>, parse: string -> Time): Series
    decreases |axes|
  {
    if |axes| == 0 then s else Passes(AxisPass(s, axes[0], parse), axes[1..], parse)
  }

  /** The axes of a response in the order the source runs them. */
  function AxesOf(r: SpotResponse): (axes: seq<Axis>)
    ensures |axes| == 3
  {
    [SurfData(r.surf), SortData(r.sort), WindData(r.wind)]
  }

  /** The series of one response after its Surf, Sort and Wind passes. */
  function ResponsePass(s: Series, r: SpotResponse, parse: string -> Time): Series
  {
    Passes(s, AxesOf(r), parse)
  }

  /** The three passes one after the other. */
  lemma ResponsePassIs(s: Series, r: SpotResponse, parse: string -> Time)
    ensures ResponsePass(s, r, parse)
         == AxisPass(AxisPass(AxisPass(s, SurfData(r.surf), parse), SortData(r.sort), parse), WindData(r.wind), parse)
  {
    var axes := AxesOf(r);
    var s1 := AxisPass(s, SurfData(r.surf), parse);
    var s2 := AxisPass(s1, SortData(r.sort), parse);
    var s3 := AxisPass(s2, WindData(r.wind), parse);
    assert axes[1..] == [SortData(r.sort), WindData(r.wind)];
    assert axes[1..][1..] == [WindData(r.wind)];
    assert axes[1..][1..][1..] == [];
    calc {
      Passes(s, axes, parse);
      Passes(s1, axes[1..], parse);
      Passes(s2, axes[1..][1..], parse);
      Passes(s3, axes[1..][1..][1..], parse);
      s3;
    }
  }

  /** After the three passes: every timestamp seen on any axis has an entry and
      no other timestamp is new; heights come from the Surf pass and the rating
      from the Sort pass untouched by the later passes; and each axis's
      timestamps are filled for that axis, every Sort timestamp with a
      non-negative rating. */
  lemma ResponseFacts(s: Series, r: SpotResponse, parse: string -> Time)
    ensures ResponsePass(s, r, parse).cells.Keys
         == s.cells.Keys + AxisTimes(SurfData(r.surf), parse) + AxisTimes(SortData(r.sort), parse) + AxisTimes(WindData(r.wind), parse)
    ensures forall t ::
              && ResponsePass(s, r, parse).At(t).minHeight == AxisPass(s, SurfData(r.surf), parse).At(t).minHeight
              && ResponsePass(s, r, parse).At(t).maxHeight == AxisPass(s, SurfData(r.surf), parse).At(t).maxHeight
    ensures forall t ::
              ResponsePass(s, r, parse).At(t).swellRating
              == AxisPass(AxisPass(s, SurfData(r.surf), parse), SortData(r.sort), parse).At(t).swellRating
    ensures forall t :: t in AxisTimes(SurfData(r.surf), parse) ==> Fills(ResponsePass(s, r, parse).At(t), Surf)
    ensures forall t :: t in AxisTimes(SortData(r.sort), parse) ==> Fills(ResponsePass(s, r, parse).At(t), Sort)
    ensures forall t :: t in AxisTimes(WindData(r.wind), parse) ==> Fills(ResponsePass(s, r, parse).At(t), Wind)
  {
    var s1 := AxisPass(s, SurfData(r.surf), parse);
    var s2 := AxisPass(s1, SortData(r.sort), parse);
    var s3 := AxisPass(s2, WindData(r.wind), parse);
    ResponsePassIs(s, r, parse);
    AxisPassFacts(s, SurfData(r.surf), parse);
    AxisPassFacts(s1, SortData(r.sort), parse);
    AxisPassFacts(s2, WindData(r.wind), parse);
    forall t
      ensures t in AxisTimes(SurfData(r.surf), parse) ==> Fills(s3.At(t), Surf)
      ensures t in AxisTimes(SortData(r.sort), parse) ==> Fills(s3.At(t), Sort)
    {
      FillsErase(s1.At(t), Surf, Sort);
      FillsErase(s2.At(t), Surf, Sort);
      FillsErase(s2.At(t), Surf, Wind);
      FillsErase(s3.At(t), Surf, Wind);
      FillsErase(s2.At(t), Sort, Wind);
      FillsErase(s3.At(t), Sort, Wind);
    }
  }

  /** The three passes keep a series well formed. */
  lemma ResponseValid(s: Series, r: SpotResponse, parse: string -> Time)
    requires s.Valid()
    ensures ResponsePass(s, r, parse).Valid()
  {
    var s1 := AxisPass(s, SurfData(r.surf), parse);
    var s2 := AxisPass(s1, SortData(r.sort), parse);
    ResponsePassIs(s, r, parse);
    AxisPassFacts(s, SurfData(r.surf), parse);
    AxisPassFacts(s1, SortData(r.sort), parse);
    AxisPassFacts(s2, WindData(r.wind), parse);
  }

  /** The swell rating after a response: the one at `t` before it when no Sort
      cell is stamped `t`, else the best sub-score of the last Sort cell
      stamped `t`. */
  lemma ResponseRating(s: Series, r: SpotResponse, parse: string -> Time, t: Time)
    ensures t !in AxisTimes(SortData(r.sort), parse) ==> ResponsePass(s, r, parse).At(t).swellRating == s.At(t).swellRating
    ensures match LastCell(SortData(r.sort), parse, |r.sort|, 0, t)
            case None => ResponsePass(s, r, parse).At(t).swellRating == s.At(t).swellRating
            case Some((e, i)) => ResponsePass(s, r, parse).At(t).Rating() == Some(MaxScore(r.sort[e][i].Scores()))
  {
    var s1 := AxisPass(s, SurfData(r.surf), parse);
    ResponseFacts(s, r, parse);
    AxisPassFacts(s, SurfData(r.surf), parse);
    assert Erase(s1.At(t), Surf).swellRating == Erase(s.At(t), Surf).swellRating;
    PassAt(s1, SortData(r.sort), parse, |r.sort|, 0, t);
    LastCellNone(SortData(r.sort), parse, |r.sort|, 0, t);
  }

  /** `forecasts`: the spot ids in insertion order and the series of each. */
  datatype Forecasts = Forecasts(ids: seq<string>, bySpot: map<string, Series>) {
    ghost predicate Valid() {
      && (forall i, j :: 0 <= i < j < |ids| ==> ids[i] != ids[j])
      && (forall id :: id in bySpot <==> id in ids)
      && (forall id :: id in bySpot ==> bySpot[id].Valid())
    }
  }

  const NoForecasts := Forecasts([], map[])

  /** `forecasts[spot_id] ||= {}` followed by the three passes of the response. */
  function MergeResponse(f: Forecasts, r: SpotResponse, parse: string -> Time): Forecasts
  {
    var s := if r.id in f.bySpot then f.bySpot[r.id] else EmptySeries;
    var ids := if r.id in f.bySpot then f.ids else f.ids + [r.id];
    Forecasts(ids, f.bySpot[r.id := ResponsePass(s, r, parse)])
  }

  /** The forecasts after the first `n` responses. */
  function MergeAll(rs: seq<SpotResponse>, parse: string -> Time, n: nat): Forecasts
    requires n <= |rs|
  {
    if n == 0 then NoForecasts else MergeResponse(MergeAll(rs, parse, n - 1), rs[n - 1], parse)
  }

  /** One more response is one more merge. */
  lemma MergeAllNext(rs: seq<SpotResponse>, parse: string -> Time, n: nat)
    requires n < |rs|
    ensures MergeAll(rs, parse, n + 1) == MergeResponse(MergeAll(rs, parse, n), rs[n], parse)
  {
  }

  /** Merging a response keeps the forecasts well formed and adds exactly the
      response's id. */
  lemma MergeResponseFacts(f: Forecasts, r: SpotResponse, parse: string -> Time)
    requires f.Valid()
    ensures MergeResponse(f, r, parse).Valid()
    ensures MergeResponse(f, r, parse).bySpot.Keys == f.bySpot.Keys + {r.id}
  {
    var s := if r.id in f.bySpot then f.bySpot[r.id] else EmptySeries;
    ResponseValid(s, r, parse);
  }

  /** The ids of the first `n` responses. */
  ghost function IdsOf(rs: seq<SpotResponse>, n: nat): set<string>
    requires n <= |rs|
  {
    if n == 0 then {} else IdsOf(rs, n - 1) + {rs[n - 1].id}
  }

  /** The accumulated forecasts are well formed. */
  lemma {:induction false} MergeAllValid(rs: seq<SpotResponse>, parse: string -> Time, n: nat)
    requires n <= |rs|
    ensures MergeAll(rs, parse, n).Valid()
  {
    if n > 0 {
      MergeAllValid(rs, parse, n - 1);
      MergeResponseFacts(MergeAll(rs, parse, n - 1), rs[n - 1], parse);
    }
  }

  /** The accumulated forecasts hold a series for exactly the ids of the
      responses merged. */
  lemma {:induction false} MergeAllIds(rs: seq<SpotResponse>, parse: string -> Time, n: nat)
    requires n <= |rs|
    ensures MergeAll(rs, parse, n).bySpot.Keys == IdsOf(rs, n)
  {
    if n > 0 {
      MergeAllIds(rs, parse, n - 1);
    }
  }

  /** `forecasts[spot_id] ||= {}` and the three passes of one response. */
  method MergeInto(f: Forecasts, response: SpotResponse, parse: string -> Time) returns (g: Forecasts)
    ensures g == MergeResponse(f, response, parse)
  {
    var spotId := response.id;
    g := f;
    if spotId !in g.bySpot {
      g := Forecasts(g.ids + [spotId], g.bySpot[spotId := EmptySeries]);
    }
    var s := g.bySpot[spotId];
    s := MergeSurf(s, response.surf, parse);
    s := MergeSort(s, response.sort, parse);
    s := MergeWind(s, response.wind, parse);
    ResponsePassIs(g.bySpot[spotId], response, parse);
    g := g.(bySpot := g.bySpot[spotId := s]);
    assert g.bySpot == f.bySpot[spotId := s];
  }

  /** The accumulation loop over the normalised payload (lines 41-76). */
  method Accumulate(p: Payload, parse: string -> Time) returns (f: Forecasts)
    ensures f == MergeAll(Normalize(p), parse, |Normalize(p)|)
  {
    var responses := Normalize(p);
    f := NoForecasts;
    for i := 0 to |responses|
      invariant f == MergeAll(responses, parse, i)
    {
      MergeAllNext(responses, parse, i);
      f := MergeInto(f, responses[i], parse);
    }
  }
}
