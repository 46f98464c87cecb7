/**
 * The update coordinator: one refresh cycle fetches the data dict and applies
 * the user's filters to its `closures` and `stoppages` lists; a failure in the
 * cycle is reported as `UpdateFailed` instead of data.
 */
module Coordinator {
  import opened Wrappers
  import opened Feed
  import opened Ascii
  import opened Seqs
  import Const
  import Api

  /** The entry's options; `None` is an option that was never set. */
  datatype Options = Options(
    updateInterval: Option<int>,
    locationFilter: Option<string>,
    includePlanned: Option<bool>,
    includeEmergency: Option<bool>)

  /** What goes wrong during a cycle: a missing key of the data dict, or an
      exception from the fetch itself. */
  datatype Error = KeyError(key: string) | FetchError(reason: string)

  /** The exception the coordinator raises to the host. */
  datatype UpdateFailed = UpdateFailed(cause: Error)

  /** The refresh interval in minutes. */
  function UpdateIntervalMinutes(options: Options): (minutes: int)
    ensures options.updateInterval.None? ==> minutes == Const.DefaultUpdateInterval
    ensures options.updateInterval.Some? ==> minutes == options.updateInterval.value
  {
    options.updateInterval.GetOr(Const.DefaultUpdateInterval)
  }

  /** `include_planned`, defaulting to true. */
  function IncludePlanned(options: Options): (r: bool)
    ensures r <==> options.includePlanned != Some(false)
  {
    options.includePlanned.GetOr(Const.DefaultIncludePlanned)
  }

  /** `include_emergency`, defaulting to true. */
  function IncludeEmergency(options: Options): (r: bool)
    ensures r <==> options.includeEmergency != Some(false)
  {
    options.includeEmergency.GetOr(Const.DefaultIncludeEmergency)
  }

  /** Whether the location step runs: the filter is set and not empty. */
  predicate LocationActive(options: Options) {
    options.locationFilter.Some? && options.locationFilter.value != ""
  }

  /** The three fields the location filter looks at, in the order it tries them. */
  function LocationField<C>(item: Notice<C>, k: nat): Field<string>
    requires k < 3
  {
    if k == 0 then item.title else if k == 1 then item.region else item.waterways
  }

  /** A field is a hit: present, non-empty, and containing the lowered filter once lowered. */
  predicate FieldHit(f: Field<string>, filterLower: string) {
    TruthyText(f) && Contains(LowerStr(f.v), filterLower)
  }

  /** The meaning of `_matches_location_filter`: some location field is a hit. */
  predicate MatchesLocation<C>(item: Notice<C>, locationFilter: string) {
    exists k :: 0 <= k < 3 && FieldHit(LocationField(item, k), LowerStr(locationFilter))
  }

  /** `_matches_location_filter`: tries title, region and waterways in turn and
      returns at the first field that contains the filter, ignoring case. */
  method MatchesLocationFilter<C>(item: Notice<C>, locationFilter: string) returns (r: bool)
    ensures r == MatchesLocation(item, locationFilter)
  {
    var fields := [item.title, item.region, item.waterways];
    var filterLower := LowerStr(locationFilter);
    for i := 0 to 3
      invariant forall k :: 0 <= k < i ==> !FieldHit(LocationField(item, k), filterLower)
    {
      var f := fields[i];
      if f.Val? && f.v != "" {
        if Contains(LowerStr(f.v), filterLower) {
          assert FieldHit(LocationField(item, i), filterLower);
          return true;
        }
      }
      assert !FieldHit(LocationField(item, i), filterLower);
    }
    return false;
  }

  /** A record without a non-empty title, region or waterways never matches. */
  lemma NoLocationFieldsNeverMatch<C>(item: Notice<C>, locationFilter: string)
    requires !TruthyText(item.title) && !TruthyText(item.region) && !TruthyText(item.waterways)
    ensures !MatchesLocation(item, locationFilter)
  {
  }

  /** Lowering twice is lowering once. */
  lemma LowerStrIdempotent(s: string)
    ensures LowerStr(LowerStr(s)) == LowerStr(s)
  {
  }

  /** Every string contains itself. */
  lemma ContainsSelf(s: string)
    ensures Contains(s, s)
  {
  }

  /** The filter ignores case: an upper-case spelling of a present title matches it. */
  lemma TitleMatchesItsOwnCase<C>(item: Notice<C>)
    requires TruthyText(item.title)
    ensures MatchesLocation(item, item.title.v)
    ensures MatchesLocation(item, LowerStr(item.title.v))
  {
    LowerStrIdempotent(item.title.v);
    ContainsSelf(LowerStr(item.title.v));
    assert FieldHit(LocationField(item, 0), LowerStr(item.title.v));
    assert FieldHit(LocationField(item, 0), LowerStr(LowerStr(item.title.v)));
  }

  /** `_is_planned_stoppage`: `reasonId` (default 0) is 1 or 2. */
  predicate IsPlanned<C>(n: Notice<C>)
    ensures IsPlanned(n) <==> n.reasonId == Val(1) || n.reasonId == Val(2)
  {
    var reasonId := IdOr0(n.reasonId);
    reasonId == 1 || reasonId == 2
  }

  /** `_is_emergency_closure`: `reasonId` (default 0) is 4. */
  predicate IsEmergency<C>(n: Notice<C>)
    ensures IsEmergency(n) <==> n.reasonId == Val(4)
  {
    IdOr0(n.reasonId) == 4
  }

  /** Planned means the reason table says Maintenance or Lock Works. */
  lemma PlannedIsMaintenanceOrLockWorks<C>(n: Notice<C>)
    ensures IsPlanned(n) <==> Const.ReasonName(Get(n.reasonId)) in {"Maintenance", "Lock Works"}
  {
  }

  /** Emergency means the reason table says Emergency. */
  lemma EmergencyIsEmergencyReason<C>(n: Notice<C>)
    ensures IsEmergency(n) <==> Const.ReasonName(Get(n.reasonId)) == "Emergency"
  {
  }

  predicate NotPlanned<C>(n: Notice<C>) { !IsPlanned(n) }

  predicate NotEmergency<C>(n: Notice<C>) { !IsEmergency(n) }

  function InLocation<C>(locationFilter: string): Notice<C> -> bool {
    n => MatchesLocation(n, locationFilter)
  }

  /** The location step: both lists of the input are read (a missing one raises). */
  function LocationStep<C>(data: Data<C>, locationFilter: string): (r: Result<Data<C>, Error>)
    ensures data.closures.None? ==> r == Err(KeyError("closures"))
    ensures data.closures.Some? && data.stoppages.None? ==> r == Err(KeyError("stoppages"))
    ensures data.closures.Some? && data.stoppages.Some? ==> r.Ok?
    ensures r.Ok? ==> r.value.lastUpdated == data.lastUpdated && r.value.notices == data.notices
  {
    if data.closures.None? then Err(KeyError("closures"))
    else if data.stoppages.None? then Err(KeyError("stoppages"))
    else Ok(data.(closures := Some(Filter(InLocation(locationFilter), data.closures.value)),
                  stoppages := Some(Filter(InLocation(locationFilter), data.stoppages.value))))
  }

  /** The planned step: stoppages lose their planned entries. */
  function PlannedStep<C>(data: Data<C>): (r: Result<Data<C>, Error>)
    ensures r.Err? <==> data.stoppages.None?
    ensures r.Err? ==> r.error == KeyError("stoppages")
    ensures r.Ok? ==> r.value.closures == data.closures && r.value.lastUpdated == data.lastUpdated
                      && r.value.notices == data.notices
  {
    if data.stoppages.None? then Err(KeyError("stoppages"))
    else Ok(data.(stoppages := Some(Filter(NotPlanned, data.stoppages.value))))
  }

  /** The emergency step: closures lose their emergency entries. */
  function EmergencyStep<C>(data: Data<C>): (r: Result<Data<C>, Error>)
    ensures r.Err? <==> data.closures.None?
    ensures r.Err? ==> r.error == KeyError("closures")
    ensures r.Ok? ==> r.value.stoppages == data.stoppages && r.value.lastUpdated == data.lastUpdated
                      && r.value.notices == data.notices
  {
    if data.closures.None? then Err(KeyError("closures"))
    else Ok(data.(closures := Some(Filter(NotEmergency, data.closures.value))))
  }

  /** The keys the enabled steps index are present, so no step raises. */
  predicate KeysPresent<C>(data: Data<C>, options: Options) {
    && (LocationActive(options) ==> data.closures.Some? && data.stoppages.Some?)
    && (!IncludePlanned(options) ==> data.stoppages.Some?)
    && (!IncludeEmergency(options) ==> data.closures.Some?)
  }

  /** What an output list holds: the input's entries that pass every enabled condition. */
  predicate KeepClosure<C>(n: Notice<C>, options: Options) {
    (LocationActive(options) ==> MatchesLocation(n, options.locationFilter.value))
    && (!IncludeEmergency(options) ==> !IsEmergency(n))
  }

  predicate KeepStoppage<C>(n: Notice<C>, options: Options) {
    (LocationActive(options) ==> MatchesLocation(n, options.locationFilter.value))
    && (!IncludePlanned(options) ==> !IsPlanned(n))
  }

  /**
   * `_apply_filters`: a copy of the dict whose `closures` and `stoppages` are
   * reassigned by each enabled step in turn (location, planned, emergency).
   * Only those two keys change; a step that indexes a missing key raises.
   */
  function ApplyFilters<C>(data: Data<C>, options: Options): (r: Result<Data<C>, Error>)
    ensures r.Ok? <==> KeysPresent(data, options)
    ensures r.Ok? ==> r.value.lastUpdated == data.lastUpdated && r.value.notices == data.notices
    ensures r.Ok? ==> (r.value.closures.Some? <==> data.closures.Some?)
    ensures r.Ok? ==> (r.value.stoppages.Some? <==> data.stoppages.Some?)
  {
    var afterLocation :=
      if LocationActive(options) then LocationStep(data, options.locationFilter.value) else Ok(data);
    match afterLocation
    case Err(e) => Err(e)
    case Ok(d1) =>
      var afterPlanned := if !IncludePlanned(options) then PlannedStep(d1) else Ok(d1);
      match afterPlanned
      case Err(e) => Err(e)
      case Ok(d2) =>
        if !IncludeEmergency(options) then EmergencyStep(d2) else Ok(d2)
  }

  /** A list of notices that, through the filters, lands in `Some(out)`. */
  function OutList<C>(l: Option<seq<Notice<C>>>): seq<Notice<C>> {
    l.GetOr([])
  }

  /** A closures list after the enabled location and emergency conditions. */
  function ClosuresThrough<C>(c: seq<Notice<C>>, options: Options): seq<Notice<C>> {
    var afterLocation :=
      if LocationActive(options) then Filter(InLocation(options.locationFilter.value), c) else c;
    if !IncludeEmergency(options) then Filter(NotEmergency, afterLocation) else afterLocation
  }

  /** A stoppages list after the enabled location and planned conditions. */
  function StoppagesThrough<C>(s: seq<Notice<C>>, options: Options): seq<Notice<C>> {
    var afterLocation :=
      if LocationActive(options) then Filter(InLocation(options.locationFilter.value), s) else s;
    if !IncludePlanned(options) then Filter(NotPlanned, afterLocation) else afterLocation
  }

  /** The filtered dict holds each list put through its own conditions. */
  lemma ApplyFiltersLists<C>(data: Data<C>, options: Options)
    requires ApplyFilters(data, options).Ok?
    ensures OutList(ApplyFilters(data, options).value.closures) == ClosuresThrough(OutList(data.closures), options)
    ensures OutList(ApplyFilters(data, options).value.stoppages) == StoppagesThrough(OutList(data.stoppages), options)
  {
  }

  /** A closures list keeps its order and exactly the entries meeting the conditions. */
  lemma ClosuresThroughKeeps<C>(c: seq<Notice<C>>, options: Options, n: Notice<C>)
    ensures IsSubsequence(ClosuresThrough(c, options), c)
    ensures n in ClosuresThrough(c, options) <==> n in c && KeepClosure(n, options)
  {
    var cl := if LocationActive(options) then Filter(InLocation(options.locationFilter.value), c) else c;
    if LocationActive(options) {
      FilterIsSubsequence(InLocation(options.locationFilter.value), c);
      FilterMembership(InLocation(options.locationFilter.value), c, n);
    } else {
      SubsequenceReflexive(c);
    }
    if !IncludeEmergency(options) {
      FilterIsSubsequence(NotEmergency, cl);
      FilterMembership(NotEmergency, cl, n);
      SubsequenceTransitive(ClosuresThrough(c, options), cl, c);
    }
  }

  /** A stoppages list keeps its order and exactly the entries meeting the conditions. */
  lemma StoppagesThroughKeeps<C>(s: seq<Notice<C>>, options: Options, n: Notice<C>)
    ensures IsSubsequence(StoppagesThrough(s, options), s)
    ensures n in StoppagesThrough(s, options) <==> n in s && KeepStoppage(n, options)
  {
    var sl := if LocationActive(options) then Filter(InLocation(options.locationFilter.value), s) else s;
    if LocationActive(options) {
      FilterIsSubsequence(InLocation(options.locationFilter.value), s);
      FilterMembership(InLocation(options.locationFilter.value), s, n);
    } else {
      SubsequenceReflexive(s);
    }
    if !IncludePlanned(options) {
      FilterIsSubsequence(NotPlanned, sl);
      FilterMembership(NotPlanned, sl, n);
      SubsequenceTransitive(StoppagesThrough(s, options), sl, s);
    }
  }

  /**
   * The output lists are subsequences of the input lists that keep exactly the
   * entries passing every enabled condition: a closure is dropped only for the
   * location or the emergency condition, a stoppage only for the location or
   * the planned condition.
   */
  lemma ApplyFiltersKeeps<C>(data: Data<C>, options: Options, n: Notice<C>)
    requires ApplyFilters(data, options).Ok?
    ensures var out := ApplyFilters(data, options).value;
      && IsSubsequence(OutList(out.closures), OutList(data.closures))
      && IsSubsequence(OutList(out.stoppages), OutList(data.stoppages))
      && (n in OutList(out.closures) <==> n in OutList(data.closures) && KeepClosure(n, options))
      && (n in OutList(out.stoppages) <==> n in OutList(data.stoppages) && KeepStoppage(n, options))
  {
    ApplyFiltersLists(data, options);
    ClosuresThroughKeeps(OutList(data.closures), options, n);
    StoppagesThroughKeeps(OutList(data.stoppages), options, n);
  }

  /** No location filter and both kinds included: the data comes back exactly
      as given, even when it lacks the two lists. */
  lemma NoFiltersPassThrough<C>(data: Data<C>, options: Options)
    requires !LocationActive(options) && IncludePlanned(options) && IncludeEmergency(options)
    ensures ApplyFilters(data, options) == Ok(data)
  {
  }

  /** Options never set: both kinds are included, so only a location filter removes anything. */
  lemma UnsetOptionsIncludeAll<C>(data: Data<C>, filter: Option<string>)
    ensures var options := Options(None, filter, None, None);
      IncludePlanned(options) && IncludeEmergency(options)
      && (!LocationActive(options) ==> ApplyFilters(data, options) == Ok(data))
  {
  }

  /** With only `include_planned` off, stoppages lose exactly their planned
      entries (a missing `reasonId` counts as 0 and stays); closures are untouched. */
  lemma PlannedRemovesExactly<C>(data: Data<C>, options: Options)
    requires !LocationActive(options) && !IncludePlanned(options) && IncludeEmergency(options)
    requires data.stoppages.Some?
    ensures ApplyFilters(data, options).Ok?
    ensures var out := ApplyFilters(data, options).value;
      && out.closures == data.closures
      && out.stoppages == Some(Filter(NotPlanned, data.stoppages.value))
      && |out.stoppages.value| == |data.stoppages.value| - Count(IsPlanned, data.stoppages.value)
  {
    FilterLength(NotPlanned, data.stoppages.value);
    CountComplement(IsPlanned, NotPlanned, data.stoppages.value);
  }

  /** With only `include_emergency` off, closures lose exactly their emergency
      entries; stoppages, emergency ones included, are untouched. */
  lemma EmergencyRemovesExactly<C>(data: Data<C>, options: Options)
    requires !LocationActive(options) && IncludePlanned(options) && !IncludeEmergency(options)
    requires data.closures.Some?
    ensures ApplyFilters(data, options).Ok?
    ensures var out := ApplyFilters(data, options).value;
      && out.stoppages == data.stoppages
      && out.closures == Some(Filter(NotEmergency, data.closures.value))
      && |out.closures.value| == |data.closures.value| - Count(IsEmergency, data.closures.value)
  {
    FilterLength(NotEmergency, data.closures.value);
    CountComplement(IsEmergency, NotEmergency, data.closures.value);
  }

  /** Filtering the filtered data again with the same options changes nothing. */
  lemma ApplyFiltersIdempotent<C>(data: Data<C>, options: Options)
    requires ApplyFilters(data, options).Ok?
    ensures ApplyFilters(ApplyFilters(data, options).value, options) == ApplyFilters(data, options)
  {
    var out := ApplyFilters(data, options).value;
    var f := options.locationFilter.GetOr("");
    var c, s := OutList(out.closures), OutList(out.stoppages);
    forall n | n in c ensures KeepClosure(n, options) {
      ApplyFiltersKeeps(data, options, n);
    }
    forall n | n in s ensures KeepStoppage(n, options) {
      ApplyFiltersKeeps(data, options, n);
    }
    if LocationActive(options) {
      FilterAll(InLocation(f), c);
      FilterAll(InLocation(f), s);
    }
    if !IncludePlanned(options) {
      FilterAll(NotPlanned, s);
    }
    if !IncludeEmergency(options) {
      FilterAll(NotEmergency, c);
    }
  }

  /**
   * `_async_update_data`: the fetched data, filtered, or `UpdateFailed` when
   * the fetch or the filtering raised; a failure is never returned as data.
   */
  function UpdateData<C>(fetched: Result<Data<C>, Error>, options: Options): (r: Result<Data<C>, UpdateFailed>)
    ensures fetched.Err? ==> r == Err(UpdateFailed(fetched.error))
    ensures fetched.Ok? ==> (r.Ok? <==> KeysPresent(fetched.value, options))
    ensures fetched.Ok? && r.Err? ==> r.error.cause.KeyError?
    ensures r.Ok? ==> fetched.Ok? && r.value.lastUpdated == fetched.value.lastUpdated
    ensures fetched.Ok? && r.Ok? ==> ApplyFilters(fetched.value, options) == Ok(r.value)
    ensures fetched.Ok? && r.Err? ==> ApplyFilters(fetched.value, options) == Err(r.error.cause)
  {
    match fetched
    case Err(e) => Err(UpdateFailed(e))
    case Ok(data) =>
      match ApplyFilters(data, options)
      case Err(e) => Err(UpdateFailed(e))
      case Ok(filtered) => Ok(filtered)
  }

  /** A successful refresh holds, in order, exactly the fetched notices that pass
      every enabled condition. */
  lemma UpdateDataKeeps<C>(data: Data<C>, options: Options, n: Notice<C>)
    requires UpdateData(Ok(data), options).Ok?
    ensures var out := UpdateData(Ok(data), options).value;
      && IsSubsequence(OutList(out.closures), OutList(data.closures))
      && IsSubsequence(OutList(out.stoppages), OutList(data.stoppages))
      && (n in OutList(out.closures) <==> n in OutList(data.closures) && KeepClosure(n, options))
      && (n in OutList(out.stoppages) <==> n in OutList(data.stoppages) && KeepStoppage(n, options))
      && out.lastUpdated == data.lastUpdated
  {
    ApplyFiltersKeeps(data, options, n);
  }

  /** A missing `closures` key with a location filter set fails the cycle. */
  lemma MissingClosuresFails<C>(data: Data<C>, options: Options)
    requires data.closures.None? && LocationActive(options)
    ensures UpdateData(Ok(data), options) == Err(UpdateFailed(KeyError("closures")))
  {
  }

  /** The client's dict always has both lists, so filtering it never fails,
      and the result still has no `notices` key. */
  lemma FetchedDataFilters<C>(closures: Api.Outcome<C>, stoppages: Api.Outcome<C>, now: string, options: Options)
    ensures var r := UpdateData(Ok(Api.FetchAll(closures, stoppages, now)), options);
      r.Ok? && r.value.notices.None? && r.value.lastUpdated == Some(now)
  {
  }
}
