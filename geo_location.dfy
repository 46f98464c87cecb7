/**
 * The geo-location platform: one event per notice that has a location,
 * remembered by its position in the notice list and re-bound by that position
 * on every update.
 */
module GeoLocation {
  import opened Wrappers
  import opened Feed
  import opened Ascii
  import opened Seqs
  import opened GeoJson
  import opened Entity
  import Const
  import Api
  import Coordinator

  /** `notice.get("title", f"notice_{index}")`; `None` for a `null` title. */
  function GeoTitle<C>(n: Notice<C>, index: nat): (r: Option<string>)
    ensures n.title.Absent? ==> r == Some("notice_" + NatToString(index))
    ensures n.title.Null? ==> r == None
    ensures n.title.Val? ==> r == Some(n.title.v)
  {
    GetOr(n.title, "notice_" + NatToString(index))
  }

  /** The event's unique id: entry id, `_geo_`, the sanitised title, `_`, the position. */
  function GeoUniqueId(entryId: string, title: string, index: nat): string {
    entryId + "_geo_" + SafeId(title) + "_" + NatToString(index)
  }

  lemma {:induction false} DigitSuffixesAgree(a: string, d1: string, b: string, d2: string)
    requires a + "_" + d1 == b + "_" + d2
    requires forall i :: 0 <= i < |d1| ==> IsDigit(d1[i])
    requires forall i :: 0 <= i < |d2| ==> IsDigit(d2[i])
    ensures d1 == d2
  {
    var u := a + "_" + d1;
    assert u == b + "_" + d2;
    DigitTail(b, d2);
    DigitTail(a, d1);
    assert u[|u| - |d1| - 1] == '_' && u[|u| - |d2| - 1] == '_';
    assert d1 == u[|u| - |d1|..];
    assert d2 == u[|u| - |d2|..];
  }

  /** In `a + "_" + d` with `d` all digits, the last `|d|` characters are digits
      and the one before is not. */
  lemma DigitTail(a: string, d: string)
    requires forall i :: 0 <= i < |d| ==> IsDigit(d[i])
    ensures var u := a + "_" + d;
      !IsDigit(u[|u| - |d| - 1]) && forall j :: |u| - |d| <= j < |u| ==> IsDigit(u[j])
  {
    var u := a + "_" + d;
    forall j | |u| - |d| <= j < |u| ensures IsDigit(u[j]) {
      assert u[j] == d[j - |a| - 1];
    }
  }

  /** Events at different positions never share a unique id, whatever their titles. */
  lemma GeoUniqueIdsDistinct(entryId: string, t1: string, i1: nat, t2: string, i2: nat)
    requires i1 != i2
    ensures GeoUniqueId(entryId, t1, i1) != GeoUniqueId(entryId, t2, i2)
  {
    if GeoUniqueId(entryId, t1, i1) == GeoUniqueId(entryId, t2, i2) {
      var a := entryId + "_geo_" + SafeId(t1);
      var b := entryId + "_geo_" + SafeId(t2);
      assert a + "_" + NatToString(i1) == b + "_" + NatToString(i2);
      DigitSuffixesAgree(a, NatToString(i1), b, NatToString(i2));
      NatToStringInjective(i1, i2);
    }
  }

  /** The positions that get an event: those whose notice's coordinates extract. */
  function LocatedPositions<C>(notices: seq<Notice<C>>): seq<nat> {
    Positions(HasCoordinates, notices)
  }

  /** The stored positions are strictly increasing, name exactly the located
      notices, and pick out the same notices, in the same order, as the tracker platform. */
  lemma LocatedPositionsSelect<C>(notices: seq<Notice<C>>, i: nat)
    ensures forall k :: 0 <= k < |LocatedPositions(notices)| ==>
      forall l :: k < l < |LocatedPositions(notices)| ==> LocatedPositions(notices)[k] < LocatedPositions(notices)[l]
    ensures i in LocatedPositions(notices) <==> i < |notices| && HasCoordinates(notices[i])
    ensures |LocatedPositions(notices)| == |Filter(HasCoordinates, notices)|
    ensures forall k :: 0 <= k < |LocatedPositions(notices)| ==>
      LocatedPositions(notices)[k] < |notices| && notices[LocatedPositions(notices)[k]] == Filter(HasCoordinates, notices)[k]
  {
    PositionsInOrder(HasCoordinates, notices);
    PositionsComplete(HasCoordinates, notices, i);
    PositionsSelectFilter(HasCoordinates, notices);
  }

  /** `CanalRiverTrustGeolocationEvent`. */
  class GeolocationEvent<C> {
    const entryId: string
    const index: nat
    const uniqueId: string
    const name: string
    const icon: string
    var notice: Notice<C>

    /** `__init__`; the Python code raises on a `null` title, which its caller checks first here. */
    constructor (entryId: string, notice: Notice<C>, index: nat)
      requires GeoTitle(notice, index).Some?
      ensures this.entryId == entryId && this.notice == notice && this.index == index
      ensures uniqueId == GeoUniqueId(entryId, GeoTitle(notice, index).value, index)
      ensures name == "CRT " + GeoTitle(notice, index).value
      ensures icon == Icon(notice.typeId)
    {
      var title := GeoTitle(notice, index).value;
      this.entryId := entryId;
      this.notice := notice;
      this.index := index;
      this.uniqueId := GeoUniqueId(entryId, title, index);
      this.name := "CRT " + title;
      this.icon := Icon(notice.typeId);
    }

    /** `latitude`: the first of the extracted pair. */
    function Latitude(): (r: Option<C>)
      reads this
      ensures r.Some? <==> HasCoordinates(notice)
      ensures r.Some? ==> r.value == ExtractCoordinates(notice.geometry).value.0
    {
      match ExtractCoordinates(notice.geometry)
      case Some(pair) => Some(pair.0)
      case None => None
    }

    /** `longitude`: the second of the extracted pair. */
    function Longitude(): (r: Option<C>)
      reads this
      ensures r.Some? <==> HasCoordinates(notice)
      ensures r.Some? ==> r.value == ExtractCoordinates(notice.geometry).value.1
    {
      match ExtractCoordinates(notice.geometry)
      case Some(pair) => Some(pair.1)
      case None => None
    }

    /** `distance`: never computed, always unknown. */
    function Distance(): (r: Option<real>)
      ensures r == None
    {
      None
    }

    /** `extra_state_attributes`: the notice's attributes with `source` set to the domain. */
    function ExtraStateAttributes(): (r: Attributes)
      reads this
      ensures r == NoticeAttributes(notice, Some(Const.Domain))
    {
      NoticeAttributes(notice, Some(Const.Domain))
    }

    /** `async_update`: take the notice now at this event's position, if the list
        is that long; keep the current one otherwise. */
    method Update(data: Option<Data<C>>)
      modifies this
      ensures notice == if index < |CurrentNotices(data)| then CurrentNotices(data)[index] else old(notice)
    {
      if DataTruthy(data) {
        var notices := NoticesOf(data.value);
        if index < |notices| {
          notice := notices[index];
        }
      }
    }
  }

  /** `async_setup_entry` raises at a located notice whose title is `null`. */
  datatype SetupError = NullTitle(index: int)

  /** The first located position whose title is `null`. */
  function FirstNullTitle<C>(notices: seq<Notice<C>>, from: nat): (r: Option<nat>)
    requires from <= |notices|
    ensures r.Some? ==> from <= r.value < |notices|
    decreases |notices| - from
  {
    if from == |notices| then None
    else if HasCoordinates(notices[from]) && notices[from].title.Null? then Some(from)
    else FirstNullTitle(notices, from + 1)
  }

  /** `FirstNullTitle` finds the first located notice with a `null` title, or
      reports that no located notice from `from` on has one. */
  lemma {:induction false} FirstNullTitleIsFirst<C>(notices: seq<Notice<C>>, from: nat)
    requires from <= |notices|
    ensures var r := FirstNullTitle(notices, from);
      && (r.Some? ==> HasCoordinates(notices[r.value]) && notices[r.value].title.Null?)
      && (r.Some? ==> forall j :: from <= j < r.value ==> !(HasCoordinates(notices[j]) && notices[j].title.Null?))
      && (r.None? ==> forall j :: from <= j < |notices| ==> !(HasCoordinates(notices[j]) && notices[j].title.Null?))
    decreases |notices| - from
  {
    if from < |notices| && !(HasCoordinates(notices[from]) && notices[from].title.Null?) {
      FirstNullTitleIsFirst(notices, from + 1);
    }
  }

  /** The positions the events remember, in order. */
  function Indices<C>(events: seq<GeolocationEvent<C>>): (r: seq<nat>)
    ensures |r| == |events| && forall k :: 0 <= k < |events| ==> r[k] == events[k].index
  {
    seq(|events|, k requires 0 <= k < |events| => events[k].index)
  }

  /** `e` is the event `__init__` builds for the notice at `index` under `entryId`. */
  ghost predicate EventFor<C>(e: GeolocationEvent<C>, entryId: string, notice: Notice<C>, index: nat)
    reads e
  {
    && e.entryId == entryId && e.notice == notice && e.index == index
    && GeoTitle(notice, index).Some?
    && e.uniqueId == GeoUniqueId(entryId, GeoTitle(notice, index).value, index)
    && e.name == "CRT " + GeoTitle(notice, index).value
    && e.icon == Icon(notice.typeId)
  }

  /** An event for one notice. */
  method NewEvent<C>(entryId: string, notice: Notice<C>, index: nat) returns (e: GeolocationEvent<C>)
    requires GeoTitle(notice, index).Some?
    ensures fresh(e) && EventFor(e, entryId, notice, index)
  {
    e := new GeolocationEvent(entryId, notice, index);
  }

  /** Events built at the located positions, in order, never share a unique id. */
  lemma EventIdsDistinct<C>(entryId: string, notices: seq<Notice<C>>, events: seq<GeolocationEvent<C>>)
    requires Indices(events) == LocatedPositions(notices)
    requires forall k :: 0 <= k < |events| ==>
      events[k].index < |notices| && EventFor(events[k], entryId, notices[events[k].index], events[k].index)
    ensures forall k, l :: 0 <= k < l < |events| ==> events[k].uniqueId != events[l].uniqueId
  {
    PositionsInOrder(HasCoordinates, notices);
    forall k, l | 0 <= k < l < |events| ensures events[k].uniqueId != events[l].uniqueId {
      var ek, el := events[k], events[l];
      assert Indices(events)[k] < Indices(events)[l];
      GeoUniqueIdsDistinct(entryId, GeoTitle(ek.notice, ek.index).value, ek.index,
                           GeoTitle(el.notice, el.index).value, el.index);
    }
  }

  /**
   * `async_setup_entry`: an event for every located notice, in list order,
   * each remembering its position; the setup raises at the first located
   * notice with a `null` title.
   */
  method SetupEntry<C>(entryId: string, data: Option<Data<C>>) returns (r: Result<seq<GeolocationEvent<C>>, SetupError>)
    ensures r.Err? <==> FirstNullTitle(CurrentNotices(data), 0).Some?
    ensures r.Err? ==> r.error == NullTitle(FirstNullTitle(CurrentNotices(data), 0).value)
    ensures r.Ok? ==> Indices(r.value) == LocatedPositions(CurrentNotices(data))
    ensures r.Ok? ==> forall k :: 0 <= k < |r.value| ==>
      var e := r.value[k];
      fresh(e) && e.index < |CurrentNotices(data)| && EventFor(e, entryId, CurrentNotices(data)[e.index], e.index)
    ensures r.Ok? ==> forall k, l :: 0 <= k < l < |r.value| ==> r.value[k].uniqueId != r.value[l].uniqueId
  {
    var notices := CurrentNotices(data);
    var events: seq<GeolocationEvent<C>> := [];
    for idx := 0 to |notices|
      invariant Indices(events) == Positions(HasCoordinates, notices[..idx])
      invariant forall k :: 0 <= k < |events| ==>
        fresh(events[k]) && events[k].index < idx
        && EventFor(events[k], entryId, notices[events[k].index], events[k].index)
      invariant FirstNullTitle(notices, 0) == FirstNullTitle(notices, idx)
    {
      PositionsSnoc(HasCoordinates, notices, idx);
      if HasCoordinates(notices[idx]) {
        if notices[idx].title.Null? {
          return Err(NullTitle(idx));
        }
        var e := NewEvent(entryId, notices[idx], idx);
        assert Indices(events + [e]) == Indices(events) + [idx];
        events := events + [e];
      }
    }
    assert notices[..|notices|] == notices;
    EventIdsDistinct(entryId, notices, events);
    return Ok(events);
  }

  /** With data from a refresh there is no `notices` key, so no event is created. */
  lemma NoEventsFromFetchedData<C>(closures: Api.Outcome<C>, stoppages: Api.Outcome<C>, now: string,
                                   options: Coordinator.Options)
    ensures var r := Coordinator.UpdateData(Ok(Api.FetchAll(closures, stoppages, now)), options);
      r.Ok? && LocatedPositions(CurrentNotices(Some(r.value))) == []
  {
    Coordinator.FetchedDataFilters(closures, stoppages, now, options);
  }
}
