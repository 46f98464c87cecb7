/**
 * The device-tracker platform: one tracker per notice that has a location,
 * identified by the notice's id (or title), and re-bound to the notice with the
 * same id on every update.
 */
module DeviceTracker {
  import opened Wrappers
  import opened Feed
  import opened Seqs
  import opened GeoJson
  import opened Entity
  import Const
  import Api
  import Coordinator

  /** `notice.get("id", notice.get("title", "unknown"))`; `None` is Python's `None`. */
  function NoticeId<C>(n: Notice<C>): (r: Option<Scalar>)
    ensures n.id.Val? ==> r == Some(n.id.v)
    ensures n.id.Null? ==> r == None
    ensures n.id.Absent? && n.title.Val? ==> r == Some(Str(n.title.v))
    ensures n.id.Absent? && n.title.Null? ==> r == None
    ensures n.id.Absent? && n.title.Absent? ==> r == Some(Str("unknown"))
  {
    match n.id
    case Val(v) => Some(v)
    case Null => None
    case Absent =>
      match GetOr(n.title, "unknown")
      case Some(t) => Some(Str(t))
      case None => None
  }

  const LocationSuffix := "_location"

  /** The sanitised part read back out of a tracker's unique id. */
  function SafePartOf(entryId: string, uniqueId: string): string
    requires |entryId| + 1 + |LocationSuffix| <= |uniqueId|
  {
    uniqueId[|entryId| + 1..|uniqueId| - |LocationSuffix|]
  }

  /** The tracker's unique id: it starts with the entry id and `_`, ends in
      `_location`, and the sanitised notice id reads back out from between them. */
  function TrackerUniqueId<C>(entryId: string, n: Notice<C>): (r: string)
    ensures |entryId| + 1 + |LocationSuffix| <= |r|
    ensures r[..|entryId| + 1] == entryId + "_"
    ensures r[|r| - |LocationSuffix|..] == LocationSuffix
    ensures SafePartOf(entryId, r) == SafeId(PyStr(NoticeId(n)))
  {
    var safe := SafeId(PyStr(NoticeId(n)));
    var u := entryId + "_" + safe + LocationSuffix;
    assert u[|entryId| + 1..|u| - |LocationSuffix|] == safe;
    u
  }

  /** Two trackers of one entry share a unique id exactly when their notice ids
      sanitise alike. */
  lemma TrackerUniqueIdsCollide<C>(entryId: string, n: Notice<C>, m: Notice<C>)
    ensures TrackerUniqueId(entryId, n) == TrackerUniqueId(entryId, m)
        <==> SafeId(PyStr(NoticeId(n))) == SafeId(PyStr(NoticeId(m)))
  {
    var u, v := TrackerUniqueId(entryId, n), TrackerUniqueId(entryId, m);
    if SafeId(PyStr(NoticeId(n))) == SafeId(PyStr(NoticeId(m))) {
      assert u == entryId + "_" + SafeId(PyStr(NoticeId(n))) + LocationSuffix;
    }
  }

  /** The notices that get a tracker: those whose coordinates extract, in order. */
  function TrackedNotices<C>(data: Option<Data<C>>): (r: seq<Notice<C>>)
    ensures |r| <= |CurrentNotices(data)|
    ensures forall k :: 0 <= k < |r| ==> HasCoordinates(r[k]) && r[k] in CurrentNotices(data)
  {
    Filter(HasCoordinates, CurrentNotices(data))
  }

  /** Exactly the located notices are tracked, in the order of the list. */
  lemma TrackedNoticesAreLocated<C>(data: Option<Data<C>>, n: Notice<C>)
    ensures IsSubsequence(TrackedNotices(data), CurrentNotices(data))
    ensures n in TrackedNotices(data) <==> n in CurrentNotices(data) && HasCoordinates(n)
    ensures |TrackedNotices(data)| == Count(HasCoordinates, CurrentNotices(data))
  {
    FilterIsSubsequence(HasCoordinates, CurrentNotices(data));
    FilterMembership(HasCoordinates, CurrentNotices(data), n);
    FilterLength(HasCoordinates, CurrentNotices(data));
  }

  /** The client never produces a `notices` key, so with data from a refresh no
      tracker is ever created. */
  lemma NoTrackersFromFetchedData<C>(closures: Api.Outcome<C>, stoppages: Api.Outcome<C>, now: string,
                                     options: Coordinator.Options)
    ensures var r := Coordinator.UpdateData(Ok(Api.FetchAll(closures, stoppages, now)), options);
      r.Ok? && TrackedNotices(Some(r.value)) == []
  {
    Coordinator.FetchedDataFilters(closures, stoppages, now, options);
  }

  /** The position of the first notice with the given id, if any. */
  function FirstWithId<C>(notices: seq<Notice<C>>, id: Option<Scalar>): (r: Option<nat>)
    ensures r.Some? ==> r.value < |notices| && NoticeId(notices[r.value]) == id
    ensures r.Some? ==> forall j :: 0 <= j < r.value ==> NoticeId(notices[j]) != id
    ensures r.None? ==> forall j :: 0 <= j < |notices| ==> NoticeId(notices[j]) != id
  {
    if notices == [] then None
    else if NoticeId(notices[0]) == id then Some(0)
    else
      match FirstWithId(notices[1..], id)
      case None => None
      case Some(k) => Some(k + 1)
  }

  /** The notice a tracker shows after an update: the first current notice with
      its id, or the one it had when nothing matches or there is no data. */
  function Rebound<C>(current: Notice<C>, id: Option<Scalar>, data: Option<Data<C>>): (r: Notice<C>)
    ensures FirstWithId(CurrentNotices(data), id).None? ==> r == current
    ensures FirstWithId(CurrentNotices(data), id).Some? ==> r in CurrentNotices(data) && NoticeId(r) == id
  {
    var notices := CurrentNotices(data);
    match FirstWithId(notices, id)
    case Some(k) => notices[k]
    case None => current
  }

  /** A tracker keeps its id across updates: it is re-bound only to a notice with
      the same id, never to one with another. */
  lemma ReboundKeepsId<C>(current: Notice<C>, data: Option<Data<C>>)
    ensures NoticeId(Rebound(current, NoticeId(current), data)) == NoticeId(current)
  {
  }

  /** `CanalRiverTrustLocationTracker`. */
  class LocationTracker<C> {
    const entryId: string
    const noticeId: Option<Scalar>
    const uniqueId: string
    const name: string
    const icon: string
    var notice: Notice<C>

    /** `__init__`: the id, unique id, name and icon are fixed from the first notice. */
    constructor (entryId: string, notice: Notice<C>)
      ensures this.entryId == entryId && this.notice == notice
      ensures noticeId == NoticeId(notice)
      ensures uniqueId == TrackerUniqueId(entryId, notice)
      ensures name == "CRT " + PyText(GetOr(notice.title, "Unknown Notice"))
      ensures icon == Icon(notice.typeId)
    {
      this.entryId := entryId;
      this.notice := notice;
      this.noticeId := NoticeId(notice);
      this.uniqueId := TrackerUniqueId(entryId, notice);
      this.name := "CRT " + PyText(GetOr(notice.title, "Unknown Notice"));
      this.icon := Icon(notice.typeId);
    }

    /** `latitude`: the first of the extracted pair. */
    function Latitude(): (r: Option<C>)
      reads this
      ensures r.Some? <==> HasCoordinates(notice)
      ensures r.Some? ==> r.value == ExtractCoordinates(notice.geometry).value.0
    {
      match ExtractCoordinates(notice.geometry)
      case Some(pair) => Some(pair.0)
      case None => None
    }

    /** `longitude`: the second of the extracted pair. */
    function Longitude(): (r: Option<C>)
      reads this
      ensures r.Some? <==> HasCoordinates(notice)
      ensures r.Some? ==> r.value == ExtractCoordinates(notice.geometry).value.1
    {
      match ExtractCoordinates(notice.geometry)
      case Some(pair) => Some(pair.1)
      case None => None
    }

    /** `extra_state_attributes`: the notice's attributes, without a `source` key. */
    function ExtraStateAttributes(): (r: Attributes)
      reads this
      ensures r == NoticeAttributes(notice, None)
    {
      NoticeAttributes(notice, None)
    }

    /** `async_update`: scan the current notices and take the first whose id
        equals this tracker's. */
    method Update(data: Option<Data<C>>)
      modifies this
      ensures notice == Rebound(old(notice), noticeId, data)
    {
      if DataTruthy(data) {
        var notices := NoticesOf(data.value);
        var i := 0;
        while i < |notices|
          invariant 0 <= i <= |notices| && notice == old(notice)
          invariant forall j :: 0 <= j < i ==> NoticeId(notices[j]) != noticeId
        {
          if NoticeId(notices[i]) == noticeId {
            assert FirstWithId(notices, noticeId) == Some(i);
            notice := notices[i];
            return;
          }
          i := i + 1;
        }
      }
    }
  }

  /** `t` is the tracker `__init__` builds for `notice` under `entryId`. */
  ghost predicate TrackerFor<C>(t: LocationTracker<C>, entryId: string, notice: Notice<C>)
    reads t
  {
    && t.entryId == entryId && t.notice == notice && t.noticeId == NoticeId(notice)
    && t.uniqueId == TrackerUniqueId(entryId, notice)
    && t.name == "CRT " + PyText(GetOr(notice.title, "Unknown Notice"))
    && t.icon == Icon(notice.typeId)
  }

  /** A tracker for one notice. */
  method NewTracker<C>(entryId: string, notice: Notice<C>) returns (t: LocationTracker<C>)
    ensures fresh(t) && TrackerFor(t, entryId, notice)
  {
    t := new LocationTracker(entryId, notice);
  }


  /** `async_setup_entry`: a tracker for every notice whose coordinates extract,
      in the order of the notice list. */
  method SetupEntry<C>(entryId: string, data: Option<Data<C>>) returns (trackers: seq<LocationTracker<C>>)
    ensures |trackers| == |TrackedNotices(data)|
    ensures forall i :: 0 <= i < |trackers| ==>
      fresh(trackers[i]) && TrackerFor(trackers[i], entryId, TrackedNotices(data)[i])
  {
    trackers := [];
    var notices := CurrentNotices(data);
    ghost var located: seq<Notice<C>> := [];
    for i := 0 to |notices|
      invariant located == Filter(HasCoordinates, notices[..i])
      invariant |trackers| == |located|
      invariant forall k :: 0 <= k < |trackers| ==>
        fresh(trackers[k]) && TrackerFor(trackers[k], entryId, located[k])
    {
      assert notices[..i + 1] == notices[..i] + [notices[i]];
      FilterSnoc(HasCoordinates, notices[..i], notices[i]);
      if ExtractCoordinates(notices[i].geometry).Some? {
        var tracker := NewTracker(entryId, notices[i]);
        trackers := trackers + [tracker];
        located := located + [notices[i]];
      }
    }
    assert notices[..|notices|] == notices;
  }
}
