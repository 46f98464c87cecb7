/**
 * The records of the notices feed. The integration handles them as Python dicts read
 * with `dict.get`; here each key becomes a field saying whether the key is
 * missing, holds JSON `null`, or holds a value.
 */
module Feed {
  import opened Wrappers

  /** One key of a JSON object: missing, `null`, or a value. */
  datatype Field<+T> = Absent | Null | Val(v: T)

  /** `d.get(key)`: the value, or `None` for a missing key or a `null`. */
  function Get<T>(f: Field<T>): (r: Option<T>)
    ensures r.Some? <==> f.Val?
    ensures f.Val? ==> r.value == f.v
  {
    match f
    case Val(v) => Some(v)
    case _ => None
  }

  /** `d.get(key, default)`: the default only for a missing key; a `null` reads as `None`. */
  function GetOr<T>(f: Field<T>, default: T): (r: Option<T>)
    ensures f.Absent? ==> r == Some(default)
    ensures f.Null? ==> r == None
    ensures f.Val? ==> r == Some(f.v)
  {
    match f
    case Absent => Some(default)
    case Null => None
    case Val(v) => Some(v)
  }

  /** Python truthiness of a string-valued key: present, not `null`, not empty. */
  predicate TruthyText(f: Field<string>) {
    f.Val? && f.v != ""
  }

  /** A notice identifier as JSON carries it: a string or a number. */
  datatype Scalar = Str(s: string) | Int(i: int)

  /**
   * A GeoJSON geometry object (section 3.1 of RFC 7946), as far as the
   * integration inspects it: a `Point` with its optional `coordinates` array, a
   * `GeometryCollection` with its `geometries` (a missing list reads as empty),
   * or any other object (another type, no `type`, or the empty object).
   * `C` is the coordinate type; the integration only reorders and selects coordinates.
   */
  datatype Geometry<+C> =
    | Point(coordinates: Option<seq<C>>)
    | Collection(geometries: seq<Geometry<C>>)
    | OtherKind

  /** One upstream notice: the `attributes` record of a feature. `geometry` is what
      `notice.get("geometry")` reads; the client never attaches one, so for fetched
      data it is always absent. */
  datatype Notice<+C> = Notice(
    id: Field<Scalar>,
    title: Field<string>,
    region: Field<string>,
    waterways: Field<string>,
    typeId: Field<int>,
    reasonId: Field<int>,
    programmeId: Field<int>,
    start: Field<string>,
    end: Field<string>,
    state: Field<string>,
    geometry: Field<Geometry<C>>)

  /** `d.get(key, 0)` on an integer key, read as an integer: `null` compares
      unequal to every id, exactly as the default 0 does for the ids in use. */
  function IdOr0(f: Field<int>): (r: int)
    ensures f.Val? ==> r == f.v
    ensures !f.Val? ==> r == 0
  {
    if f.Val? then f.v else 0
  }

  /**
   * The data dict shared through the coordinator, restricted to the keys the
   * code reads or writes: `closures`, `stoppages`, `last_updated` and
   * `notices`. `None` is a missing key.
   */
  datatype Data<+C> = Data(
    closures: Option<seq<Notice<C>>>,
    stoppages: Option<seq<Notice<C>>>,
    lastUpdated: Option<string>,
    notices: Option<seq<Notice<C>>>)

  /** Python truthiness of the data dict: `None` or an empty dict is false. */
  predicate DataTruthy<C>(d: Option<Data<C>>) {
    d.Some? && !(d.value.closures.None? && d.value.stoppages.None?
                 && d.value.lastUpdated.None? && d.value.notices.None?)
  }

  /** `data.get("notices", [])`. */
  function NoticesOf<C>(d: Data<C>): (r: seq<Notice<C>>)
    ensures d.notices.None? ==> r == []
    ensures d.notices.Some? ==> r == d.notices.value
  {
    d.notices.GetOr([])
  }

  /** The notice list an entity platform reads: `data.get("notices", [])` when
      the coordinator holds truthy data, nothing otherwise. */
  function CurrentNotices<C>(data: Option<Data<C>>): (r: seq<Notice<C>>)
    ensures !DataTruthy(data) ==> r == []
    ensures DataTruthy(data) ==> r == NoticesOf(data.value)
  {
    if DataTruthy(data) then NoticesOf(data.value) else []
  }
}
