/**
 * Turning a notice's GeoJSON geometry into a `(latitude, longitude)` pair.
 * GeoJSON writes a position longitude first (section 3.1.1 of RFC 7946); the
 * entities want latitude first, so the first two coordinates are swapped.
 */
module GeoJson {
  import opened Wrappers
  import opened Feed

  /** The `coordinates` array the integration looks at: a `Point`'s own, or the
      first member's when the collection's first member is a `Point`. */
  function CandidateCoordinates<C>(g: Geometry<C>): (r: Option<seq<C>>)
    ensures g.Point? ==> r == g.coordinates
    ensures g.Collection? ==>
      r == (if g.geometries != [] && g.geometries[0].Point? then g.geometries[0].coordinates else None)
    ensures g.OtherKind? ==> r == None
  {
    match g
    case Collection(members) =>
      if members != [] && members[0].Point? then members[0].coordinates else None
    case Point(coordinates) => coordinates
    case OtherKind => None
  }

  /** `_extract_coordinates(notice.get("geometry"))`: `(coords[1], coords[0])`
      when there are at least two coordinates, `None` otherwise. */
  function ExtractCoordinates<C>(geometry: Field<Geometry<C>>): (r: Option<(C, C)>)
    ensures !geometry.Val? ==> r == None
    ensures r.Some? <==>
      geometry.Val? && CandidateCoordinates(geometry.v).Some? && |CandidateCoordinates(geometry.v).value| >= 2
    ensures r.Some? ==>
      var cs := CandidateCoordinates(geometry.v).value;
      r.value == (cs[1], cs[0])
  {
    match geometry
    case Val(g) =>
      var coordinates := CandidateCoordinates(g);
      if coordinates.Some? && |coordinates.value| >= 2 then
        Some((coordinates.value[1], coordinates.value[0]))
      else None
    case _ => None
  }

  /** Whether a notice gets an entity: its coordinates extract. */
  predicate HasCoordinates<C>(n: Notice<C>) {
    ExtractCoordinates(n.geometry).Some?
  }

  /** The GeoJSON `Point` for a position, written longitude first as the format requires. */
  function PointAt<C>(lat: C, lon: C): Geometry<C> {
    Point(Some([lon, lat]))
  }

  /** Extraction undoes the GeoJSON encoding of a position: it gives back `(lat, lon)`. */
  lemma ExtractPointAt<C>(lat: C, lon: C)
    ensures ExtractCoordinates(Val(PointAt(lat, lon))) == Some((lat, lon))
  {
  }

  /** Coordinates past the second (an altitude, say) do not change the result. */
  lemma ExtraCoordinatesIgnored<C>(lat: C, lon: C, rest: seq<C>)
    ensures ExtractCoordinates(Val(Point(Some([lon, lat] + rest)))) == Some((lat, lon))
  {
  }

  /** A collection is read through its first member alone: when it is not a
      `Point`, later `Point` members are never used. */
  lemma CollectionUsesFirstMember<C>(first: Geometry<C>, rest: seq<Geometry<C>>)
    ensures ExtractCoordinates(Val(Collection([first] + rest))) ==
            (if first.Point? then ExtractCoordinates(Val(first)) else None)
  {
  }

  /** A collection nested inside a collection gives nothing. */
  lemma NestedCollectionIsNone<C>(inner: seq<Geometry<C>>, rest: seq<Geometry<C>>)
    ensures ExtractCoordinates(Val(Collection([Collection(inner)] + rest))) == None
  {
  }
}
