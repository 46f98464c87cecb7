/**
 * What the tracker and geo-location entities derive from a notice in the same
 * way: the sanitised part of a unique id, the icon, and the state attributes.
 * The integration writes each of these out in both entity files.
 */
module Entity {
  import opened Wrappers
  import opened Feed
  import opened Ascii
  import Const

  /** The f-string rendering of an optional text: `None` prints as `"None"`. */
  function PyText(t: Option<string>): (r: string)
    ensures t.Some? ==> r == t.value
    ensures t.None? ==> r == "None"
  {
    if t.Some? then t.value else "None"
  }

  /** `str()` of an identifier value. */
  function PyStr(v: Option<Scalar>): (r: string)
    ensures v.None? ==> r == "None"
    ensures v.Some? && v.value.Str? ==> r == v.value.s
    ensures v.Some? && v.value.Int? ==> r == IntToString(v.value.i)
  {
    match v
    case None => "None"
    case Some(Str(s)) => s
    case Some(Int(i)) => IntToString(i)
  }

  /** A character a sanitised id may hold: a lower-case letter, a digit or `_`. */
  predicate IsIdChar(c: char) {
    IsLowerLetter(c) || IsDigit(c) || c == '_'
  }

  /** One character through `.lower().replace(" ", "_").replace("-", "_")` and
      the `isalnum() or == "_"` test; `None` when it is dropped. */
  function SafeChar(c: char): (r: Option<char>)
    ensures r.Some? ==> IsIdChar(r.value)
    ensures IsIdChar(c) ==> r == Some(c)
    ensures IsUpper(c) ==> r == Some(Lower(c))
    ensures c == ' ' || c == '-' ==> r == Some('_')
    ensures !IsAlnum(Lower(c)) && c !in " -_" ==> r == None
  {
    var l := Lower(c);
    var m := if l == ' ' || l == '-' then '_' else l;
    if IsAlnum(m) || m == '_' then Some(m) else None
  }

  /** The whole string through the character mapping, before truncation. */
  function Sanitise(s: string): (r: string)
    ensures |r| <= |s|
    ensures forall i :: 0 <= i < |r| ==> IsIdChar(r[i])
  {
    if s == [] then []
    else
      var rest := Sanitise(s[1..]);
      match SafeChar(s[0])
      case Some(c) => [c] + rest
      case None => rest
  }

  /** A string of id characters is its own sanitised form. */
  lemma {:induction false} SanitiseIdChars(s: string)
    requires forall i :: 0 <= i < |s| ==> IsIdChar(s[i])
    ensures Sanitise(s) == s
  {
    if s != [] {
      SanitiseIdChars(s[1..]);
    }
  }

  /** The longest a sanitised id part may be. */
  const SafeIdLength := 50

  /** The sanitised id part: lower case, spaces and hyphens as `_`, only
      alphanumerics and `_`, at most 50 characters. */
  function SafeId(s: string): (r: string)
    ensures |r| <= SafeIdLength
    ensures forall i :: 0 <= i < |r| ==> IsIdChar(r[i])
    ensures r <= Sanitise(s)
    ensures |r| == if |Sanitise(s)| < SafeIdLength then |Sanitise(s)| else SafeIdLength
  {
    var t := Sanitise(s);
    if |t| <= SafeIdLength then t else t[..SafeIdLength]
  }

  /** An id that is already short and sanitised is kept as it is. */
  lemma SafeIdKeepsSafe(s: string)
    requires |s| <= SafeIdLength && forall i :: 0 <= i < |s| ==> IsIdChar(s[i])
    ensures SafeId(s) == s
  {
    SanitiseIdChars(s);
  }

  /** Sanitising twice is sanitising once. */
  lemma SafeIdIdempotent(s: string)
    ensures SafeId(SafeId(s)) == SafeId(s)
  {
    SafeIdKeepsSafe(SafeId(s));
  }

  /** Sanitising works character by character, so it distributes over concatenation. */
  lemma {:induction false} SanitiseAppend(a: string, b: string)
    ensures Sanitise(a + b) == Sanitise(a) + Sanitise(b)
    decreases |a|
  {
    if a != [] {
      assert (a + b)[0] == a[0];
      assert (a + b)[1..] == a[1..] + b;
      SanitiseAppend(a[1..], b);
      match SafeChar(a[0])
      case Some(c) =>
        assert [c] + (Sanitise(a[1..]) + Sanitise(b)) == ([c] + Sanitise(a[1..])) + Sanitise(b);
      case None =>
    } else {
      assert a + b == b;
    }
  }

  /** The first character is mapped on its own, ahead of the rest. */
  lemma SanitiseCons(c: char, s: string)
    ensures Sanitise([c] + s) == (match SafeChar(c) case Some(m) => [m] case None => []) + Sanitise(s)
  {
    assert ([c] + s)[1..] == s;
  }

  lemma SanitiseLock()
    ensures Sanitise("Lock") == "lock"
  {
  }

  lemma SanitiseSeparators()
    ensures Sanitise(" 5-A") == "_5_a"
  {
  }

  /** Upper case, spaces and hyphens are folded: `"Lock 5-A"` becomes `"lock_5_a"`. */
  lemma SafeIdExample(s: string)
    requires s == "Lock 5-A"
    ensures SafeId(s) == "lock_5_a"
  {
    assert s == "Lock" + " 5-A";
    SanitiseAppend("Lock", " 5-A");
    SanitiseLock();
    SanitiseSeparators();
  }

  /** The icon: a lock for closures (`typeId` 2), a construction sign otherwise. */
  function Icon(typeId: Field<int>): (icon: string)
    ensures icon == "mdi:lock-alert" <==> typeId == Val(2)
    ensures icon != "mdi:lock-alert" ==> icon == "mdi:construction"
  {
    if IdOr0(typeId) == 2 then "mdi:lock-alert" else "mdi:construction"
  }

  /** The lock icon marks exactly the notices the type table calls closures. */
  lemma IconMarksClosures(typeId: Field<int>)
    ensures Icon(typeId) == "mdi:lock-alert" <==> Const.TypeName(Get(typeId)) == "Closure"
  {
  }

  /** The `extra_state_attributes` dict; `source` is `None` where the dict has no such key. */
  datatype Attributes = Attributes(
    title: Option<string>,
    region: Option<string>,
    waterways: Option<string>,
    typeName: string,
    reasonName: string,
    startDate: Option<string>,
    endDate: Option<string>,
    state: Option<string>,
    programmeId: Option<int>,
    source: Option<string>)

  /** The attributes both entity kinds show for a notice, with `source` as given. */
  function NoticeAttributes<C>(n: Notice<C>, source: Option<string>): (r: Attributes)
    ensures n.title.Absent? ==> r.title == Some("Unknown")
    ensures n.region.Absent? ==> r.region == Some("Unknown")
    ensures n.waterways.Absent? ==> r.waterways == Some("Unknown")
    ensures n.state.Absent? ==> r.state == Some("Unknown")
    ensures n.title.Val? ==> r.title == Some(n.title.v)
    ensures n.region.Val? ==> r.region == Some(n.region.v)
    ensures n.waterways.Val? ==> r.waterways == Some(n.waterways.v)
    ensures n.state.Val? ==> r.state == Some(n.state.v)
    ensures n.title.Null? ==> r.title == None
    ensures n.region.Null? ==> r.region == None
    ensures n.waterways.Null? ==> r.waterways == None
    ensures n.state.Null? ==> r.state == None
    ensures r.typeName == Const.TypeName(Get(n.typeId))
    ensures r.reasonName == Const.ReasonName(Get(n.reasonId))
    ensures r.typeName == "Unknown" <==> !(n.typeId.Val? && 1 <= n.typeId.v <= 4)
    ensures r.reasonName == "Unknown" <==> !(n.reasonId.Val? && 1 <= n.reasonId.v <= 6)
    ensures r.startDate == Get(n.start) && r.endDate == Get(n.end) && r.programmeId == Get(n.programmeId)
    ensures r.source == source
  {
    Attributes(
      GetOr(n.title, "Unknown"),
      GetOr(n.region, "Unknown"),
      GetOr(n.waterways, "Unknown"),
      Const.TypeName(Get(n.typeId)),
      Const.ReasonName(Get(n.reasonId)),
      Get(n.start),
      Get(n.end),
      GetOr(n.state, "Unknown"),
      Get(n.programmeId),
      source)
  }

  /** The attributes and the icon agree: the lock icon shows exactly on the
      notices whose attributes name them closures. */
  lemma AttributesAgreeWithIcon<C>(n: Notice<C>, source: Option<string>)
    ensures NoticeAttributes(n, source).typeName == "Closure" <==> Icon(n.typeId) == "mdi:lock-alert"
  {
    IconMarksClosures(n.typeId);
  }
}
