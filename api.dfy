/**
 * The feed client's decision logic. The HTTP exchange is abstracted to its
 * outcome: a response (status and the body `response.json()` would give), a
 * timeout, or another client error. Every failure is turned into an empty list.
 */
module Api {
  import opened Wrappers
  import opened Feed
  import Const

  /** One element of the `features` array; `attributes` is `None` when the key is missing. */
  datatype Feature<+C> = Feature(attributes: Option<Notice<C>>)

  /** The value under `features`: an array of feature objects, or anything else
      (an object, a string, a number, `null`), which the code cannot use. */
  datatype FeatureList<+C> = Items(items: seq<Feature<C>>) | NotAList

  /** A parsed JSON body: an object, whose `features` key may be missing, or a
      value that is not an object (array, string, number, boolean, `null`). */
  datatype Body<+C> = Object(features: Option<FeatureList<C>>) | NotObject

  /** An HTTP response; `body` is `None` when `response.json()` raises (the
      content type is not JSON or the text does not parse). */
  datatype Response<+C> = Response(status: int, body: Option<Body<C>>)

  /** What a request ends in. */
  datatype Outcome<+C> = Responded(response: Response<C>) | TimedOut | ClientError

  /** The features of a usable answer: a 200 response whose JSON object has a
      `features` array. `None` for every other outcome. */
  function Features<C>(outcome: Outcome<C>): (r: Option<seq<Feature<C>>>)
    ensures r.Some? ==> outcome == Responded(Response(200, Some(Object(Some(Items(r.value))))))
    ensures outcome.Responded? && outcome.response.status != 200 ==> r.None?
    ensures outcome.TimedOut? || outcome.ClientError? ==> r.None?
  {
    if outcome.Responded? && outcome.response.status == 200
       && outcome.response.body.Some? && outcome.response.body.value.Object?
       && outcome.response.body.value.features.Some?
       && outcome.response.body.value.features.value.Items?
    then Some(outcome.response.body.value.features.value.items)
    else None
  }

  /** `[feature["attributes"] for feature in features]`; `None` when a feature
      lacks `attributes` and the comprehension raises `KeyError`. */
  function AttributesOf<C>(features: seq<Feature<C>>): (r: Option<seq<Notice<C>>>)
    ensures r.Some? <==> forall i :: 0 <= i < |features| ==> features[i].attributes.Some?
    ensures r.Some? ==> |r.value| == |features|
    ensures r.Some? ==> forall i :: 0 <= i < |features| ==> r.value[i] == features[i].attributes.value
  {
    if features == [] then Some([])
    else if features[0].attributes.None? then None
    else
      match AttributesOf(features[1..])
      case None => None
      case Some(rest) => Some([features[0].attributes.value] + rest)
  }

  /**
   * `get_closures` and `get_stoppages` (the two differ only in the endpoint):
   * the attribute records of the features of a 200 answer, in order, and `[]`
   * for every other outcome, including a feature without `attributes`.
   */
  function FetchNotices<C>(outcome: Outcome<C>): (r: seq<Notice<C>>)
    ensures Features(outcome).None? ==> r == []
    ensures Features(outcome).Some? && AttributesOf(Features(outcome).value).None? ==> r == []
    ensures Features(outcome).Some? && AttributesOf(Features(outcome).value).Some? ==>
      var features := Features(outcome).value;
      |r| == |features| && forall i :: 0 <= i < |r| ==> r[i] == features[i].attributes.value
  {
    match outcome
    case TimedOut => []
    case ClientError => []
    case Responded(response) =>
      if response.status != 200 then []
      else
        match response.body
        case None => []
        case Some(NotObject) => []
        case Some(Object(None)) => []
        case Some(Object(Some(NotAList))) => []
        case Some(Object(Some(Items(features)))) => AttributesOf(features).GetOr([])
  }

  /** A non-200 status gives no notices, whatever the body. */
  lemma NonOkStatusIsEmpty<C>(status: int, body: Option<Body<C>>)
    requires status != 200
    ensures FetchNotices(Responded(Response(status, body))) == []
  {
  }

  /** A feature without `attributes` empties the whole list, not just its own entry. */
  lemma MissingAttributesEmptiesAll<C>(before: seq<Feature<C>>, after: seq<Feature<C>>)
    ensures FetchNotices(Responded(Response(200, Some(Object(Some(Items(before + [Feature(None)] + after))))))) == []
  {
    var fs := before + [Feature(None)] + after;
    assert fs[|before|].attributes.None?;
  }

  /** `get_all_data`: the two lists, with a raised exception read as `[]`, and
      the time of the call. `now` is `datetime.now().isoformat()`. */
  function GetAllData<C>(closures: Result<seq<Notice<C>>, string>, stoppages: Result<seq<Notice<C>>, string>,
                         now: string): (r: Data<C>)
    ensures r.closures == Some(if closures.Ok? then closures.value else [])
    ensures r.stoppages == Some(if stoppages.Ok? then stoppages.value else [])
    ensures r.lastUpdated == Some(now)
    ensures r.notices == None
  {
    var c := if closures.Ok? then closures.value else [];
    var s := if stoppages.Ok? then stoppages.value else [];
    Data(Some(c), Some(s), Some(now), None)
  }

  /** One refresh of the client: both requests, then `get_all_data`'s assembly.
      Neither helper raises, so each list is its helper's result. */
  function FetchAll<C>(closuresOutcome: Outcome<C>, stoppagesOutcome: Outcome<C>, now: string): (r: Data<C>)
    ensures r.closures == Some(FetchNotices(closuresOutcome))
    ensures r.stoppages == Some(FetchNotices(stoppagesOutcome))
    ensures r.lastUpdated == Some(now) && r.notices == None
  {
    GetAllData(Ok(FetchNotices(closuresOutcome)), Ok(FetchNotices(stoppagesOutcome)), now)
  }

  /** The names the client imports from the constants file. */
  const ImportedNames: set<string> := {"API_PARAMS", "CLOSURES_ENDPOINT", "STOPPAGES_ENDPOINT"}

  /** The constants file defines no `CLOSURES_ENDPOINT`, so the client's import
      of it cannot be resolved; the other two names are defined. */
  lemma ClosuresEndpointUndefined()
    ensures "CLOSURES_ENDPOINT" in ImportedNames && "CLOSURES_ENDPOINT" !in Const.DefinedNames
    ensures ImportedNames - Const.DefinedNames == {"CLOSURES_ENDPOINT"}
  {
  }
}
