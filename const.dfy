/** The constants of the integration: option names and defaults, the query, the label tables. */
module Const {
  import opened Wrappers

  const Domain := "canal_river_trust"

  const ConfUpdateInterval := "update_interval"
  const ConfLocationFilter := "location_filter"
  const ConfIncludePlanned := "include_planned"
  const ConfIncludeEmergency := "include_emergency"

  /** Minutes between refreshes when the option is not set (four hours). */
  const DefaultUpdateInterval := 240
  const DefaultIncludePlanned := true
  const DefaultIncludeEmergency := true

  const ApiBaseUrl := "https://canalrivertrust.org.uk/api"
  const StoppagesEndpoint := ApiBaseUrl + "/stoppage/notices"

  /** The fields requested from the feed, in order. */
  const ApiFields := ["title", "region", "waterways", "path", "typeId", "reasonId",
                      "programmeId", "start", "end", "state"]

  /** The names joined with commas, as the `fields` parameter lists them: for `ApiFields`
      this is `"title,region,waterways,path,typeId,reasonId,programmeId,start,end,state"`. */
  function JoinFields(names: seq<string>): string
    decreases |names|
  {
    if names == [] then ""
    else if |names| == 1 then names[0]
    else names[0] + "," + JoinFields(names[1..])
  }

  /** The fixed query parameters sent with every request. */
  const ApiParams: map<string, string> := map[
    "consult" := "false",
    "geometry" := "point",
    "fields" := JoinFields(ApiFields)
  ]

  /** Upstream `typeId` values and their labels. */
  const TypeMappings: map<int, string> := map[
    1 := "Stoppage",
    2 := "Closure",
    3 := "Restriction",
    4 := "Advisory"
  ]

  /** Upstream `reasonId` values and their labels. */
  const ReasonMappings: map<int, string> := map[
    1 := "Maintenance",
    2 := "Lock Works",
    3 := "Bridge Works",
    4 := "Emergency",
    5 := "Water Level",
    6 := "Vegetation"
  ]

  /** Every module-level name the constants file defines. */
  const DefinedNames: set<string> := {
    "DOMAIN", "CONF_UPDATE_INTERVAL", "CONF_LOCATION_FILTER", "CONF_INCLUDE_PLANNED",
    "CONF_INCLUDE_EMERGENCY", "DEFAULT_UPDATE_INTERVAL", "DEFAULT_INCLUDE_PLANNED",
    "DEFAULT_INCLUDE_EMERGENCY", "API_BASE_URL", "STOPPAGES_ENDPOINT", "API_PARAMS",
    "ATTR_NOTICES", "ATTR_LAST_UPDATED", "ATTR_TITLE", "ATTR_REGION", "ATTR_WATERWAYS",
    "ATTR_START_DATE", "ATTR_END_DATE", "ATTR_STATE", "ATTR_TYPE_ID", "ATTR_REASON_ID",
    "ATTR_PROGRAMME_ID", "ATTR_COORDINATES", "TYPE_MAPPINGS", "REASON_MAPPINGS"
  }

  /** The query is fixed: exactly three parameters, no consultations, point geometry,
      the ten requested fields. */
  lemma FixedQuery()
    ensures ApiParams.Keys == {"consult", "geometry", "fields"}
    ensures |ApiFields| == 10
    ensures "consult" in ApiParams && ApiParams["consult"] == "false"
    ensures "geometry" in ApiParams && ApiParams["geometry"] == "point"
    ensures "fields" in ApiParams && ApiParams["fields"] == JoinFields(ApiFields)
  {
  }

  /** `TYPE_MAPPINGS.get(type_id, "Unknown")`; `None` stands for a missing or `null` id. */
  function TypeName(typeId: Option<int>): (name: string)
    ensures name != "Unknown" <==> typeId.Some? && 1 <= typeId.value <= 4
    ensures typeId == Some(1) ==> name == "Stoppage"
    ensures typeId == Some(2) ==> name == "Closure"
    ensures typeId == Some(3) ==> name == "Restriction"
    ensures typeId == Some(4) ==> name == "Advisory"
  {
    if typeId.Some? && typeId.value in TypeMappings then TypeMappings[typeId.value] else "Unknown"
  }

  /** `REASON_MAPPINGS.get(reason_id, "Unknown")`; `None` stands for a missing or `null` id. */
  function ReasonName(reasonId: Option<int>): (name: string)
    ensures name != "Unknown" <==> reasonId.Some? && 1 <= reasonId.value <= 6
    ensures reasonId == Some(1) ==> name == "Maintenance"
    ensures reasonId == Some(2) ==> name == "Lock Works"
    ensures reasonId == Some(3) ==> name == "Bridge Works"
    ensures reasonId == Some(4) ==> name == "Emergency"
    ensures reasonId == Some(5) ==> name == "Water Level"
    ensures reasonId == Some(6) ==> name == "Vegetation"
  {
    if reasonId.Some? && reasonId.value in ReasonMappings then ReasonMappings[reasonId.value] else "Unknown"
  }

  /** The labels are distinct, so a label names its id. */
  lemma ReasonNamesDistinct(a: int, b: int)
    requires a in ReasonMappings && b in ReasonMappings && ReasonMappings[a] == ReasonMappings[b]
    ensures a == b
  {
  }
}
