/** The two record normalisers: a provider response in, either "no data" or one flat
    record per entry of its `results`, or the exception Python raises on the way. */
module Normalizer {
  import opened Wrappers
  import opened Json
  import opened Geometry

  /** One row of the flow table before enrichment. Text fields default to the empty
      string and numeric fields to null; `geometry` is `None` when the record has no
      geometry column value at all. */
  datatype FlowRecord = FlowRecord(
    locationDescription: J,
    speed: J,
    speedLimit: J,
    jamFactor: J,
    confidence: J,
    freeFlowSpeed: J,
    traversability: J,
    geometry: Option<seq<Point>>)

  /** One row of the incidents table before enrichment. */
  datatype IncidentRecord = IncidentRecord(
    incidentId: J,
    incidentType: J,
    description: J,
    criticality: J,
    startTime: J,
    geometry: Option<seq<Point>>)

  /** The flow record of one entry of `results`. */
  function FlowRecordOf(result: J): Py<FlowRecord> {
    var location :- Get(result, "location", EmptyObj);
    var currentFlow :- Get(result, "currentFlow", EmptyObj);
    var description :- Get(location, "description", JStr(""));
    var speed :- Get(currentFlow, "speed", JNull);
    var speedLimit :- Get(currentFlow, "speedLimit", JNull);
    var jamFactor :- Get(currentFlow, "jamFactor", JNull);
    var confidence :- Get(currentFlow, "confidence", JNull);
    var freeFlowSpeed :- Get(currentFlow, "freeFlowSpeed", JNull);
    var traversability :- Get(currentFlow, "traversability", JStr(""));
    var geometry :- GeometryOf(location);
    Ok(FlowRecord(description, speed, speedLimit, jamFactor, confidence,
                  freeFlowSpeed, traversability, geometry))
  }

  /** The incident record of one entry of `results`. Unlike the flow normaliser, this one
      never calls `get` on the location, so only the geometry block inspects it. */
  function IncidentRecordOf(incident: J): Py<IncidentRecord> {
    var location :- Get(incident, "location", EmptyObj);
    var details :- Get(incident, "incidentDetails", EmptyObj);
    var incidentId :- Get(incident, "incidentId", JStr(""));
    var incidentType :- Get(details, "type", JStr(""));
    var descriptionObj :- Get(details, "description", EmptyObj);
    var description :- Get(descriptionObj, "value", JStr(""));
    var criticality :- Get(details, "criticality", JStr(""));
    var startTime :- Get(details, "startTime", JStr(""));
    var geometry :- GeometryOf(location);
    Ok(IncidentRecord(incidentId, incidentType, description, criticality, startTime, geometry))
  }

  /** `for item in data['results']`, one record per item visited. Iterating a dict visits
      its keys, which are strings; both record functions start with `item.get`, which a
      string lacks, so a non-empty dict fails whatever order its keys come in. */
  function RecordsIn<R>(results: J, recordOf: J -> Py<R>): Py<seq<R>> {
    match results
    case JArr(items) => MapAll(recordOf, items)
    case JStr(s) => MapAll(recordOf, Chars(s))
    case JObj(m) => if |m| == 0 then Ok([]) else Err(AttributeError)
    case _ => Err(TypeError)
  }

  /** The shared shape of both normalisers: "no data" for a falsy response or one without
      `results`, otherwise the batch of records. */
  function Normalize<R>(data: J, recordOf: J -> Py<R>): (r: Py<Option<seq<R>>>)
    ensures HasResultsList(data) ==> r == (var records :- MapAll(recordOf, ResultsList(data)); Ok(Some(records)))
  {
    if !Truthy(data) then Ok(None)
    else
      var hasResults :- Contains(data, "results");
      if !hasResults then Ok(None)
      else
        var results :- Index(data, "results");
        var records :- RecordsIn(results, recordOf);
        Ok(Some(records))
  }

  /** The `results` list of a dict response, when it has one. */
  predicate HasResultsList(data: J) {
    data.JObj? && "results" in data.fields && data.fields["results"].JArr?
  }

  function ResultsList(data: J): seq<J>
    requires HasResultsList(data)
  {
    data.fields["results"].items
  }

  /** Flow response to flow records. */
  function ParseFlow(data: J): (r: Py<Option<seq<FlowRecord>>>)
    ensures r == Ok(None) <==> !Truthy(data) || Contains(data, "results") == Ok(false)
    ensures r.Ok? && r.value.Some? ==> data.JObj? && "results" in data.fields
    ensures HasResultsList(data) ==>
              (r.Ok? <==> forall i :: 0 <= i < |ResultsList(data)| ==> FlowRecordOf(ResultsList(data)[i]).Ok?)
    ensures HasResultsList(data) && r.Ok? ==>
              && r.value.Some?
              && |r.value.value| == |ResultsList(data)|
              && forall i :: 0 <= i < |ResultsList(data)| ==> FlowRecordOf(ResultsList(data)[i]) == Ok(r.value.value[i])
    ensures data.JObj? && "results" in data.fields && data.fields["results"] in {EmptyObj, JStr("")} ==> r == Ok(Some([]))
  {
    Normalize(data, FlowRecordOf)
  }

  /** Incidents response to incident records. */
  function ParseIncidents(data: J): (r: Py<Option<seq<IncidentRecord>>>)
    ensures r == Ok(None) <==> !Truthy(data) || Contains(data, "results") == Ok(false)
    ensures r.Ok? && r.value.Some? ==> data.JObj? && "results" in data.fields
    ensures HasResultsList(data) ==>
              (r.Ok? <==> forall i :: 0 <= i < |ResultsList(data)| ==> IncidentRecordOf(ResultsList(data)[i]).Ok?)
    ensures HasResultsList(data) && r.Ok? ==>
              && r.value.Some?
              && |r.value.value| == |ResultsList(data)|
              && forall i :: 0 <= i < |ResultsList(data)| ==> IncidentRecordOf(ResultsList(data)[i]) == Ok(r.value.value[i])
    ensures data.JObj? && "results" in data.fields && data.fields["results"] in {EmptyObj, JStr("")} ==> r == Ok(Some([]))
  {
    Normalize(data, IncidentRecordOf)
  }

  // Which responses the normalisers accept without raising, stated declaratively.

  /** The dict-valued field of an entry, after `get` has supplied `{}` for a missing one. */
  function ObjectField(m: map<string, J>, key: string): J {
    FieldOr(m, key, EmptyObj)
  }

  predicate FlowEntryConforms(item: J) {
    && item.JObj?
    && ObjectField(item.fields, "location").JObj?
    && LocationConforms(ObjectField(item.fields, "location"))
    && ObjectField(item.fields, "currentFlow").JObj?
  }

  predicate IncidentEntryConforms(item: J) {
    && item.JObj?
    && ObjectField(item.fields, "incidentDetails").JObj?
    && ObjectField(ObjectField(item.fields, "incidentDetails").fields, "description").JObj?
    && LocationConforms(ObjectField(item.fields, "location"))
  }

  /** The value under `results` yields only entries satisfying `entryConforms`. */
  predicate ResultsConform(results: J, entryConforms: J -> bool) {
    match results
    case JArr(items) => forall i :: 0 <= i < |items| ==> entryConforms(items[i])
    case JStr(s) => s == []
    case JObj(m) => |m| == 0
    case _ => false
  }

  predicate FlowResultsConform(results: J) {
    ResultsConform(results, FlowEntryConforms)
  }

  predicate IncidentResultsConform(results: J) {
    ResultsConform(results, IncidentEntryConforms)
  }

  predicate FlowResponseConforms(data: J) {
    !Truthy(data) || KeyConforms(data, "results", FlowResultsConform)
  }

  predicate IncidentsResponseConforms(data: J) {
    !Truthy(data) || KeyConforms(data, "results", IncidentResultsConform)
  }

  /** A flow entry yields a record exactly when its location and current flow are dicts
      and its shape passes the geometry block; missing fields never drop it. */
  lemma FlowRecordSucceeds(item: J)
    ensures FlowRecordOf(item).Ok? <==> FlowEntryConforms(item)
  {
    if item.JObj? {
      GeometrySucceeds(ObjectField(item.fields, "location"));
    }
  }

  /** An incident entry yields a record exactly when its details and their description
      are dicts and its location passes the geometry block. */
  lemma IncidentRecordSucceeds(item: J)
    ensures IncidentRecordOf(item).Ok? <==> IncidentEntryConforms(item)
  {
    if item.JObj? {
      GeometrySucceeds(ObjectField(item.fields, "location"));
    }
  }

  lemma RecordsInSucceeds<R>(results: J, recordOf: J -> Py<R>, entryConforms: J -> bool)
    requires forall x :: recordOf(x).Ok? <==> entryConforms(x)
    requires forall c :: !entryConforms(JStr([c]))
    ensures RecordsIn(results, recordOf).Ok? <==> ResultsConform(results, entryConforms)
  {
    match results
    case JStr(s) =>
      if s != [] {
        assert Chars(s)[0] == JStr([s[0]]);
        assert recordOf(Chars(s)[0]).Err?;
      }
    case _ =>
  }

  /** The flow normaliser raises exactly on the responses `FlowResponseConforms` rules out. */
  lemma ParseFlowSucceeds(data: J)
    ensures ParseFlow(data).Ok? <==> FlowResponseConforms(data)
  {
    forall x ensures FlowRecordOf(x).Ok? <==> FlowEntryConforms(x) {
      FlowRecordSucceeds(x);
    }
    if Truthy(data) && data.JObj? && "results" in data.fields {
      RecordsInSucceeds(data.fields["results"], FlowRecordOf, FlowEntryConforms);
    }
  }

  /** The incidents normaliser raises exactly on the responses `IncidentsResponseConforms` rules out. */
  lemma ParseIncidentsSucceeds(data: J)
    ensures ParseIncidents(data).Ok? <==> IncidentsResponseConforms(data)
  {
    forall x ensures IncidentRecordOf(x).Ok? <==> IncidentEntryConforms(x) {
      IncidentRecordSucceeds(x);
    }
    if Truthy(data) && data.JObj? && "results" in data.fields {
      RecordsInSucceeds(data.fields["results"], IncidentRecordOf, IncidentEntryConforms);
    }
  }

  /** Each flow field is the provider's value when present and its default when missing,
      including when the whole `location` or `currentFlow` object is missing. */
  lemma FlowFieldsDefaulted(item: J)
    requires FlowEntryConforms(item)
    ensures FlowRecordOf(item).Ok?
    ensures var rec := FlowRecordOf(item).value;
            var location := ObjectField(item.fields, "location").fields;
            var flow := ObjectField(item.fields, "currentFlow").fields;
            && rec.locationDescription == FieldOr(location, "description", JStr(""))
            && rec.speed == FieldOr(flow, "speed", JNull)
            && rec.speedLimit == FieldOr(flow, "speedLimit", JNull)
            && rec.jamFactor == FieldOr(flow, "jamFactor", JNull)
            && rec.confidence == FieldOr(flow, "confidence", JNull)
            && rec.freeFlowSpeed == FieldOr(flow, "freeFlowSpeed", JNull)
            && rec.traversability == FieldOr(flow, "traversability", JStr(""))
            && (rec.geometry.Some? <==> HasLinks(ObjectField(item.fields, "location")))
  {
    FlowRecordSucceeds(item);
  }

  /** Each incident field is the provider's value when present and its default when missing;
      a missing `description` object gives an empty description. */
  lemma IncidentFieldsDefaulted(item: J)
    requires IncidentEntryConforms(item)
    ensures IncidentRecordOf(item).Ok?
    ensures var rec := IncidentRecordOf(item).value;
            var details := ObjectField(item.fields, "incidentDetails").fields;
            && rec.incidentId == FieldOr(item.fields, "incidentId", JStr(""))
            && rec.incidentType == FieldOr(details, "type", JStr(""))
            && rec.description == FieldOr(ObjectField(details, "description").fields, "value", JStr(""))
            && rec.criticality == FieldOr(details, "criticality", JStr(""))
            && rec.startTime == FieldOr(details, "startTime", JStr(""))
            && (rec.geometry.Some? <==> HasLinks(ObjectField(item.fields, "location")))
  {
    IncidentRecordSucceeds(item);
  }

  /** The closed form for a dict of results agrees with iterating its keys in any order,
      for any record function that, like both normalisers', rejects a string entry. */
  lemma DictResultsAnyOrder<R>(recordOf: J -> Py<R>, m: map<string, J>, keys: seq<string>)
    requires forall k :: k in m <==> k in keys
    requires forall k | k in m :: recordOf(JStr(k)) == Err(AttributeError)
    ensures RecordsIn(JObj(m), recordOf) == MapAll(recordOf, seq(|keys|, i requires 0 <= i < |keys| => JStr(keys[i])))
  {
    var xs := seq(|keys|, i requires 0 <= i < |keys| => JStr(keys[i]));
    if |m| != 0 {
      var k :| k in m;
      var i :| 0 <= i < |keys| && keys[i] == k;
      assert xs[i] == JStr(k);
      var r := MapAll(recordOf, xs);
      assert r.Err?;
      var j :| 0 <= j < |xs| && recordOf(xs[j]) == Err(r.error);
      assert keys[j] in m;
    } else {
      assert m == map[];
    }
  }
}
