/** One collection run: normalise both responses, stamp both batches with the one
    capture instant, then write flow and incidents to the store. */
module Collector {
  import opened Wrappers
  import opened Json
  import opened Normalizer
  import opened Enrich
  import opened Store

  /** A stored row: a stamped record of one of the two kinds. */
  datatype Row =
    | FlowRow(flow: Stamped<FlowRecord>)
    | IncidentRow(incident: Stamped<IncidentRecord>)

  /** The store after a run, and the exception that ended the run early, if any. */
  datatype RunOutcome = RunOutcome(db: Db<Row>, failure: Option<PyError>)

  /** The number of rows in a batch; an absent batch has none. */
  function BatchSize<R>(batch: Option<seq<R>>): nat {
    if batch.Some? then |batch.value| else 0
  }

  /** The row's four enrichment columns are all taken from `t`. */
  predicate RowStampedAt(row: Row, t: Instant) {
    match row
    case FlowRow(s) => StampedAt(s, t)
    case IncidentRow(s) => StampedAt(s, t)
  }

  /** Every row a run appended to any table, beyond what `db` held, is stamped at `t`. */
  ghost predicate NewRowsStampedAt(db: Db<Row>, db': Db<Row>, t: Instant) {
    forall k, i | k in db' && |TableOr(db, k)| <= i < |db'[k]| :: RowStampedAt(db'[k][i], t)
  }

  /** Every row of a present batch is stamped at `t`. */
  predicate BatchStampedAt(batch: Option<seq<Row>>, t: Instant) {
    batch.Some? ==> forall i :: 0 <= i < |batch.value| ==> RowStampedAt(batch.value[i], t)
  }

  /** Writing a batch stamped at `t` to one table adds only rows stamped at `t`. */
  lemma WriteStampsNewRows(db: Db<Row>, name: string, batch: Option<seq<Row>>, t: Instant)
    requires BatchStampedAt(batch, t)
    ensures NewRowsStampedAt(db, WriteBatch(db, name, batch), t)
  {
    var r := WriteBatch(db, name, batch);
    forall k, i | k in r && |TableOr(db, k)| <= i < |r[k]| ensures RowStampedAt(r[k][i], t) {
      var prior := TableOr(db, k);
      assert k == name && HasRows(batch);
      assert r[k] == prior + batch.value;
      assert r[k][i] == batch.value[i - |prior|];
    }
  }

  /** Two runs of additions stamped at `t` add only rows stamped at `t`. */
  lemma NewRowsStampedAtTransitive(a: Db<Row>, b: Db<Row>, c: Db<Row>, t: Instant)
    requires Extends(a, b) && Extends(b, c)
    requires NewRowsStampedAt(a, b, t) && NewRowsStampedAt(b, c, t)
    ensures NewRowsStampedAt(a, c, t)
  {
    forall k, i | k in c && |TableOr(a, k)| <= i < |c[k]| ensures RowStampedAt(c[k][i], t) {
      if k in b && i < |b[k]| {
        assert b[k] <= c[k];
        assert c[k][i] == b[k][i];
      }
    }
  }

  /** Writing batches stamped at `t` adds only rows stamped at `t`. */
  lemma SaveStampsNewRows(db: Db<Row>, flow: Option<seq<Row>>, incidents: Option<seq<Row>>, t: Instant)
    requires BatchStampedAt(flow, t) && BatchStampedAt(incidents, t)
    ensures NewRowsStampedAt(db, Save(db, flow, incidents), t)
  {
    var afterFlow := WriteBatch(db, FlowTable, flow);
    WriteStampsNewRows(db, FlowTable, flow, t);
    WriteStampsNewRows(afterFlow, IncidentsTable, incidents, t);
    WriteBatchExtends(db, FlowTable, flow);
    WriteBatchExtends(afterFlow, IncidentsTable, incidents);
    NewRowsStampedAtTransitive(db, afterFlow, WriteBatch(afterFlow, IncidentsTable, incidents), t);
  }

  function FlowRows(batch: Option<seq<Stamped<FlowRecord>>>): (r: Option<seq<Row>>)
    ensures r.Some? <==> batch.Some?
    ensures r.Some? ==> |r.value| == |batch.value|
    ensures forall t :: batch.Some? && AllStampedAt(batch.value, t) ==> BatchStampedAt(r, t)
  {
    match batch
    case None => None
    case Some(rows) => Some(seq(|rows|, i requires 0 <= i < |rows| => FlowRow(rows[i])))
  }

  function IncidentRows(batch: Option<seq<Stamped<IncidentRecord>>>): (r: Option<seq<Row>>)
    ensures r.Some? <==> batch.Some?
    ensures r.Some? ==> |r.value| == |batch.value|
    ensures forall t :: batch.Some? && AllStampedAt(batch.value, t) ==> BatchStampedAt(r, t)
  {
    match batch
    case None => None
    case Some(rows) => Some(seq(|rows|, i requires 0 <= i < |rows| => IncidentRow(rows[i])))
  }

  /** The run on the two fetch results; a failed fetch is `null`. Either normaliser can
      raise, and then the run ends before the store is opened. */
  function Collect(db: Db<Row>, flowData: J, incidentsData: J, t: Instant): (r: RunOutcome)
    requires ValidInstant(t)
    ensures r.failure.None? <==> ParseFlow(flowData).Ok? && ParseIncidents(incidentsData).Ok?
    ensures r.failure.Some? ==> r.db == db
    ensures Extends(db, r.db)
    ensures r.db.Keys <= db.Keys + {FlowTable, IncidentsTable}
    ensures forall k | k in db && k != FlowTable && k != IncidentsTable :: r.db[k] == db[k]
    ensures NewRowsStampedAt(db, r.db, t)
    ensures r.failure.None? ==>
              && |TableOr(r.db, FlowTable)| == |TableOr(db, FlowTable)| + BatchSize(ParseFlow(flowData).value)
              && |TableOr(r.db, IncidentsTable)| == |TableOr(db, IncidentsTable)| + BatchSize(ParseIncidents(incidentsData).value)
  {
    match ParseFlow(flowData)
    case Err(e) => RunOutcome(db, Some(e))
    case Ok(flow) =>
      match ParseIncidents(incidentsData)
      case Err(e) => RunOutcome(db, Some(e))
      case Ok(incidents) =>
        var flowRows := FlowRows(EnrichFlow(flow, t));
        var incidentRows := IncidentRows(EnrichIncidents(incidents, t));
        SaveStampsNewRows(db, flowRows, incidentRows, t);
        RunOutcome(Save(db, flowRows, incidentRows), None)
  }

  /** A flow response whose `results` list has n conforming entries, n > 0, grows the flow
      table by exactly n rows after the rows already there: the entries' records, in
      order, each stamped at the run's instant. */
  lemma FlowBatchAppended(db: Db<Row>, flowData: J, incidentsData: J, t: Instant)
    requires ValidInstant(t)
    requires HasResultsList(flowData) && |ResultsList(flowData)| > 0
    requires forall i :: 0 <= i < |ResultsList(flowData)| ==> FlowEntryConforms(ResultsList(flowData)[i])
    requires IncidentsResponseConforms(incidentsData)
    ensures var r := Collect(db, flowData, incidentsData, t);
            var results, prior := ResultsList(flowData), TableOr(db, FlowTable);
            && r.failure.None?
            && FlowTable in r.db
            && |r.db[FlowTable]| == |prior| + |results|
            && r.db[FlowTable][..|prior|] == prior
            && forall i :: 0 <= i < |results| ==>
                 var row := r.db[FlowTable][|prior| + i];
                 && row.FlowRow?
                 && Ok(row.flow.record) == FlowRecordOf(results[i])
                 && StampedAt(row.flow, t)
  {
    var results := ResultsList(flowData);
    forall i | 0 <= i < |results| ensures FlowRecordOf(results[i]).Ok? {
      FlowRecordSucceeds(results[i]);
    }
    ParseIncidentsSucceeds(incidentsData);
    var records := ParseFlow(flowData).value.value;
    var stamped := EnrichFlow(Some(records), t).value;
    var rows := FlowRows(Some(stamped)).value;
    var incidents := ParseIncidents(incidentsData).value;
    var r := Collect(db, flowData, incidentsData, t);
    assert r.db == Save(db, Some(rows), IncidentRows(EnrichIncidents(incidents, t)));
    var prior := TableOr(db, FlowTable);
    assert r.db[FlowTable] == prior + rows;
    forall i | 0 <= i < |results|
      ensures r.db[FlowTable][|prior| + i] == FlowRow(stamped[i])
      ensures stamped[i].record == records[i]
    {
      assert Records(stamped)[i] == records[i];
    }
  }

  /** An incidents response whose `results` list has n conforming entries, n > 0, grows the
      incidents table by exactly n rows after the rows already there: the entries' records,
      in order, each stamped at the run's instant. */
  lemma IncidentsBatchAppended(db: Db<Row>, flowData: J, incidentsData: J, t: Instant)
    requires ValidInstant(t)
    requires FlowResponseConforms(flowData)
    requires HasResultsList(incidentsData) && |ResultsList(incidentsData)| > 0
    requires forall i :: 0 <= i < |ResultsList(incidentsData)| ==> IncidentEntryConforms(ResultsList(incidentsData)[i])
    ensures var r := Collect(db, flowData, incidentsData, t);
            var results, prior := ResultsList(incidentsData), TableOr(db, IncidentsTable);
            && r.failure.None?
            && IncidentsTable in r.db
            && |r.db[IncidentsTable]| == |prior| + |results|
            && r.db[IncidentsTable][..|prior|] == prior
            && forall i :: 0 <= i < |results| ==>
                 var row := r.db[IncidentsTable][|prior| + i];
                 && row.IncidentRow?
                 && Ok(row.incident.record) == IncidentRecordOf(results[i])
                 && StampedAt(row.incident, t)
  {
    var results := ResultsList(incidentsData);
    forall i | 0 <= i < |results| ensures IncidentRecordOf(results[i]).Ok? {
      IncidentRecordSucceeds(results[i]);
    }
    ParseFlowSucceeds(flowData);
    var records := ParseIncidents(incidentsData).value.value;
    var stamped := EnrichIncidents(Some(records), t).value;
    var rows := IncidentRows(Some(stamped)).value;
    var flow := ParseFlow(flowData).value;
    var r := Collect(db, flowData, incidentsData, t);
    assert r.db == Save(db, FlowRows(EnrichFlow(flow, t)), Some(rows));
    var prior := TableOr(db, IncidentsTable);
    assert r.db[IncidentsTable] == prior + rows;
    forall i | 0 <= i < |results|
      ensures r.db[IncidentsTable][|prior| + i] == IncidentRow(stamped[i])
      ensures stamped[i].record == records[i]
    {
      assert Records(stamped)[i] == records[i];
    }
  }

  /** An incidents batch that is absent or empty leaves the incidents table exactly as it was. */
  lemma NoIncidentsLeaveTableUntouched(db: Db<Row>, flowData: J, incidentsData: J, t: Instant)
    requires ValidInstant(t)
    requires ParseFlow(flowData).Ok?
    requires ParseIncidents(incidentsData) == Ok(None) || ParseIncidents(incidentsData) == Ok(Some([]))
    ensures var r := Collect(db, flowData, incidentsData, t);
            && r.failure.None?
            && (IncidentsTable in r.db <==> IncidentsTable in db)
            && (IncidentsTable in db ==> r.db[IncidentsTable] == db[IncidentsTable])
  {
  }

  /** A failed flow fetch does not stop the incidents: the flow table is left as it was
      and the incidents batch is written exactly as a run with no flow data would. */
  lemma FailedFlowFetchKeepsIncidents(db: Db<Row>, incidentsData: J, t: Instant)
    requires ValidInstant(t)
    requires IncidentsResponseConforms(incidentsData)
    ensures var r := Collect(db, JNull, incidentsData, t);
            && r.failure.None?
            && (FlowTable in r.db <==> FlowTable in db)
            && (FlowTable in db ==> r.db[FlowTable] == db[FlowTable])
            && r.db == WriteBatch(db, IncidentsTable, IncidentRows(EnrichIncidents(ParseIncidents(incidentsData).value, t)))
  {
    ParseIncidentsSucceeds(incidentsData);
  }

  /** An exception in either normaliser ends the run before anything is written, even
      when the other response alone would have produced rows. */
  lemma MalformedResponseAbortsRun(db: Db<Row>, t: Instant)
    requires ValidInstant(t)
    ensures var flowData := JObj(map["results" := JArr([EmptyObj])]);
            var incidentsData := JObj(map["results" := JNull]);
            && ParseFlow(flowData).Ok? && ParseFlow(flowData).value == Some([DefaultFlowRecord])
            && Collect(db, flowData, incidentsData, t) == RunOutcome(db, Some(TypeError))
  {
    assert FlowRecordOf(EmptyObj) == Ok(DefaultFlowRecord);
    var parsed := MapAll(FlowRecordOf, [EmptyObj]);
    assert [EmptyObj][0] == EmptyObj;
    assert parsed.Ok? && |parsed.value| == 1;
    assert parsed.value[0] == DefaultFlowRecord;
    assert parsed.value == [DefaultFlowRecord];
  }

  /** The record an entry with no fields at all produces. */
  const DefaultFlowRecord := FlowRecord(JStr(""), JNull, JNull, JNull, JNull, JNull, JStr(""), None)

  /** A flow response with one entry, speed 45 and jam factor 2.1, and an incidents response
      with no results: one flow row in an empty store, and no incidents table. */
  lemma OneFlowEntryNoIncidents(t: Instant)
    requires ValidInstant(t)
    ensures var entry := JObj(map["currentFlow" := JObj(map["speed" := JNum(Finite(45.0)),
                                                             "jamFactor" := JNum(Finite(2.1))])]);
            var r := Collect(map[], JObj(map["results" := JArr([entry])]), JObj(map["results" := JArr([])]), t);
            && r.failure.None?
            && r.db.Keys == {FlowTable}
            && |r.db[FlowTable]| == 1
            && r.db[FlowTable][0].flow.record
                 == DefaultFlowRecord.(speed := JNum(Finite(45.0)), jamFactor := JNum(Finite(2.1)))
  {
  }

  /** A failed flow fetch and an incidents response with two entries: no flow rows and two
      incident rows, in response order, without an exception. */
  lemma FailedFlowTwoIncidents(t: Instant)
    requires ValidInstant(t)
    ensures var first := JObj(map["incidentId" := JStr("a")]);
            var second := JObj(map["incidentId" := JStr("b")]);
            var r := Collect(map[], JNull, JObj(map["results" := JArr([first, second])]), t);
            && r.failure.None?
            && r.db.Keys == {IncidentsTable}
            && |r.db[IncidentsTable]| == 2
            && r.db[IncidentsTable][0].incident.record.incidentId == JStr("a")
            && r.db[IncidentsTable][1].incident.record.incidentId == JStr("b")
  {
  }
}
