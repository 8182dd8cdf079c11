/** The historical store writer over an abstract store: each table a sequence of rows,
    looked up by name. */
module Store {
  import opened Wrappers

  type Db<Row> = map<string, seq<Row>>

  const FlowTable: string := "traffic_flow"
  const IncidentsTable: string := "traffic_incidents"

  /** The rows of a table, or none when the table does not exist. */
  function TableOr<Row>(db: Db<Row>, name: string): seq<Row> {
    if name in db then db[name] else []
  }

  /** The batch is present and has at least one row. */
  predicate HasRows<Row>(batch: Option<seq<Row>>) {
    batch.Some? && |batch.value| > 0
  }

  /** `db'` only adds: every table of `db` is still there with its rows as a prefix. */
  ghost predicate Extends<Row>(db: Db<Row>, db': Db<Row>) {
    && db.Keys <= db'.Keys
    && forall k | k in db :: db[k] <= db'[k]
  }

  /** One table's branch of the writer: skip an absent or empty batch, create the table
      holding the batch when it does not exist, append the batch otherwise. */
  function WriteBatch<Row>(db: Db<Row>, name: string, batch: Option<seq<Row>>): (r: Db<Row>)
    ensures !HasRows(batch) ==> r == db
    ensures HasRows(batch) ==> r.Keys == db.Keys + {name}
    ensures HasRows(batch) && name !in db ==> r[name] == batch.value
    ensures HasRows(batch) && name in db ==>
              && |r[name]| == |db[name]| + |batch.value|
              && r[name][..|db[name]|] == db[name]
              && r[name][|db[name]|..] == batch.value
    ensures forall k | k in db && k != name :: r[k] == db[k]
  {
    if batch.None? || |batch.value| == 0 then db
    else if name !in db then db[name := batch.value]
    else db[name := db[name] + batch.value]
  }

  /** Extending is transitive, so a sequence of writes only adds. */
  lemma ExtendsTransitive<Row>(a: Db<Row>, b: Db<Row>, c: Db<Row>)
    requires Extends(a, b) && Extends(b, c)
    ensures Extends(a, c)
  {
    forall k | k in a ensures a[k] <= c[k] {
      assert a[k] <= b[k];
    }
  }

  /** A write never removes a table or changes a row already stored. */
  lemma WriteBatchExtends<Row>(db: Db<Row>, name: string, batch: Option<seq<Row>>)
    ensures Extends(db, WriteBatch(db, name, batch))
  {
    var r := WriteBatch(db, name, batch);
    if HasRows(batch) && name in db {
      assert db[name] == r[name][..|db[name]|];
    }
  }

  /** Two successive non-empty writes to one table store the two batches one after
      the other, as a single write of both would. */
  lemma WriteBatchTwice<Row>(db: Db<Row>, name: string, a: seq<Row>, b: seq<Row>)
    requires |a| > 0 && |b| > 0
    ensures WriteBatch(WriteBatch(db, name, Some(a)), name, Some(b)) == WriteBatch(db, name, Some(a + b))
  {
    if name in db {
      assert db[name] + a + b == db[name] + (a + b);
    }
  }

  /** The writer: the flow batch first, then the incidents batch. */
  function Save<Row>(db: Db<Row>, flow: Option<seq<Row>>, incidents: Option<seq<Row>>): (r: Db<Row>)
    ensures Extends(db, r)
    ensures r.Keys == db.Keys + (if HasRows(flow) then {FlowTable} else {})
                              + (if HasRows(incidents) then {IncidentsTable} else {})
    ensures FlowTable in r ==> r[FlowTable] == TableOr(db, FlowTable) + (if HasRows(flow) then flow.value else [])
    ensures IncidentsTable in r ==>
              r[IncidentsTable] == TableOr(db, IncidentsTable) + (if HasRows(incidents) then incidents.value else [])
    ensures forall k | k in db && k != FlowTable && k != IncidentsTable :: r[k] == db[k]
  {
    var afterFlow := WriteBatch(db, FlowTable, flow);
    WriteBatchExtends(db, FlowTable, flow);
    WriteBatchExtends(afterFlow, IncidentsTable, incidents);
    ExtendsTransitive(db, afterFlow, WriteBatch(afterFlow, IncidentsTable, incidents));
    WriteBatch(afterFlow, IncidentsTable, incidents)
  }

  /** What is written to one table does not depend on the other table's batch. */
  lemma SaveTablesIndependent<Row>(db: Db<Row>, flow: Option<seq<Row>>, flow': Option<seq<Row>>,
                                   incidents: Option<seq<Row>>, incidents': Option<seq<Row>>)
    ensures var r, r' := Save(db, flow, incidents), Save(db, flow', incidents);
            (IncidentsTable in r <==> IncidentsTable in r') && (IncidentsTable in r ==> r[IncidentsTable] == r'[IncidentsTable])
    ensures var r, r' := Save(db, flow, incidents), Save(db, flow, incidents');
            (FlowTable in r <==> FlowTable in r') && (FlowTable in r ==> r[FlowTable] == r'[FlowTable])
  {
  }
}
