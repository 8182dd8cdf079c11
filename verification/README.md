# Traffic collector model

A Dafny model of the core of `collect_traffic_github.py`, a script that fetches traffic
flow and incident data for a bounding box, flattens each JSON response into records,
stamps every record of a run with the run's capture instant, and appends the records to
two tables of a historical store (`traffic_flow`, `traffic_incidents`).

The model covers:

- **JSON values as Python sees them** (`json.dfy`). A response is a `J` value. Python's
  `None` and JSON `null` are the same value, so a failed fetch is `JNull`. The Python
  operations the normalisers use are modelled with the exception each one raises on the
  wrong kind of value: `not x`, `key in x`, `x[key]` and `x.get(key, d)`. Note that
  `key in x` means a key test on a dict, an element test on a list and a substring test
  on a string.
- **Record normalisers** (`normalizer.dfy`, `geometry.dfy`). `ParseFlow` and
  `ParseIncidents` return `Ok(None)` for "no data", `Ok(Some(records))` for a batch, or
  `Err(e)` for the `TypeError`/`AttributeError` the script would raise. Missing fields
  take their defaults. Geometry is the list of `(lng, lat)` pairs of every link, in link
  order then point order.
- **Enrichment** (`enrich.dfy`). One instant gives every row of a batch the same
  `timestamp`, `hour`, `day_of_week` and `date`.
- **Store writer** (`store.dfy`). The store is a `map<string, seq<Row>>`. A batch that is
  absent or empty is skipped. Otherwise the writer creates the table when it is missing
  and appends to it when it exists.
- **The run** (`collector.dfy`). `Collect` parses both responses, enriches both batches
  and writes flow first, then incidents.

Shared combinators are in `wrappers.dfy`. `MapAll` is the "for each item, append, stop
at the first exception" loop. `Flatten` is in-order concatenation.

## Model

| member | source | states |
|---|---|---|
| `Wrappers.MapAll` | collect_traffic_github.py:56-80 | one output per input, in input order; the loop succeeds iff every item does, and an error is the first failing item's error |
| `Geometry.GeometryOf` | collect_traffic_github.py:72-78 | when no exception is raised, the record has a geometry iff the location is a dict with a dict `shape` holding a `links` key, even if the list collected is empty; a location that is not a container raises `TypeError` |
| `Geometry.GeometrySucceeds` | collect_traffic_github.py:72-77 | the geometry block raises exactly on the locations `LocationConforms` rules out, checked value kind by value kind (dict, list, string, other) at location, shape, links, link, points and point |
| `Geometry.DocumentedGeometry` | collect_traffic_github.py:73-78 | on links that are dicts whose `points` are lists of dicts, the geometry is the concatenation in link order of each link's `(lng, lat)` pairs in point order (missing components null), and its length is the total point count |
| `Geometry.DocumentedRecordGeometry` | collect_traffic_github.py:72-78 | a record whose shape holds a list of documented links gets as geometry the concatenation, in link order, of each link's pairs |
| `Geometry.LinksCoordsAppend` | collect_traffic_github.py:74-77 | collecting over `a + b` is collecting over `a` then over `b`, with the first error winning |
| `Geometry.LinkWithoutPointsAddsNothing` | collect_traffic_github.py:75 | removing a dict link that has no `points` key changes neither the geometry nor any error |
| `Geometry.DictLinksAnyOrder` | collect_traffic_github.py:74-75 | for `links` given as a dict, the order-free closed form equals iterating its keys in any order |
| `Normalizer.ParseFlow` | collect_traffic_github.py:51-82 | "no data" iff the response is falsy or `'results' in data` is false; a batch only comes from a dict with `results`; for a `results` list the parse succeeds iff every entry does, giving exactly one record per entry in order; an empty dict or empty string under `results` gives an empty batch |
| `Normalizer.ParseIncidents` | collect_traffic_github.py:84-112 | the same absent/empty split, count, order and empty batches for incidents |
| `Normalizer.ParseFlowSucceeds` | collect_traffic_github.py:53-78 | the flow normaliser raises exactly on responses outside `FlowResponseConforms` |
| `Normalizer.ParseIncidentsSucceeds` | collect_traffic_github.py:86-108 | the incidents normaliser raises exactly on responses outside `IncidentsResponseConforms` |
| `Normalizer.FlowRecordSucceeds` | collect_traffic_github.py:58-78 | a flow entry gives a record iff it is a dict whose `location` and `currentFlow` (when present) are dicts and whose shape passes the geometry block; no field is required |
| `Normalizer.IncidentRecordSucceeds` | collect_traffic_github.py:91-108 | an incident entry gives a record iff it is a dict whose `incidentDetails` and `description` (when present) are dicts and whose location passes the geometry block; the location need not be a dict |
| `Normalizer.FlowFieldsDefaulted` | collect_traffic_github.py:58-68 | each flow field is the provider's value, or `''` (text) or null (numeric) when missing, including a missing `location` or `currentFlow`; geometry is present iff the shape has links |
| `Normalizer.IncidentFieldsDefaulted` | collect_traffic_github.py:91-99 | each incident field is the provider's value or `''`; a missing `description` object gives `''` |
| `Normalizer.DictResultsAnyOrder` | collect_traffic_github.py:57-58 | for `results` given as a dict, the closed form equals iterating its keys in any order |
| `Enrich.EnrichFlow` | collect_traffic_github.py:157-161 | a present flow batch, empty or not, keeps its records in order and every row is stamped from the one instant; an absent batch stays absent |
| `Enrich.EnrichIncidents` | collect_traffic_github.py:164-168 | a non-empty incidents batch keeps its records and every row is stamped from the one instant; an empty batch stays empty and an absent one absent |
| `Enrich.StampAllRoundTrip` | collect_traffic_github.py:157-161 | dropping the enrichment columns recovers the records, and every row is stamped at the instant |
| `Enrich.StampedBatchFromRecords` | collect_traffic_github.py:165-168 | a batch stamped at `t` is recovered from its records and `t` |
| `Enrich.StampedAtIsUniform` | collect_traffic_github.py:142 | a batch stamped at one instant carries identical timestamp, hour, weekday and date on every row, with the hour in 0..23 |
| `Store.WriteBatch` | collect_traffic_github.py:119-125 | an absent or empty batch leaves the store unchanged; a missing table is created holding exactly the batch; an existing one keeps its rows as a prefix and grows by exactly the batch length, the batch as suffix; other tables unchanged |
| `Store.WriteBatchExtends` | collect_traffic_github.py:124-125 | a write never removes a table or changes a stored row |
| `Store.WriteBatchTwice` | collect_traffic_github.py:124-125 | two successive non-empty writes store both batches in order, as one write of their concatenation |
| `Store.Save` | collect_traffic_github.py:114-135 | the store only grows; each table gains exactly its own non-empty batch; no other table changes |
| `Store.SaveTablesIndependent` | collect_traffic_github.py:119-135 | the incidents table's outcome does not depend on the flow batch, and vice versa |
| `Collector.Collect` | collect_traffic_github.py:140-172 | the run ends without exception iff both normalisers succeed; on an exception the store is untouched; otherwise the store only grows, only the two tables change, each table grows by exactly its parsed batch's size, and every new row is stamped at the run's instant |
| `Collector.SaveStampsNewRows` | collect_traffic_github.py:157-172 | writing batches stamped at `t` adds only rows stamped at `t` |
| `Collector.FlowBatchAppended` | collect_traffic_github.py:153-172 | a flow response with n conforming entries, n > 0, grows the flow table by exactly n rows after the prior rows: the entries' records in order, each stamped at the instant |
| `Collector.IncidentsBatchAppended` | collect_traffic_github.py:154-172 | an incidents response with n conforming entries, n > 0, grows the incidents table by exactly n rows after the prior rows: the entries' records in order, each stamped at the instant |
| `Collector.NoIncidentsLeaveTableUntouched` | collect_traffic_github.py:128 | an absent or empty incidents batch leaves the incidents table exactly as it was, including its absence |
| `Collector.FailedFlowFetchKeepsIncidents` | collect_traffic_github.py:149-172 | a failed flow fetch leaves the flow table as it was, and the incidents are written as if alone |
| `Collector.MalformedResponseAbortsRun` | collect_traffic_github.py:153-154 | an incidents response whose `results` is null raises `TypeError`, and the valid flow batch is then not written either |
| `Collector.OneFlowEntryNoIncidents` | collect_traffic_github.py:140-172 | one flow entry with speed 45 and jam factor 2.1 and no incident results, on an empty store: one flow row with those values and defaults elsewhere, and no incidents table |
| `Collector.FailedFlowTwoIncidents` | collect_traffic_github.py:140-172 | a failed flow fetch and two incidents, on an empty store: no flow table and two incident rows in response order |

## Behaviour worth noting

- A shape with a `links` key always gives a geometry, even an empty one.
- Every falsy response (`{}`, `[]`, `""`, `0`) gives no data. For a list or a string
  response, `'results' in data` is an element test or a substring test.
- An entry of the wrong shape raises inside a normaliser. The run then ends before
  anything is written, even a valid batch of the other kind
  (`Collector.MalformedResponseAbortsRun`).
- An empty flow batch is still enriched: it gains columns but no rows. The rows stored
  are the same as if it were not.

## Left out

- `fetch_traffic_flow` and `fetch_traffic_incidents`: these are network I/O. Their
  results are inputs to `Collect`, with a failed fetch given as `JNull`. The status-code
  message printed by the flow fetch is console output.
- The `str(coords)` rendering of the geometry is left out because it depends on Python's
  float printing. Geometry stays a structured list of pairs, which is exactly what the
  string is rendered from.
- Real SQLite and pandas behaviour is left out. The model keeps no schema and no column
  types. It does not model `to_sql` rejecting an append whose batch has a column the
  table lacks; for example, a first batch with no geometry followed by one with geometry
  would raise here. It does not model a write failing partway or closing the connection.
  It does not model SQLite refusing to bind a field whose JSON value is a list or an
  object. The `sqlite_master` lookup is modelled as a key test on the map.
- Flow is written before incidents, as in the code. Without write failures in the model,
  the two writes touch different tables and their order cannot be observed.
- An empty DataFrame gains the four enrichment columns without gaining rows. The model
  has rows only, so this is invisible in it.
- The clock and the calendar are left out. `datetime.now()` is an `Instant` input, and the
  weekday that `strftime('%A')` names is part of that input rather than computed from
  the date.
- The environment variable, the configuration constants and all `print` output have no
  effect on the stored data.
- Python iterates a dict in insertion order, which a `map` does not record. For the
  `results`, `links` and `points` loops, the model uses closed forms over the key set.
  `Normalizer.DictResultsAnyOrder` and `Geometry.DictLinksAnyOrder` prove the outcome is
  the same for every key order.
- JSON numbers are modelled as reals plus `NaN` and the two infinities, and passed
  through unchanged. Strings are Dafny strings, and lone surrogate code points are not
  represented.
- `Enrich.ValidInstant` states the ranges of a `datetime`'s fields. It does not state
  the month-length rule or whether the weekday matches the date.
