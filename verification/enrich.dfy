/** Timestamp enrichment: one capture instant stamped onto every row of a batch. */
module Enrich {
  import opened Wrappers

  datatype Weekday = Monday | Tuesday | Wednesday | Thursday | Friday | Saturday | Sunday

  /** `strftime('%A')`: the full English name of the weekday. */
  function DayName(d: Weekday): string {
    match d
    case Monday => "Monday"
    case Tuesday => "Tuesday"
    case Wednesday => "Wednesday"
    case Thursday => "Thursday"
    case Friday => "Friday"
    case Saturday => "Saturday"
    case Sunday => "Sunday"
  }

  datatype Date = Date(year: int, month: int, day: int)

  /** The instant `datetime.now()` captured at the start of a run. The clock and the
      calendar are outside the model, so the weekday comes with the instant. */
  datatype Instant = Instant(date: Date, hour: int, minute: int, second: int, microsecond: int, weekday: Weekday)

  /** The ranges a Python `datetime` keeps its fields in. */
  predicate ValidInstant(t: Instant) {
    && 1 <= t.date.year <= 9999
    && 1 <= t.date.month <= 12
    && 1 <= t.date.day <= 31
    && 0 <= t.hour < 24
    && 0 <= t.minute < 60
    && 0 <= t.second < 60
    && 0 <= t.microsecond < 1000000
  }

  /** A record with the four enrichment columns `timestamp`, `hour`, `day_of_week`, `date`. */
  datatype Stamped<R> = Stamped(record: R, timestamp: Instant, hour: int, dayOfWeek: string, date: Date)

  /** The enrichment columns of `row` are all taken from the instant `t`. */
  predicate StampedAt<R>(row: Stamped<R>, t: Instant) {
    && row.timestamp == t
    && row.hour == t.hour
    && row.dayOfWeek == DayName(t.weekday)
    && row.date == t.date
  }

  /** Every row of the batch is stamped at `t`. */
  predicate AllStampedAt<R>(rows: seq<Stamped<R>>, t: Instant) {
    forall i :: 0 <= i < |rows| ==> StampedAt(rows[i], t)
  }

  /** Every row of the batch carries the same four enrichment values. */
  predicate Uniform<R>(rows: seq<Stamped<R>>) {
    forall i, j :: 0 <= i < |rows| && 0 <= j < |rows| ==>
      && rows[i].timestamp == rows[j].timestamp
      && rows[i].hour == rows[j].hour
      && rows[i].dayOfWeek == rows[j].dayOfWeek
      && rows[i].date == rows[j].date
  }

  /** The records of a stamped batch, enrichment columns dropped. */
  function Records<R>(rows: seq<Stamped<R>>): seq<R> {
    seq(|rows|, i requires 0 <= i < |rows| => rows[i].record)
  }

  /** Assigning the four columns of a batch from the one instant `t`. */
  function StampAll<R>(rows: seq<R>, t: Instant): seq<Stamped<R>> {
    seq(|rows|, i requires 0 <= i < |rows| => Stamped(rows[i], t, t.hour, DayName(t.weekday), t.date))
  }

  /** Stamping keeps the records, in order, and then dropping the columns gives them back. */
  lemma StampAllRoundTrip<R>(rows: seq<R>, t: Instant)
    ensures Records(StampAll(rows, t)) == rows
    ensures AllStampedAt(StampAll(rows, t), t)
  {
  }

  /** A batch stamped at `t` is recovered from its records and `t` alone. */
  lemma StampedBatchFromRecords<R>(rows: seq<Stamped<R>>, t: Instant)
    requires AllStampedAt(rows, t)
    ensures StampAll(Records(rows), t) == rows
  {
  }

  /** A batch stamped at one instant is uniform, and its hour is a valid hour of the day. */
  lemma StampedAtIsUniform<R>(rows: seq<Stamped<R>>, t: Instant)
    requires ValidInstant(t)
    requires AllStampedAt(rows, t)
    ensures Uniform(rows)
    ensures forall i :: 0 <= i < |rows| ==> 0 <= rows[i].hour < 24
  {
  }

  /** The flow batch is enriched whenever it is present, even when it is empty. */
  function EnrichFlow<R>(batch: Option<seq<R>>, t: Instant): (r: Option<seq<Stamped<R>>>)
    requires ValidInstant(t)
    ensures r.Some? <==> batch.Some?
    ensures r.Some? ==> Records(r.value) == batch.value && AllStampedAt(r.value, t)
  {
    match batch
    case None => None
    case Some(rows) => Some(StampAll(rows, t))
  }

  /** The incidents batch is enriched only when it is present and non-empty; an empty
      batch passes through with no rows to stamp. */
  function EnrichIncidents<R>(batch: Option<seq<R>>, t: Instant): (r: Option<seq<Stamped<R>>>)
    requires ValidInstant(t)
    ensures r.Some? <==> batch.Some?
    ensures r.Some? ==> Records(r.value) == batch.value && AllStampedAt(r.value, t)
    ensures batch == Some([]) ==> r == Some([])
  {
    match batch
    case None => None
    case Some(rows) => if |rows| > 0 then Some(StampAll(rows, t)) else Some([])
  }
}
