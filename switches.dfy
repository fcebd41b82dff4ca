/**
  The switch river (package `cmsdaq`): every 30 seconds it fetches one JSON table
  describing the network switches and adds one index request per row, all into the
  index the table names and with the table's last-update time.
*/
module Switches {
  import opened Json
  import opened River

  const DATE_FORMAT := "E, dd MMM yyyy HH:mm:ss z"
  const SLEEP_MILLIS: nat := 30000

  /** One pass of the row loop: the document type is the row's `switch`, the id its
      `port`. */
  function SwitchRowStep(index: Option<string>, timestamp: Option<int>, ttl: int, item: JsonObj): Step
  {
    match item
    case NotAnObject => Abort
    case Obj(row) =>
      match AsString(Get(row, "switch"))
      case Raised => Abort
      case Done(typeName) =>
        match AsString(Get(row, "port"))
        case Raised => Abort
        case Done(id) => Emit(IndexRequest(index, typeName, id, timestamp, Some(ttl), row))
  }

  function SwitchStep(index: Option<string>, timestamp: Option<int>, ttl: int): JsonObj -> Step
  {
    item => SwitchRowStep(index, timestamp, ttl, item)
  }

  /** The index name and the timestamp a table's properties give, or `Raised` when
      reading them throws: no properties object, a non-string `Name`, or a
      `LastUpdate` that is missing (`DateFormat.parse(null)`) or not a string. A
      `LastUpdate` that does not parse gives a `null` timestamp. */
  function Header(parse: (string, string) -> Option<int>, properties: JsonObj): Outcome<(Option<string>, Option<int>)>
  {
    match properties
    case NotAnObject => Raised
    case Obj(p) =>
      match AsString(Get(p, "Name"))
      case Raised => Raised
      case Done(index) =>
        match AsString(Get(p, "LastUpdate"))
        case Raised => Raised
        case Done(None) => Raised
        case Done(Some(text)) => Done((index, parse(DATE_FORMAT, text)))
  }

  /** What one fetched payload adds to the bulk processor. */
  function PayloadEmission(env: Env, ttl: int, payload: Payload): Emission
  {
    match payload
    case Unreadable => Emission([], false)
    case Table(properties, rows) =>
      match Header(env.parseDate, properties)
      case Raised => Emission([], false)
      case Done((index, timestamp)) =>
        match rows
        case None => Emission([], false)
        case Some(items) => EmitRows(items, SwitchStep(index, timestamp, ttl))
  }

  /** A row whose `switch` and `port` are strings or absent. */
  predicate WellFormedRow(item: JsonObj)
  {
    item.Obj? && AsString(Get(item.fields, "switch")).Done? && AsString(Get(item.fields, "port")).Done?
  }

  /** For a readable table with well-formed rows, every row becomes exactly one
      request, in row order, with type `switch`, id `port` and the row as source. */
  lemma OneRequestPerRow(env: Env, ttl: int, properties: JsonObj, items: seq<JsonObj>)
    requires Header(env.parseDate, properties).Done?
    requires forall i :: 0 <= i < |items| ==> WellFormedRow(items[i])
    ensures var e := PayloadEmission(env, ttl, Table(properties, Some(items)));
      e.completed && |e.requests| == |items| &&
      forall i :: 0 <= i < |items| ==>
        WellFormedRow(items[i]) &&
        e.requests[i].source == items[i].fields &&
        e.requests[i].docType == AsString(Get(items[i].fields, "switch")).value &&
        e.requests[i].id == AsString(Get(items[i].fields, "port")).value
  {
    var (index, timestamp) := Header(env.parseDate, properties).value;
    EmitRowsAllEmit(items, SwitchStep(index, timestamp, ttl));
  }

  /** All requests from one payload go to the index named by `properties.Name`, carry
      the same timestamp (the parsed `LastUpdate`, or `null` when it does not parse)
      and the river's ttl. */
  lemma SharedIndexTimestampTtl(env: Env, ttl: int, properties: Row, items: seq<JsonObj>)
    requires Header(env.parseDate, Obj(properties)).Done?
    ensures forall r :: r in PayloadEmission(env, ttl, Table(Obj(properties), Some(items))).requests ==>
      r.index == AsString(Get(properties, "Name")).value &&
      r.timestamp == env.parseDate(DATE_FORMAT, AsString(Get(properties, "LastUpdate")).value.value) &&
      r.ttl == Some(ttl)
  {
    var (index, timestamp) := Header(env.parseDate, Obj(properties)).value;
    var ok := (r: IndexRequest) => r.index == index && r.timestamp == timestamp && r.ttl == Some(ttl);
    EmitRowsOnly(items, SwitchStep(index, timestamp, ttl), ok);
  }

  /** A `LastUpdate` that does not parse leaves every request without a timestamp,
      and the rows are still all emitted. */
  lemma UnparsedLastUpdateKeepsRows(env: Env, ttl: int, properties: Row, text: string, items: seq<JsonObj>)
    requires AsString(Get(properties, "Name")).Done?
    requires Get(properties, "LastUpdate") == Some(Str(text)) && env.parseDate(DATE_FORMAT, text) == None
    requires forall i :: 0 <= i < |items| ==> WellFormedRow(items[i])
    ensures var e := PayloadEmission(env, ttl, Table(Obj(properties), Some(items)));
      e.completed && |e.requests| == |items| &&
      forall r :: r in e.requests ==> r.timestamp == None
  {
    OneRequestPerRow(env, ttl, Obj(properties), items);
    SharedIndexTimestampTtl(env, ttl, properties, items);
  }

  /** A payload that cannot be read, or whose properties or rows cannot be read, adds
      nothing. */
  lemma UnreadablePayloadAddsNothing(env: Env, ttl: int, payload: Payload)
    requires payload.Unreadable? || Header(env.parseDate, payload.properties).Raised? || payload.rows.None?
    ensures PayloadEmission(env, ttl, payload).requests == []
  {
  }

  /** What a run of cycles adds, one payload per cycle. */
  function PollRequests(env: Env, ttl: int, payloads: seq<Payload>): seq<IndexRequest>
    decreases |payloads|
  {
    if payloads == [] then []
    else PollRequests(env, ttl, payloads[..|payloads| - 1]) + PayloadEmission(env, ttl, payloads[|payloads| - 1]).requests
  }

  /** One more cycle run. */
  lemma PollRequestsStep(env: Env, ttl: int, payloads: seq<Payload>, i: nat)
    requires i < |payloads|
    ensures PollRequests(env, ttl, payloads[..i + 1]) ==
      PollRequests(env, ttl, payloads[..i]) + PayloadEmission(env, ttl, payloads[i]).requests
  {
    var done := payloads[..i + 1];
    assert done[..|done| - 1] == payloads[..i];
    assert done[|done| - 1] == payloads[i];
  }

  /** Cycles add their requests one after the other. */
  lemma {:induction false} PollConcat(env: Env, ttl: int, a: seq<Payload>, b: seq<Payload>)
    ensures PollRequests(env, ttl, a + b) == PollRequests(env, ttl, a) + PollRequests(env, ttl, b)
    decreases |b|
  {
    if b == [] {
      assert a + b == a;
    } else {
      var b' := b[..|b| - 1];
      assert (a + b)[..|a + b| - 1] == a + b';
      assert (a + b)[|a + b| - 1] == b[|b| - 1];
      PollConcat(env, ttl, a, b');
    }
  }

  /** Cycles are independent: a cycle whose fetch or parse failed does not change
      what the cycles after it add. */
  lemma FailedCycleIsolated(env: Env, ttl: int, a: seq<Payload>, failed: Payload, b: seq<Payload>)
    requires PayloadEmission(env, ttl, failed).requests == []
    ensures PollRequests(env, ttl, a + [failed] + b) == PollRequests(env, ttl, a) + PollRequests(env, ttl, b)
  {
    var withFailed := a + [failed];
    assert withFailed[..|withFailed| - 1] == a;
    assert PollRequests(env, ttl, withFailed) == PollRequests(env, ttl, a);
    PollConcat(env, ttl, withFailed, b);
  }

  class Slurper {
    const switchUrl: string
    const ttl: int
    /** The enclosing river's bulk processor. */
    const bulkProcessor: BulkSink
    const env: Env
    /** How `run()` went: one event per cycle, or one `Exited`. */
    ghost var trace: seq<Event>

    constructor (switchUrl: string, ttl: int, bulkProcessor: BulkSink, env: Env)
      ensures this.switchUrl == switchUrl && this.ttl == ttl
      ensures this.bulkProcessor == bulkProcessor && this.env == env
      ensures trace == []
    {
      this.switchUrl := switchUrl;
      this.ttl := ttl;
      this.bulkProcessor := bulkProcessor;
      this.env := env;
      trace := [];
    }

    /** `run()`, for the payloads fetched before the thread was interrupted. A
        malformed URL ends the task before any fetch; otherwise every cycle ingests
        its payload and sleeps, whatever happened in the cycles before. */
    method Run(payloads: seq<Payload>)
      modifies this, bulkProcessor
      ensures !env.wellFormed(switchUrl) ==>
        bulkProcessor.requests == old(bulkProcessor.requests) && trace == old(trace) + [Exited]
      ensures env.wellFormed(switchUrl) ==>
        bulkProcessor.requests == old(bulkProcessor.requests) + PollRequests(env, ttl, payloads) &&
        trace == old(trace) + Repeat(Slept(SLEEP_MILLIS), |payloads|)
    {
      if !env.wellFormed(switchUrl) {
        trace := trace + [Exited];
        return;
      }
      var i := 0;
      while i < |payloads|
        invariant 0 <= i <= |payloads|
        invariant bulkProcessor.requests == old(bulkProcessor.requests) + PollRequests(env, ttl, payloads[..i])
        invariant trace == old(trace) + Repeat(Slept(SLEEP_MILLIS), i)
      {
        Ingest(payloads[i]);
        trace := trace + [Slept(SLEEP_MILLIS)];
        PollRequestsStep(env, ttl, payloads, i);
        AppendAssoc(old(bulkProcessor.requests), PollRequests(env, ttl, payloads[..i]), PayloadEmission(env, ttl, payloads[i]).requests);
        AppendAssoc(old(trace), Repeat(Slept(SLEEP_MILLIS), i), [Slept(SLEEP_MILLIS)]);
        i := i + 1;
      }
      assert payloads[..i] == payloads;
    }

    /** The `try` block of one cycle: read the properties, then add every row; an
        exception ends the cycle's ingestion. */
    method Ingest(payload: Payload)
      modifies bulkProcessor
      ensures bulkProcessor.requests == old(bulkProcessor.requests) + PayloadEmission(env, ttl, payload).requests
    {
      if payload.Unreadable? || payload.properties.NotAnObject? {
        return;
      }
      var properties := payload.properties.fields;
      var indexName := AsString(Get(properties, "Name"));
      if indexName.Raised? {
        return;
      }
      var lastUpdate := AsString(Get(properties, "LastUpdate"));
      if lastUpdate.Raised? || lastUpdate.value.None? {
        return;
      }
      var timestamp := env.parseDate(DATE_FORMAT, lastUpdate.value.value);
      if payload.rows.None? {
        return;
      }
      IngestRows(indexName.value, timestamp, payload.rows.value);
    }

    /** The `while (it.hasNext())` loop over the rows: type from `switch`, id from
        `port`; a row that is not an object or has a non-string `switch` or `port`
        ends the loop. */
    method IngestRows(index: Option<string>, timestamp: Option<int>, rows: seq<JsonObj>)
      modifies bulkProcessor
      ensures bulkProcessor.requests == old(bulkProcessor.requests) + EmitRows(rows, SwitchStep(index, timestamp, ttl)).requests
    {
      ghost var step := SwitchStep(index, timestamp, ttl);
      var i := 0;
      while i < |rows|
        invariant 0 <= i <= |rows|
        invariant EmitRows(rows[..i], step).completed
        invariant bulkProcessor.requests == old(bulkProcessor.requests) + EmitRows(rows[..i], step).requests
      {
        var item := rows[i];
        var typeName: Outcome<Option<string>> := Raised;
        var id: Outcome<Option<string>> := Raised;
        if item.Obj? {
          typeName := AsString(Get(item.fields, "switch"));
          if typeName.Done? {
            id := AsString(Get(item.fields, "port"));
          }
        }
        if id.Raised? {
          EmitRowsAbort(rows[..i], rows[i], rows[i + 1..], step);
          assert rows[..i] + [rows[i]] + rows[i + 1..] == rows;
          return;
        }
        bulkProcessor.Add(IndexRequest(index, typeName.value, id.value, timestamp, Some(ttl), item.fields));
        EmitRowsStep(rows[..i], item, step);
        AppendAssoc(old(bulkProcessor.requests), EmitRows(rows[..i], step).requests, Added(step(item)));
        assert rows[..i] + [item] == rows[..i + 1];
        i := i + 1;
      }
      assert rows[..i] == rows;
    }
  }
}
