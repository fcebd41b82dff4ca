/**
  What the rivers share: the index request handed to the bulk processor, the bulk
  processor itself as an append-only sink, the loop that walks a table's rows, the
  two foreign behaviours the rivers depend on, and the events of the polling loop.
*/
module River {
  import opened Json

  /** `Requests.indexRequest(index).type(t).id(id).timestamp(ts)[.ttl(ttl)].source(row)`.
      `None` stands for a Java `null` argument; the timestamp is the epoch
      milliseconds that `String.valueOf(date.getTime())` renders. */
  datatype IndexRequest = IndexRequest(
    index: Option<string>,
    docType: Option<string>,
    id: Option<string>,
    timestamp: Option<int>,
    ttl: Option<int>,
    source: Row)

  /** The bulk processor as the river sees it: `add` appends a request. Batching,
      flushing and the listener are the library's own. */
  class BulkSink {
    var requests: seq<IndexRequest>

    constructor ()
      ensures requests == []
    {
      requests := [];
    }

    method Add(r: IndexRequest)
      modifies this
      ensures requests == old(requests) + [r]
    {
      requests := requests + [r];
    }
  }

  /** Foreign behaviours, as parameters: whether `new URL(s)` accepts `s`, and
      `SimpleDateFormat(format).parse(text)`, giving epoch milliseconds or failing
      with a `ParseException`. */
  datatype Env = Env(
    wellFormed: string -> bool,
    parseDate: (string, string) -> Option<int>)

  /** What one row of a table does to the sink. `Skip`: nothing added, the loop goes
      on. `Abort`: an exception leaves the row loop; the rest of the table is not
      read. */
  datatype Step = Emit(request: IndexRequest) | Skip | Abort

  /** The requests one table added, and whether its row loop ran to the end. */
  datatype Emission = Emission(requests: seq<IndexRequest>, completed: bool)

  /** The `while (it.hasNext())` loop over a table's rows: rows are taken in order,
      and once a row aborts no later row is looked at. */
  function EmitRows(items: seq<JsonObj>, step: JsonObj -> Step): (e: Emission)
    ensures |e.requests| <= |items|
    decreases |items|
  {
    if items == [] then Emission([], true)
    else
      var prev := EmitRows(items[..|items| - 1], step);
      if !prev.completed then prev
      else
        match step(items[|items| - 1])
        case Emit(r) => Emission(prev.requests + [r], true)
        case Skip => prev
        case Abort => Emission(prev.requests, false)
  }

  /** What a step that does not abort adds to the sink. */
  function Added(s: Step): seq<IndexRequest>
  {
    if s.Emit? then [s.request] else []
  }

  /** One more row walked after rows that all completed: a row that does not abort
      adds what its step adds and the walk goes on. */
  lemma EmitRowsStep(items: seq<JsonObj>, x: JsonObj, step: JsonObj -> Step)
    requires EmitRows(items, step).completed && !step(x).Abort?
    ensures EmitRows(items + [x], step) == Emission(EmitRows(items, step).requests + Added(step(x)), true)
  {
    assert (items + [x])[..|items|] == items;
  }

  /** Walking `a + b` is walking `a`, then, if `a` did not abort, walking `b`. */
  lemma {:induction false} EmitRowsConcat(a: seq<JsonObj>, b: seq<JsonObj>, step: JsonObj -> Step)
    ensures EmitRows(a + b, step) ==
      if EmitRows(a, step).completed
      then Emission(EmitRows(a, step).requests + EmitRows(b, step).requests, EmitRows(b, step).completed)
      else EmitRows(a, step)
    decreases |b|
  {
    if b == [] {
      assert a + b == a;
    } else {
      var b' := b[..|b| - 1];
      assert (a + b)[..|a + b| - 1] == a + b';
      assert (a + b)[|a + b| - 1] == b[|b| - 1];
      EmitRowsConcat(a, b', step);
    }
  }

  /** A skipped row adds nothing, and the rows after it are still processed. */
  lemma EmitRowsSkip(a: seq<JsonObj>, x: JsonObj, b: seq<JsonObj>, step: JsonObj -> Step)
    requires step(x) == Skip
    ensures EmitRows(a + [x] + b, step) == EmitRows(a + b, step)
  {
    EmitRowsConcat(a, [x], step);
    assert [x][..0] == [];
    EmitRowsConcat(a + [x], b, step);
    EmitRowsConcat(a, b, step);
  }

  /** An aborting row ends the table: what came before it stays in the sink, and
      nothing after it is added. */
  lemma EmitRowsAbort(a: seq<JsonObj>, x: JsonObj, b: seq<JsonObj>, step: JsonObj -> Step)
    requires step(x) == Abort
    ensures EmitRows(a + [x] + b, step) == Emission(EmitRows(a, step).requests, false)
  {
    EmitRowsConcat(a, [x], step);
    assert [x][..0] == [];
    EmitRowsConcat(a + [x], b, step);
  }

  /** When every row emits, there is one request per row, in row order. */
  lemma {:induction false} EmitRowsAllEmit(items: seq<JsonObj>, step: JsonObj -> Step)
    requires forall i :: 0 <= i < |items| ==> step(items[i]).Emit?
    ensures EmitRows(items, step).completed
    ensures |EmitRows(items, step).requests| == |items|
    ensures forall i :: 0 <= i < |items| ==> EmitRows(items, step).requests[i] == step(items[i]).request
    decreases |items|
  {
    if items != [] {
      var prefix := items[..|items| - 1];
      assert forall i :: 0 <= i < |prefix| ==> prefix[i] == items[i];
      EmitRowsAllEmit(prefix, step);
    }
  }

  /** Every request that reaches the sink is one that some row's step emitted; so a
      property of every emitted request holds of everything added. */
  lemma {:induction false} EmitRowsOnly(items: seq<JsonObj>, step: JsonObj -> Step, ok: IndexRequest -> bool)
    requires forall x :: step(x).Emit? ==> ok(step(x).request)
    ensures forall r :: r in EmitRows(items, step).requests ==> ok(r)
    decreases |items|
  {
    if items != [] {
      EmitRowsOnly(items[..|items| - 1], step, ok);
    }
  }

  /** What is appended in two steps is the first step's part followed by the
      second's; stated once so that loops need not rediscover it. */
  lemma AppendAssoc<T>(a: seq<T>, b: seq<T>, c: seq<T>)
    ensures (a + b) + c == a + (b + c)
  {
  }

  /** The events of a river's polling loop. */
  datatype Event =
    | Slept(millis: nat)  // `Thread.sleep(millis)` at the end of a cycle
    | Restarted           // `continue` back to the top of the loop without sleeping
    | Exited              // `run()` returned before its loop

  function Repeat(e: Event, n: nat): (s: seq<Event>)
    ensures |s| == n

  {
    if n == 0 then [] else Repeat(e, n - 1) + [e]
  }
}
