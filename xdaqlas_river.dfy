/**
  The slurper of the stand-alone LAS river (package `xdaqlas`): the polling thread
  that reads the LAS catalog and feeds every flashlist's rows to the river's bulk
  processor. Each method is proved against the functions of module Flashlist.
*/
module XdaqLasRiver {
  import opened Json
  import opened River
  import opened Flashlist

  class Slurper {
    const lasURN: string
    /** The enclosing river's bulk processor. */
    const bulkProcessor: BulkSink
    const env: Env
    /** How each cycle of the polling loop ended. */
    ghost var trace: seq<Event>

    constructor (lasURL: string, bulkProcessor: BulkSink, env: Env)
      ensures lasURN == lasURL + "/urn:xdaq-application:service=xmaslas2g"
      ensures this.bulkProcessor == bulkProcessor && this.env == env
      ensures trace == []
    {
      lasURN := LasUrn(lasURL);
      this.bulkProcessor := bulkProcessor;
      this.env := env;
      trace := [];
    }

    /** The `while(true)` loop of `run()`, for the cycles that ran before the thread
        was interrupted: each cycle adds what it adds on its own, whatever the
        cycles before it did. */
    method Run(cycles: seq<Fetched>)
      modifies this, bulkProcessor
      ensures bulkProcessor.requests == old(bulkProcessor.requests) + PollRequests(lasURN, env, cycles)
      ensures trace == old(trace) + Repeat(CycleEvent(lasURN, env), |cycles|)
    {
      var i := 0;
      while i < |cycles|
        invariant 0 <= i <= |cycles|
        invariant bulkProcessor.requests == old(bulkProcessor.requests) + PollRequests(lasURN, env, cycles[..i])
        invariant trace == old(trace) + Repeat(CycleEvent(lasURN, env), i)
      {
        Cycle(cycles[i]);
        PollRequestsStep(lasURN, env, cycles, i);
        AppendAssoc(old(bulkProcessor.requests), PollRequests(lasURN, env, cycles[..i]), CycleRequests(lasURN, env, cycles[i]));
        AppendAssoc(old(trace), Repeat(CycleEvent(lasURN, env), i), [CycleEvent(lasURN, env)]);
        i := i + 1;
      }
      assert cycles[..i] == cycles;
    }

    /** One cycle: fetch the catalog, skip its header line, slurp every other line
        in order, then sleep; a malformed catalog URL restarts the loop at once. */
    method Cycle(fetched: Fetched)
      modifies this, bulkProcessor
      ensures bulkProcessor.requests == old(bulkProcessor.requests) + CycleRequests(lasURN, env, fetched)
      ensures trace == old(trace) + [CycleEvent(lasURN, env)]
    {
      var url := CatalogUrl(lasURN);
      if !env.wellFormed(url) {
        trace := trace + [Restarted];
        return;
      }
      ReadCatalog(fetched.catalog, fetched.collection);
      trace := trace + [Slept(SLEEP_MILLIS)];
    }

    /** The `for (boolean firstLine = true;; firstLine = false)` loop over the
        catalog lines read: the first is a header and is skipped; every other line
        names a flashlist to slurp. */
    method ReadCatalog(lines: seq<string>, collection: string -> Payload)
      modifies bulkProcessor
      ensures bulkProcessor.requests == old(bulkProcessor.requests) +
        if lines == [] then [] else TablesRequests(lasURN, env, collection, lines[1..])
    {
      var firstLine := true;
      ghost var done: seq<string> := [];
      var i := 0;
      while i < |lines|
        invariant 0 <= i <= |lines|
        invariant firstLine <==> i == 0
        invariant i == 0 ==> done == []
        invariant i > 0 ==> done == lines[1..i]
        invariant bulkProcessor.requests == old(bulkProcessor.requests) + TablesRequests(lasURN, env, collection, done)
      {
        if !firstLine {
          SlurpFlashList(lines[i], collection);
          TablesRequestsAppend(lasURN, env, collection, done, lines[i]);
          AppendAssoc(old(bulkProcessor.requests), TablesRequests(lasURN, env, collection, done), TableEmission(lasURN, env, collection, lines[i]).requests);
          done := done + [lines[i]];
        }
        firstLine := false;
        i := i + 1;
      }
      assert lines != [] ==> done == lines[1..];
    }

    /** `slurpFlashList`: fetch one flashlist and add its rows; any exception ends
        this table only. */
    method SlurpFlashList(flashList: string, collection: string -> Payload)
      modifies bulkProcessor
      ensures bulkProcessor.requests == old(bulkProcessor.requests) + TableEmission(lasURN, env, collection, flashList).requests
    {
      var url := CollectionUrl(lasURN, flashList);
      if !env.wellFormed(url) {
        return;
      }
      var payload := collection(url);
      if payload.Unreadable? || payload.rows.None? {
        return;
      }
      SlurpRows(TypeName(flashList), payload.rows.value);
    }

    /** The `while (it.hasNext())` loop over a table's rows. */
    method SlurpRows(typeName: string, rows: seq<JsonObj>)
      modifies bulkProcessor
      ensures bulkProcessor.requests == old(bulkProcessor.requests) + EmitRows(rows, LasStep(typeName, env.parseDate)).requests
    {
      ghost var step := LasStep(typeName, env.parseDate);
      var i := 0;
      while i < |rows|
        invariant 0 <= i <= |rows|
        invariant EmitRows(rows[..i], step).completed
        invariant bulkProcessor.requests == old(bulkProcessor.requests) + EmitRows(rows[..i], step).requests
      {
        var raised := SlurpRow(typeName, rows[i]);
        if raised {
          EmitRowsAbort(rows[..i], rows[i], rows[i + 1..], step);
          assert rows[..i] + [rows[i]] + rows[i + 1..] == rows;
          return;
        }
        EmitRowsStep(rows[..i], rows[i], step);
        AppendAssoc(old(bulkProcessor.requests), EmitRows(rows[..i], step).requests, Added(step(rows[i])));
        assert rows[..i] + [rows[i]] == rows[..i + 1];
        i := i + 1;
      }
      assert rows[..i] == rows;
    }

    /** The body of the row loop: build the id, parse the timestamp, and add the
        request when the timestamp parses. */
    method SlurpRow(typeName: string, item: JsonObj) returns (raised: bool)
      modifies bulkProcessor
      ensures raised <==> LasRowStep(typeName, env.parseDate, item).Abort?
      ensures bulkProcessor.requests == old(bulkProcessor.requests) + Added(LasRowStep(typeName, env.parseDate, item))
    {
      if item.NotAnObject? {
        return true;
      }
      var row := item.fields;
      var id := DeriveId(row);
      if id.Raised? {
        return true;
      }
      var timestampText := AsString(Get(row, "timestamp"));
      if timestampText.Raised? || timestampText.value.None? {
        return true;
      }
      var timestamp := env.parseDate(DATE_FORMAT, timestampText.value.value);
      if timestamp.Some? {
        bulkProcessor.Add(IndexRequest(Some(INDEX_NAME), Some(typeName), id.value, Some(timestamp.value), None, row));
      }
      return false;
    }
  }
}
