# river-cmsdaq: the polling rivers, modelled in Dafny

The repository holds Elasticsearch "rivers" that poll CMS DAQ monitoring services
and feed what they read to an Elasticsearch bulk processor:

- the **LAS flashlist river**, present twice with the same polling code
  (`xdaqlas/XdaqLas.java` and `cmsdaq/XdaqLas.java`). Every 10 seconds it reads
  the LAS catalog, drops the header line, and fetches each listed flashlist
  (a table of rows). Each row becomes an index request into the index
  `flashlist`. The document type is the part of the flashlist name after its last
  `:`, and the id is built from `hostname`, `geoslot` and `io`, or else from the
  first of `instance`, `srcId`, `partitionNumber`, `context`, `FMURL`. A row is
  sent only when its `timestamp` parses.
- the **switch river** (`cmsdaq/Switches.java`). Every 30 seconds it fetches one
  table. Each row becomes a request into the index named by `properties.Name`,
  with type `switch`, id `port`, the table's parsed `LastUpdate` time and the
  river's ttl.

The model covers the work one polling cycle does, from the fetched data to the
requests handed to the bulk processor:

- `json.dfy` (module `Json`) holds JSON values and rows as json-simple returns
  them. `Outcome.Raised` stands for the Java runtime exceptions that the code's
  casts and `null` dereferences throw.
- `river.dfy` (module `River`) holds the index request and the bulk processor.
  The bulk processor is a class whose `requests` sequence `Add` appends to.
  `EmitRows` is the row loop that both rivers share, with its lemmas.
- `flashlist.dfy` (module `Flashlist`) holds the flashlist river's rules as
  functions: URLs, type name, id, which rows are sent, and what one cycle adds.
  It also holds `DeriveId`, the method with the id loop.
- `xdaqlas_river.dfy` and `cmsdaq_las_river.dfy` hold one `Slurper` class for
  each LAS file. Each has the poll loop (`Run`), one cycle of it (`Cycle`), the
  catalog loop (`ReadCatalog`), one flashlist (`SlurpFlashList`), the row loop
  (`SlurpRows`) and one row (`SlurpRow`). Both are proved against the same
  `Flashlist` functions, so the two copies send the same requests for the same
  input.
- `switches.dfy` (module `Switches`) holds the switch river's functions and
  lemmas, and its `Slurper` class.

Network results are inputs. A LAS cycle receives the catalog lines read before
end of stream, plus a function from collection URL to parsed payload. A switch
cycle receives its parsed payload. Two foreign behaviours are parameters (`Env`):
whether `java.net.URL` accepts a string, and `SimpleDateFormat.parse`, an
uninterpreted partial function from (format, text) to epoch milliseconds. The
format constants are the ones in the source (`E, MMM dd yyyy HH:mm:ss z` for LAS,
`E, dd MMM yyyy HH:mm:ss z` for switches). The endless poll loop is modelled as
the finite sequence of cycles that ran before the thread was interrupted. A ghost
`trace` records how each cycle ended: `Slept(ms)`, `Restarted` (a `continue`
without sleeping) or `Exited`.

The model follows the code as written, including where its behaviour is easy to
misread:

- a LAS row whose timestamp does not parse is dropped, not emitted without a
  timestamp;
- a missing `timestamp` (or `LastUpdate`) makes `DateFormat.parse(null)` throw.
  This ends the rest of that table (or payload) instead of yielding a null
  timestamp;
- a non-string `hostname`, `switch` or `port`, or a row that is not an object,
  also ends the rest of the table. Rows already added stay in the bulk processor;
- a fetch or parse error inside `slurpFlashList` ends only that table. A
  malformed catalog URL restarts the loop without sleeping. A malformed switch
  URL ends the switch task before any fetch.

## Model

| member | source | states |
|---|---|---|
| River.BulkSink.Add | src/main/java/org/elasticsearch/river/xdaqlas/XdaqLas.java:240-246 | `bulkProcessor.add` appends exactly the given request to what the processor holds |
| River.EmitRows | src/main/java/org/elasticsearch/river/xdaqlas/XdaqLas.java:210-251 | the row loop adds at most one request per row |
| River.EmitRowsConcat | src/main/java/org/elasticsearch/river/xdaqlas/XdaqLas.java:210-251 | rows are processed in order: the loop over `a + b` adds what `a` adds, then, unless `a` raised, what `b` adds |
| River.EmitRowsStep | src/main/java/org/elasticsearch/river/xdaqlas/XdaqLas.java:211-251 | after rows that all went through, a row that does not raise adds exactly its own request (or nothing when skipped) and the loop goes on |
| River.EmitRowsSkip | src/main/java/org/elasticsearch/river/xdaqlas/XdaqLas.java:238-250 | a row whose step is skipped adds nothing and does not stop the rows after it |
| River.EmitRowsAbort | src/main/java/org/elasticsearch/river/xdaqlas/XdaqLas.java:253-258 | an exception in a row keeps what the earlier rows added and adds nothing from that row on |
| River.EmitRowsAllEmit | src/main/java/org/elasticsearch/river/cmsdaq/Switches.java:127-143 | when every row emits, request i is row i's request: one per row, in row order |
| River.EmitRowsOnly | src/main/java/org/elasticsearch/river/xdaqlas/XdaqLas.java:211-247 | every request added was emitted by some row's step, so any property of emitted requests holds of all of them |
| Flashlist.CollectionUrlRoundTrip | src/main/java/org/elasticsearch/river/cmsdaq/XdaqLas.java:134 | the collection URL `URN/retrieveCollection?flash=NAME&fmt=json` determines the flashlist name, which reads back out of it |
| Flashlist.LastIndexOf | src/main/java/org/elasticsearch/river/xdaqlas/XdaqLas.java:208 | `lastIndexOf` is -1 exactly when the character is absent; otherwise that index holds it and no later index does |
| Flashlist.TypeName | src/main/java/org/elasticsearch/river/xdaqlas/XdaqLas.java:207-208 | the type name is the suffix of the flashlist name after its last `:`: it holds no `:`, and it is the whole name exactly when the name has no `:` |
| Flashlist.DeriveId | src/main/java/org/elasticsearch/river/xdaqlas/XdaqLas.java:217-235 | the step-by-step id construction with its `for ... break` search yields the id that `FlashlistId` specifies |
| Flashlist.FirstPresentIsFirst | src/main/java/org/elasticsearch/river/xdaqlas/XdaqLas.java:228-234 | the first key present decides the fallback id; keys after it are never consulted |
| Flashlist.FirstPresentNone | src/main/java/org/elasticsearch/river/xdaqlas/XdaqLas.java:228-236 | when no key is present, the search leaves the id null |
| Flashlist.IdWithGeoslot | src/main/java/org/elasticsearch/river/xdaqlas/XdaqLas.java:217-225 | with `hostname` and `geoslot`, the id is `hostname_geoslot_io` when `io` is present and `hostname_geoslot` when it is not |
| Flashlist.IdWithoutGeoslot | src/main/java/org/elasticsearch/river/xdaqlas/XdaqLas.java:218-225 | with `hostname` and no `geoslot`, the id is the host name alone and `io` is ignored |
| Flashlist.IdHostnameNotString | src/main/java/org/elasticsearch/river/xdaqlas/XdaqLas.java:217 | a non-string `hostname` makes the `(String)` cast raise |
| Flashlist.FallbackId | src/main/java/org/elasticsearch/river/xdaqlas/XdaqLas.java:227-235 | without `hostname`, the id is the first present value among `instance, srcId, partitionNumber, context, FMURL` |
| Flashlist.NoIdStillEmitted | src/main/java/org/elasticsearch/river/xdaqlas/XdaqLas.java:236-246 | when no id can be built, the id is null and the row is still sent when its timestamp parses |
| Flashlist.UnparsedTimestampDropsRow | src/main/java/org/elasticsearch/river/xdaqlas/XdaqLas.java:238-250 | a row whose timestamp fails to parse adds nothing, and the later rows are processed as if it were not there |
| Flashlist.MissingTimestampEndsTable | src/main/java/org/elasticsearch/river/xdaqlas/XdaqLas.java:239-258 | a row without a timestamp ends the table: earlier rows stay added, later rows are not read |
| Flashlist.LasRequestShape | src/main/java/org/elasticsearch/river/xdaqlas/XdaqLas.java:207-246 | every request of a table goes to index `flashlist`, has the table's type name, the row as source, the row's id and its parsed timestamp, and no ttl |
| Flashlist.LasRowsInOrder | src/main/java/org/elasticsearch/river/xdaqlas/XdaqLas.java:210-251 | when no row raises, the table completes and the requests are exactly the rows whose timestamp parses, in their original order |
| Flashlist.TablesRequestsAppend | src/main/java/org/elasticsearch/river/xdaqlas/XdaqLas.java:162-169 | one more catalog line adds, after what the earlier lines added, exactly what slurping that flashlist adds |
| Flashlist.TablesConcat | src/main/java/org/elasticsearch/river/xdaqlas/XdaqLas.java:162-169 | catalog entries are slurped in order and independently: entries `a + b` add what `a` adds, then what `b` adds |
| Flashlist.FailedTableIsolated | src/main/java/org/elasticsearch/river/xdaqlas/XdaqLas.java:253-258 | a flashlist that fails (bad URL, fetch or parse error) does not stop the later catalog entries of the same cycle |
| Flashlist.HeaderLineDiscarded | src/main/java/org/elasticsearch/river/xdaqlas/XdaqLas.java:162-169 | the first catalog line is never used as a flashlist, whatever it says; the remaining lines are processed in order |
| Flashlist.MalformedCatalogNeverSleeps | src/main/java/org/elasticsearch/river/xdaqlas/XdaqLas.java:145-151 | with a malformed catalog URL, every cycle restarts without reaching the sleep and nothing is ever added |
| Flashlist.IdExamples | src/main/java/org/elasticsearch/river/cmsdaq/XdaqLas.java:165-183 | `{hostname: node1, geoslot: 3}` gets id `node1_3`; `{instance: BU0}` gets `BU0` |
| XdaqLasRiver.Slurper.constructor | src/main/java/org/elasticsearch/river/xdaqlas/XdaqLas.java:130-134 | the base URN is the LAS URL followed by `/urn:xdaq-application:service=xmaslas2g` |
| XdaqLasRiver.Slurper.Run | src/main/java/org/elasticsearch/river/xdaqlas/XdaqLas.java:137-179 | cycle after cycle, the processor receives each cycle's requests, and each cycle ends with a 10 s sleep or a restart |
| XdaqLasRiver.Slurper.Cycle | src/main/java/org/elasticsearch/river/xdaqlas/XdaqLas.java:143-175 | one cycle adds what `CycleRequests` gives (every catalog line but the first, in order) and then sleeps; a malformed catalog URL restarts without sleeping |
| XdaqLasRiver.Slurper.ReadCatalog | src/main/java/org/elasticsearch/river/xdaqlas/XdaqLas.java:162-169 | the catalog loop skips the first line and slurps every other line in order, adding `TablesRequests` of the lines after the header |
| XdaqLasRiver.Slurper.SlurpFlashList | src/main/java/org/elasticsearch/river/xdaqlas/XdaqLas.java:181-270 | one flashlist adds exactly what `TableEmission` gives: nothing on a bad URL or unreadable payload, else the row loop up to the first exception |
| XdaqLasRiver.Slurper.SlurpRows | src/main/java/org/elasticsearch/river/xdaqlas/XdaqLas.java:210-251 | the row loop adds what `EmitRows` gives for the table: each row's request in order, up to the first row that raises |
| XdaqLasRiver.Slurper.SlurpRow | src/main/java/org/elasticsearch/river/xdaqlas/XdaqLas.java:213-250 | one row raises exactly when its step aborts, and adds its request exactly when its timestamp parses |
| CmsdaqLasRiver.Slurper.constructor | src/main/java/org/elasticsearch/river/cmsdaq/XdaqLas.java:77-82 | the base URN is `lasURL + "/urn:xdaq-application:service=xmaslas2g"` |
| CmsdaqLasRiver.Slurper.Run | src/main/java/org/elasticsearch/river/cmsdaq/XdaqLas.java:85-127 | same poll loop as the stand-alone river, proved against the same functions |
| CmsdaqLasRiver.Slurper.Cycle | src/main/java/org/elasticsearch/river/cmsdaq/XdaqLas.java:91-123 | the catalog header line is skipped and the remaining lines are slurped in order, then the thread sleeps 10 s |
| CmsdaqLasRiver.Slurper.ReadCatalog | src/main/java/org/elasticsearch/river/cmsdaq/XdaqLas.java:110-117 | the first catalog line is skipped and every other line is slurped in order |
| CmsdaqLasRiver.Slurper.SlurpFlashList | src/main/java/org/elasticsearch/river/cmsdaq/XdaqLas.java:129-218 | rows with an unparseable timestamp are dropped; every other row is added in source order, until a row raises |
| CmsdaqLasRiver.Slurper.SlurpRows | src/main/java/org/elasticsearch/river/cmsdaq/XdaqLas.java:158-199 | the row loop adds each row's request in order until a row raises, exactly as `EmitRows` specifies |
| CmsdaqLasRiver.Slurper.SlurpRow | src/main/java/org/elasticsearch/river/cmsdaq/XdaqLas.java:159-198 | one row: id as `hostname[_geoslot[_io]]` or the first fallback key, added only with a parsed timestamp |
| Switches.OneRequestPerRow | src/main/java/org/elasticsearch/river/cmsdaq/Switches.java:127-143 | with readable properties and well-formed rows, each row gives exactly one request, in row order, with type = `switch`, id = `port` and the row as source |
| Switches.SharedIndexTimestampTtl | src/main/java/org/elasticsearch/river/cmsdaq/Switches.java:115-142 | all requests from one payload go to index `properties.Name` and carry the same parsed `LastUpdate` timestamp and the same ttl |
| Switches.UnparsedLastUpdateKeepsRows | src/main/java/org/elasticsearch/river/cmsdaq/Switches.java:118-142 | if `LastUpdate` fails to parse, the timestamp is null and every row is still emitted |
| Switches.UnreadablePayloadAddsNothing | src/main/java/org/elasticsearch/river/cmsdaq/Switches.java:112-128 | a payload that cannot be read, or lacks readable properties or rows, adds nothing |
| Switches.PollConcat | src/main/java/org/elasticsearch/river/cmsdaq/Switches.java:100-163 | cycles add their requests one after another |
| Switches.FailedCycleIsolated | src/main/java/org/elasticsearch/river/cmsdaq/Switches.java:145-162 | a cycle whose fetch or parse fails is logged and skipped; the cycles after it add what they would add anyway |
| Switches.Slurper.constructor | src/main/java/org/elasticsearch/river/cmsdaq/Switches.java:78-84 | the slurper keeps the switch URL, the ttl and the bulk processor it is given |
| Switches.Slurper.Run | src/main/java/org/elasticsearch/river/cmsdaq/Switches.java:87-167 | a malformed switch URL ends the task before any fetch, with nothing added; otherwise each cycle ingests its payload and sleeps 30 s |
| Switches.Slurper.Ingest | src/main/java/org/elasticsearch/river/cmsdaq/Switches.java:102-150 | one payload adds exactly what `PayloadEmission` gives: the rows in order with the shared index, timestamp and ttl, until an exception |
| Switches.Slurper.IngestRows | src/main/java/org/elasticsearch/river/cmsdaq/Switches.java:128-143 | the row loop adds one request per row, type `switch`, id `port`, shared index, timestamp and ttl, until a row raises, as `EmitRows` specifies |

## Left out

- HTTP transport: `HttpURLConnection`, the `BufferedReader`, and closing the
  stream and the connection. Fetch results are inputs. The catalog input is the
  lines read before end of stream or an I/O error; a connection that fails with
  an `IOException` gives no lines.
- Runtime exceptions while fetching the LAS catalog. The catalog `try` catches
  only `IOException` (`xdaqlas/XdaqLas.java:171`, `cmsdaq/XdaqLas.java:119`). Any
  other exception, such as the `(HttpURLConnection)` cast failing for a
  well-formed non-HTTP URL like `file:`, ends `run()` for good. The model has no
  such outcome: `CycleEvent` is only `Slept` or `Restarted`, and `Run` always
  goes on to the next cycle.
- SOCKS proxy construction (`DaqRiver` constructor, stand-alone `XdaqLas`
  constructor) and routing requests through the proxy. These are transport
  concerns.
- json-simple parsing. The parsed payload, or its failure, is an input. The
  document body (`row.toString()`) is the row itself; its JSON text is not
  modelled.
- `SimpleDateFormat` and `java.net.URL`. They are foreign libraries and appear
  only as the parameters in `Env`; locale and time zone are not modelled.
- The `BulkProcessor`'s batching, flush triggers, concurrency limit and
  listener callbacks. These are library internals; the sink is append-only.
- Threads, `Thread.sleep`, `interrupt`, `start` and `close`. A sleep is a trace
  event, and interruption is the end of the input sequence of cycles. The
  interrupt is observed only in `Thread.sleep`. With a malformed catalog URL the
  `continue` (`xdaqlas/XdaqLas.java:150`, `cmsdaq/XdaqLas.java:98`) never
  reaches the sleep, so `close()` cannot stop the LAS thread and it spins
  forever. The model cannot express that a finite cycle sequence never ends.
- Repeated flashlist names. Payloads are looked up by collection URL. A flashlist
  named twice in one catalog is fetched twice by the source
  (`xdaqlas/XdaqLas.java:168`, `:186-203`), and the two fetches can differ, for
  example when one fails transiently. The model assumes that repeated names
  within one cycle fetch the same payload.
- Logging, and the plugin and module registration classes. These are wiring.
- The ttl given to the switch slurper comes from a `ttl` field that
  `cmsdaq/DaqRiver.java` does not declare. Where it comes from is not part of
  this model; it is a constructor parameter.
