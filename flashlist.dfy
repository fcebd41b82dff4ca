/**
  The LAS flashlist river's data shaping, as functions: where the catalog and the
  tables are fetched from, the document type and id derived for each row, which
  rows reach the bulk processor, and what one polling cycle adds to it. Both LAS
  slurpers (XdaqLasRiver and CmsdaqLasRiver) are proved against these functions.
*/
module Flashlist {
  import opened Json
  import opened River

  const URN_SUFFIX := "/urn:xdaq-application:service=xmaslas2g"
  const CATALOG_QUERY := "/retrieveCatalog?fmt=plain"
  const COLLECTION_QUERY := "/retrieveCollection?flash="
  const COLLECTION_FORMAT := "&fmt=json"
  const INDEX_NAME := "flashlist"
  const DATE_FORMAT := "E, MMM dd yyyy HH:mm:ss z"
  const SLEEP_MILLIS: nat := 10000
  /** The fields consulted, in this order, for a row without `hostname`. */
  const FALLBACK_KEYS: seq<string> := ["instance", "srcId", "partitionNumber", "context", "FMURL"]

  /** What the LAS returned during one cycle: the catalog lines read before the end
      of the stream (or an I/O error), and the payload of each collection URL. */
  datatype Fetched = Fetched(catalog: seq<string>, collection: string -> Payload)

  function LasUrn(lasURL: string): string
  {
    lasURL + URN_SUFFIX
  }

  function CatalogUrl(urn: string): string
  {
    urn + CATALOG_QUERY
  }

  function CollectionUrl(urn: string, flashList: string): string
  {
    urn + COLLECTION_QUERY + flashList + COLLECTION_FORMAT
  }

  /** Reads the flashlist name back out of a collection URL. */
  function FlashListOf(urn: string, url: string): Option<string>
  {
    var head := urn + COLLECTION_QUERY;
    if |url| >= |head| + |COLLECTION_FORMAT|
       && url[..|head|] == head
       && url[|url| - |COLLECTION_FORMAT|..] == COLLECTION_FORMAT
    then Some(url[|head|..|url| - |COLLECTION_FORMAT|])
    else None
  }

  /** Each flashlist has its own collection URL, from which its name can be read
      back. */
  lemma CollectionUrlRoundTrip(urn: string, flashList: string)
    ensures FlashListOf(urn, CollectionUrl(urn, flashList)) == Some(flashList)
  {
    var head := urn + COLLECTION_QUERY;
    var url := CollectionUrl(urn, flashList);
    assert url == head + flashList + COLLECTION_FORMAT;
    assert url[..|head|] == head;
    assert url[|url| - |COLLECTION_FORMAT|..] == COLLECTION_FORMAT;
    assert url[|head|..|url| - |COLLECTION_FORMAT|] == flashList;
  }

  /** `s.lastIndexOf(c)`: the index of the last `c`, or -1. */
  function LastIndexOf(s: string, c: char): (r: int)
    ensures -1 <= r < |s|
    ensures 0 <= r ==> s[r] == c
    ensures forall k :: r < k < |s| ==> s[k] != c
    decreases |s|
  {
    if s == [] then -1
    else if s[|s| - 1] == c then |s| - 1
    else LastIndexOf(s[..|s| - 1], c)
  }

  /** `flashList.substring(flashList.lastIndexOf(':') + 1)`: the text after the last
      colon, or the whole name when it has none. */
  function TypeName(flashList: string): (t: string)
    ensures ':' !in t
    ensures |t| <= |flashList| && t == flashList[|flashList| - |t|..]
    ensures |t| == |flashList| || flashList[|flashList| - |t| - 1] == ':'
    ensures |t| == |flashList| <==> ':' !in flashList
  {
    var t := flashList[LastIndexOf(flashList, ':') + 1..];
    assert forall k :: 0 <= k < |t| ==> t[k] == flashList[LastIndexOf(flashList, ':') + 1 + k];
    t
  }

  /** The value of the first of `keys` present in `row`, rendered as text. */
  function FirstPresent(row: Row, keys: seq<string>): Option<string>
  {
    if keys == [] then None
    else
      match Get(row, keys[0])
      case Some(v) => Some(ToString(v))
      case None => FirstPresent(row, keys[1..])
  }

  /** The document id of a row. `Raised` when `hostname` holds something other than a
      string; `Done(None)` when no id could be built. */
  function FlashlistId(row: Row): Outcome<Option<string>>
  {
    match AsString(Get(row, "hostname"))
    case Raised => Raised
    case Done(None) => Done(FirstPresent(row, FALLBACK_KEYS))
    case Done(Some(host)) =>
      Done(Some(
        match Get(row, "geoslot")
        case None => host
        case Some(geoslot) =>
          var slotted := host + "_" + ToString(geoslot);
          match Get(row, "io")
          case None => slotted
          case Some(io) => slotted + "_" + ToString(io)))
  }

  /** The id construction of the row loop: a local built up field by field, with a
      `for ... break` search through the fallback keys. */
  method DeriveId(row: Row) returns (id: Outcome<Option<string>>)
    ensures id == FlashlistId(row)
  {
    var hostname := AsString(Get(row, "hostname"));
    if hostname.Raised? {
      return Raised;
    }
    if hostname.value.Some? {
      var s := hostname.value.value;
      var geoslot := Get(row, "geoslot");
      if geoslot.Some? {
        s := s + "_" + ToString(geoslot.value);
        var io := Get(row, "io");
        if io.Some? {
          s := s + "_" + ToString(io.value);
        }
      }
      return Done(Some(s));
    }
    var found: Option<string> := None;
    var k := 0;
    while k < |FALLBACK_KEYS|
      invariant 0 <= k <= |FALLBACK_KEYS|
      invariant FirstPresent(row, FALLBACK_KEYS) == FirstPresent(row, FALLBACK_KEYS[k..])
    {
      var v := Get(row, FALLBACK_KEYS[k]);
      if v.Some? {
        found := Some(ToString(v.value));
        break;
      }
      k := k + 1;
    }
    return Done(found);
  }

  /** The first present key decides the result; later keys are never consulted. */
  lemma {:induction false} FirstPresentIsFirst(row: Row, keys: seq<string>, k: nat)
    requires k < |keys| && Get(row, keys[k]).Some?
    requires forall j :: 0 <= j < k ==> Get(row, keys[j]).None?
    ensures FirstPresent(row, keys) == Some(ToString(Get(row, keys[k]).value))
  {
    if k > 0 {
      assert Get(row, keys[0]).None?;
      FirstPresentIsFirst(row, keys[1..], k - 1);
    }
  }

  /** With no key present the result is `None`. */
  lemma {:induction false} FirstPresentNone(row: Row, keys: seq<string>)
    requires forall j :: 0 <= j < |keys| ==> Get(row, keys[j]).None?
    ensures FirstPresent(row, keys) == None
  {
    if keys != [] {
      FirstPresentNone(row, keys[1..]);
    }
  }

  /** With `hostname` and `geoslot` present the id is `hostname_geoslot`, followed by
      `_io` when `io` is present too. */
  lemma IdWithGeoslot(row: Row, host: string)
    requires Get(row, "hostname") == Some(Str(host))
    requires Get(row, "geoslot").Some?
    ensures Get(row, "io").Some? ==>
      FlashlistId(row) == Done(Some(host + "_" + ToString(Get(row, "geoslot").value) + "_" + ToString(Get(row, "io").value)))
    ensures Get(row, "io").None? ==>
      FlashlistId(row) == Done(Some(host + "_" + ToString(Get(row, "geoslot").value)))
  {
  }

  /** With `hostname` present and `geoslot` absent the id is the host name alone,
      whatever `io` holds. */
  lemma IdWithoutGeoslot(row: Row, host: string)
    requires Get(row, "hostname") == Some(Str(host))
    requires Get(row, "geoslot").None?
    ensures FlashlistId(row) == Done(Some(host))
  {
  }

  /** A `hostname` that is not a string makes the `(String)` cast raise. */
  lemma IdHostnameNotString(row: Row)
    requires Get(row, "hostname").Some? && !Get(row, "hostname").value.Str?
    ensures FlashlistId(row) == Raised
  {
  }

  /** Without `hostname` the id is the first of `instance`, `srcId`,
      `partitionNumber`, `context`, `FMURL` that is present. */
  lemma FallbackId(row: Row, k: nat)
    requires Get(row, "hostname").None?
    requires k < |FALLBACK_KEYS| && Get(row, FALLBACK_KEYS[k]).Some?
    requires forall j :: 0 <= j < k ==> Get(row, FALLBACK_KEYS[j]).None?
    ensures FlashlistId(row) == Done(Some(ToString(Get(row, FALLBACK_KEYS[k]).value)))
  {
    FirstPresentIsFirst(row, FALLBACK_KEYS, k);
  }

  /** The timestamp a row carries, if its `timestamp` field is a string that parses. */
  function RowTimestamp(parse: (string, string) -> Option<int>, row: Row): Option<int>
  {
    match AsString(Get(row, "timestamp"))
    case Done(Some(text)) => parse(DATE_FORMAT, text)
    case _ => None
  }

  /** One pass of the row loop in `slurpFlashList`. */
  function LasRowStep(typeName: string, parse: (string, string) -> Option<int>, item: JsonObj): Step
  {
    match item
    case NotAnObject => Abort
    case Obj(row) =>
      match FlashlistId(row)
      case Raised => Abort
      case Done(id) =>
        match AsString(Get(row, "timestamp"))
        case Raised => Abort
        case Done(None) => Abort  // DateFormat.parse(null) dereferences null
        case Done(Some(text)) =>
          match parse(DATE_FORMAT, text)
          case None => Skip       // ParseException: logged, row dropped
          case Some(millis) =>
            Emit(IndexRequest(Some(INDEX_NAME), Some(typeName), id, Some(millis), None, row))
  }

  function LasStep(typeName: string, parse: (string, string) -> Option<int>): JsonObj -> Step
  {
    item => LasRowStep(typeName, parse, item)
  }

  /** Without an id the row is still indexed, with a `null` id, when its timestamp
      parses. */
  lemma NoIdStillEmitted(typeName: string, parse: (string, string) -> Option<int>, row: Row, millis: int)
    requires Get(row, "hostname").None?
    requires forall j :: 0 <= j < |FALLBACK_KEYS| ==> Get(row, FALLBACK_KEYS[j]).None?
    requires RowTimestamp(parse, row) == Some(millis)
    ensures FlashlistId(row) == Done(None)
    ensures LasRowStep(typeName, parse, Obj(row)) ==
      Emit(IndexRequest(Some(INDEX_NAME), Some(typeName), None, Some(millis), None, row))
  {
    FirstPresentNone(row, FALLBACK_KEYS);
  }

  /** A row whose timestamp does not parse adds nothing, and the rows after it are
      still processed. */
  lemma UnparsedTimestampDropsRow(typeName: string, parse: (string, string) -> Option<int>,
                                  a: seq<JsonObj>, row: Row, text: string, b: seq<JsonObj>)
    requires FlashlistId(row).Done?
    requires Get(row, "timestamp") == Some(Str(text)) && parse(DATE_FORMAT, text) == None
    ensures EmitRows(a + [Obj(row)] + b, LasStep(typeName, parse)) == EmitRows(a + b, LasStep(typeName, parse))
  {
    EmitRowsSkip(a, Obj(row), b, LasStep(typeName, parse));
  }

  /** A row without a timestamp makes `DateFormat.parse(null)` raise: the rows before
      it stay added and the rest of the table is dropped. */
  lemma MissingTimestampEndsTable(typeName: string, parse: (string, string) -> Option<int>,
                                  a: seq<JsonObj>, row: Row, b: seq<JsonObj>)
    requires FlashlistId(row).Done?
    requires Get(row, "timestamp").None?
    ensures EmitRows(a + [Obj(row)] + b, LasStep(typeName, parse)) ==
      Emission(EmitRows(a, LasStep(typeName, parse)).requests, false)
  {
    EmitRowsAbort(a, Obj(row), b, LasStep(typeName, parse));
  }

  /** Every request added for a table is an index request to `flashlist`, of the
      table's type, with the row as source, the row's id, and the row's parsed
      timestamp. */
  lemma LasRequestShape(typeName: string, parse: (string, string) -> Option<int>, items: seq<JsonObj>)
    ensures forall r :: r in EmitRows(items, LasStep(typeName, parse)).requests ==>
      r.index == Some(INDEX_NAME) && r.docType == Some(typeName) && r.ttl == None &&
      FlashlistId(r.source) == Done(r.id) &&
      r.timestamp.Some? && r.timestamp == RowTimestamp(parse, r.source)
  {
    var ok := (r: IndexRequest) =>
      r.index == Some(INDEX_NAME) && r.docType == Some(typeName) && r.ttl == None &&
      FlashlistId(r.source) == Done(r.id) &&
      r.timestamp.Some? && r.timestamp == RowTimestamp(parse, r.source);
    EmitRowsOnly(items, LasStep(typeName, parse), ok);
  }

  /** The rows of a table whose timestamp parses, in table order. */
  function ParsedRows(parse: (string, string) -> Option<int>, items: seq<JsonObj>): seq<Row>
    decreases |items|
  {
    if items == [] then []
    else
      var last := items[|items| - 1];
      ParsedRows(parse, items[..|items| - 1]) +
        (if last.Obj? && RowTimestamp(parse, last.fields).Some? then [last.fields] else [])
  }

  /** When no row raises, the table is processed to the end and the requests are
      exactly the rows whose timestamp parses, in their original order. */
  lemma {:induction false} LasRowsInOrder(typeName: string, parse: (string, string) -> Option<int>, items: seq<JsonObj>)
    requires forall i :: 0 <= i < |items| ==> !LasRowStep(typeName, parse, items[i]).Abort?
    ensures EmitRows(items, LasStep(typeName, parse)).completed
    ensures |EmitRows(items, LasStep(typeName, parse)).requests| == |ParsedRows(parse, items)|
    ensures forall i :: 0 <= i < |ParsedRows(parse, items)| ==>
      EmitRows(items, LasStep(typeName, parse)).requests[i].source == ParsedRows(parse, items)[i]
    decreases |items|
  {
    if items != [] {
      var prefix := items[..|items| - 1];
      assert forall i :: 0 <= i < |prefix| ==> prefix[i] == items[i];
      LasRowsInOrder(typeName, parse, prefix);
      assert !LasRowStep(typeName, parse, items[|items| - 1]).Abort?;
    }
  }

  /** What `slurpFlashList` adds for one catalog entry. */
  function TableEmission(urn: string, env: Env, collection: string -> Payload, flashList: string): Emission
  {
    var url := CollectionUrl(urn, flashList);
    if !env.wellFormed(url) then Emission([], false)
    else
      match collection(url)
      case Unreadable => Emission([], false)
      case Table(_, None) => Emission([], false)
      case Table(_, Some(items)) => EmitRows(items, LasStep(TypeName(flashList), env.parseDate))
  }

  /** What the catalog entries `names` add, processed in order. */
  function TablesRequests(urn: string, env: Env, collection: string -> Payload, names: seq<string>): seq<IndexRequest>
    decreases |names|
  {
    if names == [] then []
    else
      TablesRequests(urn, env, collection, names[..|names| - 1]) +
        TableEmission(urn, env, collection, names[|names| - 1]).requests
  }

  /** One more catalog line processed. */
  lemma TablesRequestsAppend(urn: string, env: Env, collection: string -> Payload, names: seq<string>, name: string)
    ensures TablesRequests(urn, env, collection, names + [name]) ==
      TablesRequests(urn, env, collection, names) + TableEmission(urn, env, collection, name).requests
  {
    var done := names + [name];
    assert done[..|done| - 1] == names;
  }

  /** Catalog entries are independent: whatever one table does, including failing,
      the entries after it contribute exactly what they would on their own. */
  lemma {:induction false} TablesConcat(urn: string, env: Env, collection: string -> Payload, a: seq<string>, b: seq<string>)
    ensures TablesRequests(urn, env, collection, a + b) ==
      TablesRequests(urn, env, collection, a) + TablesRequests(urn, env, collection, b)
    decreases |b|
  {
    if b == [] {
      assert a + b == a;
    } else {
      var b' := b[..|b| - 1];
      assert (a + b)[..|a + b| - 1] == a + b';
      assert (a + b)[|a + b| - 1] == b[|b| - 1];
      TablesConcat(urn, env, collection, a, b');
    }
  }

  /** A table that adds nothing (a bad URL, a failed fetch, a parse error) does not
      stop the later catalog entries. */
  lemma FailedTableIsolated(urn: string, env: Env, collection: string -> Payload,
                            a: seq<string>, failed: string, b: seq<string>)
    requires TableEmission(urn, env, collection, failed).requests == []
    ensures TablesRequests(urn, env, collection, a + [failed] + b) ==
      TablesRequests(urn, env, collection, a) + TablesRequests(urn, env, collection, b)
  {
    var withFailed := a + [failed];
    assert withFailed[..|withFailed| - 1] == a;
    assert TablesRequests(urn, env, collection, withFailed) == TablesRequests(urn, env, collection, a);
    TablesConcat(urn, env, collection, withFailed, b);
    assert withFailed + b == a + [failed] + b;
  }

  /** What one cycle of the catalog loop adds: nothing when the catalog URL is
      malformed, otherwise every catalog line but the first, in order. */
  function CycleRequests(urn: string, env: Env, fetched: Fetched): seq<IndexRequest>
  {
    if !env.wellFormed(CatalogUrl(urn)) || fetched.catalog == [] then []
    else TablesRequests(urn, env, fetched.collection, fetched.catalog[1..])
  }

  /** How a cycle ends: a malformed catalog URL goes back to the top of the loop
      without sleeping. */
  function CycleEvent(urn: string, env: Env): Event
  {
    if env.wellFormed(CatalogUrl(urn)) then Slept(SLEEP_MILLIS) else Restarted
  }

  /** The first catalog line is a header: whatever it says, it is never fetched, and
      the remaining lines are processed in order. */
  lemma HeaderLineDiscarded(urn: string, env: Env, header: string, names: seq<string>, collection: string -> Payload)
    requires env.wellFormed(CatalogUrl(urn))
    ensures CycleRequests(urn, env, Fetched([header] + names, collection)) ==
      TablesRequests(urn, env, collection, names)
  {
    assert ([header] + names)[1..] == names;
  }

  /** What a run of cycles adds, cycle after cycle. */
  function PollRequests(urn: string, env: Env, cycles: seq<Fetched>): seq<IndexRequest>
    decreases |cycles|
  {
    if cycles == [] then []
    else PollRequests(urn, env, cycles[..|cycles| - 1]) + CycleRequests(urn, env, cycles[|cycles| - 1])
  }

  /** One more cycle run. */
  lemma PollRequestsStep(urn: string, env: Env, cycles: seq<Fetched>, i: nat)
    requires i < |cycles|
    ensures PollRequests(urn, env, cycles[..i + 1]) == PollRequests(urn, env, cycles[..i]) + CycleRequests(urn, env, cycles[i])
  {
    var done := cycles[..i + 1];
    assert done[..|done| - 1] == cycles[..i];
    assert done[|done| - 1] == cycles[i];
  }

  /** A malformed catalog URL never gets better: every cycle restarts at once,
      without sleeping, and nothing is ever added. Since the interrupt is only
      observed in `Thread.sleep`, on this path it is never observed and the
      thread cannot be stopped. */
  lemma {:induction false} MalformedCatalogNeverSleeps(urn: string, env: Env, cycles: seq<Fetched>)
    requires !env.wellFormed(CatalogUrl(urn))
    ensures CycleEvent(urn, env) == Restarted
    ensures PollRequests(urn, env, cycles) == []
    decreases |cycles|
  {
    if cycles != [] {
      MalformedCatalogNeverSleeps(urn, env, cycles[..|cycles| - 1]);
    }
  }

  /** `{hostname: "node1", geoslot: 3}` gets the id `node1_3`; `{instance: "BU0"}`
      gets `BU0`. */
  lemma IdExamples()
    ensures FlashlistId(map["hostname" := Str("node1"), "geoslot" := Num(3)]) == Done(Some("node1_3"))
    ensures FlashlistId(map["instance" := Str("BU0")]) == Done(Some("BU0"))
  {
    var host := map["hostname" := Str("node1"), "geoslot" := Num(3)];
    assert ToString(Num(3)) == "3";
    assert Get(host, "io").None?;
    IdWithGeoslot(host, "node1");
    assert "node1" + "_" + "3" == "node1_3";
    FallbackId(map["instance" := Str("BU0")], 0);
  }
}
