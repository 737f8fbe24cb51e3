/**
 * `sca::DecodeCxt`, the context handed to every handler, the observable
 * state the handlers change, and the helpers every handler shares: the
 * store queries, `copyIfExist`, `csvStr2ArrayIfExist` and `isValidEvent`.
 */
module DecodeContext {
  import opened Util
  import opened JsonModel
  import opened ScaFields
  import opened BaseEvent
  import opened WazuhDb
  import opened SocketInterface

  /**
   * Everything a handler can change: the event document, the queries sent
   * to the store, and the forwarder socket's connected flag and history.
   */
  datatype World = World(doc: Document, queries: seq<string>, connected: bool, ops: seq<ChannelOp>)

  datatype DecodeCxt = DecodeCxt(
    event: Event,
    agentID: string,
    wdb: WazuhDB,
    forwarderSocket: UnixDatagram,
    sourcePath: map<FieldName, string>,
    destinationPath: map<FieldName, string>)
  {
    /**
     * The path tables the decoder builds: each field under the incoming SCA
     * object (whose own path is the one of `Root`) and under `/sca`.
     */
    predicate Valid() {
      Root in sourcePath && IsPathTable(sourcePath, sourcePath[Root])
      && IsPathTable(destinationPath, "/sca")
    }

    function State(): World
      reads event, wdb, forwarderSocket
    {
      World(event.fields, wdb.log, forwarderSocket.connected, forwarderSocket.ops)
    }

    /** `getSrcStr`: the string at a field's source path, if there is one. */
    function SrcStr(doc: Document, f: FieldName): Option<string>
      requires Valid()
    {
      GetString(doc, sourcePath[f])
    }

    function SrcInt(doc: Document, f: FieldName): Option<int>
      requires Valid()
    {
      GetInt(doc, sourcePath[f])
    }

    /** `existsSrc`. */
    predicate ExistsSrc(doc: Document, f: FieldName)
      requires Valid()
    {
      sourcePath[f] in doc
    }
  }

  /** The decoder's tables are injective, so distinct fields never share a destination. */
  lemma ValidInjective(ctx: DecodeCxt)
    requires ctx.Valid()
    ensures Injective(ctx.sourcePath) && Injective(ctx.destinationPath)
  {
    PathTableInjective(ctx.sourcePath, ctx.sourcePath[Root]);
    PathTableInjective(ctx.destinationPath, "/sca");
  }

  /** The text of a store query: `agent <id> sca <verb> <args>`. */
  function ScaQuery(agent: string, verb: string, args: string): string {
    "agent " + agent + " sca " + verb + " " + args
  }

  /** One query to the store: its reply and the world with the query logged. */
  function Ask(ctx: DecodeCxt, w: World, query: string): (r: (Reply, World))
    ensures r.1 == w.(queries := w.queries + [query])
  {
    (ctx.wdb.answer(w.queries, query), w.(queries := w.queries + [query]))
  }

  /** `searchAndParse` on the world: the classified reply and the world after it. */
  function Search(ctx: DecodeCxt, w: World, query: string, parse: bool): (r: (SearchResult, string, World))
    ensures r.2 == w.(queries := w.queries + [query])
    ensures (r.0, r.1) == ParseReply(ctx.wdb.answer(w.queries, query), parse)
  {
    var (reply, w1) := Ask(ctx, w, query);
    var (res, payload) := ParseReply(reply, parse);
    (res, payload, w1)
  }

  /** A query whose reply only matters as a code. */
  method Query(ctx: DecodeCxt, query: string) returns (code: QueryResultCode)
    modifies ctx.wdb
    ensures (code, ctx.State()) == (Ask(ctx, old(ctx.State()), query).0.code, Ask(ctx, old(ctx.State()), query).1)
  {
    var reply := ctx.wdb.TryQueryAndParseResult(query);
    code := reply.code;
  }

  method SearchQuery(ctx: DecodeCxt, query: string, parse: bool) returns (result: SearchResult, payload: string)
    modifies ctx.wdb
    ensures (result, payload, ctx.State()) == Search(ctx, old(ctx.State()), query, parse)
  {
    result, payload := SearchAndParse(query, ctx.wdb, parse);
  }

  /** `copyIfExist`. */
  method CopyIfExist(ctx: DecodeCxt, f: FieldName)
    requires ctx.Valid()
    modifies ctx.event
    ensures ctx.event.fields == ApplyStep(ctx.sourcePath, ctx.destinationPath, old(ctx.event.fields), Copy(f))
  {
    var origin := ctx.sourcePath[f];
    if origin in ctx.event.fields {
      ctx.event.Set(ctx.destinationPath[f], origin);
    }
  }

  /** `csvStr2ArrayIfExist`: the array is built by appending each csv item in turn. */
  method CsvStr2ArrayIfExist(ctx: DecodeCxt, f: FieldName)
    requires ctx.Valid()
    modifies ctx.event
    ensures ctx.event.fields == ApplyStep(ctx.sourcePath, ctx.destinationPath, old(ctx.event.fields), CsvArray(f))
  {
    var csv := GetString(ctx.event.fields, ctx.sourcePath[f]);
    if csv.Some? {
      var path := ctx.destinationPath[f];
      var items := Split(csv.value, ',');
      ghost var arr := CsvItems(csv.value);
      ghost var start := ctx.event.fields;
      assert |arr| == |items| && forall j :: 0 <= j < |items| ==> arr[j] == JString(items[j]);
      ctx.event.SetArray(path);
      var i := 0;
      while i < |items|
        invariant 0 <= i <= |items|
        invariant ctx.event.fields == start[path := JArray(arr[..i])]
      {
        assert arr[..i + 1] == arr[..i] + [JString(items[i])];
        ctx.event.AppendString(items[i], path);
        i := i + 1;
      }
      assert arr[..i] == arr;
    }
  }

  /** `isValidEvent`: the conditions are checked in order, stopping at the first that fails. */
  method IsValidEvent(ctx: DecodeCxt, conditions: seq<Condition>) returns (ok: bool)
    requires ctx.Valid()
    ensures ok == AllConditionsHold(ctx.sourcePath, ctx.event.fields, conditions)
  {
    var i := 0;
    while i < |conditions|
      invariant 0 <= i <= |conditions|
      invariant forall j :: 0 <= j < i ==>
        ConditionHolds(ctx.event.fields, ctx.sourcePath[conditions[j].field], conditions[j].kind, conditions[j].mandatory)
    {
      var c := conditions[i];
      var path := ctx.sourcePath[c.field];
      var holds: bool;
      if path in ctx.event.fields {
        var v := ctx.event.fields[path];
        match c.kind
        case StringType => holds := v.JString?;
        case IntType => holds := v.JInt?;
        case BoolType => holds := v.JBool?;
        case ArrayType => holds := v.JArray?;
        case ObjectType => holds := v.JObject?;
      } else {
        holds := !c.mandatory;
      }
      if !holds {
        return false;
      }
      i := i + 1;
    }
    ok := true;
  }
}
