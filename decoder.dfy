/**
 * The `sca_decoder` helper itself: the path tables it builds once, and the
 * operation it runs on every event, which checks the event, dispatches on
 * its type to one handler and records the outcome in the target field.
 */
module ScaDecoder {
  import opened Util
  import opened JsonModel
  import opened ScaFields
  import opened BaseEvent
  import opened WazuhDb
  import opened SocketInterface
  import opened DecodeContext
  import opened CheckEvent
  import opened ScanInfo
  import opened PoliciesEvent
  import opened DumpEnd

  const TYPE_CHECK := "check"
  const TYPE_SUMMARY := "summary"
  const TYPE_POLICIES := "policies"
  const TYPE_DUMP_END := "dump_end"

  /** The field-table loop of the builder: every field under the incoming path and under `/sca`. */
  method BuildFieldMaps(sourceScaPath: string) returns (fieldSource: map<FieldName, string>,
                                                         fieldDest: map<FieldName, string>)
    ensures IsPathTable(fieldSource, sourceScaPath) && IsPathTable(fieldDest, "/sca")
    ensures fieldSource[Root] == sourceScaPath
  {
    fieldSource, fieldDest := map[], map[];
    var i := 0;
    while i < 42
      invariant 0 <= i <= 42
      invariant forall f: FieldName :: f in fieldSource <==> (f as int) < i
      invariant forall f: FieldName :: f in fieldDest <==> (f as int) < i
      invariant forall f: FieldName :: f in fieldSource ==> fieldSource[f] == sourceScaPath + RelativePath(f)
      invariant forall f: FieldName :: f in fieldDest ==> fieldDest[f] == "/sca" + RelativePath(f)
    {
      var field := i as FieldName;
      fieldSource := fieldSource[field := sourceScaPath + RelativePath(field)];
      fieldDest := fieldDest[field := "/sca" + RelativePath(field)];
      i := i + 1;
    }
    assert RelativePath(Root) == "";
  }

  /** A context over the builder's tables is a valid one, rooted at the incoming path. */
  lemma TablesValid(ctx: DecodeCxt, sourceScaPath: string)
    requires IsPathTable(ctx.sourcePath, sourceScaPath) && IsPathTable(ctx.destinationPath, "/sca")
    ensures ctx.Valid() && ctx.sourcePath[Root] == sourceScaPath
  {
    assert RelativePath(Root) == "";
    assert ctx.sourcePath[Root] == sourceScaPath + "";
    assert sourceScaPath + "" == sourceScaPath;
  }

  /** The outcome handed back to the engine, with its trace. */
  datatype Outcome = Success(trace: string) | Failure(trace: string)

  function SuccessTrace(name: string): string {
    "[" + name + "] -> Success"
  }

  /** `failureTrace1`: the incoming object, the agent id or the type is missing. */
  function NotFoundTrace(name: string, sourceScaPath: string): string {
    "[" + name + "] -> Failure: [" + sourceScaPath + "] not found"
  }

  /** `failureTrace3`: a type no handler takes. */
  function UnknownTypeTrace(name: string, sourceScaPath: string): string {
    "[" + name + "] -> Failure: [" + sourceScaPath + "/type] unknown type"
  }

  /** The handler for an event type: its error, if any, and the world after it. */
  function Dispatch(ctx: DecodeCxt, w: World, eventType: string, name: string, sourceScaPath: string)
    : (Option<string>, World)
    requires ctx.Valid()
  {
    if eventType == TYPE_CHECK then HandleCheck(ctx, w)
    else if eventType == TYPE_SUMMARY then HandleScan(ctx, w)
    else if eventType == TYPE_POLICIES then HandlePolicies(ctx, w)
    else if eventType == TYPE_DUMP_END then HandleDump(ctx, w)
    else (Some(UnknownTypeTrace(name, sourceScaPath)), w)
  }

  /**
   * The helper's operation on one event, on the world: the handler's error
   * or one of the decoder's own, and the world after it with the target
   * field set to whether there was none.
   */
  function Decode(event: Event, wdb: WazuhDB, socket: UnixDatagram,
                  fieldSrc: map<FieldName, string>, fieldDst: map<FieldName, string>,
                  sourceScaPath: string, agentIdPath: string, targetField: string, name: string,
                  w: World): (Outcome, World)
    requires IsPathTable(fieldSrc, sourceScaPath) && IsPathTable(fieldDst, "/sca")
  {
    var (error, w1) :=
      if sourceScaPath in w.doc && GetString(w.doc, agentIdPath).Some? then
        var ctx := DecodeCxt(event, GetString(w.doc, agentIdPath).value, wdb, socket, fieldSrc, fieldDst);
        TablesValid(ctx, sourceScaPath);
        match GetString(w.doc, sourceScaPath + "/type")
        case None => (Some(NotFoundTrace(name, sourceScaPath)), w)
        case Some(eventType) => Dispatch(ctx, w, eventType, name, sourceScaPath)
      else (Some(NotFoundTrace(name, sourceScaPath)), w);
    if error.Some? then (Failure(error.value), w1.(doc := w1.doc[targetField := JBool(false)]))
    else (Outcome.Success(SuccessTrace(name)), w1.(doc := w1.doc[targetField := JBool(true)]))
  }

  /**
   * Every event ends with the target field holding whether it succeeded; a
   * success carries the success trace. Without the incoming object or a
   * string agent id, or without a string type, the event fails with the
   * not-found trace and only the target field changes.
   */
  lemma DecodeOutcome(event: Event, wdb: WazuhDB, socket: UnixDatagram,
                      fieldSrc: map<FieldName, string>, fieldDst: map<FieldName, string>,
                      sourceScaPath: string, agentIdPath: string, targetField: string, name: string,
                      w: World)
    requires IsPathTable(fieldSrc, sourceScaPath) && IsPathTable(fieldDst, "/sca")
    ensures var (out, r) := Decode(event, wdb, socket, fieldSrc, fieldDst, sourceScaPath, agentIdPath,
                                   targetField, name, w);
      && targetField in r.doc && r.doc[targetField] == JBool(out.Success?)
      && (out.Success? ==> out.trace == SuccessTrace(name))
      && (sourceScaPath !in w.doc || GetString(w.doc, agentIdPath).None?
          || GetString(w.doc, sourceScaPath + "/type").None? ==>
            out == Failure(NotFoundTrace(name, sourceScaPath))
            && r == w.(doc := w.doc[targetField := JBool(false)]))
  {
  }

  /**
   * An event of a type no handler takes fails with the unknown-type trace,
   * and only the target field changes: the store and the socket are not
   * used.
   */
  lemma DecodeUnknownType(event: Event, wdb: WazuhDB, socket: UnixDatagram,
                          fieldSrc: map<FieldName, string>, fieldDst: map<FieldName, string>,
                          sourceScaPath: string, agentIdPath: string, targetField: string, name: string,
                          w: World)
    requires IsPathTable(fieldSrc, sourceScaPath) && IsPathTable(fieldDst, "/sca")
    requires sourceScaPath in w.doc && GetString(w.doc, agentIdPath).Some?
    requires GetString(w.doc, sourceScaPath + "/type").Some?
    requires GetString(w.doc, sourceScaPath + "/type").value !in {TYPE_CHECK, TYPE_SUMMARY, TYPE_POLICIES, TYPE_DUMP_END}
    ensures Decode(event, wdb, socket, fieldSrc, fieldDst, sourceScaPath, agentIdPath, targetField, name, w)
         == (Failure(UnknownTypeTrace(name, sourceScaPath)), w.(doc := w.doc[targetField := JBool(false)]))
  {
  }

  /**
   * An event that reaches a handler succeeds exactly when the handler
   * reports no error, failing with the handler's own message otherwise; the
   * world is the handler's, plus the target field.
   */
  lemma DecodeDispatches(event: Event, wdb: WazuhDB, socket: UnixDatagram,
                         fieldSrc: map<FieldName, string>, fieldDst: map<FieldName, string>,
                         sourceScaPath: string, agentIdPath: string, targetField: string, name: string,
                         w: World)
    requires IsPathTable(fieldSrc, sourceScaPath) && IsPathTable(fieldDst, "/sca")
    requires sourceScaPath in w.doc && GetString(w.doc, agentIdPath).Some?
    requires GetString(w.doc, sourceScaPath + "/type").Some?
    ensures var ctx := DecodeCxt(event, GetString(w.doc, agentIdPath).value, wdb, socket, fieldSrc, fieldDst);
      var eventType := GetString(w.doc, sourceScaPath + "/type").value;
      ctx.Valid() &&
      var (err, h) := Dispatch(ctx, w, eventType, name, sourceScaPath);
      var (out, r) := Decode(event, wdb, socket, fieldSrc, fieldDst, sourceScaPath, agentIdPath,
                             targetField, name, w);
      && (out.Success? <==> err.None?)
      && (err.Some? ==> out.trace == err.value)
      && r == h.(doc := h.doc[targetField := JBool(err.None?)])
  {
    TablesValid(DecodeCxt(event, GetString(w.doc, agentIdPath).value, wdb, socket, fieldSrc, fieldDst), sourceScaPath);
  }

  /**
   * The type is read at the incoming object's `type` member, which is the
   * source path of the type field; a check event missing a mandatory field
   * fails with the check handler's message and changes only the target field.
   */
  lemma DecodeInvalidCheck(event: Event, wdb: WazuhDB, socket: UnixDatagram,
                           fieldSrc: map<FieldName, string>, fieldDst: map<FieldName, string>,
                           sourceScaPath: string, agentIdPath: string, targetField: string, name: string,
                           w: World)
    requires IsPathTable(fieldSrc, sourceScaPath) && IsPathTable(fieldDst, "/sca")
    requires sourceScaPath in w.doc && GetString(w.doc, agentIdPath).Some?
    requires GetString(w.doc, sourceScaPath + "/type") == Some(TYPE_CHECK)
    ensures fieldSrc[Type] == sourceScaPath + "/type"
    ensures var ctx := DecodeCxt(event, GetString(w.doc, agentIdPath).value, wdb, socket, fieldSrc, fieldDst);
      ctx.Valid() &&
      (!ValidCheckEvent(ctx, w.doc) ==>
         Decode(event, wdb, socket, fieldSrc, fieldDst, sourceScaPath, agentIdPath, targetField, name, w)
         == (Failure(INVALID_CHECK), w.(doc := w.doc[targetField := JBool(false)])))
  {
    TablesValid(DecodeCxt(event, GetString(w.doc, agentIdPath).value, wdb, socket, fieldSrc, fieldDst), sourceScaPath);
    assert RelativePath(Type) == "/type";
  }

  /**
   * The helper's operation on one event, given the tables the builder made.
   */
  method DecodeEvent(event: Event, wdb: WazuhDB, cfg: UnixDatagram,
                     fieldSrc: map<FieldName, string>, fieldDst: map<FieldName, string>,
                     sourceScaPath: string, agentIdPath: string, targetField: string, name: string)
    returns (result: Outcome)
    requires IsPathTable(fieldSrc, sourceScaPath) && IsPathTable(fieldDst, "/sca")
    modifies event, wdb, cfg
    ensures (result, World(event.fields, wdb.log, cfg.connected, cfg.ops))
         == Decode(event, wdb, cfg, fieldSrc, fieldDst, sourceScaPath, agentIdPath, targetField, name,
                   old(World(event.fields, wdb.log, cfg.connected, cfg.ops)))
  {
    var error: Option<string>;
    var agentId := GetString(event.fields, agentIdPath);
    if sourceScaPath in event.fields && agentId.Some? {
      var cxt := DecodeCxt(event, agentId.value, wdb, cfg, fieldSrc, fieldDst);
      TablesValid(cxt, sourceScaPath);
      var eventType := GetString(event.fields, sourceScaPath + "/type");
      if eventType.None? {
        error := Some(NotFoundTrace(name, sourceScaPath));
      } else if eventType.value == TYPE_CHECK {
        error := HandleCheckEventIn(cxt);
      } else if eventType.value == TYPE_SUMMARY {
        error := HandleScanInfoIn(cxt);
      } else if eventType.value == TYPE_POLICIES {
        error := HandlePoliciesInfoIn(cxt);
      } else if eventType.value == TYPE_DUMP_END {
        error := HandleDumpEventIn(cxt);
      } else {
        error := Some(UnknownTypeTrace(name, sourceScaPath));
      }
    } else {
      error := Some(NotFoundTrace(name, sourceScaPath));
    }
    if error.Some? {
      event.SetBool(false, targetField);
      result := Failure(error.value);
    } else {
      event.SetBool(true, targetField);
      result := Outcome.Success(SuccessTrace(name));
    }
  }
}
