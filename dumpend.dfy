/**
 * Dump-end events (type "dump_end"): the agent finished sending a policy's
 * check results. Results older than the scan are dropped, and when the
 * stored results no longer match the stored summary a fresh dump is
 * requested.
 */
module DumpEnd {
  import opened Util
  import opened JsonModel
  import opened ScaFields
  import opened WazuhDb
  import opened SocketInterface
  import opened DecodeContext
  import opened DumpRequest
  import opened PolicyStore

  /** The conditions `isValidDumpEvent` checks, in its order. */
  const DUMP_CONDITIONS: seq<Condition> := [
    Condition(ElementsSent, IntType, true),
    Condition(PolicyId, StringType, true),
    Condition(ScanId, IntType, true)]

  const MALFORMED := "Malformed JSON"

  predicate ValidDump(ctx: DecodeCxt, doc: Document)
    requires ctx.Valid()
  {
    AllConditionsHold(ctx.sourcePath, doc, DUMP_CONDITIONS)
  }

  /**
   * A dump end is valid exactly when it has an integer count of elements
   * sent, a string policy id and an integer scan id.
   */
  lemma DumpFields(ctx: DecodeCxt, doc: Document)
    requires ctx.Valid()
    ensures ValidDump(ctx, doc) <==>
      ctx.SrcInt(doc, ElementsSent).Some? && ctx.SrcStr(doc, PolicyId).Some? && ctx.SrcInt(doc, ScanId).Some?
  {
    var src, cs := ctx.sourcePath, DUMP_CONDITIONS;
    if ValidDump(ctx, doc) {
      assert ConditionHolds(doc, src[cs[0].field], cs[0].kind, cs[0].mandatory);
      assert ConditionHolds(doc, src[cs[1].field], cs[1].kind, cs[1].mandatory);
      assert ConditionHolds(doc, src[cs[2].field], cs[2].kind, cs[2].mandatory);
    }
  }

  /**
   * `isValidDumpEvent`: no error, with the event's policy and scan ids,
   * exactly when the count, the policy id and the scan id are there with
   * their kinds; "Malformed JSON" with an empty id and scan -1 otherwise.
   */
  function DumpInfo(ctx: DecodeCxt, doc: Document): (r: (Option<string>, string, int))
    requires ctx.Valid()
    ensures r.0.None? <==>
      ctx.SrcInt(doc, ElementsSent).Some? && ctx.SrcStr(doc, PolicyId).Some? && ctx.SrcInt(doc, ScanId).Some?
    ensures r.0.None? ==> Some(r.1) == ctx.SrcStr(doc, PolicyId) && Some(r.2) == ctx.SrcInt(doc, ScanId)
    ensures r.0.Some? ==> r == (Some(MALFORMED), "", -1)
  {
    DumpFields(ctx, doc);
    if !ValidDump(ctx, doc) then (Some(MALFORMED), "", -1)
    else
      (None, ctx.SrcStr(doc, PolicyId).value, ctx.SrcInt(doc, ScanId).value)
  }

  method IsValidDumpEvent(ctx: DecodeCxt) returns (err: Option<string>, policyId: string, scanId: int)
    requires ctx.Valid()
    ensures (err, policyId, scanId) == DumpInfo(ctx, ctx.event.fields)
  {
    var ok := IsValidEvent(ctx, DUMP_CONDITIONS);
    if !ok {
      return Some(MALFORMED), "", -1;
    }
    DumpFields(ctx, ctx.event.fields);
    err, policyId, scanId := None, ctx.SrcStr(ctx.event.fields, PolicyId).value,
                             ctx.SrcInt(ctx.event.fields, ScanId).value;
  }

  function DeleteDistinctQuery(agent: string, policyId: string, scanId: int): string {
    ScaQuery(agent, "delete_check_distinct", Join([policyId, IntToString(scanId)], '|'))
  }

  /** The arguments split back into the policy id and the scan id when the id holds no `|`. */
  lemma DeleteDistinctArgs(policyId: string, scanId: int)
    requires '|' !in policyId
    ensures Split(Join([policyId, IntToString(scanId)], '|'), '|') == [policyId, IntToString(scanId)]
  {
    IntToStringHasNo(scanId, '|');
    SplitJoin([policyId, IntToString(scanId)], '|');
  }

  /** `deletePolicyCheckDistinct`: one delete, whatever the reply. */
  function DeletePolicyCheckDistinct(ctx: DecodeCxt, w: World, policyId: string, scanId: int): (r: World)
    ensures r == w.(queries := w.queries + [DeleteDistinctQuery(ctx.agentID, policyId, scanId)])
  {
    Ask(ctx, w, DeleteDistinctQuery(ctx.agentID, policyId, scanId)).1
  }

  method DeletePolicyCheckDistinctIn(ctx: DecodeCxt, policyId: string, scanId: int)
    modifies ctx.wdb
    ensures ctx.State() == DeletePolicyCheckDistinct(ctx, old(ctx.State()), policyId, scanId)
  {
    var code := Query(ctx, DeleteDistinctQuery(ctx.agentID, policyId, scanId));
  }

  /**
   * The check after the dump: when the stored results and the stored
   * summary are both found and their hashes differ, a dump that is not a
   * first scan is requested.
   */
  function DumpIntegrity(ctx: DecodeCxt, w: World, policyId: string): World {
    var (resCheckResult, hashCheckResults, w1) := FindCheckResults(ctx, w, policyId);
    if resCheckResult != Found then w1
    else
      var (resScanInfo, hashScanInfo, w2) := Search(ctx, w1, ScanQueryOf(ctx.agentID, policyId), true);
      if resScanInfo == Found && hashCheckResults != hashScanInfo then PushDump(ctx, w2, policyId, false)
      else w2
  }

  /** `handleDumpEvent` on the world: the error it returns, if any, and the world after it. */
  function HandleDump(ctx: DecodeCxt, w: World): (Option<string>, World)
    requires ctx.Valid()
  {
    var (checkError, policyId, scanId) := DumpInfo(ctx, w.doc);
    if checkError.Some? then (checkError, w)
    else (None, DumpIntegrity(ctx, DeletePolicyCheckDistinct(ctx, w, policyId, scanId), policyId))
  }

  /** A malformed dump end is rejected and nothing changes. */
  lemma HandleDumpRejects(ctx: DecodeCxt, w: World)
    requires ctx.Valid() && !ValidDump(ctx, w.doc)
    ensures HandleDump(ctx, w) == (Some(MALFORMED), w)
  {
  }

  /**
   * A valid dump end always succeeds and never changes the event: the
   * older checks are deleted, then the results hash is looked up and, only
   * when it is found, the summary; the socket is used only when both are
   * found with different hashes, and then it sends exactly the
   * non-first-scan dump request when it is or gets connected.
   */
  lemma HandleDumpEffect(ctx: DecodeCxt, w: World)
    requires ctx.Valid() && ValidDump(ctx, w.doc)
    ensures var r := HandleDump(ctx, w);
      var policyId := ctx.SrcStr(w.doc, PolicyId).GetOr("");
      var scanId := ctx.SrcInt(w.doc, ScanId).GetOr(0);
      var distinct := DeleteDistinctQuery(ctx.agentID, policyId, scanId);
      var results := ScaQuery(ctx.agentID, "query_results", policyId);
      var q1 := w.queries + [distinct];
      var (found, hashCheckResults) := ParseReply(ctx.wdb.answer(q1, results), true);
      var q2 := q1 + [results];
      var summary := ScanQueryOf(ctx.agentID, policyId);
      var (scanFound, hashScanInfo) := ParseReply(ctx.wdb.answer(q2, summary), true);
      var stale := found == Found && scanFound == Found && hashCheckResults != hashScanInfo;
      var linked := w.connected || ctx.forwarderSocket.connects(w.ops);
      && r.0.None? && r.1.doc == w.doc
      && r.1.queries == q2 + (if found == Found then [summary] else [])
      && (!stale ==> r.1.ops == w.ops && r.1.connected == w.connected)
      && (stale ==> Sent(r.1.ops) == Sent(w.ops) + (if linked then [DumpMessage(ctx.agentID, policyId, false)] else []))
  {
    DumpFields(ctx, w.doc);
    var policyId := ctx.SrcStr(w.doc, PolicyId).value;
    var scanId := ctx.SrcInt(w.doc, ScanId).value;
    var w1 := DeletePolicyCheckDistinct(ctx, w, policyId, scanId);
    var results := ScaQuery(ctx.agentID, "query_results", policyId);
    var w2 := w1.(queries := w1.queries + [results]);
    var w3 := w2.(queries := w2.queries + [ScanQueryOf(ctx.agentID, policyId)]);
    PushDumpSends(ctx, w3, policyId, false);
  }

  /** `handleDumpEvent`. */
  method HandleDumpEventIn(ctx: DecodeCxt) returns (err: Option<string>)
    requires ctx.Valid()
    modifies ctx.wdb, ctx.forwarderSocket
    ensures (err, ctx.State()) == HandleDump(ctx, old(ctx.State()))
  {
    var checkError, policyId, scanId := IsValidDumpEvent(ctx);
    if checkError.Some? {
      return checkError;
    }
    DeletePolicyCheckDistinctIn(ctx, policyId, scanId);
    DumpIntegrityIn(ctx, policyId);
    err := None;
  }

  method DumpIntegrityIn(ctx: DecodeCxt, policyId: string)
    modifies ctx.wdb, ctx.forwarderSocket
    ensures ctx.State() == DumpIntegrity(ctx, old(ctx.State()), policyId)
  {
    var resCheckResult, hashCheckResults := FindCheckResultsIn(ctx, policyId);
    if resCheckResult == Found {
      var resScanInfo, hashScanInfo := SearchQuery(ctx, ScanQueryOf(ctx.agentID, policyId), true);
      if resScanInfo == Found && hashCheckResults != hashScanInfo {
        PushDumpRequest(ctx, policyId, false);
      }
    }
  }
}
