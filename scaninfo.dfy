/**
 * Summary events (type "summary"): validation, the store record of the
 * scan, the policy record and its hash file, the check-results integrity
 * test, and the dump requests these may trigger.
 */
module ScanInfo {
  import opened Util
  import opened JsonModel
  import opened ScaFields
  import opened WazuhDb
  import opened SocketInterface
  import opened DecodeContext
  import opened DumpRequest
  import opened PolicyStore
  import opened SummaryFill

  /** The conditions `isValidScanInfoEvent` checks, in its order. */
  const SCAN_INFO_CONDITIONS: seq<Condition> := [
    Condition(PolicyId, StringType, true),
    Condition(ScanId, IntType, true),
    Condition(StartTime, IntType, true),
    Condition(EndTime, IntType, true),
    Condition(Passed, IntType, true),
    Condition(Failed, IntType, true),
    Condition(Invalid, IntType, true),
    Condition(TotalChecks, IntType, true),
    Condition(Score, IntType, true),
    Condition(Hash, StringType, true),
    Condition(HashFile, StringType, true),
    Condition(File, StringType, true),
    Condition(Description, StringType, false),
    Condition(References, StringType, false),
    Condition(Name, StringType, true)]

  predicate ValidScanInfo(ctx: DecodeCxt, doc: Document)
    requires ctx.Valid()
  {
    AllConditionsHold(ctx.sourcePath, doc, SCAN_INFO_CONDITIONS)
  }

  /**
   * A valid summary has every field the handler reads with `value()`, of
   * its kind, and its optional description and references are strings when
   * present; `first_scan` and `force_alert` are not checked at all.
   */
  lemma ScanInfoFields(ctx: DecodeCxt, doc: Document)
    requires ctx.Valid() && ValidScanInfo(ctx, doc)
    ensures ctx.SrcStr(doc, PolicyId).Some? && ctx.SrcStr(doc, Hash).Some? && ctx.SrcStr(doc, HashFile).Some?
    ensures ctx.SrcStr(doc, File).Some? && ctx.SrcStr(doc, Name).Some?
    ensures ctx.SrcInt(doc, ScanId).Some? && ctx.SrcInt(doc, StartTime).Some? && ctx.SrcInt(doc, EndTime).Some?
    ensures ctx.SrcInt(doc, Passed).Some? && ctx.SrcInt(doc, Failed).Some? && ctx.SrcInt(doc, Invalid).Some?
    ensures ctx.SrcInt(doc, TotalChecks).Some? && ctx.SrcInt(doc, Score).Some?
    ensures ctx.ExistsSrc(doc, Description) ==> ctx.SrcStr(doc, Description).Some?
    ensures ctx.ExistsSrc(doc, References) ==> ctx.SrcStr(doc, References).Some?
  {
    var src, cs := ctx.sourcePath, SCAN_INFO_CONDITIONS;
    assert ConditionHolds(doc, src[cs[0].field], cs[0].kind, cs[0].mandatory);
    assert ConditionHolds(doc, src[cs[1].field], cs[1].kind, cs[1].mandatory);
    assert ConditionHolds(doc, src[cs[2].field], cs[2].kind, cs[2].mandatory);
    assert ConditionHolds(doc, src[cs[3].field], cs[3].kind, cs[3].mandatory);
    assert ConditionHolds(doc, src[cs[4].field], cs[4].kind, cs[4].mandatory);
    assert ConditionHolds(doc, src[cs[5].field], cs[5].kind, cs[5].mandatory);
    assert ConditionHolds(doc, src[cs[6].field], cs[6].kind, cs[6].mandatory);
    assert ConditionHolds(doc, src[cs[7].field], cs[7].kind, cs[7].mandatory);
    assert ConditionHolds(doc, src[cs[8].field], cs[8].kind, cs[8].mandatory);
    assert ConditionHolds(doc, src[cs[9].field], cs[9].kind, cs[9].mandatory);
    assert ConditionHolds(doc, src[cs[10].field], cs[10].kind, cs[10].mandatory);
    assert ConditionHolds(doc, src[cs[11].field], cs[11].kind, cs[11].mandatory);
    assert ConditionHolds(doc, src[cs[12].field], cs[12].kind, cs[12].mandatory);
    assert ConditionHolds(doc, src[cs[13].field], cs[13].kind, cs[13].mandatory);
    assert ConditionHolds(doc, src[cs[14].field], cs[14].kind, cs[14].mandatory);
  }

  /** `isValidScanInfoEvent`. */
  method IsValidScanInfoEvent(ctx: DecodeCxt) returns (ok: bool)
    requires ctx.Valid()
    ensures ok == ValidScanInfo(ctx, ctx.event.fields)
  {
    ok := IsValidEvent(ctx, SCAN_INFO_CONDITIONS);
  }

  /** The ten scan values of a summary, in the order of an insert. */
  function ScanValues(ctx: DecodeCxt, doc: Document): (r: seq<string>)
    requires ctx.Valid()
    ensures |r| == 10
  {
    [IntToString(ctx.SrcInt(doc, StartTime).GetOr(0)), IntToString(ctx.SrcInt(doc, EndTime).GetOr(0)),
     IntToString(ctx.SrcInt(doc, ScanId).GetOr(0)), ctx.SrcStr(doc, PolicyId).GetOr(""),
     IntToString(ctx.SrcInt(doc, Passed).GetOr(0)), IntToString(ctx.SrcInt(doc, Failed).GetOr(0)),
     IntToString(ctx.SrcInt(doc, Invalid).GetOr(0)), IntToString(ctx.SrcInt(doc, TotalChecks).GetOr(0)),
     IntToString(ctx.SrcInt(doc, Score).GetOr(0)), ctx.SrcStr(doc, Hash).GetOr("")]
  }

  /**
   * The query of `SaveScanInfo`: the update of a known scan puts the policy
   * id first, the insert of a new one puts it after the scan id.
   */
  function SaveScanQuery(ctx: DecodeCxt, doc: Document, update: bool): string
    requires ctx.Valid()
  {
    var v := ScanValues(ctx, doc);
    if update then ScaQuery(ctx.agentID, "update_scan_info_start", Join([v[3]] + v[..3] + v[4..], '|'))
    else ScaQuery(ctx.agentID, "insert_scan_info", Join(v, '|'))
  }

  /**
   * Both forms of the query carry the same ten values, the policy id moved
   * to the front in the update, and each can be split back into them when
   * the policy id and hash hold no `|` and the hash is not empty.
   */
  lemma SaveScanQueryFields(ctx: DecodeCxt, doc: Document)
    requires ctx.Valid()
    requires '|' !in ctx.SrcStr(doc, PolicyId).GetOr("") && '|' !in ctx.SrcStr(doc, Hash).GetOr("")
    requires ctx.SrcStr(doc, Hash).GetOr("") != ""
    ensures var v := ScanValues(ctx, doc);
      && Split(Join(v, '|'), '|') == v
      && Split(Join([v[3]] + v[..3] + v[4..], '|'), '|') == [v[3]] + v[..3] + v[4..]
      && v[3] == ctx.SrcStr(doc, PolicyId).GetOr("") && v[9] == ctx.SrcStr(doc, Hash).GetOr("")
  {
    var v := ScanValues(ctx, doc);
    ScanValuesClean(ctx, doc);
    SplitJoin(v, '|');
    var u := [v[3]] + v[..3] + v[4..];
    PolicyFirstClean(v);
    SplitJoin(u, '|');
  }

  /** No scan value holds a `|` when the policy id and hash do not; the hash comes last. */
  lemma ScanValuesClean(ctx: DecodeCxt, doc: Document)
    requires ctx.Valid()
    requires '|' !in ctx.SrcStr(doc, PolicyId).GetOr("") && '|' !in ctx.SrcStr(doc, Hash).GetOr("")
    ensures forall i :: 0 <= i < 10 ==> '|' !in ScanValues(ctx, doc)[i]
    ensures ScanValues(ctx, doc)[3] == ctx.SrcStr(doc, PolicyId).GetOr("")
    ensures ScanValues(ctx, doc)[9] == ctx.SrcStr(doc, Hash).GetOr("")
  {
    IntToStringHasNo(ctx.SrcInt(doc, StartTime).GetOr(0), '|');
    IntToStringHasNo(ctx.SrcInt(doc, EndTime).GetOr(0), '|');
    IntToStringHasNo(ctx.SrcInt(doc, ScanId).GetOr(0), '|');
    IntToStringHasNo(ctx.SrcInt(doc, Passed).GetOr(0), '|');
    IntToStringHasNo(ctx.SrcInt(doc, Failed).GetOr(0), '|');
    IntToStringHasNo(ctx.SrcInt(doc, Invalid).GetOr(0), '|');
    IntToStringHasNo(ctx.SrcInt(doc, TotalChecks).GetOr(0), '|');
    IntToStringHasNo(ctx.SrcInt(doc, Score).GetOr(0), '|');
  }

  /** Moving the fourth value to the front keeps the pieces and the last one. */
  lemma PolicyFirstClean(v: seq<string>)
    requires |v| == 10 && forall i :: 0 <= i < 10 ==> '|' !in v[i]
    ensures var u := [v[3]] + v[..3] + v[4..];
      |u| == 10 && u[9] == v[9] && forall i :: 0 <= i < 10 ==> '|' !in u[i]
  {
    var u := [v[3]] + v[..3] + v[4..];
    forall i | 0 <= i < 10 ensures '|' !in u[i] {
      assert u[i] == (if i == 0 then v[3] else if i < 4 then v[i - 1] else v[i]);
    }
  }

  /** `SaveScanInfo`: whether the store took the scan, and the world after it. */
  function SaveScanInfo(ctx: DecodeCxt, w: World, update: bool): (r: (bool, World))
    requires ctx.Valid()
  {
    var (reply, w1) := Ask(ctx, w, SaveScanQuery(ctx, w.doc, update));
    (reply.code == Ok, w1)
  }

  method SaveScanInfoIn(ctx: DecodeCxt, update: bool) returns (ok: bool)
    requires ctx.Valid()
    modifies ctx.wdb
    ensures (ok, ctx.State()) == SaveScanInfo(ctx, old(ctx.State()), update)
  {
    var code := Query(ctx, SaveScanQuery(ctx, ctx.event.fields, update));
    ok := code == Ok;
  }

  /** The query of `insertPolicyInfo`: the policy's fields, `NULL` for a missing one. */
  function InsertPolicyQuery(ctx: DecodeCxt, doc: Document): string
    requires ctx.Valid()
  {
    ScaQuery(ctx.agentID, "insert_policy",
             Join([ctx.SrcStr(doc, Name).GetOr("NULL"), ctx.SrcStr(doc, File).GetOr("NULL"),
                   ctx.SrcStr(doc, PolicyId).GetOr("NULL"), ctx.SrcStr(doc, Description).GetOr("NULL"),
                   ctx.SrcStr(doc, References).GetOr("NULL"), ctx.SrcStr(doc, HashFile).GetOr("NULL")], '|'))
  }

  /** An absent description or references is stored as `NULL`. */
  lemma InsertPolicyQueryNulls(ctx: DecodeCxt, doc: Document)
    requires ctx.Valid()
    requires !ctx.ExistsSrc(doc, Description) && !ctx.ExistsSrc(doc, References)
    ensures InsertPolicyQuery(ctx, doc)
         == ScaQuery(ctx.agentID, "insert_policy",
                     Join([ctx.SrcStr(doc, Name).GetOr("NULL"), ctx.SrcStr(doc, File).GetOr("NULL"),
                           ctx.SrcStr(doc, PolicyId).GetOr("NULL"), "NULL", "NULL",
                           ctx.SrcStr(doc, HashFile).GetOr("NULL")], '|'))
  {
  }

  /** `insertPolicyInfo` on the world: one insert, whatever the reply. */
  function InsertPolicyInfo(ctx: DecodeCxt, w: World): (r: World)
    requires ctx.Valid()
    ensures r == w.(queries := w.queries + [InsertPolicyQuery(ctx, w.doc)])
  {
    Ask(ctx, w, InsertPolicyQuery(ctx, w.doc)).1
  }

  method InsertPolicyInfoIn(ctx: DecodeCxt)
    requires ctx.Valid()
    modifies ctx.wdb
    ensures ctx.State() == InsertPolicyInfo(ctx, old(ctx.State()))
  {
    var code := Query(ctx, InsertPolicyQuery(ctx, ctx.event.fields));
  }

  function PolicyHashQuery(agent: string, policyId: string): string {
    ScaQuery(agent, "query_policy_sha256", policyId)
  }

  /**
   * `updatePolicyInfo` on the world: when the stored hash file differs from
   * the event's, the policy is deleted and, if that worked, a first-scan
   * dump is requested.
   */
  function UpdatePolicyInfo(ctx: DecodeCxt, w: World, policyId: string): World
    requires ctx.Valid() && ctx.SrcStr(w.doc, HashFile).Some?
  {
    var (found, oldHashFile, w1) := Search(ctx, w, PolicyHashQuery(ctx.agentID, policyId), true);
    if found == Found && oldHashFile != ctx.SrcStr(w.doc, HashFile).value then
      var (deleted, w2) := DeletePolicyAndCheck(ctx, w1, policyId);
      if deleted then PushDump(ctx, w2, policyId, true) else w2
    else w1
  }

  /**
   * A changed hash file deletes the policy and its checks, and a first-scan
   * dump is pushed exactly when deleting the policy worked; an unchanged
   * one, a missing policy or a failed lookup leaves the store and the socket
   * alone after the lookup. The event never changes.
   */
  lemma UpdatePolicyInfoEffect(ctx: DecodeCxt, w: World, policyId: string)
    requires ctx.Valid() && ctx.SrcStr(w.doc, HashFile).Some?
    ensures var r := UpdatePolicyInfo(ctx, w, policyId);
      var lookup := PolicyHashQuery(ctx.agentID, policyId);
      var (found, oldHashFile) := ParseReply(ctx.wdb.answer(w.queries, lookup), true);
      var changed := found == Found && oldHashFile != ctx.SrcStr(w.doc, HashFile).value;
      var delPolicy := DeletePolicyQuery(ctx.agentID, policyId);
      var w1 := w.(queries := w.queries + [lookup]);
      var deleted := ctx.wdb.answer(w1.queries, delPolicy).code == Ok;
      && r.doc == w.doc
      && (!changed ==> r == w1)
      && (changed ==> r.queries == DeletePolicyAndCheck(ctx, w1, policyId).1.queries)
      && (changed && !deleted ==> r.ops == w.ops && r.connected == w.connected)
      && (changed && deleted ==> r == PushDump(ctx, DeletePolicyAndCheck(ctx, w1, policyId).1, policyId, true))
  {
    var lookup := PolicyHashQuery(ctx.agentID, policyId);
    var w1 := w.(queries := w.queries + [lookup]);
    DeletePolicyAndCheckOutcome(ctx, w1, policyId);
  }

  method UpdatePolicyInfoIn(ctx: DecodeCxt, policyId: string)
    requires ctx.Valid() && ctx.SrcStr(ctx.event.fields, HashFile).Some?
    modifies ctx.wdb, ctx.forwarderSocket
    ensures ctx.State() == UpdatePolicyInfo(ctx, old(ctx.State()), policyId)
  {
    var found, oldHashFile := SearchQuery(ctx, PolicyHashQuery(ctx.agentID, policyId), true);
    if found == Found {
      var eventHashFile := ctx.SrcStr(ctx.event.fields, HashFile).value;
      if oldHashFile != eventHashFile {
        var deleted := DeletePolicyAndCheckIn(ctx, policyId);
        if deleted {
          PushDumpRequest(ctx, policyId, true);
        }
      }
    }
  }

  /**
   * `checkResultsAndDump` on the world: a dump is requested when the store
   * has no check results for the policy, or results with another hash.
   */
  function CheckResultsAndDump(ctx: DecodeCxt, w: World, policyId: string, isFirstScan: bool,
                               eventHash: string): World
  {
    var (found, oldEventHash, w1) := FindCheckResults(ctx, w, policyId);
    if (found == Found && oldEventHash != eventHash) || found == NotFound
    then PushDump(ctx, w1, policyId, isFirstScan)
    else w1
  }

  /**
   * The integrity check issues its one lookup and then sends exactly its
   * dump request (flagged with `isFirstScan`) when the results are missing
   * or differ and the socket is or gets connected; otherwise the socket is
   * untouched. The event never changes.
   */
  lemma CheckResultsAndDumpEffect(ctx: DecodeCxt, w: World, policyId: string, isFirstScan: bool,
                                  eventHash: string)
    ensures var r := CheckResultsAndDump(ctx, w, policyId, isFirstScan, eventHash);
      var lookup := ScaQuery(ctx.agentID, "query_results", policyId);
      var (found, oldEventHash) := ParseReply(ctx.wdb.answer(w.queries, lookup), true);
      var stale := found == NotFound || (found == Found && oldEventHash != eventHash);
      var linked := w.connected || ctx.forwarderSocket.connects(w.ops);
      && r.doc == w.doc && r.queries == w.queries + [lookup]
      && Sent(r.ops) == Sent(w.ops)
           + (if stale && linked then [DumpMessage(ctx.agentID, policyId, isFirstScan)] else [])
      && (!stale ==> r.ops == w.ops && r.connected == w.connected)
  {
    var lookup := ScaQuery(ctx.agentID, "query_results", policyId);
    PushDumpSends(ctx, w.(queries := w.queries + [lookup]), policyId, isFirstScan);
  }

  method CheckResultsAndDumpIn(ctx: DecodeCxt, policyId: string, isFirstScan: bool, eventHash: string)
    modifies ctx.wdb, ctx.forwarderSocket
    ensures ctx.State() == CheckResultsAndDump(ctx, old(ctx.State()), policyId, isFirstScan, eventHash)
  {
    var doPushDumpRequest := false;
    var found, oldEventHash := FindCheckResultsIn(ctx, policyId);
    if found == Found {
      if oldEventHash != eventHash {
        doPushDumpRequest := true;
      }
    } else if found == NotFound {
      doPushDumpRequest := true;
    }
    if doPushDumpRequest {
      PushDumpRequest(ctx, policyId, isFirstScan);
    }
  }

  /**
   * The hash of the stored scan: the text before the first space of the
   * stored scan info, empty when there is none.
   */
  function StoredHash(scanInfo: string): (r: string)
    ensures ' ' !in r && StartsWith(scanInfo, r)
    ensures |r| < |scanInfo| ==> scanInfo[|r|] == ' '
  {
    TakeUntil(scanInfo, ' ')
  }

  /**
   * The stored hash as written, `split(scanInfo, ' ').at(0)`: nothing, as
   * `at(0)` throws, when the split gives no piece at all.
   */
  function StoredHashAsWritten(scanInfo: string): (r: Option<string>)
    ensures r.Some? ==> |Split(scanInfo, ' ')| > 0 && r.value == Split(scanInfo, ' ')[0]
  {
    var pieces := Split(scanInfo, ' ');
    if |pieces| == 0 then None else Some(pieces[0])
  }

  /**
   * A store reply "found " is a hit whose scan info is empty, and taking
   * the first piece of it as written fails.
   */
  lemma StoredHashAsWrittenFails()
    ensures ParseReply(Reply(Ok, Some("found ")), true) == (Found, "")
    ensures StoredHashAsWritten("") == None
  {
    FoundRoundTrip("");
  }

  /** Wherever the code as written yields a hash, `StoredHash` yields the same one. */
  lemma StoredHashAgrees(scanInfo: string)
    ensures StoredHashAsWritten(scanInfo).Some? ==> StoredHash(scanInfo) == StoredHashAsWritten(scanInfo).value
    ensures StoredHashAsWritten(scanInfo).None? <==> scanInfo == ""
    ensures StoredHash("") == ""
  {
    if |scanInfo| > 0 {
      TakeUntilIsFirstPiece(scanInfo, ' ');
      SplitNonEmpty(scanInfo, ' ');
    }
  }

  /** Whether `handleScanInfo` normalises the event, by the outcome of the scan lookup. */
  function ScanNormalize(found: SearchResult, scanInfo: string, eventHash: string,
                         isFirstScan: bool, forceAlert: bool): bool
  {
    match found
    case Found => (StoredHash(scanInfo) != eventHash && !isFirstScan) || forceAlert
    case NotFound => true
    case Error => false
  }

  /**
   * A forced alert always normalises a known scan; otherwise a known scan
   * is normalised exactly when its hash changed and this is not a first
   * scan, so re-sending the stored summary raises nothing. A new scan is
   * always normalised, and a failed lookup never.
   */
  lemma ScanNormalizeMeans(found: SearchResult, scanInfo: string, eventHash: string,
                           isFirstScan: bool, forceAlert: bool)
    ensures found == Found && forceAlert ==> ScanNormalize(found, scanInfo, eventHash, isFirstScan, forceAlert)
    ensures found == Found && !forceAlert ==>
      (ScanNormalize(found, scanInfo, eventHash, isFirstScan, forceAlert)
       <==> TakeUntil(scanInfo, ' ') != eventHash && !isFirstScan)
    ensures found == Found && !forceAlert && ' ' !in eventHash && StartsWith(scanInfo, eventHash + " ") ==>
      !ScanNormalize(found, scanInfo, eventHash, isFirstScan, forceAlert)
    ensures found == NotFound ==> ScanNormalize(found, scanInfo, eventHash, isFirstScan, forceAlert)
    ensures found == Error ==> !ScanNormalize(found, scanInfo, eventHash, isFirstScan, forceAlert)
  {
    if found == Found && !forceAlert && StartsWith(scanInfo, eventHash + " ") && ' ' !in eventHash {
      assert scanInfo[..|eventHash| + 1] == eventHash + " ";
      FindAfterPiece(eventHash, ' ', scanInfo[|eventHash| + 1..]);
      assert scanInfo == eventHash + [' '] + scanInfo[|eventHash| + 1..];
    }
  }

  /**
   * The first part of `handleScanInfo`: look the scan up, save it unless
   * the lookup failed, and after a successful save normalise the event when
   * called for and request a first-scan dump for a new scan of a first scan.
   */
  function RecordScan(ctx: DecodeCxt, w: World, policyId: string, eventHash: string, isFirstScan: bool): World
    requires ctx.Valid()
  {
    var (found, scanInfo, w1) := Search(ctx, w, ScanQueryOf(ctx.agentID, policyId), true);
    var update := found == Found;
    var normalize := ScanNormalize(found, scanInfo, eventHash, isFirstScan, ctx.ExistsSrc(w.doc, ForceAlert));
    if found == Error then w1 else StoreScan(ctx, w1, policyId, update, normalize, isFirstScan)
  }

  /** Recording a scan after a lookup that worked: the save, then the fill and the first-scan dump. */
  function StoreScan(ctx: DecodeCxt, w: World, policyId: string, update: bool, normalize: bool, isFirstScan: bool): World
    requires ctx.Valid()
  {
    var (saved, w1) := SaveScanInfo(ctx, w, update);
    if !saved then w1
    else
      var w2 := if normalize then w1.(doc := FillScanInfo(ctx, w1.doc)) else w1;
      if !update && isFirstScan then PushDump(ctx, w2, policyId, isFirstScan) else w2
  }

  /**
   * What recording a scan does: the lookup, then the save unless the lookup
   * failed; the event is normalised exactly when the save worked and the
   * lookup called for it; the socket is used only for a new scan of a first
   * scan that was saved, and then sends exactly the first-scan dump request
   * when it is or gets connected.
   */
  lemma RecordScanEffect(ctx: DecodeCxt, w: World, policyId: string, eventHash: string, isFirstScan: bool)
    requires ctx.Valid()
    ensures var r := RecordScan(ctx, w, policyId, eventHash, isFirstScan);
      var lookup := ScanQueryOf(ctx.agentID, policyId);
      var (found, scanInfo) := ParseReply(ctx.wdb.answer(w.queries, lookup), true);
      var w1 := w.(queries := w.queries + [lookup]);
      var save := SaveScanQuery(ctx, w.doc, found == Found);
      var saved := found != Error && ctx.wdb.answer(w1.queries, save).code == Ok;
      var normalize := ScanNormalize(found, scanInfo, eventHash, isFirstScan, ctx.ExistsSrc(w.doc, ForceAlert));
      var firstDump := saved && found == NotFound && isFirstScan;
      var linked := w.connected || ctx.forwarderSocket.connects(w.ops);
      && r.queries == w.queries + [lookup] + (if found != Error then [save] else [])
      && r.doc == (if saved && normalize then FillScanInfo(ctx, w.doc) else w.doc)
      && (!firstDump ==> r.ops == w.ops && r.connected == w.connected)
      && (firstDump ==>
            Sent(r.ops) == Sent(w.ops) + (if linked then [DumpMessage(ctx.agentID, policyId, true)] else []))
  {
    var lookup := ScanQueryOf(ctx.agentID, policyId);
    var (found, scanInfo) := ParseReply(ctx.wdb.answer(w.queries, lookup), true);
    var w1 := w.(queries := w.queries + [lookup]);
    if found != Error {
      var normalize := ScanNormalize(found, scanInfo, eventHash, isFirstScan, ctx.ExistsSrc(w.doc, ForceAlert));
      StoreScanEffect(ctx, w1, policyId, found == Found, normalize, isFirstScan);
    }
  }

  /** The save, then the fill when it worked and is called for, then the first-scan dump of a new scan. */
  lemma StoreScanEffect(ctx: DecodeCxt, w: World, policyId: string, update: bool, normalize: bool, isFirstScan: bool)
    requires ctx.Valid()
    ensures var r := StoreScan(ctx, w, policyId, update, normalize, isFirstScan);
      var save := SaveScanQuery(ctx, w.doc, update);
      var saved := ctx.wdb.answer(w.queries, save).code == Ok;
      var firstDump := saved && !update && isFirstScan;
      var linked := w.connected || ctx.forwarderSocket.connects(w.ops);
      && r.queries == w.queries + [save]
      && r.doc == (if saved && normalize then FillScanInfo(ctx, w.doc) else w.doc)
      && (!firstDump ==> r.ops == w.ops && r.connected == w.connected)
      && (firstDump ==>
            Sent(r.ops) == Sent(w.ops) + (if linked then [DumpMessage(ctx.agentID, policyId, true)] else []))
  {
    var r := StoreScan(ctx, w, policyId, update, normalize, isFirstScan);
    var save := SaveScanQuery(ctx, w.doc, update);
    var w1 := w.(queries := w.queries + [save]);
    assert SaveScanInfo(ctx, w, update) == (ctx.wdb.answer(w.queries, save).code == Ok, w1);
    if ctx.wdb.answer(w.queries, save).code != Ok {
      assert r == w1;
    } else {
      var w2 := if normalize then w1.(doc := FillScanInfo(ctx, w1.doc)) else w1;
      assert w2.ops == w.ops && w2.connected == w.connected && w2.queries == w1.queries;
      if !update && isFirstScan {
        assert r == PushDump(ctx, w2, policyId, true);
        PushDumpSends(ctx, w2, policyId, true);
      } else {
        assert r == w2;
      }
    }
  }

  function PolicyQueryOf(agent: string, policyId: string): string {
    ScaQuery(agent, "query_policy", policyId)
  }

  /**
   * The middle part of `handleScanInfo`: a known policy has its hash file
   * synchronised, a new one is inserted, a failed lookup does nothing more.
   */
  function SyncPolicy(ctx: DecodeCxt, w: World, policyId: string): World
    requires ctx.Valid() && ctx.SrcStr(w.doc, HashFile).Some?
  {
    var (found, _, w1) := Search(ctx, w, PolicyQueryOf(ctx.agentID, policyId), false);
    match found
    case Found => UpdatePolicyInfo(ctx, w1, policyId)
    case NotFound => InsertPolicyInfo(ctx, w1)
    case Error => w1
  }

  /** Synchronising the policy never changes the event. */
  lemma SyncPolicyKeepsEvent(ctx: DecodeCxt, w: World, policyId: string)
    requires ctx.Valid() && ctx.SrcStr(w.doc, HashFile).Some?
    ensures SyncPolicy(ctx, w, policyId).doc == w.doc
  {
    var w1 := Search(ctx, w, PolicyQueryOf(ctx.agentID, policyId), false).2;
    UpdatePolicyInfoEffect(ctx, w1, policyId);
  }

  const INVALID_SCAN_INFO := "fail on isValidScanInfoEvent"

  /** After recording the scan the event still has its hash file. */
  lemma RecordScanKeepsHashFile(ctx: DecodeCxt, w: World, policyId: string, eventHash: string, isFirstScan: bool)
    requires ctx.Valid()
    ensures SameAt(RecordScan(ctx, w, policyId, eventHash, isFirstScan).doc, w.doc, ctx.sourcePath[HashFile])
  {
    RecordScanEffect(ctx, w, policyId, eventHash, isFirstScan);
    FillScanInfoKeepsHashFile(ctx, w.doc);
  }

  /** `handleScanInfo` on the world: the error it returns, if any, and the world after it. */
  function HandleScan(ctx: DecodeCxt, w: World): (Option<string>, World)
    requires ctx.Valid()
  {
    if !ValidScanInfo(ctx, w.doc) then (Some(INVALID_SCAN_INFO), w)
    else
      var policyId := ctx.SrcStr(w.doc, PolicyId).GetOr("");
      var eventHash := ctx.SrcStr(w.doc, Hash).GetOr("");
      var isFirstScan := ctx.ExistsSrc(w.doc, FirstScan);
      var w1 := RecordScan(ctx, w, policyId, eventHash, isFirstScan);
      ScanInfoFields(ctx, w.doc);
      RecordScanKeepsHashFile(ctx, w, policyId, eventHash, isFirstScan);
      var w2 := SyncPolicy(ctx, w1, policyId);
      (None, CheckResultsAndDump(ctx, w2, policyId, isFirstScan, eventHash))
  }

  /** An invalid summary is rejected and nothing changes. */
  lemma HandleScanRejectsInvalid(ctx: DecodeCxt, w: World)
    requires ctx.Valid() && !ValidScanInfo(ctx, w.doc)
    ensures HandleScan(ctx, w) == (Some(INVALID_SCAN_INFO), w)
  {
  }

  /**
   * A valid summary always succeeds, and its event ends as recording the
   * scan left it: normalised exactly when the save worked and the lookup
   * called for it. The summary lookup comes first, the policy lookup opens
   * the policy sync, and the results-integrity check always ends the
   * handler: one results lookup, and the dump request exactly when the
   * results are missing or differ and the socket is or gets connected.
   */
  lemma HandleScanEffect(ctx: DecodeCxt, w: World)
    requires ctx.Valid() && ValidScanInfo(ctx, w.doc)
    ensures var r := HandleScan(ctx, w);
      var policyId := ctx.SrcStr(w.doc, PolicyId).GetOr("");
      var eventHash := ctx.SrcStr(w.doc, Hash).GetOr("");
      var isFirstScan := ctx.ExistsSrc(w.doc, FirstScan);
      var w1 := RecordScan(ctx, w, policyId, eventHash, isFirstScan);
      && r.0.None?
      && r.1.doc == w1.doc
      && w.queries + [ScanQueryOf(ctx.agentID, policyId)] <= w1.queries
      && ctx.SrcStr(w1.doc, HashFile).Some?
      && var w2 := SyncPolicy(ctx, w1, policyId);
         var results := ScaQuery(ctx.agentID, "query_results", policyId);
         var (found, oldEventHash) := ParseReply(ctx.wdb.answer(w2.queries, results), true);
         var stale := found == NotFound || (found == Found && oldEventHash != eventHash);
         var linked := w2.connected || ctx.forwarderSocket.connects(w2.ops);
         && w1.queries + [PolicyQueryOf(ctx.agentID, policyId)] <= w2.queries
         && r.1.queries == w2.queries + [results]
         && Sent(r.1.ops) == Sent(w2.ops)
              + (if stale && linked then [DumpMessage(ctx.agentID, policyId, isFirstScan)] else [])
         && (!stale ==> r.1.ops == w2.ops && r.1.connected == w2.connected)
  {
    ScanInfoFields(ctx, w.doc);
    var policyId := ctx.SrcStr(w.doc, PolicyId).GetOr("");
    var eventHash := ctx.SrcStr(w.doc, Hash).GetOr("");
    var isFirstScan := ctx.ExistsSrc(w.doc, FirstScan);
    RecordScanKeepsHashFile(ctx, w, policyId, eventHash, isFirstScan);
    RecordScanEffect(ctx, w, policyId, eventHash, isFirstScan);
    var w1 := RecordScan(ctx, w, policyId, eventHash, isFirstScan);
    SyncPolicyKeepsEvent(ctx, w1, policyId);
    var w2 := SyncPolicy(ctx, w1, policyId);
    CheckResultsAndDumpEffect(ctx, w2, policyId, isFirstScan, eventHash);
    assert HandleScan(ctx, w).1 == CheckResultsAndDump(ctx, w2, policyId, isFirstScan, eventHash);
    SyncPolicyQueries(ctx, w1, policyId);
    assert w.queries + [ScanQueryOf(ctx.agentID, policyId)] <= w1.queries;
  }

  /**
   * Synchronising the policy looks it up first; a found policy then has
   * its hash file synchronised, a missing one is inserted, and after a
   * failed lookup nothing more happens.
   */
  lemma SyncPolicyQueries(ctx: DecodeCxt, w: World, policyId: string)
    requires ctx.Valid() && ctx.SrcStr(w.doc, HashFile).Some?
    ensures var lookup := PolicyQueryOf(ctx.agentID, policyId);
      var found := ParseReply(ctx.wdb.answer(w.queries, lookup), false).0;
      var w1 := w.(queries := w.queries + [lookup]);
      var r := SyncPolicy(ctx, w, policyId);
      && w1.queries <= r.queries
      && (found == Found ==> r == UpdatePolicyInfo(ctx, w1, policyId))
      && (found == NotFound ==> r == w1.(queries := w1.queries + [InsertPolicyQuery(ctx, w.doc)]))
      && (found == Error ==> r == w1)
  {
    var lookup := PolicyQueryOf(ctx.agentID, policyId);
    var w1 := Search(ctx, w, lookup, false).2;
    UpdatePolicyInfoEffect(ctx, w1, policyId);
    var w2 := w1.(queries := w1.queries + [PolicyHashQuery(ctx.agentID, policyId)]);
    DeletePolicyAndCheckOutcome(ctx, w2, policyId);
    var r := SyncPolicy(ctx, w, policyId);
    assert w1.queries <= r.queries;
  }

  /** `handleScanInfo`. */
  method HandleScanInfoIn(ctx: DecodeCxt) returns (err: Option<string>)
    requires ctx.Valid()
    modifies ctx.event, ctx.wdb, ctx.forwarderSocket
    ensures (err, ctx.State()) == HandleScan(ctx, old(ctx.State()))
  {
    var valid := IsValidScanInfoEvent(ctx);
    if !valid {
      return Some(INVALID_SCAN_INFO);
    }
    ScanInfoFields(ctx, ctx.event.fields);
    var policyId := ctx.SrcStr(ctx.event.fields, PolicyId).value;
    var eventHash := ctx.SrcStr(ctx.event.fields, Hash).value;
    var isFirstScan := ctx.sourcePath[FirstScan] in ctx.event.fields;
    ghost var w := ctx.State();
    RecordScanIn(ctx, policyId, eventHash, isFirstScan);
    RecordScanKeepsHashFile(ctx, w, policyId, eventHash, isFirstScan);
    SyncPolicyIn(ctx, policyId);
    CheckResultsAndDumpIn(ctx, policyId, isFirstScan, eventHash);
    err := None;
  }

  method RecordScanIn(ctx: DecodeCxt, policyId: string, eventHash: string, isFirstScan: bool)
    requires ctx.Valid() && ctx.sourcePath[Name] in ctx.event.fields
    modifies ctx.event, ctx.wdb, ctx.forwarderSocket
    ensures ctx.State() == RecordScan(ctx, old(ctx.State()), policyId, eventHash, isFirstScan)
  {
    var found, scanInfo := SearchQuery(ctx, ScanQueryOf(ctx.agentID, policyId), true);
    var update := found == Found;
    var normalize := ScanNormalize(found, scanInfo, eventHash, isFirstScan,
                                   ctx.sourcePath[ForceAlert] in ctx.event.fields);
    if found != Error {
      StoreScanIn(ctx, policyId, update, normalize, isFirstScan);
    }
  }

  method StoreScanIn(ctx: DecodeCxt, policyId: string, update: bool, normalize: bool, isFirstScan: bool)
    requires ctx.Valid() && ctx.sourcePath[Name] in ctx.event.fields
    modifies ctx.event, ctx.wdb, ctx.forwarderSocket
    ensures ctx.State() == StoreScan(ctx, old(ctx.State()), policyId, update, normalize, isFirstScan)
  {
    var saved := SaveScanInfoIn(ctx, update);
    if !saved {
      return;
    }
    if normalize {
      FillScanInfoIn(ctx);
    }
    if !update && isFirstScan {
      PushDumpRequest(ctx, policyId, isFirstScan);
    }
  }

  method SyncPolicyIn(ctx: DecodeCxt, policyId: string)
    requires ctx.Valid() && ctx.SrcStr(ctx.event.fields, HashFile).Some?
    modifies ctx.wdb, ctx.forwarderSocket
    ensures ctx.State() == SyncPolicy(ctx, old(ctx.State()), policyId)
  {
    var found, _ := SearchQuery(ctx, PolicyQueryOf(ctx.agentID, policyId), false);
    if found == Found {
      UpdatePolicyInfoIn(ctx, policyId);
    } else if found == NotFound {
      InsertPolicyInfoIn(ctx);
    }
  }
}
