/**
 * Check events (type "check"): validation, the store update of the check's
 * result, the compliance and rule rows of a new check, and the decision to
 * normalise the event into `/sca`.
 */
module CheckEvent {
  import opened Util
  import opened JsonModel
  import opened ScaFields
  import opened WazuhDb
  import opened DecodeContext
  import opened CheckFill

  /** The conditions `isValidCheckEvent` checks, in its order. */
  const CHECK_CONDITIONS: seq<Condition> := [
    Condition(CheckCommand, StringType, false),
    Condition(CheckCompliance, ObjectType, false),
    Condition(CheckCondition, StringType, false),
    Condition(CheckDescription, StringType, false),
    Condition(CheckDirectory, StringType, false),
    Condition(CheckFile, StringType, false),
    Condition(CheckId, IntType, true),
    Condition(CheckProcess, StringType, false),
    Condition(CheckRationale, StringType, false),
    Condition(CheckReason, StringType, false),
    Condition(CheckReferences, StringType, false),
    Condition(CheckRegistry, StringType, false),
    Condition(CheckRemediation, StringType, false),
    Condition(CheckResult, StringType, false),
    Condition(CheckRules, ArrayType, false),
    Condition(CheckTitle, StringType, true),
    Condition(Check, ObjectType, true),
    Condition(Id, IntType, true),
    Condition(PolicyId, StringType, true),
    Condition(Policy, StringType, true)]

  /**
   * `isValidCheckEvent`: the conditions hold, there is a result or a
   * status, and a status comes with a reason.
   */
  predicate ValidCheckEvent(ctx: DecodeCxt, doc: Document)
    requires ctx.Valid()
  {
    var hasResult := ctx.ExistsSrc(doc, CheckResult);
    var hasReason := ctx.ExistsSrc(doc, CheckReason);
    var hasStatus := ctx.ExistsSrc(doc, CheckStatus);
    AllConditionsHold(ctx.sourcePath, doc, CHECK_CONDITIONS)
    && !((!hasResult && !hasStatus) || (hasStatus && !hasReason))
  }

  /**
   * A valid check event has its mandatory fields with their kinds, the
   * optional fields the handler reads have theirs when present, and either
   * a result or a status, a status coming with a reason.
   */
  lemma CheckEventFields(ctx: DecodeCxt, doc: Document)
    requires ctx.Valid() && ValidCheckEvent(ctx, doc)
    ensures ctx.SrcInt(doc, CheckId).Some? && ctx.SrcInt(doc, Id).Some?
    ensures ctx.SrcStr(doc, CheckTitle).Some? && ctx.SrcStr(doc, PolicyId).Some?
    ensures ctx.SrcStr(doc, Policy).Some? && GetObject(doc, ctx.sourcePath[Check]).Some?
    ensures ctx.ExistsSrc(doc, CheckResult) ==> ctx.SrcStr(doc, CheckResult).Some?
    ensures ctx.ExistsSrc(doc, CheckReason) ==> ctx.SrcStr(doc, CheckReason).Some?
    ensures ctx.ExistsSrc(doc, CheckCompliance) ==> GetObject(doc, ctx.sourcePath[CheckCompliance]).Some?
    ensures ctx.ExistsSrc(doc, CheckRules) ==> GetArray(doc, ctx.sourcePath[CheckRules]).Some?
    ensures ctx.ExistsSrc(doc, CheckResult) || ctx.ExistsSrc(doc, CheckStatus)
    ensures ctx.ExistsSrc(doc, CheckStatus) ==> ctx.ExistsSrc(doc, CheckReason)
  {
    var src, cs := ctx.sourcePath, CHECK_CONDITIONS;
    assert ConditionHolds(doc, src[cs[6].field], cs[6].kind, cs[6].mandatory);
    assert ConditionHolds(doc, src[cs[15].field], cs[15].kind, cs[15].mandatory);
    assert ConditionHolds(doc, src[cs[16].field], cs[16].kind, cs[16].mandatory);
    assert ConditionHolds(doc, src[cs[17].field], cs[17].kind, cs[17].mandatory);
    assert ConditionHolds(doc, src[cs[18].field], cs[18].kind, cs[18].mandatory);
    assert ConditionHolds(doc, src[cs[19].field], cs[19].kind, cs[19].mandatory);
    assert ConditionHolds(doc, src[cs[1].field], cs[1].kind, cs[1].mandatory);
    assert ConditionHolds(doc, src[cs[9].field], cs[9].kind, cs[9].mandatory);
    assert ConditionHolds(doc, src[cs[13].field], cs[13].kind, cs[13].mandatory);
    assert ConditionHolds(doc, src[cs[14].field], cs[14].kind, cs[14].mandatory);
  }

  /**
   * Once the per-field conditions hold, the event is valid exactly when it
   * has a result or a status, and has a reason whenever it has a status.
   */
  lemma CheckOutcomeRule(ctx: DecodeCxt, doc: Document)
    requires ctx.Valid() && AllConditionsHold(ctx.sourcePath, doc, CHECK_CONDITIONS)
    ensures ValidCheckEvent(ctx, doc) <==>
      (ctx.ExistsSrc(doc, CheckResult) || ctx.ExistsSrc(doc, CheckStatus))
      && (ctx.ExistsSrc(doc, CheckStatus) ==> ctx.ExistsSrc(doc, CheckReason))
  {
  }

  /** A missing or mistyped mandatory field makes the event invalid. */
  lemma CheckEventRejects(ctx: DecodeCxt, doc: Document, i: nat)
    requires ctx.Valid() && i < |CHECK_CONDITIONS|
    requires !ConditionHolds(doc, ctx.sourcePath[CHECK_CONDITIONS[i].field],
                             CHECK_CONDITIONS[i].kind, CHECK_CONDITIONS[i].mandatory)
    ensures !ValidCheckEvent(ctx, doc)
  {
  }

  /** `isValidCheckEvent`. */
  method IsValidCheckEvent(ctx: DecodeCxt) returns (ok: bool)
    requires ctx.Valid()
    ensures ok == ValidCheckEvent(ctx, ctx.event.fields)
  {
    ok := IsValidEvent(ctx, CHECK_CONDITIONS);
    if ok {
      var existResult := ctx.sourcePath[CheckResult] in ctx.event.fields;
      var existReason := ctx.sourcePath[CheckReason] in ctx.event.fields;
      var existStatus := ctx.sourcePath[CheckStatus] in ctx.event.fields;
      if (!existResult && !existStatus) || (existStatus && !existReason) {
        ok := false;
      }
    }
  }

  /** `getRuleTypeStr`: the kind of rule named by its first letter. */
  function RuleTypeName(c: char): Option<string> {
    match c
    case 'f' => Some("file")
    case 'd' => Some("directory")
    case 'r' => Some("registry")
    case 'c' => Some("command")
    case 'p' => Some("process")
    case 'n' => Some("numeric")
    case _ => None
  }

  /**
   * The six rule letters are the only ones with a kind, and each names the
   * kind that starts with it.
   */
  lemma RuleTypeNameLetters(c: char)
    ensures RuleTypeName(c).Some? <==> c in "fdrcpn"
    ensures RuleTypeName(c).Some? ==> |RuleTypeName(c).value| > 0 && RuleTypeName(c).value[0] == c
  {
    assert "fdrcpn"[0] == 'f' && "fdrcpn"[1] == 'd' && "fdrcpn"[2] == 'r';
    assert "fdrcpn"[3] == 'c' && "fdrcpn"[4] == 'p' && "fdrcpn"[5] == 'n';
  }

  /**
   * The kind of a rule, from its first character; an empty rule has none
   * (its first character would be the terminating NUL).
   */
  function RuleType(rule: string): (r: Option<string>)
    ensures r.Some? <==> |rule| > 0 && rule[0] in "fdrcpn"
    ensures r.Some? ==> |r.value| > 0 && r.value[0] == rule[0]
  {
    if |rule| == 0 then None
    else
      RuleTypeNameLetters(rule[0]);
      RuleTypeName(rule[0])
  }

  function ComplianceQuery(agent: string, checkId: int, key: string, value: string): string {
    ScaQuery(agent, "insert_compliance", IntToString(checkId) + "|" + key + "|" + value)
  }

  /** The queries of `insertCompliance`: one per string-valued item, in order. */
  function ComplianceQueries(agent: string, checkId: int, items: seq<Member>): (r: seq<string>)
    ensures |r| <= |items|
    decreases |items|
  {
    if |items| == 0 then []
    else ComplianceInsert(agent, checkId, items[0]) + ComplianceQueries(agent, checkId, items[1..])
  }

  /** The insert for one compliance item: none unless its value is a string. */
  function ComplianceInsert(agent: string, checkId: int, item: Member): seq<string> {
    if item.value.JString? then [ComplianceQuery(agent, checkId, item.key, item.value.s)] else []
  }

  /** The inserts of the first `i + 1` items are those of the first `i` and then the insert of item `i`. */
  lemma {:induction false} ComplianceQueriesStep(agent: string, checkId: int, items: seq<Member>, i: nat)
    requires i < |items|
    ensures ComplianceQueries(agent, checkId, items[..i + 1])
         == ComplianceQueries(agent, checkId, items[..i]) + ComplianceInsert(agent, checkId, items[i])
    decreases i
  {
    if i > 0 {
      ComplianceQueriesStep(agent, checkId, items[1..], i - 1);
      assert items[1..][..i] == items[..i + 1][1..];
      assert items[1..][..i - 1] == items[..i][1..];
    } else {
      assert items[..1] == [items[0]];
      assert items[..1][1..] == [];
    }
  }

  /** Exactly the string-valued compliance items are inserted. */
  lemma {:induction false} ComplianceQueriesExact(agent: string, checkId: int, items: seq<Member>, q: string)
    ensures q in ComplianceQueries(agent, checkId, items) <==>
      exists i :: 0 <= i < |items| && items[i].value.JString?
        && q == ComplianceQuery(agent, checkId, items[i].key, items[i].value.s)
    decreases |items|
  {
    if |items| > 0 {
      ComplianceQueriesExact(agent, checkId, items[1..], q);
      if q in ComplianceQueries(agent, checkId, items[1..]) {
        var i :| 0 <= i < |items[1..]| && items[1..][i].value.JString?
          && q == ComplianceQuery(agent, checkId, items[1..][i].key, items[1..][i].value.s);
        assert items[i + 1] == items[1..][i];
      }
      if exists i :: (0 <= i < |items| && items[i].value.JString?
                      && q == ComplianceQuery(agent, checkId, items[i].key, items[i].value.s))
      {
        var i :| 0 <= i < |items| && items[i].value.JString?
          && q == ComplianceQuery(agent, checkId, items[i].key, items[i].value.s);
        if i > 0 {
          assert items[1..][i - 1] == items[i];
        }
      }
    }
  }

  /** Every compliance item is inserted when all of them are strings. */
  lemma {:induction false} ComplianceQueriesAll(agent: string, checkId: int, items: seq<Member>)
    requires forall i :: 0 <= i < |items| ==> items[i].value.JString?
    ensures |ComplianceQueries(agent, checkId, items)| == |items|
    decreases |items|
  {
    if |items| > 0 {
      ComplianceQueriesAll(agent, checkId, items[1..]);
    }
  }

  function RuleQuery(agent: string, checkId: int, kind: string, rule: string): string {
    ScaQuery(agent, "insert_rules", IntToString(checkId) + "|" + kind + "|" + rule)
  }

  /** The queries of `insertRules`: one per string rule of a known kind, in order. */
  function RuleQueries(agent: string, checkId: int, rules: seq<Json>): (r: seq<string>)
    ensures |r| <= |rules|
    decreases |rules|
  {
    if |rules| == 0 then []
    else RuleInsert(agent, checkId, rules[0]) + RuleQueries(agent, checkId, rules[1..])
  }

  /** The insert for one rule: none unless it is a string with a known kind. */
  function RuleInsert(agent: string, checkId: int, rule: Json): seq<string> {
    if rule.JString? && RuleType(rule.s).Some?
    then [RuleQuery(agent, checkId, RuleType(rule.s).value, rule.s)] else []
  }

  /** Exactly the string rules with a known kind are inserted, each with its kind. */
  lemma {:induction false} RuleQueriesExact(agent: string, checkId: int, rules: seq<Json>, q: string)
    ensures q in RuleQueries(agent, checkId, rules) <==>
      exists i :: 0 <= i < |rules| && rules[i].JString? && RuleType(rules[i].s).Some?
        && q == RuleQuery(agent, checkId, RuleType(rules[i].s).value, rules[i].s)
    decreases |rules|
  {
    if |rules| > 0 {
      RuleQueriesExact(agent, checkId, rules[1..], q);
      if q in RuleQueries(agent, checkId, rules[1..]) {
        var i :| 0 <= i < |rules[1..]| && rules[1..][i].JString? && RuleType(rules[1..][i].s).Some?
          && q == RuleQuery(agent, checkId, RuleType(rules[1..][i].s).value, rules[1..][i].s);
        assert rules[i + 1] == rules[1..][i];
      }
      if exists i :: (0 <= i < |rules| && rules[i].JString? && RuleType(rules[i].s).Some?
                      && q == RuleQuery(agent, checkId, RuleType(rules[i].s).value, rules[i].s))
      {
        var i :| 0 <= i < |rules| && rules[i].JString? && RuleType(rules[i].s).Some?
          && q == RuleQuery(agent, checkId, RuleType(rules[i].s).value, rules[i].s);
        if i > 0 {
          assert rules[1..][i - 1] == rules[i];
        }
      }
    }
  }

  /** The inserts of the first `i + 1` rules are those of the first `i` and then the insert of rule `i`. */
  lemma {:induction false} RuleQueriesStep(agent: string, checkId: int, rules: seq<Json>, i: nat)
    requires i < |rules|
    ensures RuleQueries(agent, checkId, rules[..i + 1])
         == RuleQueries(agent, checkId, rules[..i]) + RuleInsert(agent, checkId, rules[i])
    decreases i
  {
    if i > 0 {
      RuleQueriesStep(agent, checkId, rules[1..], i - 1);
      assert rules[1..][..i] == rules[..i + 1][1..];
      assert rules[1..][..i - 1] == rules[..i][1..];
    } else {
      assert rules[..1] == [rules[0]];
      assert rules[..1][1..] == [];
    }
  }

  /** The compliance inserts of an event: none when it has no compliance object. */
  function ComplianceOf(ctx: DecodeCxt, doc: Document, checkId: int): seq<string>
    requires ctx.Valid()
  {
    match GetObject(doc, ctx.sourcePath[CheckCompliance])
    case Some(items) => ComplianceQueries(ctx.agentID, checkId, items)
    case None => []
  }

  /** The rule inserts of an event: none when it has no rules array. */
  function RulesOf(ctx: DecodeCxt, doc: Document, checkId: int): seq<string>
    requires ctx.Valid()
  {
    match GetArray(doc, ctx.sourcePath[CheckRules])
    case Some(rules) => RuleQueries(ctx.agentID, checkId, rules)
    case None => []
  }

  /** `insertCompliance` on the world. */
  function InsertCompliance(ctx: DecodeCxt, w: World, checkId: int): World
    requires ctx.Valid()
  {
    w.(queries := w.queries + ComplianceOf(ctx, w.doc, checkId))
  }

  /** `insertRules` on the world. */
  function InsertRules(ctx: DecodeCxt, w: World, checkId: int): World
    requires ctx.Valid()
  {
    w.(queries := w.queries + RulesOf(ctx, w.doc, checkId))
  }

  /** `insertCompliance`: one insert per string item, whatever the store replies. */
  method InsertComplianceIn(ctx: DecodeCxt, checkId: int)
    requires ctx.Valid()
    modifies ctx.wdb
    ensures ctx.State() == InsertCompliance(ctx, old(ctx.State()), checkId)
  {
    var compliance := GetObject(ctx.event.fields, ctx.sourcePath[CheckCompliance]);
    if compliance.Some? {
      InsertComplianceItems(ctx.wdb, ctx.agentID, checkId, compliance.value);
    }
  }

  /** The loop of `insertCompliance` over the items of the compliance object. */
  method InsertComplianceItems(wdb: WazuhDB, agent: string, checkId: int, items: seq<Member>)
    modifies wdb
    ensures wdb.log == old(wdb.log) + ComplianceQueries(agent, checkId, items)
  {
    ghost var start := wdb.log;
    var i := 0;
    while i < |items|
      invariant 0 <= i <= |items|
      invariant wdb.log == start + ComplianceQueries(agent, checkId, items[..i])
    {
      ComplianceQueriesStep(agent, checkId, items, i);
      var item := items[i];
      if item.value.JString? {
        var reply := wdb.TryQueryAndParseResult(ComplianceQuery(agent, checkId, item.key, item.value.s));
      }
      i := i + 1;
    }
    assert items[..i] == items;
  }

  /** `insertRules`: one insert per string rule of a known kind, whatever the store replies. */
  method InsertRulesIn(ctx: DecodeCxt, checkId: int)
    requires ctx.Valid()
    modifies ctx.wdb
    ensures ctx.State() == InsertRules(ctx, old(ctx.State()), checkId)
  {
    var found := GetArray(ctx.event.fields, ctx.sourcePath[CheckRules]);
    if found.Some? {
      InsertRuleList(ctx.wdb, ctx.agentID, checkId, found.value);
    }
  }

  /** The loop of `insertRules` over the rules array. */
  method InsertRuleList(wdb: WazuhDB, agent: string, checkId: int, rules: seq<Json>)
    modifies wdb
    ensures wdb.log == old(wdb.log) + RuleQueries(agent, checkId, rules)
  {
    ghost var start := wdb.log;
    var i := 0;
    while i < |rules|
      invariant 0 <= i <= |rules|
      invariant wdb.log == start + RuleQueries(agent, checkId, rules[..i])
    {
      RuleQueriesStep(agent, checkId, rules, i);
      InsertRule(wdb, agent, checkId, rules[i]);
      i := i + 1;
    }
    assert rules[..i] == rules;
  }

  /** The body of the loop of `insertRules`: one string rule of a known kind is inserted. */
  method InsertRule(wdb: WazuhDB, agent: string, checkId: int, rule: Json)
    modifies wdb
    ensures wdb.log == old(wdb.log) + RuleInsert(agent, checkId, rule)
  {
    if rule.JString? {
      var kind := RuleType(rule.s);
      if kind.Some? {
        var reply := wdb.TryQueryAndParseResult(RuleQuery(agent, checkId, kind.value, rule.s));
      }
    }
  }

  /** The arguments of the update of a known check: its id, outcome and event id. */
  function UpdateArgs(checkId: int, result: string, status: string, reason: string, id: int): string {
    Join([IntToString(checkId), result, status, reason, IntToString(id)], '|')
  }

  /**
   * The update arguments split back into the five values, as long as the
   * result, status and reason hold no `|`.
   */
  lemma UpdateArgsFields(checkId: int, result: string, status: string, reason: string, id: int)
    requires '|' !in result && '|' !in status && '|' !in reason
    ensures Split(UpdateArgs(checkId, result, status, reason, id), '|')
         == [IntToString(checkId), result, status, reason, IntToString(id)]
  {
    var parts := [IntToString(checkId), result, status, reason, IntToString(id)];
    IntToStringHasNo(checkId, '|');
    IntToStringHasNo(id, '|');
    SplitJoin(parts, '|');
  }

  /** What the serialised incoming SCA object stored on insert is: `{}` when it is missing. */
  function RootText(ctx: DecodeCxt, doc: Document): (r: string)
    requires ctx.Valid()
    ensures ctx.sourcePath[Root] !in doc ==> r == "{}"
  {
    if ctx.sourcePath[Root] in doc then ctx.event.str(doc, ctx.sourcePath[Root]) else "{}"
  }

  /** The outcome a check reports: its result, or else its status. */
  function ReportedOutcome(result: string, status: string): string {
    if result != "" then result else status
  }

  /** Whether `handleCheckEvent` normalises the event. */
  function CheckNormalize(result: string, status: string, previousResult: string): bool {
    if result == "" then status != "" && previousResult != status else previousResult != result
  }

  /**
   * The event is normalised exactly when the check reports an outcome and
   * that outcome differs from the stored one.
   */
  lemma CheckNormalizeMeans(result: string, status: string, previousResult: string)
    ensures CheckNormalize(result, status, previousResult) <==>
      ReportedOutcome(result, status) != "" && ReportedOutcome(result, status) != previousResult
  {
  }

  const INVALID_CHECK := "Invalid check event,"
  const CHECK_LOOKUP_ERROR := "Error querying policy monitoring database for agent '{}"

  /** The store lookup of a check's previous result. */
  function CheckLookup(agent: string, checkId: int): string {
    ScaQuery(agent, "query", IntToString(checkId))
  }

  /** The query that stores the check: an update when it is known, an insert otherwise. */
  function SaveCheckQuery(ctx: DecodeCxt, doc: Document, found: SearchResult): string
    requires ctx.Valid()
  {
    var checkId := ctx.SrcInt(doc, CheckId).GetOr(0);
    if found == Found then
      ScaQuery(ctx.agentID, "update",
               UpdateArgs(checkId, ctx.SrcStr(doc, CheckResult).GetOr(""), ctx.SrcStr(doc, CheckStatus).GetOr(""),
                          ctx.SrcStr(doc, CheckReason).GetOr(""), ctx.SrcInt(doc, Id).GetOr(-1)))
    else
      ScaQuery(ctx.agentID, "insert", RootText(ctx, doc))
  }

  /**
   * `handleCheckEvent` on the world: the error it returns, if any, and the
   * world after it. The check id is always present on a valid event
   * (`CheckEventFields`), so the default given to it is never used.
   */
  function HandleCheck(ctx: DecodeCxt, w: World): (Option<string>, World)
    requires ctx.Valid()
  {
    if !ValidCheckEvent(ctx, w.doc) then (Some(INVALID_CHECK), w)
    else HandleValidCheck(ctx, w)
  }

  /** `handleCheckEvent` after the event has passed validation. */
  function HandleValidCheck(ctx: DecodeCxt, w: World): (Option<string>, World)
    requires ctx.Valid()
  {
    var doc := w.doc;
    var checkId := ctx.SrcInt(doc, CheckId).GetOr(0);
    var result := ctx.SrcStr(doc, CheckResult).GetOr("");
    var status := ctx.SrcStr(doc, CheckStatus).GetOr("");
    var (found, previousResult, w1) := Search(ctx, w, CheckLookup(ctx.agentID, checkId), true);
    if found == Error then (Some(CHECK_LOOKUP_ERROR), w1)
    else
      var w2 := Ask(ctx, w1, SaveCheckQuery(ctx, doc, found)).1;
      var w3 := if found == NotFound then InsertRules(ctx, InsertCompliance(ctx, w2, checkId), checkId) else w2;
      if CheckNormalize(result, status, previousResult)
      then (None, w3.(doc := FillCheck(ctx, doc, previousResult)))
      else (None, w3)
  }

  /** An invalid check event is rejected and nothing changes. */
  lemma HandleCheckRejectsInvalid(ctx: DecodeCxt, w: World)
    requires ctx.Valid() && !ValidCheckEvent(ctx, w.doc)
    ensures HandleCheck(ctx, w) == (Some(INVALID_CHECK), w)
  {
  }

  /** The previous result looked up for a valid check event. */
  function PreviousLookup(ctx: DecodeCxt, w: World): (SearchResult, string)
    requires ctx.Valid()
  {
    ParseReply(ctx.wdb.answer(w.queries, CheckLookup(ctx.agentID, ctx.SrcInt(w.doc, CheckId).GetOr(0))), true)
  }

  /** A failed lookup stops the handler with an error, after the lookup only. */
  lemma HandleCheckLookupFails(ctx: DecodeCxt, w: World)
    requires ctx.Valid() && ValidCheckEvent(ctx, w.doc) && PreviousLookup(ctx, w).0 == Error
    ensures HandleCheck(ctx, w)
         == (Some(CHECK_LOOKUP_ERROR),
             w.(queries := w.queries + [CheckLookup(ctx.agentID, ctx.SrcInt(w.doc, CheckId).GetOr(0))]))
  {
  }

  /**
   * A check the store knows is updated and nothing else is queried; the
   * handler succeeds.
   */
  lemma HandleCheckUpdatesKnown(ctx: DecodeCxt, w: World)
    requires ctx.Valid() && ValidCheckEvent(ctx, w.doc) && PreviousLookup(ctx, w).0 == Found
    ensures var r := HandleCheck(ctx, w);
      && r.0.None?
      && r.1.queries == w.queries + [CheckLookup(ctx.agentID, ctx.SrcInt(w.doc, CheckId).GetOr(0)),
                                     SaveCheckQuery(ctx, w.doc, Found)]
  {
    var lookup := CheckLookup(ctx.agentID, ctx.SrcInt(w.doc, CheckId).GetOr(0));
    var w1 := Search(ctx, w, lookup, true).2;
    var w2 := Ask(ctx, w1, SaveCheckQuery(ctx, w.doc, Found)).1;
    assert w2.queries == w.queries + [lookup, SaveCheckQuery(ctx, w.doc, Found)];
    assert HandleCheck(ctx, w).1.queries == w2.queries;
  }

  /**
   * A check the store does not know is inserted, followed by its compliance
   * items and then its rules; the handler succeeds.
   */
  lemma HandleCheckInsertsNew(ctx: DecodeCxt, w: World)
    requires ctx.Valid() && ValidCheckEvent(ctx, w.doc) && PreviousLookup(ctx, w).0 == NotFound
    ensures var r := HandleCheck(ctx, w);
      var doc := w.doc;
      var checkId := ctx.SrcInt(doc, CheckId).GetOr(0);
      && r.0.None?
      && r.1.queries == w.queries + [CheckLookup(ctx.agentID, checkId), SaveCheckQuery(ctx, doc, NotFound)]
           + ComplianceOf(ctx, doc, checkId) + RulesOf(ctx, doc, checkId)
  {
    var doc := w.doc;
    var checkId := ctx.SrcInt(doc, CheckId).GetOr(0);
    var lookup := CheckLookup(ctx.agentID, checkId);
    var w1 := Search(ctx, w, lookup, true).2;
    var w2 := Ask(ctx, w1, SaveCheckQuery(ctx, doc, NotFound)).1;
    var w3 := InsertRules(ctx, InsertCompliance(ctx, w2, checkId), checkId);
    assert w2.doc == doc;
    assert w2.queries == w.queries + [lookup, SaveCheckQuery(ctx, doc, NotFound)];
    assert HandleCheck(ctx, w).1.queries == w3.queries;
  }

  /**
   * A known check is updated with its id, result, status, reason and event
   * id; a new one is inserted as the serialised incoming object.
   */
  lemma SaveCheckQueryShape(ctx: DecodeCxt, doc: Document, found: SearchResult)
    requires ctx.Valid() && ValidCheckEvent(ctx, doc)
    ensures ctx.SrcInt(doc, CheckId).Some? && ctx.SrcInt(doc, Id).Some?
    ensures found == Found ==>
      SaveCheckQuery(ctx, doc, found)
      == ScaQuery(ctx.agentID, "update",
                  UpdateArgs(ctx.SrcInt(doc, CheckId).value, ctx.SrcStr(doc, CheckResult).GetOr(""),
                             ctx.SrcStr(doc, CheckStatus).GetOr(""), ctx.SrcStr(doc, CheckReason).GetOr(""),
                             ctx.SrcInt(doc, Id).value))
    ensures found != Found ==>
      SaveCheckQuery(ctx, doc, found) == ScaQuery(ctx.agentID, "insert", RootText(ctx, doc))
  {
    CheckEventFields(ctx, doc);
  }

  /**
   * The event after a check event: normalised with the previous result
   * exactly when the check is valid, the lookup succeeded and the reported
   * outcome is new; untouched otherwise.
   */
  lemma HandleCheckEvent(ctx: DecodeCxt, w: World)
    requires ctx.Valid()
    ensures var r := HandleCheck(ctx, w);
      var doc := w.doc;
      var (found, previousResult) := PreviousLookup(ctx, w);
      var outcome := ReportedOutcome(ctx.SrcStr(doc, CheckResult).GetOr(""), ctx.SrcStr(doc, CheckStatus).GetOr(""));
      r.1.doc == (if ValidCheckEvent(ctx, doc) && found != Error && outcome != "" && outcome != previousResult
                  then FillCheck(ctx, doc, previousResult) else doc)
  {
    var doc := w.doc;
    CheckNormalizeMeans(ctx.SrcStr(doc, CheckResult).GetOr(""), ctx.SrcStr(doc, CheckStatus).GetOr(""),
                        PreviousLookup(ctx, w).1);
  }

  /** A check event never touches the forwarder socket. */
  lemma HandleCheckKeepsSocket(ctx: DecodeCxt, w: World)
    requires ctx.Valid()
    ensures HandleCheck(ctx, w).1.connected == w.connected
    ensures HandleCheck(ctx, w).1.ops == w.ops
  {
  }

  /** `handleCheckEvent`. */
  method HandleCheckEventIn(ctx: DecodeCxt) returns (err: Option<string>)
    requires ctx.Valid()
    modifies ctx.event, ctx.wdb
    ensures (err, ctx.State()) == HandleCheck(ctx, old(ctx.State()))
  {
    var valid := IsValidCheckEvent(ctx);
    if !valid {
      return Some(INVALID_CHECK);
    }
    err := HandleValidCheckIn(ctx);
  }

  /** The part of `handleCheckEvent` after validation. */
  method HandleValidCheckIn(ctx: DecodeCxt) returns (err: Option<string>)
    requires ctx.Valid()
    modifies ctx.event, ctx.wdb
    ensures (err, ctx.State()) == HandleValidCheck(ctx, old(ctx.State()))
  {
    var checkId := ctx.SrcInt(ctx.event.fields, CheckId).GetOr(0);
    var result := ctx.SrcStr(ctx.event.fields, CheckResult).GetOr("");
    var status := ctx.SrcStr(ctx.event.fields, CheckStatus).GetOr("");
    var found, previousResult := SearchQuery(ctx, CheckLookup(ctx.agentID, checkId), true);
    if found == Error {
      return Some(CHECK_LOOKUP_ERROR);
    }
    var save := SaveCheckQuery(ctx, ctx.event.fields, found);
    var code := Query(ctx, save);
    ghost var w2 := ctx.State();
    if found == NotFound {
      InsertComplianceIn(ctx, checkId);
      InsertRulesIn(ctx, checkId);
    }
    assert ctx.State() == if found == NotFound then InsertRules(ctx, InsertCompliance(ctx, w2, checkId), checkId) else w2;
    if CheckNormalize(result, status, previousResult) {
      FillCheckEvent(ctx, previousResult);
    }
    err := None;
  }
}
