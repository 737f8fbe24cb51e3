/**
 * Policies events (type "policies"): the agent reports the policies it
 * still scans, and every policy the store holds that is not among them is
 * deleted together with its checks.
 */
module PoliciesEvent {
  import opened Util
  import opened JsonModel
  import opened ScaFields
  import opened WazuhDb
  import opened DecodeContext
  import opened PolicyStore

  const POLICIES_CONDITIONS: seq<Condition> := [Condition(Policies, ArrayType, true)]

  const POLICIES_NOT_FOUND := "Error: policies array not found"

  /** The one condition holds exactly when the event has a policies array. */
  lemma PoliciesCondition(ctx: DecodeCxt, doc: Document)
    requires ctx.Valid()
    ensures AllConditionsHold(ctx.sourcePath, doc, POLICIES_CONDITIONS)
        <==> GetArray(doc, ctx.sourcePath[Policies]).Some?
  {
    var c := POLICIES_CONDITIONS[0];
    assert AllConditionsHold(ctx.sourcePath, doc, POLICIES_CONDITIONS)
       <==> ConditionHolds(doc, ctx.sourcePath[c.field], c.kind, c.mandatory);
  }

  /** Whether the event lists `pId`: some element is the string `pId`. */
  predicate Listed(policies: seq<Json>, pId: string) {
    exists i :: 0 <= i < |policies| && policies[i] == JString(pId)
  }

  /** The stored ids the event does not list, in the store's order. */
  function StaleIds(ids: seq<string>, policies: seq<Json>): (r: seq<string>)
    ensures |r| <= |ids|
    decreases |ids|
  {
    if |ids| == 0 then []
    else (if Listed(policies, ids[0]) then [] else [ids[0]]) + StaleIds(ids[1..], policies)
  }

  /** A stored id is stale exactly when the event does not list it. */
  lemma {:induction false} StaleIdsExact(ids: seq<string>, policies: seq<Json>, p: string)
    ensures p in StaleIds(ids, policies) <==> p in ids && !Listed(policies, p)
    decreases |ids|
  {
    if |ids| > 0 {
      StaleIdsExact(ids[1..], policies, p);
      assert ids == [ids[0]] + ids[1..];
    }
  }

  /**
   * When the event lists no string at all, every stored id is stale: a
   * non-empty policies array without strings deletes every stored policy.
   */
  lemma {:induction false} StaleIdsNoneListed(ids: seq<string>, policies: seq<Json>)
    requires forall i :: 0 <= i < |policies| ==> !policies[i].JString?
    ensures StaleIds(ids, policies) == ids
    decreases |ids|
  {
    if |ids| > 0 {
      StaleIdsNoneListed(ids[1..], policies);
      assert !Listed(policies, ids[0]);
      assert ids == [ids[0]] + ids[1..];
    }
  }

  /** `deletePolicyAndCheck` for each id in turn. */
  function DeleteEach(ctx: DecodeCxt, w: World, ids: seq<string>): World
    decreases |ids|
  {
    if |ids| == 0 then w
    else DeleteEach(ctx, DeletePolicyAndCheck(ctx, w, ids[0]).1, ids[1..])
  }

  /**
   * `added` are the deletions of `ids`, in order, as the store answers them
   * after the queries `log`: each id's policy delete, followed by the delete
   * of its checks exactly when the store accepted the policy delete.
   */
  predicate Deletes(ctx: DecodeCxt, log: seq<string>, added: seq<string>, ids: seq<string>)
    decreases |ids|
  {
    if |ids| == 0 then added == []
    else
      var delPolicy := DeletePolicyQuery(ctx.agentID, ids[0]);
      var mine := [delPolicy]
        + (if ctx.wdb.answer(log, delPolicy).code == Ok then [DeleteCheckQuery(ctx.agentID, ids[0])] else []);
      && mine <= added
      && Deletes(ctx, log + mine, added[|mine|..], ids[1..])
  }

  /**
   * For one id the deletions are its policy delete, then its checks' delete
   * exactly when the store accepted the policy delete.
   */
  lemma DeletesOne(ctx: DecodeCxt, log: seq<string>, added: seq<string>, pId: string)
    ensures var delPolicy := DeletePolicyQuery(ctx.agentID, pId);
      Deletes(ctx, log, added, [pId]) <==>
        added == [delPolicy]
          + (if ctx.wdb.answer(log, delPolicy).code == Ok then [DeleteCheckQuery(ctx.agentID, pId)] else [])
  {
    var delPolicy := DeletePolicyQuery(ctx.agentID, pId);
    var mine := [delPolicy]
      + (if ctx.wdb.answer(log, delPolicy).code == Ok then [DeleteCheckQuery(ctx.agentID, pId)] else []);
    assert [pId][1..] == [];
    if mine <= added && added[|mine|..] == [] {
      assert added == added[..|mine|] + added[|mine|..];
    }
  }

  /**
   * Deleting each id issues exactly its deletions, in order, and touches
   * nothing but the store.
   */
  lemma {:induction false} DeleteEachEffect(ctx: DecodeCxt, w: World, ids: seq<string>)
    ensures var r := DeleteEach(ctx, w, ids);
      && r.doc == w.doc && r.ops == w.ops && r.connected == w.connected
      && w.queries <= r.queries && Deletes(ctx, w.queries, r.queries[|w.queries|..], ids)
    decreases |ids|
  {
    if |ids| > 0 {
      var (ok, w1) := DeletePolicyAndCheck(ctx, w, ids[0]);
      DeletePolicyAndCheckOutcome(ctx, w, ids[0]);
      DeleteEachEffect(ctx, w1, ids[1..]);
      var r := DeleteEach(ctx, w, ids);
      var delPolicy := DeletePolicyQuery(ctx.agentID, ids[0]);
      var mine := [delPolicy]
        + (if ctx.wdb.answer(w.queries, delPolicy).code == Ok then [DeleteCheckQuery(ctx.agentID, ids[0])] else []);
      assert w1.queries == w.queries + mine;
      var added := r.queries[|w.queries|..];
      assert added[..|mine|] == mine;
      assert added[|mine|..] == r.queries[|w1.queries|..];
    }
  }

  function PoliciesQuery(agent: string): string {
    ScaQuery(agent, "query_policies", "")
  }

  /** `handlePoliciesInfo` on the world: the error it returns, if any, and the world after it. */
  function HandlePolicies(ctx: DecodeCxt, w: World): (Option<string>, World)
    requires ctx.Valid()
  {
    match GetArray(w.doc, ctx.sourcePath[Policies])
    case None => (Some(POLICIES_NOT_FOUND), w)
    case Some(policies) =>
      if |policies| == 0 then (None, w)
      else
        var (found, policiesDB, w1) := Search(ctx, w, PoliciesQuery(ctx.agentID), true);
        if found == Error then (None, w1)
        else (None, DeleteEach(ctx, w1, StaleIds(Split(policiesDB, ','), policies)))
  }

  /** An event without a policies array is rejected and nothing changes. */
  lemma HandlePoliciesRejects(ctx: DecodeCxt, w: World)
    requires ctx.Valid() && GetArray(w.doc, ctx.sourcePath[Policies]).None?
    ensures HandlePolicies(ctx, w) == (Some(POLICIES_NOT_FOUND), w)
  {
  }

  /**
   * An event with a policies array always succeeds and changes only the
   * store: an empty array asks nothing; otherwise the stored ids are looked
   * up, and unless that fails exactly the stale ones among them are deleted,
   * in the store's order; a policy the event lists is never deleted.
   */
  lemma HandlePoliciesEffect(ctx: DecodeCxt, w: World)
    requires ctx.Valid() && GetArray(w.doc, ctx.sourcePath[Policies]).Some?
    ensures var r := HandlePolicies(ctx, w);
      var policies := GetArray(w.doc, ctx.sourcePath[Policies]).value;
      var lookup := PoliciesQuery(ctx.agentID);
      var (found, policiesDB) := ParseReply(ctx.wdb.answer(w.queries, lookup), true);
      var stale := StaleIds(Split(policiesDB, ','), policies);
      && r.0.None?
      && r.1.doc == w.doc && r.1.ops == w.ops && r.1.connected == w.connected
      && (|policies| == 0 ==> r.1 == w)
      && (|policies| > 0 ==> w.queries + [lookup] <= r.1.queries)
      && (|policies| > 0 && found == Error ==> r.1.queries == w.queries + [lookup])
      && (|policies| > 0 && found != Error ==>
            Deletes(ctx, w.queries + [lookup], r.1.queries[|w.queries| + 1..], stale))
      && (forall p :: p in stale <==> p in Split(policiesDB, ',') && !Listed(policies, p))
  {
    var policies := GetArray(w.doc, ctx.sourcePath[Policies]).value;
    var lookup := PoliciesQuery(ctx.agentID);
    var (found, policiesDB) := ParseReply(ctx.wdb.answer(w.queries, lookup), true);
    var stale := StaleIds(Split(policiesDB, ','), policies);
    forall p ensures p in stale <==> p in Split(policiesDB, ',') && !Listed(policies, p) {
      StaleIdsExact(Split(policiesDB, ','), policies, p);
    }
    if |policies| > 0 && found != Error {
      var w1 := w.(queries := w.queries + [lookup]);
      DeleteEachEffect(ctx, w1, stale);
    }
  }

  /** A store that reports no policies ("not found") has nothing deleted. */
  lemma NotFoundDeletesNothing(ctx: DecodeCxt, w: World)
    requires ctx.Valid() && GetArray(w.doc, ctx.sourcePath[Policies]).Some?
    requires |GetArray(w.doc, ctx.sourcePath[Policies]).value| > 0
    requires ParseReply(ctx.wdb.answer(w.queries, PoliciesQuery(ctx.agentID)), true).0 == NotFound
    ensures HandlePolicies(ctx, w).1.queries == w.queries + [PoliciesQuery(ctx.agentID)]
  {
    assert Split("", ',') == [];
  }

  /** `handlePoliciesInfo`. */
  method HandlePoliciesInfoIn(ctx: DecodeCxt) returns (err: Option<string>)
    requires ctx.Valid()
    modifies ctx.wdb
    ensures (err, ctx.State()) == HandlePolicies(ctx, old(ctx.State()))
  {
    var valid := IsValidEvent(ctx, POLICIES_CONDITIONS);
    PoliciesCondition(ctx, ctx.event.fields);
    if !valid {
      return Some(POLICIES_NOT_FOUND);
    }
    var policiesEvent := GetArray(ctx.event.fields, ctx.sourcePath[Policies]).value;
    if |policiesEvent| == 0 {
      return None;
    }
    var resPoliciesIds, policiesDB := SearchQuery(ctx, PoliciesQuery(ctx.agentID), true);
    if resPoliciesIds != Error {
      DeleteStaleIn(ctx, Split(policiesDB, ','), policiesEvent);
    }
    err := None;
  }

  /** The loop of `handlePoliciesInfo` over the stored ids. */
  method DeleteStaleIn(ctx: DecodeCxt, policiesList: seq<string>, policiesEvent: seq<Json>)
    modifies ctx.wdb
    ensures ctx.State() == DeleteEach(ctx, old(ctx.State()), StaleIds(policiesList, policiesEvent))
  {
    ghost var goal := DeleteEach(ctx, ctx.State(), StaleIds(policiesList, policiesEvent));
    var i := 0;
    while i < |policiesList|
      invariant 0 <= i <= |policiesList|
      invariant goal == DeleteEach(ctx, ctx.State(), StaleIds(policiesList[i..], policiesEvent))
    {
      assert policiesList[i..][1..] == policiesList[i + 1..];
      var pId := policiesList[i];
      var listed := IsListed(policiesEvent, pId);
      var rest := StaleIds(policiesList[i + 1..], policiesEvent);
      if !listed {
        assert StaleIds(policiesList[i..], policiesEvent) == [pId] + rest;
        assert ([pId] + rest)[1..] == rest;
        var deleted := DeletePolicyAndCheckIn(ctx, pId);
      } else {
        assert StaleIds(policiesList[i..], policiesEvent) == rest;
      }
      i := i + 1;
    }
  }

  /** The `find_if` of `handlePoliciesInfo`: a linear search for the string `pId`. */
  method IsListed(policies: seq<Json>, pId: string) returns (found: bool)
    ensures found == Listed(policies, pId)
  {
    var j := 0;
    while j < |policies|
      invariant 0 <= j <= |policies|
      invariant forall k :: 0 <= k < j ==> policies[k] != JString(pId)
    {
      if policies[j].JString? && policies[j].s == pId {
        return true;
      }
      j := j + 1;
    }
    return false;
  }
}
