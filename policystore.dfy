/**
 * The two store operations the summary, policies and dump-end handlers
 * share: deleting a policy with its checks (`deletePolicyAndCheck`) and
 * looking up the stored check-results hash (`findCheckResults`).
 */
module PolicyStore {
  import opened DecodeContext
  import opened WazuhDb

  /** The lookup of a policy's last scan summary (`query_scan`). */
  function ScanQueryOf(agent: string, policyId: string): string {
    ScaQuery(agent, "query_scan", policyId)
  }

  function DeletePolicyQuery(agent: string, pId: string): string {
    ScaQuery(agent, "delete_policy", pId)
  }

  function DeleteCheckQuery(agent: string, pId: string): string {
    ScaQuery(agent, "delete_check", pId)
  }

  /** `deletePolicyAndCheck`: whether it succeeded, and the world after it. */
  function DeletePolicyAndCheck(ctx: DecodeCxt, w: World, policyId: string): (r: (bool, World))
    ensures r.1 == w.(queries := r.1.queries)
  {
    var (deleted, w1) := Ask(ctx, w, DeletePolicyQuery(ctx.agentID, policyId));
    if deleted.code != Ok then (false, w1)
    else (true, Ask(ctx, w1, DeleteCheckQuery(ctx.agentID, policyId)).1)
  }

  /**
   * The policy is deleted first and its checks only after that succeeded;
   * the outcome is exactly whether deleting the policy succeeded, whatever
   * the reply to deleting the checks.
   */
  lemma DeletePolicyAndCheckOutcome(ctx: DecodeCxt, w: World, policyId: string)
    ensures var r := DeletePolicyAndCheck(ctx, w, policyId);
      var delPolicy := DeletePolicyQuery(ctx.agentID, policyId);
      && (r.0 <==> ctx.wdb.answer(w.queries, delPolicy).code == Ok)
      && r.1.queries == w.queries + [delPolicy]
           + (if r.0 then [DeleteCheckQuery(ctx.agentID, policyId)] else [])
  {
  }

  method DeletePolicyAndCheckIn(ctx: DecodeCxt, policyId: string) returns (ok: bool)
    modifies ctx.wdb
    ensures (ok, ctx.State()) == DeletePolicyAndCheck(ctx, old(ctx.State()), policyId)
  {
    var code := Query(ctx, DeletePolicyQuery(ctx.agentID, policyId));
    if code != Ok {
      return false;
    }
    code := Query(ctx, DeleteCheckQuery(ctx.agentID, policyId));
    ok := true;
  }

  /** `findCheckResults`: the hash of the stored check results of a policy. */
  function FindCheckResults(ctx: DecodeCxt, w: World, policyId: string): (SearchResult, string, World) {
    Search(ctx, w, ScaQuery(ctx.agentID, "query_results", policyId), true)
  }

  method FindCheckResultsIn(ctx: DecodeCxt, policyId: string) returns (result: SearchResult, hash: string)
    modifies ctx.wdb
    ensures (result, hash, ctx.State()) == FindCheckResults(ctx, old(ctx.State()), policyId)
  {
    result, hash := SearchQuery(ctx, ScaQuery(ctx.agentID, "query_results", policyId), true);
  }
}
