/** The Rego policy behind the proxy, with undefined input values, and how the proxy asks it and labels
    its denials. A rule body succeeds when every expression in it is defined and true; `not e` succeeds
    when `e` is false or undefined. */
module Policy {
  import opened Prelude

  datatype Input = Input(
    agentId: Option<string>, orgId: Option<string>, action: Option<string>,
    resourceType: Option<string>, resourceId: Option<string>, tokenScopes: Option<seq<string>>,
    depth: Option<int>, capabilities: Option<seq<string>>, tainted: Option<bool>)

  datatype Reason =
    | MalformedInput | ScopeNotGranted | DelegationDepthExceeded | BlockedTool | ProvenanceTainted
    | PolicyUnavailable

  const POLICY_MAX_DEPTH: int := 5

  predicate IsBlockedTool(tool: string)
  {
    tool == "delete_database" || tool == "drop_table" || tool == "exfiltrate_data" || tool == "rm_rf"
  }

  predicate IsHighRisk(capability: string)
  {
    capability == "external_send" || capability == "credential_access"
  }

  predicate HighRisk(capabilities: seq<string>) { exists c :: c in capabilities && IsHighRisk(c) }

  predicate WellFormed(i: Input)
  {
    i.orgId.Some? && i.orgId.value != "" && i.agentId.Some? && i.agentId.value != ""
  }

  predicate ScopeGranted(i: Input)
  {
    i.action.Some? && i.tokenScopes.Some? && i.action.value in i.tokenScopes.value
  }

  predicate BlockedCall(i: Input)
  {
    && i.action == Some("tool:execute") && i.resourceType == Some("mcp_tool")
    && i.resourceId.Some? && IsBlockedTool(i.resourceId.value)
  }

  predicate TaintedHighRisk(i: Input)
  {
    i.tainted == Some(true) && i.capabilities.Some? && HighRisk(i.capabilities.value)
  }

  predicate Allow(i: Input)
  {
    && WellFormed(i) && ScopeGranted(i)
    && i.depth.Some? && i.depth.value <= POLICY_MAX_DEPTH
    && !BlockedCall(i) && !TaintedHighRisk(i)
  }

  function DenyReasons(i: Input): set<Reason>
  {
    (if WellFormed(i) then {} else {MalformedInput})
    + (if ScopeGranted(i) then {} else {ScopeNotGranted})
    + (if i.depth.Some? && i.depth.value > POLICY_MAX_DEPTH then {DelegationDepthExceeded} else {})
    + (if BlockedCall(i) then {BlockedTool} else {})
    + (if TaintedHighRisk(i) then {ProvenanceTainted} else {})
  }

  /** `allow` never coexists with a reason. The reasons are empty without `allow` in exactly one case: the
      depth is missing and nothing else is wrong. So "allowed exactly when there is no reason" holds of
      every input that carries a depth. */
  lemma ReasonsAgree(i: Input)
    ensures Allow(i) ==> DenyReasons(i) == {}
    ensures DenyReasons(i) == {} && !Allow(i) <==> i.depth.None? && Allow(i.(depth := Some(0)))
    ensures i.depth.Some? ==> (Allow(i) <==> DenyReasons(i) == {})
  {
    assert WellFormed(i.(depth := Some(0))) == WellFormed(i) && ScopeGranted(i.(depth := Some(0))) == ScopeGranted(i);
    assert BlockedCall(i.(depth := Some(0))) == BlockedCall(i) && TaintedHighRisk(i.(depth := Some(0))) == TaintedHighRisk(i);
    assert MalformedInput in DenyReasons(i) <==> !WellFormed(i);
    assert ScopeNotGranted in DenyReasons(i) <==> !ScopeGranted(i);
    assert DelegationDepthExceeded in DenyReasons(i) <==> i.depth.Some? && i.depth.value > POLICY_MAX_DEPTH;
    assert BlockedTool in DenyReasons(i) <==> BlockedCall(i);
    assert ProvenanceTainted in DenyReasons(i) <==> TaintedHighRisk(i);
  }

  /** When the policy allows, value by value: a missing value fails the rule that reads it, and only the tool rules
      pass on missing values. */
  lemma AllowedExactly(i: Input)
    ensures Allow(i) <==>
      && (exists org :: i.orgId == Some(org) && org != "") && (exists agent :: i.agentId == Some(agent) && agent != "")
      && i.action.Some? && i.tokenScopes.Some? && i.action.value in i.tokenScopes.value
      && i.depth.Some? && i.depth.value <= 5
      && !(&& i.action == Some("tool:execute") && i.resourceType == Some("mcp_tool") && i.resourceId.Some?
           && i.resourceId.value in {"delete_database", "drop_table", "exfiltrate_data", "rm_rf"})
      && !(&& i.tainted == Some(true) && i.capabilities.Some?
           && ("external_send" in i.capabilities.value || "credential_access" in i.capabilities.value))
  {
    if i.orgId.Some? { assert i.orgId == Some(i.orgId.value); }
    if i.agentId.Some? { assert i.agentId == Some(i.agentId.value); }
    assert IsHighRisk("external_send") && IsHighRisk("credential_access");
  }

  /** Which reasons a denial gives. */
  lemma ReasonsExactly(i: Input)
    ensures (MalformedInput in DenyReasons(i) <==> !(i.orgId.Some? && i.orgId.value != "" && i.agentId.Some? && i.agentId.value != ""))
    ensures (ScopeNotGranted in DenyReasons(i) <==> !(i.action.Some? && i.tokenScopes.Some? && i.action.value in i.tokenScopes.value))
    ensures (DelegationDepthExceeded in DenyReasons(i) <==> i.depth.Some? && i.depth.value > 5)
    ensures (BlockedTool in DenyReasons(i) <==>
      && i.action == Some("tool:execute") && i.resourceType == Some("mcp_tool") && i.resourceId.Some?
      && i.resourceId.value in {"delete_database", "drop_table", "exfiltrate_data", "rm_rf"})
    ensures (ProvenanceTainted in DenyReasons(i) <==>
      && i.tainted == Some(true) && i.capabilities.Some?
      && ("external_send" in i.capabilities.value || "credential_access" in i.capabilities.value))
    ensures PolicyUnavailable !in DenyReasons(i)
  {
    assert IsHighRisk("external_send") && IsHighRisk("credential_access");
  }

  // ---------- Asking the policy ----------

  datatype Answer = Permitted | Denied(reasons: set<Reason>)

  /** The input document of one tool call; an empty resource id is left out. */
  function ToolInput(
    agent: string, org: string, tool: string, scopes: seq<string>, depth: int, capabilities: seq<string>, tainted: bool): Input
  {
    Input(Some(agent), Some(org), Some("tool:execute"), Some("mcp_tool"), if tool == "" then None else Some(tool),
          Some(scopes), Some(depth), Some(capabilities), Some(tainted))
  }

  /** Fails closed: no answer from the engine is a denial. */
  function CheckPermission(i: Input, engineUp: bool): Answer
  {
    if !engineUp then Denied({PolicyUnavailable})
    else if Allow(i) then Permitted
    else Denied(DenyReasons(i))
  }

  datatype Label =
    | PolicyDenied | ProvenanceDenied | PolicyDown | ToolFilterDenied | BindingDenied | ResourceDenied | TaskScopeDenied

  function ClassifyDenial(reasons: set<Reason>): Label
  {
    if PolicyUnavailable in reasons then PolicyDown
    else if reasons == {ProvenanceTainted} then ProvenanceDenied
    else PolicyDenied
  }

  /** An answered denial is labelled as provenance exactly when the same request in an untainted trace
      would be allowed, and as an outage never; an unanswered one is always an outage. */
  lemma LabelMeaning(i: Input, engineUp: bool)
    requires i.depth.Some? && CheckPermission(i, engineUp).Denied?
    ensures var kind := ClassifyDenial(CheckPermission(i, engineUp).reasons);
      if engineUp then
        && (kind == ProvenanceDenied <==> Allow(i.(tainted := Some(false))))
        && kind != PolicyDown
      else kind == PolicyDown
  {
    if engineUp {
      var clean := i.(tainted := Some(false));
      ReasonsAgree(i);
      ReasonsAgree(clean);
      assert WellFormed(clean) == WellFormed(i) && ScopeGranted(clean) == ScopeGranted(i) && BlockedCall(clean) == BlockedCall(i);
      assert !TaintedHighRisk(clean);
      assert DenyReasons(clean) == DenyReasons(i) - {ProvenanceTainted};
    }
  }
}
