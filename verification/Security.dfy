/** The action boundary: role authorization, approvals, budget and audit.

    Glob matching is an arbitrary predicate; redaction of audit texts is left out. */
module Security {
  import opened Common
  import Governance

  datatype RiskLevel = Low | Medium | High | Critical

  datatype ApprovalStatus = Pending | Approved | Rejected | Expired

  datatype Approval = Approval(requestId: nat, status: ApprovalStatus, approver: Option<string>, reason: Option<string>)

  datatype Permission = Permission(action: string, resource: string)

  datatype Principal = Principal(id: string, roles: set<string>, authenticated: bool)

  datatype Restriction = Restriction(resource: string, allowedActions: set<string>)

  datatype Action = Action(
    actor: Principal,
    action: string,
    resource: string,
    risk: RiskLevel,
    agent: Option<set<Permission>>,
    estimate: Governance.Estimate)

  datatype Policy = Policy(
    roles: map<string, set<Permission>>,
    principals: map<string, Principal>,
    restrictions: seq<Restriction>)

  datatype Denial = NotAuthenticated | UnknownRole | NotGranted | Restricted

  type Glob = (string, string) -> bool

  const HIGH_RISK_ACTIONS: set<string> := {
    "production_deploy", "destructive_database", "delete_repository", "delete_file",
    "credential_change", "external_communication", "financial_action"}

  // ----- role authorization -----

  /** The registered principal wins over the one in the request. */
  function Effective(p: Policy, actor: Principal): Principal {
    if actor.id in p.principals then p.principals[actor.id] else actor
  }

  predicate RolesKnown(p: Policy, roles: set<string>) {
    forall r :: r in roles ==> r in p.roles
  }

  /** A permission held through a role or through the agent covers the request. */
  predicate Granted(p: Policy, glob: Glob, a: Action) {
    || (exists r :: r in Effective(p, a.actor).roles && r in p.roles && Covers(p.roles[r], glob, a))
    || (a.agent.Some? && Covers(a.agent.value, glob, a))
  }

  predicate Covers(permissions: set<Permission>, glob: Glob, a: Action) {
    exists q :: q in permissions && q.action == a.action && glob(a.resource, q.resource)
  }

  predicate Unrestricted(restrictions: seq<Restriction>, glob: Glob, a: Action) {
    forall i :: 0 <= i < |restrictions| && glob(a.resource, restrictions[i].resource) ==>
      a.action in restrictions[i].allowedActions
  }

  /** Fail closed: what has to hold, all of it, for a request to be allowed. */
  predicate Authorized(p: Policy, glob: Glob, a: Action) {
    && a.actor.authenticated
    && RolesKnown(p, Effective(p, a.actor).roles)
    && Granted(p, glob, a)
    && Unrestricted(p.restrictions, glob, a)
  }

  /** RoleAuthorizer.authorize. The order in which the role set is visited is arbitrary. */
  method Authorize(p: Policy, glob: Glob, a: Action) returns (denied: Option<Denial>)
    ensures denied.None? <==> Authorized(p, glob, a)
    ensures denied == Some(NotAuthenticated) <==> !a.actor.authenticated
    ensures denied == Some(UnknownRole) <==>
              a.actor.authenticated && !RolesKnown(p, Effective(p, a.actor).roles)
    ensures denied == Some(NotGranted) <==>
              a.actor.authenticated && RolesKnown(p, Effective(p, a.actor).roles) && !Granted(p, glob, a)
    ensures denied == Some(Restricted) <==>
              && a.actor.authenticated && RolesKnown(p, Effective(p, a.actor).roles) && Granted(p, glob, a)
              && !Unrestricted(p.restrictions, glob, a)
  {
    if !a.actor.authenticated {
      return Some(NotAuthenticated);
    }
    var roles := Effective(p, a.actor).roles;
    var todo, permissions := roles, {};
    while todo != {}
      invariant todo <= roles
      invariant forall r :: r in roles && r !in todo ==> r in p.roles && p.roles[r] <= permissions
      invariant forall q :: q in permissions ==> exists r :: r in roles && r !in todo && r in p.roles && q in p.roles[r]
      decreases todo
    {
      var r :| r in todo;
      if r !in p.roles {
        return Some(UnknownRole);
      }
      permissions := permissions + p.roles[r];
      todo := todo - {r};
    }
    if a.agent.Some? {
      permissions := permissions + a.agent.value;
    }
    CoverageIsGranted(p, glob, a, permissions);
    if !Covers(permissions, glob, a) {
      return Some(NotGranted);
    }
    for i := 0 to |p.restrictions|
      invariant Unrestricted(p.restrictions[..i], glob, a)
    {
      var restriction := p.restrictions[i];
      if glob(a.resource, restriction.resource) && a.action !in restriction.allowedActions {
        return Some(Restricted);
      }
    }
    assert p.restrictions[..|p.restrictions|] == p.restrictions;
    return None;
  }

  lemma CoverageIsGranted(p: Policy, glob: Glob, a: Action, permissions: set<Permission>)
    requires RolesKnown(p, Effective(p, a.actor).roles)
    requires forall r :: r in Effective(p, a.actor).roles ==> p.roles[r] <= permissions
    requires a.agent.Some? ==> a.agent.value <= permissions
    requires forall q :: q in permissions ==>
               || (a.agent.Some? && q in a.agent.value)
               || exists r :: r in Effective(p, a.actor).roles && q in p.roles[r]
    ensures Covers(permissions, glob, a) <==> Granted(p, glob, a)
  {
    if Covers(permissions, glob, a) {
      var q :| q in permissions && q.action == a.action && glob(a.resource, q.resource);
      if !(a.agent.Some? && q in a.agent.value) {
        var r :| r in Effective(p, a.actor).roles && q in p.roles[r];
        assert Covers(p.roles[r], glob, a);
      }
    }
  }

  /** The roles a request counts with: those registered for its actor, if any are. */
  function RolesOf(p: Policy, a: Action): set<string> {
    if a.actor.id in p.principals then p.principals[a.actor.id].roles else a.actor.roles
  }

  /** The permission is held by the agent or through a role, for this very action and a pattern
      that matches the resource. */
  ghost predicate Holds(p: Policy, glob: Glob, a: Action, q: Permission) {
    && q.action == a.action && glob(a.resource, q.resource)
    && ((a.agent.Some? && q in a.agent.value)
        || exists r :: r in RolesOf(p, a) && r in p.roles && q in p.roles[r])
  }

  /** Authorization in terms of single permissions and restrictions. */
  lemma AuthorizedIffHeldAndUnrestricted(p: Policy, glob: Glob, a: Action)
    ensures Authorized(p, glob, a) <==>
            && a.actor.authenticated
            && RolesOf(p, a) <= p.roles.Keys
            && (exists q :: Holds(p, glob, a, q))
            && (forall i :: 0 <= i < |p.restrictions| ==>
                  glob(a.resource, p.restrictions[i].resource) ==> a.action in p.restrictions[i].allowedActions)
  {
    if Granted(p, glob, a) {
      if a.agent.Some? && Covers(a.agent.value, glob, a) {
        var q :| q in a.agent.value && q.action == a.action && glob(a.resource, q.resource);
        assert Holds(p, glob, a, q);
      } else {
        var r :| r in Effective(p, a.actor).roles && r in p.roles && Covers(p.roles[r], glob, a);
        var q :| q in p.roles[r] && q.action == a.action && glob(a.resource, q.resource);
        assert Holds(p, glob, a, q);
      }
    }
    if exists q :: Holds(p, glob, a, q) {
      var q :| Holds(p, glob, a, q);
      if a.agent.Some? && q in a.agent.value {
        assert Covers(a.agent.value, glob, a);
      } else {
        var r :| r in RolesOf(p, a) && r in p.roles && q in p.roles[r];
        assert Covers(p.roles[r], glob, a);
      }
    }
  }

  /** An actor that is registered gains or loses nothing by the roles its request names. */
  lemma RegisteredRolesWin(p: Policy, glob: Glob, a: Action, claimed: set<string>)
    requires a.actor.id in p.principals
    ensures Authorized(p, glob, a) <==> Authorized(p, glob, a.(actor := a.actor.(roles := claimed)))
  {
    var b := a.(actor := a.actor.(roles := claimed));
    AuthorizedIffHeldAndUnrestricted(p, glob, a);
    AuthorizedIffHeldAndUnrestricted(p, glob, b);
    assert forall q :: Holds(p, glob, a, q) <==> Holds(p, glob, b, q);
  }

  /** Adding a restriction never allows more. */
  lemma RestrictingNeverAllowsMore(p: Policy, glob: Glob, a: Action, extra: Restriction)
    ensures Authorized(p.(restrictions := p.restrictions + [extra]), glob, a) ==> Authorized(p, glob, a)
  {
    var p' := p.(restrictions := p.restrictions + [extra]);
    if Authorized(p', glob, a) {
      forall i | 0 <= i < |p.restrictions| && glob(a.resource, p.restrictions[i].resource)
        ensures a.action in p.restrictions[i].allowedActions
      {
        assert p'.restrictions[i] == p.restrictions[i];
      }
    }
  }

  // ----- the approval gate -----

  datatype GateError = AuthorizationError

  /** InMemoryApprovalGate. `blank` says which texts are nothing but white space. */
  class ApprovalGate {
    const blank: string -> bool
    var approvals: map<nat, Approval>

    /** Every decision on record names its approver and a reason, and is kept under its own
        request number. */
    ghost predicate Accountable()
      reads this
    {
      forall id :: id in approvals ==>
        && approvals[id].requestId == id
        && (!approvals[id].status.Pending? ==>
              && approvals[id].approver.Some? && !blank(approvals[id].approver.value)
              && approvals[id].reason.Some? && !blank(approvals[id].reason.value))
    }

    constructor (blank: string -> bool)
      ensures Accountable() && approvals == map[] && this.blank == blank
    {
      this.blank := blank;
      approvals := map[];
    }

    method Request(id: nat) returns (approval: Approval)
      requires Accountable()
      modifies this
      ensures Accountable() && approval.requestId == id && approval.status.Pending?
      ensures approvals == old(approvals)[id := approval]
    {
      approval := Approval(id, Pending, None, None);
      approvals := approvals[id := approval];
    }

    /** Decides a request, or changes nothing when approver or reason is blank. */
    method Resolve(approval: Approval, approver: string, approved: bool, reason: string)
      returns (r: Result<Approval, GateError>)
      requires Accountable()
      modifies this
      ensures Accountable()
      ensures r.Err? <==> blank(approver) || blank(reason)
      ensures r.Err? ==> approvals == old(approvals)
      ensures r.Ok? ==> approvals == old(approvals)[approval.requestId := r.value]
      ensures r.Ok? ==>
                && r.value.status == (if approved then Approved else Rejected)
                && r.value.requestId == approval.requestId
                && r.value.approver == Some(approver) && r.value.reason == Some(reason)
    {
      if blank(approver) || blank(reason) {
        return Err(AuthorizationError);
      }
      var updated := Approval(approval.requestId, if approved then Approved else Rejected, Some(approver), Some(reason));
      approvals := approvals[approval.requestId := updated];
      return Ok(updated);
    }
  }

  // ----- the gateway -----

  predicate NeedsApproval(a: Action) {
    a.action in HIGH_RISK_ACTIONS || a.risk.High? || a.risk.Critical?
  }

  predicate IsApproved(approval: Option<Approval>) {
    approval.Some? && approval.value.status.Approved?
  }

  /** What prepare asks of a request before it looks at the budget. A request that needs
      approval is decided by the approval alone. */
  predicate Admissible(p: Policy, glob: Glob, a: Action, approval: Option<Approval>) {
    if NeedsApproval(a) then IsApproved(approval) else Authorized(p, glob, a)
  }

  datatype Refusal = ApprovalMissing | Denied(denial: Denial) | OverLimit(limit: Governance.LimitError)

  datatype AuditRecord = AuditRecord(action: Action, result: string, allowed: bool, failure: Option<string>)

  class SecurityGateway {
    const policy: Policy
    const glob: Glob
    const guard: Governance.GovernanceGuard
    var audit: seq<AuditRecord>

    constructor (policy: Policy, glob: Glob, guard: Governance.GovernanceGuard)
      ensures this.policy == policy && this.glob == glob && this.guard == guard && audit == []
    {
      this.policy, this.glob, this.guard := policy, glob, guard;
      audit := [];
    }

    /** A request for one of the actions that need a human, or of high risk, is let through with
        an approval alone; any other with authorization alone. */
    ghost predicate Allows(a: Action, approval: Option<Approval>)
    {
      if a.action == "production_deploy" || a.action == "destructive_database" || a.action == "delete_repository"
         || a.action == "delete_file" || a.action == "credential_change" || a.action == "external_communication"
         || a.action == "financial_action" || a.risk == High || a.risk == Critical
      then approval.Some? && approval.value.status == Approved
      else Authorized(policy, glob, a)
    }

    /** Succeeds exactly for an admissible request within the budget; a request refused for
        lack of authorization leaves one audit record, and nothing is committed. */
    method Prepare(a: Action, approval: Option<Approval>, now: real) returns (refused: Option<Refusal>)
      modifies this, guard
      ensures Admissible(policy, glob, a, approval) <==> Allows(a, approval)
      ensures refused.None? <==>
                && Allows(a, approval)
                && Governance.Checked(guard.limits, old(guard.State()), a.estimate, now).1.None?
      ensures refused.Some? && refused.value.OverLimit? <==>
                && Admissible(policy, glob, a, approval)
                && Governance.Checked(guard.limits, old(guard.State()), a.estimate, now).1.Some?
      ensures if Admissible(policy, glob, a, approval)
              then audit == old(audit)
                   && guard.State() == Governance.Checked(guard.limits, old(guard.State()), a.estimate, now).0
              else |audit| == |old(audit)| + 1 && audit[..|old(audit)|] == old(audit)
                   && audit[|old(audit)|].action == a && !audit[|old(audit)|].allowed
                   && guard.State() == old(guard.State())
    {
      if NeedsApproval(a) {
        if !IsApproved(approval) {
          audit := audit + [AuditRecord(a, "approval_required", false, Some("valid human approval missing"))];
          return Some(ApprovalMissing);
        }
      } else {
        var denied := Authorize(policy, glob, a);
        if denied.Some? {
          audit := audit + [AuditRecord(a, "denied", false, None)];
          return Some(Denied(denied.value));
        }
      }
      var limit := guard.Check(a.estimate, now);
      if limit.Some? {
        return Some(OverLimit(limit.value));
      }
      return None;
    }

    /** One commit and one audit record, or neither if the usage is negative. */
    method Complete(a: Action, result: string, failure: Option<string>, cost: real, seconds: real, now: real)
      returns (refused: Option<Governance.LimitError>)
      modifies this, guard
      ensures (guard.State(), refused) == Governance.Committed(old(guard.State()), cost, seconds, now)
      ensures audit == old(audit) + if refused.None? then [AuditRecord(a, result, true, failure)] else []
    {
      refused := guard.Commit(cost, seconds, now);
      if refused.None? {
        audit := audit + [AuditRecord(a, result, true, failure)];
      }
    }

    /** One action as a single transaction: it is committed and audited as allowed only if it
        was admissible and within the budget at that moment. */
    method ExecuteApproved(a: Action, approval: Option<Approval>, result: string, failure: Option<string>,
                           cost: real, seconds: real, now: real) returns (done: bool)
      modifies this, guard
      ensures done <==>
                && Allows(a, approval)
                && Governance.Checked(guard.limits, old(guard.State()), a.estimate, now).1.None?
                && cost >= 0.0 && seconds >= 0.0
      ensures done ==> audit == old(audit) + [AuditRecord(a, result, true, failure)]
                       && guard.State().cost == old(guard.State()).cost + cost
                       && guard.State().seconds == old(guard.State()).seconds + seconds
      ensures !done ==> guard.State().cost == old(guard.State()).cost
                        && guard.State().seconds == old(guard.State()).seconds
                        && forall i :: |old(audit)| <= i < |audit| ==> !audit[i].allowed
    {
      var refused := Prepare(a, approval, now);
      if refused.Some? {
        return false;
      }
      var invalid := Complete(a, result, failure, cost, seconds, now);
      return invalid.None?;
    }
  }
}
