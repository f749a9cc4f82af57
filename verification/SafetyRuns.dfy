/** Runs of decide-and-apply on one human safety case, between which the case's severity, revisions
    and authorization may be reassessed. */
module SafetyRuns {
  import opened Wrappers
  import opened SafetyTransition

  datatype Step =
    | Request(requested: CaseState, context: Context)
    | Reassess(severity: Severity, revisions: Revisions, authorization: Option<HighRiskAuthorization>)

  /** An allowed transition is applied and raises the version.  A refusal that is not a plain reject
      may be applied as well, when `failSafe`: it moves the case to the state it names. */
  function Apply(c: Case, requested: CaseState, context: Context, failSafe: bool): Case {
    var decision := Decide(c, requested, context);
    if decision.allowed || (failSafe && decision.failure != Reject) then
      c.(state := decision.nextState, revisions := c.revisions.(caseVersion := c.revisions.caseVersion + 1))
    else c
  }

  /** A reassessment never lowers the case version. */
  function Perform(c: Case, step: Step, failSafe: bool): Case {
    match step
    case Request(requested, context) => Apply(c, requested, context, failSafe)
    case Reassess(severity, revisions, authorization) =>
      c.(severity := severity, authorization := authorization,
         revisions := if revisions.caseVersion >= c.revisions.caseVersion then revisions else revisions.(caseVersion := c.revisions.caseVersion))
  }

  function Run(c: Case, steps: seq<Step>, failSafe: bool): Case
    decreases |steps|
  {
    if steps == [] then c else Run(Perform(c, steps[0], failSafe), steps[1..], failSafe)
  }

  /** The case before step i. */
  function Before(c: Case, steps: seq<Step>, failSafe: bool, i: nat): Case
    requires i <= |steps|
  {
    Run(c, steps[..i], failSafe)
  }

  lemma {:induction false} RunLast(c: Case, steps: seq<Step>, failSafe: bool)
    requires steps != []
    ensures Run(c, steps, failSafe) == Perform(Run(c, steps[..|steps| - 1], failSafe), steps[|steps| - 1], failSafe)
    decreases |steps|
  {
    if |steps| > 1 {
      assert steps[1..][..|steps| - 2] == steps[..|steps| - 1][1..];
      RunLast(Perform(c, steps[0], failSafe), steps[1..], failSafe);
    } else {
      assert steps[..0] == [] && steps[1..] == [];
    }
  }

  lemma NextCase(c: Case, steps: seq<Step>, failSafe: bool, i: nat)
    requires i < |steps|
    ensures Before(c, steps, failSafe, i + 1) == Perform(Before(c, steps, failSafe, i), steps[i], failSafe)
  {
    assert steps[..i + 1][..i] == steps[..i];
    RunLast(c, steps[..i + 1], failSafe);
  }

  // ---------- single decisions ----------

  /** What an allowed decision takes, in general. */
  lemma AllowedMeans(c: Case, requested: CaseState, context: Context)
    requires Decide(c, requested, context).allowed
    ensures var d := Decide(c, requested, context);
      && d.nextState == requested && requested in AllowedTransitions(c.state)
      && d.requiredAuthority == TransitionAuthority(c.state, requested) && d.requiredAuthority.Some?
      && d.authorizedBy.Some? && d.authorizedBy.value in context.roles
      && d.requiredAuthority.value in AuthoritiesOf(d.authorizedBy.value)
      && (requested != HumanReview && requested != Escalated ==> context.connectivity != Lost)
  {
    AuthorizedMeans(context.roles, TransitionAuthority(c.state, requested).value);
  }

  predicate ContextIsValid(context: Context) {
    context.actorId != "" && context.reason != "" && context.traceId != "" && context.occurredAt.Some?
  }

  /** The conditions under which a case may be resolved. */
  predicate MayResolve(c: Case, context: Context) {
    && ContextIsValid(context) && c.state == Monitored
    && (exists role | role in context.roles :: Resolve in AuthoritiesOf(role))
    && context.connectivity != Lost && context.dependenciesHealthy && context.evidence == Trusted
    && (c.severity.HighRisk() ==>
          && FreshAuthorization(c, context)
          && c.authorization.value.role == (if SafetyLead in context.roles then SafetyLead else Supervisor)
          && (SafetyLead in context.roles || Supervisor in context.roles))
  }

  /** Resolution is allowed exactly then.  In particular a safety lead who is also a supervisor cannot
      use an authorization he gave as a supervisor. */
  lemma ResolutionAllowedExactlyWhen(c: Case, context: Context)
    ensures Decide(c, CaseState.Resolved, context).allowed <==> MayResolve(c, context)
  {
    AuthorizedMeans(context.roles, Resolve);
    HighRiskRole(context.roles);
  }

  /** A refusal names the state the case is in, or one of the two states that call people in. */
  lemma RefusalNeverRelaxes(c: Case, requested: CaseState, context: Context)
    requires !Decide(c, requested, context).allowed
    ensures var next := Decide(c, requested, context).nextState; next == c.state || next == HumanReview || next == Escalated
  {
  }

  /** A refused request takes an escalated case out of escalation, into human review, exactly when
      its context is invalid; every other refusal keeps the escalation. */
  lemma RefusalDropsEscalation(c: Case, requested: CaseState, context: Context)
    requires c.state == Escalated && !Decide(c, requested, context).allowed
    ensures Decide(c, requested, context).nextState == (if ContextIsValid(context) then Escalated else HumanReview)
  {
  }

  /** Without a human role among the actor's, no case is monitored, transferred or resolved. */
  lemma MachinesDoNotRelax(c: Case, requested: CaseState, context: Context)
    requires Operator !in context.roles && Supervisor !in context.roles && SafetyLead !in context.roles
    requires Decide(c, requested, context).allowed
    ensures requested != Monitored && requested != Transferred && requested != CaseState.Resolved
  {
    AllowedMeans(c, requested, context);
    var role := Decide(c, requested, context).authorizedBy.value;
    assert role == System || role == Auditor || role == SimulatedChannel by {
      assert role.System? || role.Operator? || role.Supervisor? || role.SafetyLead? || role.Auditor? || role.SimulatedChannel?;
    }
  }

  // ---------- review before resolution ----------

  /** The step takes a case under review into monitoring, with what that demands. */
  predicate ClearsReview(c: Case, step: Step) {
    && step.Request? && step.requested == Monitored && c.state.UnderReview()
    && Decide(c, Monitored, step.context).allowed
    && step.context.dependenciesHealthy && step.context.connectivity != Lost
    && (step.context.evidence == Trusted || ValidUncertaintyResolution(c, step.context))
  }

  /** One step takes a case out of review only by clearing it. */
  lemma LeavingReviewClearsIt(c: Case, step: Step, failSafe: bool)
    requires c.state.UnderReview()
    ensures Perform(c, step, failSafe).state.UnderReview() || ClearsReview(c, step)
  {
    if step.Request? {
      if Decide(c, step.requested, step.context).allowed {
        AllowedMeans(c, step.requested, step.context);
      } else {
        RefusalNeverRelaxes(c, step.requested, step.context);
      }
    }
  }

  lemma {:induction false} StaysUnderReview(c: Case, steps: seq<Step>, failSafe: bool, i: nat, j: nat)
    requires i <= j <= |steps| && Before(c, steps, failSafe, i).state.UnderReview()
    requires forall k | i <= k < j :: !ClearsReview(Before(c, steps, failSafe, k), steps[k])
    ensures Before(c, steps, failSafe, j).state.UnderReview()
    decreases j
  {
    if i < j {
      StaysUnderReview(c, steps, failSafe, i, j - 1);
      NextCase(c, steps, failSafe, j - 1);
      LeavingReviewClearsIt(Before(c, steps, failSafe, j - 1), steps[j - 1], failSafe);
    }
  }

  /** Whatever happens in between, a case that was in human review, escalated or transferred is
      resolved only after a step into monitoring that had healthy dependencies, a connection, and
      either trusted evidence or a current authorization for the uncertainty. */
  lemma ReviewIsClearedBeforeResolution(c: Case, steps: seq<Step>, failSafe: bool, i: nat, j: nat)
    requires i <= j <= |steps|
    requires Before(c, steps, failSafe, i).state.UnderReview() && Before(c, steps, failSafe, j).state == CaseState.Resolved
    ensures exists k :: i <= k < j && ClearsReview(Before(c, steps, failSafe, k), steps[k])
  {
    if forall k | i <= k < j :: !ClearsReview(Before(c, steps, failSafe, k), steps[k]) {
      StaysUnderReview(c, steps, failSafe, i, j);
    }
  }

  // ---------- one authorization, one resolution ----------

  lemma StepKeepsVersion(c: Case, step: Step, failSafe: bool)
    ensures Perform(c, step, failSafe).revisions.caseVersion >= c.revisions.caseVersion
    ensures Perform(c, step, failSafe).id == c.id
  {
  }

  lemma {:induction false} VersionsNeverFall(c: Case, steps: seq<Step>, failSafe: bool, i: nat, j: nat)
    requires i <= j <= |steps|
    ensures Before(c, steps, failSafe, i).revisions.caseVersion <= Before(c, steps, failSafe, j).revisions.caseVersion
    decreases j
  {
    if i < j {
      VersionsNeverFall(c, steps, failSafe, i, j - 1);
      NextCase(c, steps, failSafe, j - 1);
      StepKeepsVersion(Before(c, steps, failSafe, j - 1), steps[j - 1], failSafe);
    }
  }

  /** The step resolves a high-risk case under this authorization. */
  predicate ResolvesUnder(c: Case, step: Step, authorization: HighRiskAuthorization) {
    && step.Request? && step.requested == CaseState.Resolved && c.severity.HighRisk()
    && Decide(c, CaseState.Resolved, step.context).allowed && c.authorization == Some(authorization)
  }

  /** In any run one high-risk authorization resolves the case at most once, however often the case is
      reopened and the authorization presented again. */
  lemma AuthorizationResolvesOnce(c: Case, steps: seq<Step>, failSafe: bool, i: nat, j: nat, authorization: HighRiskAuthorization)
    requires i < |steps| && j < |steps|
    requires ResolvesUnder(Before(c, steps, failSafe, i), steps[i], authorization)
    requires ResolvesUnder(Before(c, steps, failSafe, j), steps[j], authorization)
    ensures i == j
  {
    UsedAtItsVersion(c, steps, failSafe, i, authorization);
    UsedAtItsVersion(c, steps, failSafe, j, authorization);
    if i < j {
      VersionsNeverFall(c, steps, failSafe, i + 1, j);
    } else if j < i {
      VersionsNeverFall(c, steps, failSafe, j + 1, i);
    }
  }

  lemma UsedAtItsVersion(c: Case, steps: seq<Step>, failSafe: bool, i: nat, authorization: HighRiskAuthorization)
    requires i < |steps| && ResolvesUnder(Before(c, steps, failSafe, i), steps[i], authorization)
    ensures Before(c, steps, failSafe, i).revisions.caseVersion == authorization.revisions.caseVersion
    ensures Before(c, steps, failSafe, i + 1).revisions.caseVersion == authorization.revisions.caseVersion + 1
  {
    NextCase(c, steps, failSafe, i);
    ResolutionAllowedExactlyWhen(Before(c, steps, failSafe, i), steps[i].context);
  }

  /** Resolution of a high-risk case is always the act of a supervisor or safety lead who himself
      authorized it for the case as it then stood. */
  lemma HighRiskResolutionIsPersonal(c: Case, context: Context)
    requires c.severity.HighRisk() && Decide(c, CaseState.Resolved, context).allowed
    ensures c.authorization.Some? && c.authorization.value.actorId == context.actorId && c.authorization.value.revisions == c.revisions
    ensures c.authorization.value.role == SafetyLead || c.authorization.value.role == Supervisor
    ensures c.authorization.value.role in context.roles
  {
    ResolutionAllowedExactlyWhen(c, context);
  }
}
