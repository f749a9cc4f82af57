/** decideHumanSafetyTransition: who may move a human safety case where, and when. */
module SafetyTransition {
  import opened Wrappers

  datatype CaseState =
    | Unknown | ContactPending | Contacting | Responded | NoResponse | Unreachable
    | HumanReview | Escalated | Transferred | Monitored | Resolved
  {
    /** Under the care of people, from where monitoring is a de-escalation. */
    predicate UnderReview() {
      HumanReview? || Escalated? || Transferred?
    }
  }

  datatype Role = System | Operator | Supervisor | SafetyLead | Auditor | SimulatedChannel

  datatype Authority =
    | OpenCase | StartContact | UpdateContactOutcome | RecordStructuredIndicator | Escalate | TakeOverContact
    | Transfer | Monitor | AuthorizeHighRiskResolution | Resolve

  function AuthoritiesOf(role: Role): set<Authority> {
    match role
    case System => {OpenCase, StartContact, UpdateContactOutcome, Escalate}
    case Operator => {StartContact, UpdateContactOutcome, RecordStructuredIndicator, Escalate, TakeOverContact, Transfer, Monitor, Resolve}
    case Supervisor => {OpenCase, StartContact, UpdateContactOutcome, RecordStructuredIndicator, Escalate, TakeOverContact, Transfer, Monitor, AuthorizeHighRiskResolution, Resolve}
    case SafetyLead => {OpenCase, StartContact, UpdateContactOutcome, RecordStructuredIndicator, Escalate, TakeOverContact, Transfer, Monitor, AuthorizeHighRiskResolution, Resolve}
    case Auditor => {}
    case SimulatedChannel => {}
  }

  const ROLE_PRIORITY: seq<Role> := [SafetyLead, Supervisor, Operator, System, Auditor, SimulatedChannel]

  function AllowedTransitions(state: CaseState): set<CaseState> {
    match state
    case Unknown => {ContactPending, HumanReview, Escalated}
    case ContactPending => {Contacting, HumanReview, Escalated}
    case Contacting => {Responded, NoResponse, Unreachable, HumanReview, Escalated}
    case Responded => {HumanReview, Escalated, Transferred, Monitored}
    case NoResponse => {Contacting, HumanReview, Escalated}
    case Unreachable => {Contacting, HumanReview, Escalated}
    case HumanReview => {Escalated, Transferred, Monitored}
    case Escalated => {Transferred, Monitored}
    case Transferred => {Monitored}
    case Monitored => {HumanReview, Escalated, CaseState.Resolved}
    case Resolved => {HumanReview, Escalated}
  }

  /** The authority table, keyed by both ends of the transition. */
  function TransitionAuthority(from: CaseState, to: CaseState): Option<Authority> {
    match (from, to)
    case (Unknown, ContactPending) => Some(OpenCase)
    case (Unknown, HumanReview) => Some(Escalate)
    case (Unknown, Escalated) => Some(Escalate)
    case (ContactPending, Contacting) => Some(StartContact)
    case (ContactPending, HumanReview) => Some(Escalate)
    case (ContactPending, Escalated) => Some(Escalate)
    case (Contacting, Responded) => Some(UpdateContactOutcome)
    case (Contacting, NoResponse) => Some(UpdateContactOutcome)
    case (Contacting, Unreachable) => Some(UpdateContactOutcome)
    case (Contacting, HumanReview) => Some(Escalate)
    case (Contacting, Escalated) => Some(Escalate)
    case (Responded, HumanReview) => Some(Escalate)
    case (Responded, Escalated) => Some(Escalate)
    case (Responded, Transferred) => Some(Transfer)
    case (Responded, Monitored) => Some(Monitor)
    case (NoResponse, Contacting) => Some(StartContact)
    case (NoResponse, HumanReview) => Some(Escalate)
    case (NoResponse, Escalated) => Some(Escalate)
    case (Unreachable, Contacting) => Some(StartContact)
    case (Unreachable, HumanReview) => Some(Escalate)
    case (Unreachable, Escalated) => Some(Escalate)
    case (HumanReview, Escalated) => Some(Escalate)
    case (HumanReview, Transferred) => Some(Transfer)
    case (HumanReview, Monitored) => Some(Monitor)
    case (Escalated, Transferred) => Some(Transfer)
    case (Escalated, Monitored) => Some(Monitor)
    case (Transferred, Monitored) => Some(Monitor)
    case (Monitored, HumanReview) => Some(Escalate)
    case (Monitored, Escalated) => Some(Escalate)
    case (Monitored, Resolved) => Some(Resolve)
    case (Resolved, HumanReview) => Some(Escalate)
    case (Resolved, Escalated) => Some(Escalate)
    case _ => None
  }

  datatype Severity = S0 | S1 | S2 | S3 | S4
  {
    predicate HighRisk() {
      S3? || S4?
    }
  }

  datatype Connectivity = Healthy | Degraded | Lost
  datatype EvidenceQuality = Trusted | Ambiguous | Conflicting | Missing
  datatype ReactivationCause = LateHighRiskSignal | ContradictoryIndicator | EvidenceCorrection | DependencyRecoveryFinding

  /** The revisions an authorization was given for. */
  datatype Revisions = Revisions(caseVersion: int, severityAssessmentVersion: int, evidenceRevision: int, indicatorRevision: int)

  /** Times are None when their text is not a timestamp. */
  datatype HighRiskAuthorization = HighRiskAuthorization(
    caseId: string, actorId: string, role: Role, authorizedAt: Option<int>, expiresAt: Option<int>, revisions: Revisions,
    connectivity: Connectivity, dependenciesHealthy: bool)

  datatype UncertaintyAuthorization = UncertaintyAuthorization(
    caseId: string, actorId: string, role: Role, currentPolicy: bool, authorizedAt: Option<int>, expiresAt: Option<int>,
    revisions: Revisions, resolvedQuality: EvidenceQuality)

  datatype Case = Case(id: string, state: CaseState, severity: Severity, revisions: Revisions, authorization: Option<HighRiskAuthorization>)

  datatype Context = Context(
    actorId: string, roles: set<Role>, reason: string, traceId: string, occurredAt: Option<int>,
    connectivity: Connectivity, evidence: EvidenceQuality, dependenciesHealthy: bool,
    uncertainty: Option<UncertaintyAuthorization>, reactivation: Option<ReactivationCause>)

  datatype FailureBehavior = Reject | ToHumanReview | ToEscalation

  datatype Decision = Decision(
    allowed: bool, nextState: CaseState, requiredAuthority: Option<Authority>, authorizedBy: Option<Role>, failure: FailureBehavior)

  /** The first of these roles, in order, that the actor has and that carries the authority. */
  function FirstWith(order: seq<Role>, roles: set<Role>, authority: Authority): Option<Role> {
    if order == [] then None
    else if order[0] in roles && authority in AuthoritiesOf(order[0]) then Some(order[0])
    else FirstWith(order[1..], roles, authority)
  }

  function AuthorizedRole(roles: set<Role>, authority: Authority): Option<Role> {
    FirstWith(ROLE_PRIORITY, roles, authority)
  }

  predicate InForce(authorizedAt: Option<int>, expiresAt: Option<int>, occurredAt: Option<int>) {
    && authorizedAt.Some? && expiresAt.Some? && occurredAt.Some?
    && authorizedAt.value <= occurredAt.value < expiresAt.value
  }

  predicate ValidUncertaintyResolution(c: Case, context: Context) {
    context.uncertainty.Some? &&
    var a := context.uncertainty.value;
    && InForce(a.authorizedAt, a.expiresAt, context.occurredAt)
    && a.caseId == c.id && a.actorId == context.actorId && a.role in context.roles
    && AuthorizedRole(context.roles, Monitor).Some?
    && a.currentPolicy && a.revisions == c.revisions && a.resolvedQuality == context.evidence
  }

  predicate FreshAuthorization(c: Case, context: Context) {
    c.authorization.Some? &&
    var a := c.authorization.value;
    && a.caseId == c.id && a.revisions == c.revisions
    && a.connectivity == context.connectivity && a.dependenciesHealthy == context.dependenciesHealthy
    && a.actorId == context.actorId && a.role in context.roles
    && InForce(a.authorizedAt, a.expiresAt, context.occurredAt)
  }

  function Decide(c: Case, requested: CaseState, context: Context): Decision {
    if context.actorId == "" || context.reason == "" || context.traceId == "" || context.occurredAt.None? then
      Decision(false, HumanReview, None, None, ToHumanReview)
    else if requested !in AllowedTransitions(c.state) then Decision(false, c.state, None, None, Reject)
    else if TransitionAuthority(c.state, requested).None? then Decision(false, c.state, None, None, Reject)
    else
      var required := TransitionAuthority(c.state, requested);
      var role := AuthorizedRole(context.roles, required.value);
      if role.None? then Decision(false, c.state, required, None, Reject)
      else if c.state == CaseState.Resolved then
        if context.reactivation.None? then Decision(false, c.state, required, role, Reject)
        else Decision(true, requested, required, role, if requested == Escalated then ToEscalation else ToHumanReview)
      else if context.connectivity == Lost && requested != HumanReview && requested != Escalated then
        Decision(false, Escalated, Some(Escalate), AuthorizedRole(context.roles, Escalate), ToEscalation)
      else if requested == CaseState.Resolved && !context.dependenciesHealthy then Decision(false, Escalated, required, role, ToEscalation)
      else
        var deEscalating := requested == Monitored && c.state.UnderReview();
        var held := if c.state == Escalated then Escalated else HumanReview;
        var heldBy := if c.state == Escalated then ToEscalation else ToHumanReview;
        if deEscalating && !context.dependenciesHealthy then Decision(false, held, required, role, heldBy)
        else if deEscalating && context.evidence != Trusted && !ValidUncertaintyResolution(c, context) then Decision(false, held, required, role, heldBy)
        else if context.evidence != Trusted && requested == CaseState.Resolved then
          Decision(false, HumanReview, Some(AuthorizeHighRiskResolution), AuthorizedRole(context.roles, AuthorizeHighRiskResolution), ToHumanReview)
        else if requested == CaseState.Resolved && c.severity.HighRisk() then
          var resolutionRole := AuthorizedRole(context.roles, Resolve);
          var authorizationRole := AuthorizedRole(context.roles, AuthorizeHighRiskResolution);
          if !FreshAuthorization(c, context) || resolutionRole.None? || authorizationRole.None? || authorizationRole.value != c.authorization.value.role then
            Decision(false, HumanReview, Some(AuthorizeHighRiskResolution), authorizationRole, ToHumanReview)
          else Decision(true, CaseState.Resolved, required, resolutionRole, Reject)
        else Decision(true, requested, required, role, Reject)
  }

  // ---------- the tables ----------

  /** The authority table covers exactly the allowed transitions, so that the policy never lacks an
      authority for a transition that the state table allows. */
  lemma AuthorityTableIsComplete(from: CaseState, to: CaseState)
    ensures to in AllowedTransitions(from) <==> TransitionAuthority(from, to).Some?
  {
    match from
    case Unknown =>
    case ContactPending =>
    case Contacting =>
    case Responded =>
    case NoResponse =>
    case Unreachable =>
    case HumanReview =>
    case Escalated =>
    case Transferred =>
    case Monitored =>
    case Resolved =>
  }

  lemma {:induction false} FirstWithIsFirst(order: seq<Role>, roles: set<Role>, authority: Authority)
    ensures var r := FirstWith(order, roles, authority);
      && (r.Some? ==> r.value in roles && authority in AuthoritiesOf(r.value) && r.value in order)
      && (r.None? ==> forall role | role in order && role in roles :: authority !in AuthoritiesOf(role))
  {
    if order != [] {
      FirstWithIsFirst(order[1..], roles, authority);
    }
  }

  /** An actor is authorized exactly when one of his roles carries the authority. */
  lemma AuthorizedMeans(roles: set<Role>, authority: Authority)
    ensures AuthorizedRole(roles, authority).Some? <==> exists role | role in roles :: authority in AuthoritiesOf(role)
    ensures AuthorizedRole(roles, authority).Some? ==>
      AuthorizedRole(roles, authority).value in roles && authority in AuthoritiesOf(AuthorizedRole(roles, authority).value)
  {
    FirstWithIsFirst(ROLE_PRIORITY, roles, authority);
    forall role ensures role in ROLE_PRIORITY {
      match role
      case System => assert ROLE_PRIORITY[3] == role;
      case Operator => assert ROLE_PRIORITY[2] == role;
      case Supervisor => assert ROLE_PRIORITY[1] == role;
      case SafetyLead => assert ROLE_PRIORITY[0] == role;
      case Auditor => assert ROLE_PRIORITY[4] == role;
      case SimulatedChannel => assert ROLE_PRIORITY[5] == role;
    }
  }

  /** The role under which a high-risk resolution is authorized: the safety lead's if the actor has
      it, else the supervisor's. */
  lemma HighRiskRole(roles: set<Role>)
    ensures AuthorizedRole(roles, AuthorizeHighRiskResolution) == if SafetyLead in roles then Some(SafetyLead) else if Supervisor in roles then Some(Supervisor) else None
  {
    var others: seq<Role> := [Operator, System, Auditor, SimulatedChannel];
    assert ROLE_PRIORITY[1..] == [Supervisor] + others && ([Supervisor] + others)[1..] == others;
    FirstWithIsFirst(others, roles, AuthorizeHighRiskResolution);
    forall role | role in others ensures AuthorizeHighRiskResolution !in AuthoritiesOf(role) {}
    assert FirstWith([Supervisor] + others, roles, AuthorizeHighRiskResolution) == if Supervisor in roles then Some(Supervisor) else None;
  }
}
