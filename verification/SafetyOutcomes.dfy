/** What decideHumanSafetyTransition answers, for every case, request and context, told from the fields alone. */
module SafetyOutcomes {
  import opened Wrappers
  import opened SafetyTransition
  import opened SafetyRuns

  // ---------- the tables, read the other way round ----------

  /** The states from which a state may be requested. */
  ghost function SourcesOf(to: CaseState): set<CaseState> {
    match to
    case Unknown => {}
    case ContactPending => {Unknown}
    case Contacting => {ContactPending, NoResponse, Unreachable}
    case Responded => {Contacting}
    case NoResponse => {Contacting}
    case Unreachable => {Contacting}
    case HumanReview => {Unknown, ContactPending, Contacting, Responded, NoResponse, Unreachable, Monitored, CaseState.Resolved}
    case Escalated => {Unknown, ContactPending, Contacting, Responded, NoResponse, Unreachable, HumanReview, Monitored, CaseState.Resolved}
    case Transferred => {Responded, HumanReview, Escalated}
    case Monitored => {Responded, HumanReview, Escalated, Transferred}
    case Resolved => {Monitored}
  }

  /** The authority that a state takes to enter, from wherever. */
  ghost function AuthorityFor(to: CaseState): Authority {
    match to
    case ContactPending => OpenCase
    case Contacting => StartContact
    case Responded => UpdateContactOutcome
    case NoResponse => UpdateContactOutcome
    case Unreachable => UpdateContactOutcome
    case Transferred => Transfer
    case Monitored => Monitor
    case Resolved => Resolve
    case _ => Escalate
  }

  /** The roles that carry an authority. */
  ghost function CarriersOf(authority: Authority): set<Role> {
    match authority
    case OpenCase => {System, Supervisor, SafetyLead}
    case StartContact => {System, Operator, Supervisor, SafetyLead}
    case UpdateContactOutcome => {System, Operator, Supervisor, SafetyLead}
    case Escalate => {System, Operator, Supervisor, SafetyLead}
    case AuthorizeHighRiskResolution => {Supervisor, SafetyLead}
    case _ => {Operator, Supervisor, SafetyLead}
  }

  /** The most senior of these roles. */
  ghost function Senior(roles: set<Role>): Option<Role> {
    if SafetyLead in roles then Some(SafetyLead)
    else if Supervisor in roles then Some(Supervisor)
    else if Operator in roles then Some(Operator)
    else if System in roles then Some(System)
    else None
  }

  lemma TablesAgree(from: CaseState, to: CaseState)
    ensures to in AllowedTransitions(from) <==> from in SourcesOf(to)
    ensures TransitionAuthority(from, to) == if from in SourcesOf(to) then Some(AuthorityFor(to)) else None
  {
    AuthorityTableIsComplete(from, to);
    match from
    case Unknown =>
    case ContactPending =>
    case Contacting =>
    case Responded =>
    case NoResponse =>
    case Unreachable =>
    case HumanReview =>
    case Escalated =>
    case Transferred =>
    case Monitored =>
    case Resolved =>
  }

  lemma CarriersAgree(role: Role, authority: Authority)
    ensures authority in AuthoritiesOf(role) <==> role in CarriersOf(authority)
  {
    match role
    case System =>
    case Operator =>
    case Supervisor =>
    case SafetyLead =>
    case Auditor =>
    case SimulatedChannel =>
  }

  lemma FirstWithStep(order: seq<Role>, roles: set<Role>, authority: Authority, rest: seq<Role>)
    requires order != [] && order[1..] == rest
    ensures FirstWith(order, roles, authority) == if order[0] in roles * CarriersOf(authority) then Some(order[0]) else FirstWith(rest, roles, authority)
  {
    CarriersAgree(order[0], authority);
  }

  /** The role that an actor acts under is the most senior one that carries the authority. */
  lemma ActsAsSenior(roles: set<Role>, authority: Authority)
    ensures AuthorizedRole(roles, authority) == Senior(roles * CarriersOf(authority))
  {
    var a, b, c := [System, Auditor, SimulatedChannel], [Operator, System, Auditor, SimulatedChannel], [Supervisor, Operator, System, Auditor, SimulatedChannel];
    FirstWithStep(ROLE_PRIORITY, roles, authority, c);
    FirstWithStep(c, roles, authority, b);
    FirstWithStep(b, roles, authority, a);
    FirstWithStep(a, roles, authority, [Auditor, SimulatedChannel]);
    FirstWithStep([Auditor, SimulatedChannel], roles, authority, [SimulatedChannel]);
    FirstWithStep([SimulatedChannel], roles, authority, []);
  }

  // ---------- what is asked for ----------

  ghost predicate IsBetween(from: Option<int>, at: Option<int>, until: Option<int>) {
    from.Some? && at.Some? && until.Some? && from.value <= at.value < until.value
  }

  /** The actor's own authorization, in force, to monitor this case as it stands despite this evidence. */
  ghost predicate MonitoringAuthorized(c: Case, context: Context) {
    context.uncertainty.Some? &&
    var a := context.uncertainty.value;
    && a.caseId == c.id && a.revisions == c.revisions && a.currentPolicy
    && a.actorId == context.actorId && a.role in context.roles && context.roles * {Operator, Supervisor, SafetyLead} != {}
    && a.resolvedQuality == context.evidence && IsBetween(a.authorizedAt, context.occurredAt, a.expiresAt)
  }

  /** The actor's own authorization, in force and given under his most senior role, to resolve this case as it
      and its surroundings stand. */
  ghost predicate ResolutionAuthorized(c: Case, context: Context) {
    c.authorization.Some? &&
    var a := c.authorization.value;
    && a.caseId == c.id && a.revisions == c.revisions
    && a.connectivity == context.connectivity && a.dependenciesHealthy == context.dependenciesHealthy
    && a.actorId == context.actorId && Some(a.role) == Senior(context.roles * {Supervisor, SafetyLead})
    && IsBetween(a.authorizedAt, context.occurredAt, a.expiresAt)
  }

  lemma AuthorizationsMean(c: Case, context: Context)
    ensures ValidUncertaintyResolution(c, context) <==> MonitoringAuthorized(c, context)
    ensures ResolutionAuthorized(c, context) <==>
      FreshAuthorization(c, context) && AuthorizedRole(context.roles, AuthorizeHighRiskResolution) == Some(c.authorization.value.role)
  {
    ActsAsSenior(context.roles, Monitor);
    ActsAsSenior(context.roles, AuthorizeHighRiskResolution);
    assert context.roles * CarriersOf(Monitor) != {} <==> Senior(context.roles * CarriersOf(Monitor)).Some? by {
      if role :| role in context.roles * CarriersOf(Monitor) {
        assert role == Operator || role == Supervisor || role == SafetyLead;
      }
    }
  }

  /** The transition exists, and the actor has a role that carries its authority. */
  ghost predicate Entitled(c: Case, requested: CaseState, context: Context) {
    c.state in SourcesOf(requested) && Senior(context.roles * CarriersOf(AuthorityFor(requested))).Some?
  }

  ghost predicate EndsReview(c: Case, requested: CaseState) {
    requested == Monitored && c.state in {HumanReview, Escalated, Transferred}
  }

  /** What the situation has to be like for an entitled actor. */
  ghost predicate Permits(c: Case, requested: CaseState, context: Context) {
    if c.state == CaseState.Resolved then context.reactivation.Some?
    else
      && (context.connectivity == Lost ==> requested in {HumanReview, Escalated})
      && (requested == CaseState.Resolved || EndsReview(c, requested) ==> context.dependenciesHealthy)
      && (EndsReview(c, requested) ==> context.evidence == Trusted || MonitoringAuthorized(c, context))
      && (requested == CaseState.Resolved ==> context.evidence == Trusted)
      && (requested == CaseState.Resolved && c.severity in {S3, S4} ==> ResolutionAuthorized(c, context))
  }

  // ---------- the decision ----------

  /** A request is allowed exactly when its context is complete, the actor entitled, and the situation permits. */
  lemma AllowedExactlyWhen(c: Case, requested: CaseState, context: Context)
    ensures Decide(c, requested, context).allowed <==>
      ContextIsValid(context) && Entitled(c, requested, context) && Permits(c, requested, context)
  {
    TablesAgree(c.state, requested);
    ActsAsSenior(context.roles, AuthorityFor(requested));
    AuthorizationsMean(c, context);
  }

  /** The authority that a decision names. */
  ghost function AuthorityNamed(c: Case, requested: CaseState, context: Context): Option<Authority> {
    if !ContextIsValid(context) || c.state !in SourcesOf(requested) then None
    else if !Entitled(c, requested, context) || Permits(c, requested, context) || c.state == CaseState.Resolved then Some(AuthorityFor(requested))
    else if context.connectivity == Lost && requested !in {HumanReview, Escalated} then Some(Escalate)
    else if requested == CaseState.Resolved && context.dependenciesHealthy then Some(AuthorizeHighRiskResolution)
    else Some(AuthorityFor(requested))
  }

  /** An allowed request leads where it asked to; one that reopens a resolved case says who is to be called. */
  lemma AllowedLeads(c: Case, requested: CaseState, context: Context)
    requires Decide(c, requested, context).allowed
    ensures var d := Decide(c, requested, context);
      && d.nextState == requested
      && d.failure == (if c.state != CaseState.Resolved then Reject else if requested == Escalated then ToEscalation else ToHumanReview)
  {
    TablesAgree(c.state, requested);
  }

  /** A refusal keeps the case where it is when the actor was not entitled or a resolved case lacks a cause to be
      reopened.  Otherwise it calls people in: an escalation when there is no connection, when a resolution finds
      dependencies failing, or to keep one, and a review in all other cases. */
  lemma RefusalLeads(c: Case, requested: CaseState, context: Context)
    requires !Decide(c, requested, context).allowed
    ensures var d := Decide(c, requested, context);
      if !ContextIsValid(context) then d.nextState == HumanReview && d.failure == ToHumanReview
      else if !Entitled(c, requested, context) || c.state == CaseState.Resolved then d.nextState == c.state && d.failure == Reject
      else if context.connectivity == Lost || c.state == Escalated || (requested == CaseState.Resolved && !context.dependenciesHealthy)
      then d.nextState == Escalated && d.failure == ToEscalation
      else d.nextState == HumanReview && d.failure == ToHumanReview
  {
    TablesAgree(c.state, requested);
    ActsAsSenior(context.roles, AuthorityFor(requested));
    AllowedExactlyWhen(c, requested, context);
  }

  /** A decision names the authority that was missing or used, and the most senior role of the actor that
      carries it. */
  lemma DecisionNamesAuthority(c: Case, requested: CaseState, context: Context)
    ensures var d, named := Decide(c, requested, context), AuthorityNamed(c, requested, context);
      && d.requiredAuthority == named
      && d.authorizedBy == if named.None? then None else Senior(context.roles * CarriersOf(named.value))
  {
    TablesAgree(c.state, requested);
    ActsAsSenior(context.roles, AuthorityFor(requested));
    ActsAsSenior(context.roles, Escalate);
    ActsAsSenior(context.roles, Resolve);
    ActsAsSenior(context.roles, AuthorizeHighRiskResolution);
    AuthorizationsMean(c, context);
  }

  /** In a run, an allowed request moves the case where it asked to, and a refusal that calls people in does so
      when the run is fail-safe; nothing else moves it. */
  lemma RequestMoves(c: Case, requested: CaseState, context: Context, failSafe: bool)
    ensures var d, next := Decide(c, requested, context), Perform(c, Request(requested, context), failSafe);
      && next.state == (if d.allowed then requested else if failSafe && d.failure != Reject then d.nextState else c.state)
      && (next == c || next == c.(state := next.state, revisions := c.revisions.(caseVersion := c.revisions.caseVersion + 1)))
  {
    if Decide(c, requested, context).allowed {
      AllowedLeads(c, requested, context);
    }
  }
}
