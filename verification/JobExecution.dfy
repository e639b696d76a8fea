/** internal/agent/job_executor.go, the parts that compute values: acceptance of a claimed job, the events
    reported for it, and when the hub takes their messages. */
module JobExecution {
  import opened Wrappers
  import opened Text
  import opened Tenancy
  import opened Clock
  import opened Jobs

  /** The enrollment authority's key pinned at enrollment, or why the stored certificate yields none: it is no
      certificate, or one with another kind of key. */
  datatype Trust = Pinned(key: Bytes) | NoCertificate | OtherKey

  function TrustError(trust: Trust): Bytes
    requires !trust.Pinned?
  {
    Ascii("pinned enrollment authority ")
      + if trust.NoCertificate? then Ascii("certificate is invalid") else Ascii("key is not Ed25519")
  }

  datatype Identity = Identity(agentId: Bytes, trust: Trust)

  /** `strings.EqualFold` for ASCII text. */
  predicate EqualFold(a: Bytes, b: Bytes) {
    |a| == |b| && forall i | 0 <= i < |a| :: LowerByte(a[i]) == LowerByte(b[i])
  }

  /** The agent's own service, which a job may not restart. */
  predicate OwnService(target: Bytes) {
    EqualFold(target, Ascii("bazusop-agent")) || EqualFold(target, Ascii("bazusop-agent.service"))
  }

  /** `validateClaimedJob`: the reason for refusing the job, if any. */
  function Refusal(job: Job, identity: Identity): Option<Bytes> {
    if job.id == [] || job.agentId != identity.agentId || job.status != StatusRunning || job.lastSequence < 1 then
      Some(Ascii("claimed job ") + Ascii("identity or state is invalid"))
    else if !Verify(job) then Some(Ascii("job ") + Ascii("signature verification failed"))
    else if !identity.trust.Pinned? then Some(TrustError(identity.trust))
    else if job.signingKey != identity.trust.key then
      Some(Ascii("job signer ") + Ascii("does not match pinned ") + Ascii("enrollment authority"))
    else ActionRefusal(job)
  }

  function ActionRefusal(job: Job): Option<Bytes> {
    match job.action
    case ServiceRestart =>
      if !ServiceTarget(job.target) || OwnService(job.target) then
        Some(Ascii("service ") + Ascii("restart target is invalid"))
      else None
    case HostReboot => if job.target != [] then Some(Ascii("host ") + Ascii("reboot target must be empty")) else None
    case OtherAction(_) => Some(Ascii("job ") + Ascii("action is not allowed"))
  }

  /** The hub lets an operator create a job that its agent then refuses: exactly a restart of the agent's
      own service. */
  lemma AgentAcceptsWhatHubCreates(
    scope: Scope, agentId: Bytes, request: CreateRequest, id: Bytes, key: Bytes, now: Time, identity: Identity)
    requires Draft(scope, agentId, request, Ok(true), Ok(id), key, now).Ok? && id != []
    requires identity == Identity(Draft(scope, agentId, request, Ok(true), Ok(id), key, now).value.0.agentId,
      Pinned(key))
    ensures var job := Claimed(Draft(scope, agentId, request, Ok(true), Ok(id), key, now).value.0);
      Refusal(job, identity).Some? <==> job.action.ServiceRestart? && OwnService(job.target)
  {
    hide Draft, Drafted, TrimSpace, ValidId, ServiceTarget, OwnService;
    DraftIsDrafted(scope, agentId, request, Ok(true), Ok(id), key, now);
    var draft := Draft(scope, agentId, request, Ok(true), Ok(id), key, now).value.0;
    assert PayloadOf(Claimed(draft)) == PayloadOf(draft);
    assert ValidActionTarget(draft.action, draft.target);
  }

  /** Such a job exists in every valid scope. */
  lemma OwnServiceIsRefused(
    scope: Scope, agentId: Bytes, approvedBy: Bytes, reason: Bytes, id: Bytes, key: Bytes, now: Time,
      identity: Identity)
    requires scope.Valid() && TrimSpace(agentId) != [] && id != []
    requires 0 < |TrimSpace(approvedBy)| <= 128 && 0 < |TrimSpace(reason)| <= 1024
    ensures
      var request := CreateRequest(ServiceRestart, Ascii("bazusop-agent"), approvedBy, reason);
      var draft := Draft(scope, agentId, request, Ok(true), Ok(id), key, now);
      draft.Ok? && (identity == Identity(draft.value.0.agentId, Pinned(key))
        ==> Refusal(Claimed(draft.value.0), identity).Some?)
  {
    hide TrimSpace;
    var request := CreateRequest(ServiceRestart, Ascii("bazusop-agent"), approvedBy, reason);
    AsciiIsTrimmed(request.target);
    TrimmedIsFixed(request.target);
    assert ServiceTarget(request.target);
  }

  // ---------------------------------------------------------------- events

  function ActionName(action: Action): Bytes {
    match action
    case ServiceRestart => Ascii("service.restart")
    case HostReboot => Ascii("host.reboot")
    case OtherAction(name) => name
  }

  function FailureAt(sequence: nat, message: Bytes): seq<EventRequest> {
    [EventRequest(sequence, EventFailed, Truncated(message, MESSAGE_LIMIT))]
  }

  function NoState(): Bytes {
    Ascii("running job ") + Ascii("has no durable execution state; ") + Ascii("outcome unknown")
  }

  function Interrupted(): Bytes { Ascii("agent restarted ") + Ascii("during execution; ") + Ascii("outcome unknown") }

  /** What the platform action returned: its output, and its error if it failed. */
  datatype Outcome = Outcome(output: Bytes, error: Option<Bytes>)

  function OutputText(action: Action, output: Bytes): Bytes {
    var text := TrimSpace(output);
    if text == [] then ActionName(action) + Ascii(" produced no output") else text
  }

  function ResultEvents(action: Action, outcome: Outcome): seq<EventRequest> {
    [EventRequest(2, EventOutput, Truncated(OutputText(action, outcome.output), MESSAGE_LIMIT)),
     if outcome.error.Some? then EventRequest(3, EventFailed, Truncated(outcome.error.value, MESSAGE_LIMIT))
     else EventRequest(3, EventSucceeded, ActionName(action) + Ascii(" completed"))]
  }

  /** The events of a claimed job the agent does not run, if it is one. */
  function DeclineEvents(identity: Identity, job: Job): Option<seq<EventRequest>> {
    var refusal := Refusal(job, identity);
    if refusal.Some? then Some(FailureAt(job.lastSequence + 1, refusal.value))
    else if job.resumed then Some([EventRequest(job.lastSequence + 1, EventFailed, NoState())])
    else None
  }

  function InterruptedEvents(job: Job): seq<EventRequest> {
    [EventRequest(job.lastSequence + 1, EventFailed, Interrupted())]
  }

  /** What the protocol needs of messages and of the executor: JSON transport, the hub's trimming, and what is reported
      for a job that is not run, that was interrupted, and that has run. */
  datatype Behaviour = Behaviour(
    wire: Bytes -> Bytes, trim: Bytes -> Bytes,
    declined: Job -> Option<seq<EventRequest>>, interrupted: Job -> seq<EventRequest>,
    results: (Job, Outcome) -> seq<EventRequest>)

  function Actual(identity: Identity): Behaviour {
    Behaviour((m: Bytes) => Wire(m), (m: Bytes) => TrimSpace(m), (job: Job) => DeclineEvents(identity, job),
              (job: Job) => InterruptedEvents(job), (job: Job, outcome: Outcome) => ResultEvents(job.action, outcome))
  }

  // ---------------------------------------------------------------- which messages the hub takes

  /** A message as it reaches the hub's check, after JSON transport and trimming. */
  predicate Acceptable(message: Bytes) { Carried(message, MESSAGE_LIMIT) }

  /** The executor's output event is taken by the hub exactly when the action's trimmed output is empty or survives
      truncation and transport. */
  lemma OutputIsAcceptable(action: Action, output: Bytes)
    requires !action.OtherAction?
    ensures Acceptable(Truncated(OutputText(action, output), MESSAGE_LIMIT)) <==>
      TrimSpace(output) == [] || Survives(TrimSpace(output), MESSAGE_LIMIT)
  {
    hide Survives, Truncated, Carried, TrimSpace;
    if TrimSpace(output) == [] {
      PlainIsAcceptable(OutputText(action, output));
    } else {
      TruncatedIsCarried(TrimSpace(output), MESSAGE_LIMIT);
    }
  }

  /** An action whose output is eleven thousand bytes that are not UTF-8 is one the hub does not hear of. */
  lemma RefusedOutput(action: Action) returns (output: Bytes)
    requires !action.OtherAction?
    ensures !Acceptable(Truncated(OutputText(action, output), MESSAGE_LIMIT))
  {
    hide Carried, Truncated, OutputText, TrimSpace;
    output := seq(11000, _ => 0xFF);
    AllIllFormed(output);
    TrimmedIsFixed(output);
    assert TrimSpace(output) == output;
    OutputIsAcceptable(action, output);
  }

  /** The texts the executor composes itself: short ASCII without surrounding white space. */
  predicate Plain(text: Bytes) {
    0 < |text| <= 256 && text[0] > 32 && text[|text| - 1] > 32 && forall i | 0 <= i < |text| :: text[i] < 128
  }

  lemma PlainIsAcceptable(text: Bytes)
    requires Plain(text)
    ensures Acceptable(text) && Truncated(text, MESSAGE_LIMIT) == text
  {
    hide Wire, TrimSpace, Valid, Trimmed;
    AsciiIsValid(text);
    WireOfValid(text);
    AsciiIsTrimmed(text);
    TrimmedIsFixed(text);
  }

  lemma FixedTexts()
    ensures Plain(Interrupted()) && Plain(NoState())
  {}

  lemma RefusalIsPlain(job: Job, identity: Identity)
    requires Refusal(job, identity).Some?
    ensures Plain(Refusal(job, identity).value)
  {
    hide Verify, ActionRefusal, TrustError;
    if ActionRefusal(job).Some? { ActionRefusalIsPlain(job); }
    if !identity.trust.Pinned? { TrustErrorIsPlain(identity.trust); }
  }

  lemma TrustErrorIsPlain(trust: Trust)
    requires !trust.Pinned?
    ensures Plain(TrustError(trust))
  {}

  lemma ActionRefusalIsPlain(job: Job)
    requires ActionRefusal(job).Some?
    ensures Plain(ActionRefusal(job).value)
  {
    hide ServiceTarget, OwnService;
  }

  /** The hub takes what an action that has run returned: output that is blank or survives, and an error text that does.
      An error text is truncated as it is, before anything trims it. */
  predicate Reportable(outcome: Outcome) {
    && (TrimSpace(outcome.output) == [] || Survives(TrimSpace(outcome.output), MESSAGE_LIMIT))
    && (outcome.error.Some? ==> Survives(outcome.error.value, MESSAGE_LIMIT))
  }

  /** The hub takes both messages of a job the agent runs exactly when output and error text survive; the executor's
      fixed texts never stand in the way. */
  lemma ResultIsAcceptable(job: Job, outcome: Outcome)
    requires !job.action.OtherAction?
    ensures var events := ResultEvents(job.action, outcome);
      Acceptable(events[0].message) && Acceptable(events[1].message) <==> Reportable(outcome)
  {
    hide Carried, Truncated, OutputText, Survives, TrimSpace;
    OutputIsAcceptable(job.action, outcome.output);
    if outcome.error.Some? {
      TruncatedIsCarried(outcome.error.value, MESSAGE_LIMIT);
    } else {
      PlainIsAcceptable(ActionName(job.action) + Ascii(" completed"));
    }
  }

  /** Well-formed UTF-8; an error text also starts with something to read. */
  predicate WellFormed(outcome: Outcome) {
    Valid(outcome.output)
    && (outcome.error.Some? ==>
          Valid(outcome.error.value) && outcome.error.value != [] && SpaceWidth(outcome.error.value) == 0)
  }

  /** Every event the executor queues for an action with well-formed output and error text passes the hub's check. */
  lemma WellFormedIsReportable(outcome: Outcome)
    requires WellFormed(outcome)
    ensures Reportable(outcome)
  {
    hide Survives, TrimSpace, Valid, SpaceWidth;
    TrimSpaceIsValid(outcome.output);
    TrimSpaceIsTrimmed(outcome.output);
    if TrimSpace(outcome.output) != [] { ValidSurvives(TrimSpace(outcome.output), MESSAGE_LIMIT); }
    if outcome.error.Some? { ValidSurvives(outcome.error.value, MESSAGE_LIMIT); }
  }

  /** The condition on the start of an error text is needed: behind thirty-two thousand spaces nothing is left of it. */
  lemma LateErrorIsRefused(text: Bytes) returns (error: Bytes)
    ensures error == seq(MESSAGE_LIMIT, _ => 32) + text && !Reportable(Outcome([], Some(error)))
  {
    hide TrimLeft;
    error := seq(MESSAGE_LIMIT, _ => 32) + text;
    SpacesAreTrimmed(error, MESSAGE_LIMIT);
  }

  lemma {:induction false} SpacesAreTrimmed(s: Bytes, n: nat)
    requires n <= |s| && forall i | 0 <= i < n :: s[i] == 32
    ensures |TrimLeft(s)| <= |s| - n
  {
    if n > 0 { SpacesAreTrimmed(s[1..], n - 1); }
  }
}
