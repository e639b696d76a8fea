/** Which claimed jobs the executor in use runs and what it reports of each, by the fields of the job and the answer of
    the platform; and what that means in every reachable state of the protocol. */
module JobTrust {
  import opened Wrappers
  import opened Text
  import opened Tenancy
  import opened Runs
  import opened Jobs
  import opened JobLife
  import opened JobExecution
  import opened JobProtocol
  import opened JobSafety

  // ---------------------------------------------------------------- which jobs are run

  /** The key has signed the job's own fields; in the default scope the form without scope counts too. */
  predicate SignedBy(job: Job, key: Bytes) {
    || job.signature == Signature(key, PayloadV2(job.id, job.scope, job.agentId, job.action, job.target, job.approvedBy,
         job.reason, job.requestedAt))
    || (job.scope == Scope(Ascii("org_default"), Ascii("site_default"))
        && job.signature == Signature(key, PayloadV1(job.id, job.agentId, job.action, job.target, job.approvedBy,
             job.reason, job.requestedAt)))
  }

  predicate AgentItself(target: Bytes) { Reads(target, "bazusop-agent") || Reads(target, "bazusop-agent.service") }

  lemma ReadsIsFold(target: Bytes, name: string)
    requires forall i | 0 <= i < |name| :: 'a' <= name[i] <= 'z' || name[i] == '-' || name[i] == '.'
    ensures Reads(target, name) <==> EqualFold(target, Ascii(name))
  {}

  lemma AgentIsOwn(target: Bytes)
    ensures AgentItself(target) <==> OwnService(target)
  {
    hide Reads, EqualFold;
    ReadsIsFold(target, "bazusop-agent");
    ReadsIsFold(target, "bazusop-agent.service");
  }

  lemma DefaultScope()
    ensures Scope(Ascii("org_default"), Ascii("site_default")) == DEFAULT_SCOPE
  {}

  lemma SignedIsVerified(job: Job)
    ensures Verify(job) <==> SignedBy(job, job.signingKey)
  {
    hide Ascii;
    DefaultScope();
  }

  /** The agent may act on it: its own job, signed by the pinned key, with an action that is permitted and does not
      restart the agent itself. */
  predicate Trusted(job: Job, identity: Identity) {
    && identity.trust.Pinned? && job.agentId == identity.agentId && job.id != []
    && job.signingKey == identity.trust.key && SignedBy(job, identity.trust.key)
    && Permitted(job.action, job.target) && (job.action.ServiceRestart? ==> !AgentItself(job.target))
  }

  /** The executor runs a claimed job if and only if it is trusted, running, and not handed out again. */
  lemma RunsExactlyWhen(job: Job, identity: Identity)
    ensures Actual(identity).declined(job).None? <==>
      Trusted(job, identity) && job.status == StatusRunning && job.lastSequence >= 1 && !job.resumed
  {
    hide SignedBy, Verify, OwnService, AgentItself, Ascii;
    SignedIsVerified(job);
    AgentIsOwn(job.target);
  }

  // ---------------------------------------------------------------- what is reported

  /** Why a claimed job is not run: the first reason that applies. */
  function Reason(job: Job, identity: Identity): Bytes {
    if job.agentId != identity.agentId || job.id == [] || !job.status.StatusRunning? || job.lastSequence == 0 then
      Ascii("claimed job ") + Ascii("identity or state is invalid")
    else if !SignedBy(job, job.signingKey) then Ascii("job ") + Ascii("signature verification failed")
    else if identity.trust.NoCertificate? then Ascii("pinned enrollment authority ") + Ascii("certificate is invalid")
    else if identity.trust.OtherKey? then Ascii("pinned enrollment authority ") + Ascii("key is not Ed25519")
    else if job.signingKey != identity.trust.key then
      Ascii("job signer ") + Ascii("does not match pinned ") + Ascii("enrollment authority")
    else if job.action.OtherAction? then Ascii("job ") + Ascii("action is not allowed")
    else if job.action.HostReboot? && job.target != [] then Ascii("host ") + Ascii("reboot target must be empty")
    else if !Permitted(job.action, job.target) || AgentItself(job.target) then
      Ascii("service ") + Ascii("restart target is invalid")
    else Ascii("running job ") + Ascii("has no durable execution state; ") + Ascii("outcome unknown")
  }

  /** What it reports of a job it does not run: one failure, next in sequence, with the first reason that applies. */
  lemma DeclinedExactly(job: Job, identity: Identity)
    ensures Actual(identity).declined(job).Some? ==>
      Actual(identity).declined(job).value == [EventRequest(job.lastSequence + 1, EventFailed, Reason(job, identity))]
  {
    hide Ascii, Truncated, Refusal, Reason, NoState;
    ReasonIsRefusal(job, identity);
    ReasonIsShort(job, identity);
  }

  lemma ReasonIsShort(job: Job, identity: Identity)
    ensures Refusal(job, identity).Some? ==>
      Truncated(Refusal(job, identity).value, MESSAGE_LIMIT) == Refusal(job, identity).value
  {
    hide Truncated, Plain, Refusal;
    if Refusal(job, identity).Some? {
      RefusalIsPlain(job, identity);
      PlainIsAcceptable(Refusal(job, identity).value);
    }
  }

  lemma ReasonIsRefusal(job: Job, identity: Identity)
    ensures Refusal(job, identity).Some? ==> Refusal(job, identity).value == Reason(job, identity)
    ensures Refusal(job, identity).None? ==> (job.resumed ==> Reason(job, identity) == NoState())
  {
    hide SignedBy, Verify, OwnService, AgentItself, Ascii, ServiceTarget, Permitted;
    SignedIsVerified(job);
    AgentIsOwn(job.target);
    PermittedIsTarget(job);
  }

  lemma PermittedIsTarget(job: Job)
    ensures job.action.HostReboot? ==> (Permitted(job.action, job.target) <==> job.target == [])
    ensures job.target == [] ==> !AgentItself(job.target)
    ensures job.action.ServiceRestart? ==> (Permitted(job.action, job.target) <==> ServiceTarget(job.target))
  {}

  /** What it reports of a job it has run: the output, or a text in its place, and then success or the error. */
  lemma ReportedResult(job: Job, outcome: Outcome, identity: Identity)
    requires !job.action.OtherAction?
    ensures
      var name := Ascii(if job.action.ServiceRestart? then "service.restart" else "host.reboot");
      var output := if TrimSpace(outcome.output) == [] then name + Ascii(" produced no output")
        else TrimSpace(outcome.output);
      Actual(identity).results(job, outcome) == [
        EventRequest(2, EventOutput, Truncated(output, 32768)),
        if outcome.error.Some? then EventRequest(3, EventFailed, Truncated(outcome.error.value, 32768))
        else EventRequest(3, EventSucceeded, name + Ascii(" completed"))]
  {
    hide Ascii, TrimSpace, Truncated;
  }

  /** What it reports of a job that was interrupted. */
  lemma ReportedInterruption(job: Job, identity: Identity)
    ensures Actual(identity).interrupted(job) == [EventRequest(job.lastSequence + 1, EventFailed,
      Ascii("agent restarted ") + Ascii("during execution; ") + Ascii("outcome unknown"))]
  {
    hide Ascii;
  }

  // ---------------------------------------------------------------- in every reachable state

  /** The agent's copy of a job is the hub's, but for what changes. */
  ghost predicate Copy(c: Config, h: Hub, job: Job) {
    c.Key(job.id) in h.jobs && job == h.jobs[c.Key(job.id)].(status := job.status, lastSequence := job.lastSequence,
      resumed := job.resumed)
  }

  /** What the list saved for a job may be: the failure of one that was not run, or that was interrupted, or the result
      of its one run. */
  ghost predicate Composed(c: Config, s: System, job: Job, events: seq<EventRequest>) {
    || (RunsOf(s, job.id) == 0 && c.does.declined(job) == Some(events))
    || events == c.does.interrupted(job)
    || (RunsOf(s, job.id) == 1 && exists outcome: Outcome ::
          Outcomes(s, job.id) == [outcome.error.None?] && events == c.does.results(job, outcome))
  }

  ghost predicate ListTrue(c: Config, s: System, id: Bytes) {
    Lists(s, id) != [] ==>
      exists job: Job, events: seq<EventRequest> :: job.id == id && Copy(c, s.hub, job) && Composed(c, s, job, events)
        && Lists(s, id)[0] == WireAll(c, events)
  }

  ghost predicate RunTrue(c: Config, identity: Identity, s: System, id: Bytes) {
    RunsOf(s, id) > 0 ==> c.Key(id) in s.hub.jobs && Trusted(s.hub.jobs[c.Key(id)], identity)
  }

  /** What the agent holds of a job. */
  ghost predicate HeldTrue(c: Config, s: System) {
    && (s.disk.Some? ==> Copy(c, s.hub, s.disk.value.job))
    && (match s.pc
        case GotClaim(job) => Copy(c, s.hub, job)
        case Ran(job, events) => Copy(c, s.hub, job) && Composed(c, s, job, events)
        case _ => true)
  }

  ghost predicate Truth(c: Config, identity: Identity, s: System) {
    HeldTrue(c, s) && forall id :: ListTrue(c, s, id) && RunTrue(c, identity, s, id)
  }

  lemma TrustedStays(a: Job, b: Job, identity: Identity)
    requires b == a.(status := b.status, lastSequence := b.lastSequence, resumed := b.resumed)
    ensures Trusted(a, identity) <==> Trusted(b, identity)
  {
    hide Ascii, Permitted, AgentItself;
  }

  // -- hub

  lemma HubKeepsOrders(c: Config, s: System, m: Move, t: System)
    requires HubInv(s.hub) && Step(c, s, m, t)
    ensures Keeps(s.hub, t.hub)
  {
    hide HubInv, ClaimNext, ReportNormalized, Drafted, HexId, Head, Extends, WireAll, Holds, Listed;
    NothingDone(s.hub);
    match m
    case ClaimReply => ClaimKeepsOrder(s.hub, c.agent, s.clock, s.clock - c.lease);
    case LateClaim => ClaimKeepsOrder(s.hub, c.agent, s.clock, s.clock - c.lease);
    case OtherClaims(other) => ClaimKeepsOrder(s.hub, other, s.clock, s.clock - c.lease);
    case PostReply => HandledKeeps(c, s, c.agent, Head(c, s.pc).jobId, Head(c, s.pc).event);
    case Redeliver(r) => HandledKeeps(c, s, c.agent, r.jobId, r.event);
    case OtherReports(other, jobId, e) => HandledKeeps(c, s, other, jobId, e);
    case OperatorCreates(job, event) => CreateExtends(s.hub, job, event);
    case _ => HubStays(c, s, m, t);
  }

  lemma HandledKeeps(c: Config, s: System, agent: Agent, jobId: Bytes, e: EventRequest)
    requires HubInv(s.hub)
    ensures Keeps(s.hub, Handled(c, s, agent, jobId, e).0)
  {
    hide HubInv, ReportNormalized, Extends;
    ReportKeepsOrder(s.hub, agent, c.does.trim(jobId), e.(message := c.does.trim(e.message)), s.clock);
  }

  /** When the hub moves on, all of it stays true. */
  lemma HubKeepsTruth(c: Config, identity: Identity, s: System, h: Hub)
    requires Truth(c, identity, s) && Keeps(s.hub, h)
    ensures Truth(c, identity, s.(hub := h))
  {
    hide Trusted, Composed, Extends;
    var t := s.(hub := h);
    forall id ensures ListTrue(c, t, id) && RunTrue(c, identity, t, id) {
      assert ListTrue(c, s, id) && RunTrue(c, identity, s, id);
      if Lists(s, id) != [] {
        var job: Job, events: seq<EventRequest> :| job.id == id && Copy(c, s.hub, job) && Composed(c, s, job, events)
          && Lists(s, id)[0] == WireAll(c, events);
        CopyStays(c, s.hub, h, job);
        assert Composed(c, t, job, events) by { SameHistory(c, s, t, job, events); }
      }
      if RunsOf(s, id) > 0 { TrustedStays(s.hub.jobs[c.Key(id)], h.jobs[c.Key(id)], identity); }
    }
    if s.disk.Some? { CopyStays(c, s.hub, h, s.disk.value.job); }
    if s.pc.GotClaim? || s.pc.Ran? { CopyStays(c, s.hub, h, s.pc.job); }
    if s.pc.Ran? { SameHistory(c, s, t, s.pc.job, s.pc.events); }
  }

  lemma CopyStays(c: Config, h: Hub, h': Hub, job: Job)
    requires Copy(c, h, job) && Keeps(h, h')
    ensures Copy(c, h', job)
  {
    hide Extends;
  }

  lemma SameHistory(c: Config, s: System, t: System, job: Job, events: seq<EventRequest>)
    requires Composed(c, s, job, events)
    requires RunsOf(t, job.id) == RunsOf(s, job.id) && Outcomes(t, job.id) == Outcomes(s, job.id)
    ensures Composed(c, t, job, events)
  {}

  // -- the agent

  /** What does not touch a job's history leaves it true. */
  lemma SameIsTrue(c: Config, identity: Identity, s: System, t: System, id: Bytes)
    requires ListTrue(c, s, id) && RunTrue(c, identity, s, id) && t.hub == s.hub
    requires Lists(t, id) == Lists(s, id) && RunsOf(t, id) == RunsOf(s, id) && Outcomes(t, id) == Outcomes(s, id)
    ensures ListTrue(c, t, id) && RunTrue(c, identity, t, id)
  {
    hide Composed, Copy, Trusted;
    if Lists(s, id) != [] {
      var job: Job, events: seq<EventRequest> :| job.id == id && Copy(c, s.hub, job) && Composed(c, s, job, events)
        && Lists(s, id)[0] == WireAll(c, events);
      SameHistory(c, s, t, job, events);
    }
  }

  /** With only the agent's program point and disk changed, what it holds decides. */
  lemma QuietKeepsTruth(c: Config, identity: Identity, s: System, t: System)
    requires Truth(c, identity, s) && t.hub == s.hub && t.lists == s.lists && t.runs == s.runs
      && t.outcomes == s.outcomes && HeldTrue(c, t)
    ensures Truth(c, identity, t)
  {
    hide ListTrue, RunTrue, HeldTrue;
    forall id ensures ListTrue(c, t, id) && RunTrue(c, identity, t, id) { SameIsTrue(c, identity, s, t, id); }
  }

  /** A claim hands out the hub's job. */
  lemma ClaimIsCopy(c: Config, s: System)
    requires HubInv(s.hub)
    ensures var (h, got) := Answer(c, s, c.agent);
      got.Some? ==> Copy(c, h, got.value)
  {
    hide ClaimNext, LogShape, Extends;
    ClaimIsExact(s.hub, c.agent, s.clock, s.clock - c.lease);
    var (h, got) := Answer(c, s, c.agent);
    if got.Some? {
      var key := c.Key(got.value.id);
      if got.value.resumed { assert key in WithStatus(s.hub, c.agent, StatusRunning); }
      assert JobInv(s.hub.jobs[key], s.hub.events[key], key);
    }
  }

  lemma ClaimKeepsTruth(c: Config, identity: Identity, s: System, t: System)
    requires Inv(c, s) && Truth(c, identity, s) && Step(c, s, ClaimReply, t)
    ensures Truth(c, identity, t)
  {
    hide ClaimNext, HubInv, AgentInv, Orderly, HexId, Copy, Extends, ListTrue, RunTrue;
    ClaimKeepsOrder(s.hub, c.agent, s.clock, s.clock - c.lease);
    HubKeepsTruth(c, identity, s, t.hub);
    ClaimIsCopy(c, s);
    AgentParts(c, s);
    QuietKeepsTruth(c, identity, s.(hub := t.hub), t);
  }

  lemma AgentParts(c: Config, s: System)
    requires Inv(c, s)
    ensures PcOK(c, s) && DiskOK(c, s) && HubInv(s.hub)
    ensures s.pc.GotClaim? || s.pc.Saved? || s.pc.Running? || s.pc.Ran? ==> Lists(s, s.pc.job.id) == []
    ensures s.pc.GotClaim? ==> RunsOf(s, s.pc.job.id) == 0
    ensures s.disk.Some? && s.disk.value.phase.Executing? ==> Lists(s, s.disk.value.job.id) == []
  {
    hide HubInv, Orderly, HexId, ListOK, ListShape;
    Held(c, s);
  }

  /** A list is saved. */
  lemma ListedKeepsTruth(c: Config, identity: Identity, s: System, job: Job, events: seq<EventRequest>)
    requires Truth(c, identity, s) && Copy(c, s.hub, job) && Composed(c, s, job, events) && Lists(s, job.id) == []
    ensures Truth(c, identity, Listed(c, s, job, events))
  {
    hide Trusted, WireAll, Composed, Copy;
    var t := Listed(c, s, job, events);
    forall id ensures ListTrue(c, t, id) && RunTrue(c, identity, t, id) {
      assert ListTrue(c, s, id) && RunTrue(c, identity, s, id);
      if id == job.id {
        SameHistory(c, s, t, job, events);
        assert Lists(t, id)[0] == WireAll(c, events);
      } else {
        SameIsTrue(c, identity, s, t, id);
      }
    }
  }

  lemma StartKeepsTruth(c: Config, identity: Identity, s: System, t: System)
    requires c.does == Actual(identity) && Inv(c, s) && Truth(c, identity, s) && Step(c, s, Start, t)
    ensures Truth(c, identity, t)
  {
    hide Inv, Trusted, Actual, Composed, Copy, ListTrue;
    var job := s.pc.job;
    AgentParts(c, s);
    RunsExactlyWhen(job, identity);
    CopyIsTrusted(c, s.hub, job, identity);
    forall id ensures ListTrue(c, t, id) && RunTrue(c, identity, t, id) {
      assert ListTrue(c, s, id) && RunTrue(c, identity, s, id);
      if id != job.id { SameIsTrue(c, identity, s, t, id); } else { NoList(c, t, id); }
    }
  }

  lemma CopyIsTrusted(c: Config, h: Hub, job: Job, identity: Identity)
    requires Copy(c, h, job)
    ensures Trusted(h.jobs[c.Key(job.id)], identity) <==> Trusted(job, identity)
  {
    TrustedStays(h.jobs[c.Key(job.id)], job, identity);
  }

  lemma SameRuns(c: Config, identity: Identity, s: System, t: System, id: Bytes)
    requires RunTrue(c, identity, s, id) && RunsOf(t, id) == RunsOf(s, id) && t.hub == s.hub
    ensures RunTrue(c, identity, t, id)
  {}

  lemma NoList(c: Config, s: System, id: Bytes)
    ensures Lists(s, id) == [] ==> ListTrue(c, s, id)
  {}

  lemma FinishKeepsTruth(c: Config, identity: Identity, s: System, outcome: Outcome, t: System)
    requires Inv(c, s) && Truth(c, identity, s) && Step(c, s, Finish(outcome), t)
    ensures Truth(c, identity, t)
  {
    hide Inv, Trusted, Copy, ListTrue, RunTrue;
    var job := s.pc.job;
    AgentParts(c, s);
    assert RunTrue(c, identity, t, job.id) by { SameRuns(c, identity, s, t, job.id); }
    forall id ensures ListTrue(c, t, id) && RunTrue(c, identity, t, id) {
      assert ListTrue(c, s, id) && RunTrue(c, identity, s, id);
      if id != job.id { SameIsTrue(c, identity, s, t, id); } else { NoList(c, t, id); }
    }
    assert Outcomes(t, job.id) == [outcome.error.None?];
  }

  /** The remaining moves of the agent. */
  lemma OtherMoveKeepsTruth(c: Config, identity: Identity, s: System, m: Move, t: System)
    requires Inv(c, s) && Truth(c, identity, s) && Step(c, s, m, t)
    requires m.BeginRecover? || m.BeginClaim? || m.SaveExecuting? || m.Post? || m.SaveRest? || m.Delete?
      || m.Abandon? || m.Tick?
    ensures Truth(c, identity, t)
  {
    hide Inv, ListTrue, RunTrue, Copy, Composed, Answer, Handled, Drafted, HexId, WireAll, Head, PcOK, Undecided;
    AgentParts(c, s);
    DiskIsHeld(c, s);
    if s.pc.Ran? { SameHistory(c, s, t, s.pc.job, s.pc.events); }
    QuietKeepsTruth(c, identity, s, t);
  }

  lemma DiskIsHeld(c: Config, s: System)
    requires PcOK(c, s)
    ensures s.pc.Acked? ==> s.disk.Some? && s.disk.value.job == s.pc.job
  {
    hide Undecided, HexId, ListShape;
  }

  lemma DeclineKeepsTruth(c: Config, identity: Identity, s: System, t: System)
    requires Inv(c, s) && Truth(c, identity, s) && Step(c, s, Decline, t)
    ensures Truth(c, identity, t)
  {
    hide Inv, ListTrue, RunTrue, Copy, PcOK;
    AgentParts(c, s);
    QuietKeepsTruth(c, identity, s, t);
  }

  lemma StepKeepsTruth(c: Config, identity: Identity, s: System, m: Move, t: System)
    requires c.does == Actual(identity) && Lawful(c) && Inv(c, s) && Truth(c, identity, s) && Step(c, s, m, t)
    ensures Truth(c, identity, t)
  {
    hide Actual, Lawful, HubInv, AgentInv, Orderly, Truth, Composed, Keeps, Answer, Handled, Drafted, HexId, WireAll,
      Head, Listed;
    if Foreign(m) {
      HubKeepsOrders(c, s, m, t);
      HubKeepsTruth(c, identity, s, t.hub);
      HubMoves(c, s, m, t);
    } else {
      match m
      case ClaimReply => ClaimKeepsTruth(c, identity, s, t);
      case PostReply =>
        HubKeepsOrders(c, s, m, t);
        HubKeepsTruth(c, identity, s, t.hub);
        PostedKeepsTruth(c, identity, s.(hub := t.hub), t);
      case BeginInterrupted => InterruptedKeepsTruth(c, identity, s, t);
      case SaveResult => SavedKeepsTruth(c, identity, s, t);
      case Decline => DeclineKeepsTruth(c, identity, s, t);
      case Start => StartKeepsTruth(c, identity, s, t);
      case Finish(outcome) => FinishKeepsTruth(c, identity, s, outcome, t);
      case _ => OtherMoveKeepsTruth(c, identity, s, m, t);
    }
  }

  lemma PostedKeepsTruth(c: Config, identity: Identity, s: System, t: System)
    requires Truth(c, identity, s) && t == s.(pc := t.pc) && (t.pc.Acked? || t.pc.Idle?)
    ensures Truth(c, identity, t)
  {
    hide ListTrue, RunTrue, Copy, Composed;
    QuietKeepsTruth(c, identity, s, t);
  }

  lemma InterruptedKeepsTruth(c: Config, identity: Identity, s: System, t: System)
    requires Inv(c, s) && Truth(c, identity, s) && Step(c, s, BeginInterrupted, t)
    ensures Truth(c, identity, t)
  {
    hide Inv, ListTrue, RunTrue, Copy, HexId, Listed;
    AgentParts(c, s);
    ListedKeepsTruth(c, identity, s, s.disk.value.job, c.does.interrupted(s.disk.value.job));
  }

  lemma SavedKeepsTruth(c: Config, identity: Identity, s: System, t: System)
    requires Inv(c, s) && Truth(c, identity, s) && Step(c, s, SaveResult, t)
    ensures Truth(c, identity, t)
  {
    hide Inv, ListTrue, RunTrue, Copy, Composed, HexId, Listed;
    AgentParts(c, s);
    ListedKeepsTruth(c, identity, s, s.pc.job, s.pc.events);
  }

  lemma InitialTruth(c: Config, identity: Identity)
    ensures Truth(c, identity, INITIAL)
  {}

  lemma ReachableTruth(c: Config, identity: Identity, s: System)
    requires c.does == Actual(identity) && Reachable(c, s)
    ensures Inv(c, s) && Truth(c, identity, s)
  {
    hide Inv, Step, Lawful, Actual, Truth;
    ActualIsLawful(c, identity);
    ReachableInv(c, s);
    InitialTruth(c, identity);
    ReachableInv(c, INITIAL) by { ReachesSelf(Steps(c), INITIAL); }
    var moves :| Path(Steps(c), INITIAL, moves, s);
    forall x, m, y | (Inv(c, x) && Truth(c, identity, x)) && Steps(c)(x, m, y)
      ensures Inv(c, y) && Truth(c, identity, y)
    {
      StepKeeps(c, x, m, y);
      StepKeepsTruth(c, identity, x, m, y);
    }
    PathKeeps(Steps(c), (x: System) => Inv(c, x) && Truth(c, identity, x), INITIAL, moves, s);
  }

  // ---------------------------------------------------------------- the main results

  /** Whenever an action starts, its job was handed out for the first time, is running, and is trusted, and all the
      agent knows of it is what the hub holds. */
  lemma OnlyFreshTrustedJobsStart(c: Config, identity: Identity, s: System, t: System)
    requires c.does == Actual(identity) && Reachable(c, s) && Step(c, s, Start, t)
    ensures s.pc.Saved? && !s.pc.job.resumed && s.pc.job.status == StatusRunning && Trusted(s.pc.job, identity)
    ensures Copy(c, s.hub, s.pc.job)
  {
    hide Inv, Trusted, Actual, ListTrue, RunTrue, Copy, Reachable, HexId;
    ReachableTruth(c, identity, s);
    AgentParts(c, s);
    RunsExactlyWhen(s.pc.job, identity);
  }

  /** In every reachable state the hub's record of each job whose action was ever started carries the pinned key's
      signature over its own fields, and is one the agent may act on. */
  lemma StartedIsTrusted(c: Config, identity: Identity, s: System, id: Bytes)
    requires c.does == Actual(identity) && Reachable(c, s) && RunsOf(s, id) > 0
    ensures c.Key(id) in s.hub.jobs && Trusted(s.hub.jobs[c.Key(id)], identity)
  {
    hide Inv, Trusted, Actual, Reachable, HeldTrue, ListTrue;
    ReachableTruth(c, identity, s);
    assert RunTrue(c, identity, s, id);
  }

  /** After the claim the log reads as a first part of these events, in the form in which they arrive. */
  predicate Tells(log: seq<Event>, events: seq<EventRequest>) {
    |log| <= 2 + |events| && forall i | 2 <= i < |log| ::
      && log[i].sequence == events[i - 2].sequence && log[i].typ == events[i - 2].typ
      && log[i].message == TrimSpace(Wire(events[i - 2].message))
  }

  /** And what its log says after the claim is what the executor composed of this job: why it was not run, that it was
      interrupted, or the result of its one run. */
  lemma LogTellsTheTruth(c: Config, identity: Identity, s: System, id: Bytes)
    requires c.does == Actual(identity) && Reachable(c, s) && Mine(c, s.hub, id) && |LogOf(s.hub, c.Key(id))| > 2
    ensures exists job: Job, events: seq<EventRequest> ::
      job.id == id && Copy(c, s.hub, job) && Composed(c, s, job, events) && Tells(LogOf(s.hub, c.Key(id)), events)
  {
    hide Inv, Actual, Reachable, HeldTrue, RunTrue, LogShape, LogOf, Mine, Copy, Composed;
    ReachableTruth(c, identity, s);
    ActualIsLawful(c, identity);
    var log := LogOf(s.hub, c.Key(id));
    assert Lists(s, id) != [] && ListedLog(c, log, Lists(s, id)[0]) by {
      LogIsPrefixOfTheOneList(c, s, id);
      assert log[2].sequence == log[2].sequence && log[|log| - 1].sequence == log[|log| - 1].sequence;
    }
    assert ListTrue(c, s, id);
    var job: Job, events: seq<EventRequest> :| job.id == id && Copy(c, s.hub, job) && Composed(c, s, job, events)
      && Lists(s, id)[0] == WireAll(c, events);
    WiresAsText(c, identity, log, events);
  }

  ghost predicate ListedLog(c: Config, log: seq<Event>, list: seq<EventRequest>) {
    |log| <= 2 + |list| && forall i | 2 <= i < |log| ::
      log[i].sequence == list[i - 2].sequence && log[i].typ == list[i - 2].typ
        && log[i].message == c.does.trim(list[i - 2].message)
  }

  lemma WiresAsText(c: Config, identity: Identity, log: seq<Event>, events: seq<EventRequest>)
    requires c.does == Actual(identity) && ListedLog(c, log, WireAll(c, events))
    ensures Tells(log, events)
  {
    hide TrimSpace, Wire;
  }
}
