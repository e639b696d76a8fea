/** The life of a job in the hub's store, told by what operators, agents and the clock do: which jobs are created, who
    gets them and when, which reports are taken, and what the log then says. */
module JobLife {
  import opened Wrappers
  import opened Text
  import opened Tenancy
  import opened Order
  import opened Clock
  import opened Jobs

  // ---------------------------------------------------------------- creating

  /** A reboot without target, or a restart of a service whose name matches `[A-Za-z0-9_.@:-]+` and does not start with
      a dash. */
  predicate Permitted(action: Action, target: Bytes) {
    match action
    case HostReboot => target == []
    case ServiceRestart =>
      && target != [] && target[0] != '-' as int
      && forall b | b in target ::
           || 'A' as int <= b <= 'Z' as int || 'a' as int <= b <= 'z' as int || '0' as int <= b <= '9' as int
           || b == '_' as int || b == '.' as int || b == '@' as int || b == ':' as int || b == '-' as int
    case OtherAction(_) => false
  }

  /** Which requests are refused, in this order, and of any other the whole record and its approval. */
  lemma CreatedExactly(
    scope: Scope, agentId: Bytes, request: CreateRequest, hostExists: Result<bool>, id: Result<Bytes>, key: Bytes,
    now: Time)
    ensures
      var agentId', target := TrimSpace(agentId), TrimSpace(request.target);
      var who, reason, at := TrimSpace(request.approvedBy), TrimSpace(request.reason), now - now % 1000;
      Draft(scope, agentId, request, hostExists, id, key, now) ==
        if !scope.Valid() then Err(ErrInvalidScope)
        else if agentId' == [] || who == [] || reason == [] || |who| > 128 || |reason| > 1024 || |target| > 256
          || !Permitted(request.action, target) then Err(ErrInvalidJob)
        else if hostExists.Err? then Err(hostExists.error)
        else if hostExists == Ok(false) then Err(ErrJobNotFound)
        else if id.Err? then Err(id.error)
        else
          var signed := PayloadV2(id.value, scope, agentId', request.action, target, who, reason, at);
          Ok((Job(id.value, scope, agentId', request.action, target, who, reason, at, StatusQueued, 0,
                  Signature(key, signed), key, false),
              Event(id.value, scope, 0, EventApproved, reason, who, at)))
  {
    hide TrimSpace, ValidId;
  }

  // ---------------------------------------------------------------- what never changes

  /** Of a stored job only its status and the number of its last event change. */
  predicate SameOrder(a: Job, b: Job) { b == a.(status := b.status, lastSequence := b.lastSequence) }

  ghost predicate Keeps(h: Hub, h': Hub) {
    Extends(h, h') && forall k | k in h.jobs :: k in h'.jobs && SameOrder(h.jobs[k], h'.jobs[k])
  }

  lemma ReportKeepsOrder(h: Hub, agent: Agent, jobId: Bytes, request: EventRequest, at: Time)
    requires HubInv(h)
    ensures Keeps(h, ReportNormalized(h, agent, jobId, request, at).0)
  {
    hide HubInv, Extends, ValidReport, Matches;
    ReportExtends(h, agent, jobId, request, at);
  }

  lemma ClaimKeepsOrder(h: Hub, agent: Agent, at: Time, resumeBefore: Time)
    requires HubInv(h)
    ensures Keeps(h, ClaimNext(h, agent, at, resumeBefore).0)
  {
    hide HubInv, Extends, ClaimNext;
    ClaimIsExact(h, agent, at, resumeBefore);
    ClaimChanges(h, agent, at, resumeBefore);
  }

  lemma OperationKeeps(h: Hub, op: Operation)
    requires HubInv(h) && Enabled(h, op)
    ensures HubInv(Apply(h, op)) && Keeps(h, Apply(h, op))
  {
    hide HubInv, Extends, ClaimNext, ReportNormalized, Drafted, TrimSpace;
    ApplyExtends(h, op);
    match op
    case Create(_, _) =>
    case Claim(agent, at, resumeBefore) => ClaimKeepsOrder(h, agent, at, resumeBefore);
    case ReportOp(agent, jobId, request, at) =>
      ReportKeepsOrder(h, agent, TrimSpace(jobId), Normalized(request), at);
  }

  /** Over any run: who ordered what, for whom, with which signature, stays as it was. */
  lemma {:induction false} RunKeeps(h: Hub, ops: seq<Operation>)
    requires HubInv(h) && Legal(h, ops)
    ensures HubInv(Run(h, ops)) && Keeps(h, Run(h, ops))
  {
    hide HubInv, Apply, Enabled, Extends, SameOrder;
    if ops == [] {
      NothingDone(h);
    } else {
      var n := |ops| - 1;
      RunKeeps(h, ops[..n]);
      OperationKeeps(Run(h, ops[..n]), ops[n]);
      KeepsOn(h, Run(h, ops[..n]), Run(h, ops));
    }
  }

  lemma NothingDone(h: Hub)
    requires HubInv(h)
    ensures Keeps(h, h)
  {
    ExtendsReflexive(h);
  }

  lemma KeepsOn(a: Hub, b: Hub, c: Hub)
    requires Keeps(a, b) && Keeps(b, c)
    ensures Keeps(a, c)
  {
    ExtendsTransitive(a, b, c);
  }

  // ---------------------------------------------------------------- claiming

  predicate Owned(job: Job, agent: Agent) { job.agentId == agent.id && job.scope == agent.scope }

  /** A job handed out for the first time is the agent's, and none of its queued jobs was requested earlier, or at the
      same time with an ID that comes first. */
  lemma FirstComesFirst(h: Hub, agent: Agent, at: Time, resumeBefore: Time)
    requires HubInv(h)
    ensures var got := ClaimNext(h, agent, at, resumeBefore).1;
      got.Some? ==>
        var key := JobKey(agent.scope, got.value.id);
        && key in h.jobs && Owned(h.jobs[key], agent)
        && (!got.value.resumed ==>
              && h.jobs[key].status.StatusQueued?
              && got.value == h.jobs[key].(status := StatusRunning, lastSequence := 1)
              && forall k | k in h.jobs && Owned(h.jobs[k], agent) && h.jobs[k].status.StatusQueued? && k != key ::
                   var mine, other := h.jobs[key], h.jobs[k];
                   mine.requestedAt < other.requestedAt
                     || (mine.requestedAt == other.requestedAt && ComesFirst(mine.id, other.id)))
  {
    hide ClaimNext, LexLess, ComesFirst, LogShape;
    ClaimIsExact(h, agent, at, resumeBefore);
    var got := ClaimNext(h, agent, at, resumeBefore).1;
    if got.Some? {
      var key := JobKey(agent.scope, got.value.id);
      if got.value.resumed { assert key in WithStatus(h, agent, StatusRunning); }
      forall k | k in h.jobs && Owned(h.jobs[k], agent) && h.jobs[k].status.StatusQueued? && k != key
        && !got.value.resumed
        ensures var mine, other := h.jobs[key], h.jobs[k];
          mine.requestedAt < other.requestedAt
            || (mine.requestedAt == other.requestedAt && ComesFirst(mine.id, other.id))
      {
        assert k in WithStatus(h, agent, StatusQueued);
        LexLessExactlyWhen(h.jobs[key].id, h.jobs[k].id);
      }
    }
  }

  /** A job is only ever handed to the agent it was created for, whatever happened since. */
  lemma NobodyElseGetsIt(h: Hub, key: JobKey, ops: seq<Operation>, other: Agent, at: Time, resumeBefore: Time)
    requires HubInv(h) && Legal(h, ops) && key in h.jobs && !Owned(h.jobs[key], other)
    ensures var got := ClaimNext(Run(h, ops), other, at, resumeBefore).1;
      got.Some? ==> JobKey(other.scope, got.value.id) != key
  {
    hide ClaimNext, Run, Legal, HubInv, ComesFirst;
    RunKeeps(h, ops);
    FirstComesFirst(Run(h, ops), other, at, resumeBefore);
  }

  /** The lease, in times of claims only: once a claim at `t` has handed out a job for the first time, every later claim
      of the agent is answered with nothing before `t + lease` while the job runs, and from then on with this job,
      marked as resumed. */
  lemma LeaseHolds(h: Hub, agent: Agent, t: Time, lease: int, ops: seq<Operation>, t': Time)
    requires HubInv(h) && ClaimNext(h, agent, t, t - lease).1.Some?
      && !ClaimNext(h, agent, t, t - lease).1.value.resumed
    requires Legal(ClaimNext(h, agent, t, t - lease).0, ops)
    ensures var (h1, got) := ClaimNext(h, agent, t, t - lease);
      var (h2, key) := (Run(h1, ops), JobKey(agent.scope, got.value.id));
      && key in h2.jobs
      && (h2.jobs[key].status.StatusRunning? ==>
            ClaimNext(h2, agent, t', t' - lease) == (h2,
              if t' < t + lease then None
              else Some(got.value.(lastSequence := h2.jobs[key].lastSequence, resumed := true))))
  {
    hide ClaimNext, Run, Legal, HubInv, Extends;
    FirstClaim(h, agent, t, t - lease);
    var (h1, got) := ClaimNext(h, agent, t, t - lease);
    var key, h2 := JobKey(agent.scope, got.value.id), Run(h1, ops);
    RunKeeps(h1, ops);
    StampStays(h1, h2, key);
    if h2.jobs[key].status.StatusRunning? { NextClaim(h2, agent, key, t', t' - lease); }
  }

  lemma FirstClaim(h: Hub, agent: Agent, t: Time, resumeBefore: Time)
    requires HubInv(h) && ClaimNext(h, agent, t, resumeBefore).1.Some?
      && !ClaimNext(h, agent, t, resumeBefore).1.value.resumed
    ensures var (h1, got) := ClaimNext(h, agent, t, resumeBefore);
      var key := JobKey(agent.scope, got.value.id);
      && HubInv(h1) && key in h1.jobs && key in h1.events && h1.jobs[key] == got.value && Owned(got.value, agent)
      && got.value.status.StatusRunning? && |h1.events[key]| == 2 && h1.events[key][1].occurredAt == t
  {
    hide ClaimNext, LogShape;
    ClaimIsExact(h, agent, t, resumeBefore);
    var key := JobKey(agent.scope, ClaimNext(h, agent, t, resumeBefore).1.value.id);
    assert JobInv(h.jobs[key], h.events[key], key);
  }

  lemma StampStays(h: Hub, h': Hub, key: JobKey)
    requires Keeps(h, h') && HubInv(h) && HubInv(h') && key in h.jobs && |h.events[key]| >= 2
    ensures key in h'.jobs && |h'.events[key]| >= 2 && h'.events[key][1] == h.events[key][1]
    ensures SameOrder(h.jobs[key], h'.jobs[key])
  {
    assert h.events[key] <= h'.events[key];
  }

  /** A claim while the job runs, by the stamp of its first claim. */
  lemma NextClaim(h: Hub, agent: Agent, key: JobKey, at: Time, resumeBefore: Time)
    requires HubInv(h) && key in h.jobs && Owned(h.jobs[key], agent) && key.scope == agent.scope
      && h.jobs[key].status.StatusRunning? && |h.events[key]| >= 2
    ensures ClaimNext(h, agent, at, resumeBefore) ==
      (h, if h.events[key][1].occurredAt > resumeBefore then None else Some(h.jobs[key].(resumed := true)))
  {
    hide ClaimNext, LogShape;
    assert Candidate(h.jobs[key], agent, StatusRunning);
    var k := ClaimWhileRunning(h, agent, at, resumeBefore);
    assert key in WithStatus(h, agent, StatusRunning);
  }

  // ---------------------------------------------------------------- from creation to claim

  /** The one open job of its agent is this, waiting. */
  ghost predicate OnlyWaits(h: Hub, key: JobKey, job: Job) {
    && key in h.jobs && h.jobs[key] == job && job.status.StatusQueued? && job.scope == key.scope && job.id == key.id
    && forall k | k in h.jobs && k != key && Owned(h.jobs[k], Agent(job.agentId, job.scope)) ::
         !h.jobs[k].status.StatusQueued? && !h.jobs[k].status.StatusRunning?
  }

  /** Not a claim by this agent, nor a job for it. */
  predicate Elsewhere(op: Operation, agent: Agent) {
    match op
    case Create(job, _) => !Owned(job, agent)
    case Claim(other, _, _) => other != agent
    case ReportOp(_, _, _, _) => true
  }

  lemma WaitsOn(h: Hub, key: JobKey, job: Job, op: Operation)
    requires HubInv(h) && Enabled(h, op) && OnlyWaits(h, key, job) && Elsewhere(op, Agent(job.agentId, job.scope))
    ensures OnlyWaits(Apply(h, op), key, job)
  {
    hide HubInv, ClaimNext, ReportNormalized, TrimSpace, Drafted;
    match op
    case Create(_, _) =>
    case Claim(other, at, resumeBefore) => ClaimChanges(h, other, at, resumeBefore);
    case ReportOp(other, jobId, request, at) =>
      ReportChanges(h, other, TrimSpace(jobId), Normalized(request), at);
  }

  lemma {:induction false} StillWaits(h: Hub, key: JobKey, job: Job, ops: seq<Operation>)
    requires HubInv(h) && Legal(h, ops) && OnlyWaits(h, key, job)
    requires forall i | 0 <= i < |ops| :: Elsewhere(ops[i], Agent(job.agentId, job.scope))
    ensures OnlyWaits(Run(h, ops), key, job)
  {
    hide HubInv, OnlyWaits, Apply, Enabled, Elsewhere;
    if ops != [] {
      var n := |ops| - 1;
      StillWaits(h, key, job, ops[..n]);
      RunKeeps(h, ops[..n]);
      WaitsOn(Run(h, ops[..n]), key, job, ops[n]);
    }
  }

  lemma ItsTurn(h: Hub, key: JobKey, job: Job, at: Time, resumeBefore: Time)
    requires HubInv(h) && OnlyWaits(h, key, job) && !job.resumed
    ensures ClaimNext(h, Agent(job.agentId, job.scope), at, resumeBefore).1
      == Some(job.(status := StatusRunning, lastSequence := 1))
  {
    hide ClaimNext, LogShape;
    var agent := Agent(job.agentId, job.scope);
    ClaimIsExact(h, agent, at, resumeBefore);
    assert WithStatus(h, agent, StatusRunning) == {} && WithStatus(h, agent, StatusQueued) == {key};
  }

  /** Round trip: a job created for an agent without open jobs is what this agent's next claim returns, as it was
      ordered, whatever goes on elsewhere in between. */
  lemma CreatedIsClaimed(
    h: Hub, scope: Scope, agentId: Bytes, request: CreateRequest, hostExists: Result<bool>, id: Bytes, key: Bytes,
    now: Time, ops: seq<Operation>, at: Time, resumeBefore: Time)
    requires HubInv(h) && Draft(scope, agentId, request, hostExists, Ok(id), key, now).Ok?
    requires JobKey(scope, id) !in h.jobs
    requires forall k | k in h.jobs && Owned(h.jobs[k], Agent(TrimSpace(agentId), scope)) ::
      !h.jobs[k].status.StatusQueued? && !h.jobs[k].status.StatusRunning?
    requires var (job, event) := Draft(scope, agentId, request, hostExists, Ok(id), key, now).value;
      Legal(CreateJob(h, job, event), ops)
    requires forall i | 0 <= i < |ops| :: Elsewhere(ops[i], Agent(TrimSpace(agentId), scope))
    ensures
      var (job, event) := Draft(scope, agentId, request, hostExists, Ok(id), key, now).value;
      var target, who, reason := TrimSpace(request.target), TrimSpace(request.approvedBy), TrimSpace(request.reason);
      var payload := PayloadV2(id, scope, TrimSpace(agentId), request.action, target, who, reason, now - now % 1000);
      ClaimNext(Run(CreateJob(h, job, event), ops), Agent(TrimSpace(agentId), scope), at, resumeBefore).1
        == Some(Job(id, scope, TrimSpace(agentId), request.action, target, who, reason, now - now % 1000,
                    StatusRunning, 1, Signature(key, payload), key, false))
  {
    hide TrimSpace, Draft, HubInv, Run, Legal, ClaimNext, Permitted, Elsewhere, Drafted;
    var (job, event) := Draft(scope, agentId, request, hostExists, Ok(id), key, now).value;
    CreatedExactly(scope, agentId, request, hostExists, Ok(id), key, now);
    DraftIsDrafted(scope, agentId, request, hostExists, Ok(id), key, now);
    CreateExtends(h, job, event);
    var h1 := CreateJob(h, job, event);
    StillWaits(h1, JobKey(scope, id), job, ops);
    RunKeeps(h1, ops);
    ItsTurn(Run(h1, ops), JobKey(scope, id), job, at, resumeBefore);
  }

  // ---------------------------------------------------------------- reporting

  /** What a report of a valid agent does, by the texts it gives and what the log holds. */
  lemma ReportedExactly(h: Hub, agent: Agent, jobId: Bytes, request: EventRequest, at: Time)
    requires HubInv(h)
    ensures
      var (id, message) := (TrimSpace(jobId), TrimSpace(request.message));
      var key := JobKey(agent.scope, id);
      var (h', r) := Report(h, agent, jobId, request, at);
      if id == [] || request.sequence < 2 || message == [] || |message| > 32768
        || request.typ.EventApproved? || request.typ.EventClaimed? then h' == h && r == Err(ErrInvalidJob)
      else if key !in h.jobs || h.jobs[key].agentId != agent.id then h' == h && r == Err(ErrJobNotFound)
      else
        var (job, log) := (h.jobs[key], h.events[key]);
        var event := Event(id, agent.scope, request.sequence, request.typ, message, Ascii("agent:") + agent.id, at);
        var next := job.(lastSequence := request.sequence,
          status := match request.typ
            case EventSucceeded => StatusSucceeded
            case EventFailed => StatusFailed
            case _ => StatusRunning);
        if request.sequence < |log| && log[request.sequence].typ == request.typ
          && log[request.sequence].message == message then h' == h && r == Ok(job)
        else if request.sequence == |log| && job.status.StatusRunning? then
          h' == Hub(h.jobs[key := next], h.events[key := log + [event]]) && r == Ok(next)
        else h' == h && r == Err(ErrJobConflict)
  {
    hide TrimSpace, Ascii;
    var key := JobKey(agent.scope, TrimSpace(jobId));
    if key in h.jobs {
      assert JobInv(h.jobs[key], h.events[key], key) && LogOf(h, key) == h.events[key];
      FindBySequence(h.events[key], key, Normalized(request));
    }
  }

  // ---------------------------------------------------------------- where the log comes from

  /** The operation that wrote this event as number `n` of the job's log. */
  predicate Wrote(op: Operation, key: JobKey, agentId: Bytes, n: nat, event: Event) {
    match op
    case Create(job, first) => JobKey(job.scope, job.id) == key && job.agentId == agentId && n == 0 && event == first
    case Claim(agent, at, _) =>
      && agent == Agent(agentId, key.scope) && n == 1
      && event == Event(key.id, key.scope, 1, EventClaimed, Ascii("agent claimed job"), Ascii("agent:") + agentId, at)
    case ReportOp(agent, jobId, request, at) =>
      && agent == Agent(agentId, key.scope) && TrimSpace(jobId) == key.id && n >= 2 && request.sequence == n
      && event == Event(key.id, key.scope, n, request.typ, TrimSpace(request.message), Ascii("agent:") + agentId, at)
  }

  lemma WritesOne(h: Hub, op: Operation, key: JobKey, n: nat)
    requires HubInv(h) && Enabled(h, op) && key in Apply(h, op).events && n < |Apply(h, op).events[key]|
    ensures var h' := Apply(h, op);
      && key in h'.jobs
      && ((key in h.events && n < |h.events[key]| && h'.events[key][n] == h.events[key][n])
          || Wrote(op, key, h'.jobs[key].agentId, n, h'.events[key][n]))
  {
    hide HubInv, ClaimNext, ReportNormalized, TrimSpace, Ascii, Drafted, Extends;
    OperationKeeps(h, op);
    SameKeys(Apply(h, op));
    match op
    case Create(_, _) =>
    case Claim(agent, at, resumeBefore) => ClaimWrites(h, agent, at, resumeBefore, key, n);
    case ReportOp(agent, jobId, request, at) =>
      ReportWrites(h, agent, TrimSpace(jobId), Normalized(request), at, key, n);
  }

  lemma SameKeys(h: Hub)
    requires HubInv(h)
    ensures h.jobs.Keys == h.events.Keys
  {}

  lemma ClaimWrites(h: Hub, agent: Agent, at: Time, resumeBefore: Time, key: JobKey, n: nat)
    requires HubInv(h)
    ensures var h' := ClaimNext(h, agent, at, resumeBefore).0;
      key in h'.events && n < |h'.events[key]| ==>
        && key in h'.jobs
        && ((key in h.events && n < |h.events[key]| && h'.events[key][n] == h.events[key][n])
            || (h'.jobs[key].agentId == agent.id && key.scope == agent.scope && n == 1
                && h'.events[key][n] == Event(key.id, key.scope, 1, EventClaimed, Ascii("agent claimed job"),
                                              Ascii("agent:") + agent.id, at)))
  {
    hide ClaimNext, Ascii, LogShape;
    ClaimChanges(h, agent, at, resumeBefore);
  }

  lemma ReportWrites(h: Hub, agent: Agent, jobId: Bytes, request: EventRequest, at: Time, key: JobKey, n: nat)
    requires HubInv(h)
    ensures var h' := ReportNormalized(h, agent, jobId, request, at).0;
      key in h'.events && n < |h'.events[key]| ==>
        && key in h'.jobs
        && ((key in h.events && n < |h.events[key]| && h'.events[key][n] == h.events[key][n])
            || (h'.jobs[key].agentId == agent.id && key == JobKey(agent.scope, jobId) && n == request.sequence >= 2
                && h'.events[key][n] == Event(key.id, key.scope, n, request.typ, request.message,
                                              Ascii("agent:") + agent.id, at)))
  {
    hide ReportNormalized, Ascii, LogShape;
    ReportChanges(h, agent, jobId, request, at);
  }

  /** Every event of a reachable store was written by an operation of the run: the approval by the job's creation, the
      claim by a claim of the job's own agent, the rest by its reports, each with that agent as actor, the text it
      reported, and the time of that operation. */
  lemma {:induction false} EventsComeFromOperations(ops: seq<Operation>, key: JobKey, n: nat)
    requires Legal(EMPTY_HUB, ops)
    requires key in Run(EMPTY_HUB, ops).events && n < |Run(EMPTY_HUB, ops).events[key]|
    ensures var h := Run(EMPTY_HUB, ops);
      key in h.jobs && exists i | 0 <= i < |ops| :: Wrote(ops[i], key, h.jobs[key].agentId, n, h.events[key][n])
  {
    hide HubInv, Apply, Enabled, Wrote, Extends;
    if ops != [] {
      var m := |ops| - 1;
      var h := Run(EMPTY_HUB, ops[..m]);
      EmptyHubInv();
      RunKeeps(EMPTY_HUB, ops[..m]);
      OperationKeeps(h, ops[m]);
      WritesOne(h, ops[m], key, n);
      if !Wrote(ops[m], key, Run(EMPTY_HUB, ops).jobs[key].agentId, n, Run(EMPTY_HUB, ops).events[key][n]) {
        EventsComeFromOperations(ops[..m], key, n);
        var i :| 0 <= i < m && Wrote(ops[..m][i], key, h.jobs[key].agentId, n, h.events[key][n]);
        assert ops[i] == ops[..m][i];
      }
    }
  }
}
