/** internal/jobs/jobs.go: the job records, and the store's transactions as functions on its two maps. */
module Jobs {
  import opened Wrappers
  import opened Text
  import opened Tenancy
  import opened Order
  import opened Clock

  datatype Action = ServiceRestart | HostReboot | OtherAction(name: Bytes)
  datatype Status = StatusQueued | StatusRunning | StatusSucceeded | StatusFailed
  datatype EventType = EventApproved | EventClaimed | EventOutput | EventSucceeded | EventFailed

  /** What a signature covers; the legacy form leaves the scope out. */
  datatype Payload =
    | PayloadV1(id: Bytes, agentId: Bytes, action: Action, target: Bytes, approvedBy: Bytes, reason: Bytes,
      requestedAt: Time)
    | PayloadV2(id: Bytes, scope: Scope, agentId: Bytes, action: Action, target: Bytes, approvedBy: Bytes,
      reason: Bytes, requestedAt: Time)

  /** An ideal signature: it verifies under exactly the key and payload it was made with. */
  datatype Signature = Signature(key: Bytes, payload: Payload)

  datatype Job = Job(
    id: Bytes, scope: Scope, agentId: Bytes, action: Action, target: Bytes, approvedBy: Bytes, reason: Bytes,
    requestedAt: Time, status: Status, lastSequence: nat, signature: Signature, signingKey: Bytes, resumed: bool)

  datatype EventRequest = EventRequest(sequence: nat, typ: EventType, message: Bytes)

  datatype Event = Event(
    jobId: Bytes, scope: Scope, sequence: nat, typ: EventType, message: Bytes, actor: Bytes, occurredAt: Time)

  datatype JobKey = JobKey(scope: Scope, id: Bytes)

  /** The two maps of the store. */
  datatype Hub = Hub(jobs: map<JobKey, Job>, events: map<JobKey, seq<Event>>)

  const EMPTY_HUB := Hub(map[], map[])

  predicate Terminal(typ: EventType) { typ.EventSucceeded? || typ.EventFailed? }

  function AgentActor(id: Bytes): Bytes { Ascii("agent:") + id }

  // ---------------------------------------------------------------- creation

  predicate TargetChar(b: byte) {
    'A' as int <= b <= 'Z' as int || 'a' as int <= b <= 'z' as int || '0' as int <= b <= '9' as int
    || b == '_' as int || b == '.' as int || b == '@' as int || b == ':' as int || b == '-' as int
  }

  predicate ServiceTarget(target: Bytes) {
    target != [] && (forall b | b in target :: TargetChar(b)) && target[0] != '-' as int
  }

  predicate ValidActionTarget(action: Action, target: Bytes) {
    (action.ServiceRestart? && ServiceTarget(target)) || (action.HostReboot? && target == [])
  }

  datatype CreateRequest = CreateRequest(action: Action, target: Bytes, approvedBy: Bytes, reason: Bytes)

  function PayloadOf(job: Job): Payload {
    PayloadV2(job.id, job.scope, job.agentId, job.action, job.target, job.approvedBy, job.reason, job.requestedAt)
  }

  function LegacyPayloadOf(job: Job): Payload {
    PayloadV1(job.id, job.agentId, job.action, job.target, job.approvedBy, job.reason, job.requestedAt)
  }

  /** The record `Service.Create` signs and stores, or the reason it refuses. `hostExists` is what the host checker
      answers, `id` what drawing a new ID yields; either may fail. */
  function Draft(
    scope: Scope, agentId: Bytes, request: CreateRequest, hostExists: Result<bool>, id: Result<Bytes>, key: Bytes,
      now: Time)
    : (r: Result<(Job, Event)>)
  {
    var agentId, request := TrimSpace(agentId), CreateRequest(
      request.action, TrimSpace(request.target), TrimSpace(request.approvedBy), TrimSpace(request.reason));
    if !scope.Valid() then Err(ErrInvalidScope)
    else if !ValidRequest(agentId, request) then Err(ErrInvalidJob)
    else if hostExists.Err? then Err(hostExists.error)
    else if !hostExists.value then Err(ErrJobNotFound)
    else if id.Err? then Err(id.error)
    else Ok(NewJob(scope, agentId, request, id.value, key, TruncateMicro(now)))
  }

  predicate ValidRequest(agentId: Bytes, request: CreateRequest) {
    && agentId != [] && request.approvedBy != [] && request.reason != []
    && |request.approvedBy| <= 128 && |request.reason| <= 1024 && |request.target| <= 256
    && ValidActionTarget(request.action, request.target)
  }

  function NewJob(scope: Scope, agentId: Bytes, r: CreateRequest, id: Bytes, key: Bytes, at: Time): (Job, Event) {
    var payload := PayloadV2(id, scope, agentId, r.action, r.target, r.approvedBy, r.reason, at);
    (Job(id, scope, agentId, r.action, r.target, r.approvedBy, r.reason, at, StatusQueued, 0, Signature(key, payload),
      key, false),
     Event(id, scope, 0, EventApproved, r.reason, r.approvedBy, at))
  }

  function CreateJob(h: Hub, job: Job, event: Event): Hub {
    var key := JobKey(job.scope, job.id);
    Hub(h.jobs[key := job], h.events[key := [event]])
  }

  function Verify(job: Job): bool {
    job.signature.key == job.signingKey
    && (job.signature.payload == PayloadOf(job)
        || (job.scope == DEFAULT_SCOPE && job.signature.payload == LegacyPayloadOf(job)))
  }

  // ---------------------------------------------------------------- claiming

  predicate Candidate(job: Job, agent: Agent, status: Status) {
    job.agentId == agent.id && job.scope == agent.scope && job.status == status
  }

  /** The queue order: request time, then ID. */
  predicate Before(a: Job, b: Job) {
    a.requestedAt < b.requestedAt || (a.requestedAt == b.requestedAt && LexLess(a.id, b.id))
  }

  /** `selected` is a candidate among `keys` that no other candidate precedes. */
  ghost predicate IsLeast(jobs: map<JobKey, Job>, keys: set<JobKey>, agent: Agent, status: Status,
      selected: Option<Job>)
    requires keys <= jobs.Keys
  {
    match selected
    case None => forall k | k in keys :: !Candidate(jobs[k], agent, status)
    case Some(job) =>
      && Candidate(job, agent, status)
      && (exists k | k in keys :: jobs[k] == job)
      && forall k | k in keys && Candidate(jobs[k], agent, status) :: !Before(jobs[k], job)
  }

  /** What one round of the selection loop keeps. */
  function Better(selected: Option<Job>, candidate: Job, agent: Agent, status: Status): Option<Job> {
    if !Candidate(candidate, agent, status) then selected
    else if selected.None? || Before(candidate, selected.value) then Some(candidate)
    else selected
  }

  lemma BeforeOrder(a: Job, b: Job, c: Job)
    ensures Before(a, b) && Before(b, c) ==> Before(a, c)
    ensures !(Before(a, b) && Before(b, a)) && !Before(a, a)
    ensures !Before(a, b) && !Before(b, a) ==> a.requestedAt == b.requestedAt && a.id == b.id
  {
    LexTotal(a.id, b.id);
    LexTotal(a.id, a.id);
    if LexLess(a.id, b.id) && LexLess(b.id, c.id) { LexTransitive(a.id, b.id, c.id); }
  }

  lemma BetterIsLeast(jobs: map<JobKey, Job>, keys: set<JobKey>, k: JobKey, agent: Agent, status: Status,
      selected: Option<Job>)
    requires keys <= jobs.Keys && k in jobs && IsLeast(jobs, keys, agent, status, selected)
    ensures IsLeast(jobs, keys + {k}, agent, status, Better(selected, jobs[k], agent, status))
  {
    var next := Better(selected, jobs[k], agent, status);
    if next.Some? {
      forall o | o in keys + {k} && Candidate(jobs[o], agent, status) ensures !Before(jobs[o], next.value) {
        if selected.Some? {
          BeforeOrder(jobs[o], jobs[k], selected.value);
          BeforeOrder(jobs[k], jobs[k], selected.value);
        }
        BeforeOrder(jobs[o], jobs[k], jobs[k]);
      }
    }
  }

  /** The selection as a function. Any order of visiting the map gives it: `LeastIsUnique`. */
  ghost function Least(jobs: map<JobKey, Job>, keys: set<JobKey>, agent: Agent, status: Status): (r: Option<Job>)
    requires keys <= jobs.Keys
    ensures IsLeast(jobs, keys, agent, status, r)
  {
    if keys == {} then None
    else
      var k :| k in keys;
      var rest := Least(jobs, keys - {k}, agent, status);
      BetterIsLeast(jobs, keys - {k}, k, agent, status, rest);
      assert keys - {k} + {k} == keys;
      Better(rest, jobs[k], agent, status)
  }

  ghost predicate WellKeyed(jobs: map<JobKey, Job>) {
    forall k | k in jobs :: jobs[k].id == k.id && jobs[k].scope == k.scope
  }

  /** The order of map iteration cannot matter: two selections from the same map agree. */
  lemma LeastIsUnique(jobs: map<JobKey, Job>, keys: set<JobKey>, agent: Agent, status: Status, a: Option<Job>,
      b: Option<Job>)
    requires WellKeyed(jobs) && keys <= jobs.Keys
    requires IsLeast(jobs, keys, agent, status, a) && IsLeast(jobs, keys, agent, status, b)
    ensures a == b
  {
    if a.Some? && b.Some? {
      var ka :| ka in keys && jobs[ka] == a.value;
      var kb :| kb in keys && jobs[kb] == b.value;
      BeforeOrder(a.value, b.value, a.value);
      assert ka == kb;
    }
  }

  ghost function Select(h: Hub, agent: Agent, status: Status): (r: Option<Job>)
    ensures IsLeast(h.jobs, h.jobs.Keys, agent, status, r)
  {
    Least(h.jobs, h.jobs.Keys, agent, status)
  }

  function LogOf(h: Hub, key: JobKey): seq<Event> { if key in h.events then h.events[key] else [] }

  predicate Leased(log: seq<Event>, resumeBefore: Time) {
    exists i | 0 <= i < |log| :: log[i].typ.EventClaimed? && log[i].occurredAt > resumeBefore
  }

  function ClaimEvent(agent: Agent, id: Bytes, at: Time): Event {
    Event(id, agent.scope, 1, EventClaimed, Ascii("agent claimed job"), AgentActor(agent.id), at)
  }

  function Claimed(job: Job): Job { job.(status := StatusRunning, lastSequence := 1) }

  /** `ClaimNextJob` for a valid agent: new store and answer. */
  ghost function ClaimNext(h: Hub, agent: Agent, at: Time, resumeBefore: Time): (Hub, Option<Job>) {
    match Select(h, agent, StatusRunning)
    case Some(running) =>
      if Leased(LogOf(h, JobKey(agent.scope, running.id)), resumeBefore) then (h, None)
      else (h, Some(running.(resumed := true)))
    case None =>
      match Select(h, agent, StatusQueued)
      case None => (h, None)
      case Some(queued) =>
        var key, job := JobKey(agent.scope, queued.id), Claimed(queued);
        (Hub(h.jobs[key := job], h.events[key := LogOf(h, key) + [ClaimEvent(agent, queued.id, at)]]), Some(job))
  }

  // ---------------------------------------------------------------- reporting

  predicate Matches(event: Event, request: EventRequest) {
    event.sequence == request.sequence && event.typ == request.typ && event.message == request.message
  }

  function StatusAfter(status: Status, typ: EventType): Status {
    if typ.EventSucceeded? then StatusSucceeded else if typ.EventFailed? then StatusFailed else status
  }

  function ReportedEvent(agent: Agent, jobId: Bytes, request: EventRequest, at: Time): Event {
    Event(jobId, agent.scope, request.sequence, request.typ, request.message, AgentActor(agent.id), at)
  }

  /** `RecordJobEvent` for a valid agent. */
  function Record(h: Hub, agent: Agent, jobId: Bytes, request: EventRequest, at: Time): (Hub, Result<Job>) {
    var key := JobKey(agent.scope, jobId);
    if key !in h.jobs || h.jobs[key].agentId != agent.id then (h, Err(ErrJobNotFound))
    else
      var job, log := h.jobs[key], LogOf(h, key);
      if request.sequence <= job.lastSequence then
        if exists i | 0 <= i < |log| :: Matches(log[i], request) then (h, Ok(job)) else (h, Err(ErrJobConflict))
      else if job.status != StatusRunning || request.sequence != job.lastSequence + 1 then (h, Err(ErrJobConflict))
      else
        var next := job.(status := StatusAfter(job.status, request.typ), lastSequence := request.sequence);
        (Hub(h.jobs[key := next], h.events[key := log + [ReportedEvent(agent, jobId, request, at)]]), Ok(next))
  }

  predicate ValidReport(jobId: Bytes, request: EventRequest) {
    && jobId != [] && request.sequence >= 2 && 0 < |request.message| <= MESSAGE_LIMIT
    && !request.typ.EventApproved? && !request.typ.EventClaimed?
  }

  function Normalized(request: EventRequest): EventRequest { request.(message := TrimSpace(request.message)) }

  /** `Service.Report` for a valid agent: normalise, validate, record. */
  function Report(h: Hub, agent: Agent, jobId: Bytes, request: EventRequest, at: Time): (Hub, Result<Job>) {
    ReportNormalized(h, agent, TrimSpace(jobId), Normalized(request), at)
  }

  function ReportNormalized(h: Hub, agent: Agent, jobId: Bytes, request: EventRequest, at: Time): (Hub, Result<Job>) {
    if !ValidReport(jobId, request) then (h, Err(ErrInvalidJob)) else Record(h, agent, jobId, request, at)
  }

  // ---------------------------------------------------------------- what every reachable store satisfies

  function StatusOf(log: seq<Event>): Status
    requires log != []
  {
    if |log| == 1 then StatusQueued else StatusAfter(StatusRunning, log[|log| - 1].typ)
  }

  /** A log reads approved, claimed, output*, and then at most one terminal event; what was reported has a message. */
  predicate LogShape(log: seq<Event>, key: JobKey) {
    && log != []
    && (forall i | 0 <= i < |log| ::
          && log[i].sequence == i && log[i].jobId == key.id && log[i].scope == key.scope
          && (log[i].typ.EventApproved? <==> i == 0)
          && (log[i].typ.EventClaimed? <==> i == 1)
          && (Terminal(log[i].typ) ==> i == |log| - 1)
          && (i >= 2 ==> 0 < |log[i].message| <= MESSAGE_LIMIT))
  }

  predicate JobInv(job: Job, log: seq<Event>, key: JobKey) {
    && job.id == key.id && job.scope == key.scope && !job.resumed
    && LogShape(log, key)
    && job.lastSequence == |log| - 1
    && job.status == StatusOf(log)
  }

  ghost predicate OneRunning(h: Hub) {
    forall a, b | a in h.jobs && b in h.jobs && h.jobs[a].status.StatusRunning? && h.jobs[b].status.StatusRunning?
      && h.jobs[a].agentId == h.jobs[b].agentId && h.jobs[a].scope == h.jobs[b].scope :: a == b
  }

  ghost predicate HubInv(h: Hub) {
    && h.jobs.Keys == h.events.Keys
    && (forall k | k in h.jobs :: JobInv(h.jobs[k], h.events[k], k))
    && OneRunning(h)
  }

  /** One transaction. A created job's ID is new (`newID` draws 128 random bits). */
  datatype Operation =
    | Create(job: Job, event: Event)
    | Claim(agent: Agent, at: Time, resumeBefore: Time)
    | ReportOp(agent: Agent, jobId: Bytes, request: EventRequest, at: Time)

  ghost predicate Drafted(job: Job, event: Event) {
    exists scope, agentId, request, id, key, at ::
      ValidRequest(agentId, request) && (job, event) == NewJob(scope, agentId, request, id, key, at)
  }

  ghost predicate Enabled(h: Hub, op: Operation) {
    op.Create? ==> Drafted(op.job, op.event) && JobKey(op.job.scope, op.job.id) !in h.jobs
  }

  ghost function Apply(h: Hub, op: Operation): Hub {
    match op
    case Create(job, event) => CreateJob(h, job, event)
    case Claim(agent, at, resumeBefore) => ClaimNext(h, agent, at, resumeBefore).0
    case ReportOp(agent, jobId, request, at) => Report(h, agent, jobId, request, at).0
  }

  ghost function Run(h: Hub, ops: seq<Operation>): Hub {
    if ops == [] then h else Apply(Run(h, ops[..|ops| - 1]), ops[|ops| - 1])
  }

  ghost predicate Legal(h: Hub, ops: seq<Operation>) {
    ops == [] || (Legal(h, ops[..|ops| - 1]) && Enabled(Run(h, ops[..|ops| - 1]), ops[|ops| - 1]))
  }

  /** Logs only grow, and a finished job's record and log are frozen. */
  ghost predicate Extends(h: Hub, h': Hub) {
    && h.jobs.Keys <= h'.jobs.Keys && h.events.Keys <= h'.events.Keys && h.jobs.Keys == h.events.Keys
    && forall k | k in h.jobs ::
         && h.events[k] <= h'.events[k]
         && h.jobs[k].agentId == h'.jobs[k].agentId
         && (h.jobs[k].status.StatusSucceeded? || h.jobs[k].status.StatusFailed? ==>
               h'.jobs[k] == h.jobs[k] && h'.events[k] == h.events[k])
  }

  /** Replacing one job by a later version of itself keeps the invariant if it does not start a second
      running job. */
  lemma ExtendOne(h: Hub, key: JobKey, job: Job, log: seq<Event>)
    requires HubInv(h) && key in h.jobs
    requires JobInv(job, log, key) && h.events[key] <= log
    requires job.agentId == h.jobs[key].agentId && job.scope == h.jobs[key].scope
    requires h.jobs[key].status.StatusQueued? || h.jobs[key].status.StatusRunning?
    requires job.status.StatusRunning? && h.jobs[key].status.StatusQueued? ==>
      forall k | k in h.jobs && h.jobs[k].agentId == job.agentId && h.jobs[k].scope == job.scope ::
        !h.jobs[k].status.StatusRunning?
    ensures HubInv(Hub(h.jobs[key := job], h.events[key := log]))
    ensures Extends(h, Hub(h.jobs[key := job], h.events[key := log]))
  {
    hide JobInv;
    var h' := Hub(h.jobs[key := job], h.events[key := log]);
    forall k | k in h.jobs && k != key ensures h'.jobs[k] == h.jobs[k] && h'.events[k] == h.events[k] {}
    forall a, b | a in h'.jobs && b in h'.jobs && h'.jobs[a].status.StatusRunning? && h'.jobs[b].status.StatusRunning?
      && h'.jobs[a].agentId == h'.jobs[b].agentId && h'.jobs[a].scope == h'.jobs[b].scope
      ensures a == b
    {
      if a != key && b != key { assert h.jobs[a].status.StatusRunning? && h.jobs[b].status.StatusRunning?; }
    }
  }

  lemma DraftedJob(job: Job, event: Event)
    requires Drafted(job, event)
    ensures JobInv(job, [event], JobKey(job.scope, job.id)) && job.status.StatusQueued?
  {
    var scope, agentId, request, id, key, at :|
      ValidRequest(agentId, request) && (job, event) == NewJob(scope, agentId, request, id, key, at);
  }

  lemma DraftIsDrafted(
    scope: Scope, agentId: Bytes, request: CreateRequest, hostExists: Result<bool>, id: Result<Bytes>, key: Bytes,
      now: Time)
    requires Draft(scope, agentId, request, hostExists, id, key, now).Ok?
    ensures var (job, event) := Draft(scope, agentId, request, hostExists, id, key, now).value;
      && Drafted(job, event) && id == Ok(job.id) && job.scope == scope && event.scope == scope && scope.Valid()
      && job.signature == Signature(key, PayloadOf(job)) && job.signingKey == key
      && ValidActionTarget(job.action, job.target)
  {
    hide TrimSpace, ValidId, ServiceTarget, TruncateMicro;
    var request' := CreateRequest(request.action, TrimSpace(request.target), TrimSpace(request.approvedBy),
      TrimSpace(request.reason));
    assert ValidRequest(TrimSpace(agentId), request');
    assert Draft(scope, agentId, request, hostExists, id, key, now).value
        == NewJob(scope, TrimSpace(agentId), request', id.value, key, TruncateMicro(now));
  }

  lemma AddOne(h: Hub, job: Job, event: Event)
    requires HubInv(h) && JobKey(job.scope, job.id) !in h.jobs
    requires JobInv(job, [event], JobKey(job.scope, job.id)) && job.status.StatusQueued?
    ensures HubInv(CreateJob(h, job, event)) && Extends(h, CreateJob(h, job, event))
  {
    hide JobInv;
    var key, h' := JobKey(job.scope, job.id), CreateJob(h, job, event);
    assert h'.jobs.Keys == h.jobs.Keys + {key} == h'.events.Keys;
    forall k | k in h'.jobs ensures JobInv(h'.jobs[k], h'.events[k], k) {
      if k != key { assert h'.jobs[k] == h.jobs[k] && h'.events[k] == h.events[k]; }
    }
  }

  lemma CreateExtends(h: Hub, job: Job, event: Event)
    requires HubInv(h) && Enabled(h, Create(job, event))
    ensures HubInv(CreateJob(h, job, event)) && Extends(h, CreateJob(h, job, event))
  {
    DraftedJob(job, event);
    AddOne(h, job, event);
  }

  lemma SelectedKey(h: Hub, agent: Agent, status: Status)
    requires WellKeyed(h.jobs) && Select(h, agent, status).Some?
    ensures var job := Select(h, agent, status).value;
      var key := JobKey(agent.scope, job.id);
      key in h.jobs && h.jobs[key] == job && Candidate(job, agent, status)
  {
    var job := Select(h, agent, status).value;
    var k :| k in h.jobs && h.jobs[k] == job;
    assert k == JobKey(agent.scope, job.id);
  }

  lemma ClaimKeeps(h: Hub, agent: Agent, at: Time, resumeBefore: Time)
    requires HubInv(h)
    ensures HubInv(ClaimNext(h, agent, at, resumeBefore).0) && WellKeyed(h.jobs)
  {
    ClaimIsExact(h, agent, at, resumeBefore);
  }

  ghost function WithStatus(h: Hub, agent: Agent, status: Status): set<JobKey> {
    set k | k in h.jobs && Candidate(h.jobs[k], agent, status)
  }

  lemma ClaimWhileRunning(h: Hub, agent: Agent, at: Time, resumeBefore: Time) returns (key: JobKey)
    requires HubInv(h) && Select(h, agent, StatusRunning).Some?
    ensures WithStatus(h, agent, StatusRunning) == {key} && |h.events[key]| >= 2
    ensures ClaimNext(h, agent, at, resumeBefore) ==
      (h, if h.events[key][1].occurredAt > resumeBefore then None else Some(h.jobs[key].(resumed := true)))
  {
    SelectedKey(h, agent, StatusRunning);
    key := JobKey(agent.scope, Select(h, agent, StatusRunning).value.id);
    assert key in WithStatus(h, agent, StatusRunning);
    assert JobInv(h.jobs[key], h.events[key], key);
    assert Leased(h.events[key], resumeBefore) <==> h.events[key][1].occurredAt > resumeBefore;
  }

  lemma ClaimQueued(h: Hub, agent: Agent, at: Time, resumeBefore: Time) returns (key: JobKey)
    requires HubInv(h) && Select(h, agent, StatusRunning).None? && Select(h, agent, StatusQueued).Some?
    ensures WithStatus(h, agent, StatusRunning) == {} && key in WithStatus(h, agent, StatusQueued)
    ensures key.scope == agent.scope
    ensures forall k | k in WithStatus(h, agent, StatusQueued) && k != key :: Before(h.jobs[key], h.jobs[k])
    ensures var (h', got) := ClaimNext(h, agent, at, resumeBefore);
      && got == Some(Claimed(h.jobs[key])) && HubInv(h') && Extends(h, h')
      && h'.jobs == h.jobs[key := Claimed(h.jobs[key])]
      && h'.events == h.events[key := h.events[key] + [ClaimEvent(agent, key.id, at)]]
  {
    SelectedKey(h, agent, StatusQueued);
    key := JobKey(agent.scope, Select(h, agent, StatusQueued).value.id);
    assert JobInv(h.jobs[key], h.events[key], key);
    ExtendOne(h, key, Claimed(h.jobs[key]), h.events[key] + [ClaimEvent(agent, key.id, at)]);
    forall k | k in WithStatus(h, agent, StatusQueued) && k != key ensures Before(h.jobs[key], h.jobs[k]) {
      BeforeOrder(h.jobs[k], h.jobs[key], h.jobs[k]);
    }
  }

  lemma ExtendsReflexive(h: Hub)
    requires HubInv(h)
    ensures Extends(h, h)
  {}

  /** A claim, spelled out: it hands out the first queued job exactly when none is running; otherwise the
      running job, marked resumed, once its only claim is a lease old, and then the store is untouched. */
  lemma ClaimIsExact(h: Hub, agent: Agent, at: Time, resumeBefore: Time)
    requires HubInv(h)
    ensures var (h', got) := ClaimNext(h, agent, at, resumeBefore);
      var running, queued := WithStatus(h, agent, StatusRunning), WithStatus(h, agent, StatusQueued);
      && HubInv(h') && Extends(h, h')
      && (got.Some? && !got.value.resumed <==> running == {} && queued != {})
      && (got.Some? && !got.value.resumed ==>
            var key := JobKey(agent.scope, got.value.id);
            && key in queued && got.value == Claimed(h.jobs[key])
            && (forall k | k in queued && k != key :: Before(h.jobs[key], h.jobs[k]))
            && h'.jobs == h.jobs[key := got.value]
            && h'.events == h.events[key := h.events[key] + [ClaimEvent(agent, key.id, at)]])
      && (got.Some? && got.value.resumed <==> exists k | k in running :: h.events[k][1].occurredAt <= resumeBefore)
      && (got.Some? && got.value.resumed ==>
            var key := JobKey(agent.scope, got.value.id);
            running == {key} && got.value == h.jobs[key].(resumed := true))
      && (got.None? || got.value.resumed ==> h' == h)
  {
    ExtendsReflexive(h);
    if Select(h, agent, StatusRunning).Some? {
      var key := ClaimWhileRunning(h, agent, at, resumeBefore);
    } else if Select(h, agent, StatusQueued).Some? {
      var key := ClaimQueued(h, agent, at, resumeBefore);
    }
  }

  /** What a claim can change at all: a queued job of the agent, by its claim event. */
  lemma ClaimChanges(h: Hub, agent: Agent, at: Time, resumeBefore: Time)
    requires HubInv(h)
    ensures HubInv(ClaimNext(h, agent, at, resumeBefore).0)
    ensures Select(h, agent, StatusRunning).None? && Select(h, agent, StatusQueued).None? ==>
      ClaimNext(h, agent, at, resumeBefore) == (h, None)
    ensures var (h', got) := ClaimNext(h, agent, at, resumeBefore);
      h' == h || (got.Some? && var key := JobKey(agent.scope, got.value.id);
        && key in h.jobs && key in h.events && Candidate(h.jobs[key], agent, StatusQueued) && |h.events[key]| == 1
        && h'.jobs == h.jobs[key := Claimed(h.jobs[key])]
        && h'.events == h.events[key := h.events[key] + [ClaimEvent(agent, key.id, at)]])
  {
    if Select(h, agent, StatusRunning).Some? {
      var key := ClaimWhileRunning(h, agent, at, resumeBefore);
    } else if Select(h, agent, StatusQueued).Some? {
      var key := ClaimQueued(h, agent, at, resumeBefore);
      assert JobInv(h.jobs[key], h.events[key], key);
    }
  }

  lemma RecordNext(h: Hub, agent: Agent, jobId: Bytes, request: EventRequest, at: Time)
    requires HubInv(h) && ValidReport(jobId, request)
    requires var key := JobKey(agent.scope, jobId);
      key in h.jobs && h.jobs[key].agentId == agent.id && h.jobs[key].status.StatusRunning?
        && request.sequence == |h.events[key]|
    ensures var key := JobKey(agent.scope, jobId);
      var (h', r) := Record(h, agent, jobId, request, at);
      && r.Ok? && HubInv(h') && Extends(h, h')
      && h'.events == h.events[key := h.events[key] + [ReportedEvent(agent, jobId, request, at)]]
      && h'.jobs == h.jobs[key := r.value] && r.value.agentId == agent.id
  {
    var key := JobKey(agent.scope, jobId);
    assert JobInv(h.jobs[key], h.events[key], key);
    var h' := Record(h, agent, jobId, request, at).0;
    ExtendOne(h, key, h'.jobs[key], h'.events[key]);
  }

  lemma FindBySequence(log: seq<Event>, key: JobKey, request: EventRequest)
    requires LogShape(log, key)
    ensures (exists i | 0 <= i < |log| :: Matches(log[i], request))
       <==> request.sequence < |log| && Matches(log[request.sequence], request)
  {}

  lemma RecordOther(h: Hub, agent: Agent, jobId: Bytes, request: EventRequest, at: Time)
    requires var key := JobKey(agent.scope, jobId);
      && key in h.jobs && h.jobs[key].agentId == agent.id && key in h.events && JobInv(h.jobs[key], h.events[key], key)
      && !(h.jobs[key].status.StatusRunning? && request.sequence == |h.events[key]|)
    ensures var log := h.events[JobKey(agent.scope, jobId)];
      var (h', r) := Record(h, agent, jobId, request, at);
      && h' == h && r != Err(ErrJobNotFound)
      && (r.Ok? <==> request.sequence < |log| && Matches(log[request.sequence], request))
  {
    var key := JobKey(agent.scope, jobId);
    FindBySequence(h.events[key], key, request);
    assert LogOf(h, key) == h.events[key];
  }

  /** Recording an event: a stored one is acknowledged again and changes nothing, the next one in sequence
      is appended while the job runs, and everything else is refused without effect. */
  lemma RecordIsExact(h: Hub, agent: Agent, jobId: Bytes, request: EventRequest, at: Time)
    requires HubInv(h) && ValidReport(jobId, request)
    ensures var key := JobKey(agent.scope, jobId);
      var (h', r) := Record(h, agent, jobId, request, at);
      && HubInv(h') && Extends(h, h')
      && (r == Err(ErrJobNotFound) <==> key !in h.jobs || h.jobs[key].agentId != agent.id)
      && (r != Err(ErrJobNotFound) ==>
            var log := h.events[key];
            var stored := request.sequence < |log| && Matches(log[request.sequence], request);
            var next := request.sequence == |log| && h.jobs[key].status.StatusRunning?;
            && (r.Ok? <==> stored || next)
            && (next ==> h'.events == h.events[key := log + [ReportedEvent(agent, jobId, request, at)]])
            && (!next ==> h' == h))
  {
    var key := JobKey(agent.scope, jobId);
    ExtendsReflexive(h);
    if key in h.jobs && h.jobs[key].agentId == agent.id {
      assert JobInv(h.jobs[key], h.events[key], key);
      if request.sequence == |h.events[key]| && h.jobs[key].status.StatusRunning? {
        RecordNext(h, agent, jobId, request, at);
      } else {
        RecordOther(h, agent, jobId, request, at);
      }
    }
  }

  /** What a report can change at all: the reporting agent's own job, by the next event. */
  lemma ReportChanges(h: Hub, agent: Agent, jobId: Bytes, request: EventRequest, at: Time)
    requires HubInv(h)
    ensures var (h', key) := (ReportNormalized(h, agent, jobId, request, at).0, JobKey(agent.scope, jobId));
      h' == h || (
        && key in h.jobs && key in h.events && key in h'.jobs && ValidReport(jobId, request)
        && h.jobs[key].agentId == agent.id == h'.jobs[key].agentId && h.jobs[key].status.StatusRunning?
        && h.jobs[key].scope == h'.jobs[key].scope && request.sequence == |h.events[key]|
        && h'.jobs == h.jobs[key := h'.jobs[key]]
        && h'.events == h.events[key := h.events[key] + [ReportedEvent(agent, jobId, request, at)]])
  {
    var key := JobKey(agent.scope, jobId);
    if key in h.jobs { assert JobInv(h.jobs[key], h.events[key], key); }
  }

  lemma ReportExtends(h: Hub, agent: Agent, jobId: Bytes, request: EventRequest, at: Time)
    requires HubInv(h)
    ensures HubInv(ReportNormalized(h, agent, jobId, request, at).0)
    ensures Extends(h, ReportNormalized(h, agent, jobId, request, at).0)
  {
    if ValidReport(jobId, request) {
      RecordIsExact(h, agent, jobId, request, at);
    } else {
      ExtendsReflexive(h);
    }
  }

  lemma ApplyExtends(h: Hub, op: Operation)
    requires HubInv(h) && Enabled(h, op)
    ensures HubInv(Apply(h, op)) && Extends(h, Apply(h, op))
  {
    match op
    case Create(job, event) => CreateExtends(h, job, event);
    case Claim(agent, at, resumeBefore) => ClaimIsExact(h, agent, at, resumeBefore);
    case ReportOp(agent, jobId, request, at) => ReportExtends(h, agent, TrimSpace(jobId), Normalized(request), at);
  }

  lemma ExtendsTransitive(a: Hub, b: Hub, c: Hub)
    requires Extends(a, b) && Extends(b, c)
    ensures Extends(a, c)
  {}

  lemma EmptyHubInv()
    ensures HubInv(EMPTY_HUB)
  {}

  /** Every reachable store: sequences are exactly 0..lastSequence, types read approved, claimed, output*,
      terminal?, the status is a function of the log, at most one job runs per agent, logs only grow, and
      nothing changes a finished job. `n` is any earlier point of the run. */
  lemma {:induction false} ReachableStore(ops: seq<Operation>, n: nat)
    requires n <= |ops| && Legal(EMPTY_HUB, ops)
    ensures Legal(EMPTY_HUB, ops[..n])
    ensures HubInv(Run(EMPTY_HUB, ops)) && Extends(Run(EMPTY_HUB, ops[..n]), Run(EMPTY_HUB, ops))
  {
    hide HubInv, Extends, Apply, Enabled;
    EmptyHubInv();
    if ops == [] {
      ExtendsReflexive(EMPTY_HUB);
    } else {
      var m := |ops| - 1;
      ReachableStore(ops[..m], if n <= m then n else m);
      ApplyExtends(Run(EMPTY_HUB, ops[..m]), ops[m]);
      if n <= m {
        assert ops[..m][..n] == ops[..n];
        ExtendsTransitive(Run(EMPTY_HUB, ops[..n]), Run(EMPTY_HUB, ops[..m]), Run(EMPTY_HUB, ops));
      } else {
        assert ops[..n] == ops;
        ExtendsReflexive(Run(EMPTY_HUB, ops));
      }
    }
  }
}
