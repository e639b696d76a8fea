/** The remote job protocol as a step system: one agent process with its durable cell, the hub with all its
    other agents, and a network that may lose, delay, duplicate and reorder what the agent sends. The agent
    may stop between any two statements, and any durable write or request may fail. */
module JobProtocol {
  import opened Wrappers
  import opened Text
  import opened Tenancy
  import opened Clock
  import opened Runs
  import opened Jobs
  import opened JobExecution

  /** internal/agent/job_state.go: the durable record, one file replaced atomically. */
  datatype Phase = Executing | Completed
  datatype JobState = JobState(job: Job, phase: Phase, events: seq<EventRequest>)

  /** Where the agent process stands inside `ProcessNext`. */
  datatype Pc =
    | Idle                                                 // between calls, or restarted
    | Claiming                                             // claim request sent
    | GotClaim(job: Job)                                   // claim answered
    | Saved(job: Job)                                      // phase "executing" is durable
    | Running(job: Job)                                    // the platform action has been started
    | Ran(job: Job, events: seq<EventRequest>)             // the events to report are known, in memory only
    | Flushing(job: Job, events: seq<EventRequest>)        // phase "completed" is durable, head of the loop
    | Posting(job: Job, events: seq<EventRequest>)         // first event sent
    | Acked(job: Job, events: seq<EventRequest>)           // first event acknowledged

  datatype Request = Request(jobId: Bytes, event: EventRequest)

  /** `lists`, `runs` and `outcomes` record, per job, each completed event list ever saved, how often the
      platform action was started, and for each return of it whether there was no error. */
  datatype System = System(
    hub: Hub, disk: Option<JobState>, pc: Pc, sent: set<Request>, claimSent: bool, clock: Time,
    lists: map<Bytes, seq<seq<EventRequest>>>, runs: map<Bytes, nat>, outcomes: map<Bytes, seq<bool>>)

  /** `does` is what the protocol takes from the texts and the executor; `JobExecution.Actual` is the one in use. */
  datatype Config = Config(agent: Agent, lease: int, does: Behaviour) {
    function Key(id: Bytes): JobKey { JobKey(agent.scope, id) }
    function Wired(e: EventRequest): EventRequest { e.(message := does.wire(e.message)) }
  }

  function Lists(s: System, id: Bytes): seq<seq<EventRequest>> { if id in s.lists then s.lists[id] else [] }
  function RunsOf(s: System, id: Bytes): nat { if id in s.runs then s.runs[id] else 0 }
  function Outcomes(s: System, id: Bytes): seq<bool> { if id in s.outcomes then s.outcomes[id] else [] }

  /** JSON transport, and the JSON file, of events. */
  function WireAll(c: Config, events: seq<EventRequest>): (r: seq<EventRequest>)
    ensures |r| == |events| && forall i | 0 <= i < |r| :: r[i] == c.Wired(events[i])
  {
    seq(|events|, i requires 0 <= i < |events| => c.Wired(events[i]))
  }

  const INITIAL := System(EMPTY_HUB, None, Idle, {}, false, 0, map[], map[], map[])

  // ---------------------------------------------------------------- steps

  datatype Move =
    | BeginRecover              // a completed state is on disk: flush it
    | BeginInterrupted          // an executing state is on disk: turn it into a failure, durably
    | BeginClaim
    | ClaimReply
    | Decline                   // refuse the job, or fail a resumed one
    | SaveExecuting
    | Start
    | Finish(outcome: Outcome)
    | SaveResult
    | Post
    | PostReply
    | SaveRest
    | Delete
    | Abandon                   // crash, or any error `ProcessNext` returns with
    | Tick(delay: nat)
    | Redeliver(request: Request)
    | LateClaim
    | OperatorCreates(job: Job, event: Event)
    | OtherClaims(other: Agent)
    | OtherReports(other: Agent, jobId: Bytes, report: EventRequest)

  /** The state on disk is this agent's and in this phase. */
  predicate Holds(c: Config, disk: Option<JobState>, phase: Phase) {
    disk.Some? && disk.value.phase == phase && disk.value.job.agentId == c.agent.id && HexId(disk.value.job.id)
  }

  /** The completed list of a job becomes durable. */
  function Listed(c: Config, s: System, job: Job, events: seq<EventRequest>): System {
    s.(disk := Some(JobState(job, Completed, WireAll(c, events))), pc := Flushing(job, events),
       lists := s.lists[job.id := Lists(s, job.id) + [WireAll(c, events)]])
  }

  /** The hub handles a report of `agent`. */
  function Handled(c: Config, s: System, agent: Agent, jobId: Bytes, e: EventRequest): (Hub, Result<Job>) {
    ReportNormalized(s.hub, agent, c.does.trim(jobId), e.(message := c.does.trim(e.message)), s.clock)
  }

  function Deliver(c: Config, s: System, r: Request): (Hub, Result<Job>) { Handled(c, s, c.agent, r.jobId, r.event) }

  ghost function Answer(c: Config, s: System, agent: Agent): (Hub, Option<Job>) {
    ClaimNext(s.hub, agent, s.clock, s.clock - c.lease)
  }

  /** The request for the first pending event. */
  function Head(c: Config, pc: Pc): Request
    requires (pc.Flushing? || pc.Posting?) && pc.events != []
  {
    Request(pc.job.id, c.Wired(pc.events[0]))
  }

  ghost predicate Step(c: Config, s: System, m: Move, t: System) {
    match m
    case BeginRecover =>
      s.pc.Idle? && Holds(c, s.disk, Completed) && t == s.(pc := Flushing(s.disk.value.job, s.disk.value.events))
    case BeginInterrupted =>
      s.pc.Idle? && Holds(c, s.disk, Executing)
        && t == Listed(c, s, s.disk.value.job, c.does.interrupted(s.disk.value.job))
    case BeginClaim => s.pc.Idle? && s.disk.None? && t == s.(pc := Claiming, claimSent := true)
    case ClaimReply =>
      var (hub, got) := Answer(c, s, c.agent);
      s.pc.Claiming? && t == s.(
        hub := hub, pc := if got.Some? && HexId(got.value.id) then GotClaim(got.value) else Idle)
    case Decline =>
      s.pc.GotClaim? && c.does.declined(s.pc.job).Some? && t == s.(pc := Ran(s.pc.job, c.does.declined(s.pc.job).value))
    case SaveExecuting =>
      && s.pc.GotClaim? && c.does.declined(s.pc.job).None?
      && t == s.(disk := Some(JobState(s.pc.job, Executing, [])), pc := Saved(s.pc.job))
    case Start => s.pc.Saved?
      && t == s.(pc := Running(s.pc.job), runs := s.runs[s.pc.job.id := RunsOf(s, s.pc.job.id) + 1])
    case Finish(outcome) =>
      s.pc.Running? && t == s.(
        pc := Ran(s.pc.job, c.does.results(s.pc.job, outcome)),
        outcomes := s.outcomes[s.pc.job.id := Outcomes(s, s.pc.job.id) + [outcome.error.None?]])
    case SaveResult => s.pc.Ran? && t == Listed(c, s, s.pc.job, s.pc.events)
    case Post =>
      && s.pc.Flushing? && s.pc.events != []
      && t == s.(pc := Posting(s.pc.job, s.pc.events), sent := s.sent + {Head(c, s.pc)})
    case PostReply =>
      && s.pc.Posting? && s.pc.events != []
      && var (hub, reply) := Deliver(c, s, Head(c, s.pc));
         t == s.(hub := hub, pc := if reply.Ok? then Acked(s.pc.job, s.pc.events) else Idle)
    case SaveRest =>
      && s.pc.Acked? && |s.pc.events| > 1
      && t == s.(disk := Some(JobState(s.pc.job, Completed, WireAll(c, s.pc.events[1..]))),
        pc := Flushing(s.pc.job, s.pc.events[1..]))
    case Delete => s.pc.Acked? && |s.pc.events| == 1 && t == s.(disk := None, pc := Idle)
    case Abandon => t == s.(pc := Idle)
    case Tick(delay) => t == s.(clock := s.clock + delay)
    case Redeliver(r) => r in s.sent && t == s.(hub := Deliver(c, s, r).0)
    case LateClaim => s.claimSent && t == s.(hub := Answer(c, s, c.agent).0)
    case OperatorCreates(job, event) =>
      Drafted(job, event) && HexId(job.id) && JobKey(job.scope, job.id) !in s.hub.jobs
        && t == s.(hub := CreateJob(s.hub, job, event))
    case OtherClaims(other) => other != c.agent && t == s.(hub := Answer(c, s, other).0)
    case OtherReports(other, jobId, report) => other != c.agent && t == s.(hub := Handled(c, s, other, jobId, report).0)
  }

  ghost function Steps(c: Config): (System, Move, System) -> bool {
    (s: System, m: Move, t: System) => Step(c, s, m, t)
  }

  ghost predicate Reachable(c: Config, s: System) { Reaches(Steps(c), INITIAL, s) }

  // ---------------------------------------------------------------- what the behaviour keeps to

  predicate OneFailure(events: seq<EventRequest>) {
    |events| == 1 && events[0].sequence == 2 && events[0].typ.EventFailed?
  }

  predicate OutputAndEnd(events: seq<EventRequest>, ok: bool) {
    && |events| == 2 && events[0].sequence == 2 && events[0].typ.EventOutput?
    && events[1].sequence == 3 && events[1].typ == if ok then EventSucceeded else EventFailed
  }

  /** `ActualIsLawful`: the behaviour in use is. */
  ghost predicate Lawful(c: Config) {
    && (forall m :: c.does.wire(c.does.wire(m)) == c.does.wire(m))
    && (forall id :: HexId(id) ==> c.does.trim(id) == id)
    && (forall job: Job ::
          job.lastSequence == 1 && c.does.declined(job).Some? ==> OneFailure(c.does.declined(job).value))
    && (forall job: Job :: job.lastSequence == 1 ==> OneFailure(c.does.interrupted(job)))
    && (forall job, outcome :: OutputAndEnd(c.does.results(job, outcome), outcome.error.None?))
  }

  lemma ActualIsLawful(c: Config, identity: Identity)
    requires c.does == Actual(identity)
    ensures Lawful(c)
  {
    hide Wire, TrimSpace, Truncated, Refusal, OutputText, ActionName, HexId;
    forall m ensures c.does.wire(c.does.wire(m)) == c.does.wire(m) { WireIdempotent(m); }
    forall id | HexId(id) ensures c.does.trim(id) == id { HexIdIsTrimmed(id); }
  }

  // ---------------------------------------------------------------- the invariant

  /** A completed list: sequences from 2 on, outputs, then one terminal event, in transport form. */
  predicate ListShape(c: Config, p: seq<EventRequest>) {
    && p != []
    && forall i | 0 <= i < |p| ::
         && p[i].sequence == i + 2
         && c.does.wire(p[i].message) == p[i].message
         && (if i == |p| - 1 then Terminal(p[i].typ) else p[i].typ.EventOutput?)
  }

  predicate Logged(c: Config, e: Event, p: EventRequest) { e.typ == p.typ && e.message == c.does.trim(p.message) }

  /** What the system holds about one job of the agent. */
  datatype View = View(
    id: Bytes, log: seq<Event>, lists: seq<seq<EventRequest>>, runs: nat, outcomes: seq<bool>, cell: Option<JobState>)

  ghost predicate Mine(c: Config, h: Hub, id: Bytes) {
    c.Key(id) in h.jobs && h.jobs[c.Key(id)].agentId == c.agent.id
  }

  ghost function ViewOf(c: Config, s: System, id: Bytes): View {
    View(id, LogOf(s.hub, c.Key(id)), Lists(s, id), RunsOf(s, id), Outcomes(s, id),
         if s.disk.Some? && s.disk.value.job.id == id then s.disk else None)
  }

  /** Index in the list of the first event that is pending on disk; the last one once nothing is. */
  function Cursor(v: View): int
    requires v.lists != []
  {
    if v.cell.Some? then |v.lists[0]| - |v.cell.value.events| else |v.lists[0]| - 1
  }

  predicate CellOK(v: View) {
    match v.cell
    case None => if v.lists == [] then v.runs == 0 else |v.log| == 2 + |v.lists[0]|
    case Some(st) =>
      if st.phase.Executing? then v.lists == [] && |v.log| == 2 && st.events == []
      else
        && v.lists != []
        && 1 <= |st.events| <= |v.lists[0]| && st.events == v.lists[0][Cursor(v)..]
        && Cursor(v) <= |v.log| - 2 <= Cursor(v) + 1
  }

  /** The hub's log holds a first part of the list. */
  predicate ListOK(c: Config, v: View)
    requires v.lists != []
  {
    var p := v.lists[0];
    && HexId(v.id) && ListShape(c, p)
    && 2 <= |v.log| <= 2 + |p|
    && (forall i | 2 <= i < |v.log| :: Logged(c, v.log[i], p[i - 2]))
    && (p[|p| - 1].typ.EventSucceeded? ==> v.runs == 1 && v.outcomes == [true])
  }

  predicate ViewOK(c: Config, v: View) {
    && |v.lists| <= 1 && v.runs <= 1 && |v.outcomes| <= v.runs
    && (if v.lists == [] then |v.log| <= 2 else ListOK(c, v))
    && CellOK(v)
  }

  predicate SentOK(v: View, e: EventRequest) {
    && v.lists != [] && 2 <= e.sequence < 2 + |v.lists[0]| && e == v.lists[0][e.sequence - 2]
    && e.sequence - 2 <= Cursor(v)
  }

  /** A job of the agent as it was claimed. */
  ghost predicate Ours(c: Config, h: Hub, job: Job) {
    Mine(c, h, job.id) && HexId(job.id) && job.agentId == c.agent.id && job.lastSequence == 1
  }

  /** A job the agent has claimed and not yet decided about. */
  ghost predicate Undecided(c: Config, s: System, job: Job) {
    Ours(c, s.hub, job) && Lists(s, job.id) == [] && |LogOf(s.hub, c.Key(job.id))| == 2
  }

  ghost predicate DiskIs(s: System, job: Job, phase: Phase, events: seq<EventRequest>) {
    s.disk == Some(JobState(job, phase, events))
  }

  ghost predicate PcOK(c: Config, s: System) {
    match s.pc
    case Idle => true
    case Claiming => s.disk.None?
    case GotClaim(job) => s.disk.None? && Undecided(c, s, job)
    case Saved(job) => DiskIs(s, job, Executing, []) && RunsOf(s, job.id) == 0 && c.does.declined(job).None?
    case Running(job) =>
      DiskIs(s, job, Executing, []) && RunsOf(s, job.id) == 1 && Outcomes(s, job.id) == [] && c.does.declined(job).None?
    case Ran(job, events) =>
      && (s.disk.None? || DiskIs(s, job, Executing, []))
      && Undecided(c, s, job) && ListShape(c, WireAll(c, events))
      && (events[|events| - 1].typ.EventSucceeded? ==> RunsOf(s, job.id) == 1 && Outcomes(s, job.id) == [true])
    case Flushing(job, events) => events != [] && DiskIs(s, job, Completed, WireAll(c, events))
    case Posting(job, events) => events != [] && DiskIs(s, job, Completed, WireAll(c, events))
      && Head(c, s.pc) in s.sent
    case Acked(job, events) =>
      && events != [] && DiskIs(s, job, Completed, WireAll(c, events)) && Lists(s, job.id) != []
      && |LogOf(s.hub, c.Key(job.id))| - 2 > |Lists(s, job.id)[0]| - |events|
  }

  /** The job on disk is the agent's, as it was claimed. */
  ghost predicate DiskOK(c: Config, s: System) { s.disk.Some? ==> Ours(c, s.hub, s.disk.value.job) }

  ghost predicate HistoryOK(c: Config, s: System) {
    forall id | id in s.lists || id in s.runs || id in s.outcomes :: Mine(c, s.hub, id)
  }

  ghost predicate JobOK(c: Config, s: System, id: Bytes) { Mine(c, s.hub, id) ==> ViewOK(c, ViewOf(c, s, id)) }

  ghost predicate RequestOK(c: Config, s: System, r: Request) {
    Mine(c, s.hub, r.jobId) && SentOK(ViewOf(c, s, r.jobId), r.event)
  }

  ghost predicate AgentInv(c: Config, s: System) {
    && (forall id :: JobOK(c, s, id))
    && (forall r | r in s.sent :: RequestOK(c, s, r))
    && DiskOK(c, s) && HistoryOK(c, s) && PcOK(c, s)
  }

  /** Jobs are named as the hub names them, and claims are stamped with its clock. */
  ghost predicate Orderly(h: Hub, clock: Time) {
    && (forall k | k in h.jobs :: HexId(k.id))
    && (forall k | k in h.events && |h.events[k]| >= 2 :: h.events[k][1].occurredAt <= clock)
  }

  ghost predicate Inv(c: Config, s: System) { HubInv(s.hub) && Orderly(s.hub, s.clock) && AgentInv(c, s) }
}
