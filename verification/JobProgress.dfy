/** Progress of the job protocol: once faults stop, the agent's own next step always brings it nearer to
    having every job finished and nothing on disk; what can keep it from there is exactly a pending message
    that the hub refuses. */
module JobProgress {
  import opened Sets
  import opened Wrappers
  import opened Text
  import opened Tenancy
  import opened Clock
  import opened Runs
  import opened Jobs
  import opened JobExecution
  import opened JobProtocol
  import opened JobSafety

  /** Jobs of the agent that the hub does not hold as finished. */
  ghost function Open(c: Config, h: Hub): set<JobKey> {
    WithStatus(h, c.agent, StatusQueued) + WithStatus(h, c.agent, StatusRunning)
  }

  ghost function Offer(c: Config, s: System): Option<Job> { Answer(c, s, c.agent).1 }

  /** The step `ProcessNext` takes next when nothing fails. `execute` is the platform action; a job runs at most once,
      so a function of the job is all there is to it. Between calls time passes while the hub still leases a running
      job out. */
  ghost function AgentMove(c: Config, s: System, execute: Job -> Outcome): Move {
    match s.pc
    case Idle =>
      if s.disk.None? then (if Offer(c, s).Some? then BeginClaim else Tick(if c.lease < 0 then 0 else c.lease))
      else if s.disk.value.phase.Completed? then BeginRecover else BeginInterrupted
    case Claiming => ClaimReply
    case GotClaim(job) => if c.does.declined(job).Some? then Decline else SaveExecuting
    case Saved(_) => Start
    case Running(job) => Finish(execute(job))
    case Ran(_, _) => SaveResult
    case Flushing(_, _) => Post
    case Posting(_, _) => PostReply
    case Acked(_, events) => if |events| > 1 then SaveRest else Delete
  }

  /** Runs of the fault-free agent: its own steps, one after the other. */
  ghost function Calm(c: Config, execute: Job -> Outcome): (System, Move, System) -> bool {
    (s: System, m: Move, t: System) => m == AgentMove(c, s, execute) && Step(c, s, m, t)
  }

  ghost predicate Drained(c: Config, s: System) { s.pc.Idle? && s.disk.None? && Open(c, s.hub) == {} }

  // ---------------------------------------------------------------- the measure

  ghost predicate Finished(c: Config, s: System) {
    s.disk.Some? && c.Key(s.disk.value.job.id) !in Open(c, s.hub)
  }

  /** Open jobs count twice; a finished one still on disk once. */
  ghost function Work(c: Config, s: System): nat { 2 * |Open(c, s.hub)| + if Finished(c, s) then 1 else 0 }

  ghost function Stage(c: Config, s: System): nat {
    match s.pc
    case Idle =>
      if s.disk.None? then (if Offer(c, s).Some? then 11 else 12)
      else if s.disk.value.phase.Completed? then 5 else 6
    case Claiming => if Offer(c, s).Some? then 10 else 13
    case GotClaim(_) => 9
    case Saved(_) => 8
    case Running(_) => 7
    case Ran(_, _) => 6
    case _ => 4
  }

  function Pending(s: System): nat {
    match s.pc
    case Flushing(_, events) => 3 * |events| + 2
    case Posting(_, events) => 3 * |events| + 1
    case Acked(_, events) => 3 * |events|
    case _ => 0
  }

  ghost predicate Smaller(c: Config, t: System, s: System) {
    Work(c, t) < Work(c, s)
    || (Work(c, t) == Work(c, s)
      && (Stage(c, t) < Stage(c, s) || (Stage(c, t) == Stage(c, s) && Pending(t) < Pending(s))))
  }

  // ---------------------------------------------------------------- what progress needs

  predicate AllTaken(c: Config, events: seq<EventRequest>) {
    forall i | 0 <= i < |events| :: Takes(c, events[i].message)
  }

  predicate PcTaken(c: Config, pc: Pc) {
    pc.Ran? || pc.Flushing? || pc.Posting? || pc.Acked? ==> AllTaken(c, pc.events)
  }

  predicate DiskTaken(c: Config, disk: Option<JobState>) { disk.Some? ==> AllTaken(c, disk.value.events) }

  /** What the agent will ever report by itself has messages the hub takes. */
  ghost predicate Composable(c: Config, execute: Job -> Outcome) {
    forall job: Job ::
      && AllTaken(c, c.does.interrupted(job))
      && (if c.does.declined(job).Some? then AllTaken(c, c.does.declined(job).value)
          else AllTaken(c, c.does.results(job, execute(job))))
  }

  ghost predicate Ready(c: Config, s: System) {
    Lawful(c) && Inv(c, s) && c.lease > 0 && PcTaken(c, s.pc) && DiskTaken(c, s.disk)
  }

  // ---------------------------------------------------------------- the hub's side of a step

  lemma ClaimKeepsOpen(c: Config, s: System)
    requires HubInv(s.hub)
    ensures var (h, got) := Answer(c, s, c.agent);
      Open(c, h) == Open(c, s.hub) && (got.None? ==> h == s.hub)
  {
    hide ClaimNext, HubInv, Select;
    ClaimChanges(s.hub, c.agent, s.clock, s.clock - c.lease);
  }

  lemma ReportShrinksOpen(c: Config, s: System, r: Request)
    requires HubInv(s.hub)
    ensures Open(c, Deliver(c, s, r).0) <= Open(c, s.hub)
  {
    hide ReportNormalized, HubInv;
    ReportChanges(s.hub, c.agent, c.does.trim(r.jobId), r.event.(message := c.does.trim(r.event.message)), s.clock);
  }

  /** With a job open and nothing leased out, a claim yields one; a lease later nothing is leased out. */
  lemma ClaimYields(c: Config, s: System, t: System)
    requires HubInv(s.hub) && Orderly(s.hub, s.clock) && Open(c, s.hub) != {}
    requires t == s.(clock := t.clock) && t.clock >= s.clock + c.lease
    ensures Offer(c, t).Some?
  {
    hide Select, HexId, JobInv;
    if Select(s.hub, c.agent, StatusRunning).Some? {
      var key := ClaimWhileRunning(s.hub, c.agent, t.clock, t.clock - c.lease);
      assert key in WithStatus(s.hub, c.agent, StatusRunning);
    } else {
      NoneSelected(s.hub, c.agent, StatusRunning);
      NoneSelected(s.hub, c.agent, StatusQueued);
    }
  }

  lemma NoneSelected(h: Hub, agent: Agent, status: Status)
    ensures Select(h, agent, status).None? ==> WithStatus(h, agent, status) == {}
  {}

  /** A job whose list is not fully logged is open; one whose list is, is not. */
  lemma OpenByLog(c: Config, s: System, id: Bytes)
    requires HubInv(s.hub) && Mine(c, s.hub, id) && JobOK(c, s, id) && |LogOf(s.hub, c.Key(id))| >= 2
    ensures c.Key(id) in Open(c, s.hub) <==>
      Lists(s, id) == [] || |LogOf(s.hub, c.Key(id))| - 2 < |Lists(s, id)[0]|
  {
    hide JobOK;
    RunningWhileUnlogged(c, s, id);
    MineIsLogged(c, s.hub, id);
  }

  /** The job on disk is open unless its list is fully logged. */
  lemma DiskIsOpen(c: Config, s: System)
    requires Inv(c, s) && s.disk.Some?
    ensures var id := s.disk.value.job.id;
      Finished(c, s) <==> Lists(s, id) != [] && |LogOf(s.hub, c.Key(id))| - 2 == |Lists(s, id)[0]|
  {
    hide AgentInv, HubInv, Open, Orderly, HexId, ListShape, Logged;
    Held(c, s);
    var id := s.disk.value.job.id;
    assert JobOK(c, s, id);
    OpenByLog(c, s, id);
  }

  // ---------------------------------------------------------------- one step of a fault-free agent

  lemma WiredIsTaken(c: Config, events: seq<EventRequest>)
    requires Lawful(c)
    ensures AllTaken(c, WireAll(c, events)) <==> AllTaken(c, events)
  {
    hide Takes;
    forall i | 0 <= i < |events| ensures Takes(c, WireAll(c, events)[i].message) <==> Takes(c, events[i].message) {
      TakenOnWire(c, events[i].message);
    }
    if AllTaken(c, WireAll(c, events)) {
      forall i | 0 <= i < |events| ensures Takes(c, events[i].message) {
        assert Takes(c, WireAll(c, events)[i].message);
      }
    }
  }

  /** What a move adds to what is to be reported. */
  predicate Brings(c: Config, s: System, m: Move) {
    match m
    case BeginInterrupted => s.disk.Some? && AllTaken(c, c.does.interrupted(s.disk.value.job))
    case Decline => s.pc.GotClaim? && c.does.declined(s.pc.job).Some? && AllTaken(c, c.does.declined(s.pc.job).value)
    case Finish(outcome) => s.pc.Running? && AllTaken(c, c.does.results(s.pc.job, outcome))
    case _ => true
  }

  /** What is to be reported stays acceptable while what is added is. */
  lemma TakenStays(c: Config, s: System, m: Move, t: System)
    requires Lawful(c) && PcTaken(c, s.pc) && DiskTaken(c, s.disk) && Step(c, s, m, t) && Brings(c, s, m)
    ensures PcTaken(c, t.pc) && DiskTaken(c, t.disk)
  {
    hide Answer, Handled, Drafted, HexId, AllTaken, Head, Lawful;
    PartTaken(c, if s.pc.Acked? then s.pc.events else []);
    match m
    case BeginInterrupted => WiredIsTaken(c, c.does.interrupted(s.disk.value.job));
    case SaveResult => WiredIsTaken(c, s.pc.events);
    case SaveRest => WiredIsTaken(c, s.pc.events[1..]);
    case _ =>
  }

  lemma AgentBrings(c: Config, s: System, execute: Job -> Outcome)
    requires Composable(c, execute) && PcOK(c, s)
    ensures Brings(c, s, AgentMove(c, s, execute))
  {
    hide AllTaken, Composable, Offer, ListShape, HexId;
    if s.disk.Some? { Composes(c, execute, s.disk.value.job); }
    if s.pc.GotClaim? || s.pc.Running? { Composes(c, execute, s.pc.job); }
  }

  lemma PartTaken(c: Config, events: seq<EventRequest>)
    ensures AllTaken(c, [])
    ensures AllTaken(c, events) && events != [] ==> AllTaken(c, events[1..])
  {}

  lemma Composes(c: Config, execute: Job -> Outcome, job: Job)
    requires Composable(c, execute)
    ensures AllTaken(c, c.does.interrupted(job))
    ensures if c.does.declined(job).Some? then AllTaken(c, c.does.declined(job).value)
            else AllTaken(c, c.does.results(job, execute(job)))
  {
    hide AllTaken;
  }

  /** Steps that leave hub and disk alone. */
  lemma QuietStep(c: Config, s: System, m: Move, t: System)
    requires Inv(c, s) && Step(c, s, m, t) && (m.BeginClaim? ==> Offer(c, s).Some?)
    requires m.BeginRecover? || m.BeginClaim? || m.Decline? || m.Start? || m.Finish? || m.Post?
    ensures Smaller(c, t, s)
  {
    hide AgentInv, HubInv, Orderly, Open, ClaimNext, Handled, Drafted, HexId, Head;
  }

  lemma WaitStep(c: Config, s: System, t: System)
    requires c.lease >= 0 && Inv(c, s) && Step(c, s, Tick(c.lease), t) && s.pc.Idle? && s.disk.None?
      && Offer(c, s).None? && Open(c, s.hub) != {}
    ensures Smaller(c, t, s)
  {
    hide AgentInv, HubInv, Orderly, Open, Answer, Handled, Drafted, HexId;
    ClaimYields(c, s, t);
  }

  lemma ClaimReplyStep(c: Config, s: System, t: System)
    requires Inv(c, s) && Step(c, s, ClaimReply, t)
    ensures Smaller(c, t, s)
  {
    hide AgentInv, HubInv, Orderly, Open, ClaimNext, Handled, Drafted, HexId;
    Held(c, s);
    ClaimKeepsOpen(c, s);
    ClaimedIsNamed(c, s);
  }

  lemma ClaimedIsNamed(c: Config, s: System)
    requires HubInv(s.hub) && Orderly(s.hub, s.clock)
    ensures Offer(c, s).Some? ==> HexId(Offer(c, s).value.id)
  {
    hide ClaimNext, HexId;
    ClaimedIsOurs(c, s);
    assert Offer(c, s).Some? ==> c.Key(Offer(c, s).value.id) in s.hub.jobs;
  }

  /** A job that is neither declined nor reported on is open. */
  lemma UndecidedIsOpen(c: Config, s: System)
    requires Inv(c, s) && (s.pc.GotClaim? || s.pc.Ran?)
    ensures c.Key(s.pc.job.id) in Open(c, s.hub)
  {
    hide HubInv, Orderly, HexId, ListShape, ViewOK;
    assert JobOK(c, s, s.pc.job.id);
    OpenByLog(c, s, s.pc.job.id);
  }

  /** Steps that write the durable cell. */
  lemma SaveStep(c: Config, s: System, m: Move, t: System)
    requires PcOK(c, s) && (s.pc.GotClaim? || s.pc.Ran? ==> c.Key(s.pc.job.id) in Open(c, s.hub))
    requires Step(c, s, m, t) && (m.SaveResult? || m.SaveExecuting? || m.SaveRest? || m.BeginInterrupted?)
    ensures Smaller(c, t, s)
  {
    hide Open, Answer, Handled, Drafted, HexId, ListShape, Undecided, WireAll;
  }

  lemma DeleteStep(c: Config, s: System, t: System)
    requires Inv(c, s) && Step(c, s, JobProtocol.Delete, t)
    ensures Smaller(c, t, s)
  {
    hide AgentInv, HubInv, Orderly, Open, Answer, Handled, Drafted, HexId, ListOK;
    Held(c, s);
    DiskIsOpen(c, s);
  }

  lemma PostReplyStep(c: Config, s: System, t: System)
    requires Lawful(c) && Inv(c, s) && Step(c, s, PostReply, t) && Takes(c, s.pc.events[0].message)
    ensures Smaller(c, t, s)
  {
    hide AgentInv, HubInv, Orderly, Open, Deliver, Drafted, HexId, ViewOK, Takes, Answer;
    Held(c, s);
    var r := Head(c, s.pc);
    TakenOnWire(c, s.pc.events[0].message);
    SentNeverConflicts(c, s, r);
    ReportShrinksOpen(c, s, r);
    var a, b := Open(c, t.hub), Open(c, s.hub);
    SubsetSize(a, b);
  }

  /** A fault-free agent always has a next step, and it brings the system nearer to being drained. */
  lemma AgentStepIsGood(c: Config, s: System, execute: Job -> Outcome) returns (t: System)
    requires Ready(c, s) && Composable(c, execute) && !Drained(c, s)
    ensures Step(c, s, AgentMove(c, s, execute), t) && Ready(c, t) && Smaller(c, t, s)
  {
    hide Inv, Lawful, Open, Answer, Handled, Drafted, HexId, Smaller, Composable, Takes;
    var m := AgentMove(c, s, execute);
    AgentParts(c, s);
    t := Successor(c, s, execute);
    StepKeeps(c, s, m, t);
    AgentBrings(c, s, execute);
    TakenStays(c, s, m, t);
    match m
    case Tick(_) => WaitStep(c, s, t);
    case ClaimReply => ClaimReplyStep(c, s, t);
    case SaveResult => UndecidedIsOpen(c, s); SaveStep(c, s, m, t);
    case SaveExecuting => UndecidedIsOpen(c, s); SaveStep(c, s, m, t);
    case SaveRest => SaveStep(c, s, m, t);
    case BeginInterrupted => SaveStep(c, s, m, t);
    case Delete => DeleteStep(c, s, t);
    case PostReply => PostReplyStep(c, s, t);
    case _ => QuietStep(c, s, m, t);
  }

  lemma AgentParts(c: Config, s: System)
    requires Inv(c, s)
    ensures PcOK(c, s) && DiskOK(c, s)
  {
    hide HubInv, Orderly, ViewOK, PcOK, DiskOK;
  }

  /** Every step of the agent's own can be taken where it is due. */
  lemma Successor(c: Config, s: System, execute: Job -> Outcome) returns (t: System)
    requires PcOK(c, s) && DiskOK(c, s)
    ensures Step(c, s, AgentMove(c, s, execute), t)
  {
    hide Answer, Deliver, Handled, Drafted, HexId, Undecided, ListShape, WireAll;
    var m := AgentMove(c, s, execute);
    match m
    case BeginRecover => t := s.(pc := Flushing(s.disk.value.job, s.disk.value.events));
    case BeginInterrupted => t := Listed(c, s, s.disk.value.job, c.does.interrupted(s.disk.value.job));
    case BeginClaim => t := s.(pc := Claiming, claimSent := true);
    case ClaimReply =>
      var (hub, got) := Answer(c, s, c.agent);
      t := s.(hub := hub, pc := if got.Some? && HexId(got.value.id) then GotClaim(got.value) else Idle);
    case Decline => t := s.(pc := Ran(s.pc.job, c.does.declined(s.pc.job).value));
    case SaveExecuting => t := s.(disk := Some(JobState(s.pc.job, Executing, [])), pc := Saved(s.pc.job));
    case Start => t := s.(pc := Running(s.pc.job), runs := s.runs[s.pc.job.id := RunsOf(s, s.pc.job.id) + 1]);
    case Finish(outcome) =>
      t := s.(pc := Ran(s.pc.job, c.does.results(s.pc.job, outcome)),
              outcomes := s.outcomes[s.pc.job.id := Outcomes(s, s.pc.job.id) + [outcome.error.None?]]);
    case SaveResult => t := Listed(c, s, s.pc.job, s.pc.events);
    case Post => t := s.(pc := Posting(s.pc.job, s.pc.events), sent := s.sent + {Head(c, s.pc)});
    case PostReply =>
      var (hub, reply) := Deliver(c, s, Head(c, s.pc));
      t := s.(hub := hub, pc := if reply.Ok? then Acked(s.pc.job, s.pc.events) else Idle);
    case SaveRest =>
      t := s.(disk := Some(JobState(s.pc.job, Completed, WireAll(c, s.pc.events[1..]))),
        pc := Flushing(s.pc.job, s.pc.events[1..]));
    case Delete => t := s.(disk := None, pc := Idle);
    case Tick(delay) => t := s.(clock := s.clock + delay);
  }

  // ---------------------------------------------------------------- whole runs

  /** From every state that can progress, the agent's own steps finish every job of the agent and clear its
      durable state. */
  lemma {:induction false} EveryJobFinishes(c: Config, start: System, s: System, execute: Job -> Outcome)
      returns (t: System)
    requires Reaches(Calm(c, execute), start, s) && Ready(c, s) && Composable(c, execute)
    ensures Reaches(Calm(c, execute), start, t) && Drained(c, t) && Inv(c, t)
    decreases Work(c, s), Stage(c, s), Pending(s)
  {
    hide Inv, Lawful, Composable, AgentMove, Work, Stage, Pending, Step, Reaches, PcTaken, DiskTaken;
    if Drained(c, s) {
      t := s;
    } else {
      var u := AgentStepIsGood(c, s, execute);
      ReachesStep(Calm(c, execute), start, s, AgentMove(c, s, execute), u);
      t := EveryJobFinishes(c, start, u, execute);
    }
  }

  /** Progress: from every reachable state, whatever faults led there, a fault-free agent finishes all its
      open jobs and clears its disk, provided that what is still to be reported has messages the hub takes.
      `RefusedMessageBlocks` shows the proviso is needed. */
  lemma EveryReachableStateDrains(c: Config, s: System, execute: Job -> Outcome) returns (t: System)
    requires Lawful(c) && Reachable(c, s) && c.lease > 0
    requires PcTaken(c, s.pc) && DiskTaken(c, s.disk) && Composable(c, execute)
    ensures Reaches(Calm(c, execute), s, t) && Drained(c, t)
    ensures forall id | Mine(c, t.hub, id) ::
      t.hub.jobs[c.Key(id)].status.StatusSucceeded? || t.hub.jobs[c.Key(id)].status.StatusFailed?
  {
    hide AgentInv, HubInv, Orderly, Lawful, PcTaken, DiskTaken, Composable, Reaches, Reachable;
    ReachableInv(c, s);
    ReachesSelf(Calm(c, execute), s);
    t := EveryJobFinishes(c, s, s, execute);
    forall id | Mine(c, t.hub, id)
      ensures t.hub.jobs[c.Key(id)].status.StatusSucceeded? || t.hub.jobs[c.Key(id)].status.StatusFailed?
    {
      MineIsLogged(c, t.hub, id);
      assert c.Key(id) !in Open(c, t.hub);
    }
  }

  lemma MineIsLogged(c: Config, h: Hub, id: Bytes)
    requires HubInv(h) && Mine(c, h, id)
    ensures h.jobs[c.Key(id)].scope == c.agent.scope && LogShape(LogOf(h, c.Key(id)), c.Key(id))
  {
    assert JobInv(h.jobs[c.Key(id)], h.events[c.Key(id)], c.Key(id));
  }

  /** What the executor composes by itself the hub takes. */
  lemma FixedIsTaken(c: Config, identity: Identity, job: Job)
    requires c.does == Actual(identity)
    ensures AllTaken(c, c.does.interrupted(job))
    ensures c.does.declined(job).Some? ==> AllTaken(c, c.does.declined(job).value)
  {
    hide Wire, TrimSpace, Truncated, Plain, NoState, Interrupted, Refusal;
    FixedTexts();
    PlainIsAcceptable(NoState());
    PlainIsAcceptable(Interrupted());
    if Refusal(job, identity).Some? {
      RefusalIsPlain(job, identity);
      PlainIsAcceptable(Refusal(job, identity).value);
    }
  }

  /** Of a job that the agent runs it takes all exactly if it takes what the action returned. */
  lemma ResultIsTaken(c: Config, identity: Identity, job: Job, outcome: Outcome)
    requires c.does == Actual(identity) && c.does.declined(job).None?
    ensures AllTaken(c, c.does.results(job, outcome)) <==> Reportable(outcome)
  {
    hide Wire, TrimSpace, ResultEvents, Reportable, ServiceTarget, OwnService, Verify;
    ResultIsAcceptable(job, outcome);
    TwoEvents(job.action, outcome);
    var events := c.does.results(job, outcome);
    assert Takes(c, events[0].message) == Acceptable(events[0].message);
    assert Takes(c, events[1].message) == Acceptable(events[1].message);
  }

  lemma TwoEvents(action: Action, outcome: Outcome)
    ensures |ResultEvents(action, outcome)| == 2
  {}

  /** `Composable` asks exactly that what the action returns for a job the agent runs is taken. */
  lemma ComposableExactlyWhen(c: Config, identity: Identity, execute: Job -> Outcome)
    requires c.does == Actual(identity)
    ensures Composable(c, execute) <==> forall job: Job | c.does.declined(job).None? :: Reportable(execute(job))
  {
    hide AllTaken, Reportable, Actual;
    forall job: Job
      ensures AllTaken(c, c.does.interrupted(job))
      ensures if c.does.declined(job).Some? then AllTaken(c, c.does.declined(job).value)
              else AllTaken(c, c.does.results(job, execute(job))) <==> Reportable(execute(job))
    {
      FixedIsTaken(c, identity, job);
      if c.does.declined(job).None? { ResultIsTaken(c, identity, job, execute(job)); }
    }
  }

  /** Runs, with every fault there is, in which the platform action returns well-formed text. */
  ghost function WellFormedSteps(c: Config): (System, Move, System) -> bool {
    (s: System, m: Move, t: System) => Step(c, s, m, t) && (m.Finish? ==> WellFormed(m.outcome))
  }

  lemma WellFormedBrings(c: Config, identity: Identity, s: System, m: Move, t: System)
    requires c.does == Actual(identity) && Inv(c, s) && Step(c, s, m, t) && (m.Finish? ==> WellFormed(m.outcome))
    ensures Brings(c, s, m)
  {
    hide AllTaken, Actual, WellFormed, HubInv, Orderly, ViewOK, ListShape, Answer, Handled, Drafted, HexId;
    match m
    case BeginInterrupted => FixedIsTaken(c, identity, s.disk.value.job);
    case Decline => FixedIsTaken(c, identity, s.pc.job);
    case Finish(outcome) =>
      WellFormedIsReportable(outcome);
      ResultIsTaken(c, identity, s.pc.job, outcome);
    case _ =>
  }

  /** In such a run the hub takes all that is ever to be reported. */
  lemma WellFormedIsTaken(c: Config, identity: Identity, s: System)
    requires c.does == Actual(identity) && Reaches(WellFormedSteps(c), INITIAL, s)
    ensures Inv(c, s) && PcTaken(c, s.pc) && DiskTaken(c, s.disk)
  {
    hide Inv, Step, Lawful, Actual, PcTaken, DiskTaken, WellFormed, Brings;
    ActualIsLawful(c, identity);
    var moves :| Path(WellFormedSteps(c), INITIAL, moves, s);
    assert Inv(c, INITIAL) && PcTaken(c, INITIAL.pc) && DiskTaken(c, INITIAL.disk) by { InitiallyTaken(c); }
    forall x: System, m: Move, y: System
      | (Inv(c, x) && PcTaken(c, x.pc) && DiskTaken(c, x.disk)) && WellFormedSteps(c)(x, m, y)
      ensures Inv(c, y) && PcTaken(c, y.pc) && DiskTaken(c, y.disk)
    {
      StepKeeps(c, x, m, y);
      WellFormedBrings(c, identity, x, m, y);
      TakenStays(c, x, m, y);
    }
    PathKeeps(WellFormedSteps(c), (x: System) => Inv(c, x) && PcTaken(c, x.pc) && DiskTaken(c, x.disk), INITIAL,
      moves, s);
  }

  lemma InitiallyTaken(c: Config)
    ensures Inv(c, INITIAL) && PcTaken(c, INITIAL.pc) && DiskTaken(c, INITIAL.disk)
  {}

  /** The executor as it is, with actions that return well-formed text: whatever faults led to a state, a fault-free
      agent finishes all its jobs from there. */
  lemma WellFormedDrains(c: Config, identity: Identity, s: System, execute: Job -> Outcome) returns (t: System)
    requires c.does == Actual(identity) && c.lease > 0 && Reaches(WellFormedSteps(c), INITIAL, s)
    requires forall job: Job | c.does.declined(job).None? :: WellFormed(execute(job))
    ensures Reaches(Calm(c, execute), s, t) && Drained(c, t)
    ensures forall id | Mine(c, t.hub, id) ::
      t.hub.jobs[c.Key(id)].status.StatusSucceeded? || t.hub.jobs[c.Key(id)].status.StatusFailed?
  {
    hide Lawful, Actual, PcTaken, DiskTaken, Inv, Composable, WellFormed, Reportable, Reaches, Drained;
    ActualIsLawful(c, identity);
    WellFormedIsTaken(c, identity, s);
    forall job: Job | c.does.declined(job).None? ensures Reportable(execute(job)) {
      WellFormedIsReportable(execute(job));
    }
    ComposableExactlyWhen(c, identity, execute);
    WellFormedIsReachable(c, s);
    t := EveryReachableStateDrains(c, s, execute);
  }

  lemma WellFormedIsReachable(c: Config, s: System)
    requires Reaches(WellFormedSteps(c), INITIAL, s)
    ensures Reachable(c, s)
  {
    hide Step, WellFormed;
    var moves :| Path(WellFormedSteps(c), INITIAL, moves, s);
    MorePaths(WellFormedSteps(c), Steps(c), INITIAL, moves, s);
  }

  // ---------------------------------------------------------------- when progress is impossible

  /** The hub has logged only what it takes. */
  lemma LoggedIsTaken(c: Config, v: View, key: JobKey)
    requires ViewOK(c, v) && v.lists != [] && LogShape(v.log, key)
    ensures forall i | 0 <= i < |v.log| - 2 :: Takes(c, v.lists[0][i].message)
  {
    hide HexId;
    forall i | 0 <= i < |v.log| - 2 ensures Takes(c, v.lists[0][i].message) {
      assert Logged(c, v.log[i + 2], v.lists[0][i]) && 0 < |v.log[i + 2].message| <= MESSAGE_LIMIT;
    }
  }

  lemma RefusedIsHeld(c: Config, v: View)
    requires ViewOK(c, v) && v.lists != [] && !AllTaken(c, v.lists[0])
    requires forall i | 0 <= i < |v.log| - 2 :: Takes(c, v.lists[0][i].message)
    ensures v.cell.Some? && v.cell.value.phase.Completed? && !AllTaken(c, v.cell.value.events)
      && 0 <= |v.log| - 2 < |v.lists[0]|
  {
    hide Takes, HexId, ListShape, Logged;
    var b :| 0 <= b < |v.lists[0]| && !Takes(c, v.lists[0][b].message);
    assert b - Cursor(v) >= 0 ==> v.cell.value.events[b - Cursor(v)] == v.lists[0][b];
  }

  /** With a message in its list that the hub refuses, a job runs and is on the agent's disk. */
  lemma RefusedListStays(c: Config, s: System, id: Bytes)
    requires Inv(c, s) && Lists(s, id) != [] && !AllTaken(c, Lists(s, id)[0])
    ensures Mine(c, s.hub, id) && s.hub.jobs[c.Key(id)].status.StatusRunning?
    ensures s.disk.Some? && s.disk.value.phase.Completed? && s.disk.value.job.id == id
      && !AllTaken(c, s.disk.value.events)
  {
    hide PcOK, RequestOK, Orderly, ViewOK, AllTaken, JobInv;
    assert JobOK(c, s, id);
    var v := ViewOf(c, s, id);
    MineIsLogged(c, s.hub, id);
    LoggedIsTaken(c, v, c.Key(id));
    RefusedIsHeld(c, v);
    RunningWhileUnlogged(c, s, id);
  }

  /** A message the hub refuses blocks the agent in every continuation: the same job stays on its disk, and
      the hub never records that job as finished. */
  lemma RefusedMessageBlocks(c: Config, s: System, t: System, id: Bytes)
    requires Lawful(c) && Reachable(c, s) && Lists(s, id) != [] && !AllTaken(c, Lists(s, id)[0])
      && Reaches(Steps(c), s, t)
    ensures Mine(c, t.hub, id) && t.hub.jobs[c.Key(id)].status.StatusRunning?
    ensures t.disk.Some? && t.disk.value.phase.Completed? && t.disk.value.job.id == id
  {
    hide Inv, Step, Lawful, AllTaken, RunsOf;
    ReachableInv(c, s);
    InvReaches(c, s, t);
    HistoryOnlyGrows(c, s, t, id);
    assert Lists(t, id)[0] == Lists(s, id)[0];
    RefusedListStays(c, t, id);
  }

  /** An acceptable head of the list is acknowledged once nothing fails. */
  lemma HeadIsAcked(c: Config, start: System, s: System) returns (t: System)
    requires Lawful(c) && Inv(c, s) && Reaches(Steps(c), start, s)
    requires s.pc.Flushing? && s.pc.events != [] && Takes(c, s.pc.events[0].message)
    ensures Inv(c, t) && Reaches(Steps(c), start, t) && t.pc == Acked(s.pc.job, s.pc.events)
  {
    hide Inv, Lawful, Takes, Reaches, Drafted, Answer, Deliver, HexId;
    var posted := s.(pc := Posting(s.pc.job, s.pc.events), sent := s.sent + {Head(c, s.pc)});
    Go(c, start, s, Post, posted);
    TakenOnWire(c, s.pc.events[0].message);
    SentNeverConflicts(c, posted, Head(c, posted.pc));
    t := posted.(hub := Deliver(c, posted, Head(c, posted.pc)).0, pc := Acked(s.pc.job, s.pc.events));
    Go(c, start, posted, PostReply, t);
  }

  /** Flushing a list of acceptable messages clears the disk. */
  lemma {:induction false} FlushClears(c: Config, start: System, s: System) returns (t: System)
    requires Lawful(c) && Inv(c, s) && Reaches(Steps(c), start, s)
    requires s.pc.Flushing? && s.pc.events != [] && AllTaken(c, s.pc.events)
    ensures Reaches(Steps(c), start, t) && t.disk.None?
    decreases |s.pc.events|
  {
    hide Inv, Lawful, Takes, Reaches, Drafted, Answer, Deliver, HexId, WireAll;
    var acked := HeadIsAcked(c, start, s);
    var events := s.pc.events;
    if |events| > 1 {
      var saved := acked.(disk := Some(JobState(s.pc.job, Completed, WireAll(c, events[1..]))),
        pc := Flushing(s.pc.job, events[1..]));
      Go(c, start, acked, SaveRest, saved);
      t := FlushClears(c, start, saved);
    } else {
      t := acked.(disk := None, pc := Idle);
      Go(c, start, acked, JobProtocol.Delete, t);
    }
  }

  /** Exactly when a restarted agent can ever get rid of a result it holds: when the hub takes every pending message. */
  lemma ClearableExactlyWhen(c: Config, s: System)
    requires Lawful(c) && Reachable(c, s) && s.pc.Idle? && s.disk.Some? && s.disk.value.phase.Completed?
    ensures (exists t :: Reaches(Steps(c), s, t) && t.disk.None?) <==> AllTaken(c, s.disk.value.events)
  {
    hide AgentInv, HubInv, Orderly, Lawful, Takes, Reaches, Reachable, Step, ViewOK, HexId;
    ReachableInv(c, s);
    Held(c, s);
    if AllTaken(c, s.disk.value.events) {
      ReachesSelf(Steps(c), s);
      var u := s.(pc := Flushing(s.disk.value.job, s.disk.value.events));
      assert Step(c, s, BeginRecover, u) by { Recovers(c, s, u); }
      Go(c, s, s, BeginRecover, u);
      WiredDisk(c, s);
      var t := FlushClears(c, s, u);
    }
    if t :| Reaches(Steps(c), s, t) && t.disk.None? {
      if !AllTaken(c, s.disk.value.events) {
        PendingOfList(c, s);
        RefusedMessageBlocks(c, s, t, s.disk.value.job.id);
      }
    }
  }

  lemma Recovers(c: Config, s: System, t: System)
    requires DiskOK(c, s) && s.pc.Idle? && s.disk.Some? && s.disk.value.phase.Completed?
    requires t == s.(pc := Flushing(s.disk.value.job, s.disk.value.events))
    ensures Step(c, s, BeginRecover, t)
  {
    hide HexId;
  }

  /** What is pending is the end of the list. */
  lemma PendingOfList(c: Config, s: System)
    requires AgentInv(c, s) && s.disk.Some? && s.disk.value.phase.Completed?
    ensures Lists(s, s.disk.value.job.id) != []
    ensures AllTaken(c, Lists(s, s.disk.value.job.id)[0]) ==> AllTaken(c, s.disk.value.events)
  {
    hide AgentInv, PcOK, Takes, HexId, ListOK;
    Held(c, s);
  }

  /** A new system in which a job has been created, claimed and saved. */
  ghost function Started(c: Config, job: Job, event: Event): System {
    System(Answer(c, INITIAL.(hub := CreateJob(EMPTY_HUB, job, event)), c.agent).0,
      Some(JobState(Claimed(job), Executing, [])),
           Saved(Claimed(job)), {}, true, 0, map[], map[], map[])
  }

  lemma StartedIsReachable(c: Config, job: Job, event: Event)
    requires Drafted(job, event) && HexId(job.id) && job.scope == c.agent.scope && job.agentId == c.agent.id
    requires c.does.declined(Claimed(job)).None?
    ensures Reachable(c, Started(c, job, event))
  {
    hide Reaches, Drafted, ClaimNext, Handled, HexId;
    ReachesSelf(Steps(c), INITIAL);
    var s1 := INITIAL.(hub := CreateJob(EMPTY_HUB, job, event));
    ReachesStep(Steps(c), INITIAL, INITIAL, OperatorCreates(job, event), s1);
    var s2 := s1.(pc := Claiming, claimSent := true);
    ReachesStep(Steps(c), INITIAL, s1, BeginClaim, s2);
    OnlyJobIsClaimed(c, s2, job, event);
    var s3 := s2.(hub := Answer(c, s2, c.agent).0, pc := GotClaim(Claimed(job)));
    ReachesStep(Steps(c), INITIAL, s2, ClaimReply, s3);
    ReachesStep(Steps(c), INITIAL, s3, SaveExecuting, Started(c, job, event));
  }

  /** The failure is real: a job whose result holds a message the hub refuses brings a fault-free run of a new system
      there. */
  lemma BlockedIsReachable(c: Config, job: Job, event: Event, outcome: Outcome) returns (s: System)
    requires Lawful(c) && Drafted(job, event) && HexId(job.id) && job.scope == c.agent.scope
      && job.agentId == c.agent.id
    requires c.does.declined(Claimed(job)).None? && !AllTaken(c, c.does.results(Claimed(job), outcome))
    ensures Reachable(c, s) && s.pc.Idle? && Lists(s, job.id) == [WireAll(c, c.does.results(Claimed(job), outcome))]
    ensures s.disk.Some? && s.disk.value.phase.Completed? && s.disk.value.job == Claimed(job)
      && !AllTaken(c, s.disk.value.events)
  {
    hide Lawful, AllTaken, Reaches, Drafted, Answer, Handled, HexId, WireAll;
    var claimed, events := Claimed(job), c.does.results(Claimed(job), outcome);
    StartedIsReachable(c, job, event);
    var s4 := Started(c, job, event);
    var s5 := s4.(pc := Running(claimed), runs := s4.runs[job.id := 1]);
    ReachesStep(Steps(c), INITIAL, s4, Start, s5);
    var s6 := s5.(pc := Ran(claimed, events), outcomes := s5.outcomes[job.id := [outcome.error.None?]]);
    assert Outcomes(s5, job.id) + [outcome.error.None?] == [outcome.error.None?];
    ReachesStep(Steps(c), INITIAL, s5, Finish(outcome), s6);
    var s7 := Listed(c, s6, claimed, events);
    assert Lists(s6, job.id) + [WireAll(c, events)] == [WireAll(c, events)];
    ReachesStep(Steps(c), INITIAL, s6, SaveResult, s7);
    s := s7.(pc := Idle);
    ReachesStep(Steps(c), INITIAL, s7, Abandon, s);
    WiredIsTaken(c, events);
  }

  lemma OnlyJobIsClaimed(c: Config, s: System, job: Job, event: Event)
    requires Drafted(job, event) && job.scope == c.agent.scope && job.agentId == c.agent.id
    requires s.hub == CreateJob(EMPTY_HUB, job, event)
    ensures Offer(c, s) == Some(Claimed(job))
  {
    hide ClaimNext, Drafted, HexId, LogShape;
    var key := JobKey(job.scope, job.id);
    CreateExtends(EMPTY_HUB, job, event);
    DraftedJob(job, event);
    ClaimIsExact(s.hub, c.agent, s.clock, s.clock - c.lease);
    assert key in WithStatus(s.hub, c.agent, StatusQueued) && WithStatus(s.hub, c.agent, StatusRunning) == {};
  }

  /** Such a job: a reboot that prints eleven thousand bytes which are not UTF-8. */
  lemma RefusedOutputBlocks(agent: Agent, lease: int, id: Bytes, key: Bytes, requestedAt: Time)
      returns (c: Config, s: System)
    requires agent.id != [] && HexId(id)
    ensures c == Config(agent, lease, Actual(Identity(agent.id, Pinned(key)))) && Reachable(c, s)
    ensures s.pc.Idle? && s.disk.Some? && s.disk.value.phase.Completed? && s.disk.value.job.id == id
      && !AllTaken(c, s.disk.value.events)
  {
    hide Lawful, Truncated, OutputText, Wire, TrimSpace, Reachable;
    var identity := Identity(agent.id, Pinned(key));
    c := Config(agent, lease, Actual(identity));
    ActualIsLawful(c, identity);
    var request := CreateRequest(HostReboot, [], [65], [65]);
    var (job, event) := NewJob(agent.scope, agent.id, request, id, key, requestedAt);
    assert ValidRequest(agent.id, request) && Drafted(job, event);
    var output := RefusedOutput(HostReboot);
    var outcome := Outcome(output, None);
    assert !Takes(c, c.does.results(Claimed(job), outcome)[0].message);
    assert Refusal(Claimed(job), identity).None?;
    s := BlockedIsReachable(c, job, event, outcome);
  }
}
