/** internal/agent/job_executor.go and job_state.go as written: `ProcessNext` against a hub store, a durable
    cell and a network, all of which may fail, or be used by others while it runs. Every call is a path of the
    step system, so what JobSafety proves of reachable states holds of this code. */
module JobExecutor {
  import opened Wrappers
  import opened Text
  import opened Tenancy
  import opened Clock
  import opened Runs
  import opened Jobs
  import opened JobStore
  import opened JobExecution
  import opened JobProtocol
  import opened JobSafety
  import opened JobProgress

  class JobExecutor {
    const config: Config
    const identity: Identity
    const hub: Service
    var state: Option<JobState>             // the durable cell
    var sent: set<Request>                  // the network: everything ever sent
    var claimSent: bool
    var clock: Time
    ghost var pc: Pc
    ghost var lists: map<Bytes, seq<seq<EventRequest>>>
    ghost var runs: map<Bytes, nat>
    ghost var outcomes: map<Bytes, seq<bool>>

    ghost function World(): System
      reads this, hub.store
    {
      System(hub.store.View(), state, pc, sent, claimSent, clock, lists, runs, outcomes)
    }

    ghost predicate Valid()
      reads this, hub.store
    {
      && config.agent.Valid() && config.lease == hub.jobLease && config.does == Actual(identity)
      && Inv(config, World())
    }

    /** On a path of the protocol from this state. */
    ghost predicate Since(start: System)
      reads this, hub.store
    {
      Valid() && Reaches(Steps(config), start, World())
    }

    constructor (config: Config, identity: Identity, hub: Service)
      requires config.agent.Valid() && config.lease == hub.jobLease && config.does == Actual(identity)
      requires hub.store.View() == EMPTY_HUB
      ensures Valid() && World() == INITIAL && this.config == config && this.identity == identity && this.hub == hub
    {
      hide Actual;
      this.config, this.identity, this.hub := config, identity, hub;
      state, sent, claimSent, clock, pc := None, {}, false, 0, Idle;
      lists, runs, outcomes := map[], map[], map[];
    }

    // -------------------------------------------------------------- the rest of the system

    /** Anything the others may do: time, late duplicates, operators, other agents. */
    method Environment(ghost start: System)
      requires Since(start)
      modifies `clock, hub.store
      ensures Since(start)
    {
      hide Inv, Reaches, Actual, Lawful;
      var rounds: nat := *;
      while rounds > 0
        invariant Since(start)
        decreases rounds
      {
        ghost var before := World();
        ghost var m := OneDisturbance();
        Onward(config, identity, start, before, m, World());
        rounds := rounds - 1;
      }
    }

    method OneDisturbance() returns (ghost m: Move)
      requires Valid()
      modifies `clock, hub.store
      ensures Step(config, old(World()), m, World())
    {
      hide HubInv, AgentInv, Orderly, Report, ClaimNext, Handled, Actual, Lawful, Drafted, HexId;
      ghost var before := World();
      var choice: nat := *;
      if choice == 0 && sent != {} {
        var r :| r in sent;
        m := Redeliver(r);
        HubAnswers(config, identity, before, config.agent, r.jobId, r.event);
        var reply := hub.Report(config.agent, r.jobId, r.event, clock);
      } else if choice == 1 && claimSent {
        m := LateClaim;
        var reply := hub.ClaimNext(config.agent, clock);
      } else if choice == 2 {
        m := OperatorAsks(before);
      } else if choice == 3 {
        m := OtherAgent(before);
      } else {
        var delay: nat := *;
        m := Tick(delay);
        clock := clock + delay;
      }
    }

    method OtherAgent(ghost before: System) returns (ghost m: Move)
      requires Valid() && before == World()
      modifies hub.store
      ensures Step(config, before, m, World())
    {
      hide Valid, Step;
      var other: Agent, claims: bool := *, *;
      if other == config.agent || !other.Valid() {
        m := Tick(0);
        assert Step(config, before, m, before) by { NoTime(config, before); }
      } else if claims {
        m := AgentClaims(other, before);
      } else {
        m := AgentReports(other, before);
      }
    }

    method AgentClaims(other: Agent, ghost before: System) returns (ghost m: Move)
      requires Valid() && before == World() && other != config.agent && other.Valid()
      modifies hub.store
      ensures Step(config, before, m, World())
    {
      hide HubInv, AgentInv, Orderly, ClaimNext, Handled, Actual, Lawful, Drafted, HexId;
      m := OtherClaims(other);
      var reply := hub.ClaimNext(other, clock);
    }

    method AgentReports(other: Agent, ghost before: System) returns (ghost m: Move)
      requires Valid() && before == World() && other != config.agent && other.Valid()
      modifies hub.store
      ensures Step(config, before, m, World())
    {
      hide HubInv, AgentInv, Orderly, Answer, Report, Handled, Actual, Lawful, Drafted, HexId;
      var jobId: Bytes, report: EventRequest := *, *;
      m := OtherReports(other, jobId, report);
      HubAnswers(config, identity, before, other, jobId, report);
      var reply := hub.Report(other, jobId, report, clock);
    }

    /** The new job's ID is drawn at random: it is new. */
    method OperatorAsks(ghost before: System) returns (ghost m: Move)
      requires Valid() && before == World()
      modifies hub.store
      ensures Step(config, before, m, World())
    {
      hide HubInv, AgentInv, Orderly, Draft, Drafted, Actual, Lawful, Answer, Handled, HexId, Verify, CreateJob;
      var scope: Scope, agentId: Bytes, request: CreateRequest, id: Bytes := *, *, *, *;
      m := Tick(0);
      if JobKey(scope, id) !in hub.store.jobs && HexId(id) {
        var job := hub.Create(scope, agentId, request, Ok(true), Ok(id), clock);
        if job.Ok? {
          ghost var d := Draft(scope, agentId, request, Ok(true), Ok(id), hub.signingKey, before.clock);
          DraftIsDrafted(scope, agentId, request, Ok(true), Ok(id), hub.signingKey, before.clock);
          m := OperatorCreates(d.value.0, d.value.1);
        }
      }
    }

    // -------------------------------------------------------------- what the executor calls

    /** Any error return, and any crash: the process is back outside `ProcessNext`. */
    method Stop(ghost start: System)
      requires Since(start)
      modifies `pc
      ensures Since(start) && pc.Idle?
    {
      hide Inv, Reaches, Actual, Lawful;
      ghost var before := World();
      pc := Idle;
      Onward(config, identity, start, before, Abandon, World());
    }

    /** `FileJobStateStore.Save`: replaces the file atomically or leaves it; the process may die after it. `m` is the
        step it completes. Here and below nothing fails and nothing is lost when `calm`. */
    method Save(st: JobState, ghost m: Move, ghost t: System, calm: bool, ghost start: System) returns (ok: bool)
      requires Since(start) && Step(config, World(), m, t)
        && t == World().(disk := t.disk, pc := t.pc, lists := t.lists)
      requires t.disk == Some(JobState(st.job, st.phase, WireAll(config, st.events)))
      modifies `state, `pc, `lists
      ensures Since(start)
      ensures if ok then World() == t else pc.Idle? && !calm
    {
      hide Inv, Step, Reaches, Actual, Lawful, WireAll;
      ghost var before := World();
      var written: bool := *;
      ok := *;
      if calm { written, ok := true, true; }
      if written || ok {
        state := Some(JobState(st.job, st.phase, WireAll(config, st.events)));
        pc, lists := t.pc, t.lists;
        Onward(config, identity, start, before, m, t);
      }
      if !ok { Stop(start); }
    }

    method Delete(calm: bool, ghost start: System) returns (ok: bool)
      requires Since(start) && pc.Acked? && |pc.events| == 1
      modifies `state, `pc
      ensures Since(start) && pc.Idle?
      ensures if ok then state.None? && Settled(old(pc).job.id) else !calm
    {
      hide Inv, Reaches, Actual, Lawful, Open, Answer, Deliver, Drafted, HexId;
      ghost var before := World();
      DeletedIsFinished(config, before);
      var removed: bool := *;
      ok := *;
      if calm { removed, ok := true, true; }
      if removed || ok {
        state, pc := None, Idle;
        Onward(config, identity, start, before, JobProtocol.Delete, World());
      }
      if !ok { Stop(start); }
    }

    /** The hub holds the job as finished. */
    ghost predicate Settled(id: Bytes)
      reads this, hub.store
    {
      config.Key(id) !in Open(config, hub.store.View())
    }

    /** The answer may be lost after the hub has acted, and the request before. `asked` is the system as the
        hub takes the claim. */
    method ClaimNextJob(calm: bool, ghost start: System) returns (ok: bool, job: Option<Job>, ghost asked: System)
      requires Since(start) && pc.Idle? && state.None?
      modifies `pc, `claimSent, `clock, hub.store
      ensures Since(start)
      ensures if ok && job.Some? then pc == GotClaim(job.value) && HexId(job.value.id) else pc.Idle?
      ensures if ok then Reaches(Steps(config), start, asked) && asked.pc.Claiming? && job == Offer(config, asked)
        && Since(asked)
              else !calm
    {
      hide Inv, HexId, Reaches, Actual, Lawful, Answer, Deliver, Drafted;
      ghost var before := World();
      pc, claimSent := Claiming, true;
      Onward(config, identity, start, before, BeginClaim, World());
      Environment(start);
      asked := World();
      job := None;
      ok := *;
      if !calm && !ok { Stop(start); return; }
      job := TakeClaim(start);
      ok := *;
      if calm { ok := true; }
      if !ok { Stop(start); }
    }

    /** The hub takes the claim and its answer arrives. */
    method TakeClaim(ghost start: System) returns (job: Option<Job>)
      requires Since(start) && pc.Claiming?
      modifies `pc, hub.store
      ensures Since(start) && Since(old(World())) && job == old(Offer(config, World()))
      ensures if job.Some? then pc == GotClaim(job.value) && HexId(job.value.id) else pc.Idle?
    {
      hide AgentInv, HubInv, Orderly, ClaimNext, HexId, Reaches, Actual, Lawful, Handled, Drafted;
      ghost var asked := World();
      ClaimedIsNamed(config, asked);
      var reply := hub.ClaimNext(config.agent, clock);
      job := reply.value;
      pc := if job.Some? then GotClaim(job.value) else Idle;
      Onward(config, identity, start, asked, ClaimReply, World());
      ReachesSelf(Steps(config), asked);
      Onward(config, identity, asked, asked, ClaimReply, World());
    }

    method ReportJobEvent(job: Job, event: EventRequest, ghost events: seq<EventRequest>, calm: bool,
        ghost start: System)
      returns (ok: bool)
      requires Since(start) && events != [] && event == events[0] && pc == Flushing(job, events)
      modifies `pc, `sent, `clock, hub.store
      ensures Since(start)
      ensures pc == if ok then Acked(job, events) else Idle
      ensures calm && Takes(config, event.message) ==> ok
    {
      hide Inv, Reaches, Takes, Actual, Lawful, Answer, Deliver, Drafted, HexId;
      ghost var before := World();
      var request := Request(job.id, config.Wired(event));
      sent := sent + {request};
      pc := Posting(job, events);
      Onward(config, identity, start, before, Post, World());
      Environment(start);
      ok := *;
      if !calm && !ok { Stop(start); return; }
      ok := Receive(job, request, events, start);
      var arrived: bool := *;
      if ok && !calm && !arrived {
        ok := false;
        Stop(start);
      }
    }

    /** The hub takes the request and its answer arrives. */
    method Receive(job: Job, request: Request, ghost events: seq<EventRequest>, ghost start: System) returns (ok: bool)
      requires Since(start) && events != [] && pc == Posting(job, events) && request == Head(config, pc)
      modifies `pc, hub.store
      ensures Since(start)
      ensures pc == if ok then Acked(job, events) else Idle
      ensures Takes(config, events[0].message) ==> ok
    {
      hide AgentInv, HubInv, Orderly, Reaches, Takes, Actual, Lawful, Answer, Handled, Report, Drafted, HexId;
      ghost var before := World();
      ActualIsLawful(config, identity);
      AgentParts(config, before);
      SentNeverConflicts(config, before, request);
      TakenOnWire(config, events[0].message);
      HubAnswers(config, identity, before, config.agent, job.id, request.event);
      var reply := hub.Report(config.agent, job.id, request.event, clock);
      ok := reply.Ok?;
      pc := if ok then Acked(job, events) else Idle;
      Onward(config, identity, start, before, PostReply, World());
    }

    /** The platform action; the process may die in it. */
    method Execute(job: Job, execute: Job -> Outcome, calm: bool, ghost start: System)
        returns (ok: bool, outcome: Outcome)
      requires Since(start) && pc == Saved(job)
      modifies `pc, `runs, `outcomes, `clock, hub.store
      ensures Since(start) && outcome == execute(job)
      ensures if ok then pc == Ran(job, ResultEvents(job.action, outcome)) else pc.Idle? && !calm
    {
      hide Inv, ResultEvents, Reaches, Actual, Lawful, Answer, Handled, Drafted, HexId;
      ghost var before := World();
      runs := runs[job.id := RunsOf(before, job.id) + 1];
      pc := Running(job);
      Onward(config, identity, start, before, Start, World());
      Environment(start);
      outcome := execute(job);
      ok := *;
      if !calm && !ok { Stop(start); return; }
      ok := true;
      Return(job, outcome, start);
    }

    ghost method Return(job: Job, outcome: Outcome, start: System)
      requires Since(start) && pc == Running(job)
      modifies `pc, `outcomes
      ensures Since(start) && pc == Ran(job, ResultEvents(job.action, outcome))
    {
      hide Inv, ResultEvents, Reaches, Actual, Lawful, Answer, Handled, Drafted, HexId;
      var before := World();
      ActsAs(config, identity, job, outcome);
      outcomes := outcomes[job.id := Outcomes(before, job.id) + [outcome.error.None?]];
      pc := Ran(job, ResultEvents(job.action, outcome));
      Onward(config, identity, start, before, Finish(outcome), World());
    }

    // -------------------------------------------------------------- ProcessNext

    method FlushState(job: Job, allEvents: seq<EventRequest>, calm: bool, ghost start: System) returns (ok: bool)
      requires Since(start) && allEvents != [] && pc == Flushing(job, allEvents)
      modifies `state, `pc, `lists, `sent, `clock, hub.store
      ensures Since(start) && pc.Idle?
      ensures ok ==> state.None? && Settled(job.id)
      ensures calm && AllTaken(config, allEvents) ==> ok
    {
      hide Inv, Reaches, Takes, Open, Actual, Lawful, Answer, Deliver, Drafted, HexId, WireAll;
      var events := allEvents;
      while |events| > 0
        invariant Since(start)
        invariant if events != [] then pc == Flushing(job, events) else pc.Acked? && |pc.events| == 1 && pc.job == job
        invariant AllTaken(config, allEvents) ==> AllTaken(config, events)
        decreases |events|
      {
        Environment(start);
        ok := ReportJobEvent(job, events[0], events, calm, start);
        if !ok { return; }
        Environment(start);
        events := events[1..];
        if |events| > 0 {
          ghost var t := World().(disk := Some(JobState(job, Completed, WireAll(config, events))),
              pc := Flushing(job, events));
          ok := Save(JobState(job, Completed, events), SaveRest, t, calm, start);
          if !ok { return; }
        }
      }
      ok := Delete(calm, start);
    }

    method ReportEvents(job: Job, events: seq<EventRequest>, calm: bool, ghost start: System) returns (ok: bool)
      requires Since(start) && events != [] && pc == Ran(job, events)
      modifies `state, `pc, `lists, `sent, `clock, hub.store
      ensures Since(start) && pc.Idle?
      ensures ok ==> state.None? && Settled(job.id)
      ensures calm && AllTaken(config, events) ==> ok
    {
      hide Inv, Reaches, AllTaken, Open, Actual, Lawful, Answer, Deliver, Drafted, HexId, WireAll;
      Environment(start);
      ok := Save(JobState(job, Completed, events), SaveResult, Listed(config, World(), job, events), calm, start);
      if !ok { return; }
      ok := FlushState(job, events, calm, start);
    }

    /** `recovered` tells the caller that a durable state was found, or could not be read. */
    method RecoverState(calm: bool, ghost start: System) returns (recovered: bool, ok: bool)
      requires Since(start) && pc.Idle?
      modifies `state, `pc, `lists, `sent, `clock, hub.store
      ensures Since(start) && pc.Idle?
      ensures ok ==> state.None? && (recovered <==> old(state).Some?)
      ensures ok && recovered ==> Settled(old(state).value.job.id)
      ensures !ok ==> recovered
      ensures calm && DiskTaken(config, old(state)) && AllTaken(config, Apology(old(state))) ==> ok
    {
      hide Inv, Reaches, AllTaken, Open, Actual, Lawful, Answer, Deliver, Drafted, HexId, WireAll;
      var readable: bool := *;
      if !calm && !readable { return true, false; }
      if state.None? { return false, true; }
      ghost var before := World();
      HeldParts(config, before);
      var st := state.value;
      recovered := true;
      if st.job.agentId != config.agent.id || !HexId(st.job.id) { return true, false; }
      if st.phase.Executing? {
        var events := InterruptedEvents(st.job);
        ActsAs(config, identity, st.job, Outcome([], None));
        ok := Save(JobState(st.job, Completed, events), BeginInterrupted, Listed(config, before, st.job, events), calm,
          start);
        if !ok { return; }
        ok := FlushState(st.job, events, calm, start);
      } else {
        pc := Flushing(st.job, st.events);
        Onward(config, identity, start, before, BeginRecover, World());
        ok := FlushState(st.job, st.events, calm, start);
      }
    }

    /** What is reported for a state found on disk in phase "executing". */
    static function Apology(disk: Option<JobState>): seq<EventRequest> {
      if disk.Some? && disk.value.phase.Executing? then InterruptedEvents(disk.value.job) else []
    }

    /** One call is a path of the protocol back to `Idle`. A call that returns no error leaves nothing on disk
        and has settled the job it found there; if there was none it asked the hub (`asked`) and settled the
        job it was given. A calm call returns no error as long as the hub takes the messages. */
    method ProcessNext(execute: Job -> Outcome, calm: bool) returns (ok: bool, ghost asked: System)
      requires Valid() && pc.Idle?
      modifies this, hub.store
      ensures Valid() && pc.Idle? && Reaches(Steps(config), old(World()), World())
      ensures ok ==> state.None?
      ensures ok && old(state).Some? ==> Settled(old(state).value.job.id)
      ensures ok && old(state).None? ==>
        && Reaches(Steps(config), old(World()), asked) && asked.pc.Claiming? && Reaches(Steps(config), asked, World())
        && (Offer(config, asked).Some? ==> Settled(Offer(config, asked).value.id))
      ensures calm && DiskTaken(config, old(state)) && Composable(config, execute) ==> ok
    {
      hide Inv, Reaches, Step, Lawful, Actual, HexId, Open, Composable, AllTaken, Offer;
      ghost var start := World();
      asked := start;
      ReachesSelf(Steps(config), start);
      if Composable(config, execute) { ApologyIsTaken(config, identity, execute, state); }
      var recovered;
      recovered, ok := RecoverState(calm, start);
      if recovered || !ok { return; }
      Environment(start);
      var claimed;
      ok, claimed, asked := ClaimNextJob(calm, start);
      if !ok || claimed.None? { return; }
      if !HexId(claimed.value.id) { return false, asked; }
      ok := ProcessJob(claimed.value, execute, calm, asked);
      ReachesTransitive(Steps(config), start, asked, World());
    }

    /** From a claimed job on. */
    method ProcessJob(job: Job, execute: Job -> Outcome, calm: bool, ghost start: System) returns (ok: bool)
      requires Since(start) && pc == GotClaim(job)
      modifies this, hub.store
      ensures Since(start) && pc.Idle?
      ensures ok ==> state.None? && Settled(job.id)
      ensures calm && Composable(config, execute) ==> ok
    {
      hide Inv, Reaches, Lawful, Actual, HexId, Open, Composable, AllTaken, ResultEvents, Refusal, Answer, Deliver,
        Drafted;
      if Composable(config, execute) { Composes(config, execute, job); }
      Environment(start);
      ghost var before := World();
      ActsAs(config, identity, job, execute(job));
      var declined := DeclineEvents(identity, job);
      if declined.Some? {
        pc := Ran(job, declined.value);
        Onward(config, identity, start, before, Decline, World());
        NotEmpty(config, World());
        ok := ReportEvents(job, declined.value, calm, start);
        return;
      }
      ghost var t := before.(disk := Some(JobState(job, Executing, [])), pc := Saved(job));
      ok := Save(JobState(job, Executing, []), SaveExecuting, t, calm, start);
      if !ok { return; }
      Environment(start);
      var outcome;
      ok, outcome := Execute(job, execute, calm, start);
      if !ok { return; }
      NotEmpty(config, World());
      ok := ReportEvents(job, ResultEvents(job.action, outcome), calm, start);
    }
  }

  /** One step further on a path, with the executor as it is. */
  lemma Onward(c: Config, identity: Identity, start: System, s: System, m: Move, t: System)
    requires c.does == Actual(identity) && Inv(c, s) && Reaches(Steps(c), start, s) && Step(c, s, m, t)
    ensures Inv(c, t) && Reaches(Steps(c), start, t)
  {
    hide Inv, Step, Reaches, Actual, Lawful;
    ActualIsLawful(c, identity);
    Go(c, start, s, m, t);
  }

  /** The hub's service answers a report as the protocol says. */
  lemma HubAnswers(c: Config, identity: Identity, s: System, agent: Agent, jobId: Bytes, e: EventRequest)
    requires c.does == Actual(identity)
    ensures Handled(c, s, agent, jobId, e) == Report(s.hub, agent, jobId, e, s.clock)
  {
    hide TrimSpace, ReportNormalized;
  }

  lemma ActsAs(c: Config, identity: Identity, job: Job, outcome: Outcome)
    requires c.does == Actual(identity)
    ensures c.does.declined(job) == DeclineEvents(identity, job)
    ensures c.does.interrupted(job) == InterruptedEvents(job) != []
    ensures c.does.results(job, outcome) == ResultEvents(job.action, outcome)
  {
    hide DeclineEvents, ResultEvents;
  }

  lemma ApologyIsTaken(c: Config, identity: Identity, execute: Job -> Outcome, disk: Option<JobState>)
    requires c.does == Actual(identity) && Composable(c, execute)
    ensures AllTaken(c, JobExecutor.Apology(disk))
  {
    hide Composable, AllTaken;
    PartTaken(c, []);
    if disk.Some? {
      ActsAs(c, identity, disk.value.job, Outcome([], None));
      Composes(c, execute, disk.value.job);
    }
  }

  lemma NoTime(c: Config, s: System)
    ensures Step(c, s, Tick(0), s)
  {}

  lemma HeldParts(c: Config, s: System)
    requires Inv(c, s) && s.disk.Some?
    ensures s.disk.value.job.agentId == c.agent.id && HexId(s.disk.value.job.id)
    ensures s.disk.value.phase.Completed? ==> s.disk.value.events != []
  {
    hide HubInv, Orderly, AgentInv, HexId;
    Held(c, s);
    if s.disk.value.phase.Completed? { WiredDisk(c, s); }
  }

  lemma NotEmpty(c: Config, s: System)
    requires Inv(c, s) && s.pc.Ran?
    ensures s.pc.events != []
  {
    hide HubInv, Orderly, ViewOK;
    assert ListShape(c, WireAll(c, s.pc.events));
  }

  /** A state is deleted only when the hub has the job finished. */
  lemma DeletedIsFinished(c: Config, s: System)
    requires Inv(c, s) && s.pc.Acked? && |s.pc.events| == 1
    ensures c.Key(s.pc.job.id) !in Open(c, s.hub)
  {
    hide AgentInv, HubInv, Orderly, Open, HexId, ListOK;
    Held(c, s);
    DiskIsOpen(c, s);
  }
}
