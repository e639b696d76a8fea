/** Progress of the job protocol among others: late duplicates, other agents, their operators and the clock may move
    between any two steps of a fault-free agent, without bound, and can only put the drained state off. */
module JobFairness {
  import opened Sets
  import opened Text
  import opened Tenancy
  import opened Runs
  import opened Jobs
  import opened JobExecution
  import opened JobProtocol
  import opened JobSafety
  import opened JobProgress

  predicate Own(c: Config, job: Job) { job.agentId == c.agent.id && job.scope == c.agent.scope }

  /** What may happen besides the agent's own steps: everything but faults of the agent and new work for it. */
  predicate Others(c: Config, m: Move) {
    match m
    case OperatorCreates(job, _) => !Own(c, job)
    case _ => m.Tick? || m.Redeliver? || m.LateClaim? || m.OtherClaims? || m.OtherReports?
  }

  ghost predicate Among(c: Config, execute: Job -> Outcome, s: System, m: Move, t: System) {
    Step(c, s, m, t) && (m == AgentMove(c, s, execute) || Others(c, m))
  }

  /** An endless run: `moves(i)` takes `states(i)` to the next state. */
  datatype Course = Course(states: nat -> System, moves: nat -> Move)

  ghost predicate Moves(c: Config, execute: Job -> Outcome, run: Course, i: nat) {
    Among(c, execute, run.states(i), run.moves(i), run.states(i + 1))
  }

  /** The agent moves again at `i` or later. */
  ghost predicate Turn(c: Config, execute: Job -> Outcome, run: Course, i: nat) {
    exists j: nat :: i <= j && run.moves(j) == AgentMove(c, run.states(j), execute)
  }

  /** In a fair run the agent's turn comes again and again; how much happens in between has no bound. */
  ghost predicate Fair(c: Config, execute: Job -> Outcome, run: Course) {
    (forall i: nat :: Moves(c, execute, run, i)) && (forall i: nat :: Turn(c, execute, run, i))
  }

  // ---------------------------------------------------------------- what the others do to the agent's jobs

  /** The store has only grown, and by no job of the agent. */
  ghost predicate Grows(c: Config, h: Hub, h': Hub) {
    Extends(h, h') && forall k | k in h'.jobs && k !in h.jobs :: !Own(c, h'.jobs[k])
  }

  lemma StepGrows(c: Config, s: System, m: Move, t: System)
    requires HubInv(s.hub) && Step(c, s, m, t) && (m.OperatorCreates? ==> !Own(c, m.job))
    ensures Grows(c, s.hub, t.hub) && s.clock <= t.clock
  {
    hide HubInv, ClaimNext, ReportNormalized, Drafted, HexId, Head, Extends, WireAll;
    ExtendsReflexive(s.hub);
    match m
    case ClaimReply => ClaimGrows(c, s, c.agent);
    case LateClaim => ClaimGrows(c, s, c.agent);
    case OtherClaims(other) => ClaimGrows(c, s, other);
    case PostReply => var r := Head(c, s.pc); ReportGrows(c, s, c.agent, r.jobId, r.event);
    case Redeliver(r) => ReportGrows(c, s, c.agent, r.jobId, r.event);
    case OtherReports(other, jobId, e) => ReportGrows(c, s, other, jobId, e);
    case OperatorCreates(job, event) => CreateExtends(s.hub, job, event);
    case _ =>
  }

  lemma ClaimGrows(c: Config, s: System, agent: Agent)
    requires HubInv(s.hub)
    ensures Grows(c, s.hub, Answer(c, s, agent).0)
  {
    hide HubInv, ClaimNext, Extends;
    ClaimIsExact(s.hub, agent, s.clock, s.clock - c.lease);
    ClaimChanges(s.hub, agent, s.clock, s.clock - c.lease);
  }

  lemma ReportGrows(c: Config, s: System, agent: Agent, jobId: Bytes, e: EventRequest)
    requires HubInv(s.hub)
    ensures Grows(c, s.hub, Handled(c, s, agent, jobId, e).0)
  {
    hide HubInv, ReportNormalized, Extends;
    var trimmed := e.(message := c.does.trim(e.message));
    ReportExtends(s.hub, agent, c.does.trim(jobId), trimmed, s.clock);
    ReportChanges(s.hub, agent, c.does.trim(jobId), trimmed, s.clock);
  }

  ghost function Waiting(c: Config, h: Hub): set<JobKey> { WithStatus(h, c.agent, StatusQueued) }

  ghost function Underway(c: Config, h: Hub): set<JobKey> { WithStatus(h, c.agent, StatusRunning) }

  ghost predicate SameClaim(h: Hub, h': Hub, k: JobKey) {
    k in h.events && k in h'.events && |h.events[k]| >= 2 && |h'.events[k]| >= 2 && h.events[k][1] == h'.events[k][1]
  }

  lemma OneShrinks(c: Config, h: Hub, h': Hub, k: JobKey)
    requires HubInv(h) && HubInv(h') && Grows(c, h, h') && k in Open(c, h')
    ensures k in Open(c, h) && (k in Waiting(c, h') ==> k in Waiting(c, h))
    ensures k in Underway(c, h) ==> SameClaim(h, h', k)
  {
    hide LogShape;
    assert k in h.jobs;
    assert JobInv(h.jobs[k], h.events[k], k) && JobInv(h'.jobs[k], h'.events[k], k);
    assert h.events[k] <= h'.events[k];
  }

  /** An open job of the agent stays open or finishes, a queued one stays queued or starts; a running one keeps its
      claim. */
  lemma OpenShrinks(c: Config, h: Hub, h': Hub)
    requires HubInv(h) && HubInv(h') && Grows(c, h, h')
    ensures Open(c, h') <= Open(c, h) && Waiting(c, h') <= Waiting(c, h)
    ensures forall k | k in Underway(c, h) && k in Open(c, h') :: SameClaim(h, h', k)
  {
    hide Grows;
    forall k | k in Open(c, h')
      ensures k in Open(c, h) && (k in Waiting(c, h') ==> k in Waiting(c, h))
      ensures k in Underway(c, h) ==> SameClaim(h, h', k)
    {
      OneShrinks(c, h, h', k);
    }
  }

  /** When a claim would be answered with a job. */
  lemma OfferedExactlyWhen(c: Config, s: System)
    requires HubInv(s.hub)
    ensures Offer(c, s).Some? <==>
      || (Underway(c, s.hub) == {} && Waiting(c, s.hub) != {})
      || exists k | k in Underway(c, s.hub) ::
           k in s.hub.events && |s.hub.events[k]| >= 2 && s.hub.events[k][1].occurredAt <= s.clock - c.lease
  {
    hide ClaimNext, Extends, LogShape;
    ClaimIsExact(s.hub, c.agent, s.clock, s.clock - c.lease);
    forall k | k in Underway(c, s.hub) ensures k in s.hub.events && |s.hub.events[k]| >= 2 {
      assert JobInv(s.hub.jobs[k], s.hub.events[k], k);
    }
  }

  // ---------------------------------------------------------------- the measure

  /** Open jobs, queued ones among them, the stage of the agent, pending events, each counting more than the next. */
  ghost predicate Nearer(c: Config, t: System, s: System) {
    || Work(c, t) < Work(c, s)
    || (Work(c, t) == Work(c, s)
        && (|Waiting(c, t.hub)| < |Waiting(c, s.hub)|
            || (|Waiting(c, t.hub)| == |Waiting(c, s.hub)|
                && (Stage(c, t) < Stage(c, s) || (Stage(c, t) == Stage(c, s) && Pending(t) < Pending(s))))))
  }

  ghost predicate NoFarther(c: Config, t: System, s: System) {
    || Nearer(c, t, s)
    || (Work(c, t) == Work(c, s) && |Waiting(c, t.hub)| == |Waiting(c, s.hub)| && Stage(c, t) == Stage(c, s)
        && Pending(t) == Pending(s))
  }

  /** Whatever the others do, the agent is no farther from being done. */
  lemma OthersOnlyDelay(c: Config, s: System, t: System)
    requires HubInv(s.hub) && HubInv(t.hub) && Grows(c, s.hub, t.hub)
    requires t == s.(hub := t.hub, clock := t.clock, sent := t.sent) && s.clock <= t.clock
    ensures NoFarther(c, t, s)
  {
    hide HubInv, Grows, Offer, Open, Waiting;
    OpenShrinks(c, s.hub, t.hub);
    SubsetSize(Open(c, t.hub), Open(c, s.hub));
    SubsetSize(Waiting(c, t.hub), Waiting(c, s.hub));
    if Open(c, t.hub) == Open(c, s.hub) && Waiting(c, t.hub) == Waiting(c, s.hub) { OfferStays(c, s, t); }
  }

  /** With the same jobs open and queued an offer stays: leases only run out. */
  lemma OfferStays(c: Config, s: System, t: System)
    requires HubInv(s.hub) && HubInv(t.hub) && Grows(c, s.hub, t.hub) && s.clock <= t.clock
    requires Open(c, t.hub) == Open(c, s.hub) && Waiting(c, t.hub) == Waiting(c, s.hub)
    ensures Offer(c, s).Some? ==> Offer(c, t).Some?
  {
    hide HubInv, Grows, Offer;
    OpenShrinks(c, s.hub, t.hub);
    SameOpen(c, s.hub, t.hub);
    OfferedExactlyWhen(c, s);
    OfferedExactlyWhen(c, t);
  }

  lemma SameOpen(c: Config, h: Hub, h': Hub)
    requires Open(c, h) == Open(c, h') && Waiting(c, h) == Waiting(c, h')
    ensures Underway(c, h) == Underway(c, h')
  {
    forall k ensures k in Underway(c, h) <==> k in Underway(c, h') {
      assert k in Underway(c, h) <==> k in Open(c, h) && k !in Waiting(c, h);
      assert k in Underway(c, h') <==> k in Open(c, h') && k !in Waiting(c, h');
    }
  }

  // ---------------------------------------------------------------- steps

  /** A step is determined by its move. */
  lemma StepIsUnique(c: Config, s: System, m: Move, t: System, u: System)
    requires Step(c, s, m, t) && Step(c, s, m, u)
    ensures t == u
  {
    hide Answer, Deliver, Handled, Drafted, HexId, Head, Listed, Holds;
  }

  lemma AgentStepIsOwn(c: Config, s: System, execute: Job -> Outcome)
    ensures !AgentMove(c, s, execute).OperatorCreates?
  {}

  /** The agent's own step brings the system nearer to being drained, as long as it is not. */
  lemma AgentStepIsNearer(c: Config, s: System, execute: Job -> Outcome, t: System)
    requires Ready(c, s) && Composable(c, execute) && !Drained(c, s) && Step(c, s, AgentMove(c, s, execute), t)
    ensures Ready(c, t) && Nearer(c, t, s)
  {
    hide Step, AgentMove, HubInv, AgentInv, Orderly, Lawful, Composable, PcTaken, DiskTaken, Drained, Work, Stage,
      Pending, Grows;
    var u := AgentStepIsGood(c, s, execute);
    StepIsUnique(c, s, AgentMove(c, s, execute), t, u);
    AgentStepIsOwn(c, s, execute);
    StepGrows(c, s, AgentMove(c, s, execute), t);
    OpenShrinks(c, s.hub, t.hub);
    SubsetSize(Waiting(c, t.hub), Waiting(c, s.hub));
  }

  lemma OthersStep(c: Config, s: System, m: Move, t: System)
    requires Ready(c, s) && Step(c, s, m, t) && Others(c, m)
    ensures Ready(c, t) && NoFarther(c, t, s)
    ensures t.pc == s.pc && t.disk == s.disk && Grows(c, s.hub, t.hub)
  {
    hide HubInv, AgentInv, Orderly, Lawful, PcTaken, DiskTaken, Grows, NoFarther, Answer, Handled, Drafted, HexId;
    StepKeeps(c, s, m, t);
    StepGrows(c, s, m, t);
    OthersOnlyDelay(c, s, t);
  }

  /** Once drained, the agent only waits for work. */
  lemma DrainedWaits(c: Config, s: System, execute: Job -> Outcome)
    requires HubInv(s.hub) && Drained(c, s)
    ensures AgentMove(c, s, execute).Tick?
  {
    hide Offer, HubInv;
    OfferedExactlyWhen(c, s);
    assert Underway(c, s.hub) <= Open(c, s.hub) && Waiting(c, s.hub) <= Open(c, s.hub);
  }

  lemma AmongStep(c: Config, execute: Job -> Outcome, s: System, m: Move, t: System)
    requires Ready(c, s) && Composable(c, execute) && Among(c, execute, s, m, t)
    ensures Ready(c, t) && NoFarther(c, t, s) && (Drained(c, s) ==> Drained(c, t))
  {
    hide Step, AgentMove, HubInv, AgentInv, Orderly, Lawful, Composable, PcTaken, DiskTaken, Nearer, Open, Grows;
    if Drained(c, s) { DrainedWaits(c, s, execute); }
    if Others(c, m) {
      OthersStep(c, s, m, t);
      OpenShrinks(c, s.hub, t.hub);
    } else {
      AgentStepIsNearer(c, s, execute, t);
    }
  }

  // ---------------------------------------------------------------- fair runs

  lemma {:induction false} Meanwhile(c: Config, execute: Job -> Outcome, run: Course, i: nat, j: nat)
    requires i <= j && Fair(c, execute, run) && Ready(c, run.states(i)) && Composable(c, execute)
    ensures Ready(c, run.states(j)) && NoFarther(c, run.states(j), run.states(i))
    ensures Drained(c, run.states(i)) ==> Drained(c, run.states(j))
  {
    hide Ready, Composable, Drained, Among, Turn, Work, Stage, Pending, Waiting;
    if i < j {
      Meanwhile(c, execute, run, i, j - 1);
      assert Moves(c, execute, run, j - 1);
      AmongStep(c, execute, run.states(j - 1), run.moves(j - 1), run.states(j));
    }
  }

  lemma {:induction false} FairDrains(c: Config, execute: Job -> Outcome, run: Course, i: nat) returns (k: nat)
    requires Fair(c, execute, run) && Ready(c, run.states(i)) && Composable(c, execute)
    ensures Ready(c, run.states(k)) && Drained(c, run.states(k))
    decreases Work(c, run.states(i)), |Waiting(c, run.states(i).hub)|, Stage(c, run.states(i)), Pending(run.states(i))
  {
    hide Ready, Composable, Drained, Step, Work, Stage, Pending, Waiting, AgentMove;
    assert Turn(c, execute, run, i);
    var j: nat :| i <= j && run.moves(j) == AgentMove(c, run.states(j), execute);
    Meanwhile(c, execute, run, i, j);
    if Drained(c, run.states(j)) {
      k := j;
    } else {
      assert Moves(c, execute, run, j);
      AgentStepIsNearer(c, run.states(j), execute, run.states(j + 1));
      k := FairDrains(c, execute, run, j + 1);
    }
  }

  ghost predicate AllFinished(c: Config, h: Hub) {
    forall id | Mine(c, h, id) ::
      h.jobs[c.Key(id)].status.StatusSucceeded? || h.jobs[c.Key(id)].status.StatusFailed?
  }

  lemma DrainedIsFinished(c: Config, s: System)
    requires HubInv(s.hub) && Drained(c, s)
    ensures AllFinished(c, s.hub)
  {
    hide LogShape;
    forall id | Mine(c, s.hub, id)
      ensures s.hub.jobs[c.Key(id)].status.StatusSucceeded? || s.hub.jobs[c.Key(id)].status.StatusFailed?
    {
      assert JobInv(s.hub.jobs[c.Key(id)], s.hub.events[c.Key(id)], c.Key(id));
      assert c.Key(id) !in Open(c, s.hub);
    }
  }

  /** Every fair run that starts in a reachable state, with messages the hub takes and no faults or new jobs any more,
      is drained from some point on for ever: duplicates, late claims, other agents and the clock cannot prevent it. */
  lemma FairRunDrains(c: Config, execute: Job -> Outcome, run: Course) returns (k: nat)
    requires Lawful(c) && Reachable(c, run.states(0)) && c.lease > 0 && Fair(c, execute, run)
    requires PcTaken(c, run.states(0).pc) && DiskTaken(c, run.states(0).disk) && Composable(c, execute)
    ensures forall j: nat | k <= j :: Drained(c, run.states(j)) && AllFinished(c, run.states(j).hub)
  {
    hide Lawful, Reachable, Fair, PcTaken, DiskTaken, Composable, Drained, AllFinished, AgentInv, HubInv, Orderly;
    ReachableInv(c, run.states(0));
    k := FairDrains(c, execute, run, 0);
    forall j: nat | k <= j ensures Drained(c, run.states(j)) && AllFinished(c, run.states(j).hub) {
      Meanwhile(c, execute, run, k, j);
      DrainedIsFinished(c, run.states(j));
    }
  }

  /** The executor as it is, with platform actions that return well-formed text: nothing is asked of messages. */
  lemma WellFormedFairRunDrains(c: Config, identity: Identity, execute: Job -> Outcome, run: Course) returns (k: nat)
    requires c.does == Actual(identity) && c.lease > 0 && Reaches(WellFormedSteps(c), INITIAL, run.states(0))
    requires Fair(c, execute, run) && forall job: Job | c.does.declined(job).None? :: WellFormed(execute(job))
    ensures forall j: nat | k <= j :: Drained(c, run.states(j)) && AllFinished(c, run.states(j).hub)
  {
    hide Lawful, Actual, Inv, Fair, PcTaken, DiskTaken, Composable, WellFormed, Reportable, Reaches, Drained,
      AllFinished;
    ActualIsLawful(c, identity);
    WellFormedIsTaken(c, identity, run.states(0));
    forall job: Job | c.does.declined(job).None? ensures Reportable(execute(job)) {
      WellFormedIsReportable(execute(job));
    }
    ComposableExactlyWhen(c, identity, execute);
    WellFormedIsReachable(c, run.states(0));
    k := FairRunDrains(c, execute, run);
  }

  // ---------------------------------------------------------------- there are such runs

  ghost function Next(c: Config, execute: Job -> Outcome, s: System): System {
    if exists t :: Step(c, s, AgentMove(c, s, execute), t) then
      var t :| Step(c, s, AgentMove(c, s, execute), t);
      t
    else s
  }

  ghost function Alone(c: Config, execute: Job -> Outcome, s: System, i: nat): System {
    if i == 0 then s else Next(c, execute, Alone(c, execute, s, i - 1))
  }

  lemma NextIsStep(c: Config, execute: Job -> Outcome, s: System)
    requires Ready(c, s) && Composable(c, execute)
    ensures Step(c, s, AgentMove(c, s, execute), Next(c, execute, s)) && Ready(c, Next(c, execute, s))
  {
    hide AgentInv, HubInv, Orderly, Lawful, Composable, PcTaken, DiskTaken, Drained, NoFarther, AgentMove;
    if Drained(c, s) {
      DrainedSteps(c, execute, s);
    } else {
      var t := AgentStepIsGood(c, s, execute);
    }
    AmongStep(c, execute, s, AgentMove(c, s, execute), Next(c, execute, s));
  }

  lemma DrainedSteps(c: Config, execute: Job -> Outcome, s: System)
    requires HubInv(s.hub) && Drained(c, s)
    ensures exists t :: Step(c, s, AgentMove(c, s, execute), t)
  {
    hide HubInv, Open, Offer;
    DrainedWaits(c, s, execute);
    var m := AgentMove(c, s, execute);
    assert Step(c, s, m, s.(clock := s.clock + m.delay));
  }

  /** From every state that can progress, a fair run: the agent's own steps, for ever. */
  lemma FairRunExists(c: Config, execute: Job -> Outcome, s: System) returns (run: Course)
    requires Ready(c, s) && Composable(c, execute)
    ensures run.states(0) == s && Fair(c, execute, run)
  {
    hide Ready, Composable, Step, AgentMove;
    var states := (i: nat) => Alone(c, execute, s, i);
    run := Course(states, (i: nat) => AgentMove(c, Alone(c, execute, s, i), execute));
    forall i: nat ensures Moves(c, execute, run, i) {
      AloneIsReady(c, execute, s, i);
      NextIsStep(c, execute, Alone(c, execute, s, i));
      assert run.states(i + 1) == Next(c, execute, run.states(i));
    }
    forall i: nat ensures Turn(c, execute, run, i) {
      assert run.moves(i) == AgentMove(c, run.states(i), execute);
    }
  }

  lemma {:induction false} AloneIsReady(c: Config, execute: Job -> Outcome, s: System, i: nat)
    requires Ready(c, s) && Composable(c, execute)
    ensures Ready(c, Alone(c, execute, s, i))
  {
    hide Ready, Composable, Step, AgentMove, Next;
    if i > 0 {
      AloneIsReady(c, execute, s, i - 1);
      NextIsStep(c, execute, Alone(c, execute, s, i - 1));
    }
  }
}
