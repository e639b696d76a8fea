/** Every step of the job protocol keeps its invariant; what that means for the hub's logs and for how
    often a platform action runs. */
module JobSafety {
  import opened Wrappers
  import opened Text
  import opened Tenancy
  import opened Runs
  import opened Jobs
  import opened JobExecution
  import opened JobProtocol

  // ---------------------------------------------------------------- steps of the hub

  /** How a hub transaction may move one job's log: not at all, from queued to claimed, or by the event that
      the agent's list has next. */
  ghost predicate LogStep(c: Config, v: View, log: seq<Event>) {
    || log == v.log
    || (|v.log| == 1 && |log| == 2)
    || (&& v.lists != [] && 2 <= |v.log| && |v.log| - 2 <= Cursor(v) && |v.log| - 2 < |v.lists[0]|
        && |log| == |v.log| + 1 && log[..|v.log|] == v.log && Logged(c, log[|v.log|], v.lists[0][|v.log| - 2]))
  }

  /** What the job may look like to the agent in hub `h`. */
  ghost predicate MayBecome(c: Config, s: System, h: Hub, id: Bytes) {
    if Mine(c, s.hub, id) then Mine(c, h, id) && LogStep(c, ViewOf(c, s, id), LogOf(h, c.Key(id)))
    else Mine(c, h, id) ==> |LogOf(h, c.Key(id))| == 1
  }

  ghost predicate HubStep(c: Config, s: System, h: Hub) {
    HubInv(h) && Orderly(h, s.clock) && forall id :: MayBecome(c, s, h, id)
  }

  lemma LogStepKeeps(c: Config, v: View, log: seq<Event>)
    requires ViewOK(c, v) && LogStep(c, v, log)
    ensures ViewOK(c, v.(log := log))
    ensures v.lists == [] && |v.log| == 2 ==> log == v.log
    ensures |log| >= |v.log|
  {
    hide ListShape, HexId;
    if v.lists != [] && |log| == |v.log| + 1 {
      assert forall i | 0 <= i < |v.log| :: log[i] == v.log[i];
    }
  }

  lemma JobStays(c: Config, s: System, h: Hub, id: Bytes)
    requires JobOK(c, s, id) && HistoryOK(c, s) && DiskOK(c, s) && MayBecome(c, s, h, id)
    ensures JobOK(c, s.(hub := h), id)
    ensures Mine(c, s.hub, id) ==>
      && Mine(c, h, id) && |LogOf(h, c.Key(id))| >= |LogOf(s.hub, c.Key(id))|
      && (Lists(s, id) == [] && |LogOf(s.hub, c.Key(id))| == 2 ==> LogOf(h, c.Key(id)) == LogOf(s.hub, c.Key(id)))
  {
    hide LogStep, ListOK, HexId;
    if Mine(c, s.hub, id) { LogStepKeeps(c, ViewOf(c, s, id), LogOf(h, c.Key(id))); }
  }

  lemma HubStepKeeps(c: Config, s: System, h: Hub)
    requires AgentInv(c, s) && HubStep(c, s, h)
    ensures AgentInv(c, s.(hub := h))
  {
    hide JobOK, MayBecome, PcOK, HubInv, Orderly, HexId;
    var t := s.(hub := h);
    forall id ensures JobOK(c, t, id) { JobStays(c, s, h, id); }
    forall id | id in s.lists || id in s.runs || id in s.outcomes ensures Mine(c, t.hub, id) { JobStays(c, s, h, id); }
    forall r | r in s.sent ensures RequestOK(c, t, r) {
      assert RequestOK(c, s, r);
      JobStays(c, s, h, r.jobId);
    }
    if s.disk.Some? { JobStays(c, s, h, s.disk.value.job.id); }
    if s.pc.GotClaim? || s.pc.Ran? || s.pc.Acked? { JobStays(c, s, h, s.pc.job.id); }
    HubStepKeepsPc(c, s, h);
  }

  lemma HubStepKeepsPc(c: Config, s: System, h: Hub)
    requires PcOK(c, s) && DiskOK(c, s)
    requires s.pc.GotClaim? || s.pc.Ran? || s.pc.Acked? ==>
      var id := s.pc.job.id;
      Mine(c, s.hub, id) ==>
        && Mine(c, h, id) && |LogOf(h, c.Key(id))| >= |LogOf(s.hub, c.Key(id))|
        && (Lists(s, id) == [] && |LogOf(s.hub, c.Key(id))| == 2 ==> LogOf(h, c.Key(id)) == LogOf(s.hub, c.Key(id)))
    ensures PcOK(c, s.(hub := h))
  {
    hide ListShape, HexId;
  }

  /** A transaction that touches one log touches only the view of that job. */
  lemma ChangeOneLog(c: Config, s: System, h: Hub, key: JobKey)
    requires Orderly(s.hub, s.clock) && HubInv(h) && key in s.hub.jobs && key in h.jobs && key in h.events
    requires h.jobs == s.hub.jobs[key := h.jobs[key]] && h.events == s.hub.events[key := h.events[key]]
    requires h.jobs[key].agentId == s.hub.jobs[key].agentId
    requires |h.events[key]| >= 2 ==> h.events[key][1].occurredAt <= s.clock
    requires Mine(c, s.hub, key.id) && key.scope == c.agent.scope ==> LogStep(c, ViewOf(c, s, key.id), h.events[key])
    ensures HubStep(c, s, h)
  {
    hide HubInv, HexId, LogStep;
    forall id ensures MayBecome(c, s, h, id) {
      if c.Key(id) != key && Mine(c, s.hub, id) { SameLog(c, ViewOf(c, s, id)); }
    }
  }

  lemma SameLog(c: Config, v: View)
    ensures LogStep(c, v, v.log)
  {}

  lemma ClaimStep(c: Config, s: System, agent: Agent)
    requires HubInv(s.hub) && Orderly(s.hub, s.clock)
    ensures HubStep(c, s, Answer(c, s, agent).0)
  {
    hide ClaimNext, HubInv, HexId, Cursor, Logged;
    var (h, got) := Answer(c, s, agent);
    ClaimChanges(s.hub, agent, s.clock, s.clock - c.lease);
    if h != s.hub { ChangeOneLog(c, s, h, JobKey(agent.scope, got.value.id)); }
  }

  /** A report changes at most the reporter's own job, by its next event. */
  lemma ReportStep(c: Config, s: System, agent: Agent, jobId: Bytes, e: EventRequest)
    requires HubInv(s.hub) && Orderly(s.hub, s.clock)
    requires var v := ViewOf(c, s, jobId);
      agent == c.agent && Mine(c, s.hub, jobId) && e.sequence == |v.log| >= 2 ==>
        LogStep(c, v, v.log + [ReportedEvent(agent, jobId, e, s.clock)])
    ensures HubStep(c, s, ReportNormalized(s.hub, agent, jobId, e, s.clock).0)
  {
    hide HubInv, ReportNormalized, HexId, Cursor, Logged;
    var key, h := JobKey(agent.scope, jobId), ReportNormalized(s.hub, agent, jobId, e, s.clock).0;
    ReportChanges(s.hub, agent, jobId, e, s.clock);
    ReportExtends(s.hub, agent, jobId, e, s.clock);
    if h != s.hub {
      ChangeOneLog(c, s, h, key);
    }
  }

  lemma SentFacts(c: Config, v: View, e: EventRequest)
    requires ViewOK(c, v) && SentOK(v, e)
    ensures HexId(v.id) && |v.log| >= 2 && !e.typ.EventApproved? && !e.typ.EventClaimed?
      && c.does.wire(e.message) == e.message
    ensures e.sequence < |v.log| ==> Logged(c, v.log[e.sequence], e)
  {
    hide HexId;
    assert v.lists[0][e.sequence - 2].sequence == e.sequence;
  }

  /** Delivering anything ever sent, as the request or as a late duplicate. */
  lemma SentStep(c: Config, s: System, r: Request)
    requires Lawful(c) && Inv(c, s) && r in s.sent
    ensures HubStep(c, s, Deliver(c, s, r).0)
    ensures c.Key(r.jobId) in s.hub.jobs && HexId(r.jobId) && c.does.trim(r.jobId) == r.jobId
  {
    hide HubInv, HexId, PcOK, ListShape, Orderly, HubStep;
    var v := ViewOf(c, s, r.jobId);
    assert RequestOK(c, s, r) && JobOK(c, s, r.jobId);
    SentFacts(c, v, r.event);
    ReportStep(c, s, c.agent, r.jobId, r.event.(message := c.does.trim(r.event.message)));
  }

  lemma CreateStep(c: Config, s: System, job: Job, event: Event)
    requires HubInv(s.hub) && Orderly(s.hub, s.clock)
    requires Drafted(job, event) && HexId(job.id) && JobKey(job.scope, job.id) !in s.hub.jobs
    ensures HubStep(c, s, CreateJob(s.hub, job, event))
  {
    hide HubInv, HexId, Drafted, LogStep;
    var h, key := CreateJob(s.hub, job, event), JobKey(job.scope, job.id);
    CreateExtends(s.hub, job, event);
    assert h.events == s.hub.events[key := [event]] && h.jobs == s.hub.jobs[key := job];
    forall id ensures MayBecome(c, s, h, id) {
      if Mine(c, s.hub, id) { SameLog(c, ViewOf(c, s, id)); }
    }
  }

  // ---------------------------------------------------------------- steps of the agent

  predicate ViewStep(v: View, w: View) { v.lists == [] || (w.lists == v.lists && Cursor(v) <= Cursor(w)) }

  /** A step that changes nothing held about any job. */
  lemma QuietStepKeeps(c: Config, s: System, t: System)
    requires AgentInv(c, s) && PcOK(c, t)
    requires t == s.(pc := t.pc, clock := t.clock, claimSent := t.claimSent, sent := t.sent)
    requires forall r | r in t.sent && r !in s.sent :: RequestOK(c, s, r)
    ensures AgentInv(c, t)
  {
    hide ViewOK, SentOK, PcOK, LogOf, HexId;
    forall o ensures JobOK(c, t, o) { assert JobOK(c, s, o) && ViewOf(c, t, o) == ViewOf(c, s, o); }
    forall r | r in t.sent ensures RequestOK(c, t, r) {
      assert RequestOK(c, s, r) && ViewOf(c, t, r.jobId) == ViewOf(c, s, r.jobId);
    }
  }

  /** The parts of the invariant that speak of one job each. */
  lemma Held(c: Config, s: System)
    requires AgentInv(c, s)
    ensures PcOK(c, s) && DiskOK(c, s) && HistoryOK(c, s)
    ensures s.disk.Some? ==> ViewOK(c, ViewOf(c, s, s.disk.value.job.id))
    ensures s.pc.GotClaim? || s.pc.Ran? ==> ViewOK(c, ViewOf(c, s, s.pc.job.id))
  {
    hide ViewOK, HexId, ListShape;
    if s.disk.Some? { assert JobOK(c, s, s.disk.value.job.id); }
    if s.pc.GotClaim? || s.pc.Ran? { assert JobOK(c, s, s.pc.job.id); }
  }

  /** What is on disk survives being read back. */
  lemma WiredDisk(c: Config, s: System)
    requires AgentInv(c, s) && s.disk.Some? && s.disk.value.phase.Completed?
    ensures WireAll(c, s.disk.value.events) == s.disk.value.events != []
  {
    hide PcOK, AgentInv, HexId;
    Held(c, s);
    var v, events := ViewOf(c, s, s.disk.value.job.id), s.disk.value.events;
    forall k | 0 <= k < |events| ensures c.Wired(events[k]) == events[k] {
      assert events[k] == v.lists[0][Cursor(v) + k];
    }
  }

  /** The first pending event is the one its list has at the cursor, and may be sent. */
  lemma PendingIsNext(c: Config, s: System)
    requires AgentInv(c, s) && s.disk.Some? && s.disk.value.phase.Completed?
    ensures var (id, events) := (s.disk.value.job.id, s.disk.value.events);
      && events != [] && Lists(s, id) != [] && events[0].sequence == 2 + |Lists(s, id)[0]| - |events|
      && Mine(c, s.hub, id) && SentOK(ViewOf(c, s, id), events[0])
  {
    hide PcOK, AgentInv, HexId;
    Held(c, s);
    var v := ViewOf(c, s, s.disk.value.job.id);
    assert s.disk.value.events[0] == v.lists[0][Cursor(v)];
  }

  lemma WiredList(c: Config, events: seq<EventRequest>, ok: bool)
    requires Lawful(c) && (OneFailure(events) || OutputAndEnd(events, ok))
    ensures ListShape(c, WireAll(c, events))
  {}

  lemma NewListView(c: Config, v: View, job: Job, list: seq<EventRequest>)
    requires ViewOK(c, v) && v.lists == [] && |v.log| == 2 && HexId(v.id) && list != [] && ListShape(c, list)
    requires list[|list| - 1].typ.EventSucceeded? ==> v.runs == 1 && v.outcomes == [true]
    ensures ViewOK(c, v.(lists := [list], cell := Some(JobState(job, Completed, list))))
  {
    hide ListShape, HexId;
  }

  /** What a step leaves alone that changes what is held about one job. */
  ghost predicate Local(c: Config, s: System, t: System, id: Bytes) {
    && t.hub == s.hub && t.sent == s.sent && HistoryOK(c, t)
    && forall o | o != id :: ViewOf(c, t, o) == ViewOf(c, s, o)
  }

  lemma OneJob(c: Config, s: System, t: System, id: Bytes)
    requires HistoryOK(c, s) && Mine(c, s.hub, id)
    requires t == s.(disk := t.disk, pc := t.pc, lists := t.lists, runs := t.runs, outcomes := t.outcomes)
    requires (s.disk.Some? ==> s.disk.value.job.id == id) && (t.disk.Some? ==> t.disk.value.job.id == id)
    requires t.lists == s.lists || t.lists == s.lists[id := Lists(t, id)]
    requires t.runs == s.runs || t.runs == s.runs[id := RunsOf(t, id)]
    requires t.outcomes == s.outcomes || t.outcomes == s.outcomes[id := Outcomes(t, id)]
    ensures Local(c, s, t, id)
  {
    hide LogOf, Mine;
    forall o | o != id ensures ViewOf(c, t, o) == ViewOf(c, s, o) {
      assert Lists(t, o) == Lists(s, o) && RunsOf(t, o) == RunsOf(s, o) && Outcomes(t, o) == Outcomes(s, o);
    }
    forall o | o in t.lists || o in t.runs || o in t.outcomes ensures Mine(c, t.hub, o) {
      assert Mine(c, s.hub, o);
    }
  }

  /** An agent step changes what is held about one job. */
  lemma AgentStepKeeps(c: Config, s: System, t: System, id: Bytes)
    requires AgentInv(c, s) && Local(c, s, t, id) && Mine(c, s.hub, id)
    requires ViewStep(ViewOf(c, s, id), ViewOf(c, t, id)) && ViewOK(c, ViewOf(c, t, id))
    requires DiskOK(c, t) && PcOK(c, t)
    ensures AgentInv(c, t)
  {
    hide ViewOK, DiskOK, HistoryOK, PcOK, ViewOf;
    forall o ensures JobOK(c, t, o) { assert JobOK(c, s, o); }
    forall r | r in t.sent ensures RequestOK(c, t, r) { assert RequestOK(c, s, r); }
  }

  /** The first completed list of a job becomes durable. */
  lemma KeepListed(c: Config, s: System, job: Job, events: seq<EventRequest>)
    requires AgentInv(c, s) && Undecided(c, s, job) && events != [] && ListShape(c, WireAll(c, events))
    requires s.disk.None? || s.disk.value.job == job
    requires events[|events| - 1].typ.EventSucceeded? ==> RunsOf(s, job.id) == 1 && Outcomes(s, job.id) == [true]
    ensures AgentInv(c, Listed(c, s, job, events))
  {
    hide ViewOK, ListShape, HexId, Local, HistoryOK;
    assert JobOK(c, s, job.id);
    NewListView(c, ViewOf(c, s, job.id), job, WireAll(c, events));
    var t := Listed(c, s, job, events);
    OneJob(c, s, t, job.id);
    assert Lists(s, job.id) + [WireAll(c, events)] == [WireAll(c, events)];
    AgentStepKeeps(c, s, t, job.id);
  }

  lemma KeepBeginRecover(c: Config, s: System, t: System)
    requires AgentInv(c, s) && Step(c, s, BeginRecover, t)
    ensures AgentInv(c, t)
  {
    hide AgentInv, HexId;
    WiredDisk(c, s);
    QuietStepKeeps(c, s, t);
  }

  lemma KeepBeginInterrupted(c: Config, s: System, t: System)
    requires Lawful(c) && AgentInv(c, s) && Step(c, s, BeginInterrupted, t)
    ensures AgentInv(c, t)
  {
    hide AgentInv, ListShape, Listed, HexId;
    Held(c, s);
    var job := s.disk.value.job;
    WiredList(c, c.does.interrupted(job), false);
    KeepListed(c, s, job, c.does.interrupted(job));
  }

  lemma KeepSaveResult(c: Config, s: System, t: System)
    requires AgentInv(c, s) && Step(c, s, SaveResult, t)
    ensures AgentInv(c, t)
  {
    hide AgentInv, Listed, HexId;
    Held(c, s);
    KeepListed(c, s, s.pc.job, s.pc.events);
  }

  lemma KeepDecline(c: Config, s: System, t: System)
    requires Lawful(c) && AgentInv(c, s) && Step(c, s, Decline, t)
    ensures AgentInv(c, t)
  {
    hide AgentInv, ListShape, HexId;
    Held(c, s);
    WiredList(c, c.does.declined(s.pc.job).value, false);
    QuietStepKeeps(c, s, t);
  }

  lemma KeepSaveExecuting(c: Config, s: System, t: System)
    requires AgentInv(c, s) && Step(c, s, SaveExecuting, t)
    ensures AgentInv(c, t)
  {
    hide AgentInv, HexId, ListShape, Local, Answer, Handled, Drafted;
    Held(c, s);
    OneJob(c, s, t, s.pc.job.id);
    AgentStepKeeps(c, s, t, s.pc.job.id);
  }

  lemma KeepStart(c: Config, s: System, t: System)
    requires AgentInv(c, s) && Step(c, s, Start, t)
    ensures AgentInv(c, t)
  {
    hide AgentInv, HexId, ListShape, Local, Answer, Handled, Drafted;
    Held(c, s);
    OneJob(c, s, t, s.pc.job.id);
    AgentStepKeeps(c, s, t, s.pc.job.id);
  }

  lemma KeepFinish(c: Config, s: System, outcome: Outcome, t: System)
    requires Lawful(c) && AgentInv(c, s) && Step(c, s, Finish(outcome), t)
    ensures AgentInv(c, t)
  {
    hide AgentInv, HexId, ListShape, Local, Answer, Handled, Drafted;
    Held(c, s);
    OneJob(c, s, t, s.pc.job.id);
    WiredList(c, c.does.results(s.pc.job, outcome), outcome.error.None?);
    AgentStepKeeps(c, s, t, s.pc.job.id);
  }

  lemma KeepPost(c: Config, s: System, t: System)
    requires AgentInv(c, s) && Step(c, s, Post, t)
    ensures AgentInv(c, t)
  {
    hide AgentInv, SentOK, HexId, Answer, Handled, Drafted;
    Held(c, s);
    PendingIsNext(c, s);
    QuietStepKeeps(c, s, t);
  }

  /** Dropping the acknowledged head moves the cursor up to what the hub has logged. */
  lemma DropHead(c: Config, v: View)
    requires ViewOK(c, v) && v.cell.Some? && v.cell.value.phase.Completed? && |v.cell.value.events| > 1
    requires |v.log| - 2 > Cursor(v)
    ensures var w := v.(cell := Some(v.cell.value.(events := v.cell.value.events[1..])));
      ViewOK(c, w) && ViewStep(v, w)
  {
    hide ListShape, Logged;
    var st := v.cell.value;
    assert v.lists[0][Cursor(v)..][1..] == v.lists[0][Cursor(v) + 1..];
  }

  lemma KeepSaveRest(c: Config, s: System, t: System)
    requires AgentInv(c, s) && Step(c, s, SaveRest, t)
    ensures AgentInv(c, t)
  {
    hide AgentInv, ViewOK, HexId, Local, Answer, Handled, Drafted;
    Held(c, s);
    OneJob(c, s, t, s.pc.job.id);
    assert WireAll(c, s.pc.events[1..]) == WireAll(c, s.pc.events)[1..];
    DropHead(c, ViewOf(c, s, s.pc.job.id));
    AgentStepKeeps(c, s, t, s.pc.job.id);
  }

  /** Nothing is left on disk once the hub has logged the whole list. */
  lemma DropAll(c: Config, v: View)
    requires ViewOK(c, v) && v.cell.Some? && v.cell.value.phase.Completed? && |v.cell.value.events| == 1
    requires |v.log| - 2 > Cursor(v)
    ensures ViewOK(c, v.(cell := None)) && ViewStep(v, v.(cell := None))
  {
    hide ListShape, Logged;
  }

  lemma KeepDelete(c: Config, s: System, t: System)
    requires AgentInv(c, s) && Step(c, s, Delete, t)
    ensures AgentInv(c, t)
  {
    hide AgentInv, ViewOK, HexId, Local, Answer, Handled, Drafted;
    Held(c, s);
    DropAll(c, ViewOf(c, s, s.pc.job.id));
    OneJob(c, s, t, s.pc.job.id);
    AgentStepKeeps(c, s, t, s.pc.job.id);
  }

  lemma PcStays(c: Config, s: System, t: System)
    requires PcOK(c, s) && (t == s.(clock := t.clock) || t.pc.Idle? || (t.pc.Claiming? && t.disk.None?))
    ensures PcOK(c, t)
  {
    hide ListShape, Mine, HexId;
  }

  lemma KeepSimple(c: Config, s: System, m: Move, t: System)
    requires AgentInv(c, s) && Step(c, s, m, t) && (m.BeginClaim? || m.Abandon? || m.Tick?)
    ensures AgentInv(c, t)
  {
    hide AgentInv, PcOK, ViewOK, Answer, Handled, Drafted, HexId;
    Held(c, s);
    PcStays(c, s, t);
    QuietStepKeeps(c, s, t);
  }

  // ---------------------------------------------------------------- requests answered

  /** With nothing on disk, an open job has not been reported on. */
  lemma OpenIsUnreported(c: Config, s: System, id: Bytes)
    requires HubInv(s.hub) && Mine(c, s.hub, id) && JobOK(c, s, id) && s.disk.None?
    requires s.hub.jobs[c.Key(id)].status.StatusRunning? || s.hub.jobs[c.Key(id)].status.StatusQueued?
    ensures Lists(s, id) == []
      && |LogOf(s.hub, c.Key(id))| == if s.hub.jobs[c.Key(id)].status.StatusRunning? then 2 else 1
  {
    hide HexId;
    assert JobInv(s.hub.jobs[c.Key(id)], LogOf(s.hub, c.Key(id)), c.Key(id));
  }

  /** An answered claim hands out an open job of the agent; one handed out again is the record with a mark. */
  lemma ClaimedIsOurs(c: Config, s: System)
    requires HubInv(s.hub)
    ensures var (h, got) := Answer(c, s, c.agent);
      got.Some? ==>
        var id, job := got.value.id, got.value;
        && Mine(c, s.hub, id) && Mine(c, h, id) && job.agentId == c.agent.id
          && job.lastSequence == |LogOf(h, c.Key(id))| - 1
        && (s.hub.jobs[c.Key(id)].status.StatusRunning? || s.hub.jobs[c.Key(id)].status.StatusQueued?)
        && |LogOf(h, c.Key(id))| == if s.hub.jobs[c.Key(id)].status.StatusRunning? then |LogOf(s.hub, c.Key(id))| else 2
  {
    hide ClaimNext, Select;
    var at, before := s.clock, s.clock - c.lease;
    ClaimChanges(s.hub, c.agent, at, before);
    if Select(s.hub, c.agent, StatusRunning).Some? {
      var key := ClaimWhileRunning(s.hub, c.agent, at, before);
      assert key in WithStatus(s.hub, c.agent, StatusRunning) && JobInv(s.hub.jobs[key], s.hub.events[key], key);
    } else if Select(s.hub, c.agent, StatusQueued).Some? {
      var key := ClaimQueued(s.hub, c.agent, at, before);
      assert JobInv(s.hub.jobs[key], s.hub.events[key], key);
    }
  }

  lemma ClaimedIsUndecided(c: Config, s: System)
    requires Inv(c, s) && s.disk.None?
    ensures var (h, got) := Answer(c, s, c.agent);
      got.Some? && HexId(got.value.id) ==> Undecided(c, s.(hub := h), got.value)
  {
    hide Answer, HexId, JobOK, PcOK, Orderly, HubInv;
    var (_, got) := Answer(c, s, c.agent);
    ClaimedIsOurs(c, s);
    if got.Some? { OpenIsUnreported(c, s, got.value.id); }
  }

  lemma KeepClaimReply(c: Config, s: System, t: System)
    requires Inv(c, s) && Step(c, s, ClaimReply, t)
    ensures AgentInv(c, t)
  {
    hide AgentInv, HubInv, Orderly, ClaimNext, HexId, Mine;
    var (h, got) := Answer(c, s, c.agent);
    Held(c, s);
    ClaimStep(c, s, c.agent);
    HubStepKeeps(c, s, h);
    ClaimedIsUndecided(c, s);
    QuietStepKeeps(c, s.(hub := h), t);
  }

  lemma KeepPostReply(c: Config, s: System, t: System)
    requires Lawful(c) && Inv(c, s) && Step(c, s, PostReply, t)
    ensures AgentInv(c, t)
  {
    hide AgentInv, HubInv, Orderly, Deliver, HubStep, HexId, ViewOK, Undecided, Mine, Drafted, Answer;
    Held(c, s);
    var (h, reply) := Deliver(c, s, Head(c, s.pc));
    SentStep(c, s, Head(c, s.pc));
    HubStepKeeps(c, s, h);
    Held(c, s.(hub := h));
    if reply.Ok? { AckedIsLogged(c, s); }
    QuietStepKeeps(c, s.(hub := h), t);
  }

  /** An acknowledged event is in the hub's log. */
  lemma AckedIsLogged(c: Config, s: System)
    requires Lawful(c) && Inv(c, s) && s.pc.Posting? && s.pc.events != [] && Deliver(c, s, Head(c, s.pc)).1.Ok?
    ensures var h := Deliver(c, s, Head(c, s.pc)).0;
      Lists(s, s.pc.job.id) != [] && |LogOf(h, c.Key(s.pc.job.id))| - 2 > |Lists(s, s.pc.job.id)[0]| - |s.pc.events|
  {
    hide AgentInv, HubInv, Orderly, HubStep, HexId, Record;
    Held(c, s);
    var r := Head(c, s.pc);
    SentStep(c, s, r);
    PendingIsNext(c, s);
    RecordIsExact(s.hub, c.agent, r.jobId, r.event.(message := c.does.trim(r.event.message)), s.clock);
  }

  // ---------------------------------------------------------------- every reachable state

  /** The moves of others, and late copies of what the agent sent. */
  predicate Foreign(m: Move) { m.Redeliver? || m.LateClaim? || m.OperatorCreates? || m.OtherClaims? || m.OtherReports? }

  lemma HubMoves(c: Config, s: System, m: Move, t: System)
    requires Lawful(c) && Inv(c, s) && Step(c, s, m, t) && (Foreign(m) || m.ClaimReply? || m.PostReply?)
    ensures HubStep(c, s, t.hub) && t.clock == s.clock && (Foreign(m) ==> t == s.(hub := t.hub))
  {
    hide AgentInv, HubInv, Orderly, Answer, ReportNormalized, HubStep, Drafted, HexId;
    match m
    case PostReply => Held(c, s); SentStep(c, s, Head(c, s.pc));
    case Redeliver(r) => SentStep(c, s, r);
    case OperatorCreates(job, event) => CreateStep(c, s, job, event);
    case OtherReports(other, jobId, e) =>
      ReportStep(c, s, other, c.does.trim(jobId), e.(message := c.does.trim(e.message)));
    case OtherClaims(other) => ClaimStep(c, s, other);
    case _ => ClaimStep(c, s, c.agent);
  }

  lemma HubStays(c: Config, s: System, m: Move, t: System)
    requires Step(c, s, m, t) && !(Foreign(m) || m.ClaimReply? || m.PostReply?)
    ensures t.hub == s.hub && s.clock <= t.clock
  {
    hide Answer, Handled, Drafted, HexId, Head;
  }

  lemma AgentMoveKeeps(c: Config, s: System, m: Move, t: System)
    requires Lawful(c) && Inv(c, s) && Step(c, s, m, t)
    requires !Foreign(m)
    ensures AgentInv(c, t)
  {
    hide AgentInv, HubInv, Orderly, Step, Lawful;
    match m
    case BeginRecover => KeepBeginRecover(c, s, t);
    case BeginInterrupted => KeepBeginInterrupted(c, s, t);
    case ClaimReply => KeepClaimReply(c, s, t);
    case Decline => KeepDecline(c, s, t);
    case SaveExecuting => KeepSaveExecuting(c, s, t);
    case Start => KeepStart(c, s, t);
    case Finish(outcome) => KeepFinish(c, s, outcome, t);
    case SaveResult => KeepSaveResult(c, s, t);
    case Post => KeepPost(c, s, t);
    case PostReply => KeepPostReply(c, s, t);
    case SaveRest => KeepSaveRest(c, s, t);
    case Delete => KeepDelete(c, s, t);
    case _ => KeepSimple(c, s, m, t);
  }

  /** One step of the whole system keeps the invariant. */
  lemma StepKeeps(c: Config, s: System, m: Move, t: System)
    requires Lawful(c) && Inv(c, s) && Step(c, s, m, t)
    ensures Inv(c, t)
  {
    hide AgentInv, HubInv, Step, Lawful, MayBecome, HexId;
    if Foreign(m) || m.ClaimReply? || m.PostReply? { HubMoves(c, s, m, t); } else { HubStays(c, s, m, t); }
    if Foreign(m) { HubStepKeeps(c, s, t.hub); } else { AgentMoveKeeps(c, s, m, t); }
  }

  lemma ReachableInv(c: Config, s: System)
    requires Lawful(c) && Reachable(c, s)
    ensures Inv(c, s)
  {
    hide Step, Lawful;
    InvReaches(c, INITIAL, s);
  }

  lemma InvReaches(c: Config, s: System, t: System)
    requires Lawful(c) && Inv(c, s) && Reaches(Steps(c), s, t)
    ensures Inv(c, t)
  {
    hide Inv, Step, Lawful;
    var moves :| Path(Steps(c), s, moves, t);
    forall x, m, y | Inv(c, x) && Steps(c)(x, m, y) ensures Inv(c, y) { StepKeeps(c, x, m, y); }
    PathKeeps(Steps(c), (x: System) => Inv(c, x), s, moves, t);
  }

  /** One step further on a path. */
  lemma Go(c: Config, before: System, s: System, m: Move, t: System)
    requires Lawful(c) && Inv(c, s) && Reaches(Steps(c), before, s) && Step(c, s, m, t)
    ensures Inv(c, t) && Reaches(Steps(c), before, t)
  {
    hide Inv, Step, Reaches, Lawful;
    StepKeeps(c, s, m, t);
    ReachesStep(Steps(c), before, s, m, t);
  }

  // ---------------------------------------------------------------- the main results

  /** In every run at most one completed list is ever saved for a job, and the hub's log of the job is
      approved, claimed and a prefix of that list, all of it once the agent holds no state for the job. */
  lemma LogIsPrefixOfTheOneList(c: Config, s: System, id: Bytes)
    requires Lawful(c) && Reachable(c, s)
    ensures |Lists(s, id)| <= 1
    ensures Mine(c, s.hub, id) ==>
      var log := LogOf(s.hub, c.Key(id));
      && LogShape(log, c.Key(id))
      && (forall i | 2 <= i < |log| ::
            && Lists(s, id) != [] && i - 2 < |Lists(s, id)[0]|
            && var e := Lists(s, id)[0][i - 2];
               log[i].sequence == e.sequence && log[i].typ == e.typ && log[i].message == c.does.trim(e.message))
      && (Lists(s, id) != [] && (s.disk.None? || s.disk.value.job.id != id) ==> |log| == 2 + |Lists(s, id)[0]|)
  {
    hide Reachable, PcOK, RequestOK, Orderly, HexId;
    ReachableInv(c, s);
    assert JobOK(c, s, id);
    if Mine(c, s.hub, id) { assert JobInv(s.hub.jobs[c.Key(id)], s.hub.events[c.Key(id)], c.Key(id)); }
  }

  /** Lists and runs are only ever added, so "ever saved" and "ever started" is what the history holds. */
  lemma HistoryOnlyGrows(c: Config, s: System, t: System, id: Bytes)
    requires Reaches(Steps(c), s, t)
    ensures Lists(s, id) <= Lists(t, id) && RunsOf(s, id) <= RunsOf(t, id)
  {
    hide Step;
    var moves :| Path(Steps(c), s, moves, t);
    var lists, runs := Lists(s, id), RunsOf(s, id);
    forall x: System, m: Move, y: System | (lists <= Lists(x, id) && runs <= RunsOf(x, id)) && Steps(c)(x, m, y)
      ensures lists <= Lists(y, id) && runs <= RunsOf(y, id)
    {
      HistoryStep(c, x, m, y, id);
    }
    PathKeeps(Steps(c), (x: System) => lists <= Lists(x, id) && runs <= RunsOf(x, id), s, moves, t);
  }

  lemma MapsGrow(s: System, t: System, id: Bytes, changed: Bytes)
    requires t.lists == s.lists || exists p :: t.lists == s.lists[changed := Lists(s, changed) + [p]]
    requires t.runs == s.runs || t.runs == s.runs[changed := RunsOf(s, changed) + 1]
    ensures Lists(s, id) <= Lists(t, id) && RunsOf(s, id) <= RunsOf(t, id)
  {
    if t.lists != s.lists { assert Lists(t, changed)[..|Lists(s, changed)|] == Lists(s, changed); }
  }

  lemma HistoryStep(c: Config, s: System, m: Move, t: System, id: Bytes)
    requires Step(c, s, m, t)
    ensures Lists(s, id) <= Lists(t, id) && RunsOf(s, id) <= RunsOf(t, id)
  {
    hide Answer, Handled, Drafted, HexId, WireAll, Head, Lists, RunsOf;
    var changed := if s.pc.Saved? || s.pc.Ran? then s.pc.job.id else if s.disk.Some? then s.disk.value.job.id else [];
    MapsGrow(s, t, id, changed);
  }

  /** The platform action of a job is started at most once over all restarts and retries; a job that the hub
      records as succeeded was started exactly once and returned no error. */
  lemma ActionRunsAtMostOnce(c: Config, s: System, id: Bytes)
    requires Lawful(c) && Reachable(c, s)
    ensures RunsOf(s, id) <= 1
    ensures Mine(c, s.hub, id) && s.hub.jobs[c.Key(id)].status.StatusSucceeded?
      ==> RunsOf(s, id) == 1 && Outcomes(s, id) == [true]
  {
    hide Reachable, PcOK, RequestOK, Orderly, HexId;
    ReachableInv(c, s);
    assert JobOK(c, s, id);
    if Mine(c, s.hub, id) {
      var v := ViewOf(c, s, id);
      assert JobInv(s.hub.jobs[c.Key(id)], v.log, c.Key(id));
      if |v.log| > 2 { assert Logged(c, v.log[|v.log| - 1], v.lists[0][|v.log| - 3]); }
    }
  }

  /** While a list is not fully logged its job is running. */
  lemma RunningWhileUnlogged(c: Config, s: System, id: Bytes)
    requires HubInv(s.hub) && Mine(c, s.hub, id) && JobOK(c, s, id) && |LogOf(s.hub, c.Key(id))| >= 2
    ensures c.Key(id) in s.hub.events && !s.hub.jobs[c.Key(id)].status.StatusQueued?
    ensures s.hub.jobs[c.Key(id)].status.StatusRunning? <==>
      Lists(s, id) == [] || |LogOf(s.hub, c.Key(id))| - 2 < |Lists(s, id)[0]|
    ensures forall i | 0 <= i < |LogOf(s.hub, c.Key(id))| :: LogOf(s.hub, c.Key(id))[i].sequence == i
  {
    hide HexId;
    var v := ViewOf(c, s, id);
    assert JobInv(s.hub.jobs[c.Key(id)], v.log, c.Key(id));
    if |v.log| > 2 { assert Logged(c, v.log[|v.log| - 1], v.lists[0][|v.log| - 3]); }
  }

  predicate Takes(c: Config, message: Bytes) { 0 < |c.does.trim(c.does.wire(message))| <= MESSAGE_LIMIT }

  lemma TakenOnWire(c: Config, message: Bytes)
    requires Lawful(c)
    ensures Takes(c, c.does.wire(message)) <==> Takes(c, message)
  {}

  /** Whatever duplicates arrived before, the hub takes what was sent exactly when its message passes validation, and
      otherwise changes nothing: an event the agent sends never conflicts. */
  lemma SentNeverConflicts(c: Config, s: System, r: Request)
    requires Lawful(c) && Inv(c, s) && r in s.sent
    ensures var (h, reply) := Deliver(c, s, r);
      if Takes(c, r.event.message) then reply.Ok? else reply == Err(ErrInvalidJob) && h == s.hub
    ensures c.does.wire(r.event.message) == r.event.message
  {
    hide Record, PcOK, HubInv, Orderly, HubStep, ListShape;
    SentStep(c, s, r);
    assert RequestOK(c, s, r) && JobOK(c, s, r.jobId);
    SentFacts(c, ViewOf(c, s, r.jobId), r.event);
    RunningWhileUnlogged(c, s, r.jobId);
    var e := r.event.(message := c.does.trim(r.event.message));
    if ValidReport(r.jobId, e) { RecordIsExact(s.hub, c.agent, r.jobId, e, s.clock); }
  }

  /** The event the agent is posting never conflicts. */
  lemma PendingNeverConflicts(c: Config, s: System)
    requires Lawful(c) && Reachable(c, s) && s.pc.Posting?
    ensures s.pc.events != []
    ensures var reply := Deliver(c, s, Head(c, s.pc)).1;
      if Takes(c, s.pc.events[0].message) then reply.Ok? else reply == Err(ErrInvalidJob)
  {
    hide Reachable, AgentInv, HubInv, Orderly, Deliver, HexId;
    ReachableInv(c, s);
    Held(c, s);
    SentNeverConflicts(c, s, Head(c, s.pc));
  }
}
