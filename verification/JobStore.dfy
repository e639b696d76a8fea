/** internal/jobs/jobs.go: `MemoryStore` and `Service`, which update the store's maps in place. */
module JobStore {
  import opened Wrappers
  import opened Text
  import opened Tenancy
  import opened Clock
  import opened Jobs

  class MemoryStore {
    var jobs: map<JobKey, Job>
    var events: map<JobKey, seq<Event>>

    ghost function View(): Hub reads this { Hub(jobs, events) }

    constructor ()
      ensures View() == EMPTY_HUB && HubInv(View())
    {
      jobs, events := map[], map[];
    }

    method CreateJob(job: Job, event: Event) returns (r: Result<()>)
      modifies this
      ensures r.Ok? <==> job.scope.Valid() && event.scope == job.scope
      ensures View() == if r.Ok? then Jobs.CreateJob(old(View()), job, event) else old(View())
    {
      if !job.scope.Valid() || event.scope != job.scope { return Err(ErrInvalidScope); }
      var key := JobKey(job.scope, job.id);
      jobs := jobs[key := job];
      events := events[key := [event]];
      r := Ok(());
    }

    /** Both selection loops: visit the map in any order, keep the best candidate seen. */
    method SelectLeast(agent: Agent, status: Status) returns (selected: Option<Job>)
      requires WellKeyed(jobs)
      ensures selected == Select(View(), agent, status)
    {
      selected := None;
      var rest := jobs.Keys;
      while rest != {}
        invariant rest <= jobs.Keys
        invariant IsLeast(jobs, jobs.Keys - rest, agent, status, selected)
        decreases rest
      {
        var k :| k in rest;
        BetterIsLeast(jobs, jobs.Keys - rest, k, agent, status, selected);
        assert jobs.Keys - (rest - {k}) == jobs.Keys - rest + {k};
        var candidate := jobs[k];
        rest := rest - {k};
        if candidate.agentId != agent.id || candidate.scope != agent.scope || candidate.status != status { continue; }
        if selected.None? || Before(candidate, selected.value) { selected := Some(candidate); }
      }
      assert jobs.Keys - rest == jobs.Keys;
      LeastIsUnique(jobs, jobs.Keys, agent, status, selected, Select(View(), agent, status));
    }

    method HasActiveLease(key: JobKey, resumeBefore: Time) returns (active: bool)
      ensures active == Leased(LogOf(View(), key), resumeBefore)
    {
      var log := if key in events then events[key] else [];
      for i := 0 to |log|
        invariant !Leased(log[..i], resumeBefore)
      {
        if log[i].typ.EventClaimed? && log[i].occurredAt > resumeBefore { return true; }
      }
      assert log[..|log|] == log;
      active := false;
    }

    method ClaimNextJob(agent: Agent, occurredAt: Time, resumeBefore: Time) returns (r: Result<Option<Job>>)
      requires WellKeyed(jobs)
      modifies this
      ensures r.Ok? <==> agent.Valid()
      ensures r.Ok? ==> (View(), r.value) == ClaimNext(old(View()), agent, occurredAt, resumeBefore)
      ensures r.Err? ==> View() == old(View())
    {
      if !agent.Valid() { return Err(ErrInvalidScope); }
      var selected := SelectLeast(agent, StatusRunning);
      if selected.Some? {
        var active := HasActiveLease(JobKey(agent.scope, selected.value.id), resumeBefore);
        if active { return Ok(None); }
        return Ok(Some(selected.value.(resumed := true)));
      }
      selected := SelectLeast(agent, StatusQueued);
      if selected.None? { return Ok(None); }
      var job := selected.value.(status := StatusRunning, lastSequence := 1);
      var key := JobKey(agent.scope, job.id);
      jobs := jobs[key := job];
      events := events[key := (if key in events then events[key] else []) + [ClaimEvent(agent, job.id, occurredAt)]];
      r := Ok(Some(job));
    }

    method HasEvent(key: JobKey, request: EventRequest) returns (found: bool)
      ensures var log := LogOf(View(), key);
        found == exists i | 0 <= i < |log| :: Matches(log[i], request)
    {
      var log := if key in events then events[key] else [];
      for i := 0 to |log|
        invariant forall j | 0 <= j < i :: !Matches(log[j], request)
      {
        if Matches(log[i], request) {
          assert Matches(LogOf(View(), key)[i], request);
          return true;
        }
      }
      found := false;
    }

    method RecordJobEvent(agent: Agent, jobId: Bytes, request: EventRequest, occurredAt: Time) returns (r: Result<Job>)
      modifies this
      ensures !agent.Valid() ==> r == Err(ErrInvalidScope) && View() == old(View())
      ensures agent.Valid() ==> (View(), r) == Record(old(View()), agent, jobId, request, occurredAt)
    {
      if !agent.Valid() { return Err(ErrInvalidScope); }
      var key := JobKey(agent.scope, jobId);
      if key !in jobs || jobs[key].agentId != agent.id { return Err(ErrJobNotFound); }
      var job := jobs[key];
      if request.sequence <= job.lastSequence {
        var found := HasEvent(key, request);
        if found { return Ok(job); }
        return Err(ErrJobConflict);
      }
      if job.status != StatusRunning || request.sequence != job.lastSequence + 1 { return Err(ErrJobConflict); }
      if request.typ.EventSucceeded? { job := job.(status := StatusSucceeded); }
      if request.typ.EventFailed? { job := job.(status := StatusFailed); }
      job := job.(lastSequence := request.sequence);
      jobs := jobs[key := job];
      events := events[key := (if key in events then events[key] else [])
        + [ReportedEvent(agent, jobId, request, occurredAt)]];
      r := Ok(job);
    }
  }

  class Service {
    const store: MemoryStore
    const jobLease: int
    const signingKey: Bytes

    constructor (store: MemoryStore, jobLease: int, signingKey: Bytes)
      requires jobLease > 0
      ensures this.store == store && this.jobLease == jobLease && this.signingKey == signingKey
    {
      this.store, this.jobLease, this.signingKey := store, jobLease, signingKey;
    }

    /** `hostExists` is what the host checker answers, `id` what drawing a new ID yields. */
    method Create(scope: Scope, agentId: Bytes, request: CreateRequest, hostExists: Result<bool>, id: Result<Bytes>,
        now: Time)
      returns (r: Result<Job>)
      modifies store
      ensures var d := Draft(scope, agentId, request, hostExists, id, signingKey, now);
        && (r == if d.Ok? then Ok(d.value.0) else Err(d.error))
        && (d.Ok? ==> store.View() == Jobs.CreateJob(old(store.View()), d.value.0, d.value.1))
        && (d.Err? ==> store.View() == old(store.View()))
      ensures r.Ok? && old(HubInv(store.View())) && JobKey(scope, r.value.id) !in old(store.jobs) ==>
        HubInv(store.View()) && id == Ok(r.value.id) && r.value.scope == scope && Verify(r.value)
    {
      var d := Draft(scope, agentId, request, hostExists, id, signingKey, now);
      if d.Err? { return Err(d.error); }
      var (job, event) := d.value;
      ghost var before := store.View();
      var stored := store.CreateJob(job, event);
      if HubInv(before) && JobKey(scope, job.id) !in before.jobs {
        DraftIsDrafted(scope, agentId, request, hostExists, id, signingKey, now);
        CreateExtends(before, job, event);
      }
      r := Ok(job);
    }

    method ClaimNext(agent: Agent, now: Time) returns (r: Result<Option<Job>>)
      requires HubInv(store.View())
      modifies store
      ensures HubInv(store.View())
      ensures r.Ok? <==> agent.Valid()
      ensures r.Ok? ==> (store.View(), r.value) == Jobs.ClaimNext(old(store.View()), agent, now, now - jobLease)
      ensures r.Err? ==> store.View() == old(store.View())
    {
      ClaimKeeps(store.View(), agent, now, now - jobLease);
      r := store.ClaimNextJob(agent, now, now - jobLease);
    }

    method Report(agent: Agent, jobId: Bytes, request: EventRequest, now: Time) returns (r: Result<Job>)
      requires HubInv(store.View())
      modifies store
      ensures HubInv(store.View())
      ensures !agent.Valid() ==> r == Err(ErrInvalidScope) && store.View() == old(store.View())
      ensures agent.Valid() ==> (store.View(), r) == Jobs.Report(old(store.View()), agent, jobId, request, now)
    {
      ReportExtends(store.View(), agent, TrimSpace(jobId), Normalized(request), now);
      if !agent.Valid() { return Err(ErrInvalidScope); }
      var id, normal := TrimSpace(jobId), Normalized(request);
      if !ValidReport(id, normal) { return Err(ErrInvalidJob); }
      r := store.RecordJobEvent(agent, id, normal, now);
    }
  }
}
