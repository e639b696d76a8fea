/** internal/alerting/alerting.go as written: the in-memory store and the service's evaluation loops, each proved
    to take the steps of Alerting. */
module AlertService {
  import opened Wrappers
  import opened Text
  import opened Tenancy
  import opened Clock
  import opened Sorting
  import opened Alerting

  // ---------------------------------------------------------------- a round of evaluations

  /** What an evaluation looks at. */
  datatype Probe = Sample(cpu: real, memory: real, disk: real) | LastSeen(at: Time)

  /** What can go wrong while a breach is evaluated: the windows cannot be listed, or no ID can be drawn. */
  datatype Trouble = NoTrouble | NoWindows(error: Error) | NoId(error: Error)

  /** What `newID`, the clock, `Sprintf` and the listing of windows answer while the n-th rule is evaluated: the clock
      is read for the measurement, and again for the evaluation. */
  datatype Draw = Draw(id: Bytes, read: Time, now: Time, message: Bytes, trouble: Trouble)

  function ValueOf(probe: Probe, metric: Metric): real
    requires probe.Sample?
  {
    match metric case Cpu => probe.cpu case Memory => probe.memory case Disk => probe.disk
  }

  /** Seconds since the agent was last seen, never negative. */
  function Stale(now: Time, seen: Time): real { if now < seen then 0.0 else (now - seen) as real / SECOND as real }

  /** Whether the rule takes part, and if so whether it is breached and by what value. */
  function Measure(rule: Rule, probe: Probe, now: Time): Option<(bool, real)> {
    if !rule.enabled then None
    else match rule.kind
      case MetricKind(metric, threshold) =>
        if probe.Sample? then Some((ValueOf(probe, metric) > threshold, ValueOf(probe, metric))) else None
      case ReachabilityKind(staleAfter) =>
        if probe.LastSeen? then Some((Stale(now, probe.at) > staleAfter as real, Stale(now, probe.at))) else None
  }

  function MoveFor(rule: Rule, agentId: Bytes, probe: Probe, draw: Draw): Move
    requires Measure(rule, probe, draw.read).Some?
  {
    var (breached, value) := Measure(rule, probe, draw.read).value;
    Evaluate(rule, agentId, breached, value, draw.message, TruncateMicro(draw.now), draw.id)
  }

  /** Why an evaluation fails, without effect. An ID is drawn only for a breach that is not suppressed, and before the
      store is asked whether an incident is active. */
  ghost function FailureOf(windows: map<Bytes, Window>, m: Move, trouble: Trouble): Option<Error>
    requires m.Evaluate?
  {
    if m.agentId == [] then Some(ErrInvalidAlert)
    else if !m.breached then None
    else match trouble
      case NoTrouble => None
      case NoWindows(error) => Some(error)
      case NoId(error) => if Suppressed(windows, m) then None else Some(error)
  }

  ghost function FailureAt(windows: map<Bytes, Window>, rule: Rule, agentId: Bytes, probe: Probe, draw: Draw)
      : Option<Error> {
    if Measure(rule, probe, draw.read).None? then None
    else FailureOf(windows, MoveFor(rule, agentId, probe, draw), draw.trouble)
  }

  function Round(rules: seq<Rule>, agentId: Bytes, probe: Probe, draws: seq<Draw>): seq<Move>
    requires |rules| <= |draws|
  {
    if rules == [] then []
    else
      var n := |rules| - 1;
      Round(rules[..n], agentId, probe, draws)
        + if Measure(rules[n], probe, draws[n].read).Some? then [MoveFor(rules[n], agentId, probe, draws[n])] else []
  }

  ghost predicate DistinctRules(rules: seq<Rule>, scope: Scope) {
    && (forall i | 0 <= i < |rules| :: rules[i].scope == scope)
    && (forall i, j | 0 <= i < j < |rules| :: rules[i].id != rules[j].id)
  }

  /** The draws are new to the board and to each other. */
  ghost predicate NewDraws(b: Board, draws: seq<Draw>) {
    && (forall i | 0 <= i < |draws| :: draws[i].id !in b.incidents)
    && (forall i, j | 0 <= i < j < |draws| :: draws[i].id != draws[j].id)
  }

  lemma ApplyAdds(b: Board, m: Move)
    ensures Apply(b, m).incidents.Keys <= b.incidents.Keys + (if m.Evaluate? then {m.id} else {})
    ensures !m.AddWindow? ==> Apply(b, m).windows == b.windows
  {
    hide Suppressed, Holds;
  }

  lemma {:induction false} RoundIsFresh(b: Board, rules: seq<Rule>, agentId: Bytes, probe: Probe, draws: seq<Draw>)
    requires |rules| <= |draws| && NewDraws(b, draws)
    ensures var moves := Round(rules, agentId, probe, draws);
      && FreshRun(b, moves)
      && Run(b, moves).incidents.Keys <= b.incidents.Keys + set i | 0 <= i < |rules| :: draws[i].id
  {
    hide Apply, Measure;
    if rules != [] {
      var n := |rules| - 1;
      RoundIsFresh(b, rules[..n], agentId, probe, draws);
      var before := Round(rules[..n], agentId, probe, draws);
      assert before + [] == before;
      if Measure(rules[n], probe, draws[n].read).Some? {
        var m := MoveFor(rules[n], agentId, probe, draws[n]);
        assert (before + [m])[..|before|] == before;
        ApplyAdds(Run(b, before), m);
        assert m.id == draws[n].id && m.id !in Run(b, before).incidents;
      }
    }
  }

  /** Windows stay the same throughout a round, so they tell in advance where it fails. */
  lemma {:induction false} RoundKeepsWindows(b: Board, rules: seq<Rule>, agentId: Bytes, probe: Probe, draws: seq<Draw>)
    requires |rules| <= |draws|
    ensures Run(b, Round(rules, agentId, probe, draws)).windows == b.windows
  {
    hide Apply, Measure;
    if rules != [] {
      var n := |rules| - 1;
      RoundKeepsWindows(b, rules[..n], agentId, probe, draws);
      var before := Round(rules[..n], agentId, probe, draws);
      assert before + [] == before;
      if Measure(rules[n], probe, draws[n].read).Some? {
        var m := MoveFor(rules[n], agentId, probe, draws[n]);
        assert (before + [m])[..|before|] == before;
        ApplyAdds(Run(b, before), m);
      }
    }
  }

  lemma SignalOfAppend(windows: map<Bytes, Window>, up: bool, moves: seq<Move>, m: Move, about: Subject)
    requires m.Evaluate?
    ensures Signal(windows, up, moves + [m], about) ==
      if SubjectOf(m) == about then m.breached
        && (Signal(windows, up, moves, about) || !Suppressed(WindowsAfter(windows, moves), m))
      else Signal(windows, up, moves, about)
    ensures WindowsAfter(windows, moves + [m]) == WindowsAfter(windows, moves)
  {
    assert (moves + [m])[..|moves|] == moves;
  }

  /** The part of a round before rule `k`, and every part without it, leaves its subject alone. */
  lemma {:induction false} SignalOfRound(
    windows: map<Bytes, Window>, up: bool, rules: seq<Rule>, agentId: Bytes, probe: Probe, draws: seq<Draw>,
      scope: Scope, about: Subject)
    requires |rules| <= |draws| && DistinctRules(rules, scope)
    ensures WindowsAfter(windows, Round(rules, agentId, probe, draws)) == windows
    ensures var s := Signal(windows, up, Round(rules, agentId, probe, draws), about);
      && (forall k | 0 <= k < |rules| && Measure(rules[k], probe, draws[k].read).Some?
        && about == Subject(scope, rules[k].id, agentId) ::
            var m := MoveFor(rules[k], agentId, probe, draws[k]); s == (m.breached && (up || !Suppressed(windows, m))))
      && ((forall k | 0 <= k < |rules| && Measure(rules[k], probe, draws[k].read).Some? ::
        about != Subject(scope, rules[k].id, agentId)) ==> s == up)
  {
    hide Measure, Suppressed;
    if rules != [] {
      var n := |rules| - 1;
      SignalOfRound(windows, up, rules[..n], agentId, probe, draws, scope, about);
      var before := Round(rules[..n], agentId, probe, draws);
      assert before + [] == before;
      if Measure(rules[n], probe, draws[n].read).Some? {
        SignalOfAppend(windows, up, before, MoveFor(rules[n], agentId, probe, draws[n]), about);
      }
    }
  }

  /** After a round each rule that took part has an active incident exactly when it is breached and either had
      one or is not under maintenance; nothing else changes hands. */
  lemma RoundDecides(b: Board, rules: seq<Rule>, agentId: Bytes, probe: Probe, draws: seq<Draw>, scope: Scope,
      about: Subject)
    requires BoardInv(b) && |rules| <= |draws| && NewDraws(b, draws) && DistinctRules(rules, scope)
    ensures var b1 := Run(b, Round(rules, agentId, probe, draws));
      && BoardInv(b1)
      && (forall k | 0 <= k < |rules| && Measure(rules[k], probe, draws[k].read).Some?
        && about == Subject(scope, rules[k].id, agentId) ::
            var m := MoveFor(rules[k], agentId, probe, draws[k]);
            Active(b1, about) <==> m.breached && (Active(b, about) || !Suppressed(b.windows, m)))
      && ((forall k | 0 <= k < |rules| && Measure(rules[k], probe, draws[k].read).Some? ::
        about != Subject(scope, rules[k].id, agentId))
            ==> (Active(b1, about) <==> Active(b, about)))
  {
    hide BoardInv, Measure, Suppressed, Active, Signal, WindowsAfter;
    var moves := Round(rules, agentId, probe, draws);
    RoundIsFresh(b, rules, agentId, probe, draws);
    RunKeeps(b, moves);
    IncidentsAreEdges(b, moves, about);
    SignalOfRound(b.windows, Active(b, about), rules, agentId, probe, draws, scope, about);
  }

  // ---------------------------------------------------------------- the store

  const BY_CREATION: Less<Rule> := (a: Rule, b: Rule) => a.createdAt < b.createdAt

  lemma Duplicates<T>(s: seq<T>, i: nat, j: nat)
    requires i < j < |s| && s[i] == s[j]
    ensures multiset(s)[s[i]] >= 2
  {
    assert s == s[..j] + s[j..];
    assert s[..j][i] == s[i] && s[j..][0] == s[i];
    assert s[i] in multiset(s[..j]) && s[i] in multiset(s[j..]);
  }

  ghost predicate InScope(found: set<Rule>, rules: map<Bytes, Rule>, scope: Scope) {
    forall r | r in found :: r.id in rules && rules[r.id] == r && r.scope == scope
  }

  /** A listing without repetition has distinct rules. */
  lemma ListingIsDistinct(list: seq<Rule>, found: set<Rule>, rules: map<Bytes, Rule>, scope: Scope)
    requires multiset(list) == multiset(found) && InScope(found, rules, scope)
    ensures DistinctRules(list, scope) && forall r :: r in list <==> r in found
  {
    forall r ensures r in list <==> r in found { assert r in list <==> r in multiset(list); }
    forall i, j | 0 <= i < j < |list| ensures list[i].id != list[j].id {
      if list[i] == list[j] { Duplicates(list, i, j); }
      assert list[i] in found && list[j] in found;
    }
  }

  function Resolution(i: Incident, value: real, message: Bytes, at: Time): Incident {
    i.(status := StatusResolved, resolvedAt := Some(at), latestValue := value, message := message)
  }

  function Acknowledgement(i: Incident, actor: Bytes, at: Time): Incident {
    i.(status := StatusAcknowledged, acknowledgedAt := Some(at), acknowledgedBy := actor)
  }

  function Record(b: Board, i: Incident, event: Event): Board {
    b.(incidents := b.incidents[i.id := i],
      events := b.events[i.id := EventsOf(b, i.id) + [event.(incidentId := i.id)]])
  }

  lemma OldestFirst(list: seq<Rule>)
    requires Sorted(list, BY_CREATION)
    ensures forall i, j | 0 <= i < j < |list| :: list[i].createdAt <= list[j].createdAt
  {
    forall i, j | 0 <= i < j < |list| ensures list[i].createdAt <= list[j].createdAt {
      assert !BY_CREATION(list[j], list[i]);
    }
  }

  class MemoryStore {
    var rules: map<Bytes, Rule>
    var windows: map<Bytes, Window>
    var incidents: map<Bytes, Incident>
    var events: map<Bytes, seq<Event>>

    function View(): Board
      reads this
    {
      Board(rules, windows, incidents, events)
    }

    constructor ()
      ensures View() == EMPTY_BOARD && BoardInv(View())
    {
      rules, windows, incidents, events := map[], map[], map[], map[];
    }

    method CreateAlertRule(scope: Scope, rule: Rule) returns (r: Result<()>)
      modifies `rules
      ensures r == if scope.Valid() && rule.scope == scope then Ok(()) else Err(ErrInvalidScope)
      ensures View() == if r.Ok? then Apply(old(View()), AddRule(rule)) else old(View())
    {
      if !scope.Valid() { return Err(ErrInvalidScope); }
      if rule.scope != scope { return Err(ErrInvalidScope); }
      rules := rules[rule.id := rule];
      return Ok(());
    }

    method CreateMaintenanceWindow(scope: Scope, window: Window) returns (r: Result<()>)
      modifies `windows
      ensures r == if scope.Valid() && window.scope == scope then Ok(()) else Err(ErrInvalidScope)
      ensures View() == if r.Ok? then Apply(old(View()), AddWindow(window)) else old(View())
    {
      if !scope.Valid() { return Err(ErrInvalidScope); }
      if window.scope != scope { return Err(ErrInvalidScope); }
      windows := windows[window.id := window];
      return Ok(());
    }

    /** The rules of a scope, each once, oldest first. */
    method ListAlertRules(scope: Scope) returns (r: Result<seq<Rule>>)
      requires BoardInv(View())
      ensures r.Ok? <==> scope.Valid()
      ensures r.Err? ==> r.error == ErrInvalidScope
      ensures r.Ok? ==> DistinctRules(r.value, scope) && Sorted(r.value, BY_CREATION) && |r.value| <= |rules|
      ensures r.Ok? ==> forall id | id in rules && rules[id].scope == scope :: rules[id] in r.value
      ensures r.Ok? ==> forall i, j | 0 <= i < j < |r.value| :: r.value[i].createdAt <= r.value[j].createdAt
      ensures r.Ok? ==> forall rule | rule in r.value :: rule.id in rules && rules[rule.id] == rule
    {
      hide ValidId;
      if !scope.Valid() { return Err(ErrInvalidScope); }
      var result: seq<Rule> := [];
      ghost var found: set<Rule> := {};
      var todo := rules.Keys;
      while todo != {}
        invariant todo <= rules.Keys && |result| + |todo| <= |rules|
        invariant multiset(result) == multiset(found) && InScope(found, rules, scope)
        invariant forall r | r in found :: r.id !in todo
        invariant forall id | id in rules.Keys - todo && rules[id].scope == scope :: rules[id] in found
      {
        var id :| id in todo;
        todo := todo - {id};
        if rules[id].scope != scope { continue; }
        assert rules[id] !in found;
        result := result + [rules[id]];
        found := found + {rules[id]};
      }
      SortSorts(result, BY_CREATION);
      result := Sort(result, BY_CREATION);
      ListingIsDistinct(result, found, rules, scope);
      OldestFirst(result);
      return Ok(result);
    }

    method EnsureIncident(scope: Scope, incident: Incident, event: Event) returns (r: Result<(Incident, bool)>)
      modifies `incidents, `events
      ensures r.Ok? <==> scope.Valid() && incident.scope == scope && event.scope == scope
      ensures r.Err? ==> r.error == ErrInvalidScope && View() == old(View())
      ensures r.Ok? ==> r.value.1 == !Active(old(View()), incident.About())
      ensures r.Ok? && r.value.1 ==> r.value.0 == incident && View() == old(View()).(
        incidents := old(incidents)[incident.id := incident], events :=
          old(events)[incident.id := [event.(incidentId := incident.id)]])
      ensures r.Ok? && !r.value.1
        ==> View() == old(View()) && Holds(r.value.0, incident.About()) && r.value.0 in incidents.Values
    {
      hide ValidId;
      if !scope.Valid() || incident.scope != scope || event.scope != scope { return Err(ErrInvalidScope); }
      var todo := incidents.Keys;
      while todo != {}
        invariant todo <= incidents.Keys
        invariant forall id | id in incidents.Keys - todo :: !Holds(incidents[id], incident.About())
      {
        var id :| id in todo;
        if Holds(incidents[id], incident.About()) {
          assert Active(View(), incident.About());
          return Ok((incidents[id], false));
        }
        todo := todo - {id};
      }
      incidents := incidents[incident.id := incident];
      events := events[incident.id := [event.(incidentId := incident.id)]];
      return Ok((incident, true));
    }

    /** The first unresolved incident found; by `ActiveIsUnique` there is no other. */
    method ResolveIncident(scope: Scope, ruleId: Bytes, agentId: Bytes, value: real, message: Bytes, event: Event)
      returns (r: Result<Option<Incident>>, ghost id: Bytes)
      requires BoardInv(View())
      modifies `incidents, `events
      ensures r.Ok? <==> scope.Valid() && event.scope == scope
      ensures r.Err? ==> r.error == ErrInvalidScope
      ensures r.Ok? ==> (r.value.Some? <==> Active(old(View()), Subject(scope, ruleId, agentId)))
      ensures r.Err? || r.value.None? ==> View() == old(View())
      ensures r.Ok? && r.value.Some? ==>
        && id in old(incidents) && Holds(old(incidents)[id], Subject(scope, ruleId, agentId))
        && r.value.value == Resolution(old(incidents)[id], value, message, event.occurredAt)
        && View() == Record(old(View()), r.value.value, event)
    {
      hide ValidId, Tells;
      id := [];
      if !scope.Valid() || event.scope != scope { return Err(ErrInvalidScope), id; }
      var todo := incidents.Keys;
      while todo != {}
        invariant todo <= incidents.Keys
        invariant forall i | i in incidents.Keys - todo :: !Holds(incidents[i], Subject(scope, ruleId, agentId))
      {
        var i :| i in todo;
        if Holds(incidents[i], Subject(scope, ruleId, agentId)) {
          assert IncidentInv(View(), i) && Active(View(), Subject(scope, ruleId, agentId));
          var v := Resolution(incidents[i], value, message, event.occurredAt);
          events := events[i := events[i] + [event.(incidentId := v.id)]];
          incidents := incidents[i := v];
          return Ok(Some(v)), i;
        }
        todo := todo - {i};
      }
      return Ok(None), id;
    }

    method AcknowledgeIncident(scope: Scope, id: Bytes, actor: Bytes, at: Time, event: Event)
        returns (r: Result<Incident>)
      requires BoardInv(View())
      modifies `incidents, `events
      ensures !scope.Valid() || event.scope != scope ==> r == Err(ErrInvalidScope)
      ensures scope.Valid() && event.scope == scope ==>
        var expected := AcknowledgeResult(old(View()), scope, id);
        if expected.Err? then r == Err(expected.error) else r == Ok(Acknowledgement(old(incidents)[id], actor, at))
      ensures View() == if r.Ok? then Record(old(View()), r.value, event) else old(View())
    {
      hide ValidId, Tells;
      if !scope.Valid() || event.scope != scope { return Err(ErrInvalidScope); }
      if id !in incidents || incidents[id].scope != scope { return Err(ErrNotFound); }
      if incidents[id].status != StatusOpen { return Err(ErrConflict); }
      assert IncidentInv(View(), id);
      var v := Acknowledgement(incidents[id], actor, at);
      incidents := incidents[id := v];
      events := events[id := events[id] + [event.(incidentId := v.id)]];
      return Ok(v);
    }
  }

  // ---------------------------------------------------------------- the service

  lemma ResolvedIsApplied(b: Board, m: Move, id: Bytes, resolved: Incident, event: Event)
    requires BoardInv(b) && m.Evaluate? && !m.breached
    requires id in b.incidents && Holds(b.incidents[id], SubjectOf(m))
    requires event == Event(m.rule.scope, [], EventResolved, HubActor(), Recovered(), m.now)
    requires resolved == Resolution(b.incidents[id], m.value, Recovered(), m.now)
    ensures Record(b, resolved, event) == Apply(b, m)
  {
    hide Tells, HubActor, Recovered;
    assert IncidentInv(b, id);
    var found :| found in b.incidents && Holds(b.incidents[found], SubjectOf(m))
      && Apply(b, m) == ResolveOne(b, found, m.value, Recovered(), m.now);
    ActiveIsUnique(b, SubjectOf(m), id, found);
  }

  lemma AcknowledgedIsApplied(b: Board, m: Move, event: Event)
    requires BoardInv(b) && m.Acknowledge? && AcknowledgeResult(b, m.scope, m.incidentId).Ok?
    requires event == Event(m.scope, m.incidentId, EventAcknowledged, m.actor, ByOperator(), m.now)
    ensures Record(b, Acknowledgement(b.incidents[m.incidentId], m.actor, m.now), event) == Apply(b, m)
  {
    hide Tells, ByOperator;
    assert IncidentInv(b, m.incidentId);
  }

  lemma NoRound(b: Board, agentId: Bytes, probe: Probe, draws: seq<Draw>)
    ensures Round([], agentId, probe, draws) == [] && Run(b, []) == b
  {}

  lemma RunOneMore(b: Board, moves: seq<Move>, m: Move)
    ensures Run(b, moves + [m]) == Apply(Run(b, moves), m)
  {
    assert (moves + [m])[..|moves|] == moves;
  }

  lemma RoundContinues(rules: seq<Rule>, n: nat, agentId: Bytes, probe: Probe, draws: seq<Draw>)
    requires n < |rules| <= |draws|
    ensures var before := Round(rules[..n], agentId, probe, draws);
      Round(rules[..n + 1], agentId, probe, draws)
        == if Measure(rules[n], probe, draws[n].read).Some? then before + [MoveFor(rules[n], agentId, probe, draws[n])]
          else before
  {
    assert rules[..n + 1][..n] == rules[..n];
  }

  /** A round up to rule `done`: there the first failure is, or the end. */
  ghost predicate Evaluated(b: Board, rules: seq<Rule>, agentId: Bytes, probe: Probe, draws: seq<Draw>, done: nat,
      after: Board, r: Result<()>)
    requires |rules| <= |draws|
  {
    && done <= |rules|
    && (forall k | 0 <= k < done :: FailureAt(b.windows, rules[k], agentId, probe, draws[k]).None?)
    && after == Run(b, Round(rules[..done], agentId, probe, draws))
    && if done == |rules| then r == Ok(())
       else var failure := FailureAt(b.windows, rules[done], agentId, probe, draws[done]);
         failure.Some? && r == Err(failure.value)
  }

  lemma DrawIsNew(b: Board, done: seq<Rule>, agentId: Bytes, probe: Probe, draws: seq<Draw>)
    requires |done| < |draws| && NewDraws(b, draws)
    ensures draws[|done|].id !in Run(b, Round(done, agentId, probe, draws)).incidents
  {
    RoundIsFresh(b, done, agentId, probe, draws);
  }

  class Service {
    const store: MemoryStore

    constructor (store: MemoryStore)
      ensures this.store == store
    {
      this.store := store;
    }

    method UnderMaintenance(scope: Scope, agentId: Bytes, now: Time) returns (yes: bool)
      ensures yes <==> exists id | id in store.windows :: Suppresses(store.windows[id], scope, agentId, now)
    {
      var todo := store.windows.Keys;
      while todo != {}
        invariant todo <= store.windows.Keys
        invariant forall id | id in store.windows.Keys - todo :: !Suppresses(store.windows[id], scope, agentId, now)
      {
        var id :| id in todo;
        if Suppresses(store.windows[id], scope, agentId, now) { return true; }
        todo := todo - {id};
      }
      return false;
    }

    /** One rule for one agent: the step `Evaluate`, or a failure without effect. */
    method EvaluateRule(rule: Rule, agentId: Bytes, breached: bool, value: real, message: Bytes, clock: Time,
        id: Bytes, trouble: Trouble) returns (r: Result<()>)
      requires BoardInv(store.View()) && rule.scope.Valid() && id !in store.incidents
      modifies store
      ensures var m := Evaluate(rule, agentId, breached, value, message, TruncateMicro(clock), id);
        var failure := FailureOf(old(store.windows), m, trouble);
        && r == (if failure.Some? then Err(failure.value) else Ok(()))
        && store.View() == (if r.Err? then old(store.View()) else Apply(old(store.View()), m))
      ensures BoardInv(store.View())
    {
      hide BoardInv, Holds, Suppresses, ValidId;
      if agentId == [] { return Err(ErrInvalidAlert); }
      var now := TruncateMicro(clock);
      ghost var b, m := store.View(), Evaluate(rule, agentId, breached, value, message, now, id);
      ApplyKeeps(b, m);
      if breached {
        if trouble.NoWindows? { return Err(trouble.error); }
        var quiet := UnderMaintenance(rule.scope, agentId, now);
        if quiet { return Ok(()); }
        if trouble.NoId? { return Err(trouble.error); }
        var incident := Incident(id, rule.scope, rule.id, rule.name, agentId, rule.severity, StatusOpen, message,
          value, now, None, [], None);
        var event := Event(rule.scope, id, EventOpened, HubActor(), message, now);
        var ensured := store.EnsureIncident(rule.scope, incident, event);
        return Ok(());
      }
      var event := Event(rule.scope, [], EventResolved, HubActor(), Recovered(), now);
      var resolved, found := store.ResolveIncident(rule.scope, rule.id, agentId, value, Recovered(), event);
      if resolved.value.Some? { ResolvedIsApplied(b, m, found, resolved.value.value, event); }
      return Ok(());
    }

    /** EvaluateTelemetry for a sample, EvaluateReachability for a last-seen time: one step per rule that applies,
        oldest rule first, up to the first of them, number `done`, that fails: its error is returned, and the rules
        from there on wait for the next report. A blank agent ID is refused by the first that applies. */
    method EvaluateAll(scope: Scope, agent: Bytes, probe: Probe, draws: seq<Draw>)
        returns (r: Result<()>, ghost rules: seq<Rule>, ghost done: nat)
      requires BoardInv(store.View()) && NewDraws(store.View(), draws) && |draws| >= |store.rules|
      modifies store
      ensures BoardInv(store.View())
      ensures !scope.Valid() ==> r == Err(ErrInvalidScope) && store.View() == old(store.View())
      ensures scope.Valid() ==>
        && |rules| <= |draws| && DistinctRules(rules, scope)
        && (forall id | id in old(store.rules) && old(store.rules)[id].scope == scope :: old(store.rules)[id] in rules)
        && (forall rule | rule in rules :: rule.id in old(store.rules) && old(store.rules)[rule.id] == rule)
        && Evaluated(old(store.View()), rules, TrimSpace(agent), probe, draws, done, store.View(), r)
        && (TrimSpace(agent) == [] ==> store.View() == old(store.View()))
        && (TrimSpace(agent) == [] && Round(rules, [], probe, draws) != [] ==> r == Err(ErrInvalidAlert))
    {
      hide BoardInv, TrimSpace, Measure, Apply, ValidId, Run, Round, NewDraws, Suppresses, Holds, TruncateMicro;
      rules, done := [], 0;
      if !scope.Valid() { return Err(ErrInvalidScope), rules, done; }
      var listed := store.ListAlertRules(scope);
      rules := listed.value;
      ghost var b := store.View();
      var agentId := TrimSpace(agent);
      NoRound(b, agentId, probe, draws);
      assert rules[..0] == [];
      for n := 0 to |listed.value|
        invariant BoardInv(store.View())
        invariant store.View() == Run(b, Round(rules[..n], agentId, probe, draws))
        invariant forall k | 0 <= k < n :: FailureAt(b.windows, rules[k], agentId, probe, draws[k]).None?
        invariant agentId == [] ==> Round(rules[..n], agentId, probe, draws) == []
      {
        var rule := listed.value[n];
        ghost var before := Round(rules[..n], agentId, probe, draws);
        RoundContinues(rules, n, agentId, probe, draws);
        var measured := Measure(rule, probe, draws[n].read);
        done := n;
        if measured.Some? {
          DrawIsNew(b, rules[..n], agentId, probe, draws);
          RoundKeepsWindows(b, rules[..n], agentId, probe, draws);
          assert rule.scope == scope;
          ghost var m := MoveFor(rule, agentId, probe, draws[n]);
          RunOneMore(b, before, m);
          var one := EvaluateRule(rule, agentId, measured.value.0, measured.value.1, draws[n].message, draws[n].now,
            draws[n].id, draws[n].trouble);
          if one.Err? { return Err(one.error), rules, done; }
        }
      }
      assert rules[..|rules|] == rules;
      done := |rules|;
      return Ok(()), rules, done;
    }

    method Acknowledge(scope: Scope, id: Bytes, who: Bytes, clock: Time) returns (r: Result<Incident>)
      requires BoardInv(store.View())
      modifies store
      ensures BoardInv(store.View())
      ensures !scope.Valid() ==> r == Err(ErrInvalidScope)
      ensures scope.Valid() && (TrimSpace(id) == [] || TrimSpace(who) == [] || |TrimSpace(who)| > 128)
        ==> r == Err(ErrInvalidAlert)
      ensures scope.Valid() && TrimSpace(id) != [] && 0 < |TrimSpace(who)| <= 128 ==>
        (var expected := AcknowledgeResult(old(store.View()), scope, TrimSpace(id));
         var m := Alerting.Acknowledge(scope, TrimSpace(id), TrimSpace(who), TruncateMicro(clock));
         if expected.Err? then r == Err(expected.error) else r.Ok? && store.View() == Apply(old(store.View()), m))
      ensures r.Err? ==> store.View() == old(store.View())
    {
      hide BoardInv, TrimSpace, ValidId;
      if !scope.Valid() { return Err(ErrInvalidScope); }
      var incidentId, actor := TrimSpace(id), TrimSpace(who);
      if incidentId == [] || actor == [] || |actor| > 128 { return Err(ErrInvalidAlert); }
      var now := TruncateMicro(clock);
      var event := Event(scope, incidentId, EventAcknowledged, actor, ByOperator(), now);
      ghost var b, m := store.View(), Alerting.Acknowledge(scope, incidentId, actor, now);
      ApplyKeeps(b, m);
      r := store.AcknowledgeIncident(scope, incidentId, actor, now, event);
      if r.Ok? { AcknowledgedIsApplied(b, m, event); }
    }
  }
}
