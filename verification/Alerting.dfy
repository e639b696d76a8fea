/** internal/alerting/alerting.go: incidents as a function of evaluations, acknowledgements and maintenance. */
module Alerting {
  import opened Wrappers
  import opened Text
  import opened Tenancy
  import opened Clock

  datatype Metric = Cpu | Memory | Disk
  datatype Severity = Warning | Critical

  /** Thresholds are percentages; the reachability limit is in seconds. */
  datatype Kind = MetricKind(metric: Metric, threshold: real) | ReachabilityKind(staleAfter: int)

  datatype Rule = Rule(id: Bytes, scope: Scope, name: Bytes, kind: Kind, severity: Severity, enabled: bool,
      createdAt: Time)

  datatype Window = Window(id: Bytes, scope: Scope, agentId: Bytes, startsAt: Time, endsAt: Time)

  datatype Status = StatusOpen | StatusAcknowledged | StatusResolved
  datatype EventType = EventOpened | EventAcknowledged | EventResolved

  datatype Event = Event(scope: Scope, incidentId: Bytes, typ: EventType, actor: Bytes, message: Bytes,
      occurredAt: Time)

  /** What an incident is about; at most one is unresolved per subject. */
  datatype Subject = Subject(scope: Scope, ruleId: Bytes, agentId: Bytes)

  datatype Incident = Incident(
    id: Bytes, scope: Scope, ruleId: Bytes, ruleName: Bytes, agentId: Bytes, severity: Severity, status: Status,
    message: Bytes, latestValue: real, openedAt: Time,
    acknowledgedAt: Option<Time>, acknowledgedBy: Bytes, resolvedAt: Option<Time>)
  {
    function About(): Subject { Subject(scope, ruleId, agentId) }
  }

  datatype Board = Board(
    rules: map<Bytes, Rule>, windows: map<Bytes, Window>, incidents: map<Bytes, Incident>,
    events: map<Bytes, seq<Event>>)

  const EMPTY_BOARD := Board(map[], map[], map[], map[])

  function HubActor(): Bytes { Ascii("hub") }

  // ---------------------------------------------------------------- steps

  datatype Move =
    | Evaluate(rule: Rule, agentId: Bytes, breached: bool, value: real, message: Bytes, now: Time, id: Bytes)
    | Acknowledge(scope: Scope, incidentId: Bytes, actor: Bytes, now: Time)
    | AddRule(rule: Rule)
    | AddWindow(window: Window)

  function SubjectOf(m: Move): Subject
    requires m.Evaluate?
  {
    Subject(m.rule.scope, m.rule.id, m.agentId)
  }

  predicate Holds(i: Incident, about: Subject) { i.About() == about && i.status != StatusResolved }

  ghost predicate Active(b: Board, about: Subject) { exists id | id in b.incidents :: Holds(b.incidents[id], about) }

  predicate Suppresses(w: Window, scope: Scope, agentId: Bytes, now: Time) {
    w.scope == scope && (w.agentId == [] || w.agentId == agentId) && w.startsAt <= now < w.endsAt
  }

  ghost predicate Suppressed(windows: map<Bytes, Window>, m: Move)
    requires m.Evaluate?
  {
    exists id | id in windows :: Suppresses(windows[id], m.rule.scope, m.agentId, m.now)
  }

  function Opening(m: Move): Incident
    requires m.Evaluate?
  {
    Incident(m.id, m.rule.scope, m.rule.id, m.rule.name, m.agentId, m.rule.severity, StatusOpen,
             m.message, m.value, m.now, None, [], None)
  }

  /** EnsureIncident when nothing is active. */
  function Open(b: Board, i: Incident): Board {
    b.(incidents := b.incidents[i.id := i],
      events := b.events[i.id := [Event(i.scope, i.id, EventOpened, HubActor(), i.message, i.openedAt)]])
  }

  function EventsOf(b: Board, id: Bytes): seq<Event> { if id in b.events then b.events[id] else [] }

  function ResolveOne(b: Board, id: Bytes, value: real, message: Bytes, at: Time): Board
    requires id in b.incidents
  {
    var i := b.incidents[id];
    b.(incidents := b.incidents[id := i.(status := StatusResolved, resolvedAt := Some(at), latestValue := value,
      message := message)],
       events := b.events[id := EventsOf(b, id) + [Event(i.scope, id, EventResolved, HubActor(), message, at)]])
  }

  function Recovered(): Bytes {
    Ascii("Ko") + [0xC5, 0x9F] + Ascii("ul normale d") + [0xC3, 0xB6] + Ascii("nd") + [0xC3, 0xBC]
  }

  function ByOperator(): Bytes {
    Ascii("Olay operat") + [0xC3, 0xB6] + Ascii("r taraf") + [0xC4, 0xB1] + Ascii("ndan onayland") + [0xC4, 0xB1]
  }

  function AcknowledgeOne(b: Board, id: Bytes, actor: Bytes, at: Time): Board
    requires id in b.incidents
  {
    var i := b.incidents[id];
    b.(incidents := b.incidents[id := i.(status := StatusAcknowledged, acknowledgedAt := Some(at),
      acknowledgedBy := actor)],
       events := b.events[id := EventsOf(b, id) + [Event(i.scope, id, EventAcknowledged, actor, ByOperator(), at)]])
  }

  function AcknowledgeResult(b: Board, scope: Scope, id: Bytes): Result<()> {
    if id !in b.incidents || b.incidents[id].scope != scope then Err(ErrNotFound)
    else if b.incidents[id].status != StatusOpen then Err(ErrConflict)
    else Ok(())
  }

  ghost function Apply(b: Board, m: Move): Board {
    match m
    case Evaluate(_, _, breached, value, _, now, _) =>
      var about := SubjectOf(m);
      if breached then
        if Suppressed(b.windows, m) || Active(b, about) then b else Open(b, Opening(m))
      else if Active(b, about) then
        var id :| id in b.incidents && Holds(b.incidents[id], about);
        ResolveOne(b, id, value, Recovered(), now)
      else b
    case Acknowledge(scope, id, actor, now) =>
      if AcknowledgeResult(b, scope, id).Ok? then AcknowledgeOne(b, id, actor, now) else b
    case AddRule(rule) => b.(rules := b.rules[rule.id := rule])
    case AddWindow(window) => b.(windows := b.windows[window.id := window])
  }

  ghost function Run(b: Board, moves: seq<Move>): Board {
    if moves == [] then b else Apply(Run(b, moves[..|moves| - 1]), moves[|moves| - 1])
  }

  /** `newID` draws an ID no incident has. */
  ghost predicate Fresh(b: Board, m: Move) { m.Evaluate? ==> m.id !in b.incidents }

  ghost predicate FreshRun(b: Board, moves: seq<Move>) {
    moves == [] || (FreshRun(b, moves[..|moves| - 1]) && Fresh(Run(b, moves[..|moves| - 1]), moves[|moves| - 1]))
  }

  // ---------------------------------------------------------------- the invariant

  function StatusOf(i: Incident): Status {
    if i.resolvedAt.Some? then StatusResolved else if i.acknowledgedAt.Some? then StatusAcknowledged else StatusOpen
  }

  /** What the record of an incident says about its events: opened, perhaps acknowledged, perhaps resolved. */
  predicate Tells(i: Incident, events: seq<Event>) {
    var acked := if i.acknowledgedAt.Some? then 1 else 0;
    && |events| == 1 + acked + (if i.resolvedAt.Some? then 1 else 0)
    && (events[0].typ == EventOpened && events[0].occurredAt == i.openedAt)
    && (i.acknowledgedAt.Some? ==>
          events[1].typ == EventAcknowledged && Some(events[1].occurredAt) == i.acknowledgedAt
            && events[1].actor == i.acknowledgedBy)
    && (i.resolvedAt.Some?
      ==> events[1 + acked].typ == EventResolved && Some(events[1 + acked].occurredAt) == i.resolvedAt)
    && forall n | 0 <= n < |events| :: events[n].incidentId == i.id && events[n].scope == i.scope
  }

  ghost predicate IncidentInv(b: Board, id: Bytes)
    requires id in b.incidents
  {
    var i := b.incidents[id];
    i.id == id && i.status == StatusOf(i) && id in b.events && Tells(i, b.events[id])
  }

  ghost predicate OneEach(b: Board) {
    forall i, j | i in b.incidents && j in b.incidents && b.incidents[i].About() == b.incidents[j].About() ::
      b.incidents[i].status == StatusResolved || b.incidents[j].status == StatusResolved || i == j
  }

  ghost predicate BoardInv(b: Board) {
    && b.events.Keys == b.incidents.Keys
    && (forall id | id in b.incidents :: IncidentInv(b, id))
    && (forall id | id in b.rules :: b.rules[id].id == id)
    && OneEach(b)
  }

  /** Resolution cannot depend on the order in which the map is searched. */
  lemma ActiveIsUnique(b: Board, about: Subject, i: Bytes, j: Bytes)
    requires OneEach(b) && i in b.incidents && j in b.incidents
    requires Holds(b.incidents[i], about) && Holds(b.incidents[j], about)
    ensures i == j
  {}

  lemma OpenKeeps(b: Board, m: Move)
    requires BoardInv(b) && m.Evaluate? && m.id !in b.incidents && !Active(b, SubjectOf(m))
    ensures BoardInv(Open(b, Opening(m)))
  {
    var b1 := Open(b, Opening(m));
    forall id | id in b1.incidents ensures IncidentInv(b1, id) { if id != m.id { assert IncidentInv(b, id); } }
    forall i | i in b.incidents && b.incidents[i].About() == SubjectOf(m)
      ensures b.incidents[i].status == StatusResolved
    {
      assert !Holds(b.incidents[i], SubjectOf(m));
    }
  }

  lemma ResolveKeeps(b: Board, id: Bytes, value: real, message: Bytes, at: Time)
    requires BoardInv(b) && id in b.incidents && b.incidents[id].status != StatusResolved
    ensures BoardInv(ResolveOne(b, id, value, message, at))
  {
    var b1 := ResolveOne(b, id, value, message, at);
    assert IncidentInv(b, id);
    forall i | i in b1.incidents ensures IncidentInv(b1, i) { assert IncidentInv(b, i); }
  }

  lemma AcknowledgeKeeps(b: Board, id: Bytes, actor: Bytes, at: Time)
    requires BoardInv(b) && id in b.incidents && b.incidents[id].status == StatusOpen
    ensures BoardInv(AcknowledgeOne(b, id, actor, at))
  {
    var b1 := AcknowledgeOne(b, id, actor, at);
    assert IncidentInv(b, id);
    forall i | i in b1.incidents ensures IncidentInv(b1, i) { assert IncidentInv(b, i); }
  }

  lemma ApplyKeeps(b: Board, m: Move)
    requires BoardInv(b) && Fresh(b, m)
    ensures BoardInv(Apply(b, m))
  {
    hide Tells;
    match m
    case Evaluate(_, _, breached, value, _, now, _) =>
      var about := SubjectOf(m);
      if breached {
        if !Suppressed(b.windows, m) && !Active(b, about) { OpenKeeps(b, m); }
      } else if Active(b, about) {
        var id :| id in b.incidents && Holds(b.incidents[id], about)
          && Apply(b, m) == ResolveOne(b, id, value, Recovered(), now);
        ResolveKeeps(b, id, value, Recovered(), now);
      }
    case Acknowledge(scope, id, actor, now) =>
      if AcknowledgeResult(b, scope, id).Ok? { AcknowledgeKeeps(b, id, actor, now); }
    case _ => OtherFields(b, Apply(b, m));
  }

  lemma OtherFields(b: Board, b1: Board)
    requires BoardInv(b) && b1.incidents == b.incidents && b1.events == b.events
    requires forall id | id in b1.rules :: b1.rules[id].id == id
    ensures BoardInv(b1)
  {
    forall id | id in b1.incidents ensures IncidentInv(b1, id) { assert IncidentInv(b, id); }
  }

  /** Every reachable board: one unresolved incident per subject at most, and events that spell each incident's
      story and status. */
  lemma {:induction false} RunKeeps(b: Board, moves: seq<Move>)
    requires BoardInv(b) && FreshRun(b, moves)
    ensures BoardInv(Run(b, moves))
  {
    hide BoardInv, Apply;
    if moves != [] {
      RunKeeps(b, moves[..|moves| - 1]);
      ApplyKeeps(Run(b, moves[..|moves| - 1]), moves[|moves| - 1]);
    }
  }

  lemma EmptyBoard()
    ensures BoardInv(EMPTY_BOARD)
  {}

  /** In every reachable store a subject has at most one unresolved incident, so which of them a search of the map
      meets first cannot matter. */
  lemma OneUnresolvedPerSubject(moves: seq<Move>, about: Subject, i: Bytes, j: Bytes)
    requires FreshRun(EMPTY_BOARD, moves)
    requires var b := Run(EMPTY_BOARD, moves);
      i in b.incidents && j in b.incidents && Holds(b.incidents[i], about) && Holds(b.incidents[j], about)
    ensures i == j
  {
    hide Run;
    EmptyBoard();
    RunKeeps(EMPTY_BOARD, moves);
    ActiveIsUnique(Run(EMPTY_BOARD, moves), about, i, j);
  }

  function TypesOf(events: seq<Event>): seq<EventType> { seq(|events|, n requires 0 <= n < |events| => events[n].typ) }

  /** In every reachable store an incident's events spell opened, perhaps acknowledged, perhaps resolved, in that
      order, and the last of them is its status. */
  lemma EventsSpellTheStatus(moves: seq<Move>, id: Bytes)
    requires FreshRun(EMPTY_BOARD, moves) && id in Run(EMPTY_BOARD, moves).incidents
    ensures var b := Run(EMPTY_BOARD, moves);
      && id in b.events
      && TypesOf(b.events[id]) == (match b.incidents[id].status
           case StatusOpen => [EventOpened]
           case StatusAcknowledged => [EventOpened, EventAcknowledged]
           case StatusResolved =>
             if b.incidents[id].acknowledgedAt.Some? then [EventOpened, EventAcknowledged, EventResolved]
               else [EventOpened, EventResolved])
  {
    hide Run;
    EmptyBoard();
    RunKeeps(EMPTY_BOARD, moves);
    assert IncidentInv(Run(EMPTY_BOARD, moves), id);
  }

  // ---------------------------------------------------------------- the edge detector

  function WindowsAfter(windows: map<Bytes, Window>, moves: seq<Move>): map<Bytes, Window> {
    if moves == [] then windows
    else
      var w := WindowsAfter(windows, moves[..|moves| - 1]);
      var m := moves[|moves| - 1];
      if m.AddWindow? then w[m.window.id := m.window] else w
  }

  /** The reference: a breach raises the signal unless maintenance holds it down, and only recovery lowers it. */
  ghost function Signal(windows: map<Bytes, Window>, up: bool, moves: seq<Move>, about: Subject): bool {
    if moves == [] then up
    else
      var front, m := moves[..|moves| - 1], moves[|moves| - 1];
      var was := Signal(windows, up, front, about);
      if m.Evaluate? && SubjectOf(m) == about then m.breached
        && (was || !Suppressed(WindowsAfter(windows, front), m)) else was
  }

  ghost function RisingEdges(windows: map<Bytes, Window>, up: bool, moves: seq<Move>, about: Subject): nat {
    if moves == [] then 0
    else
      var front := moves[..|moves| - 1];
      RisingEdges(windows, up, front, about)
        + if !Signal(windows, up, front, about) && Signal(windows, up, moves, about) then 1 else 0
  }

  function IncidentsOf(b: Board, about: Subject): set<Bytes> {
    set id | id in b.incidents && b.incidents[id].About() == about
  }

  lemma {:induction false} WindowsOfRun(b: Board, moves: seq<Move>)
    ensures Run(b, moves).windows == WindowsAfter(b.windows, moves)
  {
    if moves != [] { WindowsOfRun(b, moves[..|moves| - 1]); }
  }

  /** One step at one subject. */
  lemma StepAtSubject(b: Board, m: Move, about: Subject)
    requires BoardInv(b) && Fresh(b, m)
    ensures var b1 := Apply(b, m);
      && (Active(b1, about) <==>
            if m.Evaluate? && SubjectOf(m) == about then m.breached
              && (Active(b, about) || !Suppressed(b.windows, m)) else Active(b, about))
      && |IncidentsOf(b1, about)| == |IncidentsOf(b, about)| + (if !Active(b, about) && Active(b1, about) then 1 else 0)
  {
    hide IncidentInv, Suppressed;
    match m
    case Evaluate(_, _, breached, value, _, now, _) =>
      if breached {
        if !Suppressed(b.windows, m) && !Active(b, SubjectOf(m)) { OpenAtSubject(b, m, about); }
      } else if Active(b, SubjectOf(m)) {
        var id :| id in b.incidents && Holds(b.incidents[id], SubjectOf(m))
          && Apply(b, m) == ResolveOne(b, id, value, Recovered(), now);
        ResolveAtSubject(b, id, value, Recovered(), now, about);
      }
    case Acknowledge(scope, id, actor, now) =>
      if AcknowledgeResult(b, scope, id).Ok? { AcknowledgeAtSubject(b, id, actor, now, about); }
    case _ => assert IncidentsOf(Apply(b, m), about) == IncidentsOf(b, about);
  }

  lemma OpenAtSubject(b: Board, m: Move, about: Subject)
    requires m.Evaluate? && m.id !in b.incidents && !Active(b, SubjectOf(m))
    ensures var b1 := Open(b, Opening(m));
      && (Active(b1, about) <==> Active(b, about) || about == SubjectOf(m))
      && |IncidentsOf(b1, about)| == |IncidentsOf(b, about)| + (if about == SubjectOf(m) then 1 else 0)
  {
    AddedIsActive(b, Open(b, Opening(m)), Opening(m), about);
    AddedIsCounted(b, Open(b, Opening(m)), Opening(m), about);
  }

  lemma AddedIsActive(b: Board, b1: Board, i: Incident, about: Subject)
    requires i.id !in b.incidents && b1.incidents == b.incidents[i.id := i]
    ensures Active(b1, about) <==> Active(b, about) || Holds(i, about)
  {
    hide Holds;
    if Active(b, about) {
      var id :| id in b.incidents && Holds(b.incidents[id], about);
      assert b1.incidents[id] == b.incidents[id];
    }
    assert b1.incidents[i.id] == i;
  }

  lemma AddedIsThere(b: Board, b1: Board, i: Incident, about: Subject)
    requires i.id !in b.incidents && b1.incidents == b.incidents[i.id := i]
    ensures i.id !in IncidentsOf(b, about)
    ensures IncidentsOf(b1, about)
      == if about == i.About() then IncidentsOf(b, about) + {i.id} else IncidentsOf(b, about)
  {
    assert forall id | id in b.incidents :: b1.incidents[id] == b.incidents[id];
  }

  lemma AddedIsCounted(b: Board, b1: Board, i: Incident, about: Subject)
    requires i.id !in b.incidents && b1.incidents == b.incidents[i.id := i]
    ensures |IncidentsOf(b1, about)| == |IncidentsOf(b, about)| + (if about == i.About() then 1 else 0)
  {
    AddedIsThere(b, b1, i, about);
    hide IncidentsOf;
    if about == i.About() { assert IncidentsOf(b1, about) == IncidentsOf(b, about) + {i.id}; }
  }

  lemma ResolveAtSubject(b: Board, id: Bytes, value: real, message: Bytes, at: Time, about: Subject)
    requires OneEach(b) && id in b.incidents && b.incidents[id].status != StatusResolved
    ensures var b1 := ResolveOne(b, id, value, message, at);
      && (Active(b1, about) <==> Active(b, about) && about != b.incidents[id].About())
      && |IncidentsOf(b1, about)| == |IncidentsOf(b, about)|
  {
    var b1 := ResolveOne(b, id, value, message, at);
    assert IncidentsOf(b1, about) == IncidentsOf(b, about);
    forall i | i in b.incidents && Holds(b.incidents[i], about) && i != id ensures Active(b1, about) {
      assert b1.incidents[i] == b.incidents[i];
    }
    forall i | i in b1.incidents && Holds(b1.incidents[i], about) ensures Active(b, about) && i != id {
      assert b1.incidents[i] == b.incidents[i];
    }
  }

  lemma AcknowledgeAtSubject(b: Board, id: Bytes, actor: Bytes, at: Time, about: Subject)
    requires id in b.incidents && b.incidents[id].status == StatusOpen
    ensures var b1 := AcknowledgeOne(b, id, actor, at);
      && (Active(b1, about) <==> Active(b, about))
      && |IncidentsOf(b1, about)| == |IncidentsOf(b, about)|
  {
    var b1 := AcknowledgeOne(b, id, actor, at);
    assert IncidentsOf(b1, about) == IncidentsOf(b, about);
    forall i | i in b.incidents ensures Holds(b.incidents[i], about) <==> Holds(b1.incidents[i], about) {}
  }

  /** Incident history is an edge detector: over any run, with other subjects, acknowledgements and changes of
      rules and maintenance interleaved, an incident is active exactly when the signal is up, and as many
      have been opened as the signal has risen. */
  lemma {:induction false} IncidentsAreEdges(b: Board, moves: seq<Move>, about: Subject)
    requires BoardInv(b) && FreshRun(b, moves)
    ensures var up := Active(b, about); var b1 := Run(b, moves);
      && (Active(b1, about) <==> Signal(b.windows, up, moves, about))
      && |IncidentsOf(b1, about)| == |IncidentsOf(b, about)| + RisingEdges(b.windows, up, moves, about)
  {
    hide BoardInv, Apply, Suppressed, Active, IncidentsOf;
    if moves != [] {
      var front, m := moves[..|moves| - 1], moves[|moves| - 1];
      IncidentsAreEdges(b, front, about);
      RunKeeps(b, front);
      WindowsOfRun(b, front);
      StepAtSubject(Run(b, front), m, about);
    }
  }
}
