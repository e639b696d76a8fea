/** What a round of evaluations does to the incidents of each rule, by the numbers compared, the maintenance windows and
    what was unresolved before. */
module AlertOutcome {
  import opened Wrappers
  import opened Text
  import opened Tenancy
  import opened Clock
  import opened Alerting
  import opened AlertService

  predicate Concerns(i: Incident, about: Subject) {
    i.scope == about.scope && i.ruleId == about.ruleId && i.agentId == about.agentId
  }

  ghost predicate Unresolved(b: Board, about: Subject) {
    exists id | id in b.incidents :: Concerns(b.incidents[id], about) && b.incidents[id].status != StatusResolved
  }

  /** A maintenance window of the scope, for this agent or for all, is open. */
  ghost predicate Quiet(b: Board, about: Subject, now: Time) {
    exists id | id in b.windows ::
      && b.windows[id].scope == about.scope && (b.windows[id].agentId == [] || b.windows[id].agentId == about.agentId)
      && b.windows[id].startsAt <= now && now < b.windows[id].endsAt
  }

  /** The subject's incidents and their events are as they were, but for this one. */
  ghost predicate SameBut(b: Board, after: Board, about: Subject, but: set<Bytes>) {
    && (forall id | id in b.incidents && Concerns(b.incidents[id], about) && id !in but ::
          id in after.incidents && after.incidents[id] == b.incidents[id] && EventsOf(after, id) == EventsOf(b, id))
    && (forall id | id in after.incidents && Concerns(after.incidents[id], about) && id !in but ::
          id in b.incidents && after.incidents[id] == b.incidents[id])
  }

  ghost predicate Same(b: Board, after: Board, about: Subject) { SameBut(b, after, about, {}) }

  /** A new incident, with the event that opens it, and nothing else about the subject. */
  ghost predicate Opened(b: Board, after: Board, about: Subject, rule: Rule, value: real, now: Time, id: Bytes,
      message: Bytes) {
    && id in after.incidents
    && after.incidents[id] == Incident(id, about.scope, about.ruleId, rule.name, about.agentId, rule.severity,
         StatusOpen, message, value, now, None, [], None)
    && EventsOf(after, id) == [Event(about.scope, id, EventOpened, Ascii("hub"), message, now)]
    && SameBut(b, after, about, {id})
  }

  /** The unresolved incident is resolved, with an event that says so, and nothing else about the subject changes. */
  ghost predicate Resolved(b: Board, after: Board, about: Subject, value: real, now: Time) {
    exists id | id in b.incidents ::
      && Concerns(b.incidents[id], about) && b.incidents[id].status != StatusResolved
      && id in after.incidents
      && after.incidents[id] == b.incidents[id].(status := StatusResolved, resolvedAt := Some(now),
           latestValue := value, message := Recovered())
      && EventsOf(after, id) == EventsOf(b, id)
           + [Event(about.scope, id, EventResolved, Ascii("hub"), Recovered(), now)]
      && SameBut(b, after, about, {id})
  }

  /** What an evaluation does to the subject of its rule. */
  ghost predicate Decided(b: Board, after: Board, about: Subject, rule: Rule, breached: bool, value: real, now: Time,
      id: Bytes, message: Bytes) {
    && (Unresolved(after, about) <==> breached && (Unresolved(b, about) || !Quiet(b, about, now)))
    && if breached && !Unresolved(b, about) && !Quiet(b, about, now) then
         Opened(b, after, about, rule, value, now, id, message)
       else if !breached && Unresolved(b, about) then Resolved(b, after, about, value, now)
       else Same(b, after, about)
  }

  // ---------------------------------------------------------------- one evaluation

  lemma UnresolvedIsActive(b: Board, about: Subject)
    ensures Unresolved(b, about) <==> Active(b, about)
  {
    if Unresolved(b, about) {
      var id :| id in b.incidents && Concerns(b.incidents[id], about) && b.incidents[id].status != StatusResolved;
      assert Holds(b.incidents[id], about);
    }
    if Active(b, about) {
      var id :| id in b.incidents && Holds(b.incidents[id], about);
      assert Concerns(b.incidents[id], about);
    }
  }

  lemma QuietIsSuppressed(b: Board, m: Move)
    requires m.Evaluate?
    ensures Quiet(b, SubjectOf(m), m.now) <==> Suppressed(b.windows, m)
  {
    if Quiet(b, SubjectOf(m), m.now) {
      var id :| id in b.windows && b.windows[id].scope == m.rule.scope
        && (b.windows[id].agentId == [] || b.windows[id].agentId == m.agentId)
        && b.windows[id].startsAt <= m.now && m.now < b.windows[id].endsAt;
      assert Suppresses(b.windows[id], m.rule.scope, m.agentId, m.now);
    }
    if Suppressed(b.windows, m) {
      var id :| id in b.windows && Suppresses(b.windows[id], m.rule.scope, m.agentId, m.now);
      assert b.windows[id].scope == m.rule.scope;
    }
  }

  lemma OpenIsOpened(b: Board, m: Move)
    requires BoardInv(b) && m.Evaluate? && m.id !in b.incidents
    ensures Opened(b, Open(b, Opening(m)), SubjectOf(m), m.rule, m.value, m.now, m.id, m.message)
    ensures forall about | about != SubjectOf(m) :: Same(b, Open(b, Opening(m)), about)
  {
    hide BoardInv, Ascii;
  }

  lemma ResolveIsResolved(b: Board, id: Bytes, about: Subject, value: real, now: Time)
    requires id in b.incidents && Holds(b.incidents[id], about)
    ensures var after := ResolveOne(b, id, value, Recovered(), now);
      Resolved(b, after, about, value, now) && forall other | other != about :: Same(b, after, other)
  {
    hide Recovered, Ascii;
  }

  /** One evaluation, at its own subject and at every other. */
  lemma EvaluationDecides(b: Board, m: Move, about: Subject)
    requires BoardInv(b) && m.Evaluate? && m.id !in b.incidents
    ensures if about == SubjectOf(m) then
              Decided(b, Apply(b, m), about, m.rule, m.breached, m.value, m.now, m.id, m.message)
            else Same(b, Apply(b, m), about)
  {
    hide BoardInv, Recovered, Suppressed, Active, Quiet, Unresolved, Opened, Resolved;
    var after := Apply(b, m);
    UnresolvedIsActive(b, SubjectOf(m));
    UnresolvedIsActive(after, SubjectOf(m));
    QuietIsSuppressed(b, m);
    StepAtSubject(b, m, SubjectOf(m));
    if m.breached && !Suppressed(b.windows, m) && !Active(b, SubjectOf(m)) {
      OpenIsOpened(b, m);
    } else if !m.breached && Active(b, SubjectOf(m)) {
      var id :| id in b.incidents && Holds(b.incidents[id], SubjectOf(m))
        && after == ResolveOne(b, id, m.value, Recovered(), m.now);
      ResolveIsResolved(b, id, SubjectOf(m), m.value, m.now);
    }
  }

  /** Nothing before this evaluation has touched its subject, and nothing after it does. */
  lemma DecidedInside(b: Board, before: Board, after: Board, end: Board, about: Subject, rule: Rule, breached: bool,
      value: real, now: Time, id: Bytes, message: Bytes)
    requires Same(b, before, about) && before.windows == b.windows && Same(after, end, about)
    requires Decided(before, after, about, rule, breached, value, now, id, message)
    ensures Decided(b, end, about, rule, breached, value, now, id, message)
  {
    hide Recovered, Ascii, Opened, Resolved;
    SameUnresolved(b, before, about);
    SameUnresolved(after, end, about);
    if breached && !Unresolved(before, about) && !Quiet(before, about, now) {
      OpenedInside(b, before, after, end, about, rule, value, now, id, message);
    } else if !breached && Unresolved(before, about) {
      ResolvedInside(b, before, after, end, about, value, now);
    }
  }

  lemma SameUnresolved(b: Board, after: Board, about: Subject)
    requires Same(b, after, about)
    ensures Unresolved(b, about) <==> Unresolved(after, about)
  {}

  lemma OpenedInside(b: Board, before: Board, after: Board, end: Board, about: Subject, rule: Rule, value: real,
      now: Time, id: Bytes, message: Bytes)
    requires Same(b, before, about) && Same(after, end, about)
    requires Opened(before, after, about, rule, value, now, id, message)
    ensures Opened(b, end, about, rule, value, now, id, message)
  {
    hide Ascii;
    assert Concerns(after.incidents[id], about);
  }

  lemma ResolvedInside(b: Board, before: Board, after: Board, end: Board, about: Subject, value: real, now: Time)
    requires Same(b, before, about) && Same(after, end, about) && Resolved(before, after, about, value, now)
    ensures Resolved(b, end, about, value, now)
  {
    hide Ascii, Recovered;
    var id :| id in before.incidents
      && Concerns(before.incidents[id], about) && before.incidents[id].status != StatusResolved
      && id in after.incidents
      && after.incidents[id] == before.incidents[id].(status := StatusResolved, resolvedAt := Some(now),
           latestValue := value, message := Recovered())
      && EventsOf(after, id) == EventsOf(before, id)
           + [Event(about.scope, id, EventResolved, Ascii("hub"), Recovered(), now)]
      && SameBut(before, after, about, {id});
    assert id in b.incidents && b.incidents[id] == before.incidents[id] && EventsOf(b, id) == EventsOf(before, id);
    assert Concerns(after.incidents[id], about);
  }

  // ---------------------------------------------------------------- a round

  lemma {:induction false} RoundIsSame(b: Board, rules: seq<Rule>, scope: Scope, agentId: Bytes, probe: Probe,
      draws: seq<Draw>, about: Subject)
    requires BoardInv(b) && |rules| <= |draws| && NewDraws(b, draws) && DistinctRules(rules, scope)
    requires forall k | 0 <= k < |rules| && Measure(rules[k], probe, draws[k].read).Some? ::
      about != Subject(scope, rules[k].id, agentId)
    ensures Same(b, Run(b, Round(rules, agentId, probe, draws)), about)
  {
    hide BoardInv, Measure, Apply, SameBut;
    if rules == [] {
      NoRound(b, agentId, probe, draws);
      SameSelf(b, about);
    } else {
      var n := |rules| - 1;
      assert rules[..n + 1] == rules;
      RoundIsSame(b, rules[..n], scope, agentId, probe, draws, about);
      RoundContinues(rules, n, agentId, probe, draws);
      RoundStands(b, rules[..n], agentId, probe, draws);
      var before := Round(rules[..n], agentId, probe, draws);
      if Measure(rules[n], probe, draws[n].read).Some? {
        var m := MoveFor(rules[n], agentId, probe, draws[n]);
        RunOneMore(b, before, m);
        DrawIsNew(b, rules[..n], agentId, probe, draws);
        EvaluationDecides(Run(b, before), m, about);
        SameTwice(b, Run(b, before), Apply(Run(b, before), m), about);
      }
    }
  }

  lemma SameSelf(b: Board, about: Subject)
    ensures Same(b, b, about)
  {}

  lemma SameTwice(a: Board, b: Board, c: Board, about: Subject)
    requires Same(a, b, about) && Same(b, c, about)
    ensures Same(a, c, about)
  {}

  lemma RoundStands(b: Board, rules: seq<Rule>, agentId: Bytes, probe: Probe, draws: seq<Draw>)
    requires BoardInv(b) && |rules| <= |draws| && NewDraws(b, draws)
    ensures BoardInv(Run(b, Round(rules, agentId, probe, draws)))
    ensures Run(b, Round(rules, agentId, probe, draws)).windows == b.windows
  {
    hide BoardInv, Measure, Apply;
    RoundIsFresh(b, rules, agentId, probe, draws);
    RunKeeps(b, Round(rules, agentId, probe, draws));
    RoundKeepsWindows(b, rules, agentId, probe, draws);
  }

  /** What a measured rule decides, in the round. */
  ghost predicate Moved(b: Board, after: Board, m: Move)
    requires m.Evaluate?
  {
    Decided(b, after, SubjectOf(m), m.rule, m.breached, m.value, m.now, m.id, m.message)
  }

  /** The last rule of a round moves its own subject. */
  lemma LastMoves(b: Board, rules: seq<Rule>, scope: Scope, agentId: Bytes, probe: Probe, draws: seq<Draw>)
    requires BoardInv(b) && 0 < |rules| <= |draws| && NewDraws(b, draws) && DistinctRules(rules, scope)
    requires Measure(rules[|rules| - 1], probe, draws[|rules| - 1].read).Some?
    ensures var n := |rules| - 1;
      Moved(b, Run(b, Round(rules, agentId, probe, draws)), MoveFor(rules[n], agentId, probe, draws[n]))
  {
    hide BoardInv, Measure, Apply, SameBut, Decided, NewDraws;
    var n := |rules| - 1;
    var m := MoveFor(rules[n], agentId, probe, draws[n]);
    var before := Run(b, Round(rules[..n], agentId, probe, draws));
    assert rules[..n + 1] == rules;
    RoundContinues(rules, n, agentId, probe, draws);
    RoundStands(b, rules[..n], agentId, probe, draws);
    RunOneMore(b, Round(rules[..n], agentId, probe, draws), m);
    DrawIsNew(b, rules[..n], agentId, probe, draws);
    EvaluationDecides(before, m, SubjectOf(m));
    RoundIsSame(b, rules[..n], scope, agentId, probe, draws, SubjectOf(m));
    SameSelf(Apply(before, m), SubjectOf(m));
    DecidedInside(b, before, Apply(before, m), Apply(before, m), SubjectOf(m), m.rule, m.breached, m.value, m.now, m.id,
      m.message);
  }

  /** The last rule of a round leaves every other subject as it was. */
  lemma LastLeaves(b: Board, rules: seq<Rule>, scope: Scope, agentId: Bytes, probe: Probe, draws: seq<Draw>,
      about: Subject)
    requires BoardInv(b) && 0 < |rules| <= |draws| && NewDraws(b, draws)
    requires about != Subject(rules[|rules| - 1].scope, rules[|rules| - 1].id, agentId)
    ensures var n := |rules| - 1;
      Same(Run(b, Round(rules[..n], agentId, probe, draws)), Run(b, Round(rules, agentId, probe, draws)), about)
  {
    hide BoardInv, Measure, Apply, SameBut, Decided, NewDraws;
    var n := |rules| - 1;
    var before := Run(b, Round(rules[..n], agentId, probe, draws));
    assert rules[..n + 1] == rules;
    RoundContinues(rules, n, agentId, probe, draws);
    if Measure(rules[n], probe, draws[n].read).Some? {
      var m := MoveFor(rules[n], agentId, probe, draws[n]);
      RoundStands(b, rules[..n], agentId, probe, draws);
      RunOneMore(b, Round(rules[..n], agentId, probe, draws), m);
      DrawIsNew(b, rules[..n], agentId, probe, draws);
      EvaluationDecides(before, m, about);
    } else {
      SameSelf(before, about);
    }
  }

  lemma {:induction false} RoundMoves(b: Board, rules: seq<Rule>, scope: Scope, agentId: Bytes, probe: Probe,
      draws: seq<Draw>, k: nat)
    requires BoardInv(b) && k < |rules| <= |draws| && NewDraws(b, draws) && DistinctRules(rules, scope)
    requires Measure(rules[k], probe, draws[k].read).Some?
    ensures Moved(b, Run(b, Round(rules, agentId, probe, draws)), MoveFor(rules[k], agentId, probe, draws[k]))
  {
    hide BoardInv, Measure, Run, Round, SameBut, Decided, NewDraws;
    var n, m := |rules| - 1, MoveFor(rules[k], agentId, probe, draws[k]);
    if k == n {
      LastMoves(b, rules, scope, agentId, probe, draws);
    } else {
      RoundMoves(b, rules[..n], scope, agentId, probe, draws, k);
      LastLeaves(b, rules, scope, agentId, probe, draws, SubjectOf(m));
      SameSelf(b, SubjectOf(m));
      DecidedInside(b, b, Run(b, Round(rules[..n], agentId, probe, draws)), Run(b, Round(rules, agentId, probe, draws)),
        SubjectOf(m), m.rule, m.breached, m.value, m.now, m.id, m.message);
    }
  }

  // ---------------------------------------------------------------- the main result

  /** What a round, complete or broken off before rule `done`, does to each rule's incidents. A metric rule compares its
      own field of the sample with its threshold, a reachability rule the time since the agent was last seen with its
      limit in seconds; rules that are disabled, of the other kind, or not reached leave theirs alone. */
  lemma RuleDecides(b: Board, rules: seq<Rule>, scope: Scope, agentId: Bytes, probe: Probe, draws: seq<Draw>, done: nat,
      after: Board, r: Result<()>, k: nat)
    requires BoardInv(b) && k < |rules| <= |draws| && NewDraws(b, draws) && DistinctRules(rules, scope)
    requires Evaluated(b, rules, agentId, probe, draws, done, after, r)
    ensures
      var rule, draw, about := rules[k], draws[k], Subject(scope, rules[k].id, agentId);
      var now := draw.now - draw.now % 1000;
      match (rule.kind, probe)
      case (MetricKind(metric, threshold), Sample(cpu, memory, disk)) =>
        var value := if metric == Cpu then cpu else if metric == Memory then memory else disk;
        if rule.enabled && k < done then
          Decided(b, after, about, rule, value > threshold, value, now, draw.id, draw.message)
        else Same(b, after, about)
      case (ReachabilityKind(staleAfter), LastSeen(at)) =>
        var elapsed := if at < draw.read then draw.read - at else 0;
        if rule.enabled && k < done then
          Decided(b, after, about, rule, elapsed > staleAfter * 1_000_000_000, elapsed as real / 1_000_000_000.0, now,
                  draw.id, draw.message)
        else Same(b, after, about)
      case _ => Same(b, after, about)
  {
    hide BoardInv, Same, Decided, Stale;
    var about := Subject(scope, rules[k].id, agentId);
    assert DistinctRules(rules[..done], scope);
    var measured := Measure(rules[k], probe, draws[k].read);
    if k < done && measured.Some? {
      RoundMoves(b, rules[..done], scope, agentId, probe, draws, k);
      if probe.LastSeen? { Elapsed(draws[k].read, probe.at, rules[k].kind.staleAfter); }
    } else {
      RoundIsSame(b, rules[..done], scope, agentId, probe, draws, about);
    }
  }

  lemma Elapsed(now: Time, seen: Time, limit: int)
    ensures var elapsed := if seen < now then now - seen else 0;
      Stale(now, seen) == elapsed as real / 1_000_000_000.0
        && (Stale(now, seen) > limit as real <==> elapsed > limit * 1_000_000_000)
  {
    var elapsed := if seen < now then now - seen else 0;
    assert (elapsed as real / 1_000_000_000.0) * 1_000_000_000.0 == elapsed as real;
    assert (limit * 1_000_000_000) as real == limit as real * 1_000_000_000.0;
  }

  /** Where a round breaks off: at an agent without ID, or at a breach whose windows cannot be listed, or which no open
      window silences and for which no ID can be drawn, even if an incident is unresolved. */
  lemma FailsExactly(b: Board, rule: Rule, agentId: Bytes, probe: Probe, draw: Draw)
    ensures
      var about, now := Subject(rule.scope, rule.id, agentId), draw.now - draw.now % 1000;
      FailureAt(b.windows, rule, agentId, probe, draw) ==
        match Measure(rule, probe, draw.read)
        case None => None
        case Some(measured) =>
          if agentId == [] then Some(ErrInvalidAlert)
          else if measured.0 && draw.trouble.NoWindows? then Some(draw.trouble.error)
          else if measured.0 && draw.trouble.NoId? && !Quiet(b, about, now) then Some(draw.trouble.error)
          else None
  {
    hide Quiet, Suppressed, Measure;
    if Measure(rule, probe, draw.read).Some? { QuietIsSuppressed(b, MoveFor(rule, agentId, probe, draw)); }
  }

  /** And nothing else changes. */
  lemma OthersStay(b: Board, rules: seq<Rule>, scope: Scope, agentId: Bytes, probe: Probe, draws: seq<Draw>, done: nat,
      after: Board, r: Result<()>, about: Subject)
    requires BoardInv(b) && |rules| <= |draws| && NewDraws(b, draws) && DistinctRules(rules, scope)
    requires Evaluated(b, rules, agentId, probe, draws, done, after, r)
    requires forall k | 0 <= k < |rules| :: about != Subject(scope, rules[k].id, agentId)
    ensures Same(b, after, about) && after.windows == b.windows
  {
    hide BoardInv, Measure, SameBut;
    assert DistinctRules(rules[..done], scope);
    RoundIsSame(b, rules[..done], scope, agentId, probe, draws, about);
    RoundStands(b, rules[..done], agentId, probe, draws);
  }

  /** Acknowledging: an open incident of the scope gets the operator and the time, and an event with both. */
  lemma AcknowledgedExactly(b: Board, scope: Scope, id: Bytes, actor: Bytes, now: Time)
    ensures var found := id in b.incidents && b.incidents[id].scope == scope;
      && AcknowledgeResult(b, scope, id)
         == (if !found then Err(ErrNotFound)
             else if b.incidents[id].status != StatusOpen then Err(ErrConflict)
             else Ok(()))
      && Apply(b, Acknowledge(scope, id, actor, now)) ==
         if found && b.incidents[id].status == StatusOpen then
           b.(incidents := b.incidents[id := b.incidents[id].(
                status := StatusAcknowledged, acknowledgedAt := Some(now), acknowledgedBy := actor)],
              events := b.events[id := EventsOf(b, id)
                + [Event(scope, id, EventAcknowledged, actor, ByOperator(), now)]])
         else b
  {
    hide ByOperator;
  }
}
