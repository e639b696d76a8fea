/** `handleTelemetryReport` (internal/server/telemetry.go) for several reports at a time: each stores its sample, then
    reads the clock, then asks whether it is the newest, then evaluates alerts if it was, and other reports may come in
    between any two of these. Evaluation is one step; what is said of its order holds of every single rule, by taking
    the moment that rule is evaluated for it. */
module TelemetryRuns {
  import opened Wrappers
  import opened Text
  import opened Tenancy
  import opened Clock
  import opened Runs
  import opened Telemetry
  import opened TelemetryReport
  import Alerting
  import AlertService

  /** Report `n` is the one whose sample was stored as number `n`: it waits for the clock, has read it and is to ask, is
      due for evaluation, or has been evaluated. `clock` is the last reading of the hub's clock. */
  datatype Server = Server(
    samples: Samples, stored: seq<Sample>, waiting: set<nat>, read: map<nat, Time>, due: set<nat>,
    evaluated: seq<nat>, overtaken: set<(nat, nat)>, clock: Time)

  function Fresh(clock: Time): Server { Server(map[], [], {}, map[], {}, [], {}, clock) }

  datatype Move = Store(sample: Sample) | ReadClock(n: nat, clock: Time) | Query(n: nat) | Evaluate(n: nat)

  /** Sample `i` is of the same agent as sample `j`, with an earlier time. */
  predicate Earlier(stored: seq<Sample>, i: nat, j: nat) {
    i < |stored| && j < |stored| && stored[i].agent == stored[j].agent && stored[i].recordedAt < stored[j].recordedAt
  }

  /** A query up to the bound for this reading finds the sample the newest. */
  predicate IsNewest(s: Server, n: nat, clock: Time)
    requires n < |s.stored|
  {
    Newest(ListOf(s.samples, s.stored[n].agent), s.stored[n].recordedAt, clock) == Some(true)
  }

  /** Report `o` will not learn of sample `w`: it has asked already, or will ask only up to a bound before it. */
  predicate Blind(s: Server, o: nat, w: nat) {
    && Earlier(s.stored, o, w)
    && (o in s.due || (o in s.read && Upper(s.stored[o].recordedAt, s.read[o]) < s.stored[w].recordedAt))
  }

  /** The reports that are blind to `w`, paired with it. */
  function Overtakes(s: Server, w: nat): set<(nat, nat)> {
    set o | o in s.due + s.read.Keys && Blind(s, o, w) :: (o, w)
  }

  predicate Step(s: Server, m: Move, t: Server) {
    match m
    case Store(v) =>
      && ValidSample(v)
      && t == s.(samples := Stored(s.samples, v), stored := s.stored + [v], waiting := s.waiting + {|s.stored|})
    case ReadClock(n, clock) =>
      && n in s.waiting && n < |s.stored|
      && t == s.(waiting := s.waiting - {n}, read := s.read[n := clock], clock := clock)
    case Query(n) =>
      && n in s.read && n < |s.stored|
      && t == s.(read := s.read - {n}, due := if IsNewest(s, n, s.read[n]) then s.due + {n} else s.due)
    case Evaluate(n) =>
      && n in s.due
      && t == s.(due := s.due - {n}, evaluated := s.evaluated + [n], overtaken := s.overtaken + Overtakes(s, n))
  }

  /** The hub's clock does not go back, and samples are stamped at most a second ahead of their report's reading. */
  predicate Timely(s: Server, m: Move) {
    m.ReadClock? && m.n < |s.stored| ==> s.clock <= m.clock && s.stored[m.n].recordedAt <= m.clock + SECOND
  }

  ghost function Steps(timely: bool): (Server, Move, Server) -> bool {
    (s: Server, m: Move, t: Server) => Step(s, m, t) && (timely ==> Timely(s, m))
  }

  // ---------------------------------------------------------------- the lists

  function SamplesAfter(stored: seq<Sample>): Samples {
    if stored == [] then map[] else Stored(SamplesAfter(stored[..|stored| - 1]), stored[|stored| - 1])
  }

  function BookAfter(stored: seq<Sample>, agent: Agent): map<Time, Sample> {
    if stored == [] then map[]
    else
      var book, v := BookAfter(stored[..|stored| - 1], agent), stored[|stored| - 1];
      if v.agent == agent then book[v.recordedAt := v] else book
  }

  /** Over any run every agent's list stands for the map from time to the sample last stored for it. */
  lemma {:induction false} ListsStandForBooks(stored: seq<Sample>, agent: Agent)
    ensures Represents(ListOf(SamplesAfter(stored), agent), BookAfter(stored, agent))
  {
    hide Represents, Appended;
    if stored == [] {
      assert Represents([], map[]) by { NothingStored(); }
    } else {
      var before, v := stored[..|stored| - 1], stored[|stored| - 1];
      ListsStandForBooks(before, agent);
      if v.agent == agent { AppendWritesTheMap(ListOf(SamplesAfter(before), agent), v, BookAfter(before, agent)); }
    }
  }

  lemma NothingStored()
    ensures Represents([], map[])
  {}

  /** The map holds exactly the times that were stored. */
  lemma {:induction false} BookHoldsStored(stored: seq<Sample>, agent: Agent, at: Time)
    ensures at in BookAfter(stored, agent)
      <==> exists i | 0 <= i < |stored| :: stored[i].agent == agent && stored[i].recordedAt == at
  {
    if stored != [] {
      var before, v := stored[..|stored| - 1], stored[|stored| - 1];
      BookHoldsStored(before, agent, at);
      assert forall i | 0 <= i < |before| :: before[i] == stored[i];
      if v.agent == agent && v.recordedAt == at { assert stored[|before|] == v; }
      if i :| 0 <= i < |stored| && stored[i].agent == agent && stored[i].recordedAt == at {
        assert i < |before| ==> before[i] == stored[i];
      }
    }
  }

  /** A report is found the newest exactly if no stored one of its agent, earlier or later in arrival, has a later time,
      other than one beyond the bound. */
  lemma NewestExactlyWhen(s: Server, n: nat, clock: Time)
    requires s.samples == SamplesAfter(s.stored) && n < |s.stored| && s.stored[n].recordedAt != ZERO
    ensures var v := s.stored[n];
      IsNewest(s, n, clock) <==>
        Upper(v.recordedAt, clock) != ZERO && forall i: nat | Earlier(s.stored, n, i) ::
          Upper(v.recordedAt, clock) < s.stored[i].recordedAt
  {
    hide Newest, Represents;
    var v := s.stored[n];
    var book, to := BookAfter(s.stored, v.agent), Upper(v.recordedAt, clock);
    ListsStandForBooks(s.stored, v.agent);
    forall at ensures at in book
      <==> exists i | 0 <= i < |s.stored| :: s.stored[i].agent == v.agent && s.stored[i].recordedAt == at
    {
      BookHoldsStored(s.stored, v.agent, at);
    }
    assert v.recordedAt in book;
    if to != ZERO {
      NewestIsExact(ListOf(s.samples, v.agent), book, v.recordedAt, clock);
      forall i: nat | Earlier(s.stored, n, i) ensures s.stored[i].recordedAt in book {}
      if t :| t in book && v.recordedAt < t <= to {
        var i :| 0 <= i < |s.stored| && s.stored[i].agent == v.agent && s.stored[i].recordedAt == t;
        assert Earlier(s.stored, n, i);
      }
    } else {
      RefusedQuery(ListOf(s.samples, v.agent), v.recordedAt, clock);
    }
  }

  lemma RefusedQuery(values: seq<Sample>, at: Time, clock: Time)
    requires Upper(at, clock) == ZERO
    ensures Newest(values, at, clock) == None
  {}

  // ---------------------------------------------------------------- the order of evaluation

  /** Report `o` is evaluated after report `w`. */
  ghost predicate After(evaluated: seq<nat>, o: nat, w: nat) {
    exists i, j :: 0 <= i < j < |evaluated| && evaluated[i] == w && evaluated[j] == o
  }

  ghost predicate Known(s: Server) {
    && s.samples == SamplesAfter(s.stored)
    && (forall i | 0 <= i < |s.stored| :: ValidSample(s.stored[i]))
    && (forall n | n in s.waiting || n in s.read || n in s.due || n in s.evaluated :: n < |s.stored|)
    && (forall n | n in s.waiting || n in s.read || n in s.due :: n !in s.evaluated)
    && s.waiting !! s.due && s.read.Keys !! s.waiting + s.due
    && (forall i, j | 0 <= i < j < |s.evaluated| :: s.evaluated[i] != s.evaluated[j])
    && (forall n | n in s.due || n in s.evaluated :: s.stored[n].recordedAt <= s.clock + SECOND)
    && (forall n | n in s.read :: s.read[n] <= s.clock && s.stored[n].recordedAt <= s.read[n] + SECOND)
  }

  /** Whoever is blind to one evaluated has been recorded as overtaken by it, and only those. */
  ghost predicate Recorded(s: Server) {
    && (forall o: nat, w: nat | w in s.evaluated && Blind(s, o, w) :: (o, w) in s.overtaken)
    && (forall o: nat, w: nat | After(s.evaluated, o, w) && Earlier(s.stored, o, w) :: (o, w) in s.overtaken)
    && (forall o: nat, w: nat | (o, w) in s.overtaken ::
          Earlier(s.stored, o, w) && w in s.evaluated && (o in s.evaluated ==> After(s.evaluated, o, w)))
  }

  lemma AfterAppend(evaluated: seq<nat>, n: nat, o: nat, w: nat)
    ensures After(evaluated + [n], o, w) <==> After(evaluated, o, w) || (o == n && w in evaluated)
  {
    var longer := evaluated + [n];
    if After(evaluated, o, w) {
      var i, j :| 0 <= i < j < |evaluated| && evaluated[i] == w && evaluated[j] == o;
      assert longer[i] == w && longer[j] == o;
    }
    if o == n && w in evaluated {
      var i :| 0 <= i < |evaluated| && evaluated[i] == w;
      assert longer[i] == w && longer[|evaluated|] == o;
    }
  }

  lemma StepKeepsKnown(s: Server, m: Move, t: Server)
    requires Known(s) && Step(s, m, t) && Timely(s, m)
    ensures Known(t)
  {
    hide Stored, IsNewest, Earlier, ValidSample;
    if m.Store? { assert t.stored[..|s.stored|] == s.stored; }
  }

  /** Who is not blind yet cannot become so towards one that has been evaluated. */
  lemma ReadClockKeepsRecorded(s: Server, n: nat, clock: Time, t: Server)
    requires Known(s) && Recorded(s) && Step(s, ReadClock(n, clock), t) && Timely(s, ReadClock(n, clock))
    ensures Recorded(t)
  {
    hide After, SamplesAfter;
    forall o: nat, w: nat | w in t.evaluated && Blind(t, o, w) ensures (o, w) in t.overtaken {
      if o != n { assert Blind(s, o, w); }
    }
  }

  /** A report that asks after a later-stamped one has been evaluated is not due, unless it was blind to it. */
  lemma QueryKeepsRecorded(s: Server, n: nat, t: Server)
    requires Known(s) && Recorded(s) && Step(s, Query(n), t)
    ensures Recorded(t)
  {
    hide IsNewest, After, SamplesAfter, Upper, ValidPercent;
    NewestExactlyWhen(s, n, s.read[n]);
    forall o: nat, w: nat | w in t.evaluated && Blind(t, o, w) ensures (o, w) in t.overtaken {
      assert o == n ==> Earlier(s.stored, n, w);
      assert Blind(s, o, w);
    }
  }

  lemma EvaluateKeepsRecorded(s: Server, n: nat, t: Server)
    requires Known(s) && Recorded(s) && Step(s, Evaluate(n), t)
    ensures Recorded(t)
  {
    hide After, SamplesAfter, ValidSample, Upper;
    forall o: nat, w: nat ensures After(t.evaluated, o, w) <==> After(s.evaluated, o, w) || (o == n && w in s.evaluated)
    {
      AfterAppend(s.evaluated, n, o, w);
    }
    forall o: nat, w: nat | w in t.evaluated && Blind(t, o, w) ensures (o, w) in t.overtaken {
      assert Blind(s, o, w);
      if w == n { assert (o, w) in Overtakes(s, n); }
    }
    forall o: nat, w: nat | After(t.evaluated, o, w) && Earlier(t.stored, o, w) ensures (o, w) in t.overtaken {
      if !After(s.evaluated, o, w) { assert Blind(s, o, w); }
    }
  }

  lemma StoreKeepsRecorded(s: Server, v: Sample, t: Server)
    requires Known(s) && Recorded(s) && Step(s, Store(v), t)
    ensures Recorded(t)
  {
    hide After, SamplesAfter, ValidSample, Upper, Stored;
    AfterBounds(s);
    forall o: nat, w: nat | o < |s.stored| && w < |s.stored|
      ensures Blind(t, o, w) == Blind(s, o, w) && Earlier(t.stored, o, w) == Earlier(s.stored, o, w)
    {}
  }

  lemma AfterBounds(s: Server)
    requires Known(s)
    ensures forall o: nat, w: nat | After(s.evaluated, o, w) :: o < |s.stored| && w < |s.stored|
  {
    forall o: nat, w: nat | After(s.evaluated, o, w) ensures o in s.evaluated && w in s.evaluated {}
  }

  lemma StepKeepsRecorded(s: Server, m: Move, t: Server)
    requires Known(s) && Recorded(s) && Step(s, m, t) && Timely(s, m)
    ensures Recorded(t)
  {
    hide Known, Recorded, Step, Timely;
    match m
    case Store(v) => StoreKeepsRecorded(s, v, t);
    case ReadClock(n, clock) => ReadClockKeepsRecorded(s, n, clock, t);
    case Query(n) => QueryKeepsRecorded(s, n, t);
    case Evaluate(n) => EvaluateKeepsRecorded(s, n, t);
  }

  lemma ReachableKept(clock: Time, s: Server)
    requires Reaches(Steps(true), Fresh(clock), s)
    ensures Known(s) && Recorded(s)
  {
    hide Step, Timely;
    var moves :| Path(Steps(true), Fresh(clock), moves, s);
    assert Known(Fresh(clock)) && Recorded(Fresh(clock));
    forall x, m, y | (Known(x) && Recorded(x)) && Steps(true)(x, m, y) ensures Known(y) && Recorded(y) {
      StepKeepsKnown(x, m, y);
      StepKeepsRecorded(x, m, y);
    }
    PathKeeps(Steps(true), (x: Server) => Known(x) && Recorded(x), Fresh(clock), moves, s);
  }

  /** Exactly when alerts see an older sample after a newer one: when, at the moment the later-stamped one of its agent
      was evaluated, its report had asked and not been evaluated, or had read the clock and was still to ask, up to a
      bound before that stamp. */
  lemma OutOfOrderExactlyWhen(clock: Time, s: Server, o: nat, w: nat)
    requires Reaches(Steps(true), Fresh(clock), s)
    ensures After(s.evaluated, o, w) && Earlier(s.stored, o, w) <==> (o, w) in s.overtaken && o in s.evaluated
  {
    hide Reaches, Step, Timely;
    ReachableKept(clock, s);
  }

  /** So the times passed to evaluation never decrease exactly if no report evaluated so far was overtaken. */
  lemma EvaluationGoesForwardExactlyWhen(clock: Time, s: Server)
    requires Reaches(Steps(true), Fresh(clock), s)
    ensures (forall o: nat, w: nat :: After(s.evaluated, o, w) ==> !Earlier(s.stored, o, w)) <==>
            (forall o: nat, w: nat :: (o, w) in s.overtaken ==> o !in s.evaluated)
  {
    hide Reaches, Earlier, After;
    forall o: nat, w: nat ensures After(s.evaluated, o, w) && Earlier(s.stored, o, w)
      <==> (o, w) in s.overtaken && o in s.evaluated
    {
      OutOfOrderExactlyWhen(clock, s, o, w);
    }
  }

  /** Reports handled one after the other. */
  ghost function SerialSteps(): (Server, Move, Server) -> bool {
    (s: Server, m: Move, t: Server) => Step(s, m, t) && Timely(s, m) && (m.Store? ==> Quiet(s))
  }

  /** No report is being handled. */
  predicate Quiet(s: Server) { s.waiting == {} && s.read == map[] && s.due == {} }

  function Current(s: Server): set<nat> { s.waiting + s.read.Keys + s.due }

  ghost predicate OneAtATime(s: Server) {
    (forall a, b | a in Current(s) && b in Current(s) :: a == b) && s.overtaken == {}
  }

  /** Then a late older sample reaches no alert after a newer one. */
  lemma SerialGoesForward(clock: Time, s: Server, o: nat, w: nat)
    requires Reaches(SerialSteps(), Fresh(clock), s)
    ensures After(s.evaluated, o, w) ==> !Earlier(s.stored, o, w)
  {
    hide Step, Timely, After, Earlier, Known, Recorded;
    var moves :| Path(SerialSteps(), Fresh(clock), moves, s);
    assert Known(Fresh(clock)) && Recorded(Fresh(clock)) && OneAtATime(Fresh(clock)) by { NothingYet(clock); }
    forall x, m, y | (Known(x) && Recorded(x) && OneAtATime(x)) && SerialSteps()(x, m, y)
      ensures Known(y) && Recorded(y) && OneAtATime(y)
    {
      StepKeepsKnown(x, m, y);
      StepKeepsRecorded(x, m, y);
      StepKeepsOne(x, m, y);
    }
    PathKeeps(SerialSteps(), (x: Server) => Known(x) && Recorded(x) && OneAtATime(x), Fresh(clock), moves, s);
    NeverOvertaken(s, o, w);
  }

  lemma NothingYet(clock: Time)
    ensures Known(Fresh(clock)) && Recorded(Fresh(clock)) && OneAtATime(Fresh(clock))
  {}

  lemma StepKeepsOne(s: Server, m: Move, t: Server)
    requires OneAtATime(s) && Step(s, m, t) && (m.Store? ==> Quiet(s))
    ensures OneAtATime(t)
  {
    hide IsNewest, Stored;
    if m.Evaluate? {
      forall o | o in s.due + s.read.Keys ensures o == m.n { assert o in Current(s) && m.n in Current(s); }
      assert Overtakes(s, m.n) == {};
    }
    if !m.Store? { assert Current(t) <= Current(s); } else { assert Current(t) == {|s.stored|}; }
  }

  lemma NeverOvertaken(s: Server, o: nat, w: nat)
    requires Recorded(s) && s.overtaken == {}
    ensures After(s.evaluated, o, w) ==> !Earlier(s.stored, o, w)
  {
    hide After, Earlier;
  }

  // ---------------------------------------------------------------- every cause is real

  lemma Onward(timely: bool, start: Server, s: Server, m: Move, t: Server)
    requires Reaches(Steps(timely), start, s) && Step(s, m, t) && (timely ==> Timely(s, m))
    ensures Reaches(Steps(timely), start, t)
  {
    hide Step, Timely, Reaches;
    assert Steps(timely)(s, m, t);
    ReachesStep(Steps(timely), start, s, m, t);
  }

  lemma StoreOne(timely: bool, start: Server, s: Server, v: Sample) returns (t: Server)
    requires Reaches(Steps(timely), start, s) && s.samples == SamplesAfter(s.stored) && ValidSample(v)
    ensures Reaches(Steps(timely), start, t) && t.samples == SamplesAfter(t.stored)
    ensures t == s.(samples := t.samples, stored := s.stored + [v], waiting := s.waiting + {|s.stored|})
  {
    hide Stored, ValidSample, Reaches;
    t := s.(samples := Stored(s.samples, v), stored := s.stored + [v], waiting := s.waiting + {|s.stored|});
    assert t.stored[..|s.stored|] == s.stored;
    Onward(timely, start, s, Store(v), t);
  }

  lemma ReadOne(timely: bool, start: Server, s: Server, n: nat, clock: Time) returns (t: Server)
    requires Reaches(Steps(timely), start, s) && n in s.waiting && n < |s.stored|
    requires timely ==> Timely(s, ReadClock(n, clock))
    ensures Reaches(Steps(timely), start, t)
    ensures t == s.(waiting := s.waiting - {n}, read := s.read[n := clock], clock := clock)
  {
    hide Reaches;
    t := s.(waiting := s.waiting - {n}, read := s.read[n := clock], clock := clock);
    Onward(timely, start, s, ReadClock(n, clock), t);
  }

  /** The handler asks and finds its sample the newest. */
  lemma AskOne(timely: bool, start: Server, s: Server, n: nat) returns (t: Server)
    requires Reaches(Steps(timely), start, s) && s.samples == SamplesAfter(s.stored)
    requires n in s.read && n < |s.stored| && s.stored[n].recordedAt > 0 && s.read[n] > 0
    requires forall i: nat | Earlier(s.stored, n, i) ::
      Upper(s.stored[n].recordedAt, s.read[n]) < s.stored[i].recordedAt
    ensures Reaches(Steps(timely), start, t) && t == s.(read := s.read - {n}, due := s.due + {n})
  {
    hide Reaches, SamplesAfter;
    NewestExactlyWhen(s, n, s.read[n]);
    t := s.(read := s.read - {n}, due := s.due + {n});
    Onward(timely, start, s, Query(n), t);
  }

  lemma EvaluateOne(timely: bool, start: Server, s: Server, n: nat) returns (t: Server)
    requires Reaches(Steps(timely), start, s) && n in s.due
    ensures Reaches(Steps(timely), start, t)
    ensures t == s.(due := s.due - {n}, evaluated := s.evaluated + [n], overtaken := s.overtaken + Overtakes(s, n))
  {
    hide Reaches;
    t := s.(due := s.due - {n}, evaluated := s.evaluated + [n], overtaken := s.overtaken + Overtakes(s, n));
    Onward(timely, start, s, Evaluate(n), t);
  }

  /** Two handlers at once, both samples on time: the older one has asked, the newer one is stored, decided and
      evaluated, and only then the older one is. */
  lemma OvertakingIsReachable(older: Sample, newer: Sample, clock: Time) returns (s: Server)
    requires ValidSample(older) && ValidSample(newer) && older.agent == newer.agent
    requires 0 < older.recordedAt < newer.recordedAt <= clock
    ensures Reaches(Steps(true), Fresh(clock), s) && s.stored == [older, newer] && s.evaluated == [1, 0]
    ensures After(s.evaluated, 0, 1) && Earlier(s.stored, 0, 1)
  {
    hide Reaches, ValidSample, SamplesAfter, Overtakes;
    var start := Fresh(clock);
    ReachesSelf(Steps(true), start);
    assert SamplesAfter([]) == map[] by { NoSamples(); }
    s := StoreOne(true, start, start, older);
    assert s.stored == [older];
    s := ReadOne(true, start, s, 0, clock);
    s := AskOne(true, start, s, 0);
    s := StoreOne(true, start, s, newer);
    assert s.stored == [older, newer];
    s := ReadOne(true, start, s, 1, clock);
    s := AskOne(true, start, s, 1);
    s := EvaluateOne(true, start, s, 1);
    s := EvaluateOne(true, start, s, 0);
    assert s.evaluated[0] == 1 && s.evaluated[1] == 0;
  }

  /** Two handlers at once: the older one reads the clock and stalls; a sample beyond its bound, and at most a second
      ahead of its own, later reading, is stored, decided and evaluated; then the older one asks and is evaluated. */
  lemma StaleReadingIsReachable(older: Sample, newer: Sample, clock: Time, later: Time) returns (s: Server)
    requires ValidSample(older) && ValidSample(newer) && older.agent == newer.agent
    requires 0 < older.recordedAt <= clock && clock + SECOND < newer.recordedAt <= later + SECOND
    ensures Reaches(Steps(true), Fresh(clock), s) && s.stored == [older, newer] && s.evaluated == [1, 0]
    ensures After(s.evaluated, 0, 1) && Earlier(s.stored, 0, 1)
  {
    hide Reaches, ValidSample, SamplesAfter, Overtakes;
    var start := Fresh(clock);
    ReachesSelf(Steps(true), start);
    assert SamplesAfter([]) == map[] by { NoSamples(); }
    s := StoreOne(true, start, start, older);
    assert s.stored == [older];
    s := ReadOne(true, start, s, 0, clock);
    s := StoreOne(true, start, s, newer);
    assert s.stored == [older, newer];
    s := ReadOne(true, start, s, 1, later);
    s := AskOne(true, start, s, 1);
    s := EvaluateOne(true, start, s, 1);
    s := AskOne(true, start, s, 0);
    s := EvaluateOne(true, start, s, 0);
    assert s.evaluated[0] == 1 && s.evaluated[1] == 0;
  }

  lemma NoSamples()
    ensures SamplesAfter([]) == map[]
  {}

  /** The allowance is tight: after a sample stamped one microsecond further ahead, an older one handled after it, at
      the same instant of the hub's clock, is evaluated too, and nothing was overtaken. */
  lemma FutureStampGoesBack(ahead: Sample, onTime: Sample, clock: Time) returns (s: Server)
    requires ValidSample(ahead) && ValidSample(onTime) && ahead.agent == onTime.agent
    requires 0 < onTime.recordedAt <= clock && ahead.recordedAt == clock + SECOND + MICROSECOND
    ensures Reaches(Steps(false), Fresh(clock), s) && s.stored == [ahead, onTime] && s.evaluated == [0, 1]
      && s.overtaken == {}
    ensures After(s.evaluated, 1, 0) && Earlier(s.stored, 1, 0)
  {
    hide Reaches, ValidSample, SamplesAfter;
    var start := Fresh(clock);
    ReachesSelf(Steps(false), start);
    assert SamplesAfter([]) == map[] by { NoSamples(); }
    s := StoreOne(false, start, start, ahead);
    assert s.stored == [ahead];
    s := ReadOne(false, start, s, 0, clock);
    s := AskOne(false, start, s, 0);
    s := EvaluateOne(false, start, s, 0);
    s := StoreOne(false, start, s, onTime);
    assert s.stored == [ahead, onTime];
    s := ReadOne(false, start, s, 1, clock);
    s := AskOne(false, start, s, 1);
    s := EvaluateOne(false, start, s, 1);
    assert s.evaluated[0] == 0 && s.evaluated[1] == 1;
  }

  // ---------------------------------------------------------------- the handler as written

  function Asked(n: nat, v: Sample, clock: Time): seq<Move> { [Store(v)] + [ReadClock(n, clock)] + [Query(n)] }

  /** The moves of one report when no other comes in between. */
  function Handled(s: Server, agent: Agent, sample: Sample, clock: Time): seq<Move> {
    if !Taken(agent, sample) then []
    else
      var v, n := Normal(agent, sample), |s.stored|;
      var newest := Newest(ListOf(Stored(s.samples, v), v.agent), v.recordedAt, clock) == Some(true);
      Asked(n, v, clock) + if newest then [Evaluate(n)] else []
  }

  lemma ReportEnds(step: (Server, Move, Server) -> bool, s: Server, v: Sample, t: Server, n: nat, clock: Time,
      u: Server, w: Server)
    requires step(s, Store(v), t) && step(t, ReadClock(n, clock), u) && step(u, Query(n), w)
    ensures Path(step, s, Asked(n, v, clock) + [], w)
    ensures forall x | step(w, Evaluate(n), x) :: Path(step, s, Asked(n, v, clock) + [Evaluate(n)], x)
  {
    hide Path;
    PathNone(step, s);
    assert [] + [Store(v)] == [Store(v)];
    PathMore(step, s, [], s, Store(v), t);
    PathMore(step, s, [Store(v)], t, ReadClock(n, clock), u);
    PathMore(step, s, [Store(v)] + [ReadClock(n, clock)], u, Query(n), w);
    assert Asked(n, v, clock) + [] == Asked(n, v, clock);
    forall x | step(w, Evaluate(n), x) ensures Path(step, s, Asked(n, v, clock) + [Evaluate(n)], x) {
      PathMore(step, s, Asked(n, v, clock), w, Evaluate(n), x);
    }
  }

  /** The states a report handled alone goes through. */
  lemma ReportSteps(step: (Server, Move, Server) -> bool, s: Server, v: Sample, n: nat, clock: Time, newest: bool,
      x: Server) returns (t: Server, u: Server, w: Server)
    requires Path(step, s, Asked(n, v, clock) + (if newest then [Evaluate(n)] else []), x)
    ensures step(s, Store(v), t) && step(t, ReadClock(n, clock), u) && step(u, Query(n), w)
    ensures if newest then step(w, Evaluate(n), x) else w == x
  {
    if newest {
      w := LastStep(step, s, Asked(n, v, clock), Evaluate(n), x);
    } else {
      assert Asked(n, v, clock) + [] == Asked(n, v, clock);
      w := x;
    }
    u := LastStep(step, s, [Store(v)] + [ReadClock(n, clock)], Query(n), w);
    t := LastStep(step, s, [Store(v)], ReadClock(n, clock), u);
    assert [] + [Store(v)] == [Store(v)];
    var first := LastStep(step, s, [], Store(v), t);
  }

  /** From a state in which no report is being handled it leads to another, by the steps of reports handled one after
      the other. */
  lemma HandledIsSerial(s: Server, agent: Agent, sample: Sample, clock: Time, x: Server)
    requires Path(Steps(true), s, Handled(s, agent, sample, clock), x) && Quiet(s)
    ensures Path(SerialSteps(), s, Handled(s, agent, sample, clock), x) && Quiet(x)
  {
    hide Taken, Normal, Stored, Newest, Overtakes, Timely, ValidSample, Path, Asked;
    if Taken(agent, sample) {
      var v, n := Normal(agent, sample), |s.stored|;
      var newest := Newest(ListOf(Stored(s.samples, v), v.agent), v.recordedAt, clock) == Some(true);
      var t, u, w := ReportSteps(Steps(true), s, v, n, clock, newest, x);
      ReportEnds(SerialSteps(), s, v, t, n, clock, u, w);
      assert newest <==> IsNewest(u, n, clock);
    } else {
      NoReport(s, agent, sample, clock, x);
    }
  }

  lemma NoReport(s: Server, agent: Agent, sample: Sample, clock: Time, x: Server)
    requires !Taken(agent, sample) && Path(Steps(true), s, Handled(s, agent, sample, clock), x)
    ensures s == x && Path(SerialSteps(), s, Handled(s, agent, sample, clock), x)
  {
    hide Taken;
  }

  /** Without HTTP. `world` is the run system's view of all reports this handler has served, several at a time. */
  class Handler {
    const telemetry: Service
    const alerts: AlertService.Service
    ghost var world: Server

    ghost predicate Valid()
      reads this, telemetry.store
    {
      && world.samples == telemetry.store.samples
      && forall n | n in world.waiting || n in world.read || n in world.due :: n < |world.stored|
    }

    constructor (telemetry: Service, alerts: AlertService.Service, clock: Time)
      requires telemetry.store.samples == map[]
      ensures this.telemetry == telemetry && this.alerts == alerts && Valid() && world == Fresh(clock)
    {
      this.telemetry, this.alerts, world := telemetry, alerts, Fresh(clock);
    }

    /** The step Store, if the sample is taken: it becomes number `n`. */
    method Receive(agent: Agent, sample: Sample) returns (r: Result<()>, ghost n: nat)
      requires Valid()
      modifies this, telemetry.store
      ensures Valid() && n == old(|world.stored|)
      ensures !agent.Valid() ==> r == Err(ErrInvalidScope)
      ensures agent.Valid() && !ValidSample(Normal(agent, sample)) ==> r == Err(ErrInvalidSample)
      ensures Taken(agent, sample) ==> r == Ok(()) && Step(old(world), Store(Normal(agent, sample)), world)
      ensures r.Err? ==> world == old(world)
    {
      hide ValidId, TrimSpace, ValidPercent, Appended, TruncateMicro;
      n := |world.stored|;
      TruncateTwice(sample.recordedAt);
      r := telemetry.Report(agent, sample.(recordedAt := TruncateMicro(sample.recordedAt)));
      if r.Ok? {
        var v := Normal(agent, sample);
        world := world.(samples := Stored(world.samples, v), stored := world.stored + [v],
          waiting := world.waiting + {n});
      }
    }

    /** The step ReadClock: up to where the report is to ask. */
    method Bound(at: Time, clock: Time, ghost n: nat) returns (upperBound: Time)
      requires Valid() && n in world.waiting
      modifies this
      ensures Valid() && Step(old(world), ReadClock(n, clock), world) && upperBound == Upper(at, clock)
      ensures upperBound == (if at < clock + SECOND then clock else at) + 1_000_000_000
    {
      world := world.(waiting := world.waiting - {n}, read := world.read[n := clock], clock := clock);
      upperBound := clock + SECOND;
      if !(at < upperBound) { upperBound := at + SECOND; }
    }

    /** The step Query for the report whose sample is number `n`. */
    method Compare(agent: Agent, at: Time, upperBound: Time, ghost n: nat) returns (newest: Result<bool>)
      requires Valid() && agent.Valid() && n in world.read && upperBound == Upper(at, world.read[n])
      requires world.stored[n].agent == Keyed(agent) && world.stored[n].recordedAt == at
      modifies this
      ensures Valid() && Step(old(world), Query(n), world)
      ensures newest == match Newest(ListOf(world.samples, Keyed(agent)), at, old(world).read[n])
        case Some(yes) => Ok(yes)
        case None => Err(ErrInvalidSample)
    {
      hide ValidId, TrimSpace, HistoryOf;
      AgentIsNamed(agent);
      ghost var before := world;
      world := before.(read := before.read - {n},
        due := if IsNewest(before, n, before.read[n]) then before.due + {n} else before.due);
      var latest := telemetry.History(agent, at, upperBound, 1);
      if latest.Err? { return Err(latest.error); }
      return Ok(|latest.value| > 0 && latest.value[|latest.value| - 1].recordedAt == at);
    }

    /** The step Evaluate: one round of the alert rules. */
    method Alert(agent: Agent, sample: Sample, draws: seq<AlertService.Draw>, ghost n: nat)
        returns (r: Result<()>, ghost rules: seq<Alerting.Rule>, ghost done: nat)
      requires Valid() && agent.Valid() && n in world.due
      requires Alerting.BoardInv(alerts.store.View())
      requires AlertService.NewDraws(alerts.store.View(), draws) && |draws| >= |alerts.store.rules|
      modifies this, alerts.store
      ensures Valid() && Step(old(world), Evaluate(n), world)
      ensures Alerting.BoardInv(alerts.store.View())
      ensures |rules| <= |draws| && AlertService.DistinctRules(rules, agent.scope)
      ensures forall id | id in old(alerts.store.rules) && old(alerts.store.rules)[id].scope == agent.scope ::
        old(alerts.store.rules)[id] in rules
      ensures AlertService.Evaluated(old(alerts.store.View()), rules, TrimSpace(agent.id),
        AlertService.Sample(sample.cpu, sample.memory, sample.disk), draws, done, alerts.store.View(), r)
    {
      hide ValidId, TrimSpace, Overtakes, Stored;
      hide Alerting.BoardInv, AlertService.Evaluated, AlertService.NewDraws, AlertService.DistinctRules;
      ghost var before := world;
      world := before.(due := before.due - {n}, evaluated := before.evaluated + [n],
        overtaken := before.overtaken + Overtakes(before, n));
      r, rules, done := alerts.EvaluateAll(agent.scope, agent.id,
        AlertService.Sample(sample.cpu, sample.memory, sample.disk), draws);
    }

    /** Only a taken sample with none newer reaches the alerts; it then takes one step per rule that applies. The four
        parts may each run in any state of the world; here they follow one another. */
    method HandleReport(agent: Agent, sample: Sample, clock: Time, draws: seq<AlertService.Draw>)
        returns (r: Result<()>, ghost rules: seq<Alerting.Rule>, ghost done: nat)
      requires Valid() && Alerting.BoardInv(alerts.store.View())
      requires AlertService.NewDraws(alerts.store.View(), draws) && |draws| >= |alerts.store.rules|
      modifies this, telemetry.store, alerts.store
      ensures Valid() && Alerting.BoardInv(alerts.store.View())
      ensures Path(Steps(old(world).clock <= clock && TruncateMicro(sample.recordedAt) <= clock + SECOND),
        old(world), Handled(old(world), agent, sample, clock), world)
      ensures !agent.Valid() ==> r == Err(ErrInvalidScope)
      ensures agent.Valid() && !ValidSample(Normal(agent, sample)) ==> r == Err(ErrInvalidSample)
      ensures telemetry.store.samples ==
        if Taken(agent, sample) then Stored(old(telemetry.store.samples), Normal(agent, sample))
          else old(telemetry.store.samples)
      ensures Taken(agent, sample) ==>
        var newest := Newest(ListOf(telemetry.store.samples, Keyed(agent)), TruncateMicro(sample.recordedAt), clock);
        && (newest == None ==> r == Err(ErrInvalidSample))
        && (newest == Some(false) ==> r == Ok(()))
        && (newest == Some(true) ==>
              && |rules| <= |draws| && AlertService.DistinctRules(rules, agent.scope)
              && (forall id | id in old(alerts.store.rules) && old(alerts.store.rules)[id].scope == agent.scope ::
                    old(alerts.store.rules)[id] in rules)
              && AlertService.Evaluated(old(alerts.store.View()), rules, TrimSpace(agent.id),
                   AlertService.Sample(sample.cpu, sample.memory, sample.disk), draws, done, alerts.store.View(), r))
      ensures alerts.store.View() != old(alerts.store.View()) ==>
        && Taken(agent, sample)
        && Newest(ListOf(telemetry.store.samples, Keyed(agent)), TruncateMicro(sample.recordedAt), clock) == Some(true)
    {
      hide ValidId, TrimSpace, ValidSample, Newest, Stored, TruncateMicro, Overtakes, Path, Asked, Upper;
      hide Alerting.BoardInv, AlertService.Evaluated, AlertService.NewDraws, AlertService.DistinctRules;
      rules, done := [], 0;
      ghost var s, n, v := world, |world.stored|, Normal(agent, sample);
      ghost var steps := Steps(s.clock <= clock && TruncateMicro(sample.recordedAt) <= clock + SECOND);
      PathNone(steps, s);
      r, n := Receive(agent, sample);
      if r.Err? { return r, rules, done; }
      ghost var t := world;
      var upperBound := Bound(TruncateMicro(sample.recordedAt), clock, n);
      ghost var u := world;
      var newest := Compare(agent, TruncateMicro(sample.recordedAt), upperBound, n);
      ReportEnds(steps, s, v, t, n, clock, u, world);
      if newest.Err? { return Err(newest.error), rules, done; }
      if newest.value { r, rules, done := Alert(agent, sample, draws, n); }
    }
  }
}
