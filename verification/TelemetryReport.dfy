/** internal/telemetry/telemetry.go as written, and the question `handleTelemetryReport` (internal/server/telemetry.go)
    asks it: is the sample just stored the newest? */
module TelemetryReport {
  import opened Wrappers
  import opened Text
  import opened Tenancy
  import opened Clock
  import opened Sorting
  import opened Telemetry

  const MAX_INT64: nat := 0x7FFF_FFFF_FFFF_FFFF

  predicate ValidPercent(value: real) { 0.0 <= value <= 100.0 }

  predicate ValidSample(s: Sample) {
    s.recordedAt != ZERO && ValidPercent(s.cpu) && ValidPercent(s.memory) && ValidPercent(s.disk)
    && s.networkRx <= MAX_INT64 && s.networkTx <= MAX_INT64
  }

  function Keyed(agent: Agent): Agent { Agent(TrimSpace(agent.id), agent.scope) }

  /** The sample as it is stored. */
  function Normal(agent: Agent, s: Sample): Sample {
    s.(agent := Keyed(agent), recordedAt := TruncateMicro(s.recordedAt))
  }

  function Stored(m: Samples, s: Sample): Samples { m[s.agent := Appended(ListOf(m, s.agent), s)] }

  // ---------------------------------------------------------------- the decision

  function Upper(at: Time, clock: Time): Time { if at < clock + SECOND then clock + SECOND else at + SECOND }

  predicate ValidRange(from: Time, to: Time, limit: int) {
    from != ZERO && to != ZERO && from < to && 1 <= limit <= 2000
  }

  /** Whether the stored sample of this time is the newest the handler sees; the query may be refused. */
  function Newest(values: seq<Sample>, at: Time, clock: Time): Option<bool> {
    if !ValidRange(at, Upper(at, clock), 1) then None
    else
      var latest := HistoryOf(values, at, Upper(at, clock), 1);
      Some(latest != [] && latest[|latest| - 1].recordedAt == at)
  }

  /** The decision is exact: the sample just stored drives alerts when no stored one of its agent lies after it, up
      to a second past the hub's clock or past the sample itself. */
  lemma NewestIsExact(values: seq<Sample>, book: map<Time, Sample>, at: Time, clock: Time)
    requires Represents(values, book) && at in book && ValidRange(at, Upper(at, clock), 1)
    ensures Newest(values, at, clock) == Some(true) <==> forall t | t in book :: !(at < t <= Upper(at, clock))
  {
    hide HistoryOf, Increasing;
    var to := Upper(at, clock);
    HistoryIsTheLatest(values, book, at, to, 1);
    OnlyLatest(HistoryOf(values, at, to, 1), book, at, to);
  }

  lemma OnlyLatest(r: seq<Sample>, book: map<Time, Sample>, at: Time, to: Time)
    requires at in book && at <= to
    requires forall t | t in book :: book[t].recordedAt == t
    requires forall v | v in r :: v.recordedAt in Times(book, at, to) && book[v.recordedAt] == v
    requires |r| == (if |Times(book, at, to)| < 1 then |Times(book, at, to)| else 1)
    requires forall t, v | t in Times(book, at, to) && book[t] !in r && v in r :: t < v.recordedAt
    ensures r != []
    ensures r[|r| - 1].recordedAt == at <==> forall t | t in book :: !(at < t <= to)
  {
    var times := Times(book, at, to);
    assert at in times && times == (times - {at}) + {at};
    var v := r[0];
    assert r == [v];
    assert v in r;
    assert forall t | t in times && book[t] != v :: t < v.recordedAt;
    assert forall t | t in book && at < t <= to :: t in times;
  }

  /** What a report needs for its sample to be stored. */
  predicate Taken(agent: Agent, sample: Sample) { agent.Valid() && ValidSample(Normal(agent, sample)) }

  /** Which samples are taken, and what is stored of one. */
  lemma TakenExactly(agent: Agent, s: Sample)
    ensures Taken(agent, s) <==>
      && agent.Valid() && s.recordedAt - s.recordedAt % 1000 != 0
      && 0.0 <= s.cpu <= 100.0 && 0.0 <= s.memory <= 100.0 && 0.0 <= s.disk <= 100.0
      && s.networkRx < 0x8000_0000_0000_0000 && s.networkTx < 0x8000_0000_0000_0000
    ensures Normal(agent, s) == Sample(Agent(TrimSpace(agent.id), agent.scope), s.recordedAt - s.recordedAt % 1000,
                                       s.cpu, s.memory, s.disk, s.networkRx, s.networkTx)
  {
    hide ValidId, TrimSpace;
  }

  // ---------------------------------------------------------------- as written

  class MemoryStore {
    var samples: Samples

    constructor ()
      ensures samples == map[]
    {
      samples := map[];
    }

    method Append(sample: Sample) returns (r: Result<()>)
      modifies this
      ensures r == if sample.agent.Valid() then Ok(()) else Err(ErrInvalidScope)
      ensures samples == if r.Ok? then Stored(old(samples), sample) else old(samples)
    {
      hide ValidId, Sort;
      if !sample.agent.Valid() { return Err(ErrInvalidScope); }
      var values := ListOf(samples, sample.agent);
      ghost var before := values;
      var replaced := false;
      for index := 0 to |values|
        invariant !replaced && values == before
        invariant forall i | 0 <= i < index :: values[i].recordedAt != sample.recordedAt
      {
        if values[index].recordedAt == sample.recordedAt {
          values := values[index := sample];
          replaced := true;
          break;
        }
      }
      if !replaced { values := values + [sample]; }
      samples := samples[sample.agent := Sort(values, BY_STAMP)];
      return Ok(());
    }

    method History(agent: Agent, from: Time, to: Time, limit: nat) returns (r: Result<seq<Sample>>)
      ensures r == if agent.scope.Valid() then Ok(HistoryOf(ListOf(samples, agent), from, to, limit))
        else Err(ErrInvalidScope)
    {
      hide ValidId;
      if !agent.scope.Valid() { return Err(ErrInvalidScope); }
      var values := ListOf(samples, agent);
      var result: seq<Sample> := [];
      for n := 0 to |values|
        invariant result == InRange(values[..n], from, to)
      {
        assert values[..n + 1][..n] == values[..n];
        if values[n].recordedAt < from || values[n].recordedAt > to { continue; }
        result := result + [values[n]];
      }
      assert values[..|values|] == values;
      if |result| > limit { result := result[|result| - limit..]; }
      return Ok(result);
    }
  }

  class Service {
    const store: MemoryStore

    constructor (store: MemoryStore)
      ensures this.store == store
    {
      this.store := store;
    }

    method Report(agent: Agent, sample: Sample) returns (r: Result<()>)
      modifies store
      ensures r == if !agent.Valid() then Err(ErrInvalidScope) else if ValidSample(Normal(agent, sample)) then Ok(())
        else Err(ErrInvalidSample)
      ensures store.samples == if r.Ok? then Stored(old(store.samples), Normal(agent, sample)) else old(store.samples)
    {
      hide ValidId, TrimSpace, ValidPercent, Appended;
      if !agent.Valid() { return Err(ErrInvalidScope); }
      var normal := Normal(agent, sample);
      if !ValidSample(normal) { return Err(ErrInvalidSample); }
      TrimmedAgentIsValid(agent);
      r := store.Append(normal);
    }

    method History(agent: Agent, from: Time, to: Time, limit: int) returns (r: Result<seq<Sample>>)
      ensures r == if !agent.scope.Valid() then Err(ErrInvalidScope)
                   else if TrimSpace(agent.id) == [] || from == ZERO || to == ZERO || to <= from || limit < 1
                     || 2000 < limit then Err(ErrInvalidSample)
                   else Ok(HistoryOf(ListOf(store.samples, Keyed(agent)), from, to, limit))
    {
      hide ValidId, TrimSpace;
      if !agent.scope.Valid() { return Err(ErrInvalidScope); }
      if TrimSpace(agent.id) == [] || !ValidRange(from, to, limit) { return Err(ErrInvalidSample); }
      r := store.History(Keyed(agent), from, to, limit);
    }
  }

  lemma TruncateTwice(t: Time)
    ensures TruncateMicro(TruncateMicro(t)) == TruncateMicro(t)
  {}

  lemma AgentIsNamed(agent: Agent)
    requires agent.Valid()
    ensures TrimSpace(agent.id) != []
  {
    hide TrimSpace;
    BlankIsTrimmedAway(agent.id);
  }
}
