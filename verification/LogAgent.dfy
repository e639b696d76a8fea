/** internal/agent/log_collector.go, the log part of internal/agent/client.go and of `report` in
    internal/agent/runner.go as written, against a hub that others use and a network that may lose requests.
    Every call is a path of the step system, so what LogSafety proves of reachable states holds of this code. */
module LogAgent {
  import opened Wrappers
  import opened Text
  import opened Tenancy
  import opened Clock
  import opened Sorting
  import opened Runs
  import opened LogStore
  import opened LogRecord
  import opened LogProtocol
  import opened LogSafety
  import opened LogProgress
  import Packer

  class LogCollector {
    var cursor: Time
    var pending: Time
    var batch: seq<Record>
    var initialized: bool
    var checkpoint: Option<Time>            // the file of FileLogCheckpointStore

    function State(): Memory
      reads this
    {
      Memory(cursor, pending, batch, initialized)
    }

    constructor (now: Time, lookback: int, checkpoint: Option<Time>)
      ensures State() == Restarted(now, lookback) && this.checkpoint == checkpoint
      ensures cursor == now - (if lookback > 0 then lookback else 60 * SECOND)
    {
      cursor := now - (if lookback <= 0 then 60 * SECOND else lookback);
      pending, batch, initialized := ZERO, [], false;
      this.checkpoint := checkpoint;
    }

    method Load(now: Time, loads: bool) returns (r: Result<()>)
      modifies `initialized, `cursor
      ensures var init := Initialize(old(State()), checkpoint, loads, now);
        if init.Ok? then r == Ok(()) && State() == init.value else r == Err(init.error) && State() == old(State())
    {
      if initialized { return Ok(()); }
      initialized := true;
      if !loads {
        initialized := false;
        return Err(ErrIO);
      }
      if checkpoint.None? { return Ok(()); }
      if checkpoint.value == ZERO {
        initialized := false;
        return Err(ErrCheckpointInvalid);
      }
      if checkpoint.value > now {
        initialized := false;
        return Err(ErrCheckpointInFuture);
      }
      cursor := checkpoint.value;
      return Ok(());
    }

    method Collect(now: Time, loads: bool, raw: Option<seq<Record>>) returns (r: Result<seq<Record>>)
      modifies `initialized, `cursor, `pending, `batch
      ensures (State(), r) == LogProtocol.Collect(old(State()), checkpoint, loads, now, raw)
    {
      hide Sort;
      var loaded := Load(now, loads);
      if loaded.Err? { return Err(loaded.error); }
      if cursor == ZERO { return Err(ErrIncomplete); }
      if pending != ZERO { return Ok(batch); }
      if cursor >= now { return Ok([]); }
      if raw.None? { return Err(ErrIO); }
      var filtered: seq<Record> := [];
      for n := 0 to |raw.value|
        invariant filtered == Filtered(raw.value[..n], cursor, now)
      {
        assert raw.value[..n + 1][..n] == raw.value[..n];
        if cursor < raw.value[n].occurredAt && raw.value[n].occurredAt <= now {
          filtered := filtered + [raw.value[n]];
        }
      }
      assert raw.value[..|raw.value|] == raw.value;
      var entries := Sort(filtered, BY_TIME);
      if |entries| > MAX_BATCH_ENTRIES {
        entries := entries[|entries| - MAX_BATCH_ENTRIES..];
      }
      pending, batch := now, entries;
      return Ok(batch);
    }

    method Commit(outcome: SaveOutcome) returns (r: Result<()>)
      modifies `cursor, `pending, `batch, `checkpoint
      ensures (State(), checkpoint, r) == LogProtocol.Commit(old(State()), old(checkpoint), outcome)
    {
      if pending == ZERO { return Ok(()); }
      if outcome.Saved? || outcome.written { checkpoint := Some(pending); }
      if outcome.NotSaved? { return Err(ErrIO); }
      cursor := pending;
      pending, batch := ZERO, [];
      return Ok(());
    }
  }

  // ---------------------------------------------------------------- requests as the hub sees them

  function Body(piece: seq<Item>): (b: seq<Candidate>)
    ensures |b| == |piece| && forall i | 0 <= i < |b| :: b[i] == Decoded(piece[i])
  {
    seq(|piece|, i requires 0 <= i < |piece| => Decoded(piece[i]))
  }

  ghost predicate Named(agent: Agent) { agent.Valid() && TrimSpace(agent.id) == agent.id }

  ghost predicate Identified(piece: seq<Item>) { forall i | 0 <= i < |piece| :: HexId(piece[i].id) }

  /** Ingest does with a request what the protocol says. */
  lemma HubTakesPiece(hash: Hash, agent: Agent, piece: seq<Item>, drawn: seq<Result<Bytes>>)
    requires Named(agent) && Identified(piece) && |drawn| == |piece|
    ensures Takes(agent, Body(piece)) <==> TakesPiece(Actual(hash), piece)
    ensures Takes(agent, Body(piece)) ==> forall i | 0 <= i < |piece| :: RefusalOf(Body(piece)[i], drawn[i]).None?
    ensures EntriesOf(agent, Body(piece), drawn) == Batch(Actual(hash), agent, piece)
  {
    hide Decoded, Admissible, RefusalOf, EntryOf, Filed, ValidId, TrimSpace, HexId, Actual;
    forall i | 0 <= i < |piece|
      ensures Admissible(Body(piece)[i]) <==> Actual(hash).takes(piece[i].record)
      ensures RefusalOf(Body(piece)[i], drawn[i]).None? <==> Actual(hash).takes(piece[i].record)
      ensures EntryOf(agent, Body(piece)[i], drawn[i]) == Filed(Actual(hash), agent, piece[i])
    {
      HubTakes(hash, agent, piece[i], drawn[i]);
    }
    if TakesPiece(Actual(hash), piece) { assert forall i | 0 <= i < |Body(piece)| :: Admissible(Body(piece)[i]); }
  }

  lemma PieceIsIdentified(c: Config, hash: Hash, agent: Agent, piece: seq<Item>)
    requires c.format == Actual(hash) && PieceOf(c, agent, piece)
    ensures Identified(piece)
  {
    hide Preimage, HexId;
    forall i | 0 <= i < |piece| ensures HexId(piece[i].id) {
      var id: Digest := hash(Preimage(agent.id, piece[i].record));
      assert piece[i].id == id;
    }
  }

  class Runner {
    const config: Config
    const hash: Hash
    const collector: LogCollector
    const hub: Service
    var sent: set<seq<Item>>                // the network: everything ever sent
    ghost var pc: Pc
    ghost var accepted: seq<seq<Entry>>
    ghost var delivered: set<Record>
    ghost var pairs: set<(Bytes, Record)>
    ghost var start: Time
    ghost var lost: set<Record>
    ghost var gaps: nat

    ghost function World(): System
      reads this, collector
    {
      System(collector.State(), collector.checkpoint, pc, sent, accepted, delivered, pairs, start, lost, gaps)
    }

    ghost predicate Valid()
      reads this, collector, hub.store
    {
      && config.format == Actual(hash) && Named(config.agent)
      && hub.store.entries == History(accepted) && Inv(config, World())
    }

    ghost constructor (config: Config, hash: Hash, collector: LogCollector, hub: Service)
      requires config.format == Actual(hash) && Named(config.agent) && hub.store.entries == map[]
        && collector.checkpoint.None?
      requires !collector.initialized && collector.pending == ZERO && collector.batch == []
      ensures Valid() && Initial(World()) && this.config == config && this.collector == collector && this.hub == hub
    {
      hide Named, Actual;
      this.config, this.hash, this.collector, this.hub := config, hash, collector, hub;
      sent, pc, accepted, delivered, pairs, start, lost, gaps := {}, Idle, [], {}, {}, 0, {}, 0;
    }

    /** The hub handles one request of `agent`. */
    method Receive(agent: Agent, piece: seq<Item>) returns (taken: bool)
      requires config.format == Actual(hash) && Named(agent) && Identified(piece)
        && hub.store.entries == History(accepted)
      modifies hub.store, `accepted, `delivered, `pairs
      ensures World() == Received(config, old(World()), agent, piece) && taken == TakesPiece(config.format, piece)
      ensures hub.store.entries == History(accepted)
    {
      hide Takes, Append, Actual, Named, Identified, TakesPiece;
      ghost var t := Received(config, World(), agent, piece);
      var drawn := seq(|piece|, _ => Err(ErrIO));
      HubTakesPiece(hash, agent, piece, drawn);
      var reply, published := hub.Ingest(agent, Body(piece), drawn);
      taken := reply.Ok?;
      SubmittedGrows(map[], accepted, Batch(config.format, agent, piece));
      accepted, delivered, pairs := t.accepted, t.delivered, t.pairs;
    }

    // -------------------------------------------------------------- the rest of the system

    /** Late duplicates of this agent's requests, and other agents, any number of them. */
    method Environment(ghost before: System)
      requires Valid() && Reaches(NoRestart(config), before, World())
      modifies hub.store, `accepted, `delivered, `pairs
      ensures Valid() && Reaches(NoRestart(config), before, World())
    {
      hide Inv, Step, Reaches, Actual, TrimSpace, ValidId, History;
      var rounds: nat := *;
      while rounds > 0
        invariant Valid() && Reaches(NoRestart(config), before, World())
        decreases rounds
      {
        var choice: bool := *;
        var other: Agent, records: seq<Record> := *, *;
        if choice && sent != {} {
          var piece :| piece in sent;
          Duplicate(piece, before);
        } else if other != config.agent && other.Valid() && TrimSpace(other.id) == other.id {
          Other(other, records, before);
        }
        rounds := rounds - 1;
      }
    }

    method Duplicate(piece: seq<Item>, ghost before: System)
      requires Valid() && Reaches(NoRestart(config), before, World()) && piece in sent
      modifies hub.store, `accepted, `delivered, `pairs
      ensures Valid() && Reaches(NoRestart(config), before, World())
    {
      hide HubInv, CursorInv, Received, Reaches, Actual, Named, History, PieceOf;
      ghost var mid := World();
      PieceIsIdentified(config, hash, config.agent, piece);
      var taken := Receive(config.agent, piece);
      Go(config, before, mid, Redeliver(piece), World());
    }

    method Other(other: Agent, records: seq<Record>, ghost before: System)
      requires Valid() && Reaches(NoRestart(config), before, World()) && other != config.agent && Named(other)
      modifies hub.store, `accepted, `delivered, `pairs
      ensures Valid() && Reaches(NoRestart(config), before, World())
    {
      hide Inv, Received, Reaches, Actual, History, TrimSpace, Blank;
      ghost var mid := World();
      var piece := ItemsOf(config.format, other.id, records);
      PieceIsIdentified(config, hash, other, piece);
      var taken := Receive(other, piece);
      Go(config, before, mid, Others(other, records), World());
    }

    // -------------------------------------------------------------- one report

    /** ReportLogs up to its send loop. */
    method Prepare(batch: seq<Record>) returns (r: Result<seq<seq<Item>>>)
      requires config.format == Actual(hash) && 0 < |batch| <= MAX_BATCH_ENTRIES
      ensures AllSendable(config, batch) ==> r.Ok?
      ensures r.Ok? ==> Splits(config, batch, r.value) && PiecesAreSmall(r.value)
    {
      hide Preimage, EntryJson, PiecesAreSmall, Packer.Packed, Packer.Fits;
      var entries: seq<Item> := [];
      for index := 0 to |batch|
        invariant entries == ItemsOf(config.format, config.agent.id, batch[..index])
      {
        entries := entries + [ItemOf(config.format, config.agent.id, batch[index])];
      }
      assert batch[..|batch|] == batch;
      r := Packer.SplitLogBatch(entries, JSON);
      assert AllSendable(config, batch) ==> Sendable(config.format, config.agent.id, batch[0]);
      if r.Ok? { SplitIsSmall(config, batch, r.value); }
    }

    /** Collects a batch, gives its entries their IDs and splits it. */
    method Begin(now: Time, loads: bool, raw: Option<seq<Record>>, ghost before: System)
        returns (r: Result<seq<seq<Item>>>)
      requires Valid() && pc.Idle? && Reaches(NoRestart(config), before, World())
      requires raw.Some? ==> forall b | b in raw.value :: b in config.source
      modifies collector, `pc, `gaps
      ensures Valid() && Reaches(NoRestart(config), before, World())
      ensures pc == if r.Ok? then Reporting(r.value, 0) else Idle
      ensures var (mem, got) := LogProtocol.Collect(old(collector.State()), old(collector.checkpoint), loads, now, raw);
        && collector.State() == mem && collector.checkpoint == old(collector.checkpoint)
        && (got.Ok? && AllSendable(config, got.value) ==> r.Ok?)
        && (r.Ok? ==> got.Ok? && Splits(config, got.value, r.value) && PiecesAreSmall(r.value))
    {
      hide LogProtocol.Collect, HubInv, SentInv, CursorInv, GapOf, Reaches, Actual, Named, History, Asks,
        Packer.Packed, AllSendable;
      ghost var s := World();
      CollectedIsOurs(config, s, now, loads, raw);
      var got := collector.Collect(now, loads, raw);
      var pieces := None;
      if got.Err? {
        r := Err(got.error);
      } else if |got.value| == 0 {
        r := Ok([]);
      } else {
        r := Prepare(got.value);
      }
      if r.Ok? { pieces := Some(r.value); }
      pc, gaps := if r.Ok? then Reporting(r.value, 0) else Idle, gaps + GapOf(config, s, now, loads, raw);
      Go(config, before, s, BeginReport(now, loads, raw, pieces), World());
    }

    /** The send loop of ReportLogs. */
    method Send(pieces: seq<seq<Item>>, calm: bool, ghost before: System) returns (ok: bool)
      requires Valid() && pc == Reporting(pieces, 0) && Reaches(NoRestart(config), before, World())
      modifies this, hub.store
      ensures Valid() && Reaches(NoRestart(config), before, World())
      ensures collector.State() == old(collector.State()) && collector.checkpoint == old(collector.checkpoint)
      ensures pc == if ok then Reporting(pieces, |pieces|) else Idle
      ensures calm && (forall k | 0 <= k < |pieces| :: TakesPiece(config.format, pieces[k])) ==> ok
    {
      hide Inv, Step, Reaches, Actual, Named, History, TakesPiece;
      for n := 0 to |pieces|
        invariant Valid() && pc == Reporting(pieces, n) && Reaches(NoRestart(config), before, World())
        invariant collector.State() == old(collector.State()) && collector.checkpoint == old(collector.checkpoint)
      {
        var taken := SendOne(pieces, n, calm, before);
        if !taken { return false; }
      }
      return true;
    }

    /** One request: it may be lost before or after the hub handles it. */
    method SendOne(pieces: seq<seq<Item>>, n: nat, calm: bool, ghost before: System) returns (ok: bool)
      requires n < |pieces| && Valid() && pc == Reporting(pieces, n) && Reaches(NoRestart(config), before, World())
      modifies this, hub.store
      ensures Valid() && Reaches(NoRestart(config), before, World())
      ensures collector.State() == old(collector.State()) && collector.checkpoint == old(collector.checkpoint)
      ensures pc == if ok then Reporting(pieces, n + 1) else Idle
      ensures calm && TakesPiece(config.format, pieces[n]) ==> ok
    {
      hide HubInv, CursorInv, Received, Reaches, Actual, Named, History, TakesPiece, PieceOf, RecordsOf;
      ghost var s := World();
      sent := sent + {pieces[n]};
      Go(config, before, s, Post, World());
      Environment(before);
      s := World();
      var outcome: nat := *;
      if calm { outcome := 0; }
      PieceIsIdentified(config, hash, config.agent, pieces[n]);
      ok := false;
      if outcome != 1 { ok := Receive(config.agent, pieces[n]); }
      if outcome == 2 {
        Go(config, before, s, Redeliver(pieces[n]), World());
        s := World();
        ok := false;
      }
      pc := if ok then Reporting(pieces, n + 1) else Idle;
      Go(config, before, s, if outcome == 1 || outcome == 2 then Abandon else PostReply, World());
    }

    method End(pieces: seq<seq<Item>>, outcome: SaveOutcome, ghost before: System) returns (r: Result<()>)
      requires Valid() && pc == Reporting(pieces, |pieces|) && Reaches(NoRestart(config), before, World())
      modifies collector, `pc, `start, `lost
      ensures Valid() && pc.Idle? && Reaches(NoRestart(config), before, World())
      ensures (collector.State(), collector.checkpoint, r)
        == LogProtocol.Commit(old(collector.State()), old(collector.checkpoint), outcome)
    {
      hide Inv, Reaches, Actual, Named, History;
      ghost var s := World();
      r := collector.Commit(outcome);
      pc := Idle;
      start := if s.disk.None? then s.mem.cursor else start;
      lost := lost + PassedOver(config, s, collector.checkpoint);
      Go(config, before, s, EndReport(outcome), World());
    }

    /** The log part of a report: the checkpoint moves only after every piece has been acknowledged. */
    method Report(now: Time, loads: bool, raw: Option<seq<Record>>, outcome: SaveOutcome, calm: bool)
        returns (r: Result<()>)
      requires Valid() && pc.Idle? && (raw.Some? ==> forall b | b in raw.value :: b in config.source)
      modifies this, collector, hub.store
      ensures Valid() && pc.Idle? && Reaches(NoRestart(config), old(World()), World())
      ensures var (mem, got) := LogProtocol.Collect(old(collector.State()), old(collector.checkpoint), loads, now, raw);
        && (r.Ok? ==> collector.pending == ZERO && (mem.pending != ZERO ==> collector.checkpoint == Some(mem.pending)))
        && (r.Err? ==>
              collector.State() == mem && collector.checkpoint in {old(collector.checkpoint), Some(mem.pending)})
        && (got.Ok? && calm && outcome.Saved? && AllSendable(config, got.value) && AllTaken(config, got.value)
          ==> r.Ok?)
    {
      hide LogProtocol.Collect, Inv, Reaches, Step, Actual, Named, History, AllSendable, AllTaken, PiecesAreSmall,
        TakesPiece, Splits;
      ghost var before := World();
      ReachesSelf(NoRestart(config), before);
      var pieces := Begin(now, loads, raw, before);
      if pieces.Err? { return Err(pieces.error); }
      ghost var got := LogProtocol.Collect(before.mem, before.disk, loads, now, raw).1.value;
      if AllTaken(config, got) { PiecesTaken(config, got, pieces.value); }
      var ok := Send(pieces.value, calm, before);
      if !ok { return Err(ErrIO); }
      r := End(pieces.value, outcome, before);
    }
  }
}
