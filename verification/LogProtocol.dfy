/** The log pipeline as a step system: one agent's collector with its durable checkpoint, requests that may be
    lost, delayed, duplicated and reordered, and a hub that other agents use too. */
module LogProtocol {
  import opened Wrappers
  import opened Text
  import opened Tenancy
  import opened Clock
  import opened Sorting
  import opened Runs
  import opened LogStore
  import opened LogRecord
  import Packer

  // ---------------------------------------------------------------- the collector

  /** The fields of LogCollector, lost on a restart. */
  datatype Memory = Memory(cursor: Time, pending: Time, batch: seq<Record>, initialized: bool)

  const BY_TIME: Less<Record> := (a: Record, b: Record) => a.occurredAt < b.occurredAt

  function Filtered(raw: seq<Record>, since: Time, until: Time): seq<Record> {
    if raw == [] then []
    else
      var r := raw[|raw| - 1];
      Filtered(raw[..|raw| - 1], since, until) + if since < r.occurredAt <= until then [r] else []
  }

  function Window(raw: seq<Record>, since: Time, until: Time): seq<Record> {
    Latest(Sort(Filtered(raw, since, until), BY_TIME), MAX_BATCH_ENTRIES)
  }

  /** `loads` tells whether reading the checkpoint file works. */
  function Initialize(m: Memory, disk: Option<Time>, loads: bool, now: Time): Result<Memory> {
    if m.initialized then Ok(m)
    else if !loads then Err(ErrIO)
    else match disk
      case None => Ok(m.(initialized := true))
      case Some(cursor) =>
        if cursor == ZERO then Err(ErrCheckpointInvalid)
        else if cursor > now then Err(ErrCheckpointInFuture)
        else Ok(m.(initialized := true, cursor := cursor))
  }

  /** `raw` is what the platform returns for (cursor, now], or nothing if it fails. */
  function Collect(m: Memory, disk: Option<Time>, loads: bool, now: Time, raw: Option<seq<Record>>)
    : (Memory, Result<seq<Record>>)
  {
    var init := Initialize(m, disk, loads, now);
    if init.Err? then (m, Err(init.error))
    else
      var m := init.value;
      if m.cursor == ZERO then (m, Err(ErrIncomplete))
      else if m.pending != ZERO then (m, Ok(m.batch))
      else if m.cursor >= now then (m, Ok([]))
      else if raw.None? then (m, Err(ErrIO))
      else var batch := Window(raw.value, m.cursor, now); (m.(pending := now, batch := batch), Ok(batch))
  }

  /** A failed save may have replaced the file. */
  datatype SaveOutcome = Saved | NotSaved(written: bool)

  function Commit(m: Memory, disk: Option<Time>, outcome: SaveOutcome): (Memory, Option<Time>, Result<()>) {
    if m.pending == ZERO then (m, disk, Ok(()))
    else match outcome
      case Saved => (m.(cursor := m.pending, pending := ZERO, batch := []), Some(m.pending), Ok(()))
      case NotSaved(written) => (m, if written then Some(m.pending) else disk, Err(ErrIO))
  }

  function Restarted(now: Time, lookback: int): Memory {
    Memory(now - (if lookback <= 0 then 60 * SECOND else lookback), ZERO, [], false)
  }

  // ---------------------------------------------------------------- the system

  /** `source` is every record there is or will be. */
  datatype Config = Config(agent: Agent, format: Format, source: set<Record>)

  /** Where the runner stands: between reports, or sending the pieces of a batch. */
  datatype Pc = Idle | Reporting(pieces: seq<seq<Item>>, next: nat)

  /** `accepted` are the batches the hub has taken, in order. The rest is history: the agent's records among them, all
      digested (agent, record) pairs, the cursor of the first durable commit, the records a commit passed over, and
      the number of windows that were not collected in full. */
  datatype System = System(
    mem: Memory, disk: Option<Time>, pc: Pc, sent: set<seq<Item>>, accepted: seq<seq<Entry>>,
    delivered: set<Record>, pairs: set<(Bytes, Record)>, start: Time, lost: set<Record>, gaps: nat)

  ghost predicate Initial(s: System) {
    && !s.mem.initialized && s.mem.pending == ZERO && s.mem.batch == [] && s.disk.None? && s.pc.Idle? && s.sent == {}
    && s.accepted == [] && s.delivered == {} && s.pairs == {} && s.lost == {} && s.gaps == 0
  }

  datatype Move =
    | Restart(now: Time, lookback: int)
    | BeginReport(now: Time, loads: bool, raw: Option<seq<Record>>, pieces: Option<seq<seq<Item>>>)
    | Post
    | PostReply
    | EndReport(outcome: SaveOutcome)
    | Abandon
    | Redeliver(piece: seq<Item>)
    | Others(agent: Agent, records: seq<Record>)

  function InWindow(source: set<Record>, since: Time, until: Time): set<Record> {
    set r | r in source && since < r.occurredAt <= until
  }

  /** The source answers for a window with all its records there, and they fit one batch. */
  ghost predicate InFull(source: set<Record>, raw: seq<Record>, since: Time, until: Time) {
    (forall r | r in InWindow(source, since, until) :: r in raw) && |Filtered(raw, since, until)| <= MAX_BATCH_ENTRIES
  }

  /** What `splitLogBatch` may return for the batch. */
  ghost predicate Splits(c: Config, batch: seq<Record>, pieces: seq<seq<Item>>) {
    if batch == [] then pieces == []
    else Packer.Packed(Packer.BATCH, Packer.MAX_REQUEST_BODY_BYTES, ItemsOf(c.format, c.agent.id, batch), pieces,
      c.format.json)
  }

  /** A report that asks the platform. */
  predicate Asks(m: Memory, disk: Option<Time>, loads: bool, now: Time, raw: Option<seq<Record>>) {
    var init := Initialize(m, disk, loads, now);
    init.Ok? && init.value.cursor != ZERO && init.value.pending == ZERO && init.value.cursor < now && raw.Some?
  }

  /** Counts a window that is not collected in full. */
  ghost function GapOf(c: Config, s: System, now: Time, loads: bool, raw: Option<seq<Record>>): nat {
    if Asks(s.mem, s.disk, loads, now, raw)
      && !InFull(c.source, raw.value, Collect(s.mem, s.disk, loads, now, raw).0.cursor, now) then 1 else 0
  }

  /** The hub's checks on a request. */
  predicate TakesPiece(f: Format, piece: seq<Item>) {
    0 < |piece| <= MAX_BATCH_ENTRIES && forall i | 0 <= i < |piece| :: f.takes(piece[i].record)
  }

  function Batch(f: Format, agent: Agent, piece: seq<Item>): (b: seq<Entry>)
    ensures |b| == |piece| && forall i | 0 <= i < |b| :: b[i] == Filed(f, agent, piece[i])
  {
    seq(|piece|, i requires 0 <= i < |piece| => Filed(f, agent, piece[i]))
  }

  function RecordsOf(piece: seq<Item>): set<Record> { set i | 0 <= i < |piece| :: piece[i].record }

  function PairsOf(agentId: Bytes, piece: seq<Item>): set<(Bytes, Record)> {
    set i | 0 <= i < |piece| :: (agentId, piece[i].record)
  }

  /** The hub handles a request. */
  function Received(c: Config, s: System, agent: Agent, piece: seq<Item>): System {
    if !TakesPiece(c.format, piece) then s
    else s.(accepted := s.accepted + [Batch(c.format, agent, piece)],
            delivered := s.delivered + (if agent == c.agent then RecordsOf(piece) else {}),
            pairs := s.pairs + PairsOf(agent.id, piece))
  }

  /** What a commit passes over when it makes `disk` durable. */
  function PassedOver(c: Config, s: System, disk: Option<Time>): set<Record> {
    if disk == s.disk then {} else InWindow(c.source, s.mem.cursor, s.mem.pending) - set r | r in s.mem.batch
  }

  ghost predicate Step(c: Config, s: System, m: Move, t: System) {
    match m
    case Restart(now, lookback) => t == s.(mem := Restarted(now, lookback), pc := Idle)
    case BeginReport(now, loads, raw, pieces) =>
      var (mem, got) := Collect(s.mem, s.disk, loads, now, raw);
      && s.pc.Idle?
      && (raw.Some? ==> forall r | r in raw.value :: r in c.source)
      && (pieces.Some? ==> got.Ok? && Splits(c, got.value, pieces.value))
      && t == s.(
        mem := mem, pc := if pieces.Some? then Reporting(pieces.value, 0) else Idle,
        gaps := s.gaps + GapOf(c, s, now, loads, raw))
    case Post => s.pc.Reporting? && s.pc.next < |s.pc.pieces| && t == s.(sent := s.sent + {s.pc.pieces[s.pc.next]})
    case PostReply =>
      && s.pc.Reporting? && s.pc.next < |s.pc.pieces| && s.pc.pieces[s.pc.next] in s.sent
      && t == Received(c, s, c.agent, s.pc.pieces[s.pc.next]).(
        pc := if TakesPiece(c.format, s.pc.pieces[s.pc.next]) then Reporting(s.pc.pieces, s.pc.next + 1) else Idle)
    case EndReport(outcome) =>
      var (mem, disk, _) := Commit(s.mem, s.disk, outcome);
      && s.pc.Reporting? && s.pc.next == |s.pc.pieces|
      && t == s.(mem := mem, disk := disk, pc := Idle, start := if s.disk.None? then s.mem.cursor else s.start,
                 lost := s.lost + PassedOver(c, s, disk))
    case Abandon => t == s.(pc := Idle)
    case Redeliver(piece) => piece in s.sent && t == Received(c, s, c.agent, piece)
    case Others(agent, records) =>
      agent != c.agent && 0 !in agent.id && t == Received(c, s, agent, ItemsOf(c.format, agent.id, records))
  }

  ghost function Steps(c: Config): (System, Move, System) -> bool {
    (s: System, m: Move, t: System) => Step(c, s, m, t)
  }

  ghost predicate Reachable(c: Config, s: System) { exists s0 :: Initial(s0) && Reaches(Steps(c), s0, s) }

  // ---------------------------------------------------------------- the invariant

  /** A piece sent by `agent` in the course of the protocol. */
  ghost predicate PieceOf(c: Config, agent: Agent, piece: seq<Item>) {
    forall i | 0 <= i < |piece| ::
      piece[i] == ItemOf(c.format, agent.id, piece[i].record) && (agent == c.agent ==> piece[i].record in c.source)
  }

  /** An accepted entry is the stored form of a record, one of ours if it is ours. */
  ghost predicate Explained(c: Config, s: System, e: Entry) {
    exists r :: e == Stored(c.format, e.agent, r) && (e.agent.id, r) in s.pairs
      && (e.agent == c.agent ==> r in s.delivered)
  }

  ghost predicate HubInv(c: Config, s: System) {
    && (forall e | e in Submitted(s.accepted) :: Explained(c, s, e))
    && (forall r | r in s.delivered ::
          r in c.source && c.format.takes(r) && Stored(c.format, c.agent, r) in Submitted(s.accepted)
            && (c.agent.id, r) in s.pairs)
    && (forall p | p in s.pairs :: p.0 == c.agent.id || 0 !in p.0)
  }

  ghost predicate SentInv(c: Config, s: System) {
    && (forall p | p in s.sent :: PieceOf(c, c.agent, p))
    && (s.pc.Reporting? ==>
          && s.pc.next <= |s.pc.pieces|
          && (forall k | 0 <= k < |s.pc.pieces| :: PieceOf(c, c.agent, s.pc.pieces[k]))
          && (forall k | 0 <= k < s.pc.next :: s.pc.pieces[k] in s.sent && RecordsOf(s.pc.pieces[k]) <= s.delivered)
          && (s.mem.pending != ZERO
            ==> forall r | r in s.mem.batch :: exists k | 0 <= k < |s.pc.pieces| :: r in RecordsOf(s.pc.pieces[k])))
  }

  ghost predicate Covered(c: Config, since: Time, until: Time, seen: set<Record>) {
    InWindow(c.source, since, until) <= seen
  }

  ghost predicate CursorInv(c: Config, s: System) {
    && (s.disk.Some? ==>
          && s.disk.value != ZERO && s.start < s.disk.value
          && Covered(c, s.start, s.disk.value, s.delivered + s.lost))
    && (s.mem.initialized && s.disk.Some? ==> s.mem.cursor == s.disk.value || s.disk.value == s.mem.pending)
    && (s.mem.pending != ZERO ==>
          && s.mem.initialized && s.mem.cursor != ZERO && s.mem.cursor < s.mem.pending
          && (forall r | r in s.mem.batch :: r in c.source)
          && (s.disk == Some(s.mem.pending) ==> forall r | r in s.mem.batch :: r in s.delivered)
          && (s.gaps == 0 ==> Covered(c, s.mem.cursor, s.mem.pending, set r | r in s.mem.batch)))
    && |s.mem.batch| <= MAX_BATCH_ENTRIES
    && (s.gaps == 0 ==> s.lost == {})
  }

  ghost predicate Inv(c: Config, s: System) { HubInv(c, s) && SentInv(c, s) && CursorInv(c, s) }
}
