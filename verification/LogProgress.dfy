/** Progress of the log pipeline: a report in which nothing fails moves the checkpoint, exactly if the hub takes what
    the report holds. */
module LogProgress {
  import opened Wrappers
  import opened Clock
  import opened Runs
  import opened LogStore
  import opened LogRecord
  import opened LogProtocol
  import opened LogSafety
  import Packer

  /** One process: no restart in between. */
  ghost function NoRestart(c: Config): (System, Move, System) -> bool {
    (s: System, m: Move, t: System) => !m.Restart? && Step(c, s, m, t)
  }

  /** One step further on a path. */
  lemma Go(c: Config, before: System, s: System, m: Move, t: System)
    requires Inv(c, s) && Reaches(NoRestart(c), before, s) && !m.Restart? && Step(c, s, m, t)
    ensures Inv(c, t) && Reaches(NoRestart(c), before, t)
  {
    hide Inv, Step, Reaches;
    StepKeeps(c, s, m, t);
    ReachesStep(NoRestart(c), before, s, m, t);
  }

  ghost predicate AllSendable(c: Config, batch: seq<Record>) {
    forall r | r in batch :: Sendable(c.format, c.agent.id, r)
  }
  ghost predicate AllTaken(c: Config, batch: seq<Record>) { forall r | r in batch :: c.format.takes(r) }

  predicate PiecesAreSmall(pieces: seq<seq<Item>>) {
    forall k | 0 <= k < |pieces| :: 0 < |pieces[k]| <= MAX_BATCH_ENTRIES
  }

  /** The pieces of a batch of the collector are requests the hub may take. */
  lemma SplitIsSmall(c: Config, batch: seq<Record>, pieces: seq<seq<Item>>)
    requires Splits(c, batch, pieces) && |batch| <= MAX_BATCH_ENTRIES
    ensures PiecesAreSmall(pieces)
  {
    if batch != [] {
      forall k | 0 <= k < |pieces| ensures |pieces[k]| <= MAX_BATCH_ENTRIES { Packer.ConcatPrefix(pieces, k); }
    }
  }

  /** A batch of the collector can always be split. */
  lemma SplitExists(c: Config, batch: seq<Record>) returns (pieces: seq<seq<Item>>)
    requires AllSendable(c, batch) && |batch| <= MAX_BATCH_ENTRIES
    ensures Splits(c, batch, pieces) && PiecesAreSmall(pieces)
  {
    if batch == [] {
      pieces := [];
    } else {
      var items := ItemsOf(c.format, c.agent.id, batch);
      forall i | 0 <= i < |items|
        ensures Packer.Fits(Packer.BATCH, Packer.MAX_REQUEST_BODY_BYTES, [items[i]], c.format.json)
      {
        assert Sendable(c.format, c.agent.id, batch[i]);
      }
      pieces := Packer.GreedyExists(Packer.BATCH, Packer.MAX_REQUEST_BODY_BYTES, items, c.format.json);
    }
    SplitIsSmall(c, batch, pieces);
  }

  /** Sending what is left of the pieces. */
  lemma {:induction false} SendRest(c: Config, start: System, s: System) returns (t: System)
    requires Inv(c, s) && Reaches(NoRestart(c), start, s) && s.pc.Reporting? && PiecesAreSmall(s.pc.pieces)
    requires forall k | 0 <= k < |s.pc.pieces| :: TakesPiece(c.format, s.pc.pieces[k])
    ensures Inv(c, t) && Reaches(NoRestart(c), start, t) && t.pc == Reporting(s.pc.pieces, |s.pc.pieces|)
    ensures t.mem == s.mem && t.disk == s.disk
    decreases |s.pc.pieces| - s.pc.next
  {
    hide HubInv, CursorInv, Reaches, TakesPiece, PiecesAreSmall, PieceOf, Batch, RecordsOf, PairsOf;
    if s.pc.next == |s.pc.pieces| {
      t := s;
    } else {
      var piece := s.pc.pieces[s.pc.next];
      var posted := s.(sent := s.sent + {piece});
      Go(c, start, s, Post, posted);
      var acked := Received(c, posted, c.agent, piece).(pc := Reporting(s.pc.pieces, s.pc.next + 1));
      Go(c, start, posted, PostReply, acked);
      t := SendRest(c, start, acked);
    }
  }

  lemma PiecesTaken(c: Config, batch: seq<Record>, pieces: seq<seq<Item>>)
    requires Splits(c, batch, pieces) && PiecesAreSmall(pieces) && AllTaken(c, batch)
    ensures forall k | 0 <= k < |pieces| :: TakesPiece(c.format, pieces[k])
  {
    if batch != [] {
      var items := ItemsOf(c.format, c.agent.id, batch);
      assert Packer.Concat(pieces) == items;
      forall k, i | 0 <= k < |pieces| && 0 <= i < |pieces[k]| ensures c.format.takes(pieces[k][i].record) {
        ConcatHolds(pieces, pieces[k][i]);
        assert pieces[k][i] in items;
      }
    }
  }

  /** Progress: from every reachable state, whatever faults led there, the next report in which nothing fails
      commits: the checkpoint becomes the end of the batch in hand, or of the new window, provided the hub takes
      the records of that batch. */
  lemma NextReportCommits(c: Config, s: System, now: Time, raw: seq<Record>) returns (t: System)
    requires Reachable(c, s) && forall r | r in raw :: r in c.source
    requires var (mem, got) := Collect(s.mem, s.disk, true, now, Some(raw));
      got.Ok? && mem.pending != ZERO && AllTaken(c, got.value) && AllSendable(c, got.value)
    ensures var pending := Collect(s.mem, s.disk, true, now, Some(raw)).0.pending;
      Reaches(NoRestart(c), s, t) && t.pc.Idle? && t.disk == Some(pending) && t.mem.cursor == pending
        && t.mem.pending == ZERO
  {
    hide HubInv, SentInv, CursorInv, Reaches, Reachable, Collect, Splits, PiecesAreSmall, AllSendable, AllTaken,
      TakesPiece, GapOf;
    ReachableInv(c, s);
    ReachesSelf(NoRestart(c), s);
    var idle := s.(pc := Idle);
    Go(c, s, s, Abandon, idle);
    var (mem, got) := Collect(s.mem, s.disk, true, now, Some(raw));
    CollectedIsOurs(c, idle, now, true, Some(raw));
    var pieces := SplitExists(c, got.value);
    PiecesTaken(c, got.value, pieces);
    var begun := idle.(mem := mem, pc := Reporting(pieces, 0), gaps := s.gaps + GapOf(c, idle, now, true, Some(raw)));
    Go(c, s, idle, BeginReport(now, true, Some(raw), Some(pieces)), begun);
    var sent := SendRest(c, s, begun);
    var (after, disk, _) := Commit(sent.mem, sent.disk, Saved);
    t := sent.(mem := after, disk := disk, pc := Idle, start := if sent.disk.None? then sent.mem.cursor else sent.start,
               lost := sent.lost + PassedOver(c, sent, disk));
    Go(c, s, sent, EndReport(Saved), t);
  }

  /** While the process lives it holds the batch until every record of it has been taken. */
  ghost predicate HoldsOrTaken(c: Config, x: System, pending: Time, batch: seq<Record>) {
    (x.mem.pending == pending && x.mem.batch == batch) || AllTaken(c, batch)
  }

  lemma StepHolds(c: Config, s: System, m: Move, t: System, pending: Time, batch: seq<Record>)
    requires Inv(c, s) && pending != ZERO && HoldsOrTaken(c, s, pending, batch) && !m.Restart? && Step(c, s, m, t)
    ensures HoldsOrTaken(c, t, pending, batch)
  {
    hide Batch, PairsOf, PieceOf, Splits, InFull, Window, RecordsOf, Submitted, Stored;
    if m.EndReport? && !AllTaken(c, batch) {
      forall r | r in batch ensures c.format.takes(r) {
        var k :| 0 <= k < |s.pc.pieces| && r in RecordsOf(s.pc.pieces[k]);
        assert r in s.delivered;
      }
    }
  }

  /** A batch in hand: its end can become the checkpoint without a restart if and only if the hub takes all records of
      the batch. */
  lemma BatchCommitsExactlyWhen(c: Config, s: System)
    requires Reachable(c, s) && s.mem.pending != ZERO && AllSendable(c, s.mem.batch)
    ensures (exists t :: Reaches(NoRestart(c), s, t) && t.disk == Some(s.mem.pending)) <==> AllTaken(c, s.mem.batch)
  {
    hide HubInv, SentInv, Reaches, Reachable, AllSendable, AllTaken, Step;
    ReachableInv(c, s);
    if AllTaken(c, s.mem.batch) {
      var t := NextReportCommits(c, s, ZERO, []);
    }
    if t :| Reaches(NoRestart(c), s, t) && t.disk == Some(s.mem.pending) { CommittedIsTaken(c, s, t); }
  }

  lemma CommittedIsTaken(c: Config, s: System, t: System)
    requires Inv(c, s) && s.mem.pending != ZERO && Reaches(NoRestart(c), s, t) && t.disk == Some(s.mem.pending)
    ensures AllTaken(c, s.mem.batch)
  {
    hide SentInv, Step, Submitted, Stored, Explained;
    var pending, batch := s.mem.pending, s.mem.batch;
    var moves :| Path(NoRestart(c), s, moves, t);
    forall x, m, y | (Inv(c, x) && HoldsOrTaken(c, x, pending, batch)) && NoRestart(c)(x, m, y)
      ensures Inv(c, y) && HoldsOrTaken(c, y, pending, batch)
    {
      StepKeeps(c, x, m, y);
      StepHolds(c, x, m, y, pending, batch);
    }
    PathKeeps(NoRestart(c), (x: System) => Inv(c, x) && HoldsOrTaken(c, x, pending, batch), s, moves, t);
  }

  // ---------------------------------------------------------------- the failure is real

  /** A new agent whose first window, up to `until`, is answered with nothing, and committed. */
  lemma EmptyWindowCommits(c: Config, since: Time, until: Time) returns (s0: System, s: System)
    requires ZERO < since < until
    ensures Initial(s0) && Reaches(Steps(c), s0, s) && Reachable(c, s)
    ensures s == System(Memory(until, ZERO, [], true), Some(until), Idle, {}, [], {}, {}, since,
      InWindow(c.source, since, until), s.gaps)
  {
    hide Reaches;
    s0 := System(Memory(since, ZERO, [], false), None, Idle, {}, [], {}, {}, ZERO, {}, 0);
    var raw: seq<Record> := [];
    assert Window(raw, since, until) == [];
    var s1 := s0.(mem := Memory(since, until, [], true), pc := Reporting([], 0),
      gaps := GapOf(c, s0, until, true, Some(raw)));
    s := s1.(mem := Memory(until, ZERO, [], true), disk := Some(until), pc := Idle, start := since,
             lost := InWindow(c.source, since, until));
    assert PassedOver(c, s1, Some(until)) == InWindow(c.source, since, until);
    ReachesSelf(Steps(c), s0);
    ReachesStep(Steps(c), s0, s0, BeginReport(until, true, Some(raw), Some([])), s1);
    ReachesStep(Steps(c), s0, s1, EndReport(Saved), s);
  }

  /** A record the hub refuses can stop the pipeline for good: there is a reachable state from which the checkpoint
      never gets past it, restarts included, unless a commit passes it over uncollected. */
  lemma RefusedRecordStops(c: Config, r: Record, since: Time, until: Time) returns (s: System)
    requires c.source == {r} && !c.format.takes(r) && ZERO < since < until < r.occurredAt
    ensures Reachable(c, s) && s.disk == Some(until) && s.lost == {}
    ensures forall t | Reaches(Steps(c), s, t) && r !in t.lost :: t.disk.Some? && t.disk.value < r.occurredAt
  {
    hide Inv, Reaches, Step;
    var s0;
    s0, s := EmptyWindowCommits(c, since, until);
    forall t | Reaches(Steps(c), s, t) && r !in t.lost ensures t.disk.Some? && t.disk.value < r.occurredAt {
      StartStays(c, s0, s, t);
      RefusedRecordBlocks(c, t, r);
    }
  }

  /** Once there is a checkpoint there is one for good, with the same start. */
  lemma StartStays(c: Config, s0: System, s: System, t: System)
    requires Initial(s0) && Reaches(Steps(c), s0, s) && Reaches(Steps(c), s, t) && s.disk.Some?
    ensures Reachable(c, t) && t.disk.Some? && t.start == s.start
  {
    hide Initial;
    var moves :| Path(Steps(c), s, moves, t);
    ReachesPath(Steps(c), s0, s, moves, t);
    var start := s.start;
    forall x: System, m: Move, y: System | (x.disk.Some? && x.start == start) && Steps(c)(x, m, y)
      ensures y.disk.Some? && y.start == start
    {
      StepKeepsStart(c, x, m, y);
    }
    PathKeeps(Steps(c), (x: System) => x.disk.Some? && x.start == start, s, moves, t);
  }

  lemma StepKeepsStart(c: Config, s: System, m: Move, t: System)
    requires s.disk.Some? && Step(c, s, m, t)
    ensures t.disk.Some? && t.start == s.start
  {
    hide Collect, Splits, InFull, Batch, RecordsOf, PairsOf, TakesPiece, PassedOver;
  }
}
