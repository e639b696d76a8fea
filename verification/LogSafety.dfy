/** What holds in every reachable state of the log pipeline. */
module LogSafety {
  import opened Wrappers
  import opened Tenancy
  import opened Clock
  import opened Sets
  import opened Sorting
  import opened Runs
  import opened LogStore
  import opened LogRecord
  import opened LogProtocol
  import Packer

  // ---------------------------------------------------------------- windows

  lemma {:induction false} FilteredIs(raw: seq<Record>, since: Time, until: Time)
    ensures forall r :: r in Filtered(raw, since, until) <==> r in raw && since < r.occurredAt <= until
  {
    if raw != [] {
      FilteredIs(raw[..|raw| - 1], since, until);
      assert raw == raw[..|raw| - 1] + [raw[|raw| - 1]];
    }
  }

  lemma ByTimeIsStrict()
    ensures StrictOrder(BY_TIME)
  {}

  lemma LatestSplits(s: seq<Record>, n: nat)
    ensures var kept := Latest(s, n); var dropped := s[..|s| - |kept|];
      && s == dropped + kept && multiset(s) == multiset(dropped) + multiset(kept)
      && |kept| == (if |s| < n then |s| else n)
      && (multiset(kept) == multiset(s) <==> |s| <= n)
  {
    var kept := Latest(s, n);
    var dropped := s[..|s| - |kept|];
    assert s == dropped + kept;
    assert |multiset(s)| == |s| && |multiset(kept)| == |kept|;
  }

  /** A window keeps all its records exactly when it has at most 1000; otherwise it keeps 1000, and what it drops
      is no later than anything it keeps. */
  lemma WindowKeepsTheLatest(raw: seq<Record>, since: Time, until: Time) returns (dropped: seq<Record>)
    ensures var all, kept := Filtered(raw, since, until), Window(raw, since, until);
      && (forall r :: r in all <==> r in raw && since < r.occurredAt <= until)
      && multiset(all) == multiset(dropped) + multiset(kept)
      && |kept| == (if |all| < MAX_BATCH_ENTRIES then |all| else MAX_BATCH_ENTRIES)
      && (multiset(kept) == multiset(all) <==> |all| <= MAX_BATCH_ENTRIES)
      && (forall i, j | 0 <= i < j < |dropped + kept| ::
        (dropped + kept)[i].occurredAt <= (dropped + kept)[j].occurredAt)
  {
    hide Filtered, Sort, Sorted, Latest;
    FilteredIs(raw, since, until);
    ByTimeIsStrict();
    var all := Filtered(raw, since, until);
    SortSorts(all, BY_TIME);
    var sorted := Sort(all, BY_TIME);
    SortedPairs(sorted);
    LatestSplits(sorted, MAX_BATCH_ENTRIES);
    dropped := sorted[..|sorted| - |Window(raw, since, until)|];
  }

  /** What a call of `Collect` returns and leaves behind: the checkpoint is taken once; a batch in hand is returned
      again; a new one holds what was written after the cursor and until now. */
  lemma CollectsExactly(m: Memory, disk: Option<Time>, loads: bool, now: Time, raw: Option<seq<Record>>)
    ensures var (after, r) := Collect(m, disk, loads, now, raw);
      var cursor := if m.initialized || disk == None then m.cursor else disk.value;
      if !m.initialized && !loads then after == m && r == Err(ErrIO)
      else if !m.initialized && disk == Some(ZERO) then after == m && r == Err(ErrCheckpointInvalid)
      else if !m.initialized && disk.Some? && now < disk.value then after == m && r == Err(ErrCheckpointInFuture)
      else if cursor == ZERO then after == Memory(cursor, m.pending, m.batch, true) && r == Err(ErrIncomplete)
      else if m.pending != ZERO then after == Memory(cursor, m.pending, m.batch, true) && r == Ok(m.batch)
      else if now <= cursor then after == Memory(cursor, m.pending, m.batch, true) && r == Ok([])
      else if raw == None then after == Memory(cursor, m.pending, m.batch, true) && r == Err(ErrIO)
      else
        && r.Ok? && after == Memory(cursor, now, r.value, true) && |r.value| <= 1000
        && (forall b | b in r.value :: b in raw.value && cursor < b.occurredAt <= now)
        && (forall i, j | 0 <= i < j < |r.value| :: r.value[i].occurredAt <= r.value[j].occurredAt)
        && (forall b | b in raw.value && cursor < b.occurredAt <= now && b !in r.value ::
              |r.value| == 1000 && forall k | 0 <= k < 1000 :: b.occurredAt <= r.value[k].occurredAt)
  {
    hide Window;
    if m.initialized || loads {
      var cursor := if m.initialized || disk == None then m.cursor else disk.value;
      if raw.Some? { WindowHolds(raw.value, cursor, now); }
    }
  }

  lemma WindowHolds(raw: seq<Record>, since: Time, until: Time)
    ensures var kept := Window(raw, since, until);
      && |kept| <= 1000
      && (forall b | b in kept :: b in raw && since < b.occurredAt <= until)
      && (forall i, j | 0 <= i < j < |kept| :: kept[i].occurredAt <= kept[j].occurredAt)
      && (forall b | b in raw && since < b.occurredAt <= until && b !in kept ::
            |kept| == 1000 && forall k | 0 <= k < 1000 :: b.occurredAt <= kept[k].occurredAt)
  {
    hide Filtered, Window;
    var all, kept := Filtered(raw, since, until), Window(raw, since, until);
    var dropped := WindowKeepsTheLatest(raw, since, until);
    KeptAndDropped(all, dropped, kept);
    forall b | b in kept ensures b in all { assert b in multiset(kept); }
  }

  lemma KeptAndDropped(all: seq<Record>, dropped: seq<Record>, kept: seq<Record>)
    requires multiset(all) == multiset(dropped) + multiset(kept)
    requires forall i, j | 0 <= i < j < |dropped + kept| ::
      (dropped + kept)[i].occurredAt <= (dropped + kept)[j].occurredAt
    ensures forall b | b in kept :: b in all
    ensures forall i, j | 0 <= i < j < |kept| :: kept[i].occurredAt <= kept[j].occurredAt
    ensures forall b, k | b in all && b !in kept && 0 <= k < |kept| :: b.occurredAt <= kept[k].occurredAt
    ensures |all| == |dropped| + |kept| && (dropped == [] ==> forall b | b in all :: b in kept)
  {
    var both := dropped + kept;
    assert forall k | 0 <= k < |kept| :: both[|dropped| + k] == kept[k];
    assert |multiset(all)| == |all| && |multiset(kept)| == |kept| && |multiset(dropped)| == |dropped|;
    forall b ensures b in all <==> b in dropped || b in kept { assert b in all <==> b in multiset(all); }
    forall b, k | b in all && b !in kept && 0 <= k < |kept| ensures b.occurredAt <= kept[k].occurredAt {
      var i :| 0 <= i < |dropped| && dropped[i] == b;
      assert both[i] == b;
    }
  }

  /** A commit moves cursor and checkpoint to the end of the batch in hand, both or, when saving fails, the cursor not;
      with nothing in hand it does nothing. */
  lemma CommitsExactly(m: Memory, disk: Option<Time>, outcome: SaveOutcome)
    ensures Commit(m, disk, outcome) ==
      if m.pending == ZERO then (m, disk, Ok(()))
      else if outcome == Saved then (Memory(m.pending, ZERO, [], m.initialized), Some(m.pending), Ok(()))
      else (m, if outcome == NotSaved(true) then Some(m.pending) else disk, Err(ErrIO))
  {}

  /** A window of one record more loses one. */
  lemma OversizeWindowLoses(r: Record, since: Time) returns (raw: seq<Record>)
    ensures raw == seq(MAX_BATCH_ENTRIES + 1, i => r.(occurredAt := since + 1 + i))
    ensures var until := since + MAX_BATCH_ENTRIES + 1;
      |Filtered(raw, since, until)| == MAX_BATCH_ENTRIES + 1 && |Window(raw, since, until)| == MAX_BATCH_ENTRIES
  {
    hide Window, Filtered;
    raw := seq(MAX_BATCH_ENTRIES + 1, i => r.(occurredAt := since + 1 + i));
    AllFiltered(raw, since, since + MAX_BATCH_ENTRIES + 1);
    var dropped := WindowKeepsTheLatest(raw, since, since + MAX_BATCH_ENTRIES + 1);
  }

  lemma {:induction false} AllFiltered(raw: seq<Record>, since: Time, until: Time)
    requires forall i | 0 <= i < |raw| :: since < raw[i].occurredAt <= until
    ensures Filtered(raw, since, until) == raw
  {
    if raw != [] {
      AllFiltered(raw[..|raw| - 1], since, until);
      assert raw == raw[..|raw| - 1] + [raw[|raw| - 1]];
    }
  }

  lemma SortedPairs(s: seq<Record>)
    requires Sorted(s, BY_TIME)
    ensures forall i, j | 0 <= i < j < |s| :: s[i].occurredAt <= s[j].occurredAt
  {
    forall i, j | 0 <= i < j < |s| ensures s[i].occurredAt <= s[j].occurredAt { assert !BY_TIME(s[j], s[i]); }
  }

  // ---------------------------------------------------------------- the cursor

  lemma WindowElements(raw: seq<Record>, since: Time, until: Time)
    ensures forall r :: r in Window(raw, since, until) ==> r in raw
    ensures |Window(raw, since, until)| <= MAX_BATCH_ENTRIES
    ensures |Filtered(raw, since, until)| <= MAX_BATCH_ENTRIES ==>
      forall r :: r in raw && since < r.occurredAt <= until ==> r in Window(raw, since, until)
  {
    hide Window, Filtered;
    var dropped := WindowKeepsTheLatest(raw, since, until);
    var all, kept := Filtered(raw, since, until), Window(raw, since, until);
    forall r | r in kept ensures r in all { assert r in multiset(kept) && r in multiset(all); }
    if |all| <= MAX_BATCH_ENTRIES {
      forall r | r in all ensures r in kept { assert r in multiset(all) && r in multiset(kept); }
    }
  }

  /** What a report holds comes from the source, is at most one batch, and is a whole window unless a gap is counted. */
  lemma CollectedIsOurs(c: Config, s: System, now: Time, loads: bool, raw: Option<seq<Record>>)
    requires CursorInv(c, s) && (raw.Some? ==> forall r | r in raw.value :: r in c.source)
    ensures var (mem, got) := Collect(s.mem, s.disk, loads, now, raw);
      && (got.Ok? ==> (forall r | r in got.value :: r in c.source) && |got.value| <= MAX_BATCH_ENTRIES)
      && (got.Ok? && mem.pending != ZERO ==> got.value == mem.batch)
      && (Asks(s.mem, s.disk, loads, now, raw) && InFull(c.source, raw.value, mem.cursor, now) ==>
            InWindow(c.source, mem.cursor, now) <= set r | r in mem.batch)
  {
    hide Window, Filtered;
    var (mem, got) := Collect(s.mem, s.disk, loads, now, raw);
    if Asks(s.mem, s.disk, loads, now, raw) { WindowElements(raw.value, mem.cursor, now); }
  }

  lemma StepKeepsCursor(c: Config, s: System, m: Move, t: System)
    requires SentInv(c, s) && CursorInv(c, s) && Step(c, s, m, t)
    ensures CursorInv(c, t)
  {
    hide PieceOf, Window, Filtered, InFull, Splits, TakesPiece, Batch, RecordsOf, PairsOf;
    match m
    case BeginReport(now, loads, raw, _) => CollectedIsOurs(c, s, now, loads, raw);
    case EndReport(_) => EndKeepsCursor(c, s, m, t);
    case _ =>
  }

  /** A commit: every piece has been acknowledged. */
  lemma EndKeepsCursor(c: Config, s: System, m: Move, t: System)
    requires SentInv(c, s) && CursorInv(c, s) && m.EndReport? && Step(c, s, m, t)
    ensures CursorInv(c, t)
  {
    hide PieceOf, RecordsOf;
    if s.mem.pending != ZERO {
      forall r | r in s.mem.batch ensures r in s.delivered {
        var k :| 0 <= k < |s.pc.pieces| && r in RecordsOf(s.pc.pieces[k]);
      }
      if t.disk != s.disk {
        assert InWindow(c.source, s.mem.cursor, s.mem.pending) <= t.delivered + t.lost;
        forall r | r in InWindow(c.source, t.start, s.mem.pending) ensures r in t.delivered + t.lost {
          assert r in InWindow(c.source, s.mem.cursor, s.mem.pending) || r in InWindow(c.source, s.start, s.mem.cursor);
        }
      }
    }
  }

  // ---------------------------------------------------------------- requests

  lemma {:induction false} ConcatHolds<T>(pieces: seq<seq<T>>, x: T)
    ensures x in Packer.Concat(pieces) <==> exists k | 0 <= k < |pieces| :: x in pieces[k]
  {
    if pieces != [] {
      var n := |pieces| - 1;
      ConcatHolds(pieces[..n], x);
      if x in pieces[n] { assert x in Packer.Concat(pieces); }
      if k :| 0 <= k < n && x in pieces[..n][k] { assert x in pieces[k]; }
    }
  }

  lemma SplitIsOurs(c: Config, batch: seq<Record>, pieces: seq<seq<Item>>)
    requires Splits(c, batch, pieces) && forall r | r in batch :: r in c.source
    ensures forall k | 0 <= k < |pieces| :: PieceOf(c, c.agent, pieces[k])
    ensures forall r | r in batch :: exists k | 0 <= k < |pieces| :: r in RecordsOf(pieces[k])
  {
    if batch != [] {
      var items := ItemsOf(c.format, c.agent.id, batch);
      assert Packer.Concat(pieces) == items;
      forall k, i | 0 <= k < |pieces| && 0 <= i < |pieces[k]|
        ensures pieces[k][i] == ItemOf(c.format, c.agent.id, pieces[k][i].record) && pieces[k][i].record in c.source
      {
        ConcatHolds(pieces, pieces[k][i]);
        assert pieces[k][i] in items;
      }
      forall r | r in batch ensures exists k | 0 <= k < |pieces| :: r in RecordsOf(pieces[k]) {
        var j :| 0 <= j < |batch| && batch[j] == r;
        ConcatHolds(pieces, items[j]);
        var k :| 0 <= k < |pieces| && items[j] in pieces[k];
        assert r in RecordsOf(pieces[k]);
      }
    }
  }

  lemma StepKeepsSent(c: Config, s: System, m: Move, t: System)
    requires SentInv(c, s) && CursorInv(c, s) && Step(c, s, m, t)
    ensures SentInv(c, t)
  {
    hide Splits, Window, Filtered, PieceOf, RecordsOf, PairsOf, Batch, InFull, Covered;
    match m
    case BeginReport(now, loads, raw, pieces) =>
      CollectedIsOurs(c, s, now, loads, raw);
      if pieces.Some? { SplitIsOurs(c, Collect(s.mem, s.disk, loads, now, raw).1.value, pieces.value); }
    case _ =>
  }

  // ---------------------------------------------------------------- the hub

  lemma SubmittedGrows(m: Store, batches: seq<seq<Entry>>, batch: seq<Entry>)
    ensures Submitted(batches + [batch]) == Submitted(batches) + batch
    ensures AppendAll(m, batches + [batch]) == Append(AppendAll(m, batches), batch)
  {
    assert (batches + [batch])[..|batches|] == batches;
  }

  lemma ExplainedGrows(c: Config, s: System, t: System, e: Entry)
    requires Explained(c, s, e) && s.pairs <= t.pairs && s.delivered <= t.delivered
    ensures Explained(c, t, e)
  {
    hide Stored;
    var r :| e == Stored(c.format, e.agent, r) && (e.agent.id, r) in s.pairs
      && (e.agent == c.agent ==> r in s.delivered);
    assert e == Stored(c.format, e.agent, r);
  }

  lemma ReceivedKeepsHub(c: Config, s: System, agent: Agent, piece: seq<Item>)
    requires HubInv(c, s) && PieceOf(c, agent, piece) && (agent == c.agent || 0 !in agent.id)
    ensures HubInv(c, Received(c, s, agent, piece))
    ensures agent == c.agent && TakesPiece(c.format, piece)
      ==> RecordsOf(piece) <= Received(c, s, agent, piece).delivered
  {
    hide Submitted, Explained, RecordsOf, PairsOf;
    var t := Received(c, s, agent, piece);
    if TakesPiece(c.format, piece) {
      var batch := Batch(c.format, agent, piece);
      SubmittedGrows(map[], s.accepted, batch);
      forall e | e in Submitted(s.accepted) ensures Explained(c, t, e) { ExplainedGrows(c, s, t, e); }
      forall i | 0 <= i < |piece|
        ensures batch[i] == Stored(c.format, agent, piece[i].record) && Explained(c, t, batch[i])
        ensures agent == c.agent ==> piece[i].record in c.source && c.format.takes(piece[i].record)
        ensures (agent.id, piece[i].record) in PairsOf(agent.id, piece) && piece[i].record in RecordsOf(piece)
      {
        PieceItem(c, s, agent, piece, i);
      }
      NewPairs(c, agent, piece);
      assert Submitted(t.accepted) == Submitted(s.accepted) + batch;
    }
  }

  lemma PieceItem(c: Config, s: System, agent: Agent, piece: seq<Item>, i: nat)
    requires PieceOf(c, agent, piece) && TakesPiece(c.format, piece) && i < |piece|
    ensures Batch(c.format, agent, piece)[i] == Stored(c.format, agent, piece[i].record)
    ensures Explained(c, Received(c, s, agent, piece), Batch(c.format, agent, piece)[i])
    ensures agent == c.agent ==> piece[i].record in c.source && c.format.takes(piece[i].record)
    ensures (agent.id, piece[i].record) in PairsOf(agent.id, piece) && piece[i].record in RecordsOf(piece)
  {}

  lemma NewPairs(c: Config, agent: Agent, piece: seq<Item>)
    ensures forall p | p in PairsOf(agent.id, piece) :: p.0 == agent.id
    ensures forall r | r in RecordsOf(piece) :: exists i | 0 <= i < |piece| :: piece[i].record == r
  {}

  lemma StepKeepsHub(c: Config, s: System, m: Move, t: System)
    requires HubInv(c, s) && SentInv(c, s) && Step(c, s, m, t)
    ensures HubInv(c, t)
    ensures m.PostReply? && TakesPiece(c.format, s.pc.pieces[s.pc.next])
      ==> RecordsOf(s.pc.pieces[s.pc.next]) <= t.delivered
  {
    hide Received, Explained, Submitted, Splits, Collect, Commit, PassedOver, InFull;
    var u := s;
    match m {
      case PostReply =>
        ReceivedKeepsHub(c, s, c.agent, s.pc.pieces[s.pc.next]);
        u := Received(c, s, c.agent, s.pc.pieces[s.pc.next]);
      case Redeliver(piece) => ReceivedKeepsHub(c, s, c.agent, piece); u := t;
      case Others(agent, records) => ReceivedKeepsHub(c, s, agent, ItemsOf(c.format, agent.id, records)); u := t;
      case _ =>
    }
    forall e | e in Submitted(t.accepted) ensures Explained(c, t, e) { ExplainedGrows(c, u, t, e); }
  }

  /** One step of the whole system keeps the invariant. */
  lemma StepKeeps(c: Config, s: System, m: Move, t: System)
    requires Inv(c, s) && Step(c, s, m, t)
    ensures Inv(c, t)
  {
    hide HubInv, SentInv, CursorInv, Step;
    StepKeepsCursor(c, s, m, t);
    StepKeepsSent(c, s, m, t);
    StepKeepsHub(c, s, m, t);
  }

  lemma ReachableInv(c: Config, s: System)
    requires Reachable(c, s)
    ensures Inv(c, s)
  {
    hide Step;
    var s0 :| Initial(s0) && Reaches(Steps(c), s0, s);
    InvReaches(c, s0, s);
  }

  lemma InvReaches(c: Config, s: System, t: System)
    requires Inv(c, s) && Reaches(Steps(c), s, t)
    ensures Inv(c, t)
  {
    hide Inv, Step;
    var moves :| Path(Steps(c), s, moves, t);
    forall x, m, y | Inv(c, x) && Steps(c)(x, m, y) ensures Inv(c, y) { StepKeeps(c, x, m, y); }
    PathKeeps(Steps(c), (x: System) => Inv(c, x), s, moves, t);
  }

  // ---------------------------------------------------------------- the main results

  /** The hub's bounded store. */
  ghost function History(accepted: seq<seq<Entry>>): Store { AppendAll(map[], accepted) }

  /** The store's assumption holds of every run: if digests tell agents, IDs do. */
  lemma IdsTellAgents(c: Config, s: System)
    requires HubInv(c, s) && TellsAgents(c.format, s.pairs)
    ensures IdsDetermineAgent(Submitted(s.accepted))
  {
    hide Submitted;
    var all := Submitted(s.accepted);
    forall i, j | 0 <= i < |all| && 0 <= j < |all| && LogKeyOf(all[i]) == LogKeyOf(all[j])
      ensures all[i].agent == all[j].agent
    {
      var e, f := all[i], all[j];
      assert Explained(c, s, e) && Explained(c, s, f);
      var r :| e == Stored(c.format, e.agent, r) && (e.agent.id, r) in s.pairs;
      var q :| f == Stored(c.format, f.agent, q) && (f.agent.id, q) in s.pairs;
      assert (e.agent.id, r).0 == (f.agent.id, q).0;
    }
  }

  ghost predicate FromRecord(c: Config, s: System, e: Entry) {
    exists r :: r in s.delivered && e == Stored(c.format, c.agent, r)
  }

  /** The agent's list on the hub holds, in increasing order of time and ID, the greatest min(n, 10000) of what
      was accepted, each entry being the stored form of a delivered record. */
  lemma ListIsExact(c: Config, s: System)
    requires Reachable(c, s) && TellsAgents(c.format, s.pairs)
    ensures var list := ListOf(History(s.accepted), c.agent);
      && IsTop(list, KeysFor(Submitted(s.accepted), c.agent), CAPACITY)
      && forall i | 0 <= i < |list| :: FromRecord(c, s, list[i])
  {
    hide IsTop, SentInv, CursorInv, Reachable, AppendAll, TellsAgents, Submitted;
    ReachableInv(c, s);
    IdsTellAgents(c, s);
    StoreHoldsTheLatest(s.accepted, c.agent);
    var list := ListOf(History(s.accepted), c.agent);
    forall i | 0 <= i < |list| ensures FromRecord(c, s, list[i]) {
      assert list[i].agent == c.agent && list[i] in Submitted(s.accepted);
      assert Explained(c, s, list[i]);
    }
  }

  /** Everything between the first commit's cursor and the checkpoint has been accepted, unless a commit passed it
      over. */
  lemma CoveredIsDelivered(c: Config, s: System, r: Record)
    requires Inv(c, s) && r in c.source && r !in s.lost && s.disk.Some? && s.start < r.occurredAt <= s.disk.value
    ensures r in s.delivered && c.format.takes(r) && Stored(c.format, c.agent, r) in Submitted(s.accepted)
  {
    hide SentInv, Stored, Submitted, Explained;
    assert r in InWindow(c.source, s.start, s.disk.value);
  }

  ghost predicate OnceIn(list: seq<Entry>, e: Entry) {
    exists i | 0 <= i < |list| :: list[i] == e && forall j | 0 <= j < |list| && KeyOf(list[j]) == KeyOf(e) :: j == i
  }

  lemma TopHasOrIsFull(list: seq<Entry>, all: seq<Entry>, e: Entry, n: nat)
    requires IsTop(list, KeysFor(all, e.agent), n) && e in all
    ensures Distinct(list)
    ensures KeyOf(e) in Keys(list) || (|list| == n && Below(KeyOf(e), list))
  {
    IncreasingIsDistinct(list);
    IncreasingKeys(list);
    SubsetSize(Keys(list), KeysFor(all, e.agent));
    var i :| 0 <= i < |all| && all[i] == e;
  }

  /** End to end, over any crashes, partial deliveries, failed saves and repeated requests: a record between the
      first durable commit's cursor and the checkpoint, unless a commit passed it over, is on the hub exactly
      once, with its own content; or the hub's list is full and holds only later entries. */
  lemma DeliveredExactlyOnce(c: Config, s: System, r: Record)
    requires Reachable(c, s) && TellsAgents(c.format, s.pairs) && TellsRecords(c.format, c.agent.id, s.delivered)
    requires r in c.source && s.disk.Some? && s.start < r.occurredAt <= s.disk.value && r !in s.lost
    ensures var list := ListOf(History(s.accepted), c.agent); var e := Stored(c.format, c.agent, r);
      OnceIn(list, e) || (|list| == CAPACITY && Below(KeyOf(e), list))
  {
    hide IsTop, Inv, Reachable, KeyLess, History, TellsAgents, Submitted;
    ReachableInv(c, s);
    ListIsExact(c, s);
    CoveredIsDelivered(c, s, r);
    var list, e := ListOf(History(s.accepted), c.agent), Stored(c.format, c.agent, r);
    TopHasOrIsFull(list, Submitted(s.accepted), e, CAPACITY);
    if KeyOf(e) in Keys(list) {
      var i :| 0 <= i < |list| && KeyOf(list[i]) == KeyOf(e);
      var q :| q in s.delivered && list[i] == Stored(c.format, c.agent, q);
      assert q == r;
    }
  }

  /** In the format in use what is assumed of digests follows from collision freedom and clean records. */
  lemma ActualDigestsTell(c: Config, s: System, hash: Hash)
    requires Reachable(c, s) && c.format == Actual(hash) && CollisionFree(hash, s.pairs)
    requires 0 !in c.agent.id && forall r | r in c.source :: Clean(r)
    ensures TellsAgents(c.format, s.pairs) && TellsRecords(c.format, c.agent.id, s.delivered)
  {
    hide Reachable, CollisionFree, Actual, SentInv, CursorInv, Stored, Explained;
    ReachableInv(c, s);
    DigestsTell(hash, s.pairs, c.agent.id, s.delivered);
  }

  /** No commit passes anything over while every window is answered in full and fits one batch. */
  lemma NothingLost(c: Config, s: System)
    requires Reachable(c, s) && s.gaps == 0
    ensures s.lost == {}
  {
    hide HubInv, SentInv, Reachable;
    ReachableInv(c, s);
  }

  /** The checkpoint never passes a record the hub refuses, unless the record was not even collected: such a record
      stops the pipeline for good, with every later one behind it. */
  lemma RefusedRecordBlocks(c: Config, s: System, r: Record)
    requires Reachable(c, s) && r in c.source && !c.format.takes(r)
    requires s.disk.Some? && s.start < r.occurredAt && r !in s.lost
    ensures s.disk.value < r.occurredAt
  {
    hide Inv, Reachable, Submitted, Stored;
    ReachableInv(c, s);
    if r.occurredAt <= s.disk.value { CoveredIsDelivered(c, s, r); }
  }

  // ---------------------------------------------------------------- what a commit passes over

  /** Not delivered, in no request, and behind the checkpoint. */
  ghost predicate Left(c: Config, s: System, r: Record) {
    && r !in s.delivered && s.disk.Some? && r.occurredAt <= s.disk.value
    && (forall p | p in s.sent :: r !in RecordsOf(p))
    && (s.pc.Reporting? ==> forall k | 0 <= k < |s.pc.pieces| :: r !in RecordsOf(s.pc.pieces[k]))
    && (s.mem.pending != ZERO ==> r !in s.mem.batch)
  }

  lemma StepLeaves(c: Config, s: System, m: Move, t: System, r: Record)
    requires Inv(c, s) && Left(c, s, r) && Step(c, s, m, t)
    ensures Left(c, t, r)
  {
    hide HubInv, PieceOf, RecordsOf, PairsOf, Batch, TakesPiece, InFull, Filtered, Sort, Splits, Covered;
    match m
    case BeginReport(now, loads, raw, pieces) =>
      var (mem, got) := Collect(s.mem, s.disk, loads, now, raw);
      if Asks(s.mem, s.disk, loads, now, raw) { WindowIsAfter(raw.value, mem.cursor, now); }
      if pieces.Some? { SplitHolds(c, got.value, pieces.value, r); }
    case _ =>
  }

  lemma WindowIsAfter(raw: seq<Record>, since: Time, until: Time)
    ensures forall r | r in Window(raw, since, until) :: since < r.occurredAt
  {
    hide Window, Filtered;
    var dropped := WindowKeepsTheLatest(raw, since, until);
    forall r | r in Window(raw, since, until) ensures since < r.occurredAt {
      assert r in multiset(Window(raw, since, until)) && r in multiset(Filtered(raw, since, until));
    }
  }

  lemma SplitHolds(c: Config, batch: seq<Record>, pieces: seq<seq<Item>>, r: Record)
    requires Splits(c, batch, pieces) && r !in batch
    ensures forall k | 0 <= k < |pieces| :: r !in RecordsOf(pieces[k])
  {
    if batch != [] {
      var items := ItemsOf(c.format, c.agent.id, batch);
      assert Packer.Concat(pieces) == items;
      forall k, i | 0 <= k < |pieces| && 0 <= i < |pieces[k]| ensures pieces[k][i].record != r {
        ConcatHolds(pieces, pieces[k][i]);
        assert pieces[k][i] in items;
      }
    }
  }

  /** A record that a commit passed over without ever having sent it is never delivered, whatever happens later. */
  lemma LostForEver(c: Config, s: System, t: System, r: Record)
    requires Reachable(c, s) && Left(c, s, r) && Reaches(Steps(c), s, t)
    ensures r !in t.delivered
  {
    hide Inv, Step, Left, Reachable;
    ReachableInv(c, s);
    var moves :| Path(Steps(c), s, moves, t);
    forall x, m, y | Inv(c, x) && Left(c, x, r) && Steps(c)(x, m, y) ensures Inv(c, y) && Left(c, y, r) {
      StepKeeps(c, x, m, y);
      StepLeaves(c, x, m, y, r);
    }
    PathKeeps(Steps(c), (x: System) => Inv(c, x) && Left(c, x, r), s, moves, t);
    assert Left(c, t, r) ==> r !in t.delivered by { LeftIsUndelivered(c, t, r); }
  }

  lemma LeftIsUndelivered(c: Config, s: System, r: Record)
    ensures Left(c, s, r) ==> r !in s.delivered
  {}
}
