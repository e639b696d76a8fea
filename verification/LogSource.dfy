/** internal/agent/log_collector_linux.go: `journalctl` is asked for whole seconds and for its last 1000 lines. What
    that means for the windows of the pipeline. */
module LogSource {
  import opened Wrappers
  import opened Clock
  import opened Sets
  import opened Runs
  import opened LogStore
  import opened LogRecord
  import opened LogProtocol
  import opened LogSafety
  import opened LogProgress

  /** `Time.Unix` */
  function WholeSecond(t: Time): Time { t - t % SECOND }

  /** The records the two options select, both ends included. */
  function Selected(source: set<Record>, since: Time, until: Time): set<Record> {
    set r | r in source && WholeSecond(since) <= r.occurredAt <= WholeSecond(until)
  }

  ghost predicate WithoutRepeats(raw: seq<Record>) { forall i, j | 0 <= i < j < |raw| :: raw[i] != raw[j] }

  function Elements(raw: seq<Record>): set<Record> { set r | r in raw }

  /** An answer: the latest `room` of the selected records. Lines the parser skips take up part of the 1000. */
  ghost predicate Answers(source: set<Record>, raw: seq<Record>, since: Time, until: Time, room: nat) {
    var selected := Selected(source, since, until);
    && room <= MAX_BATCH_ENTRIES && WithoutRepeats(raw) && Elements(raw) <= selected
    && |raw| == (if |selected| < room then |selected| else room)
    && forall r, q | r in selected && r !in raw && q in raw :: r.occurredAt <= q.occurredAt
  }

  lemma {:induction false} CountElements(raw: seq<Record>)
    requires WithoutRepeats(raw)
    ensures |Elements(raw)| == |raw|
  {
    if raw != [] {
      var n := |raw| - 1;
      CountElements(raw[..n]);
      assert Elements(raw) == Elements(raw[..n]) + {raw[n]};
      assert raw[n] !in raw[..n];
    }
  }

  /** What the collector keeps of an answer never exceeds a batch. */
  lemma {:induction false} FilteredIsShorter(raw: seq<Record>, since: Time, until: Time)
    ensures |Filtered(raw, since, until)| <= |raw|
  {
    if raw != [] { FilteredIsShorter(raw[..|raw| - 1], since, until); }
  }

  /** A window is answered in full exactly if no record of it lies in the second that is not over yet, and what lies
      after the cursor fits the lines. */
  lemma InFullExactlyWhen(source: set<Record>, raw: seq<Record>, since: Time, until: Time, room: nat)
    requires Answers(source, raw, since, until, room) && since < until
    ensures InFull(source, raw, since, until) <==>
      && (forall r | r in InWindow(source, since, until) :: r.occurredAt <= WholeSecond(until))
      && |InWindow(source, since, WholeSecond(until))| <= room
  {
    hide WholeSecond;
    var selected, wanted := Selected(source, since, until), InWindow(source, since, WholeSecond(until));
    assert WholeSecond(since) <= since && WholeSecond(until) <= until by {
      WholeSecondIsBefore(since);
      WholeSecondIsBefore(until);
    }
    CountElements(raw);
    FilteredIsShorter(raw, since, until);
    assert forall r :: r in raw <==> r in Elements(raw);
    SubsetSize(wanted, selected);
    SubsetSize(Elements(raw), selected);
    if wanted <= Elements(raw) {
      SubsetSize(wanted, Elements(raw));
      assert |wanted| <= room;
    } else {
      var r :| r in wanted && r !in raw;
      forall q | q in Elements(raw) ensures q in wanted { assert r.occurredAt <= q.occurredAt && q in selected; }
      SubsetSize(Elements(raw) + {r}, wanted);
      assert |wanted| > room && r in InWindow(source, since, until);
    }
  }

  lemma WholeSecondIsBefore(t: Time)
    ensures t - SECOND < WholeSecond(t) <= t
  {}

  /** A commit passes over what the batch in hand does not hold; a record that is in no request by then is never
      delivered: the next window starts behind it. */
  lemma PassedOverIsLost(c: Config, s: System, outcome: SaveOutcome, t: System, u: System, r: Record)
    requires Reachable(c, s) && Step(c, s, EndReport(outcome), t) && Reaches(Steps(c), t, u)
    requires r in PassedOver(c, s, t.disk) && r !in s.delivered && forall p | p in s.sent :: r !in RecordsOf(p)
    ensures r !in u.delivered
  {
    hide HubInv, CursorInv, Reaches, RecordsOf, PieceOf;
    ReachableInv(c, s);
    var s0 :| Initial(s0) && Reaches(Steps(c), s0, s);
    ReachesStep(Steps(c), s0, s, EndReport(outcome), t);
    LostForEver(c, t, u, r);
  }

  /** The failure is real: a record that is written in the second in which the collector asks, before it asks. */
  lemma UnfinishedSecondIsLost(c: Config, r: Record, since: Time, until: Time) returns (s: System)
    requires c.source == {r} && ZERO < since < r.occurredAt <= until && WholeSecond(until) < r.occurredAt
    ensures Answers(c.source, [], since, until, MAX_BATCH_ENTRIES)
    ensures Reachable(c, s) && s.disk == Some(until) && forall t | Reaches(Steps(c), s, t) :: r !in t.delivered
  {
    hide Inv, Reaches, Step, WholeSecond;
    assert Selected(c.source, since, until) == {};
    var s0;
    s0, s := EmptyWindowCommits(c, since, until);
    forall t | Reaches(Steps(c), s, t) ensures r !in t.delivered { LostForEver(c, s, t, r); }
  }
}
