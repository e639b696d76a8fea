/** internal/telemetry/telemetry.go and the decision of `handleTelemetryReport` (internal/server/telemetry.go):
    samples arriving in any order, of which only the newest may drive alerts. */
module Telemetry {
  import opened Tenancy
  import opened Clock
  import opened Sorting

  datatype Sample = Sample(agent: Agent, recordedAt: Time, cpu: real, memory: real, disk: real, networkRx: nat,
      networkTx: nat)

  const BY_STAMP: Less<Sample> := (a: Sample, b: Sample) => a.recordedAt < b.recordedAt

  type Samples = map<Agent, seq<Sample>>

  function ListOf(m: Samples, agent: Agent): seq<Sample> { if agent in m then m[agent] else [] }

  // ---------------------------------------------------------------- the list of one agent

  /** Index of the sample with this time, or the length. */
  function Position(values: seq<Sample>, at: Time): (p: nat)
    ensures p <= |values| && (p < |values| ==> values[p].recordedAt == at)
    ensures forall i | 0 <= i < p :: values[i].recordedAt != at
  {
    if values == [] || values[0].recordedAt == at then 0 else 1 + Position(values[1..], at)
  }

  function Put(values: seq<Sample>, sample: Sample): seq<Sample> {
    var p := Position(values, sample.recordedAt);
    if p < |values| then values[p := sample] else values + [sample]
  }

  function Appended(values: seq<Sample>, sample: Sample): seq<Sample> { Sort(Put(values, sample), BY_STAMP) }

  function InRange(values: seq<Sample>, from: Time, to: Time): seq<Sample> {
    if values == [] then []
    else
      var v := values[|values| - 1];
      InRange(values[..|values| - 1], from, to) + if from <= v.recordedAt <= to then [v] else []
  }

  function HistoryOf(values: seq<Sample>, from: Time, to: Time, limit: nat): seq<Sample> {
    Latest(InRange(values, from, to), limit)
  }

  /** The list stands for this map from time to the last sample written for it. */
  ghost predicate Contains(values: seq<Sample>, book: map<Time, Sample>) {
    && (forall v | v in values :: v.recordedAt in book && book[v.recordedAt] == v)
    && (forall t | t in book :: book[t].recordedAt == t && book[t] in values)
  }

  ghost predicate Represents(values: seq<Sample>, book: map<Time, Sample>) {
    Increasing(values, BY_STAMP) && Contains(values, book)
  }

  lemma ByStampIsStrict()
    ensures StrictOrder(BY_STAMP)
  {}

  lemma TimesDiffer(values: seq<Sample>)
    requires Increasing(values, BY_STAMP)
    ensures forall i, j | 0 <= i < j < |values| :: values[i].recordedAt < values[j].recordedAt
  {
    forall i, j | 0 <= i < j < |values| ensures values[i].recordedAt < values[j].recordedAt {
      assert BY_STAMP(values[i], values[j]);
    }
  }

  lemma PutContains(values: seq<Sample>, sample: Sample, book: map<Time, Sample>)
    requires Represents(values, book)
    ensures Contains(Put(values, sample), book[sample.recordedAt := sample]) && NoTies(Put(values, sample), BY_STAMP)
  {
    TimesDiffer(values);
    var put := Put(values, sample);
    var p := Position(values, sample.recordedAt);
    assert put[p] == sample && forall i | 0 <= i < |values| && i != p :: put[i] == values[i];
    var after := book[sample.recordedAt := sample];
    forall t | t in after ensures after[t].recordedAt == t && after[t] in put {
      if t != sample.recordedAt {
        var i :| 0 <= i < |values| && values[i] == book[t];
        assert put[i] == values[i];
      }
    }
  }

  /** Replace-or-insert and sort write one entry of the map, and leave the list strictly increasing. */
  lemma AppendWritesTheMap(values: seq<Sample>, sample: Sample, book: map<Time, Sample>)
    requires Represents(values, book)
    ensures Represents(Appended(values, sample), book[sample.recordedAt := sample])
  {
    hide Put, Represents, Sort, NoTies;
    ByStampIsStrict();
    PutContains(values, sample, book);
    SortWithoutTies(Put(values, sample), BY_STAMP);
    SortSorts(Put(values, sample), BY_STAMP);
    SameContents(Put(values, sample), Appended(values, sample), book[sample.recordedAt := sample]);
  }

  lemma SameContents(s: seq<Sample>, t: seq<Sample>, book: map<Time, Sample>)
    requires Contains(s, book) && Increasing(t, BY_STAMP) && forall v :: v in t <==> v in s
    ensures Represents(t, book)
  {}

  /** The map fixes the list. */
  lemma ListIsDetermined(s: seq<Sample>, t: seq<Sample>, book: map<Time, Sample>)
    requires Represents(s, book) && Represents(t, book)
    ensures s == t
  {
    ByStampIsStrict();
    forall v ensures v in s <==> v in t {}
    SortIsUnique(s, t, BY_STAMP);
  }

  lemma {:induction false} InRangeIs(values: seq<Sample>, from: Time, to: Time)
    ensures forall v :: v in InRange(values, from, to) <==> v in values && from <= v.recordedAt <= to
    ensures Increasing(values, BY_STAMP) ==> Increasing(InRange(values, from, to), BY_STAMP)
  {
    if values != [] {
      var front, v := values[..|values| - 1], values[|values| - 1];
      InRangeIs(front, from, to);
      assert values == front + [v];
      if Increasing(values, BY_STAMP) {
        TimesDiffer(values);
        assert Increasing(front, BY_STAMP);
        SortedAppend(InRange(front, from, to), v, BY_STAMP);
      }
    }
  }

  function Times(book: map<Time, Sample>, from: Time, to: Time): set<Time> { set t | t in book && from <= t <= to }

  lemma LatestIsTail(all: seq<Sample>, n: nat)
    requires Increasing(all, BY_STAMP)
    ensures var r := Latest(all, n);
      && Increasing(r, BY_STAMP) && (forall v | v in r :: v in all)
      && forall u, v | u in all && u !in r && v in r :: u.recordedAt < v.recordedAt
  {
    hide Increasing;
    TimesDiffer(all);
    var r := Latest(all, n);
    var front := all[..|all| - |r|];
    assert all == front + r;
    IncreasingParts(front, r);
    forall u, v | u in all && u !in r && v in r ensures u.recordedAt < v.recordedAt { FrontIsEarlier(front, r, u, v); }
  }

  lemma IncreasingParts(front: seq<Sample>, r: seq<Sample>)
    requires Increasing(front + r, BY_STAMP)
    ensures Increasing(r, BY_STAMP)
  {
    forall i, j | 0 <= i < j < |r| ensures BY_STAMP(r[i], r[j]) {
      assert BY_STAMP((front + r)[|front| + i], (front + r)[|front| + j]);
    }
  }

  lemma FrontIsEarlier(front: seq<Sample>, r: seq<Sample>, u: Sample, v: Sample)
    requires Increasing(front + r, BY_STAMP) && u in front && v in r
    ensures u.recordedAt < v.recordedAt
  {
    var i :| 0 <= i < |front| && front[i] == u;
    var j :| 0 <= j < |r| && r[j] == v;
    assert BY_STAMP((front + r)[i], (front + r)[|front| + j]);
  }

  /** `History` returns exactly the latest `limit` entries of the map in the range, in order. */
  lemma HistoryIsTheLatest(values: seq<Sample>, book: map<Time, Sample>, from: Time, to: Time, limit: nat)
    requires Represents(values, book)
    ensures var r := HistoryOf(values, from, to, limit);
      && Increasing(r, BY_STAMP)
      && (forall v | v in r :: v.recordedAt in Times(book, from, to) && book[v.recordedAt] == v)
      && |r| == (if |Times(book, from, to)| < limit then |Times(book, from, to)| else limit)
      && (forall t, v | t in Times(book, from, to) && book[t] !in r && v in r :: t < v.recordedAt)
  {
    hide Latest, Increasing;
    var all := InRange(values, from, to);
    InRangeIs(values, from, to);
    LatestIsTail(all, limit);
    TimesDiffer(all);
    InRangeTimes(values, book, from, to);
    CountTimes(all);
    LatestLength(all, limit);
  }

  lemma InRangeTimes(values: seq<Sample>, book: map<Time, Sample>, from: Time, to: Time)
    requires Contains(values, book)
    ensures TimesIn(InRange(values, from, to)) == Times(book, from, to)
  {
    InRangeIs(values, from, to);
    var all := InRange(values, from, to);
    forall t | t in Times(book, from, to) ensures t in TimesIn(all) {
      var i :| 0 <= i < |all| && all[i] == book[t];
    }
  }

  lemma LatestLength<T>(s: seq<T>, n: nat)
    ensures |Latest(s, n)| == if |s| < n then |s| else n
  {}

  function TimesIn(s: seq<Sample>): set<Time> { set i | 0 <= i < |s| :: s[i].recordedAt }

  lemma {:induction false} CountTimes(s: seq<Sample>)
    requires forall i, j | 0 <= i < j < |s| :: s[i].recordedAt < s[j].recordedAt
    ensures |TimesIn(s)| == |s|
  {
    if s != [] {
      var front, v := s[..|s| - 1], s[|s| - 1];
      CountTimes(front);
      assert TimesIn(s) == TimesIn(front) + {v.recordedAt};
    }
  }
}
