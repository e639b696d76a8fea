/** internal/logstream/logstream.go: the bounded, de-duplicating history of each agent's log. */
module LogStore {
  import opened Wrappers
  import opened Text
  import opened Tenancy
  import opened Clock
  import opened Order
  import opened Sorting
  import opened Sets

  datatype Collector = Journald | File | WindowsEvent
  datatype Severity = Debug | Info | Warn | Failure | Critical

  datatype Entry = Entry(agent: Agent, id: Bytes, occurredAt: Time, collector: Collector, source: Bytes,
      severity: Severity, message: Bytes)

  datatype Key = Key(at: Time, id: Bytes)

  /** The key under which a scope stores an entry once. */
  datatype LogKey = LogKey(scope: Scope, key: Key)

  const CAPACITY: nat := 10000

  function KeyOf(e: Entry): Key { Key(e.occurredAt, e.id) }
  function LogKeyOf(e: Entry): LogKey { LogKey(e.agent.scope, KeyOf(e)) }

  predicate KeyLess(a: Key, b: Key) { a.at < b.at || (a.at == b.at && LexLess(a.id, b.id)) }

  const BY_KEY: Less<Entry> := (a: Entry, b: Entry) => KeyLess(KeyOf(a), KeyOf(b))

  type Store = map<Agent, seq<Entry>>

  function ListOf(m: Store, agent: Agent): seq<Entry> { if agent in m then m[agent] else [] }

  /** `existingKeys`: what any agent has stored. */
  ghost predicate Has(m: Store, k: LogKey) { exists a, i | a in m && 0 <= i < |m[a]| :: LogKeyOf(m[a][i]) == k }

  function Keys(s: seq<Entry>): set<Key> { set i | 0 <= i < |s| :: KeyOf(s[i]) }

  // ---------------------------------------------------------------- AppendLogs as a function

  /** What one round of the loop does with the lists and with the result. */
  ghost function Absorb(m: Store, batch: seq<Entry>): (r: (Store, seq<Entry>)) {
    if batch == [] then (m, [])
    else
      var (m1, stored) := Absorb(m, batch[..|batch| - 1]);
      var e := batch[|batch| - 1];
      if Has(m1, LogKeyOf(e)) then (m1, stored)
      else (m1[e.agent := ListOf(m1, e.agent) + [e]], stored + [e])
  }

  function Settled(s: seq<Entry>): seq<Entry> { Latest(Sort(s, BY_KEY), CAPACITY) }

  function AgentsOf(s: seq<Entry>): set<Agent> { set i | 0 <= i < |s| :: s[i].agent }

  ghost function Append(m: Store, batch: seq<Entry>): Store {
    var (m1, stored) := Absorb(m, batch);
    map a | a in m1 :: if a in AgentsOf(stored) then Settled(m1[a]) else m1[a]
  }

  ghost function AppendAll(m: Store, batches: seq<seq<Entry>>): Store {
    if batches == [] then m else Append(AppendAll(m, batches[..|batches| - 1]), batches[|batches| - 1])
  }

  /** Everything ever submitted. */
  function Submitted(batches: seq<seq<Entry>>): seq<Entry> {
    if batches == [] then [] else Submitted(batches[..|batches| - 1]) + batches[|batches| - 1]
  }

  function KeysFor(s: seq<Entry>, agent: Agent): set<Key> { set i | 0 <= i < |s| && s[i].agent == agent :: KeyOf(s[i]) }

  /** In one scope an ID and time belong to one agent. */
  ghost predicate IdsDetermineAgent(s: seq<Entry>) {
    forall i, j | 0 <= i < |s| && 0 <= j < |s| && LogKeyOf(s[i]) == LogKeyOf(s[j]) :: s[i].agent == s[j].agent
  }

  // ---------------------------------------------------------------- the greatest keys of a set

  ghost predicate Below(k: Key, s: seq<Entry>) { forall i | 0 <= i < |s| :: KeyLess(k, KeyOf(s[i])) }

  /** `s` lists, in increasing order, the greatest min(|all|, n) keys of `all`. */
  ghost predicate IsTop(s: seq<Entry>, all: set<Key>, n: nat) {
    && Increasing(s, BY_KEY)
    && Keys(s) <= all
    && |s| == (if |all| < n then |all| else n)
    && forall k | k in all && k !in Keys(s) :: Below(k, s)
  }

  /** Earlier, or at the same time with an ID that comes first. */
  ghost predicate Precedes(a: Key, b: Key) { a.at < b.at || (a.at == b.at && ComesFirst(a.id, b.id)) }

  /** `s` lists the latest min(|all|, n) of the keys, oldest first. */
  ghost predicate IsLatest(s: seq<Entry>, all: set<Key>, n: nat) {
    && (forall i, j | 0 <= i < j < |s| :: Precedes(KeyOf(s[i]), KeyOf(s[j])))
    && Keys(s) <= all
    && |s| == (if |all| < n then |all| else n)
    && forall k, i | k in all && k !in Keys(s) && 0 <= i < |s| :: Precedes(k, KeyOf(s[i]))
  }

  lemma LessExactlyWhen(a: Key, b: Key)
    ensures KeyLess(a, b) <==> Precedes(a, b)
  {
    hide LexLess, ComesFirst;
    LexLessExactlyWhen(a.id, b.id);
  }

  lemma TopIsLatest(s: seq<Entry>, all: set<Key>, n: nat)
    requires IsTop(s, all, n)
    ensures IsLatest(s, all, n)
  {
    hide KeyLess, Precedes;
    forall i, j | 0 <= i < j < |s| ensures Precedes(KeyOf(s[i]), KeyOf(s[j])) {
      assert BY_KEY(s[i], s[j]);
      LessExactlyWhen(KeyOf(s[i]), KeyOf(s[j]));
    }
    forall k, i | k in all && k !in Keys(s) && 0 <= i < |s| ensures Precedes(k, KeyOf(s[i])) {
      assert Below(k, s);
      LessExactlyWhen(k, KeyOf(s[i]));
    }
  }

  lemma ByKeyIsStrict()
    ensures StrictOrder(BY_KEY)
  {
    forall x: Entry ensures !BY_KEY(x, x) { LexTotal(x.id, x.id); }
    forall x: Entry, y: Entry, z: Entry | BY_KEY(x, y) && BY_KEY(y, z) ensures BY_KEY(x, z) {
      if LexLess(x.id, y.id) && LexLess(y.id, z.id) { LexTransitive(x.id, y.id, z.id); }
    }
    forall x: Entry, y: Entry, z: Entry | BY_KEY(x, z) ensures BY_KEY(x, y) || BY_KEY(y, z) {
      LexTotal(x.id, y.id);
      if LexLess(y.id, x.id) && LexLess(x.id, z.id) { LexTransitive(y.id, x.id, z.id); }
    }
  }

  lemma KeyOrder(a: Key, b: Key, c: Key)
    ensures !KeyLess(a, a) && (KeyLess(a, b) && KeyLess(b, c) ==> KeyLess(a, c))
    ensures a == b || KeyLess(a, b) || KeyLess(b, a)
  {
    LexTotal(a.id, a.id);
    LexTotal(a.id, b.id);
    if LexLess(a.id, b.id) && LexLess(b.id, c.id) { LexTransitive(a.id, b.id, c.id); }
  }

  lemma {:induction false} SizeOfKeys(s: seq<Entry>)
    requires forall i, j | 0 <= i < j < |s| :: KeyOf(s[i]) != KeyOf(s[j])
    ensures |Keys(s)| == |s|
  {
    if s != [] {
      var front, last := s[..|s| - 1], s[|s| - 1];
      SizeOfKeys(front);
      assert Keys(s) == Keys(front) + {KeyOf(last)};
      assert KeyOf(last) !in Keys(front);
    }
  }

  lemma IncreasingKeys(s: seq<Entry>)
    requires Increasing(s, BY_KEY)
    ensures |Keys(s)| == |s|
  {
    IncreasingIsDistinct(s);
    SizeOfKeys(s);
  }

  lemma TopSize(s: seq<Entry>, all: set<Key>, merged: seq<Entry>, more: set<Key>, n: nat)
    requires IsTop(s, all, n) && Increasing(merged, BY_KEY) && Keys(s) + more == Keys(merged)
    ensures |s| < n ==> all + more == Keys(merged)
    ensures |s| <= |merged| == |Keys(merged)| <= |all + more| && |s| <= n
  {
    hide KeyLess, Increasing;
    IncreasingKeys(s);
    IncreasingKeys(merged);
    SubsetSize(Keys(s), all);
    SubsetSize(Keys(s), Keys(merged));
    SubsetSize(Keys(merged), all + more);
  }

  lemma LatestIsTail(s: seq<Entry>, n: nat)
    requires Increasing(s, BY_KEY)
    ensures Increasing(Latest(s, n), BY_KEY) && Keys(Latest(s, n)) <= Keys(s)
    ensures forall k | k in Keys(s) && k !in Keys(Latest(s, n)) :: Below(k, Latest(s, n))
  {
    hide KeyLess;
    var t := Latest(s, n);
    var cut := |s| - |t|;
    assert forall i | 0 <= i < |t| :: t[i] == s[cut + i];
    assert forall p | cut <= p < |s| :: s[p] == t[p - cut];
    forall k | k in Keys(s) && k !in Keys(t) ensures Below(k, t) {
      var j :| 0 <= j < |s| && KeyOf(s[j]) == k;
      forall i | 0 <= i < |t| ensures KeyLess(k, KeyOf(t[i])) {
        assert BY_KEY(s[j], s[cut + i]);
      }
    }
  }

  /** A merged list whose greatest entries are kept still lists the greatest keys: an entry dropped before
      stays below everything kept, since the kept ones can only have moved up. */
  lemma TopOfMerge(s: seq<Entry>, all: set<Key>, merged: seq<Entry>, more: set<Key>, n: nat)
    requires IsTop(s, all, n) && Increasing(merged, BY_KEY)
    requires Keys(s) + more == Keys(merged)
    ensures IsTop(Latest(merged, n), all + more, n)
  {
    hide KeyLess, Increasing, Below;
    var t := Latest(merged, n);
    TopSize(s, all, merged, more, n);
    LatestIsTail(merged, n);
    forall k | k in all + more && k !in Keys(t) ensures Below(k, t) {
      if k !in Keys(merged) {
        assert k in all && k !in Keys(s);
        DroppedStaysBelow(s, merged, t, k, n);
      }
    }
  }

  lemma DroppedStaysBelow(s: seq<Entry>, merged: seq<Entry>, t: seq<Entry>, k: Key, n: nat)
    requires |s| == n && t == Latest(merged, n) && Increasing(merged, BY_KEY) && Increasing(s, BY_KEY)
    requires Keys(s) <= Keys(merged) && Below(k, s)
    ensures Below(k, t)
  {
    forall i | 0 <= i < |t| ensures KeyLess(k, KeyOf(t[i])) { DroppedIsBelow(s, merged, t, k, i, n); }
  }

  lemma OrderedIndex(s: seq<Entry>, i: nat, j: nat)
    requires Increasing(s, BY_KEY) && i < |s| && j < |s| && KeyLess(KeyOf(s[i]), KeyOf(s[j]))
    ensures i < j
  {
    hide KeyLess;
    assert j < i ==> BY_KEY(s[j], s[i]);
    KeyOrder(KeyOf(s[i]), KeyOf(s[j]), KeyOf(s[i]));
  }

  lemma GreaterIsKept(merged: seq<Entry>, t: seq<Entry>, i: nat, x: Key)
    requires |t| <= |merged| && t == merged[|merged| - |t|..] && Increasing(merged, BY_KEY)
    requires i < |t| && x in Keys(merged) && KeyLess(KeyOf(t[i]), x)
    ensures x in Keys(t)
  {
    hide KeyLess;
    var cut := |merged| - |t|;
    var p :| 0 <= p < |merged| && KeyOf(merged[p]) == x;
    OrderedIndex(merged, cut + i, p);
    assert t[p - cut] == merged[p];
  }

  lemma DroppedIsBelow(s: seq<Entry>, merged: seq<Entry>, t: seq<Entry>, k: Key, i: nat, n: nat)
    requires |s| == n && t == Latest(merged, n) && Increasing(merged, BY_KEY) && Increasing(s, BY_KEY)
    requires Keys(s) <= Keys(merged) && i < |t| && Below(k, s)
    ensures KeyLess(k, KeyOf(t[i]))
  {
    hide KeyLess, LexLess;
    var low := KeyOf(t[i]);
    var cut := |merged| - |t|;
    KeyOrder(k, low, k);
    if !KeyLess(k, low) {
      // every key of `s` is above `low`, hence kept; with `low` that is one too many
      forall x | x in Keys(s) ensures x in Keys(t) && x != low {
        var j :| 0 <= j < |s| && KeyOf(s[j]) == x;
        assert KeyLess(k, x);
        KeyOrder(low, k, x);
        KeyOrder(low, x, low);
        GreaterIsKept(merged, t, i, x);
      }
      IncreasingKeys(s);
      IncreasingTail(merged, cut);
      IncreasingKeys(t);
      SubsetSize(Keys(s) + {low}, Keys(t));
    }
  }

  lemma IncreasingTail(s: seq<Entry>, n: nat)
    requires n <= |s| && Increasing(s, BY_KEY)
    ensures Increasing(s[n..], BY_KEY)
  {}

  // ---------------------------------------------------------------- runs of AppendLogs

  ghost predicate Distinct(s: seq<Entry>) { forall i, j | 0 <= i < j < |s| :: KeyOf(s[i]) != KeyOf(s[j]) }

  /** Lists hold their agent's own entries, all of them once submitted. */
  ghost predicate Covers(m: Store, past: seq<Entry>) {
    forall a, i | a in m && 0 <= i < |m[a]| :: m[a][i].agent == a && m[a][i] in past
  }

  ghost predicate StoreInv(m: Store, past: seq<Entry>) {
    Covers(m, past) && forall a :: IsTop(ListOf(m, a), KeysFor(past, a), CAPACITY)
  }

  /** What `Absorb` does to one agent's list, when IDs determine agents. */
  lemma {:induction false} AbsorbOne(m: Store, batch: seq<Entry>, past: seq<Entry>, a: Agent)
    requires Covers(m, past) && IdsDetermineAgent(past + batch) && Distinct(ListOf(m, a))
    ensures var (m1, stored) := Absorb(m, batch);
      && Covers(m1, past + batch)
      && Distinct(ListOf(m1, a))
      && Keys(ListOf(m1, a)) == Keys(ListOf(m, a)) + KeysFor(batch, a)
      && (a !in AgentsOf(stored) ==> ListOf(m1, a) == ListOf(m, a))
      && AgentsOf(stored) <= m1.Keys
  {
    hide IdsDetermineAgent, Has, Distinct, Keys, KeysFor;
    if batch == [] {
      assert past + batch == past;
      KeysForNone(a);
    } else {
      var front, e := batch[..|batch| - 1], batch[|batch| - 1];
      assert past + batch == (past + front) + [e];
      PrefixDetermines(past + front, [e]);
      AbsorbOne(m, front, past, a);
      var (m1, stored) := Absorb(m, front);
      KeysForOne(batch, a);
      AbsorbEntry(m1, stored, e, past + front, a);
    }
  }

  lemma KeysForNone(a: Agent)
    ensures KeysFor([], a) == {}
  {}

  lemma KeysForOne(s: seq<Entry>, a: Agent)
    requires s != []
    ensures KeysFor(s, a) == KeysFor(s[..|s| - 1], a) + if s[|s| - 1].agent == a then {KeyOf(s[|s| - 1])} else {}
  {
    var front := s[..|s| - 1];
    assert forall i | 0 <= i < |front| :: front[i] == s[i];
  }

  lemma KeysOfOne(s: seq<Entry>, e: Entry)
    ensures Keys(s + [e]) == Keys(s) + {KeyOf(e)}
  {
    var t := s + [e];
    assert t[|s|] == e && forall i | 0 <= i < |s| :: t[i] == s[i];
  }

  lemma AbsorbEntry(m1: Store, stored: seq<Entry>, e: Entry, past: seq<Entry>, a: Agent)
    requires Covers(m1, past) && IdsDetermineAgent(past + [e]) && Distinct(ListOf(m1, a)) && AgentsOf(stored) <= m1.Keys
    ensures var (m2, stored') := if Has(m1, LogKeyOf(e)) then (m1, stored)
                                 else (m1[e.agent := ListOf(m1, e.agent) + [e]], stored + [e]);
      && Covers(m2, past + [e])
      && Distinct(ListOf(m2, a))
      && Keys(ListOf(m2, a)) == Keys(ListOf(m1, a)) + (if e.agent == a then {KeyOf(e)} else {})
      && (a !in AgentsOf(stored') ==> a !in AgentsOf(stored) && ListOf(m2, a) == ListOf(m1, a))
      && AgentsOf(stored') <= m2.Keys
  {
    if Has(m1, LogKeyOf(e)) {
      var b, i :| b in m1 && 0 <= i < |m1[b]| && LogKeyOf(m1[b][i]) == LogKeyOf(e);
      var j :| 0 <= j < |past| && past[j] == m1[b][i];
      assert (past + [e])[j] == m1[b][i] && (past + [e])[|past|] == e;
      assert b == e.agent;
      assert KeyOf(e) in Keys(ListOf(m1, b));
    } else {
      assert (stored + [e])[|stored|] == e;
      assert forall i | 0 <= i < |stored| :: (stored + [e])[i] == stored[i];
      NewKey(m1, e, a);
    }
  }

  lemma NewKey(m1: Store, e: Entry, a: Agent)
    requires !Has(m1, LogKeyOf(e)) && Distinct(ListOf(m1, a))
    requires forall i | 0 <= i < |ListOf(m1, a)| :: ListOf(m1, a)[i].agent == a
    ensures var m2 := m1[e.agent := ListOf(m1, e.agent) + [e]];
      Distinct(ListOf(m2, a)) && Keys(ListOf(m2, a)) == Keys(ListOf(m1, a)) + (if e.agent == a then {KeyOf(e)} else {})
  {
    if e.agent == a {
      var s := ListOf(m1, a);
      forall i | 0 <= i < |s| ensures KeyOf(s[i]) != KeyOf(e) {
        assert a in m1 && LogKeyOf(m1[a][i]) == LogKey(a.scope, KeyOf(s[i]));
      }
      KeysOfOne(s, e);
    }
  }

  lemma SortedList(s: seq<Entry>)
    requires Distinct(s)
    ensures Increasing(Sort(s, BY_KEY), BY_KEY) && Keys(Sort(s, BY_KEY)) == Keys(s)
    ensures forall e :: e in Sort(s, BY_KEY) <==> e in s
  {
    hide KeyLess, Sorted, Sort, Increasing;
    ByKeyIsStrict();
    SortSorts(s, BY_KEY);
    forall i, j | 0 <= i < j < |s| ensures BY_KEY(s[i], s[j]) || BY_KEY(s[j], s[i]) {
      KeyOrder(KeyOf(s[i]), KeyOf(s[j]), KeyOf(s[i]));
    }
    SortWithoutTies(s, BY_KEY);
    SameKeys(Sort(s, BY_KEY), s);
  }

  lemma SameKeys(t: seq<Entry>, s: seq<Entry>)
    requires forall e :: e in t <==> e in s
    ensures Keys(t) == Keys(s)
  {
    forall k ensures k in Keys(t) <==> k in Keys(s) {
      if k in Keys(t) { var i :| 0 <= i < |t| && KeyOf(t[i]) == k; assert t[i] in s; }
      if k in Keys(s) { var i :| 0 <= i < |s| && KeyOf(s[i]) == k; assert s[i] in t; }
    }
  }

  lemma IncreasingIsDistinct(s: seq<Entry>)
    requires Increasing(s, BY_KEY)
    ensures Distinct(s)
  {
    hide KeyLess;
    forall i, j | 0 <= i < j < |s| ensures KeyOf(s[i]) != KeyOf(s[j]) {
      assert BY_KEY(s[i], s[j]);
      KeyOrder(KeyOf(s[i]), KeyOf(s[j]), KeyOf(s[i]));
    }
  }

  /** One call keeps every agent's list at the greatest keys of everything submitted for it. */
  lemma AppendKeeps(m: Store, batch: seq<Entry>, past: seq<Entry>)
    requires StoreInv(m, past) && IdsDetermineAgent(past + batch)
    ensures StoreInv(Append(m, batch), past + batch)
  {
    hide KeyLess, IsTop, Absorb, Settled, IdsDetermineAgent;
    var (m1, stored) := Absorb(m, batch);
    forall a ensures IsTop(ListOf(Append(m, batch), a), KeysFor(past + batch, a), CAPACITY) {
      AppendKeepsOne(m, batch, past, a);
    }
    forall a, i | a in Append(m, batch) && 0 <= i < |Append(m, batch)[a]|
      ensures Append(m, batch)[a][i].agent == a && Append(m, batch)[a][i] in past + batch
    {
      TopIsDistinct(m, past, a);
      AbsorbOne(m, batch, past, a);
      SettledEntries(ListOf(m1, a), i);
    }
  }

  lemma TopIsDistinct(m: Store, past: seq<Entry>, a: Agent)
    requires StoreInv(m, past)
    ensures Distinct(ListOf(m, a))
  {
    assert IsTop(ListOf(m, a), KeysFor(past, a), CAPACITY);
    IncreasingIsDistinct(ListOf(m, a));
  }

  lemma SettledEntries(s: seq<Entry>, i: nat)
    requires Distinct(s)
    ensures i < |Settled(s)| ==> Settled(s)[i] in s
  {
    SortedList(s);
    if i < |Settled(s)| { assert Settled(s)[i] in Sort(s, BY_KEY); }
  }

  lemma AppendKeepsOne(m: Store, batch: seq<Entry>, past: seq<Entry>, a: Agent)
    requires StoreInv(m, past) && IdsDetermineAgent(past + batch)
    ensures IsTop(ListOf(Append(m, batch), a), KeysFor(past + batch, a), CAPACITY)
  {
    hide KeyLess, IsTop, Absorb, IdsDetermineAgent;
    TopIsDistinct(m, past, a);
    AbsorbOne(m, batch, past, a);
    var (m1, stored) := Absorb(m, batch);
    var s, merged := ListOf(m, a), ListOf(m1, a);
    KeysForConcat(past, batch, a);
    if a in AgentsOf(stored) {
      SortedList(merged);
      TopOfMerge(s, KeysFor(past, a), Sort(merged, BY_KEY), KeysFor(batch, a), CAPACITY);
    } else {
      TopKeys(s, KeysFor(past, a), CAPACITY);
      assert KeysFor(past, a) + KeysFor(batch, a) == KeysFor(past, a);
    }
  }

  lemma TopKeys(s: seq<Entry>, all: set<Key>, n: nat)
    requires IsTop(s, all, n)
    ensures Keys(s) <= all
  {}

  lemma KeysForConcat(a: seq<Entry>, b: seq<Entry>, agent: Agent)
    ensures KeysFor(a + b, agent) == KeysFor(a, agent) + KeysFor(b, agent)
  {
    forall k | k in KeysFor(a, agent) + KeysFor(b, agent) ensures k in KeysFor(a + b, agent) {
      if k in KeysFor(a, agent) {
        var i :| 0 <= i < |a| && a[i].agent == agent && KeyOf(a[i]) == k;
        assert (a + b)[i] == a[i];
      } else {
        var i :| 0 <= i < |b| && b[i].agent == agent && KeyOf(b[i]) == k;
        assert (a + b)[|a| + i] == b[i];
      }
    }
  }

  lemma PrefixDetermines(a: seq<Entry>, b: seq<Entry>)
    requires IdsDetermineAgent(a + b)
    ensures IdsDetermineAgent(a)
  {
    forall i, j | 0 <= i < |a| && 0 <= j < |a| && LogKeyOf(a[i]) == LogKeyOf(a[j]) ensures a[i].agent == a[j].agent {
      assert (a + b)[i] == a[i] && (a + b)[j] == a[j];
    }
  }

  /** The bounded store agrees with the unbounded set it stands for: after any calls, with evictions and
      re-submissions, each agent's list is the greatest min(n, 10000) of the distinct keys ever submitted for
      it, in strictly increasing order. */
  lemma {:induction false} StoreHoldsTheLatest(batches: seq<seq<Entry>>, agent: Agent)
    requires IdsDetermineAgent(Submitted(batches))
    ensures StoreInv(AppendAll(map[], batches), Submitted(batches))
    ensures IsTop(ListOf(AppendAll(map[], batches), agent), KeysFor(Submitted(batches), agent), CAPACITY)
    ensures IsLatest(ListOf(AppendAll(map[], batches), agent), KeysFor(Submitted(batches), agent), 10000)
  {
    hide IsTop, IsLatest, IdsDetermineAgent, Append;
    if batches == [] {
      EmptyStore();
    } else {
      var front, last := batches[..|batches| - 1], batches[|batches| - 1];
      PrefixDetermines(Submitted(front), last);
      StoreHoldsTheLatest(front, agent);
      AppendKeeps(AppendAll(map[], front), last, Submitted(front));
    }
    TopIsLatest(ListOf(AppendAll(map[], batches), agent), KeysFor(Submitted(batches), agent), CAPACITY);
  }

  lemma EmptyStore()
    ensures StoreInv(map[], [])
  {
    forall a ensures KeysFor([], a) == {} {}
  }

  // ---------------------------------------------------------------- what is new, and what stays

  /** Nothing with this entry's key is in the store or earlier in the batch. */
  ghost predicate New(m: Store, batch: seq<Entry>, i: nat)
    requires i < |batch|
  {
    !Has(m, LogKeyOf(batch[i])) && forall j | 0 <= j < i :: LogKeyOf(batch[j]) != LogKeyOf(batch[i])
  }

  lemma HasMore(m: Store, e: Entry, k: LogKey)
    ensures Has(m[e.agent := ListOf(m, e.agent) + [e]], k) <==> Has(m, k) || k == LogKeyOf(e)
  {
    var s, m2 := ListOf(m, e.agent), m[e.agent := ListOf(m, e.agent) + [e]];
    if Has(m2, k) {
      var a, i :| a in m2 && 0 <= i < |m2[a]| && LogKeyOf(m2[a][i]) == k;
      if a == e.agent && i < |s| { assert m2[a][i] == m[a][i]; }
    }
    if Has(m, k) {
      var a, i :| a in m && 0 <= i < |m[a]| && LogKeyOf(m[a][i]) == k;
      assert m2[a][i] == m[a][i];
    }
    assert m2[e.agent][|s|] == e;
  }

  lemma {:induction false} HasAfter(m: Store, batch: seq<Entry>, k: LogKey)
    ensures Has(Absorb(m, batch).0, k) <==> Has(m, k) || exists j | 0 <= j < |batch| :: LogKeyOf(batch[j]) == k
  {
    hide Has;
    if batch != [] {
      var n := |batch| - 1;
      HasAfter(m, batch[..n], k);
      HasMore(Absorb(m, batch[..n]).0, batch[n], k);
      assert forall j | 0 <= j < n :: batch[..n][j] == batch[j];
      if j :| 0 <= j < |batch| && LogKeyOf(batch[j]) == k && j < n { assert batch[..n][j] == batch[j]; }
    }
  }

  /** A call returns, for publication, exactly the new entries of the batch, in their order. */
  lemma {:induction false} ReturnedExactly(m: Store, batch: seq<Entry>) returns (at: seq<nat>)
    ensures |at| == |Absorb(m, batch).1|
    ensures forall k | 0 <= k < |at| :: at[k] < |batch| && Absorb(m, batch).1[k] == batch[at[k]]
    ensures forall k, l | 0 <= k < l < |at| :: at[k] < at[l]
    ensures forall i | 0 <= i < |batch| :: i in at <==> New(m, batch, i)
  {
    hide Has, New;
    at := [];
    if batch != [] {
      var n := |batch| - 1;
      at := ReturnedExactly(m, batch[..n]);
      NewInPrefix(m, batch);
      if !Has(Absorb(m, batch[..n]).0, LogKeyOf(batch[n])) { at := at + [n]; }
    }
  }

  lemma NewInPrefix(m: Store, batch: seq<Entry>)
    requires batch != []
    ensures var n := |batch| - 1;
      && (forall i | 0 <= i < n :: batch[..n][i] == batch[i] && New(m, batch[..n], i) == New(m, batch, i))
      && (New(m, batch, n) <==> !Has(Absorb(m, batch[..n]).0, LogKeyOf(batch[n])))
  {
    hide Has, Absorb;
    var n := |batch| - 1;
    HasAfter(m, batch[..n], LogKeyOf(batch[n]));
    assert forall j | 0 <= j < n :: batch[..n][j] == batch[j];
    if j :| 0 <= j < n && LogKeyOf(batch[j]) == LogKeyOf(batch[n]) { assert batch[..n][j] == batch[j]; }
  }

  lemma {:induction false} AbsorbKeeps(m: Store, batch: seq<Entry>, a: Agent)
    ensures ListOf(m, a) <= ListOf(Absorb(m, batch).0, a)
    ensures forall e | e in ListOf(Absorb(m, batch).0, a) :: e in ListOf(m, a) || e in Absorb(m, batch).1
  {
    hide Has;
    if batch != [] { AbsorbKeeps(m, batch[..|batch| - 1], a); }
  }

  /** No stored entry is altered by a later one: as long as its key is listed it stays as it was first taken, and what
      else is listed is from this batch. */
  lemma EntriesStay(m: Store, batch: seq<Entry>, past: seq<Entry>, a: Agent, e: Entry)
    requires StoreInv(m, past) && IdsDetermineAgent(past + batch)
    ensures e in ListOf(m, a) && KeyOf(e) in Keys(ListOf(Append(m, batch), a)) ==> e in ListOf(Append(m, batch), a)
    ensures e in ListOf(Append(m, batch), a) ==> e in ListOf(m, a) || e in Absorb(m, batch).1
  {
    hide KeyLess, IsTop, Absorb, IdsDetermineAgent, Covers;
    TopIsDistinct(m, past, a);
    AbsorbOne(m, batch, past, a);
    AbsorbKeeps(m, batch, a);
    var merged, after := ListOf(Absorb(m, batch).0, a), ListOf(Append(m, batch), a);
    LatestOfSorted(merged);
    if e in ListOf(m, a) && KeyOf(e) in Keys(after) {
      var i :| 0 <= i < |after| && KeyOf(after[i]) == KeyOf(e);
      assert after[i] in merged && e in merged;
      SameEntry(merged, e, after[i]);
    }
  }

  lemma SameEntry(s: seq<Entry>, e: Entry, f: Entry)
    requires Distinct(s) && e in s && f in s && KeyOf(e) == KeyOf(f)
    ensures e == f
  {
    var i :| 0 <= i < |s| && s[i] == e;
    var j :| 0 <= j < |s| && s[j] == f;
    assert i < j || j < i || i == j;
  }

  lemma LatestOfSorted(s: seq<Entry>)
    requires Distinct(s)
    ensures forall e | e in Settled(s) :: e in s
  {
    hide Sort;
    SortedList(s);
  }

  /** The description fixes the list of keys. */
  lemma TopIsUnique(s: seq<Entry>, t: seq<Entry>, all: set<Key>, n: nat)
    requires IsTop(s, all, n) && IsTop(t, all, n)
    ensures Keys(s) == Keys(t)
  {
    hide KeyLess;
    IncreasingKeys(s);
    IncreasingKeys(t);
    if k :| k in Keys(s) && k !in Keys(t) {
      if Keys(t) <= Keys(s) {
        SubsetSize(Keys(t) + {k}, Keys(s));
      } else {
        var l :| l in Keys(t) && l !in Keys(s);
        var i :| 0 <= i < |t| && KeyOf(t[i]) == l;
        var j :| 0 <= j < |s| && KeyOf(s[j]) == k;
        assert Below(k, t) && Below(l, s);
        KeyOrder(k, l, k);
      }
    } else {
      SubsetSize(Keys(s), Keys(t));
    }
  }

  /** That IDs tell agents is needed: in a store that is right so far, an entry whose key another agent of the scope
      already holds is dropped, and its own agent's list is then right exactly if it is full of later keys. */
  lemma SharedKeyIsLost(m: Store, past: seq<Entry>, e: Entry, other: Agent)
    requires StoreInv(m, past) && other.scope == e.agent.scope && KeyOf(e) in Keys(ListOf(m, other))
    requires KeyOf(e) !in KeysFor(past, e.agent)
    ensures var list := ListOf(Append(m, [e]), e.agent);
      && list == ListOf(m, e.agent)
      && (IsTop(list, KeysFor(past + [e], e.agent), CAPACITY) <==> |list| == CAPACITY && Below(KeyOf(e), list))
  {
    hide KeyLess, Increasing, Below;
    var i :| 0 <= i < |ListOf(m, other)| && KeyOf(ListOf(m, other)[i]) == KeyOf(e);
    assert LogKeyOf(m[other][i]) == LogKeyOf(e);
    assert [e][..0] == [] && Absorb(m, [e]) == (m, []);
    NoAgents();
    assert Append(m, [e]) == m;
    KeysForConcat(past, [e], e.agent);
    KeysForOne([e], e.agent);
    var s, all := ListOf(m, e.agent), KeysFor(past, e.agent);
    assert IsTop(s, all, CAPACITY);
    assert KeysFor(past + [e], e.agent) == all + {KeyOf(e)};
  }

  /** It takes two submissions: the second agent's entry is nowhere. */
  lemma SharedKeyInstance(e: Entry, other: Agent)
    requires other.scope == e.agent.scope && other != e.agent
    ensures var batches := [[e.(agent := other)], [e]];
      ListOf(AppendAll(map[], batches), e.agent) == [] && KeysFor(Submitted(batches), e.agent) == {KeyOf(e)}
  {
    hide KeyLess, Increasing, Below, Append;
    var first, batches := [e.(agent := other)], [[e.(agent := other)], [e]];
    assert batches[..1] == [first] && [first][..0] == [] && [] + first == first;
    var m := AppendAll(map[], [first]);
    assert Submitted([first]) == first && Submitted(batches) == first + [e];
    StoreHoldsTheLatest([first], other);
    StoreHoldsTheLatest([first], e.agent);
    KeysForOne(first, other);
    KeysForOne(first, e.agent);
    KeysForOne(first + [e], e.agent);
    assert (first + [e])[..1] == first && first[..0] == [];
    KeysForNone(other);
    KeysForNone(e.agent);
    assert KeyOf(e) in Keys(ListOf(m, other)) by { OneKey(ListOf(m, other), KeyOf(e)); }
    SharedKeyIsLost(m, first, e, other);
    assert AppendAll(map[], batches) == Append(m, [e]);
  }

  lemma OneKey(s: seq<Entry>, k: Key)
    requires Keys(s) <= {k} && |s| == 1
    ensures k in Keys(s)
  {
    assert KeyOf(s[0]) in Keys(s);
  }

  // ---------------------------------------------------------------- search

  /** The remaining filters of a query. */
  type Filter = Entry -> bool

  function Matching(s: seq<Entry>, from: Time, to: Time, filter: Filter): seq<Entry> {
    if s == [] then []
    else
      var e := s[|s| - 1];
      Matching(s[..|s| - 1], from, to, filter) + if from <= e.occurredAt <= to && filter(e) then [e] else []
  }

  ghost predicate Chosen(r: seq<Entry>, s: seq<Entry>, from: Time, to: Time, filter: Filter) {
    forall e :: e in r <==> e in s && from <= e.occurredAt <= to && filter(e)
  }

  lemma {:induction false} MatchingIsChosen(s: seq<Entry>, from: Time, to: Time, filter: Filter)
    ensures Chosen(Matching(s, from, to, filter), s, from, to, filter)
  {
    if s != [] {
      var front, e := s[..|s| - 1], s[|s| - 1];
      MatchingIsChosen(front, from, to, filter);
      assert s == front + [e];
    }
  }

  lemma {:induction false} MatchingIsIncreasing(s: seq<Entry>, from: Time, to: Time, filter: Filter)
    requires Increasing(s, BY_KEY)
    ensures Increasing(Matching(s, from, to, filter), BY_KEY)
  {
    hide KeyLess;
    if s != [] {
      var front, e := s[..|s| - 1], s[|s| - 1];
      IncreasingPrefix(s, |s| - 1);
      MatchingIsIncreasing(front, from, to, filter);
      MatchingIsChosen(front, from, to, filter);
      var r := Matching(front, from, to, filter);
      forall i | 0 <= i < |r| ensures BY_KEY(r[i], e) {
        assert r[i] in r && r[i] in front;
        var j :| 0 <= j < |front| && front[j] == r[i];
        assert BY_KEY(s[j], s[|s| - 1]);
      }
    }
  }

  lemma IncreasingPrefix(s: seq<Entry>, n: nat)
    requires n <= |s| && Increasing(s, BY_KEY)
    ensures Increasing(s[..n], BY_KEY)
  {}

  /** On any store that calls of AppendLogs lead to, a search returns the newest `limit` of the agent's stored
      entries that match, in strictly increasing order. */
  lemma SearchFindsTheNewest(s: seq<Entry>, from: Time, to: Time, filter: Filter, limit: nat)
    requires Increasing(s, BY_KEY)
    ensures var matching := Matching(s, from, to, filter);
      && Chosen(matching, s, from, to, filter) && IsTop(Latest(Sort(matching, BY_KEY), limit), Keys(matching), limit)
      && IsLatest(Latest(Sort(matching, BY_KEY), limit), Keys(matching), limit)
  {
    hide KeyLess, Increasing, Below, IsLatest;
    var matching := Matching(s, from, to, filter);
    MatchingIsChosen(s, from, to, filter);
    MatchingIsIncreasing(s, from, to, filter);
    ByKeyIsStrict();
    IncreasingIsSorted(matching, BY_KEY);
    SortedIsFixed(matching, BY_KEY);
    LatestIsTail(matching, limit);
    IncreasingKeys(matching);
    TopIsLatest(Latest(matching, limit), Keys(matching), limit);
  }

  // ---------------------------------------------------------------- the store

  ghost predicate Indexes(known: set<LogKey>, m: Store) { forall k :: k in known <==> Has(m, k) }

  lemma Indexed(known: set<LogKey>, m: Store, k: LogKey)
    requires Indexes(known, m)
    ensures k in known <==> Has(m, k)
  {}

  lemma IndexesMore(known: set<LogKey>, m: Store, e: Entry)
    requires Indexes(known, m)
    ensures Indexes(known + {LogKeyOf(e)}, m[e.agent := ListOf(m, e.agent) + [e]])
  {
    var s := ListOf(m, e.agent);
    var m2 := m[e.agent := s + [e]];
    forall k ensures Has(m2, k) <==> Has(m, k) || k == LogKeyOf(e) {
      if Has(m2, k) {
        var a, i :| a in m2 && 0 <= i < |m2[a]| && LogKeyOf(m2[a][i]) == k;
        if a == e.agent && i < |s| { assert m2[a][i] == m[a][i]; }
      }
      if Has(m, k) {
        var a, i :| a in m && 0 <= i < |m[a]| && LogKeyOf(m[a][i]) == k;
        assert m2[a][i] == m[a][i];
      }
      assert m2[e.agent][|s|] == e;
    }
  }

  class MemoryStore {
    var entries: Store

    constructor ()
      ensures entries == map[]
    {
      entries := map[];
    }

    method ExistingKeys() returns (known: set<LogKey>)
      ensures Indexes(known, entries)
    {
      known := {};
      var todo := entries.Keys;
      while todo != {}
        invariant todo <= entries.Keys
        invariant forall a, i | a in entries.Keys - todo && 0 <= i < |entries[a]| :: LogKeyOf(entries[a][i]) in known
        invariant forall k | k in known :: Has(entries, k)
      {
        var agent :| agent in todo;
        var values := entries[agent];
        for n := 0 to |values|
          invariant forall i | 0 <= i < n :: LogKeyOf(values[i]) in known
          invariant forall a, i | a in entries.Keys - todo && 0 <= i < |entries[a]| :: LogKeyOf(entries[a][i]) in known
          invariant forall k | k in known :: Has(entries, k)
        {
          known := known + {LogKeyOf(values[n])};
        }
        todo := todo - {agent};
      }
    }

    method SearchLogs(agent: Agent, from: Time, to: Time, filter: Filter, limit: nat) returns (r: Result<seq<Entry>>)
      ensures r == if agent.scope.Valid()
        then Ok(Latest(Sort(Matching(ListOf(entries, agent), from, to, filter), BY_KEY), limit))
                   else Err(ErrInvalidScope)
    {
      hide Sort, ValidId;
      if !agent.scope.Valid() { return Err(ErrInvalidScope); }
      var values := ListOf(entries, agent);
      var result: seq<Entry> := [];
      for n := 0 to |values|
        invariant result == Matching(values[..n], from, to, filter)
      {
        assert values[..n + 1][..n] == values[..n];
        if values[n].occurredAt < from || values[n].occurredAt > to { continue; }
        if !filter(values[n]) { continue; }
        result := result + [values[n]];
      }
      assert values[..|values|] == values;
      result := Sort(result, BY_KEY);
      if |result| > limit { result := result[|result| - limit..]; }
      return Ok(result);
    }

    /** Sorts and cuts the lists that grew. */
    method Settle(affected: set<Agent>)
      requires affected <= entries.Keys
      modifies this
      ensures entries == map a | a in old(entries) ::
        if a in affected then Settled(old(entries)[a]) else old(entries)[a]
    {
      hide Settled;
      var todo := affected;
      while todo != {}
        invariant todo <= affected && entries.Keys == old(entries).Keys
        invariant forall a | a in old(entries) ::
          entries[a] == if a in affected && a !in todo then Settled(old(entries)[a]) else old(entries)[a]
      {
        var agent :| agent in todo;
        entries := entries[agent := Settled(entries[agent])];
        todo := todo - {agent};
      }
    }

    method AppendLogs(batch: seq<Entry>) returns (r: Result<seq<Entry>>)
      modifies this
      ensures r.Ok? <==> forall i | 0 <= i < |batch| :: batch[i].agent.Valid()
      ensures r.Err? ==> r.error == ErrInvalidScope && entries == old(entries)
      ensures r.Ok? ==> r.value == Absorb(old(entries), batch).1 && entries == Append(old(entries), batch)
    {
      hide KeyLess, Settled, Has, Indexes, ValidId, ListOf, AgentsOf;
      for n := 0 to |batch|
        invariant forall i | 0 <= i < n :: batch[i].agent.Valid()
      {
        if !batch[n].agent.Valid() { return Err(ErrInvalidScope); }
      }
      var known := ExistingKeys();
      var stored: seq<Entry>, affected := [], {};
      assert AgentsOf(stored) == affected by { NoAgents(); }
      for n := 0 to |batch|
        invariant Absorb(old(entries), batch[..n]) == (entries, stored)
        invariant Indexes(known, entries)
        invariant affected == AgentsOf(stored) && affected <= entries.Keys
      {
        var e := batch[n];
        assert batch[..n + 1][..n] == batch[..n];
        assert LogKeyOf(e) in known <==> Has(entries, LogKeyOf(e)) by { Indexed(known, entries, LogKeyOf(e)); }
        if LogKeyOf(e) !in known {
          IndexesMore(known, entries, e);
          AgentsOfOne(stored, e);
          known := known + {LogKeyOf(e)};
          entries := entries[e.agent := ListOf(entries, e.agent) + [e]];
          stored := stored + [e];
          affected := affected + {e.agent};
        }
      }
      assert batch[..|batch|] == batch;
      Settle(affected);
      return Ok(stored);
    }
  }

  // ---------------------------------------------------------------- ingest

  /** `normalizeCollector` */
  function NormalCollector(value: Bytes): Option<Collector> {
    var name := TrimSpace(value);
    if Reads(name, "journald") then Some(Journald)
    else if Reads(name, "file") then Some(File)
    else if Reads(name, "windows_event") || Reads(name, "windows-event") || Reads(name, "eventlog") then
      Some(WindowsEvent)
    else None
  }

  /** `normalizeSeverity` */
  function NormalSeverity(value: Bytes): Option<Severity> {
    var name := TrimSpace(value);
    if Reads(name, "debug") then Some(Debug)
    else if Reads(name, "info") || Reads(name, "information") then Some(Info)
    else if Reads(name, "warn") || Reads(name, "warning") then Some(Warn)
    else if Reads(name, "error") || Reads(name, "err") then Some(Failure)
    else if Reads(name, "critical") || Reads(name, "fatal") then Some(Critical)
    else None
  }

  /** An entry of a request body, its collector and severity as normalised: None for a spelling that is not known. */
  datatype Candidate = Candidate(
    id: Bytes, occurredAt: Time, collector: Option<Collector>, source: Bytes, severity: Option<Severity>,
      message: Bytes)

  const MAX_BATCH_ENTRIES: nat := 1000
  const SOURCE_LIMIT: nat := 512
  const TEXT_LIMIT: nat := 64 * 1024

  predicate Admissible(c: Candidate) {
    && c.occurredAt != ZERO && c.collector.Some? && c.severity.Some?
    && 0 < |TrimSpace(c.source)| <= SOURCE_LIMIT && 0 < |TrimSpace(c.message)| <= TEXT_LIMIT
    && (TrimSpace(c.id) == [] || HexId(TrimSpace(c.id)))
  }

  predicate Takes(agent: Agent, batch: seq<Candidate>) {
    agent.Valid() && 0 < |batch| <= MAX_BATCH_ENTRIES && forall i | 0 <= i < |batch| :: Admissible(batch[i])
  }

  /** Why one entry fails its request: what it says, or that no ID could be drawn for it. */
  function RefusalOf(c: Candidate, drawn: Result<Bytes>): Option<Error> {
    if !Admissible(c) then Some(ErrInvalidLogs)
    else if TrimSpace(c.id) == [] && drawn.Err? then Some(drawn.error)
    else None
  }

  function EntryOf(agent: Agent, c: Candidate, drawn: Result<Bytes>): Entry
    requires c.collector.Some? && c.severity.Some?
  {
    var id := if TrimSpace(c.id) == [] && drawn.Ok? then drawn.value else TrimSpace(c.id);
    Entry(Agent(TrimSpace(agent.id), agent.scope), id, c.occurredAt, c.collector.value, TrimSpace(c.source),
          c.severity.value, TrimSpace(c.message))
  }

  function EntriesOf(agent: Agent, batch: seq<Candidate>, drawn: seq<Result<Bytes>>): (r: seq<Entry>)
    requires |drawn| == |batch| && forall i | 0 <= i < |batch| :: batch[i].collector.Some? && batch[i].severity.Some?
    ensures |r| == |batch| && forall i | 0 <= i < |r| :: r[i] == EntryOf(agent, batch[i], drawn[i])
  {
    seq(|batch|, i requires 0 <= i < |batch| => EntryOf(agent, batch[i], drawn[i]))
  }

  /** Why an entry of a request is refused, if it is, and what is stored of it otherwise. */
  lemma IngestedExactly(agent: Agent, c: Candidate, drawn: Result<Bytes>)
    ensures var (id, source, message) := (TrimSpace(c.id), TrimSpace(c.source), TrimSpace(c.message));
      RefusalOf(c, drawn) ==
        if c.occurredAt == ZERO || c.collector == None || c.severity == None
          || source == [] || |source| > 512 || message == [] || |message| > 65536
          || (id != [] && (|id| != 32 || exists b | b in id :: !('0' as int <= b <= '9' as int)
                                                                && !('a' as int <= b <= 'f' as int)))
        then Some(ErrInvalidLogs)
        else if id == [] && drawn.Err? then Some(drawn.error)
        else None
    ensures RefusalOf(c, drawn).None? ==>
      var e := EntryOf(agent, c, drawn);
      && e.agent == Agent(TrimSpace(agent.id), agent.scope) && e.occurredAt == c.occurredAt
      && (if TrimSpace(c.id) == [] then Ok(e.id) == drawn else e.id == TrimSpace(c.id))
      && Some(e.collector) == c.collector && Some(e.severity) == c.severity
      && e.source == TrimSpace(c.source) && e.message == TrimSpace(c.message)
  {
    hide TrimSpace;
  }

  class Service {
    const store: MemoryStore

    constructor (store: MemoryStore)
      ensures this.store == store
    {
      this.store := store;
    }

    /** `drawn[i]` is what the random source answers for an entry without an ID. All entries are checked, the first
        refusal deciding, before any is stored; `published` goes to the live subscribers: what was new to the store. */
    method Ingest(agent: Agent, batch: seq<Candidate>, drawn: seq<Result<Bytes>>)
        returns (r: Result<()>, published: seq<Entry>)
      requires |drawn| == |batch|
      modifies store
      ensures r.Ok? <==> Takes(agent, batch) && forall i | 0 <= i < |batch| :: RefusalOf(batch[i], drawn[i]).None?
      ensures !agent.Valid() ==> r == Err(ErrInvalidScope)
      ensures agent.Valid() && !(0 < |batch| <= MAX_BATCH_ENTRIES) ==> r == Err(ErrInvalidLogs)
      ensures agent.Valid() && 0 < |batch| <= MAX_BATCH_ENTRIES ==>
        forall n | 0 <= n < |batch| && RefusalOf(batch[n], drawn[n]).Some?
                   && forall i | 0 <= i < n :: RefusalOf(batch[i], drawn[i]).None? ::
          r == Err(RefusalOf(batch[n], drawn[n]).value)
      ensures r.Err? ==> store.entries == old(store.entries) && published == []
      ensures r.Ok? ==>
        && store.entries == Append(old(store.entries), EntriesOf(agent, batch, drawn))
        && published == Absorb(old(store.entries), EntriesOf(agent, batch, drawn)).1
    {
      hide TrimSpace, ValidId, HexId, Append, Absorb;
      published := [];
      if !agent.Valid() { return Err(ErrInvalidScope), published; }
      if |batch| == 0 || |batch| > MAX_BATCH_ENTRIES { return Err(ErrInvalidLogs), published; }
      var entries: seq<Entry> := [];
      for n := 0 to |batch|
        invariant forall i | 0 <= i < n :: RefusalOf(batch[i], drawn[i]).None?
        invariant |entries| == n && forall i | 0 <= i < n :: entries[i] == EntryOf(agent, batch[i], drawn[i])
      {
        if !Admissible(batch[n]) { return Err(ErrInvalidLogs), published; }
        if TrimSpace(batch[n].id) == [] && drawn[n].Err? { return Err(drawn[n].error), published; }
        entries := entries + [EntryOf(agent, batch[n], drawn[n])];
      }
      assert entries == EntriesOf(agent, batch, drawn);
      TrimmedAgentIsValid(agent);
      var stored := store.AppendLogs(entries);
      assert stored.Ok?;
      return Ok(()), stored.value;
    }
  }

  lemma NoAgents()
    ensures AgentsOf([]) == {}
  {}

  lemma AgentsOfOne(s: seq<Entry>, e: Entry)
    ensures AgentsOf(s + [e]) == AgentsOf(s) + {e.agent}
  {
    var t := s + [e];
    assert t[|s|] == e && forall i | 0 <= i < |s| :: t[i] == s[i];
  }
}
