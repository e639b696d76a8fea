/** internal/ratelimit/ratelimit.go: a sliding window that forgets in place, against the full history of calls. */
module RateLimiter {
  import opened Text
  import opened Clock
  import opened Sets

  /** Attempts after the cutoff, in order. */
  function After(s: seq<Time>, cutoff: Time): seq<Time> {
    if s == [] then []
    else After(s[..|s| - 1], cutoff) + if s[|s| - 1] > cutoff then [s[|s| - 1]] else []
  }

  type Attempts = map<Bytes, seq<Time>>

  function Of(m: Attempts, key: Bytes): seq<Time> { if key in m then m[key] else [] }

  datatype Limits = Limits(max: int, window: int)

  /** One call of `Allow`. */
  function Step(l: Limits, m: Attempts, key: Bytes, now: Time): (Attempts, bool) {
    var kept := After(Of(m, key), now - l.window);
    if |kept| >= l.max then (m[key := kept], false) else (m[key := kept + [now]], true)
  }

  // ---------------------------------------------------------------- the full history

  datatype Call = Call(key: Bytes, now: Time)

  function StateAfter(l: Limits, calls: seq<Call>): Attempts {
    if calls == [] then map[]
    else var c := calls[|calls| - 1]; Step(l, StateAfter(l, calls[..|calls| - 1]), c.key, c.now).0
  }

  /** The limiter's answer to the last of the calls. */
  function Answer(l: Limits, calls: seq<Call>): bool
    requires calls != []
  {
    var c := calls[|calls| - 1];
    Step(l, StateAfter(l, calls[..|calls| - 1]), c.key, c.now).1
  }

  // ---------------------------------------------------------------- what the limiter remembers

  /** Call `i` was one for the key and was let through. */
  predicate Granted(l: Limits, calls: seq<Call>, key: Bytes, i: nat)
    requires i < |calls|
  {
    calls[i].key == key && Answer(l, calls[..i + 1])
  }

  function Cutoff(l: Limits, c: Call): Time { c.now - l.window }

  /** The granted calls that lie after every cutoff used for the key since. */
  function Survivors(l: Limits, calls: seq<Call>, key: Bytes): (r: set<nat>)
    ensures forall i | i in r :: i < |calls|
  {
    set i: nat | i < |calls| && Granted(l, calls, key, i)
      && forall j | i < j < |calls| && calls[j].key == key :: calls[i].now > Cutoff(l, calls[j])
  }

  /** The granted calls that lie after the cutoff of the last call, whatever has been pruned in between. */
  function Window(l: Limits, calls: seq<Call>, key: Bytes): set<nat>
    requires calls != []
  {
    set i: nat | i < |calls| - 1 && Granted(l, calls, key, i) && calls[i].now > Cutoff(l, calls[|calls| - 1])
  }

  function Times(calls: seq<Call>, idx: seq<nat>): (s: seq<Time>)
    ensures |s| == |idx|
  {
    seq(|idx|, k requires 0 <= k < |idx| => if idx[k] < |calls| then calls[idx[k]].now else ZERO)
  }

  /** `idx` lists the set in order. */
  ghost predicate Lists(idx: seq<nat>, all: set<nat>) {
    && (forall j, k | 0 <= j < k < |idx| :: idx[j] < idx[k])
    && (forall k | 0 <= k < |idx| :: idx[k] in all)
    && forall i | i in all :: exists k | 0 <= k < |idx| :: idx[k] == i
  }

  lemma {:induction false} ListSize(idx: seq<nat>, all: set<nat>)
    requires Lists(idx, all)
    ensures |idx| == |all|
  {
    if idx == [] {
      assert all == {};
    } else {
      var n := |idx| - 1;
      assert forall k | 0 <= k < n :: idx[..n][k] == idx[k];
      ListSize(idx[..n], all - {idx[n]});
    }
  }

  function Keep(calls: seq<Call>, idx: seq<nat>, cutoff: Time): (kept: seq<nat>)
    requires forall k | 0 <= k < |idx| :: idx[k] < |calls|
    ensures forall k | 0 <= k < |kept| :: kept[k] < |calls|
  {
    if idx == [] then []
    else
      var last := idx[|idx| - 1];
      Keep(calls, idx[..|idx| - 1], cutoff) + if calls[last].now > cutoff then [last] else []
  }

  lemma {:induction false} KeepTimes(calls: seq<Call>, idx: seq<nat>, cutoff: Time)
    requires forall k | 0 <= k < |idx| :: idx[k] < |calls|
    ensures Times(calls, Keep(calls, idx, cutoff)) == After(Times(calls, idx), cutoff)
  {
    if idx != [] {
      var n := |idx| - 1;
      KeepTimes(calls, idx[..n], cutoff);
      assert Times(calls, idx)[..n] == Times(calls, idx[..n]);
    }
  }

  function Later(calls: seq<Call>, all: set<nat>, cutoff: Time): set<nat> {
    set i | i in all && i < |calls| && calls[i].now > cutoff
  }

  lemma ListsFront(idx: seq<nat>, all: set<nat>)
    requires Lists(idx, all) && idx != []
    ensures var last := idx[|idx| - 1];
      Lists(idx[..|idx| - 1], all - {last}) && last in all && forall i | i in all - {last} :: i < last
  {
    var n := |idx| - 1;
    assert forall k | 0 <= k < n :: idx[..n][k] == idx[k];
    forall i | i in all - {idx[n]} ensures exists k | 0 <= k < n :: idx[..n][k] == i {
      var k :| 0 <= k < |idx| && idx[k] == i;
      assert idx[..n][k] == i;
    }
  }

  lemma {:induction false} KeepLists(calls: seq<Call>, idx: seq<nat>, all: set<nat>, cutoff: Time)
    requires Lists(idx, all) && forall k | 0 <= k < |idx| :: idx[k] < |calls|
    ensures Lists(Keep(calls, idx, cutoff), Later(calls, all, cutoff))
  {
    if idx != [] {
      hide Lists;
      var n := |idx| - 1;
      ListsFront(idx, all);
      KeepLists(calls, idx[..n], all - {idx[n]}, cutoff);
      var rest, last := Later(calls, all - {idx[n]}, cutoff), idx[n];
      assert Later(calls, all, cutoff) == rest + if calls[last].now > cutoff then {last} else {};
      var kept := Keep(calls, idx[..n], cutoff);
      assert kept + [] == kept && rest + {} == rest;
      if calls[last].now > cutoff { ListsMore(kept, rest, last); }
    }
  }

  lemma ListsMore(idx: seq<nat>, all: set<nat>, i: nat)
    requires Lists(idx, all) && forall j | j in all :: j < i
    ensures Lists(idx + [i], all + {i})
  {
    var more := idx + [i];
    assert more[|idx|] == i && forall k | 0 <= k < |idx| :: more[k] == idx[k];
  }

  lemma GrantedEarlier(l: Limits, calls: seq<Call>, key: Bytes)
    requires calls != []
    ensures var n := |calls| - 1;
      && (forall i: nat | i < n :: Granted(l, calls[..n], key, i) == Granted(l, calls, key, i))
      && (Granted(l, calls, key, n) <==> calls[n].key == key && Answer(l, calls))
  {
    hide Answer;
    var n := |calls| - 1;
    assert calls[..n + 1] == calls;
    forall i: nat | i < n ensures Granted(l, calls[..n], key, i) == Granted(l, calls, key, i) {
      assert calls[..n][..i + 1] == calls[..i + 1];
    }
  }

  /** What one call does to the survivors: it drops those at or before its cutoff, and adds itself if granted. */
  lemma SurvivorsStep(l: Limits, calls: seq<Call>, key: Bytes)
    requires calls != []
    ensures var n := |calls| - 1; var before := Survivors(l, calls[..n], key);
      Survivors(l, calls, key) ==
        if calls[n].key != key then before
        else Later(calls, before, Cutoff(l, calls[n])) + if Answer(l, calls) then {n} else {}
  {
    hide Answer;
    GrantedEarlier(l, calls, key);
  }

  lemma TimesOfEarlier(calls: seq<Call>, idx: seq<nat>, all: set<nat>)
    requires calls != [] && Lists(idx, all) && forall i | i in all :: i < |calls| - 1
    ensures Times(calls, idx) == Times(calls[..|calls| - 1], idx) && forall k | 0 <= k < |idx| :: idx[k] < |calls|
  {}

  lemma TimesMore(calls: seq<Call>, idx: seq<nat>, i: nat)
    requires i < |calls|
    ensures Times(calls, idx + [i]) == Times(calls, idx) + [calls[i].now]
  {}

  lemma LaterBound(calls: seq<Call>, all: set<nat>, cutoff: Time)
    ensures Later(calls, all, cutoff) <= all
  {}

  lemma StateStep(l: Limits, calls: seq<Call>, key: Bytes)
    requires calls != []
    ensures var n := |calls| - 1; var before := Of(StateAfter(l, calls[..n]), key);
      Of(StateAfter(l, calls), key) ==
        if calls[n].key != key then before
        else After(before, Cutoff(l, calls[n])) + if Answer(l, calls) then [calls[n].now] else []
  {
    hide After;
  }

  /** The limiter holds exactly the survivors, in order of the calls. */
  lemma {:induction false} StateHoldsSurvivors(l: Limits, calls: seq<Call>, key: Bytes) returns (idx: seq<nat>)
    ensures Lists(idx, Survivors(l, calls, key)) && Of(StateAfter(l, calls), key) == Times(calls, idx)
  {
    hide Survivors, After, Answer, Keep, Lists, Later, Times;
    if calls == [] {
      idx := NoSurvivors(l, key);
    } else {
      var n := |calls| - 1;
      var all, cutoff := Survivors(l, calls[..n], key), Cutoff(l, calls[n]);
      idx := StateHoldsSurvivors(l, calls[..n], key);
      SurvivorsStep(l, calls, key);
      StateStep(l, calls, key);
      TimesOfEarlier(calls, idx, all);
      assert forall a: seq<Time>, b: set<nat> :: a + [] == a && b + {} == b;
      if calls[n].key == key {
        KeepTimes(calls, idx, cutoff);
        KeepLists(calls, idx, all, cutoff);
        idx := Keep(calls, idx, cutoff);
        if Answer(l, calls) {
          LaterBound(calls, all, cutoff);
          ListsMore(idx, Later(calls, all, cutoff), n);
          TimesMore(calls, idx, n);
          idx := idx + [n];
        }
      }
    }
  }

  lemma NoSurvivors(l: Limits, key: Bytes) returns (idx: seq<nat>)
    ensures idx == [] == Times([], idx) && Survivors(l, [], key) == {} && Lists(idx, {})
  {
    idx := [];
  }

  lemma EarlierSurvivors(l: Limits, calls: seq<Call>)
    requires calls != []
    ensures var n := |calls| - 1; var key := calls[n].key;
      Survivors(l, calls, key) - {n} == Later(calls[..n], Survivors(l, calls[..n], key), Cutoff(l, calls[n]))
  {
    hide Survivors, Answer;
    SurvivorsStep(l, calls, calls[|calls| - 1].key);
  }

  /** For any clock: a call is refused exactly if at least `max` granted calls lie after every cutoff used for the
      key since they were granted, this call's included. */
  lemma RefusedExactlyWhen(l: Limits, calls: seq<Call>)
    requires calls != []
    ensures var n := |calls| - 1;
      Answer(l, calls) <==> |Survivors(l, calls, calls[n].key) - {n}| < l.max
  {
    hide Survivors, After;
    var n := |calls| - 1;
    var key, cutoff := calls[n].key, Cutoff(l, calls[n]);
    var all := Survivors(l, calls[..n], key);
    var idx := StateHoldsSurvivors(l, calls[..n], key);
    KeepTimes(calls[..n], idx, cutoff);
    KeepLists(calls[..n], idx, all, cutoff);
    ListSize(Keep(calls[..n], idx, cutoff), Later(calls[..n], all, cutoff));
    EarlierSurvivors(l, calls);
    hide Later, Lists, Keep;
    assert |After(Of(StateAfter(l, calls[..n]), key), cutoff)| == |Later(calls[..n], all, cutoff)|;
  }

  /** The answer differs from that of the full history exactly if the window holds at least `max` granted calls of
      which fewer than `max` survive the cutoffs in between. */
  lemma DiffersExactlyWhen(l: Limits, calls: seq<Call>)
    requires calls != []
    ensures var n := |calls| - 1; var key := calls[n].key;
      && Survivors(l, calls, key) - {n} <= Window(l, calls, key)
      && (Answer(l, calls) != (|Window(l, calls, key)| < l.max) <==>
            |Window(l, calls, key)| >= l.max && |Survivors(l, calls, key) - {n}| < l.max)
  {
    hide Answer;
    RefusedExactlyWhen(l, calls);
    var n := |calls| - 1;
    SubsetSize(Survivors(l, calls, calls[n].key) - {n}, Window(l, calls, calls[n].key));
  }

  // ---------------------------------------------------------------- a clock that does not go back

  predicate Forward(calls: seq<Call>, key: Bytes) {
    forall i, j | 0 <= i < j < |calls| && calls[i].key == key && calls[j].key == key :: calls[i].now <= calls[j].now
  }

  /** The reference: a limiter that never forgets. */
  function Allowed(l: Limits, calls: seq<Call>): bool
    requires calls != []
    decreases |calls|
  {
    |AllowedBefore(l, calls, calls[|calls| - 1].key, Cutoff(l, calls[|calls| - 1]))| < l.max
  }

  function AllowedBefore(l: Limits, calls: seq<Call>, key: Bytes, cutoff: Time): set<nat>
    requires calls != []
    decreases |calls|, 0
  {
    set i: nat | i < |calls| - 1 && calls[i].key == key && calls[i].now > cutoff && Allowed(l, calls[..i + 1])
  }

  lemma NothingPrunedEarly(l: Limits, calls: seq<Call>)
    requires calls != [] && Forward(calls, calls[|calls| - 1].key)
    ensures var n := |calls| - 1; Survivors(l, calls, calls[n].key) - {n} == Window(l, calls, calls[n].key)
  {
    hide Answer;
  }

  /** With a clock that does not go back forgetting never shows: a call is refused exactly if the full, unpruned
      history has `max` allowed calls in the last window. */
  lemma {:induction false} PruningNeverShows(l: Limits, calls: seq<Call>)
    requires calls != [] && Forward(calls, calls[|calls| - 1].key)
    ensures Answer(l, calls) == Allowed(l, calls) == (|Window(l, calls, calls[|calls| - 1].key)| < l.max)
    decreases |calls|
  {
    hide Answer, Survivors, Window;
    var n := |calls| - 1;
    var key := calls[n].key;
    RefusedExactlyWhen(l, calls);
    NothingPrunedEarly(l, calls);
    forall i: nat | i < n && calls[i].key == key ensures Answer(l, calls[..i + 1]) == Allowed(l, calls[..i + 1]) {
      PruningNeverShows(l, calls[..i + 1]);
    }
    SameWindow(l, calls);
  }

  lemma SameWindow(l: Limits, calls: seq<Call>)
    requires calls != []
    requires forall i: nat | i < |calls| - 1 && calls[i].key == calls[|calls| - 1].key ::
      Answer(l, calls[..i + 1]) == Allowed(l, calls[..i + 1])
    ensures var n := |calls| - 1;
      Window(l, calls, calls[n].key) == AllowedBefore(l, calls, calls[n].key, Cutoff(l, calls[n]))
  {
    hide Answer, Allowed;
  }

  /** In full: with such a clock a call is let through if and only if fewer than `max` earlier calls of its key were let
      through less than a window before it. */
  lemma LetThroughExactlyWhen(l: Limits, calls: seq<Call>)
    requires calls != [] && Forward(calls, calls[|calls| - 1].key)
    ensures var (n, last) := (|calls| - 1, calls[|calls| - 1]);
      var recent := set i: nat | i < n && calls[i].key == last.key && last.now - calls[i].now < l.window
        && Answer(l, calls[..i + 1]);
      Answer(l, calls) <==> |recent| < l.max
  {
    hide Answer, Forward;
    var (n, last) := (|calls| - 1, calls[|calls| - 1]);
    PruningNeverShows(l, calls);
    assert Window(l, calls, last.key) == set i: nat | i < n && calls[i].key == last.key
      && last.now - calls[i].now < l.window && Answer(l, calls[..i + 1]);
  }

  /** The granted calls in a half-open interval of the window's length. */
  function GrantedIn(l: Limits, calls: seq<Call>, key: Bytes, lo: Time): set<nat> {
    set i: nat | i < |calls| && Granted(l, calls, key, i) && lo <= calls[i].now < lo + l.window
  }

  lemma EarlierAreInWindow(l: Limits, calls: seq<Call>, key: Bytes, lo: Time)
    requires Forward(calls, key) && calls != [] && |calls| - 1 in GrantedIn(l, calls, key, lo)
    ensures GrantedIn(l, calls[..|calls| - 1], key, lo) <= Window(l, calls, key)
  {
    hide Answer;
    GrantedEarlier(l, calls, key);
  }

  /** Then every such interval holds at most `max` granted calls of a key. */
  lemma {:induction false} AtMostMaxPerWindow(l: Limits, calls: seq<Call>, key: Bytes, lo: Time)
    requires Forward(calls, key)
    ensures |GrantedIn(l, calls, key, lo)| <= if l.max < 0 then 0 else l.max
  {
    hide Answer, Window;
    if calls == [] {
      assert GrantedIn(l, calls, key, lo) == {};
    } else {
      var n := |calls| - 1;
      AtMostMaxPerWindow(l, calls[..n], key, lo);
      GrantedInGrows(l, calls, key, lo);
      if n in GrantedIn(l, calls, key, lo) {
        PruningNeverShows(l, calls);
        EarlierAreInWindow(l, calls, key, lo);
        SubsetSize(GrantedIn(l, calls[..n], key, lo), Window(l, calls, key));
      }
    }
  }

  lemma GrantedInGrows(l: Limits, calls: seq<Call>, key: Bytes, lo: Time)
    requires calls != []
    ensures var (n, before, after) :=
        (|calls| - 1, GrantedIn(l, calls[..|calls| - 1], key, lo), GrantedIn(l, calls, key, lo));
      && after == (if n in after then before + {n} else before)
      && (n in after ==> |after| == |before| + 1 && calls[n].key == key && Answer(l, calls))
  {
    hide Answer;
    GrantedEarlier(l, calls, key);
    var before, after := GrantedIn(l, calls[..|calls| - 1], key, lo), GrantedIn(l, calls, key, lo);
    assert after == if |calls| - 1 in after then before + {|calls| - 1} else before;
  }

  lemma AfterOne(x: Time, d: Time)
    ensures After([], d) == [] && After([x], d) == if x > d then [x] else []
  {
    assert [x][..0] == [];
  }

  /** With a clock that goes back the limiter can allow what the history forbids: the second call prunes the first,
      and at the third both are in the window. */
  lemma ClockGoingBackShows(key: Bytes)
    ensures var l, calls := Limits(2, 10), [Call(key, 0), Call(key, 20), Call(key, 5)];
      Answer(l, calls) && |Window(l, calls, key)| == l.max
  {
    hide After;
    var l, calls := Limits(2, 10), [Call(key, 0), Call(key, 20), Call(key, 5)];
    var one, two := [Call(key, 0)], [Call(key, 0), Call(key, 20)];
    assert one[..0] == [] && two[..1] == one && calls[..1] == one && calls[..2] == two && [] + [0] == [0];
    AfterOne(0, -10);
    AfterOne(0, 10);
    AfterOne(20, -5);
    assert Of(StateAfter(l, one), key) == [0];
    assert Of(StateAfter(l, two), key) == [20];
    assert Granted(l, calls, key, 0) && Granted(l, calls, key, 1);
    assert Window(l, calls, key) == {0, 1};
  }

  lemma OneMoreCall(l: Limits, calls: seq<Call>, key: Bytes, now: Time, kept: seq<Time>)
    requires kept == After(Of(StateAfter(l, calls), key), now - l.window) && |kept| < l.max
    ensures Answer(l, calls + [Call(key, now)]) && Of(StateAfter(l, calls + [Call(key, now)]), key) == kept + [now]
  {
    assert (calls + [Call(key, now)])[..|calls|] == calls;
  }

  /** One more call in the past, and an interval of the window's length holds three granted calls. */
  lemma ClockGoingBackOverfills(key: Bytes)
    ensures var l, calls := Limits(2, 10), [Call(key, 0), Call(key, 5), Call(key, 20), Call(key, 6)];
      |GrantedIn(l, calls, key, 0)| == 3 > l.max
  {
    hide After, StateAfter, Answer;
    var l, calls := Limits(2, 10), [Call(key, 0), Call(key, 5), Call(key, 20), Call(key, 6)];
    assert Of(StateAfter(l, []), key) == [] by { NothingRemembered(l, key); }
    AfterOne(0, -10);
    OneMoreCall(l, [], key, 0, []);
    AfterOne(0, -5);
    assert [] + [Call(key, 0)] == calls[..1] && [] + [0] == [0];
    OneMoreCall(l, calls[..1], key, 5, [0]);
    AfterTwo(0, 5, 10);
    assert calls[..1] + [Call(key, 5)] == calls[..2] && [0] + [5] == [0, 5];
    OneMoreCall(l, calls[..2], key, 20, []);
    AfterOne(20, -4);
    assert calls[..2] + [Call(key, 20)] == calls[..3] && [] + [20] == [20];
    OneMoreCall(l, calls[..3], key, 6, [20]);
    assert calls[..3] + [Call(key, 6)] == calls[..4];
    assert GrantedIn(l, calls, key, 0) == {0, 1, 3};
  }

  lemma NothingRemembered(l: Limits, key: Bytes)
    ensures Of(StateAfter(l, []), key) == []
  {}

  lemma AfterTwo(x: Time, y: Time, d: Time)
    requires x <= d && y <= d
    ensures After([x, y], d) == []
  {
    assert [x, y][..1] == [x];
    AfterOne(x, d);
  }

  // ---------------------------------------------------------------- as written

  lemma UpdateTwice(m: Attempts, key: Bytes, a: seq<Time>, b: seq<Time>)
    ensures m[key := a][key := b] == m[key := b]
  {}

  /** A Go slice: the first `len` elements of an array. */
  datatype Slice = Slice(data: array<Time>, len: nat)

  class Limiter {
    const limits: Limits
    var attempts: map<Bytes, Slice>

    ghost var owner: map<array<Time>, Bytes>      // no two keys share an array
    ghost var view: Attempts                // the slices as values

    ghost predicate Valid()
      reads this, owner.Keys
    {
      && view.Keys == attempts.Keys
      && (forall k | k in attempts :: Holds(k))
    }

    ghost predicate Holds(k: Bytes)
      requires k in attempts && k in view
      reads this, owner.Keys
    {
      var slice := attempts[k];
      slice.data in owner && owner[slice.data] == k && slice.len <= slice.data.Length
        && slice.data[..slice.len] == view[k]
    }

    constructor (max: int, window: int)
      ensures Valid() && view == map[] && limits == Limits(max, window) && owner == map[]
    {
      limits := Limits(max, window);
      attempts, owner, view := map[], map[], map[];
    }

    /** The attempts after the cutoff, moved to the front of their own array. */
    method Compact(buffer: array<Time>, n: nat, cutoff: Time) returns (kept: nat)
      requires n <= buffer.Length
      modifies buffer
      ensures kept <= n && buffer[..kept] == After(old(buffer[..n]), cutoff)
    {
      ghost var before := buffer[..n];
      kept := 0;
      for i := 0 to n
        invariant kept <= i && forall j | i <= j < n :: buffer[j] == before[j]
        invariant buffer[..kept] == After(before[..i], cutoff)
      {
        assert before[..i + 1][..i] == before[..i];
        if buffer[i] > cutoff {
          buffer[kept] := buffer[i];
          kept := kept + 1;
        }
      }
      assert before[..n] == before;
    }

    /** `append`: in place if there is room, into a larger array otherwise. */
    method Append(buffer: array<Time>, n: nat, x: Time) returns (result: array<Time>)
      requires n <= buffer.Length
      modifies buffer
      ensures n < result.Length && result[..n + 1] == old(buffer[..n]) + [x]
      ensures result == buffer || fresh(result)
    {
      result := buffer;
      if n == buffer.Length {
        result := new Time[2 * n + 1];
        for i := 0 to n
          invariant result[..i] == buffer[..i] && buffer[..] == old(buffer[..])
        {
          result[i] := buffer[i];
        }
      }
      result[n] := x;
    }

    /** `attempts[key]`, where an absent key has an empty slice. */
    method Ensure(key: Bytes)
      requires Valid()
      modifies this
      ensures Valid() && key in attempts && view == old(view)[key := Of(old(view), key)]
        && fresh(owner.Keys - old(owner.Keys))
    {
      if key !in attempts {
        var empty := new Time[0];
        owner := owner[empty := key];
        view := view[key := []];
        attempts := attempts[key := Slice(empty, 0)];
      }
    }

    /** Drops what the key's slice holds from before the cutoff. */
    method Prune(key: Bytes, cutoff: Time)
      requires Valid() && key in attempts
      modifies this, owner.Keys
      ensures Valid() && attempts.Keys == old(attempts.Keys) && view == old(view)[key := After(old(view)[key], cutoff)]
      ensures owner == old(owner)
    {
      hide After;
      assert Holds(key);
      var slice := attempts[key];
      var kept := Compact(slice.data, slice.len, cutoff);
      view := view[key := After(view[key], cutoff)];
      attempts := attempts[key := Slice(slice.data, kept)];
      forall k | k in attempts ensures Holds(k) { if k != key { assert old(Holds(k)); } }
    }

    method Record(key: Bytes, now: Time)
      requires Valid() && key in attempts
      modifies this, owner.Keys
      ensures Valid() && view == old(view)[key := old(view)[key] + [now]] && fresh(owner.Keys - old(owner.Keys))
    {
      assert Holds(key);
      var slice := attempts[key];
      var buffer := Append(slice.data, slice.len, now);
      owner := owner[buffer := key];
      view := view[key := view[key] + [now]];
      attempts := attempts[key := Slice(buffer, slice.len + 1)];
      forall k | k in attempts ensures Holds(k) { if k != key { assert old(Holds(k)); } }
    }

    method Allow(key: Bytes, now: Time) returns (allowed: bool)
      requires Valid()
      modifies this, owner.Keys
      ensures Valid() && (view, allowed) == Step(limits, old(view), key, now) && fresh(owner.Keys - old(owner.Keys))
    {
      hide After;
      var cutoff := now - limits.window;
      Ensure(key);
      Prune(key, cutoff);
      assert Holds(key);
      UpdateTwice(old(view), key, Of(old(view), key), view[key]);
      if attempts[key].len >= limits.max { return false; }
      UpdateTwice(old(view), key, view[key], view[key] + [now]);
      Record(key, now);
      return true;
    }
  }
}
