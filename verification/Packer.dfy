/** The two greedy packers: `splitLogBatch` (internal/agent/client.go) and `encodeLogNotificationBatches`
    (internal/storage/postgres/logstream.go). */
module Packer {
  import opened Wrappers
  import LogStore

  /** JSON text of an item; `None` when `json.Marshal` fails. */
  type Encoder<!T> = T -> Option<string>

  function Encoded<T>(item: T, enc: Encoder<T>): string { if enc(item).Some? then enc(item).value else "" }

  function Join<T>(items: seq<T>, enc: Encoder<T>): string {
    if items == [] then ""
    else if |items| == 1 then Encoded(items[0], enc)
    else Join(items[..|items| - 1], enc) + "," + Encoded(items[|items| - 1], enc)
  }

  /** A payload on the wire: `open`, the items separated by commas, `close`. */
  datatype Envelope = Envelope(open: string, close: string) {
    function Text<T>(items: seq<T>, enc: Encoder<T>): string { open + Join(items, enc) + close }

    function Size(): nat { |open| + |close| }
  }

  const BATCH := Envelope("{\"entries\":[", "]}")
  const ARRAY := Envelope("[", "]")
  const MAX_REQUEST_BODY_BYTES: nat := 0x10_0000
  const NOTIFY_PAYLOAD_LIMIT: nat := 8000

  predicate Fits<T>(env: Envelope, limit: nat, items: seq<T>, enc: Encoder<T>) { |env.Text(items, enc)| <= limit }

  function Concat<T>(payloads: seq<seq<T>>): seq<T> {
    if payloads == [] then [] else Concat(payloads[..|payloads| - 1]) + payloads[|payloads| - 1]
  }

  /** What a greedy packing is: content and order kept, nothing empty, no payload with room for the item that
      starts the next one, and only a single item may overrun the limit. */
  ghost predicate Packed<T>(env: Envelope, limit: nat, items: seq<T>, payloads: seq<seq<T>>, enc: Encoder<T>) {
    && Concat(payloads) == items
    && (forall k | 0 <= k < |payloads| :: payloads[k] != [])
    && (forall k | 0 <= k < |payloads| - 1 :: !Fits(env, limit, payloads[k] + [payloads[k + 1][0]], enc))
    && (forall k | 0 <= k < |payloads| :: Fits(env, limit, payloads[k], enc) || |payloads[k]| == 1)
  }

  lemma EmptyText<T>(env: Envelope, enc: Encoder<T>)
    ensures |env.Text([], enc)| == env.Size()
  {}

  /** Adding an item costs its encoding, and a comma unless it is the first. */
  lemma TextOfAppend<T>(env: Envelope, items: seq<T>, item: T, enc: Encoder<T>)
    ensures |env.Text(items + [item], enc)| == |env.Text(items, enc)| + (if items == [] then 0 else 1)
      + |Encoded(item, enc)|
  {
    assert (items + [item])[..|items|] == items;
  }

  lemma {:induction false} TextOfPrepend<T>(env: Envelope, item: T, items: seq<T>, enc: Encoder<T>)
    ensures |env.Text([item] + items, enc)| == |env.Text(items, enc)| + (if items == [] then 0 else 1)
      + |Encoded(item, enc)|
  {
    if items != [] {
      var front, last := items[..|items| - 1], items[|items| - 1];
      assert items == front + [last] && [item] + items == ([item] + front) + [last];
      TextOfAppend(env, front, last, enc);
      TextOfAppend(env, [item] + front, last, enc);
      TextOfPrepend(env, item, front, enc);
    }
  }

  /** A slice is no longer on the wire than a slice around it. */
  lemma {:induction false} TextOfSlice<T>(env: Envelope, items: seq<T>, a: nat, i: nat, j: nat, b: nat, enc: Encoder<T>)
    requires a <= i <= j <= b <= |items|
    ensures |env.Text(items[i..j], enc)| <= |env.Text(items[a..b], enc)|
    decreases i - a + b - j
  {
    if a < i {
      assert items[a..b] == [items[a]] + items[a + 1..b];
      TextOfPrepend(env, items[a], items[a + 1..b], enc);
      TextOfSlice(env, items, a + 1, i, j, b, enc);
    } else if j < b {
      assert items[a..b] == items[a..b - 1] + [items[b - 1]];
      TextOfAppend(env, items[a..b - 1], items[b - 1], enc);
      TextOfSlice(env, items, a, i, j, b - 1, enc);
    }
  }

  // ---------------------------------------------------------------- the packers

  method SplitLogBatch<T(==)>(entries: seq<T>, enc: Encoder<T>) returns (r: Result<seq<seq<T>>>)
    ensures entries == [] ==> r == Ok([])
    ensures r == Err(ErrTooManyEntries) <==> |entries| > LogStore.MAX_BATCH_ENTRIES
    ensures r == Err(ErrEntryTooLarge) <==>
      0 < |entries| <= LogStore.MAX_BATCH_ENTRIES && enc(entries[0]).Some?
        && !Fits(BATCH, MAX_REQUEST_BODY_BYTES, [entries[0]], enc)
    ensures r.Ok? <==>
      && |entries| <= LogStore.MAX_BATCH_ENTRIES && (forall e | e in entries :: enc(e).Some?)
      && (entries != [] ==> Fits(BATCH, MAX_REQUEST_BODY_BYTES, [entries[0]], enc))
    ensures r.Ok? ==> Packed(BATCH, MAX_REQUEST_BODY_BYTES, entries, r.value, enc)
  {
    hide Packed, Join;
    NothingPacked(BATCH, MAX_REQUEST_BODY_BYTES, enc);
    if |entries| == 0 { return Ok([]); }
    if |entries| > LogStore.MAX_BATCH_ENTRIES { return Err(ErrTooManyEntries); }
    var envelopeBytes := BATCH.Size();
    var batches: seq<seq<T>> := [];
    var current: seq<T> := [];
    var currentBytes := envelopeBytes;
    EmptyText(BATCH, enc);
    assert entries[..0] == [] && batches + [] == [];
    for i := 0 to |entries|
      invariant forall j | 0 <= j < i :: enc(entries[j]).Some?
      invariant Packed(BATCH, MAX_REQUEST_BODY_BYTES, entries[..i], batches + if i == 0 then [] else [current], enc)
      invariant current == [] <==> i == 0
      invariant i == 0 ==> batches == []
      invariant currentBytes == |BATCH.Text(current, enc)|
      invariant i > 0 ==> Fits(BATCH, MAX_REQUEST_BODY_BYTES, [entries[0]], enc)
    {
      var entry := entries[i];
      if enc(entry).None? { return Err(ErrEncode); }
      var encoded := enc(entry).value;
      var separatorBytes := if |current| > 0 then 1 else 0;
      TextOfAppend(BATCH, current, entry, enc);
      TextOfAppend(BATCH, [], entry, enc);
      assert entries[..i + 1] == entries[..i] + [entry];
      assert [] + [entry] == [entry];
      if currentBytes + separatorBytes + |encoded| > MAX_REQUEST_BODY_BYTES {
        if |current| == 0 { return Err(ErrEntryTooLarge); }
        PackedStart(BATCH, MAX_REQUEST_BODY_BYTES, entries[..i], batches, current, entry, enc);
        batches := batches + [current];
        current := [];
        currentBytes := envelopeBytes;
        separatorBytes := 0;
      } else {
        PackedGrow(BATCH, MAX_REQUEST_BODY_BYTES, entries[..i], batches, current, entry, enc);
      }
      current := current + [entry];
      currentBytes := currentBytes + separatorBytes + |encoded|;
    }
    assert entries[..|entries|] == entries;
    r := Ok(batches + [current]);
  }

  ghost predicate Rendered<T>(payloads: seq<string>, chunks: seq<seq<T>>, enc: Encoder<T>) {
    |payloads| == |chunks| && forall k | 0 <= k < |chunks| :: payloads[k] == ARRAY.Text(chunks[k], enc)
  }

  /** The payloads are the encoded arrays; PostgreSQL takes fewer than 8000 bytes. */
  method EncodeLogNotificationBatches<T(==)>(entries: seq<T>, enc: Encoder<T>)
      returns (r: Result<seq<string>>, ghost chunks: seq<seq<T>>)
    ensures r == Err(ErrEntryTooLarge) <==>
      entries != [] && enc(entries[0]).Some? && !Fits(ARRAY, NOTIFY_PAYLOAD_LIMIT - 1, [entries[0]], enc)
    ensures r.Ok? <==>
      && (forall e | e in entries :: enc(e).Some?)
      && (entries != [] ==> Fits(ARRAY, NOTIFY_PAYLOAD_LIMIT - 1, [entries[0]], enc))
    ensures r.Ok? ==> Packed(ARRAY, NOTIFY_PAYLOAD_LIMIT - 1, entries, chunks, enc) && Rendered(r.value, chunks, enc)
  {
    hide Packed, Rendered, Join;
    var payloads: seq<string> := [];
    var current: seq<T> := [];
    chunks := [];
    NothingPacked(ARRAY, NOTIFY_PAYLOAD_LIMIT - 1, enc);
    assert entries[..0] == [] && chunks + [] == [];
    for i := 0 to |entries|
      invariant forall j | 0 <= j < i :: enc(entries[j]).Some?
      invariant Packed(ARRAY, NOTIFY_PAYLOAD_LIMIT - 1, entries[..i], chunks + if i == 0 then [] else [current], enc)
      invariant current == [] <==> i == 0
      invariant i == 0 ==> chunks == []
      invariant Rendered(payloads, chunks, enc)
      invariant i > 0 ==> Fits(ARRAY, NOTIFY_PAYLOAD_LIMIT - 1, [entries[0]], enc)
    {
      var identity := entries[i];
      var candidate := current + [identity];
      if enc(identity).None? { return Err(ErrEncode), []; }
      var encoded := ARRAY.Text(candidate, enc);
      assert entries[..i + 1] == entries[..i] + [identity];
      assert i == 0 ==> candidate == [identity] && entries[..i] == [];
      if |encoded| >= NOTIFY_PAYLOAD_LIMIT {
        if |current| == 0 { return Err(ErrEntryTooLarge), []; }
        PackedStart(ARRAY, NOTIFY_PAYLOAD_LIMIT - 1, entries[..i], chunks, current, identity, enc);
        RenderedAppend(payloads, chunks, current, enc);
        payloads := payloads + [ARRAY.Text(current, enc)];
        chunks := chunks + [current];
        current := [identity];
        continue;
      }
      PackedGrow(ARRAY, NOTIFY_PAYLOAD_LIMIT - 1, entries[..i], chunks, current, identity, enc);
      current := candidate;
    }
    assert entries[..|entries|] == entries;
    if |current| > 0 {
      RenderedAppend(payloads, chunks, current, enc);
      payloads := payloads + [ARRAY.Text(current, enc)];
      chunks := chunks + [current];
    } else {
      assert chunks + [] == chunks;
    }
    r := Ok(payloads);
  }

  lemma NothingPacked<T>(env: Envelope, limit: nat, enc: Encoder<T>)
    ensures Packed(env, limit, [], [], enc) && Rendered([], [], enc)
  {}

  lemma RenderedAppend<T>(payloads: seq<string>, chunks: seq<seq<T>>, chunk: seq<T>, enc: Encoder<T>)
    requires Rendered(payloads, chunks, enc)
    ensures Rendered(payloads + [ARRAY.Text(chunk, enc)], chunks + [chunk], enc)
  {}

  /** The next item starts a payload of its own. */
  lemma PackedStart<T>(env: Envelope, limit: nat, items: seq<T>, done: seq<seq<T>>, current: seq<T>, item: T,
      enc: Encoder<T>)
    requires current != [] && Packed(env, limit, items, done + [current], enc)
    requires !Fits(env, limit, current + [item], enc)
    ensures Packed(env, limit, items + [item], done + [current] + [[item]], enc)
  {
    var before, after := done + [current], done + [current] + [[item]];
    assert after[..|before|] == before;
  }

  /** The next item joins the last payload. */
  lemma PackedGrow<T>(env: Envelope, limit: nat, items: seq<T>, done: seq<seq<T>>, current: seq<T>, item: T,
      enc: Encoder<T>)
    requires if current == [] then done == [] && items == [] else Packed(env, limit, items, done + [current], enc)
    requires Fits(env, limit, current + [item], enc)
    ensures Packed(env, limit, items + [item], done + [current + [item]], enc)
  {
    var before, after := done + [current], done + [current + [item]];
    assert before[..|done|] == done && after[..|done|] == done;
    forall k | 0 <= k < |after| - 1 ensures !Fits(env, limit, after[k] + [after[k + 1][0]], enc) {
      assert after[k] == before[k] && after[k + 1][0] == before[k + 1][0];
    }
  }

  // ---------------------------------------------------------------- what a greedy packing achieves

  lemma {:induction false} ConcatPrefix<T>(payloads: seq<seq<T>>, k: nat)
    requires k <= |payloads|
    ensures Concat(payloads[..k]) <= Concat(payloads)
    ensures k < |payloads| ==>
      && Concat(payloads[..k + 1]) == Concat(payloads[..k]) + payloads[k]
      && |Concat(payloads[..k + 1])| <= |Concat(payloads)|
    decreases |payloads| - k
  {
    if k < |payloads| {
      assert payloads[..k + 1][..k] == payloads[..k];
      ConcatPrefix(payloads, k + 1);
    } else {
      assert payloads[..k] == payloads;
    }
  }

  /** A payload is the slice of the items between the ends of the prefixes. */
  lemma PayloadIsSlice<T>(payloads: seq<seq<T>>, k: nat)
    requires k < |payloads|
    ensures var a, b := |Concat(payloads[..k])|, |Concat(payloads[..k + 1])|;
      a <= b <= |Concat(payloads)| && Concat(payloads)[a..b] == payloads[k]
  {
    ConcatPrefix(payloads, k);
    ConcatPrefix(payloads, k + 1);
  }

  lemma ItemOfPayload<T>(env: Envelope, payloads: seq<seq<T>>, k: nat, i: nat, enc: Encoder<T>)
    requires k < |payloads| && |Concat(payloads[..k])| <= i < |Concat(payloads[..k + 1])|
    ensures i < |Concat(payloads)|
    ensures |env.Text([Concat(payloads)[i]], enc)| <= |env.Text(payloads[k], enc)|
    ensures |payloads[k]| == 1 ==> [Concat(payloads)[i]] == payloads[k]
  {
    PayloadIsSlice(payloads, k);
    var items, a, b := Concat(payloads), |Concat(payloads[..k])|, |Concat(payloads[..k + 1])|;
    assert items[i..i + 1] == [items[i]];
    TextOfSlice(env, items, a, i, i + 1, b, enc);
    assert payloads[k][i - a] == items[i];
  }

  /** Every payload is within the limit exactly when every single item is: the packers do not check an item
      again once they have started a new payload for it. */
  lemma AllFitIffItemsFit<T>(env: Envelope, limit: nat, items: seq<T>, payloads: seq<seq<T>>, enc: Encoder<T>)
    requires Packed(env, limit, items, payloads, enc)
    ensures (forall k | 0 <= k < |payloads| :: Fits(env, limit, payloads[k], enc))
       <==> (forall i | 0 <= i < |items| :: Fits(env, limit, [items[i]], enc))
  {
    hide Join, Concat;
    if forall k | 0 <= k < |payloads| :: Fits(env, limit, payloads[k], enc) {
      forall i | 0 <= i < |items| ensures Fits(env, limit, [items[i]], enc) {
        var k := PayloadOf(payloads, i);
        ItemOfPayload(env, payloads, k, i, enc);
        assert Fits(env, limit, payloads[k], enc);
      }
    } else {
      var k :| 0 <= k < |payloads| && !Fits(env, limit, payloads[k], enc);
      var i := |Concat(payloads[..k])|;
      ConcatPrefix(payloads, k);
      ItemOfPayload(env, payloads, k, i, enc);
      assert !Fits(env, limit, [items[i]], enc);
    }
  }

  /** A second item that is too long on its own: nothing is refused, and a payload overruns. */
  lemma SecondItemOverruns(long: string, payloads: seq<seq<string>>)
    requires |long| > MAX_REQUEST_BODY_BYTES
    requires Packed(BATCH, MAX_REQUEST_BODY_BYTES, ["", long], payloads, (s: string) => Some(s))
    ensures Fits(BATCH, MAX_REQUEST_BODY_BYTES, [""], (s: string) => Some(s))
    ensures exists k | 0 <= k < |payloads| :: !Fits(BATCH, MAX_REQUEST_BODY_BYTES, payloads[k], (s: string) => Some(s))
  {
    hide Packed;
    var items, enc := ["", long], (s: string) => Some(s);
    assert !Fits(BATCH, MAX_REQUEST_BODY_BYTES, [items[1]], enc);
    AllFitIffItemsFit(BATCH, MAX_REQUEST_BODY_BYTES, items, payloads, enc);
  }

  lemma {:induction false} PayloadOf<T>(payloads: seq<seq<T>>, i: nat) returns (k: nat)
    requires i < |Concat(payloads)|
    ensures k < |payloads| && |Concat(payloads[..k])| <= i < |Concat(payloads[..k + 1])|
  {
    var n := |payloads| - 1;
    if |Concat(payloads[..n])| <= i {
      k := n;
      assert payloads[..n + 1] == payloads;
    } else {
      k := PayloadOf(payloads[..n], i);
      assert payloads[..n][..k] == payloads[..k] && payloads[..n][..k + 1] == payloads[..k + 1];
    }
  }

  /** After any number of payloads the greedy packing has placed at least as many items as any other way of
      cutting the items into payloads within the limit. */
  lemma {:induction false} GreedyStaysAhead<T>(
    env: Envelope, limit: nat, items: seq<T>, greedy: seq<seq<T>>, other: seq<seq<T>>, enc: Encoder<T>, k: nat)
    requires Packed(env, limit, items, greedy, enc) && Concat(other) == items
    requires forall j | 0 <= j < |other| :: Fits(env, limit, other[j], enc)
    requires k <= |greedy| && k <= |other|
    ensures |Concat(other[..k])| <= |Concat(greedy[..k])|
  {
    hide Packed, Join, Concat;
    if k > 0 {
      GreedyStaysAhead(env, limit, items, greedy, other, enc, k - 1);
      assert Concat(greedy) == items by { PackedContent(env, limit, items, greedy, enc); }
      ConcatPrefix(other, k - 1);
      if k < |greedy| {
        if |Concat(other[..k])| > |Concat(greedy[..k])| {
          FullPayload(env, limit, items, greedy, enc, k);
          TooLong(env, items, greedy, other, enc, k);
        }
      } else {
        assert greedy[..k] == greedy;
      }
    }
  }

  lemma PackedContent<T>(env: Envelope, limit: nat, items: seq<T>, payloads: seq<seq<T>>, enc: Encoder<T>)
    requires Packed(env, limit, items, payloads, enc)
    ensures Concat(payloads) == items
  {}

  lemma FullPayload<T>(env: Envelope, limit: nat, items: seq<T>, payloads: seq<seq<T>>, enc: Encoder<T>, k: nat)
    requires Packed(env, limit, items, payloads, enc) && 0 < k < |payloads|
    ensures payloads[k] != [] && !Fits(env, limit, payloads[k - 1] + [payloads[k][0]], enc)
  {
    assert !Fits(env, limit, payloads[k - 1] + [payloads[k - 1 + 1][0]], enc);
  }

  /** A payload that starts no later and ends later than the greedy one holds it and the item after it. */
  lemma TooLong<T>(env: Envelope, items: seq<T>, greedy: seq<seq<T>>, other: seq<seq<T>>, enc: Encoder<T>, k: nat)
    requires Concat(greedy) == items == Concat(other) && 0 < k < |greedy| && k <= |other| && greedy[k] != []
    requires |Concat(other[..k - 1])| <= |Concat(greedy[..k - 1])| && |Concat(other[..k])| > |Concat(greedy[..k])|
    ensures |env.Text(greedy[k - 1] + [greedy[k][0]], enc)| <= |env.Text(other[k - 1], enc)|
  {
    hide Join, Concat;
    PayloadIsSlice(other, k - 1);
    PayloadIsSlice(greedy, k - 1);
    PayloadIsSlice(greedy, k);
    var a, i := |Concat(other[..k - 1])|, |Concat(greedy[..k - 1])|;
    var b, j := |Concat(other[..k])|, |Concat(greedy[..k])|;
    ConcatPrefix(greedy, k);
    assert items[i..j + 1] == items[i..j] + [items[j]];
    TextOfSlice(env, items, a, i, j + 1, b, enc);
  }

  /** No packing that keeps the order and the limit needs fewer payloads. */
  lemma GreedyIsMinimal<T>(env: Envelope, limit: nat, items: seq<T>, greedy: seq<seq<T>>, other: seq<seq<T>>,
      enc: Encoder<T>)
    requires Packed(env, limit, items, greedy, enc) && Concat(other) == items
    requires forall j | 0 <= j < |other| :: Fits(env, limit, other[j], enc)
    ensures |greedy| <= |other|
  {
    var n := |other|;
    assert other[..n] == other;
    if n < |greedy| {
      GreedyStaysAhead(env, limit, items, greedy, other, enc, n);
      ConcatPrefix(greedy, n);
    }
  }

  /** Items that fit one by one can be packed. */
  lemma {:induction false} GreedyExists<T>(env: Envelope, limit: nat, items: seq<T>, enc: Encoder<T>)
      returns (payloads: seq<seq<T>>)
    requires forall i | 0 <= i < |items| :: Fits(env, limit, [items[i]], enc)
    ensures Packed(env, limit, items, payloads, enc) && (items != [] ==> payloads != [])
  {
    hide Join;
    if items == [] {
      payloads := [];
    } else {
      var front, item := items[..|items| - 1], items[|items| - 1];
      assert items == front + [item] && [] + [item] == [item];
      payloads := GreedyExists(env, limit, front, enc);
      if front == [] {
        PackedGrow(env, limit, [], [], [], item, enc);
        payloads := [[item]];
      } else {
        var done, current := payloads[..|payloads| - 1], payloads[|payloads| - 1];
        assert payloads == done + [current];
        if Fits(env, limit, current + [item], enc) {
          PackedGrow(env, limit, front, done, current, item, enc);
          payloads := done + [current + [item]];
        } else {
          PackedStart(env, limit, front, done, current, item, enc);
          payloads := done + [current] + [[item]];
        }
      }
    }
  }
}
