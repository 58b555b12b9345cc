/** The audit export: pages of the event table streamed one after the other. The table is newest
    first, and events may arrive between two pages. */
module AuditExport {
  import opened Wrappers

  const BATCH := 500
  const STORE_DEFAULT := 100

  function Min(a: int, b: int): int { if a < b then a else b }

  /** The store's page; `cap` is the largest page it serves. */
  function Page<T>(table: seq<T>, limit: int, offset: nat, cap: nat): seq<T> {
    var size := Min(if limit <= 0 then STORE_DEFAULT else limit, cap);
    if offset >= |table| then [] else table[offset..Min(offset + size, |table|)]
  }

  /** The export's next page after `written` rows; limit 0 means no limit. */
  function Batch<T>(table: seq<T>, limit: nat, offset: nat, cap: nat, written: nat): seq<T> {
    if limit > 0 && limit <= written then []
    else Page(table, if limit > 0 then Min(limit - written, BATCH) else BATCH, offset + written, cap)
  }

  /** The table at the next fetch, and what arrives after that. */
  function Arrived<T>(table: seq<T>, news: seq<seq<T>>): seq<T> { if news == [] then table else news[0] + table }
  function Later<T>(news: seq<seq<T>>): seq<seq<T>> { if news == [] then [] else news[1..] }

  /** A page that is short or uses up the limit is the last. */
  predicate Ends(limit: nat, written: nat, n: nat) { n < BATCH || (limit > 0 && written + n >= limit) }

  /** What is emitted when `news[j]` arrives before the fetch after the j-th. */
  function Streamed<T>(table: seq<T>, news: seq<seq<T>>, limit: nat, offset: nat, cap: nat, written: nat): seq<T>
    decreases |news|, |table| - written
  {
    var batch := Batch(table, limit, offset, cap, written);
    if Ends(limit, written, |batch|) then batch
    else batch + Streamed(Arrived(table, news), Later(news), limit, offset, cap, written + |batch|)
  }

  method FetchBatch<T>(table: seq<T>, limit: nat, offset: nat, cap: nat, written: nat) returns (batch: seq<T>)
    ensures batch == Batch(table, limit, offset, cap, written)
  {
    var size := BATCH;
    if limit > 0 {
      var remaining := limit - written;
      if remaining <= 0 { return []; }
      if remaining < size { size := remaining; }
    }
    batch := Page(table, size, offset + written, cap);
  }

  lemma BatchFits<T>(table: seq<T>, limit: nat, offset: nat, cap: nat, written: nat)
    ensures var n := |Batch(table, limit, offset, cap, written)|; n > 0 ==> written + n <= |table|
  {}

  lemma StreamedEnd<T>(table: seq<T>, news: seq<seq<T>>, limit: nat, offset: nat, cap: nat, written: nat)
    requires Ends(limit, written, |Batch(table, limit, offset, cap, written)|)
    ensures Streamed(table, news, limit, offset, cap, written) == Batch(table, limit, offset, cap, written)
  {}

  lemma StreamedStep<T>(table: seq<T>, news: seq<seq<T>>, limit: nat, offset: nat, cap: nat, written: nat,
                        batch: seq<T>, rest: seq<T>)
    requires batch == Batch(table, limit, offset, cap, written) && !Ends(limit, written, |batch|)
    requires rest == Streamed(Arrived(table, news), Later(news), limit, offset, cap, written + |batch|)
    ensures Streamed(table, news, limit, offset, cap, written) == batch + rest
  {}

  /** After a page that is not the last, what was emitted and what is to come make up the same. */
  lemma Resumed<T>(emitted: seq<T>, table: seq<T>, news: seq<seq<T>>, limit: nat, offset: nat, cap: nat, batch: seq<T>)
    requires batch == Batch(table, limit, offset, cap, |emitted|) && !Ends(limit, |emitted|, |batch|)
    ensures emitted + Streamed(table, news, limit, offset, cap, |emitted|) ==
            emitted + batch + Streamed(Arrived(table, news), Later(news), limit, offset, cap, |emitted + batch|)
  {
    var whole := Streamed(table, news, limit, offset, cap, |emitted|);
    var rest := Streamed(Arrived(table, news), Later(news), limit, offset, cap, |emitted + batch|);
    assert |emitted + batch| == |emitted| + |batch|;
    StreamedStep(table, news, limit, offset, cap, |emitted|, batch, rest);
    Regroup(emitted, batch, rest, whole);
  }

  lemma Regroup<T>(a: seq<T>, b: seq<T>, c: seq<T>, bc: seq<T>)
    requires bc == b + c
    ensures a + bc == a + b + c
  {
    Assoc(a, b, c);
  }

  method Emit<T>(emitted: seq<T>, batch: seq<T>) returns (longer: seq<T>)
    ensures longer == emitted + batch
  {
    longer := emitted;
    for i := 0 to |batch|
      invariant longer == emitted + batch[..i]
    {
      longer := longer + [batch[i]];
    }
  }

  method StreamBatches<T>(table: seq<T>, news: seq<seq<T>>, limit: nat, offset: nat, cap: nat) returns (emitted: seq<T>)
    ensures emitted == Streamed(table, news, limit, offset, cap, 0)
  {
    emitted := [];
    var now, due := table, news;
    var batch := FetchBatch(now, limit, offset, cap, 0);
    ghost var whole := Streamed(table, news, limit, offset, cap, 0);
    Leading(whole);
    while true
      invariant batch == Batch(now, limit, offset, cap, |emitted|)
      invariant emitted + Streamed(now, due, limit, offset, cap, |emitted|) == whole
      decreases |due|, |now| - |emitted|
    {
      if Ends(limit, |emitted|, |batch|) { StreamedEnd(now, due, limit, offset, cap, |emitted|); }
      else { Resumed(emitted, now, due, limit, offset, cap, batch); }
      BatchFits(now, limit, offset, cap, |emitted|);
      emitted := Emit(emitted, batch);
      if |batch| < BATCH { return; }
      if limit > 0 && |emitted| >= limit { return; }
      now, due := Arrived(now, due), Later(due);
      batch := FetchBatch(now, limit, offset, cap, |emitted|);
      if |batch| == 0 {
        NothingMore(emitted, now, due, limit, offset, cap);
        return;
      }
    }
  }

  lemma NothingMore<T>(emitted: seq<T>, table: seq<T>, news: seq<seq<T>>, limit: nat, offset: nat, cap: nat)
    requires |Batch(table, limit, offset, cap, |emitted|)| == 0
    ensures emitted + Streamed(table, news, limit, offset, cap, |emitted|) == emitted
  {
    StreamedEnd(table, news, limit, offset, cap, |emitted|);
  }

  // ---------------------------------------------------------------- a table that stands still

  /** The rows one unbounded query would return. */
  function Slice<T>(table: seq<T>, limit: nat, offset: nat): seq<T> {
    if offset >= |table| then []
    else table[offset..if limit == 0 then |table| else Min(offset + limit, |table|)]
  }

  lemma BatchOfSlice<T>(table: seq<T>, limit: nat, offset: nat, cap: nat, written: nat)
    requires cap >= BATCH && written <= |Slice(table, limit, offset)|
    ensures var all := Slice(table, limit, offset);
            Batch(table, limit, offset, cap, written) == all[written..Min(written + BATCH, |all|)]
  {
    var all, batch := Slice(table, limit, offset), Batch(table, limit, offset, cap, written);
    assert |batch| == Min(written + BATCH, |all|) - written;
    assert forall i :: 0 <= i < |batch| ==> batch[i] == table[offset + written + i] == all[written + i];
  }

  lemma {:induction false} StreamedFrom<T>(table: seq<T>, limit: nat, offset: nat, cap: nat, written: nat)
    requires cap >= BATCH && written <= |Slice(table, limit, offset)|
    ensures Streamed(table, [], limit, offset, cap, written) == Slice(table, limit, offset)[written..]
    decreases |table| - written
  {
    var all, batch := Slice(table, limit, offset), Batch(table, limit, offset, cap, written);
    BatchOfSlice(table, limit, offset, cap, written);
    if |batch| == BATCH && !(limit > 0 && written + |batch| >= limit) {
      StreamedFrom(table, limit, offset, cap, written + BATCH);
      assert all[written..] == batch + all[written + BATCH..];
    }
  }

  /** Streaming is one query: the rows from the offset to the limit or the end, once each, in order. */
  lemma StreamingIsOneQuery<T>(table: seq<T>, limit: nat, offset: nat, cap: nat)
    requires cap >= BATCH
    ensures Streamed(table, [], limit, offset, cap, 0) == Slice(table, limit, offset)
  {
    StreamedFrom(table, limit, offset, cap, 0);
  }

  /** It rests on the store serving whole batches: under any smaller cap some export is cut short. */
  lemma OneQueryIffWholeBatches(cap: nat)
    ensures cap >= 500 <==>
            forall table: seq<int>, limit: nat, offset: nat ::
              Streamed(table, [], limit, offset, cap, 0) == Slice(table, limit, offset)
  {
    if cap >= BATCH {
      forall table: seq<int>, limit: nat, offset: nat
        ensures Streamed(table, [], limit, offset, cap, 0) == Slice(table, limit, offset) {
        StreamingIsOneQuery(table, limit, offset, cap);
      }
    } else {
      var table := seq(BATCH, i => i);
      assert |Batch(table, 0, 0, cap, 0)| == cap;
      assert |Streamed(table, [], 0, 0, cap, 0)| == cap && |Slice(table, 0, 0)| == BATCH;
    }
  }

  // ---------------------------------------------------------------- a table that grows

  lemma PageOf<T>(table: seq<T>, offset: nat, cap: nat, written: nat, i: nat)
    requires cap >= BATCH && offset + written <= i < |table| && i < offset + written + BATCH
    ensures i - offset - written < |Batch(table, 0, offset, cap, written)|
    ensures Batch(table, 0, offset, cap, written)[i - offset - written] == table[i]
    ensures |Batch(table, 0, offset, cap, written)| <= BATCH
    ensures |table| >= offset + written + BATCH ==> |Batch(table, 0, offset, cap, written)| == BATCH
  {}

  lemma StreamedHasBatch<T>(table: seq<T>, news: seq<seq<T>>, offset: nat, cap: nat, written: nat, x: T)
    requires x in Batch(table, 0, offset, cap, written)
    ensures x in Streamed(table, news, 0, offset, cap, written)
  {
    var batch := Batch(table, 0, offset, cap, written);
    if !Ends(0, written, |batch|) {
      var rest := Streamed(Arrived(table, news), Later(news), 0, offset, cap, written + |batch|);
      StreamedStep(table, news, 0, offset, cap, written, batch, rest);
    }
  }

  lemma StreamedHasRest<T>(table: seq<T>, news: seq<seq<T>>, offset: nat, cap: nat, written: nat, x: T)
    requires |Batch(table, 0, offset, cap, written)| == BATCH
    requires x in Streamed(Arrived(table, news), Later(news), 0, offset, cap, written + BATCH)
    ensures x in Streamed(table, news, 0, offset, cap, written)
  {
    var batch := Batch(table, 0, offset, cap, written);
    var rest := Streamed(Arrived(table, news), Later(news), 0, offset, cap, written + BATCH);
    StreamedStep(table, news, 0, offset, cap, written, batch, rest);
  }

  lemma ArrivedAt<T>(table: seq<T>, news: seq<seq<T>>, shift: nat, i: nat)
    requires i < |table| && shift == if news == [] then 0 else |news[0]|
    ensures |Arrived(table, news)| == shift + |table| && Arrived(table, news)[shift + i] == table[i]
  {}

  lemma {:induction false} GrowingFrom<T>(table: seq<T>, news: seq<seq<T>>, offset: nat, cap: nat, written: nat, i: nat)
    requires cap >= BATCH && offset + written <= i < |table|
    ensures table[i] in Streamed(table, news, 0, offset, cap, written)
    decreases |news|, |table| - written
  {
    if i < offset + written + BATCH {
      PageOf(table, offset, cap, written, i);
      StreamedHasBatch(table, news, offset, cap, written, table[i]);
    } else {
      PageOf(table, offset, cap, written, offset + written);
      var later, shift := Arrived(table, news), if news == [] then 0 else |news[0]|;
      ArrivedAt(table, news, shift, i);
      GrowingFrom(later, Later(news), offset, cap, written + BATCH, shift + i);
      StreamedHasRest(table, news, offset, cap, written, table[i]);
    }
  }

  /** Events that arrive during an unlimited export push rows into later pages: a row may come
      twice, but none that was there is lost. */
  lemma GrowingTableLosesNothing<T>(table: seq<T>, news: seq<seq<T>>, offset: nat, cap: nat, i: nat)
    requires cap >= BATCH && offset <= i < |table|
    ensures table[i] in Streamed(table, news, 0, offset, cap, 0)
  {
    GrowingFrom(table, news, offset, cap, 0, i);
  }

  /** The page after an arrival of n rows begins with the last n rows of the page before. */
  lemma ArrivalsRepeatRows<T>(table: seq<T>, arrived: seq<T>, offset: nat, cap: nat, written: nat)
    requires cap >= BATCH && |arrived| <= BATCH && offset + written + BATCH <= |table|
    ensures var page := Batch(table, 0, offset, cap, written);
            var next := Batch(arrived + table, 0, offset, cap, written + BATCH);
            |page| == BATCH && |next| >= |arrived| && next[..|arrived|] == page[BATCH - |arrived|..]
  {
    var n, at := |arrived|, offset + written;
    var grown := arrived + table;
    var page, next := Batch(table, 0, offset, cap, written), Batch(grown, 0, offset, cap, written + BATCH);
    assert page == table[at..at + BATCH];
    assert |next| >= n;
    forall k | 0 <= k < n ensures next[k] == page[BATCH - n + k] {
      assert next[k] == grown[at + BATCH + k] == table[at + BATCH + k - n];
    }
  }
}
