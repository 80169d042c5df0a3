/**
 * The overwrite loop of deletedisk. One zero-filled buffer is allocated before
 * the loop and written again and again. Each write's byte count is added to a
 * running total; the data is synced and the total is reported after every
 * write, until a write fails with something other than `Interrupted` or a
 * sync fails. Apart from a failed print to stdout, these are the only ways
 * the loop ends.
 *
 * The operating system is abstracted to two scripts, one entry per iteration:
 * what `write` returns and whether `sync_data` succeeds.
 */
module Overwrite {

  type byte = x: int | 0 <= x < 256

  /** What one `disk.write(&zeroed_memory)` call returns. */
  datatype WriteResult =
    | Wrote(n: nat)    // `Ok(n)`, at most the buffer length and possibly short or zero
    | Interrupted      // an error of kind `Interrupted`
    | Fatal            // any other error

  /** A call the loop makes to the disk or to the progress display, in order. */
  datatype Call =
    | Write(data: seq<byte>)   // `disk.write` with this buffer
    | SyncData                 // `disk.sync_data()`
    | Status(bytes: nat)       // `print_status` with this running total

  /** How the loop ends. */
  datatype LoopEnd =
    | WriteFailed    // a non-Interrupted write error broke out of the loop
    | SyncPanicked   // `sync_data().unwrap()` panicked

  /** The bytes an iteration adds to the total: `n` for `Ok(n)`, 0 for `Interrupted`. */
  function Gained(w: WriteResult): nat {
    if w.Wrote? then w.n else 0
  }

  /** The sum of the bytes gained over a sequence of write results. */
  function Total(ws: seq<WriteResult>): nat {
    if ws == [] then 0 else Total(ws[..|ws| - 1]) + Gained(ws[|ws| - 1])
  }

  /** Whether the iteration with these outcomes is the last one. */
  predicate Halts(w: WriteResult, synced: bool) {
    w == Fatal || !synced
  }

  /**
   * Some iteration of the scripts ends the loop: a write fails fatally or a
   * sync fails. Without one the loop of the source never ends.
   */
  predicate Ends(writes: seq<WriteResult>, syncs: seq<bool>) {
    |syncs| == |writes| && exists k :: 0 <= k < |writes| && Halts(writes[k], syncs[k])
  }

  /** No write reports more bytes than the buffer it was given holds. */
  predicate WithinChunk(writes: seq<WriteResult>, chunk: nat) {
    forall i :: 0 <= i < |writes| && writes[i].Wrote? ==> writes[i].n <= chunk
  }

  /**
   * The index of the last iteration: the first whose write fails fatally or
   * whose sync fails. Short and zero-length writes do not end the loop.
   */
  function StopAt(writes: seq<WriteResult>, syncs: seq<bool>): (k: nat)
    requires Ends(writes, syncs)
    ensures k < |writes| && Halts(writes[k], syncs[k])
    ensures forall j :: 0 <= j < k ==> writes[j] != Fatal && syncs[j]
  {
    if Halts(writes[0], syncs[0]) then 0
    else
      assert Ends(writes[1..], syncs[1..]) by {
        var k :| 0 <= k < |writes| && Halts(writes[k], syncs[k]);
        assert Halts(writes[1..][k - 1], syncs[1..][k - 1]);
      }
      1 + StopAt(writes[1..], syncs[1..])
  }

  /** The calls made by the completed iterations whose write results are `ws`. */
  function Completed(buf: seq<byte>, ws: seq<WriteResult>): seq<Call> {
    if ws == [] then []
    else Completed(buf, ws[..|ws| - 1]) + [Write(buf), SyncData, Status(Total(ws))]
  }

  /**
   * Every call of a run: the completed iterations, then the last iteration's
   * write and, when that write succeeded, its sync.
   */
  function RunLog(buf: seq<byte>, writes: seq<WriteResult>, syncs: seq<bool>): seq<Call>
    requires Ends(writes, syncs)
  {
    var k := StopAt(writes, syncs);
    Completed(buf, writes[..k]) + [Write(buf)] + (if writes[k] == Fatal then [] else [SyncData])
  }

  /** The totals handed to `print_status`, in order. */
  function Reported(log: seq<Call>): seq<nat> {
    if log == [] then []
    else
      var last := log[|log| - 1];
      Reported(log[..|log| - 1]) + (if last.Status? then [last.bytes] else [])
  }

  /** The running total adds up over concatenation. */
  lemma {:induction false} TotalAppend(a: seq<WriteResult>, b: seq<WriteResult>)
    ensures Total(a + b) == Total(a) + Total(b)
    decreases |b|
  {
    if b == [] {
      assert a + b == a;
    } else {
      var b' := b[..|b| - 1];
      assert (a + b)[..|a + b| - 1] == a + b';
      TotalAppend(a, b');
    }
  }

  /** An `Interrupted` iteration leaves the total unchanged. */
  lemma InterruptedAddsNothing(a: seq<WriteResult>, b: seq<WriteResult>)
    ensures Total(a + [Interrupted] + b) == Total(a + b)
  {
    TotalAppend(a + [Interrupted], b);
    TotalAppend(a, b);
    assert (a + [Interrupted])[..|a|] == a;
  }

  /** The total never decreases as iterations go by. */
  lemma TotalMonotone(ws: seq<WriteResult>, i: nat, j: nat)
    requires i <= j <= |ws|
    ensures Total(ws[..i]) <= Total(ws[..j])
  {
    assert ws[..j] == ws[..i] + ws[i..j];
    TotalAppend(ws[..i], ws[i..j]);
  }

  /** No write returns more than the buffer length, so neither does the total per iteration. */
  lemma {:induction false} TotalBounded(ws: seq<WriteResult>, chunk: nat)
    requires WithinChunk(ws, chunk)
    ensures Total(ws) <= |ws| * chunk
    ensures chunk == 0 ==> Total(ws) == 0
    decreases |ws|
  {
    if ws != [] {
      assert WithinChunk(ws[..|ws| - 1], chunk) by {
        forall i | 0 <= i < |ws| - 1 ensures ws[..|ws| - 1][i] == ws[i] { }
      }
      TotalBounded(ws[..|ws| - 1], chunk);
      assert (|ws| - 1) * chunk + chunk == |ws| * chunk;
    }
  }

  /**
   * Iteration `j` makes exactly three calls, in this order: a write of the
   * shared buffer, a sync, and a report of the total after `j + 1` writes.
   */
  lemma {:induction false} CompletedAt(buf: seq<byte>, ws: seq<WriteResult>, j: nat)
    requires j < |ws|
    ensures |Completed(buf, ws)| == 3 * |ws|
    ensures Completed(buf, ws)[3 * j] == Write(buf)
    ensures Completed(buf, ws)[3 * j + 1] == SyncData
    ensures Completed(buf, ws)[3 * j + 2] == Status(Total(ws[..j + 1]))
    decreases |ws|
  {
    var init := ws[..|ws| - 1];
    if j < |init| {
      CompletedAt(buf, init, j);
      assert init[..j + 1] == ws[..j + 1];
    } else {
      if init != [] {
        CompletedAt(buf, init, 0);
      }
      assert ws[..j + 1] == ws;
    }
  }

  /** The reports filter distributes over concatenation. */
  lemma {:induction false} ReportedAppend(a: seq<Call>, b: seq<Call>)
    ensures Reported(a + b) == Reported(a) + Reported(b)
    decreases |b|
  {
    if b == [] {
      assert a + b == a;
    } else {
      var b' := b[..|b| - 1];
      assert (a + b)[..|a + b| - 1] == a + b';
      ReportedAppend(a, b');
    }
  }

  /** Completed iterations report the running total once each. */
  lemma {:induction false} ReportedCompleted(buf: seq<byte>, ws: seq<WriteResult>)
    ensures |Reported(Completed(buf, ws))| == |ws|
    ensures forall j :: 0 <= j < |ws| ==> Reported(Completed(buf, ws))[j] == Total(ws[..j + 1])
    decreases |ws|
  {
    if ws != [] {
      var init := ws[..|ws| - 1];
      ReportedCompleted(buf, init);
      var calls := [Write(buf), SyncData, Status(Total(ws))];
      ReportedAppend(Completed(buf, init), calls);
      assert Reported([Write(buf)]) == [] by {
        assert [Write(buf)][..0] == [];
      }
      assert Reported([Write(buf), SyncData]) == [] by {
        assert [Write(buf), SyncData][..1] == [Write(buf)];
      }
      assert Reported(calls) == [Total(ws)] by {
        assert calls[..2] == [Write(buf), SyncData];
      }
      var r := Reported(Completed(buf, ws));
      forall j | 0 <= j < |ws| ensures r[j] == Total(ws[..j + 1]) {
        if j < |init| {
          assert init[..j + 1] == ws[..j + 1];
        } else {
          assert ws[..j + 1] == ws;
        }
      }
    }
  }

  /** The last iteration of a run reports nothing. */
  lemma ReportedRun(buf: seq<byte>, writes: seq<WriteResult>, syncs: seq<bool>)
    requires Ends(writes, syncs)
    ensures Reported(RunLog(buf, writes, syncs)) ==
            Reported(Completed(buf, writes[..StopAt(writes, syncs)]))
  {
    var k := StopAt(writes, syncs);
    var c := Completed(buf, writes[..k]);
    var tail := [Write(buf)] + (if writes[k] == Fatal then [] else [SyncData]);
    assert RunLog(buf, writes, syncs) == c + tail;
    ReportedAppend(c, tail);
    assert Reported(tail) == [] by {
      if writes[k] != Fatal {
        assert tail[..1] == [Write(buf)];
        assert [Write(buf)][..0] == [];
      } else {
        assert tail[..0] == [];
      }
    }
    assert c + [] == c;
  }

  /**
   * The totals a run reports: one per iteration before the last, each 0 plus
   * the bytes of the writes so far.
   */
  lemma RunReports(buf: seq<byte>, writes: seq<WriteResult>, syncs: seq<bool>)
    requires Ends(writes, syncs)
    ensures var r := Reported(RunLog(buf, writes, syncs));
      && |r| == StopAt(writes, syncs)
      && forall j :: 0 <= j < |r| ==> r[j] == Total(writes[..j + 1])
  {
    var done := writes[..StopAt(writes, syncs)];
    ReportedRun(buf, writes, syncs);
    ReportedCompleted(buf, done);
    var r := Reported(RunLog(buf, writes, syncs));
    forall j | 0 <= j < |r| ensures r[j] == Total(writes[..j + 1]) {
      assert done[..j + 1] == writes[..j + 1];
    }
  }

  /** Each report rises over the previous one by exactly that iteration's bytes. */
  lemma ReportSteps(buf: seq<byte>, writes: seq<WriteResult>, syncs: seq<bool>)
    requires Ends(writes, syncs)
    ensures var r := Reported(RunLog(buf, writes, syncs));
      && |r| == StopAt(writes, syncs)
      && (|r| > 0 ==> r[0] == Gained(writes[0]))
      && forall j :: 0 < j < |r| ==> r[j] == r[j - 1] + Gained(writes[j])
  {
    RunReports(buf, writes, syncs);
    var r := Reported(RunLog(buf, writes, syncs));
    if |r| > 0 {
      var first := writes[..1];
      assert r[0] == Total(first);
      assert |first| == 1 && first[0] == writes[0] && first[..0] == [];
      assert Total(first) == Total(first[..0]) + Gained(first[0]);
      assert Total(first) == Gained(writes[0]);
      assert r[0] == Gained(writes[0]);
    }
    forall j | 0 < j < |r| ensures r[j] == r[j - 1] + Gained(writes[j]) {
      assert writes[..j + 1][..j] == writes[..j];
    }
  }

  /** The reported totals never decrease. */
  lemma ReportsNonDecreasing(buf: seq<byte>, writes: seq<WriteResult>, syncs: seq<bool>)
    requires Ends(writes, syncs)
    ensures var r := Reported(RunLog(buf, writes, syncs));
      forall i, j :: 0 <= i <= j < |r| ==> r[i] <= r[j]
  {
    RunReports(buf, writes, syncs);
    var r := Reported(RunLog(buf, writes, syncs));
    forall i, j | 0 <= i <= j < |r| ensures r[i] <= r[j] {
      TotalMonotone(writes, i + 1, j + 1);
    }
  }

  /**
   * The calls of a run, position by position: iteration j < StopAt makes a
   * write of the buffer, a sync and a report of the total after j + 1
   * writes; the last iteration makes its write and, unless that write failed,
   * its sync; nothing follows.
   */
  lemma RunLogShape(buf: seq<byte>, writes: seq<WriteResult>, syncs: seq<bool>)
    requires Ends(writes, syncs)
    ensures var k := StopAt(writes, syncs);
      var log := RunLog(buf, writes, syncs);
      && |log| == 3 * k + (if writes[k] == Fatal then 1 else 2)
      && (forall j :: 0 <= j < k ==>
            log[3 * j] == Write(buf) && log[3 * j + 1] == SyncData &&
            log[3 * j + 2] == Status(Total(writes[..j + 1])))
      && log[3 * k] == Write(buf)
      && (writes[k] != Fatal ==> log[3 * k + 1] == SyncData)
  {
    var k := StopAt(writes, syncs);
    var c := Completed(buf, writes[..k]);
    var log := RunLog(buf, writes, syncs);
    assert log == c + [Write(buf)] + (if writes[k] == Fatal then [] else [SyncData]);
    if k > 0 {
      CompletedAt(buf, writes[..k], 0);
    }
    forall j | 0 <= j < k
      ensures log[3 * j] == Write(buf) && log[3 * j + 1] == SyncData
      ensures log[3 * j + 2] == Status(Total(writes[..j + 1]))
    {
      CompletedAt(buf, writes[..k], j);
      assert writes[..k][..j + 1] == writes[..j + 1];
      assert log[3 * j] == c[3 * j] && log[3 * j + 1] == c[3 * j + 1] && log[3 * j + 2] == c[3 * j + 2];
    }
  }

  /** Every write of a run passes the same buffer. */
  lemma RunWritesBuffer(buf: seq<byte>, writes: seq<WriteResult>, syncs: seq<bool>)
    requires Ends(writes, syncs)
    ensures var log := RunLog(buf, writes, syncs);
      forall p :: 0 <= p < |log| && log[p].Write? ==> log[p].data == buf
  {
    var k := StopAt(writes, syncs);
    var log := RunLog(buf, writes, syncs);
    RunLogShape(buf, writes, syncs);
    forall p | 0 <= p < |log| && log[p].Write? ensures log[p].data == buf {
      var j := p / 3;
      assert p == 3 * j || p == 3 * j + 1 || p == 3 * j + 2;
    }
  }

  /**
   * Every report of a run comes straight after a sync that comes straight
   * after a write, and the iteration that ends the run reports nothing: the
   * run ends on its write when that write failed, and on its sync otherwise.
   */
  lemma RunReportsAfterSync(buf: seq<byte>, writes: seq<WriteResult>, syncs: seq<bool>)
    requires Ends(writes, syncs)
    ensures var log := RunLog(buf, writes, syncs);
      && (forall p :: 0 <= p < |log| && log[p].Status? ==>
            2 <= p && log[p - 1] == SyncData && log[p - 2] == Write(buf))
      && log[|log| - 1] == (if writes[StopAt(writes, syncs)] == Fatal then Write(buf) else SyncData)
  {
    var k := StopAt(writes, syncs);
    var log := RunLog(buf, writes, syncs);
    RunLogShape(buf, writes, syncs);
    forall p | 0 <= p < |log| && log[p].Status?
      ensures 2 <= p && log[p - 1] == SyncData && log[p - 2] == Write(buf)
    {
      var j := p / 3;
      assert p == 3 * j || p == 3 * j + 1 || p == 3 * j + 2;
      assert p == 3 * j + 2 && j < k;
    }
  }

  /**
   * The state of the loop in `main`: the zero-filled buffer allocated once
   * before the loop, the running total, and every call made so far.
   */
  class Overwriter {
    const buffer: array<byte>
    var total: nat
    var log: seq<Call>

    /** The buffer holds zeros only, as `vec![0; chunksize]` made it. */
    ghost predicate Zeroed()
      reads buffer
    {
      forall i :: 0 <= i < buffer.Length ==> buffer[i] == 0
    }

    /** Allocates the buffer of `chunkSize` zero bytes; the total starts at 0. */
    constructor (chunkSize: nat)
      ensures fresh(buffer) && buffer.Length == chunkSize && Zeroed()
      ensures total == 0 && log == []
    {
      buffer := new byte[chunkSize](_ => 0);
      total := 0;
      log := [];
    }

    /**
     * Runs the loop over the outcome scripts until a fatal write error or a
     * failed sync. Some iteration of the scripts must end the loop in one of
     * those two ways: apart from a failed print to stdout, it has no other
     * way out.
     */
    method Run(writes: seq<WriteResult>, syncs: seq<bool>) returns (end: LoopEnd)
      requires total == 0 && log == []
      requires Ends(writes, syncs)
      requires WithinChunk(writes, buffer.Length)
      modifies this
      ensures var k := StopAt(writes, syncs);
        && end == (if writes[k] == Fatal then WriteFailed else SyncPanicked)
        && total == Total(writes[..k]) + Gained(writes[k])
        && log == RunLog(buffer[..], writes, syncs)
    {
      ghost var k := StopAt(writes, syncs);
      var i := 0;
      while true
        invariant i <= k
        invariant total == Total(writes[..i])
        invariant log == Completed(buffer[..], writes[..i])
        decreases k - i
      {
        log := log + [Write(buffer[..])];
        var n: nat;
        match writes[i] {
          case Wrote(m) => n := m;
          case Interrupted => n := 0;
          case Fatal =>
            end := WriteFailed;
            break;
        }
        total := total + n;
        assert writes[..i + 1][..i] == writes[..i];
        log := log + [SyncData];
        if !syncs[i] {
          end := SyncPanicked;
          return;
        }
        log := log + [Status(total)];
        i := i + 1;
      }
    }
  }
}
