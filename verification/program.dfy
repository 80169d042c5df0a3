/**
 * The order of the checks in deletedisk's `main` and the run that follows.
 * The argument count is checked first, then the chunk size is parsed, then
 * the unit is applied. Only after that is the path tested and the file
 * opened with `File::create`, which truncates it. The operator is asked for
 * confirmation last, after the truncating open.
 */
module Program {
  import opened Wrappers
  import opened Units
  import opened Confirm
  import opened Overwrite

  /** Why `main` returns or panics. */
  datatype Exit =
    | Usage           // not exactly three arguments: the help text is printed
    | BadChunkSize    // the third argument does not parse as a usize
    | BadUnit         // the unit is not one of b, k, m, g, t in either case
    | ChunkOverflow   // chunk size times unit does not fit in a usize
    | NoSuchPath      // the disk path does not exist
    | OpenFailed      // `File::create` failed
    | PromptPanic     // flushing stdout or reading stdin failed (`expect`)
    | Declined        // the answer was not "y" or "Y"
    | CapacityPanic   // `vec![0; chunksize]` panicked: more than isize::MAX bytes
    | AllocAbort      // `vec![0; chunksize]` could not get the memory: the process aborts
    | WipeEnded       // the loop broke out on a non-Interrupted write error
    | SyncPanic       // `sync_data().unwrap()` panicked

  /** The result of the checks before the loop, and whether the target was truncated. */
  datatype Gate = Gate(verdict: Result<usize, Exit>, truncated: bool)

  /** All checks before the open pass for these inputs. */
  predicate ReadyToOpen(args: seq<string>, parsed: Option<usize>, pathExists: bool) {
    |args| == 4 && parsed.Some? && ChunkSize(parsed.value, args[2]).Ok? && pathExists
  }

  /**
   * The checks of `main` before the loop, in the code's order. `args` holds
   * the program name and its arguments; `parsed` is what parsing `args[3]`
   * gives; `pathExists` and `createOk` are what `Path::exists` and
   * `File::create` report; `line` is the line read from stdin, or None when
   * flushing stdout or reading stdin fails.
   */
  function Preflight(args: seq<string>, parsed: Option<usize>, pathExists: bool,
                     createOk: bool, line: Option<string>): (g: Gate)
    ensures g.truncated <==> ReadyToOpen(args, parsed, pathExists) && createOk
    ensures g.verdict.Ok? <==>
              ReadyToOpen(args, parsed, pathExists) && createOk &&
              line.Some? && IsAffirmative(line.value)
    ensures g.verdict.Ok? ==> ChunkSize(parsed.value, args[2]) == Ok(g.verdict.value)
    // Each failing check, in the code's order, gives its own exit.
    ensures |args| != 4 ==> g == Gate(Err(Usage), false)
    ensures |args| == 4 && parsed.None? ==> g == Gate(Err(BadChunkSize), false)
    ensures |args| == 4 && parsed.Some? && ChunkSize(parsed.value, args[2]) == Err(InvalidUnit) ==>
              g == Gate(Err(BadUnit), false)
    ensures |args| == 4 && parsed.Some? && ChunkSize(parsed.value, args[2]) == Err(Overflow) ==>
              g == Gate(Err(ChunkOverflow), false)
    ensures ReadyToOpen(args, parsed, true) && !pathExists ==> g == Gate(Err(NoSuchPath), false)
    ensures ReadyToOpen(args, parsed, pathExists) && !createOk ==> g == Gate(Err(OpenFailed), false)
    ensures ReadyToOpen(args, parsed, pathExists) && createOk && line.None? ==>
              g == Gate(Err(PromptPanic), true)
    ensures ReadyToOpen(args, parsed, pathExists) && createOk && line.Some? && !IsAffirmative(line.value) ==>
              g == Gate(Err(Declined), true)
  {
    if |args| != 4 then Gate(Err(Usage), false)
    else if parsed.None? then Gate(Err(BadChunkSize), false)
    else
      match ChunkSize(parsed.value, args[2])
      case Err(InvalidUnit) => Gate(Err(BadUnit), false)
      case Err(Overflow) => Gate(Err(ChunkOverflow), false)
      case Ok(chunk) =>
        if !pathExists then Gate(Err(NoSuchPath), false)
        else if !createOk then Gate(Err(OpenFailed), false)
        else if line.None? then Gate(Err(PromptPanic), true)
        else if !IsAffirmative(line.value) then Gate(Err(Declined), true)
        else Gate(Ok(chunk), true)
  }

  /** A wrong argument count is reported before anything else is looked at. */
  lemma UsageFirst(args: seq<string>, parsed: Option<usize>, pathExists: bool,
                   createOk: bool, line: Option<string>)
    requires |args| != 4
    ensures Preflight(args, parsed, pathExists, createOk, line) == Gate(Err(Usage), false)
  {
  }

  /** An unknown unit is rejected before the path is looked at or the target opened. */
  lemma BadUnitBeforeOpen(args: seq<string>, chunksize: usize, pathExists: bool,
                          createOk: bool, line: Option<string>)
    requires |args| == 4 && !IsUnitName(args[2])
    ensures Preflight(args, Some(chunksize), pathExists, createOk, line) == Gate(Err(BadUnit), false)
  {
  }

  /**
   * The operator is asked only after the target has been opened and
   * truncated: declining leaves it truncated.
   */
  lemma DeclineAfterTruncate(args: seq<string>, parsed: Option<usize>, pathExists: bool,
                             createOk: bool, line: Option<string>)
    requires Preflight(args, parsed, pathExists, createOk, line).verdict == Err(Declined)
    ensures Preflight(args, parsed, pathExists, createOk, line).truncated
    ensures line.Some? && !IsAffirmative(line.value)
  {
  }

  /** Largest value of a 64-bit `isize`: a `Vec<u8>` cannot hold more bytes. */
  const ISIZE_MAX: nat := 0x7FFF_FFFF_FFFF_FFFF

  /**
   * How the allocation of the buffer ends: `memoryOk` says whether the
   * allocator can provide `chunk` bytes, which only matters within the
   * capacity limit. An empty vector never calls the allocator, so a zero
   * chunk cannot fail.
   */
  function Allocation(chunk: nat, memoryOk: bool): (r: Option<Exit>)
    ensures r == None <==> chunk <= ISIZE_MAX && (chunk == 0 || memoryOk)
    ensures r != None ==> r.value == CapacityPanic || r.value == AllocAbort
    ensures chunk > ISIZE_MAX ==> r == Some(CapacityPanic)
    ensures 0 < chunk <= ISIZE_MAX && !memoryOk ==> r == Some(AllocAbort)
  {
    if chunk > ISIZE_MAX then Some(CapacityPanic)
    else if chunk > 0 && !memoryOk then Some(AllocAbort)
    else None
  }

  /**
   * A chunk size can pass every check, with the target truncated and the
   * operator consenting, and still be too large to allocate (2^23 T, which
   * is 2^63 bytes, is one: see `ChunkSizeExamples`).
   */
  lemma TooLargeAfterConsent(args: seq<string>, chunksize: usize, chunk: usize,
                             line: string, memoryOk: bool)
    requires |args| == 4 && ChunkSize(chunksize, args[2]) == Ok(chunk)
    requires chunk > ISIZE_MAX && IsAffirmative(line)
    ensures Preflight(args, Some(chunksize), true, true, Some(line)) == Gate(Ok(chunk), true)
    ensures Allocation(chunk, memoryOk) == Some(CapacityPanic)
  {
  }

  /** `chunk` zero bytes: the contents of `vec![0; chunk]`. */
  function Zeroes(chunk: nat): (z: seq<byte>)
    ensures |z| == chunk && forall i :: 0 <= i < chunk ==> z[i] == 0
  {
    seq(chunk, _ => 0)
  }

  /**
   * The whole of `main`: the checks, then, only when the operator consented,
   * the allocation of one zero-filled buffer of the computed length, then
   * the loop over it. `memoryOk` says whether the allocator can provide the
   * buffer. `calls` are the calls made to the disk and to `print_status`.
   * Printing to stdout is taken to succeed: apart from a failed print, the
   * loop ends only on a fatal write or a failed sync.
   */
  method Execute(args: seq<string>, parsed: Option<usize>, pathExists: bool,
                 createOk: bool, line: Option<string>, memoryOk: bool,
                 writes: seq<WriteResult>, syncs: seq<bool>)
    returns (exit: Exit, calls: seq<Call>)
    requires var g := Preflight(args, parsed, pathExists, createOk, line);
      g.verdict.Ok? ==> Ends(writes, syncs) && WithinChunk(writes, g.verdict.value)
    ensures var g := Preflight(args, parsed, pathExists, createOk, line);
      && (g.verdict.Err? ==> exit == g.verdict.error && calls == [])
      && (g.verdict.Ok? && Allocation(g.verdict.value, memoryOk).Some? ==>
            exit == Allocation(g.verdict.value, memoryOk).value && calls == [])
      && (g.verdict.Ok? && Allocation(g.verdict.value, memoryOk) == None ==>
            && exit == (if writes[StopAt(writes, syncs)] == Fatal then WipeEnded else SyncPanic)
            && calls == RunLog(Zeroes(g.verdict.value), writes, syncs))
  {
    var g := Preflight(args, parsed, pathExists, createOk, line);
    if g.verdict.Err? {
      return g.verdict.error, [];
    }
    var failed := Allocation(g.verdict.value, memoryOk);
    if failed.Some? {
      return failed.value, [];
    }
    var disk := new Overwriter(g.verdict.value);
    assert disk.buffer[..] == Zeroes(g.verdict.value);
    var end := disk.Run(writes, syncs);
    exit := if end == WriteFailed then WipeEnded else SyncPanic;
    calls := disk.log;
  }
}
