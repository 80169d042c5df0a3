# deletedisk — a Dafny model

deletedisk (`src/main.rs`) overwrites a disk or file with zero bytes in
fixed-size chunks and prints the running byte count after every chunk. It is
run as `deletedisk <disk> <unit> <chunksize>`. This project models the logic
of that program with the operating system abstracted away:

- `units.dfy` (module `Units`): the chunk size in bytes. The parsed `usize` is
  multiplied by the binary factor of a one-letter unit: `b` 1, `k` 1024,
  `m` 1024², `g` 1024³, `t` 1024⁴, in either case. Any other unit string is
  rejected. The multiplication is checked against a 64-bit `usize`.
- `confirm.dfy` (module `Confirm`): `user_confirmation` without its I/O. Every
  `'\n'` and `'\r'` is removed from the answer line, and only `"y"` or `"Y"`
  counts as consent.
- `overwrite.dfy` (module `Overwrite`): the write loop, as a class
  `Overwriter`. It holds the one zero-filled buffer, the running total and a
  log of every `write`, `sync_data` and `print_status` call. `Run` loops with
  `while` over a script of write results (`Ok(n)`, `Interrupted`, any other
  error) and sync results. Pure functions (`Total`, `StopAt`, `Completed`,
  `RunLog`, `Reported`) state what the loop computes, and lemmas prove the
  accounting and ordering properties about them.
- `program.dfy` (module `Program`): the order of the checks in `main`, and
  `Execute`, which runs the loop only after every check has passed.
- `wrappers.dfy` (module `Wrappers`): `Option` and `Result`.

The program's behaviour differs from what disk wipers commonly do, and the
model keeps it as written:
- Only binary units exist, and `"Mib"` or `"Mb"` is rejected.
- A chunk size of 0 is accepted.
- A short or zero-length write does not end the loop. Apart from a failed
  print to stdout, only a write error other than `Interrupted` or a failed
  sync does.
- An `Interrupted` write is followed by a sync and a report of an unchanged
  total. It is not retried.
- A failed `sync_data` panics instead of returning an error.
- The target is opened with `File::create`, which truncates it, before the
  operator is asked to confirm (`Program.DeclineAfterTruncate`).
- There is no random fill mode.

## Model

| member | source | states |
|---|---|---|
| Units.ChunkSize | src/main.rs:35-48 | exactly the ten one-letter units are accepted (any other string gives `InvalidUnit`); `b`/`B` returns the parsed value unchanged; an accepted size is never smaller than the parsed one and is zero exactly when the parsed one is |
| Units.ChunkSizeIsBinaryPower | src/main.rs:35-44 | the letter at position e of "bkmgt", in either case, gives chunksize × 1024^e, or `Overflow` when that exceeds a 64-bit usize |
| Units.UnitCaseInsensitive | src/main.rs:35-44 | lower- and upper-case forms of each unit letter give the same result |
| Units.ChunkSizeExamples | src/main.rs:35-48 | 4 M is 4194304 bytes; "Mib", "Mb" and "" are invalid units; 0 t is accepted as 0; 2^24 T overflows while 2^24-1 T and 2^23 T (2^63 bytes) do not |
| Confirm.Strip | src/main.rs:111-112 | the result contains no occurrence of the removed character and every other character it had, with the same multiplicities |
| Confirm.StripAppend | src/main.rs:111-112 | removal distributes over concatenation, so the order of the kept characters is preserved |
| Confirm.StripAbsent | src/main.rs:111-112 | removing a character that does not occur leaves the string unchanged |
| Confirm.Normalize | src/main.rs:111-112 | the normalised line has no `'\n'` or `'\r'` and keeps every other character of the input with its multiplicity |
| Confirm.NormalizeIdempotent | src/main.rs:111-112 | normalising twice equals normalising once |
| Confirm.IsAffirmative | src/main.rs:111-118 | consent exactly when the raw line holds one `y` or `Y` in total and nothing else but line feeds and carriage returns |
| Confirm.AffirmativeByCounts | src/main.rs:111-118 | the normalised line equals "y" or "Y" if and only if that count condition holds of the raw line |
| Confirm.NormalizeAppend | src/main.rs:111-112 | normalising a concatenation is the concatenation of the normalised parts |
| Confirm.NormalizeLineEnds | src/main.rs:111-112 | a string of line feeds and carriage returns normalises to the empty string |
| Confirm.LineEndsIgnored | src/main.rs:111-118 | inserting any run of line feeds and carriage returns anywhere changes neither the normalised line nor the answer |
| Confirm.ConsentWithLineEnds | src/main.rs:111-118 | one "y" or "Y" with any line feeds and carriage returns before and after it is consent |
| Confirm.ConsentLf | src/main.rs:111-118 | "y\n" is consent |
| Confirm.RefuseEmpty | src/main.rs:111-118 | empty input is refusal |
| Confirm.RefuseNo | src/main.rs:111-118 | "n\n" is refusal |
| Confirm.RefuseYes | src/main.rs:111-118 | "yes\n" is refusal |
| Overwrite.StopAt | src/main.rs:71-84 | the loop's last iteration is the first whose write fails with a non-Interrupted error or whose sync fails; every earlier iteration had an `Ok` or `Interrupted` write, however short, and a successful sync |
| Overwrite.TotalAppend | src/main.rs:72-80 | the running total of consecutive stretches of writes adds up |
| Overwrite.InterruptedAddsNothing | src/main.rs:72-80 | an `Interrupted` write contributes 0 to the total wherever it occurs |
| Overwrite.TotalMonotone | src/main.rs:72-80 | the total after i iterations is at most the total after j ≥ i iterations |
| Overwrite.TotalBounded | src/main.rs:67-73 | with writes of at most the chunk length, the total after m iterations is at most m × chunk, and 0 when the chunk length is 0 |
| Overwrite.CompletedAt | src/main.rs:71-84 | a completed iteration j makes exactly three calls, in order: a write of the shared buffer, `sync_data`, and `print_status` with the total of the first j+1 writes |
| Overwrite.ReportedCompleted | src/main.rs:72-83 | completed iterations report one total each, the j-th being the sum of the first j+1 writes |
| Overwrite.ReportedRun | src/main.rs:71-84 | the iteration that ends the loop reports nothing |
| Overwrite.RunReports | src/main.rs:66-84 | a run reports exactly StopAt totals, the j-th being 0 plus the bytes of every `Ok(n)` among the first j+1 writes (`Interrupted` adds nothing) |
| Overwrite.ReportSteps | src/main.rs:72-83 | the first report is the first write's bytes and each later report exceeds the previous one by exactly that iteration's bytes |
| Overwrite.ReportsNonDecreasing | src/main.rs:72-83 | the sequence of totals passed to `print_status` never decreases |
| Overwrite.RunLogShape | src/main.rs:71-84 | position by position: for each iteration j before the last, entries 3j, 3j+1 and 3j+2 are a write of the buffer, `sync_data`, and a report of the total of the first j+1 writes; then the last iteration's write and, unless that write failed, its sync; nothing after |
| Overwrite.RunWritesBuffer | src/main.rs:67-72 | every write of a run passes the same buffer, the one allocated before the loop |
| Overwrite.RunReportsAfterSync | src/main.rs:72-83 | every report directly follows a sync that directly follows a write; the run ends with a bare write when the last write failed fatally, and with its sync when the sync failed |
| Overwrite.Overwriter.constructor | src/main.rs:66-67 | a fresh all-zero buffer of the chunk length, total 0, no calls yet |
| Overwrite.Overwriter.Run | src/main.rs:71-84 | the loop ends as `WriteFailed` or `SyncPanicked` according to the iteration StopAt picks; the total is the sum of the writes up to and including that iteration (a fatal write adds 0); the call log is `RunLog` of the buffer |
| Program.Preflight | src/main.rs:12-64 | the target is truncated exactly when the argument count, parse, unit, overflow and existence checks pass and `File::create` succeeds; the loop may start exactly when, in addition, the answer line was read and is consent; the chunk length is then the computed chunk size; the first failing check, in the order count, parse, unit, overflow, existence, open, prompt, answer, gives `Usage`, `BadChunkSize`, `BadUnit`, `ChunkOverflow`, `NoSuchPath`, `OpenFailed`, `PromptPanic` or `Declined`, the last two after truncation |
| Program.UsageFirst | src/main.rs:12-23 | a wrong argument count gives the usage exit, whatever the other inputs |
| Program.BadUnitBeforeOpen | src/main.rs:35-54 | an unknown unit is rejected without the target being opened |
| Program.DeclineAfterTruncate | src/main.rs:54-64 | a declined run has already truncated the target, and the answer line was read and was not consent |
| Program.Allocation | src/main.rs:67 | allocating the buffer succeeds exactly when the length is at most isize::MAX and either it is 0 or memory is available; a longer buffer is a capacity-overflow panic; a non-empty buffer within the limit without memory is an abort; an empty buffer never fails |
| Program.TooLargeAfterConsent | src/main.rs:27-67 | a chunk size that passes every check but exceeds isize::MAX bytes still truncates the target and gets consent, then panics at the allocation |
| Program.Zeroes | src/main.rs:67 | the buffer contents: chunk bytes, all zero |
| Program.Execute | src/main.rs:12-84 | a failed check ends `main` with that check's exit and no disk or report call; so does a failed allocation of the buffer (capacity panic or abort), after the target was truncated and consent given; otherwise the calls are those of the loop over a zero buffer of the computed length, and the exit is the loop's |

## Left out

- `print_status` (src/main.rs:91-102): it divides by powers of 1024 in `f64` and redraws the terminal with ANSI escapes. The model records only the raw byte count passed to it (`Status`).
- Printed text (usage, error messages, the prompt echoing the disk path, trailing newlines) is not modelled; each message is represented by its `Exit` variant.
- Memory is not modelled. Whether the allocator can provide the buffer is the input `memoryOk` of `Execute`. Only the isize::MAX capacity limit, and the fact that an empty buffer is never allocated, are computed.
- Operating-system calls become inputs. `env::args` becomes `args`. `str::parse::<usize>` becomes `parsed`, some usize or nothing. `Path::exists` becomes `pathExists` and `File::create` becomes `createOk`. Flushing stdout and reading stdin become `line` (None when either fails and `expect` panics). `disk.write` and `sync_data` become the two scripts given to `Run`.
- File contents and device capacity are not modelled. A write's effect is only its entry in the call log.
- Units.ChunkSize: `chunksize *= …` overflow is modelled as the panic of a debug build (`Overflow`, exit `ChunkOverflow`). The wrap-around of a release build is not modelled, and neither is a 32-bit `usize`.
- Overwrite.Overwriter.Run: the running total is an unbounded `nat`. The `usize` addition at src/main.rs:72 could only overflow after 2^64 bytes had been written.
- Overwrite.Overwriter.Run: requires some iteration of the scripts to end the loop, with either a non-Interrupted write error or a failed sync. In the source, a target whose writes never fail and whose syncs never fail is, apart from a failed print to stdout, written to forever, for example one whose writes keep returning `Ok(0)` when the chunk size is 0. The model covers only runs that end.
- Overwrite.Overwriter.Run: every print to stdout is taken to succeed. In the source, `print!` and `println!` panic when stdout cannot be written (a closed pipe, for instance), both for the newline printed before the loop (src/main.rs:69) and inside `print_status` (src/main.rs:96-100). Such a panic ends the program before the first write, or after an iteration's sync; `Run` and `Execute` do not model that ending.
- Panics and aborts (`unwrap`, `expect`, overflow, allocation) are outcomes (`SyncPanic`, `PromptPanic`, `ChunkOverflow`, `CapacityPanic`, `AllocAbort`) with no further semantics. Process exit statuses are not modelled.
