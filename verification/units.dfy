/**
 * The chunk size of deletedisk: a `usize` parsed from the third argument,
 * multiplied by the binary factor that a one-letter unit selects.
 */
module Units {
  import opened Wrappers

  /** Largest value of a 64-bit `usize`. */
  const USIZE_MAX: nat := 0xFFFF_FFFF_FFFF_FFFF

  type usize = x: nat | x <= USIZE_MAX

  /** Why a chunk size cannot be computed. */
  datatype UnitError =
    | InvalidUnit   // the unit string is none of b, k, m, g, t (in either case)
    | Overflow      // `chunksize *= factor` does not fit in a usize (a panic in a debug build)

  /** The unit letters in order of their power of 1024, lower and upper case. */
  const LowerUnits: string := "bkmgt"
  const UpperUnits: string := "BKMGT"

  /** 1024 raised to `e`: the reference meaning of a binary unit. */
  function Pow1024(e: nat): (p: nat)
    ensures p >= 1
  {
    if e == 0 then 1 else 1024 * Pow1024(e - 1)
  }

  /** A unit string the program accepts: exactly one of the ten letters. */
  predicate IsUnitName(unit: string) {
    |unit| == 1 && (unit[0] in LowerUnits || unit[0] in UpperUnits)
  }

  /**
   * The factor the if/else chain multiplies by for `unit`, if it multiplies
   * at all: `b` and `B` leave the value alone and are handled by `ChunkSize`.
   */
  function Factor(unit: string): Option<nat> {
    if unit == "k" || unit == "K" then Some(1024)
    else if unit == "m" || unit == "M" then Some(1024 * 1024)
    else if unit == "g" || unit == "G" then Some(1024 * 1024 * 1024)
    else if unit == "t" || unit == "T" then Some(1024 * 1024 * 1024 * 1024)
    else None
  }

  /**
   * The effective chunk size in bytes for the parsed `chunksize` and `unit`.
   * The unit `b` leaves the value as it is and so never overflows; zero is
   * accepted.
   */
  function ChunkSize(chunksize: usize, unit: string): (r: Result<usize, UnitError>)
    ensures r == Err(InvalidUnit) <==> !IsUnitName(unit)
    ensures r.Ok? ==> chunksize <= r.value && (chunksize == 0 <==> r.value == 0)
    ensures (unit == "b" || unit == "B") ==> r == Ok(chunksize)
  {
    if unit == "b" || unit == "B" then
      Ok(chunksize)
    else
      match Factor(unit)
      case None => Err(InvalidUnit)
      case Some(f) =>
        if chunksize * f <= USIZE_MAX then Ok(chunksize * f) else Err(Overflow)
  }

  /**
   * Every accepted unit letter, in either case, multiplies the chunk size by
   * the power of 1024 given by its position in "bkmgt", or reports overflow
   * when that product exceeds a usize.
   */
  lemma ChunkSizeIsBinaryPower(chunksize: usize, unit: string, e: nat)
    requires e < |LowerUnits|
    requires unit == [LowerUnits[e]] || unit == [UpperUnits[e]]
    ensures ChunkSize(chunksize, unit) ==
              if chunksize * Pow1024(e) <= USIZE_MAX then Ok(chunksize * Pow1024(e))
              else Err(Overflow)
  {
    assert Pow1024(0) == 1;
    assert Pow1024(1) == 1024;
    assert Pow1024(2) == 1024 * 1024;
    assert Pow1024(3) == 1024 * 1024 * 1024;
    assert Pow1024(4) == 1024 * 1024 * 1024 * 1024;
  }

  /** The lower- and upper-case form of each unit letter give the same result. */
  lemma UnitCaseInsensitive(chunksize: usize, e: nat)
    requires e < |LowerUnits|
    ensures ChunkSize(chunksize, [LowerUnits[e]]) == ChunkSize(chunksize, [UpperUnits[e]])
  {
  }

  /**
   * Worked cases: 4 M is 4 MiB; "Mib", "Mb" and the empty string are not
   * units; 0 passes; 2^24 T overflows, while 2^24 - 1 T and 2^23 T (2^63
   * bytes) do not.
   */
  lemma ChunkSizeExamples()
    ensures ChunkSize(4, "M") == Ok(4_194_304)
    ensures ChunkSize(4, "Mib") == Err(InvalidUnit)
    ensures ChunkSize(4, "Mb") == Err(InvalidUnit)
    ensures ChunkSize(4, "") == Err(InvalidUnit)
    ensures ChunkSize(0, "t") == Ok(0)
    ensures ChunkSize(0x100_0000, "T") == Err(Overflow)
    ensures ChunkSize(0xFF_FFFF, "T") == Ok(0xFFFF_FF00_0000_0000)
    ensures ChunkSize(0x80_0000, "T") == Ok(0x8000_0000_0000_0000)
  {
  }
}
