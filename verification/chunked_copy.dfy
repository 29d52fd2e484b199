/** The install thread's copy loop: the executable is copied in 1024-byte chunks,
    a whole-number percentage is reported after every chunk, and the run ends with
    exactly one "finished" or "error" signal. Files are modelled by their size; an
    exception after the existence check is a parameter naming where it is raised. */
module ChunkedCopy {
  import opened Wrappers

  const ChunkSize: nat := 1024

  /** The thread's three signals. */
  datatype Signal = Progress(percent: int) | Finished | Error(message: string)

  /** The source file: absent, or present with a size in bytes. */
  datatype Source = Missing | Present(size: nat)

  /** Where an exception interrupts the copy: in `getsize` or either `open`,
      before any chunk; while copying chunk `k` (0-based); or when the files are
      closed after the last chunk, which flushes the destination. */
  datatype FailPoint = Opening | AtChunk(k: nat) | Closing

  /** An exception raised after the existence check: where, whether it is a
      `FileNotFoundError` (which is reported bare), and its text. */
  datatype Failure = Failure(at: FailPoint, notFound: bool, message: string)

  /** The error text the two handlers emit for an exception. */
  function ErrorText(f: Failure): (m: string)
    ensures f.notFound ==> m == f.message
    ensures !f.notFound ==> m == "Installation error: " + f.message
  {
    if f.notFound then f.message else "Installation error: " + f.message
  }

  /** Number of chunk reads that return data. */
  function ChunkCount(size: nat): nat {
    (size + ChunkSize - 1) / ChunkSize
  }

  /** Bytes copied after `k` chunks. */
  function Copied(k: nat, size: nat): nat {
    if k * ChunkSize <= size then k * ChunkSize else size
  }

  /** `int((copied / total) * 100)`, read exactly: the floor of the percentage. */
  function Percent(copied: nat, total: nat): int
    requires total > 0
  {
    copied * 100 / total
  }

  /** The percentage reported after chunk `i`. */
  function ProgressAt(i: nat, size: nat): int
    requires size > 0
  {
    Percent(Copied(i + 1, size), size)
  }

  /** Whether the failure happens at all: a chunk past the end is never copied. */
  predicate Interrupted(size: nat, fail: Option<Failure>) {
    fail.Some? && (fail.value.at.AtChunk? ==> fail.value.at.k < ChunkCount(size))
  }

  /** How many chunks are copied before the failure stops the run. */
  function ChunksDone(size: nat, fail: Option<Failure>): nat {
    if !Interrupted(size, fail) then ChunkCount(size)
    else match fail.value.at
      case Opening => 0
      case AtChunk(k) => k
      case Closing => ChunkCount(size)
  }

  /** The signals the thread emits, described chunk by chunk. A missing source
      reports only its own message; so does any later `FileNotFoundError`; every
      other exception is prefixed with "Installation error: ". */
  function Expected(path: string, src: Source, fail: Option<Failure>): (r: seq<Signal>)
  {
    match src
    case Missing => [Error("Source file not found: " + path)]
    case Present(size) =>
      var m := ChunksDone(size, fail);
      var progress := seq(m, i requires 0 <= i < m => Progress(if size > 0 then ProgressAt(i, size) else 0));
      progress + [if Interrupted(size, fail) then Error(ErrorText(fail.value)) else Finished]
  }

  /** Another chunk is read exactly while fewer than `size` bytes are copied. */
  lemma ChunkBound(k: nat, size: nat)
    ensures k < ChunkCount(size) <==> k * ChunkSize < size
    ensures k <= ChunkCount(size) ==> Copied(k, size) == (if k < ChunkCount(size) then k * ChunkSize else size)
  {
  }

  /** `InstallThread.run`. */
  method Copy(path: string, src: Source, fail: Option<Failure>) returns (out: seq<Signal>)
    ensures out == Expected(path, src, fail)
  {
    if src.Missing? {
      return [Error("Source file not found: " + path)];
    }
    var total := src.size;
    if fail.Some? && fail.value.at.Opening? {
      return [Error(ErrorText(fail.value))];
    }
    var copied := 0;
    var k := 0;
    out := [];
    ChunkBound(0, total);
    while copied < total
      invariant k <= ChunkCount(total) && k <= ChunksDone(total, fail)
      invariant copied == Copied(k, total)
      invariant copied < total <==> k < ChunkCount(total)
      invariant |out| == k
      invariant forall i :: 0 <= i < k ==> out[i] == Progress(ProgressAt(i, total))
      decreases total - copied
    {
      if fail.Some? && fail.value.at == AtChunk(k) {
        out := out + [Error(ErrorText(fail.value))];
        assert out == Expected(path, src, fail);
        return;
      }
      ChunkBound(k, total);
      ChunkBound(k + 1, total);
      var n := if total - copied < ChunkSize then total - copied else ChunkSize;
      copied := copied + n;
      out := out + [Progress(copied * 100 / total)];
      k := k + 1;
    }
    assert k == ChunksDone(total, fail);
    if fail.Some? && fail.value.at.Closing? {
      out := out + [Error(ErrorText(fail.value))];
    } else {
      out := out + [Finished];
    }
    assert out == Expected(path, src, fail);
  }

  /** Every run ends with exactly one terminal signal, and only progress comes
      before it. */
  lemma OneTerminalSignal(path: string, src: Source, fail: Option<Failure>)
    ensures |Expected(path, src, fail)| >= 1
    ensures !Expected(path, src, fail)[|Expected(path, src, fail)| - 1].Progress?
    ensures forall i :: 0 <= i < |Expected(path, src, fail)| - 1 ==> Expected(path, src, fail)[i].Progress?
  {
  }

  /** A missing source reports only its message. */
  lemma MissingSourceReportsPath(path: string, fail: Option<Failure>)
    ensures Expected(path, Missing, fail) == [Error("Source file not found: " + path)]
  {
  }

  /** The percentages lie in 0..100 and never go down. */
  lemma {:induction false} ProgressMonotone(i: nat, j: nat, size: nat)
    requires size > 0 && i <= j
    ensures 0 <= ProgressAt(i, size) <= ProgressAt(j, size) <= 100
  {
    var a, b := Copied(i + 1, size), Copied(j + 1, size);
    CopiedMonotone(i + 1, j + 1, size);
    MulDivMonotone(a, b, size);
    MulDivMonotone(b, size, size);
    WholeIsHundred(size);
  }

  lemma CopiedMonotone(i: nat, j: nat, size: nat)
    requires i <= j
    ensures Copied(i, size) <= Copied(j, size) <= size
  {
    MulLe(i, j, ChunkSize);
  }

  lemma WholeIsHundred(size: nat)
    requires size > 0
    ensures size * 100 / size == 100
  {
    assert size * 100 == 100 * size;
  }

  lemma MulDivMonotone(a: nat, b: nat, d: nat)
    requires d > 0 && a <= b
    ensures a * 100 / d <= b * 100 / d
  {
    DivMonotone(a * 100, b * 100, d);
  }

  lemma DivMonotone(x: nat, y: nat, d: nat)
    requires d > 0 && x <= y
    ensures x / d <= y / d
  {
    var p, q := x / d, y / d;
    assert d * p + x % d == x;
    assert d * q + y % d == y;
    if p > q {
      assert d * p >= d * (q + 1) by { MulLe(q + 1, p, d); }
      assert false;
    }
  }

  lemma MulLe(a: nat, b: nat, d: nat)
    requires a <= b
    ensures d * a <= d * b && a * d <= b * d
  {
  }

  /** A complete copy reports one percentage per chunk, ends at 100 and then
      "finished"; an empty file reports no progress at all. */
  lemma CompleteCopy(path: string, size: nat)
    ensures var r := Expected(path, Present(size), None);
      |r| == ChunkCount(size) + 1 && r[|r| - 1] == Finished
    ensures size > 0 ==> Expected(path, Present(size), None)[ChunkCount(size) - 1] == Progress(100)
    ensures size == 0 ==> Expected(path, Present(size), None) == [Finished]
  {
    if size > 0 {
      LastChunkIsHundred(size);
    } else {
      assert ChunkCount(0) == 0;
    }
  }

  /** The last chunk brings the copy to the whole file, which reports 100 %. */
  lemma LastChunkIsHundred(size: nat)
    requires size > 0
    ensures ChunkCount(size) >= 1 && ProgressAt(ChunkCount(size) - 1, size) == 100
  {
    var c := ChunkCount(size);
    ChunkBound(0, size);
    ChunkBound(c, size);
    assert Copied(c, size) == size;
    WholeIsHundred(size);
  }

  /** A failure at chunk c reports the c earlier percentages, then the error, and
      never "finished". */
  lemma FailedCopy(path: string, size: nat, f: Failure)
    requires f.at.AtChunk? && f.at.k < ChunkCount(size)
    ensures var r := Expected(path, Present(size), Some(f));
      |r| == f.at.k + 1 && r[f.at.k] == Error(ErrorText(f)) && Finished !in r
  {
  }

  /** A failure in `getsize` or either `open` reports only the error, whatever
      the size, an empty file included. */
  lemma OpenFailure(path: string, size: nat, notFound: bool, message: string)
    ensures Expected(path, Present(size), Some(Failure(Opening, notFound, message))) ==
      [Error(if notFound then message else "Installation error: " + message)]
  {
  }

  /** A failure when the files are closed comes after every percentage, 100
      included, and replaces "finished". */
  lemma CloseFailure(path: string, size: nat, f: Failure)
    requires f.at.Closing? && size > 0
    ensures var r := Expected(path, Present(size), Some(f));
      |r| == ChunkCount(size) + 1 && r[ChunkCount(size) - 1] == Progress(100) &&
      r[ChunkCount(size)] == Error(ErrorText(f)) && Finished !in r
  {
    LastChunkIsHundred(size);
  }

  /** A 10 000-byte file: ten chunks, the first at 10 %, the last at 100 %. */
  lemma TenThousandBytes()
    ensures var r := Expected("app.exe", Present(10000), None);
      |r| == 11 && r[0] == Progress(10) && r[9] == Progress(100) && r[10] == Finished
  {
  }
}
