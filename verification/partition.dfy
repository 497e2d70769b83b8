/**
 Partitioning of the N input lines among K workers, as `analyze_csv` does it.

 The worker count is the hardware concurrency clamped to at least one. Every
 worker gets `N / K` lines, starting at `i * (N / K)`; the last worker's range
 ends at `N` and so absorbs the remainder of the division.
 */
module Partition {

  /** Number of values of the source's `size_t` (64-bit unsigned). */
  const SizeTLimit: nat := 0x1_0000_0000_0000_0000

  /** Number of values of the source's `unsigned int` (32-bit), the type of the hardware concurrency. */
  const UIntLimit: nat := 0x1_0000_0000

  /** A half-open range [start, end) of line indices handed to one worker. */
  datatype Range = Range(start: nat, end: nat) {

    /** Number of lines in a well-formed range. */
    function Length(): nat
      requires start <= end
    {
      end - start
    }

    /** True if line index j lies in the range. */
    predicate Contains(j: nat) {
      start <= j < end
    }
  }

  /**
   True if the ranges, in index order, tile [0, n): the first starts at 0, the
   last ends at n, each is well formed and within bounds, and each ends exactly
   where the next one starts.
   */
  predicate Tiles(rs: seq<Range>, n: nat) {
    && |rs| >= 1
    && rs[0].start == 0
    && rs[|rs| - 1].end == n
    && (forall i :: 0 <= i < |rs| ==> rs[i].start <= rs[i].end <= n)
    && (forall i, j :: 0 <= i < |rs| && 0 <= j < |rs| && j == i + 1 ==> rs[i].end == rs[j].start)
  }

  /** True if line index j lies in some range of rs. */
  predicate Covered(rs: seq<Range>, j: nat) {
    exists i :: 0 <= i < |rs| && rs[i].Contains(j)
  }

  /** The worker count: the reported hardware concurrency, but never zero. */
  function WorkerCount(hw: nat): (k: nat)
    ensures k >= 1
    ensures hw >= 1 ==> k == hw
    ensures hw == 0 ==> k == 1
  {
    if hw >= 1 then hw else 1
  }

  /** Lines per worker: the quotient of n by k, rounded down. */
  function ChunkSize(n: nat, k: nat): (c: nat)
    requires k >= 1
    ensures k * c <= n < k * c + k
  {
    n / k
  }

  lemma MulLeftMono(a: nat, b: nat, c: nat)
    requires a <= b
    ensures a * c <= b * c
  {
  }

  /**
   The start and end the source computes for worker i are in order and within
   [0, n]; this rests on (k - 1) * (n / k) <= n.
   */
  lemma ChunkBounds(n: nat, k: nat, i: nat)
    requires 1 <= k && i < k
    ensures i * (n / k) <= (if i == k - 1 then n else (i + 1) * (n / k)) <= n
  {
    var c := ChunkSize(n, k);
    MulLeftMono(i, k - 1, c);
    MulLeftMono(k - 1, k, c);
    if i < k - 1 {
      MulLeftMono(i, i + 1, c);
      MulLeftMono(i + 1, k, c);
    }
  }

  /**
   The range of worker i out of k, for n lines: it starts at `i * chunk_size`
   and ends at the line count for the last worker, at `(i + 1) * chunk_size`
   for every other.
   */
  function ChunkRange(n: nat, k: nat, i: nat): (r: Range)
    requires 1 <= k && i < k
    ensures r.start <= r.end <= n
    ensures i == 0 ==> r.start == 0
    ensures i == k - 1 ==> r.end == n
  {
    ChunkBounds(n, k, i);
    Range(i * (n / k), if i == k - 1 then n else (i + 1) * (n / k))
  }

  /** The k ranges the workers receive, in worker-index order. */
  function ChunkRanges(n: nat, k: nat): (rs: seq<Range>)
    requires k >= 1
    ensures |rs| == k
    ensures Tiles(rs, n)
  {
    var rs := seq(k, i requires 0 <= i < k => ChunkRange(n, k, i));
    forall i, j | 0 <= i < j < k && j == i + 1
      ensures rs[i].end == rs[j].start
    {
      assert rs[i].end == (i + 1) * (n / k);
    }
    rs
  }

  /** In a tiling, every range ends no later than any later range starts. */
  lemma {:induction false} TilesOrdered(rs: seq<Range>, n: nat, a: nat, b: nat)
    requires Tiles(rs, n)
    requires a < b < |rs|
    ensures rs[a].end <= rs[b].start
    decreases b - a
  {
    if b > a + 1 {
      TilesOrdered(rs, n, a, b - 1);
      assert rs[b - 1].end == rs[b].start;
    }
  }

  /** No line index lies in two different ranges of a tiling. */
  lemma TilesDisjoint(rs: seq<Range>, n: nat)
    requires Tiles(rs, n)
    ensures forall a, b, j: nat :: 0 <= a < |rs| && 0 <= b < |rs| && rs[a].Contains(j) && rs[b].Contains(j) ==> a == b
  {
    forall a, b, j: nat | 0 <= a < |rs| && 0 <= b < |rs| && rs[a].Contains(j) && rs[b].Contains(j)
      ensures a == b
    {
      if a < b {
        TilesOrdered(rs, n, a, b);
      } else if b < a {
        TilesOrdered(rs, n, b, a);
      }
    }
  }

  /** Every index below the end of range m lies in one of the ranges 0..m. */
  lemma {:induction false} TilesCoverPrefix(rs: seq<Range>, n: nat, m: nat, j: nat)
    requires Tiles(rs, n)
    requires m < |rs| && j < rs[m].end
    ensures exists i :: 0 <= i <= m && rs[i].Contains(j)
  {
    if j < rs[m].start {
      TilesCoverPrefix(rs, n, m - 1, j);
    } else {
      assert rs[m].Contains(j);
    }
  }

  /** The union of the ranges of a tiling of [0, n) is exactly [0, n). */
  lemma TilesCover(rs: seq<Range>, n: nat)
    requires Tiles(rs, n)
    ensures forall j: nat :: j < n <==> Covered(rs, j)
  {
    forall j: nat | j < n
      ensures Covered(rs, j)
    {
      TilesCoverPrefix(rs, n, |rs| - 1, j);
    }
  }

  /**
   The workers' ranges are pairwise disjoint and together cover exactly the
   line indices [0, n), for every n and every worker count.
   */
  lemma PartitionIsExact(n: nat, k: nat)
    requires k >= 1
    ensures forall j: nat :: j < n <==> Covered(ChunkRanges(n, k), j)
    ensures forall a, b, j: nat :: 0 <= a < k && 0 <= b < k && ChunkRanges(n, k)[a].Contains(j) && ChunkRanges(n, k)[b].Contains(j) ==> a == b
  {
    TilesCover(ChunkRanges(n, k), n);
    TilesDisjoint(ChunkRanges(n, k), n);
  }

  /**
   Every range but the last holds n / k lines; the last holds
   n - (k - 1) * (n / k), which is at least n / k and less than n / k + k: it
   absorbs the remainder of the division and nothing more.
   */
  lemma ChunkLengths(n: nat, k: nat)
    requires k >= 1
    ensures forall i :: 0 <= i < k - 1 ==> ChunkRanges(n, k)[i].Length() == n / k
    ensures ChunkRanges(n, k)[k - 1].Length() == n - (k - 1) * (n / k)
    ensures n / k <= ChunkRanges(n, k)[k - 1].Length() < n / k + k
  {
  }

  /** The range of worker i out of k, for n lines, as a pure function of the indices. */
  lemma ChunkRangesAt(n: nat, k: nat)
    requires k >= 1
    ensures forall i :: 0 <= i < k ==> ChunkRanges(n, k)[i] == ChunkRange(n, k, i)
  {
  }

  /**
   With fewer lines than workers, every worker but the last gets the empty
   range and the last gets all n lines (so with no lines, every range is empty).
   */
  lemma FewLines(n: nat, k: nat)
    requires k >= 1 && n < k
    ensures forall i :: 0 <= i < k ==> ChunkRanges(n, k)[i] == if i == k - 1 then Range(0, n) else Range(0, 0)
  {
    ChunkRangesAt(n, k);
    forall i | 0 <= i < k
      ensures ChunkRange(n, k, i) == if i == k - 1 then Range(0, n) else Range(0, 0)
    {
      FewLinesRange(n, k, i);
    }
  }

  lemma FewLinesRange(n: nat, k: nat, i: nat)
    requires k >= 1 && n < k && i < k
    ensures ChunkRange(n, k, i) == if i == k - 1 then Range(0, n) else Range(0, 0)
  {
    var c := ChunkSize(n, k);
    assert c == 0 by {
      if c >= 1 {
        MulLeftMono(1, c, k);
      }
    }
  }

  /**
   Every product the source computes while partitioning (`i * chunk_size` for
   every worker, `(i + 1) * chunk_size` for all but the last) is at most n, and
   the worker index and its successor stay below the worker count's bound; so
   when n fits in a `size_t` and the hardware concurrency in an `unsigned int`,
   none of that unsigned arithmetic wraps around.
   */
  lemma PartitionArithmeticInRange(n: nat, hw: nat, i: nat)
    requires n < SizeTLimit && hw < UIntLimit
    requires i < WorkerCount(hw)
    ensures i * (n / WorkerCount(hw)) <= n
    ensures i < WorkerCount(hw) - 1 ==> (i + 1) * (n / WorkerCount(hw)) <= n
    ensures i + 1 <= WorkerCount(hw) < SizeTLimit
  {
    var k := WorkerCount(hw);
    var r := ChunkRange(n, k, i);
    if i < k - 1 {
      assert (i + 1) * (n / k) == i * (n / k) + n / k;
    }
  }
}
