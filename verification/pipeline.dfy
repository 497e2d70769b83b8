/**
 The map-and-merge pipeline of `analyze_csv`: each worker turns its chunk of
 lines into "Processed: " lines, the per-worker results are concatenated in
 worker-index order, and the first (at most) ten merged lines are reported.

 The workers run concurrently in the source, but each one writes only its own
 result slot, so running them one after another in index order yields the same
 results; that is how they are modelled here.
 */
module Pipeline {
  import opened Partition

  /** The marker prepended to every line. */
  const Prefix: string := "Processed: "

  /** The most lines the report shows. */
  const ReportLimit: nat := 10

  /** The per-line transformation: the marker followed by the line itself. */
  function ProcessLine(line: string): (p: string)
    ensures |p| == |Prefix| + |line|
    ensures p[..|Prefix|] == Prefix
    ensures p[|Prefix|..] == line
  {
    Prefix + line
  }

  datatype Option<T> = None | Some(value: T)

  /** Reading a processed line back: the text after the marker, if there is one. */
  function StripPrefix(s: string): (r: Option<string>)
    ensures r.Some? <==> |s| >= |Prefix| && s[..|Prefix|] == Prefix
    ensures r.Some? ==> ProcessLine(r.value) == s
  {
    if |s| >= |Prefix| && s[..|Prefix|] == Prefix then Some(s[|Prefix|..]) else None
  }

  /**
   A processed line is the marker followed by the line, so processing loses
   nothing: stripping the marker gives the line back, and distinct lines stay
   distinct.
   */
  lemma ProcessLineInverse(line: string, other: string)
    ensures |ProcessLine(line)| == |Prefix| + |line|
    ensures StripPrefix(ProcessLine(line)) == Some(line)
    ensures ProcessLine(line) == ProcessLine(other) ==> line == other
  {
  }

  /** True if out is, element for element, the processing of lines. */
  predicate ProcessedFrom(out: seq<string>, lines: seq<string>) {
    && |out| == |lines|
    && (forall j :: 0 <= j < |lines| ==> out[j] == ProcessLine(lines[j]))
  }

  /** Reference definition: every line processed, order kept. */
  function ProcessAll(lines: seq<string>): (out: seq<string>)
    ensures ProcessedFrom(out, lines)
    decreases |lines|
  {
    if |lines| == 0 then []
    else ProcessAll(lines[..|lines| - 1]) + [ProcessLine(lines[|lines| - 1])]
  }

  /** Processing distributes over concatenation. */
  lemma ProcessAllAppend(a: seq<string>, b: seq<string>)
    ensures ProcessAll(a + b) == ProcessAll(a) + ProcessAll(b)
  {
    var l, r := ProcessAll(a + b), ProcessAll(a) + ProcessAll(b);
    assert |l| == |r|;
    forall j | 0 <= j < |l|
      ensures l[j] == r[j]
    {
      if j < |a| {
        assert (a + b)[j] == a[j];
      } else {
        assert (a + b)[j] == b[j - |a|];
      }
    }
  }

  /**
   One worker: append the processing of every line of the chunk, in order, to
   the result vector it was handed.
   */
  method ProcessChunk(chunk: seq<string>, result0: seq<string>) returns (result: seq<string>)
    ensures |result| == |result0| + |chunk|
    ensures result[..|result0|] == result0
    ensures forall j :: 0 <= j < |chunk| ==> result[|result0| + j] == ProcessLine(chunk[j])
  {
    result := result0;
    var j := 0;
    while j < |chunk|
      invariant 0 <= j <= |chunk|
      invariant |result| == |result0| + j
      invariant result[..|result0|] == result0
      invariant forall m :: 0 <= m < j ==> result[|result0| + m] == ProcessLine(chunk[m])
    {
      result := result + [ProcessLine(chunk[j])];
      j := j + 1;
    }
  }

  /** The summed lengths of the sequences in ss, counted from the front. */
  function TotalLength<T>(ss: seq<seq<T>>): nat
    decreases |ss|
  {
    if |ss| == 0 then 0 else |ss[0]| + TotalLength(ss[1..])
  }

  /** Counting the summed lengths from the back gives the same total. */
  lemma {:induction false} TotalLengthLast<T>(ss: seq<seq<T>>)
    requires |ss| > 0
    ensures TotalLength(ss) == TotalLength(ss[..|ss| - 1]) + |ss[|ss| - 1]|
    decreases |ss|
  {
    if |ss| > 1 {
      var tail := ss[1..];
      TotalLengthLast(tail);
      assert ss[..|ss| - 1][1..] == tail[..|tail| - 1];
    } else {
      assert ss[1..] == [] && ss[..0] == [];
    }
  }

  /** Concatenation of a sequence of sequences, in order. */
  function Flatten<T>(ss: seq<seq<T>>): (r: seq<T>)
    ensures |r| == TotalLength(ss)
    decreases |ss|
  {
    if |ss| == 0 then []
    else
      TotalLengthLast(ss);
      Flatten(ss[..|ss| - 1]) + ss[|ss| - 1]
  }

  /**
   Every part sits unchanged in the concatenation, right after the parts that
   precede it.
   */
  lemma {:induction false} FlattenAt<T>(ss: seq<seq<T>>, i: nat)
    requires i < |ss|
    ensures TotalLength(ss[..i]) + |ss[i]| <= |Flatten(ss)|
    ensures Flatten(ss)[TotalLength(ss[..i])..TotalLength(ss[..i]) + |ss[i]|] == ss[i]
    decreases |ss|
  {
    var init := ss[..|ss| - 1];
    if i == |ss| - 1 {
      assert ss[..i] == init;
    } else {
      FlattenAt(init, i);
      assert init[..i] == ss[..i];
    }
  }

  /** The lines each range of rs selects, in range order. */
  function Slices(lines: seq<string>, rs: seq<Range>): (cs: seq<seq<string>>)
    requires forall i :: 0 <= i < |rs| ==> rs[i].start <= rs[i].end <= |lines|
    ensures |cs| == |rs|
    ensures forall i :: 0 <= i < |rs| ==> |cs[i]| == rs[i].Length()
  {
    seq(|rs|, i requires 0 <= i < |rs| => lines[rs[i].start..rs[i].end])
  }

  /** The chunks the workers receive, one per worker, in worker-index order. */
  function Chunks(lines: seq<string>, k: nat): (cs: seq<seq<string>>)
    requires k >= 1
    ensures |cs| == k
  {
    Slices(lines, ChunkRanges(|lines|, k))
  }

  /** The processing of each chunk, chunk by chunk. */
  function ProcessEach(cs: seq<seq<string>>): (ps: seq<seq<string>>)
    ensures |ps| == |cs|
    ensures forall i :: 0 <= i < |cs| ==> ProcessedFrom(ps[i], cs[i])
  {
    seq(|cs|, i requires 0 <= i < |cs| => ProcessAll(cs[i]))
  }

  /**
   Concatenating the slices of the first m ranges of a tiling of the lines
   gives back exactly the lines up to the end of range m - 1.
   */
  lemma {:induction false} FlattenSlicesPrefix(lines: seq<string>, rs: seq<Range>, m: nat)
    requires Tiles(rs, |lines|)
    requires m <= |rs|
    ensures Flatten(Slices(lines, rs)[..m]) == lines[..if m == 0 then 0 else rs[m - 1].end]
  {
    var cs := Slices(lines, rs);
    if m > 0 {
      assert cs[..m][..m - 1] == cs[..m - 1];
      assert Flatten(cs[..m]) == Flatten(cs[..m - 1]) + cs[m - 1];
      FlattenSlicesPrefix(lines, rs, m - 1);
      var s, e := rs[m - 1].start, rs[m - 1].end;
      assert s == if m == 1 then 0 else rs[m - 2].end;
      assert cs[m - 1] == lines[s..e];
      assert lines[..s] + lines[s..e] == lines[..e];
    }
  }

  /** Concatenating the slices of a tiling of the lines reassembles the lines. */
  lemma FlattenSlices(lines: seq<string>, rs: seq<Range>)
    requires Tiles(rs, |lines|)
    ensures Flatten(Slices(lines, rs)) == lines
  {
    var cs := Slices(lines, rs);
    FlattenSlicesPrefix(lines, rs, |rs|);
    assert cs[..|rs|] == cs;
  }

  /** Processing chunk by chunk and merging equals processing the concatenation. */
  lemma {:induction false} FlattenProcessEach(cs: seq<seq<string>>)
    ensures Flatten(ProcessEach(cs)) == ProcessAll(Flatten(cs))
    decreases |cs|
  {
    if |cs| > 0 {
      var init := cs[..|cs| - 1];
      assert ProcessEach(cs)[..|cs| - 1] == ProcessEach(init);
      FlattenProcessEach(init);
      ProcessAllAppend(Flatten(init), cs[|cs| - 1]);
    }
  }

  /**
   The whole pipeline for a given hardware concurrency: partition, process
   every chunk, merge in worker-index order.
   */
  function RunPipeline(lines: seq<string>, hw: nat): (out: seq<string>)
    ensures ProcessedFrom(out, lines)
  {
    var cs := Chunks(lines, WorkerCount(hw));
    FlattenProcessEach(cs);
    FlattenSlices(lines, ChunkRanges(|lines|, WorkerCount(hw)));
    Flatten(ProcessEach(cs))
  }

  /**
   The merged output has one entry per input line, and entry i is the
   processing of line i, whatever the worker count.
   */
  lemma RunPipelineCorrect(lines: seq<string>, hw: nat)
    ensures RunPipeline(lines, hw) == ProcessAll(lines)
    ensures ProcessedFrom(RunPipeline(lines, hw), lines)
  {
    ProcessedFromUnique(RunPipeline(lines, hw), ProcessAll(lines), lines);
  }

  /** The output does not depend on the worker count: one worker and eight agree. */
  lemma WorkerCountIrrelevant(lines: seq<string>, hw1: nat, hw2: nat)
    ensures RunPipeline(lines, hw1) == RunPipeline(lines, hw2)
  {
    RunPipelineCorrect(lines, hw1);
    RunPipelineCorrect(lines, hw2);
  }

  /** How many rows the report prints: min(10, size). */
  function ReportCount(size: nat): (c: nat)
    ensures c <= ReportLimit && c <= size
    ensures c == ReportLimit || c == size
  {
    if ReportLimit < size then ReportLimit else size
  }

  /** The rows the report shows: the first min(10, size) merged lines. */
  function Report(finalResult: seq<string>): (shown: seq<string>)
    ensures |shown| <= ReportLimit
    ensures |shown| == |finalResult| || |shown| == ReportLimit
    ensures |shown| <= |finalResult|
    ensures forall i :: 0 <= i < |shown| ==> shown[i] == finalResult[i]
  {
    finalResult[..ReportCount(|finalResult|)]
  }

  /** The report shows the processing of the first min(10, N) input lines. */
  lemma ReportOfPipeline(lines: seq<string>, hw: nat)
    ensures Report(RunPipeline(lines, hw)) == ProcessAll(lines[..ReportCount(|lines|)])
  {
    RunPipelineCorrect(lines, hw);
    ProcessAllPrefix(lines, ReportCount(|lines|));
  }

  /** Processing commutes with taking a prefix. */
  lemma ProcessAllPrefix(lines: seq<string>, c: nat)
    requires c <= |lines|
    ensures ProcessAll(lines)[..c] == ProcessAll(lines[..c])
  {
    var front, back := lines[..c], lines[c..];
    assert front + back == lines;
    ProcessAllAppend(front, back);
    assert ProcessAll(lines) == ProcessAll(front) + ProcessAll(back);
  }

  /** Two sequences processed from the same lines are equal. */
  lemma ProcessedFromUnique(a: seq<string>, b: seq<string>, lines: seq<string>)
    requires ProcessedFrom(a, lines) && ProcessedFrom(b, lines)
    ensures a == b
  {
  }

  /**
   The launch loop: worker i gets the slice of the lines its range selects,
   and an empty result vector to append to.
   */
  method LaunchWorkers(lines: seq<string>, numThreads: nat) returns (results: seq<seq<string>>)
    requires numThreads >= 1
    ensures |results| == numThreads
    ensures forall c :: 0 <= c < numThreads ==> ProcessedFrom(results[c], Chunks(lines, numThreads)[c])
  {
    ghost var cs := Chunks(lines, numThreads);
    results := [];
    var i := 0;
    while i < numThreads
      invariant 0 <= i <= numThreads
      invariant |results| == i
      invariant forall c :: 0 <= c < i ==> ProcessedFrom(results[c], cs[c])
    {
      var r := ChunkRange(|lines|, numThreads, i);
      ChunkRangesAt(|lines|, numThreads);
      var chunk := lines[r.start..r.end];
      var result := ProcessChunk(chunk, []);
      assert ProcessedFrom(result, cs[i]);
      results := results + [result];
      i := i + 1;
    }
  }

  /** The merge loop: append every worker's result, in worker-index order. */
  method Merge(results: seq<seq<string>>) returns (finalResult: seq<string>)
    ensures finalResult == Flatten(results)
  {
    finalResult := [];
    var i := 0;
    while i < |results|
      invariant 0 <= i <= |results|
      invariant finalResult == Flatten(results[..i])
    {
      assert results[..i + 1][..i] == results[..i];
      finalResult := finalResult + results[i];
      i := i + 1;
    }
    assert results[..|results|] == results;
  }

  /**
   The imperative pipeline as the source runs it: clamp the worker count,
   launch one worker per chunk, merge the results in worker-index order, and
   pick the rows the report prints.
   */
  method AnalyzeLines(lines: seq<string>, hw: nat) returns (finalResult: seq<string>, shown: seq<string>)
    ensures ProcessedFrom(finalResult, lines)
    ensures finalResult == RunPipeline(lines, hw)
    ensures |shown| == ReportCount(|lines|)
    ensures forall i :: 0 <= i < |shown| ==> shown[i] == ProcessLine(lines[i])
  {
    var numThreads := WorkerCount(hw);
    var results := LaunchWorkers(lines, numThreads);
    ghost var cs := Chunks(lines, numThreads);
    forall c | 0 <= c < numThreads
      ensures results[c] == ProcessEach(cs)[c]
    {
      ProcessedFromUnique(results[c], ProcessEach(cs)[c], cs[c]);
    }
    assert results == ProcessEach(cs);
    finalResult := Merge(results);
    RunPipelineCorrect(lines, hw);
    shown := Report(finalResult);
  }

  /**
   Five lines and two workers: the chunk size is 5 / 2 = 2, so the first worker
   gets [a, b] and the last gets [c, d, e]; the merged output is still the five
   processed lines in order.
   */
  lemma FiveLinesTwoWorkers()
    ensures Chunks(["a", "b", "c", "d", "e"], 2) == [["a", "b"], ["c", "d", "e"]]
    ensures RunPipeline(["a", "b", "c", "d", "e"], 2)
         == ["Processed: a", "Processed: b", "Processed: c", "Processed: d", "Processed: e"]
  {
    var lines := ["a", "b", "c", "d", "e"];
    ChunkRangesAt(5, 2);
    assert ChunkRange(5, 2, 0) == Range(0, 2);
    assert ChunkRange(5, 2, 1) == Range(2, 5);
    var cs := Chunks(lines, 2);
    assert cs[0] == lines[0..2] == ["a", "b"];
    assert cs[1] == lines[2..5] == ["c", "d", "e"];
    RunPipelineCorrect(lines, 2);
    ProcessedLiterals(lines, RunPipeline(lines, 2));
  }

  lemma ProcessedLiterals(lines: seq<string>, out: seq<string>)
    requires lines == ["a", "b", "c", "d", "e"]
    requires ProcessedFrom(out, lines)
    ensures out == ["Processed: a", "Processed: b", "Processed: c", "Processed: d", "Processed: e"]
  {
    assert out[0] == ProcessLine("a") == "Processed: a";
    assert out[1] == ProcessLine("b") == "Processed: b";
    assert out[2] == ProcessLine("c") == "Processed: c";
    assert out[3] == ProcessLine("d") == "Processed: d";
    assert out[4] == ProcessLine("e") == "Processed: e";
  }

  /**
   With fewer lines than workers, every chunk but the last is empty and the
   last chunk is the whole input.
   */
  lemma FewLinesChunks(lines: seq<string>, k: nat)
    requires 1 <= k && |lines| < k
    ensures forall i :: 0 <= i < k - 1 ==> Chunks(lines, k)[i] == []
    ensures Chunks(lines, k)[k - 1] == lines
  {
    var rs := ChunkRanges(|lines|, k);
    FewLines(|lines|, k);
    forall i | 0 <= i < k - 1
      ensures Chunks(lines, k)[i] == []
    {
      EmptySlice(lines, rs, i);
    }
    WholeSlice(lines, rs[k - 1]);
  }

  lemma EmptySlice(lines: seq<string>, rs: seq<Range>, i: nat)
    requires Tiles(rs, |lines|)
    requires i < |rs| && rs[i].Length() == 0
    ensures Slices(lines, rs)[i] == []
  {
  }

  lemma WholeSlice(lines: seq<string>, r: Range)
    requires r == Range(0, |lines|)
    ensures lines[r.start..r.end] == lines
  {
  }

  /** One line and eight workers: seven empty chunks, then a chunk holding the line. */
  lemma OneLineEightWorkers(line: string)
    ensures forall i :: 0 <= i < 7 ==> Chunks([line], 8)[i] == []
    ensures Chunks([line], 8)[7] == [line]
    ensures RunPipeline([line], 8) == [ProcessLine(line)]
  {
    FewLinesChunks([line], 8);
    RunPipelineCorrect([line], 8);
  }

  /** No lines: every chunk is empty and the merged output is empty. */
  lemma EmptyInput(hw: nat)
    ensures forall i :: 0 <= i < WorkerCount(hw) ==> Chunks([], WorkerCount(hw))[i] == []
    ensures RunPipeline([], hw) == []
  {
    RunPipelineCorrect([], hw);
  }
}
