# analyze_csv: partition, map and merge

A Dafny model of the core of `analyze_csv.cpp`. The program reads every line of
a text file into memory. It then splits the lines among `K` workers, where `K`
is the hardware concurrency but at least 1. Each worker turns each line of its
chunk into `"Processed: " + line`. The per-worker results are concatenated in
worker-index order, and the first `min(10, N)` merged lines are printed.

The model has two modules:

- `Partition` (`partition.dfy`) covers the worker count, the chunk size
  `N / K`, and the half-open range `[i * (N / K), end)` of each worker, where
  the last worker's range ends at `N`. It also defines `Tiles`: a sequence of
  ranges that starts at 0, ends at `N` and is contiguous. On top of that it
  proves that any tiling is disjoint and covers exactly `[0, N)`.
- `Pipeline` (`pipeline.dfy`) covers the per-line transformation, one
  worker's loop (`ProcessChunk`), the launch loop, the merge loop, and the
  report bound. It also gives a functional reference, `RunPipeline`, built
  from `Chunks`, `ProcessEach` and `Flatten`. The lemmas prove that the merged
  output is the line-by-line processing of the input, whatever the worker
  count.

In the source the workers run concurrently. Worker `i` writes only
`results[i]`, and the merge reads the results by index only after every worker
has finished. Running the workers one after another in index order therefore
gives the same `results`, and `LaunchWorkers` is written that way. Because the
model is a set of pure functions, two runs on the same lines produce the same
output by construction.

The remainder of the division goes to the last worker. For five lines and two
workers the chunks are `[a, b]` and `[c, d, e]`, not `[a, b, c]` and `[d, e]`,
because `chunk_size = 5 / 2 = 2` and the last worker takes everything from
line 2 on (`Pipeline.FiveLinesTwoWorkers`). The merged output is the five
processed lines in order either way.

Machine integers: the model uses unbounded naturals, and the source uses
`size_t`, which is 64-bit unsigned on 64-bit targets. The hardware concurrency
is an `unsigned int` (32 bits), so the worker count and the worker index `i + 1`
stay far below the `size_t` bound. `Partition.PartitionArithmeticInRange`
proves that every product the partition loop computes is at most `N`. So when
`N` fits in a `size_t`, the unsigned arithmetic never wraps and the unbounded
model is exact. The product argument works for any `size_t` width, since each
product is at most `N`.

## Model

| member | source | states |
|---|---|---|
| `Partition.WorkerCount` | analyze_csv.cpp:38-39 | the worker count is never zero, so `N / K` is always defined; when the hardware concurrency is positive it is used unchanged, and otherwise the count is 1 |
| `Partition.ChunkSize` | analyze_csv.cpp:40 | the chunk size `c` is the floor of `N / K`: `K * c <= N < K * c + K` |
| `Partition.ChunkBounds` | analyze_csv.cpp:47-50 | for every worker `i < K`, `0 <= i * (N / K) <= end <= N`, where `end` is `N` for the last worker and `(i + 1) * (N / K)` for the others, so the slice of `lines` is in bounds; this rests on `(K - 1) * (N / K) <= N` |
| `Partition.ChunkRange` | analyze_csv.cpp:48-49 | worker `i`'s range is well formed and inside `[0, N]`; the first range starts at 0 and the last ends at `N` |
| `Partition.ChunkRanges` | analyze_csv.cpp:47-50 | there are exactly `K` ranges and they tile `[0, N)`: the first starts at 0, the last ends at `N`, and each ends where the next begins |
| `Partition.TilesOrdered` | analyze_csv.cpp:48-49 | in a tiling, every range ends no later than any later range starts |
| `Partition.TilesDisjoint` | analyze_csv.cpp:48-49 | no line index lies in two different ranges of a tiling |
| `Partition.TilesCover` | analyze_csv.cpp:48-49 | a line index lies in some range of a tiling of `[0, N)` if and only if it is below `N` |
| `Partition.PartitionIsExact` | analyze_csv.cpp:47-50 | the workers' ranges cover exactly `[0, N)` and are pairwise disjoint, for every `N` and every `K >= 1` |
| `Partition.ChunkLengths` | analyze_csv.cpp:40-49 | every range except the last holds `N / K` lines; the last holds `N - (K - 1) * (N / K)` lines, which is at least `N / K` and less than `N / K + K` |
| `Partition.FewLines` | analyze_csv.cpp:40-49 | when `N < K`, every range except the last is `[0, 0)` and the last is `[0, N)`; with `N == 0` every range is empty |
| `Partition.PartitionArithmeticInRange` | analyze_csv.cpp:39-49 | when `N` fits in a `size_t` and the hardware concurrency in an `unsigned int`, `i * chunk_size` and (for non-last workers) `(i + 1) * chunk_size` never exceed `N`, and `i + 1` stays within the worker count, below the `size_t` bound; so none of the loop's unsigned arithmetic wraps |
| `Pipeline.ProcessLine` | analyze_csv.cpp:18 | the processed line is `"Processed: "` followed by the line: it is 11 characters longer, its first 11 characters are the marker, and the rest is the line unchanged |
| `Pipeline.StripPrefix` | analyze_csv.cpp:18 | the inverse of the line-18 transform, defined to state the round trip: a string has a recovered line exactly when it starts with `"Processed: "`, and processing that line gives the string back |
| `Pipeline.ProcessLineInverse` | analyze_csv.cpp:18 | a processed line is 11 characters longer than the line, stripping the marker returns the original line, and distinct lines give distinct results |
| `Pipeline.ProcessAll` | analyze_csv.cpp:14-20 | the reference per-line map: the output has the input's length, and element `j` is the processing of line `j` |
| `Pipeline.ProcessAllAppend` | analyze_csv.cpp:14-20 | processing the concatenation of two sequences equals concatenating their processings |
| `Pipeline.ProcessAllPrefix` | analyze_csv.cpp:14-20 | processing a prefix equals taking that prefix of the processing |
| `Pipeline.ProcessChunk` | analyze_csv.cpp:14-20 | a worker leaves its result vector's earlier contents unchanged and appends exactly one processed line per chunk line, in chunk order; with the empty vector the workers receive, the result has the chunk's length and element `j` is `"Processed: " + chunk[j]` |
| `Pipeline.Slices` | analyze_csv.cpp:50 | each selected chunk has exactly as many lines as its range is long |
| `Pipeline.Chunks` | analyze_csv.cpp:47-50 | the partition yields exactly `K` chunks, one per worker |
| `Pipeline.ProcessEach` | analyze_csv.cpp:43-52 | result slot `i` holds the processing of chunk `i`, for every worker |
| `Pipeline.Flatten` | analyze_csv.cpp:61-64 | the merged vector's length is the sum of the per-worker result lengths, counted from the first worker |
| `Pipeline.TotalLengthLast` | analyze_csv.cpp:61-64 | the summed lengths counted from the first worker equal the summed lengths of all but the last plus the last, so appending one more result adds exactly its length |
| `Pipeline.FlattenAt` | analyze_csv.cpp:61-64 | worker `i`'s result sits unchanged in the merged vector, starting right after the results of workers `0 .. i-1` |
| `Pipeline.FlattenSlicesPrefix` | analyze_csv.cpp:47-50 | concatenating the first `m` chunks of a tiling gives back the lines up to the end of chunk `m - 1` |
| `Pipeline.FlattenSlices` | analyze_csv.cpp:47-50 | concatenating all the chunks of a tiling in order gives back exactly the input lines, so partitioning loses, repeats and reorders nothing |
| `Pipeline.FlattenProcessEach` | analyze_csv.cpp:61-64 | merging the per-chunk results in index order equals processing the concatenation of the chunks |
| `Pipeline.RunPipeline` | analyze_csv.cpp:39-64 | the functional partition, per-chunk processing and in-order merge: its output has one entry per input line, and entry `i` is `"Processed: " + lines[i]`, for every hardware concurrency |
| `Pipeline.RunPipelineCorrect` | analyze_csv.cpp:39-64 | the merged output has length `N`, and element `i` is `"Processed: " + lines[i]` for every `i` |
| `Pipeline.WorkerCountIrrelevant` | analyze_csv.cpp:39-64 | any two hardware-concurrency values, such as 1 and 8, give the same merged output |
| `Pipeline.ReportCount` | analyze_csv.cpp:69 | the report's row count is `min(10, size)`: at most 10, at most the size, and equal to one of the two |
| `Pipeline.Report` | analyze_csv.cpp:69-70 | the report shows `min(10, size)` rows, and row `i` is entry `i` of the merged output |
| `Pipeline.ReportOfPipeline` | analyze_csv.cpp:61-70 | the report is the processing of the first `min(10, N)` input lines |
| `Pipeline.LaunchWorkers` | analyze_csv.cpp:43-53 | after the launch loop there is one result per worker, and result `i` is the processing of chunk `i` |
| `Pipeline.Merge` | analyze_csv.cpp:61-64 | the merge loop's output is the in-order concatenation of the per-worker results |
| `Pipeline.AnalyzeLines` | analyze_csv.cpp:38-71 | the whole run: the merged output is the line-by-line processing of the input, matching the functional pipeline, and the report prints the first `min(10, N)` processed lines |
| `Pipeline.FiveLinesTwoWorkers` | analyze_csv.cpp:40-50 | five lines and two workers give chunks `[a, b]` and `[c, d, e]`, and the output is the five processed lines in order |
| `Pipeline.FewLinesChunks` | analyze_csv.cpp:40-50 | with fewer lines than workers, every chunk except the last is empty and the last chunk is the whole input |
| `Pipeline.OneLineEightWorkers` | analyze_csv.cpp:40-50 | one line and eight workers give seven empty chunks, then a chunk holding the line; the output is that line processed |
| `Pipeline.EmptyInput` | analyze_csv.cpp:40-64 | with no lines every chunk is empty and the merged output is empty, so nothing fails |

## Left out

- File reading (analyze_csv.cpp:24-36). Opening the file, the open-failure message and `getline` are I/O. The model starts from the lines as a `seq<string>`.
- Threads and locks (analyze_csv.cpp:11, 17, 44, 52, 56-58, 67). `std::async`, the futures, `fut.get()`, the per-result mutexes and the console mutex are left out. The workers are modelled as a sequential loop over the worker index, which gives the same results because each worker writes only its own slot.
- Chunk lifetime (analyze_csv.cpp:50-52). The source passes `std::ref(chunk)` to the task. `chunk` is a loop-local vector and is destroyed at the end of each iteration, while the task may still be reading it, so the C++ does not guarantee that a worker sees its chunk. The model passes each chunk by value, which is what the code evidently intends.
- The unused `chunk_index` parameter of `process_chunk` (analyze_csv.cpp:14). It has no effect on the result.
- Console output (analyze_csv.cpp:16, 68-70). The per-line debug print and the report printing are I/O. The model keeps only the rows the report would print (`Pipeline.Report`).
- Timing (analyze_csv.cpp:77-82). It reads the wall clock and uses a `double` duration.
- The hardware concurrency value (analyze_csv.cpp:39). It depends on the platform. The model takes it as an arbitrary natural number `hw`.
