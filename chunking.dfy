/** How `QtAsyncRunner` sizes its pool and splits the input of `run_parallel` into batches. */
module Chunking {
  import opened Outcomes

  /** The `_max_threads` a runner ends up with: `max_threads or os.cpu_count() or 1`
      (0 and None are both falsy), after the thread pool has refused a `max_workers`
      argument that is zero or negative with `ValueError`. */
  function MaxThreadsSetting(requested: Option<int>, cpuCount: Option<nat>): (r: Result<int>)
    ensures r.Ok? ==> r.value >= 1
    ensures r.Err? <==> requested.Some? && requested.value <= 0
    ensures r.Err? ==> r.error == ValueError
    ensures requested.Some? && requested.value >= 1 ==> r == Ok(requested.value)
    ensures requested.None? && cpuCount.Some? && cpuCount.value >= 1 ==> r == Ok(cpuCount.value)
    ensures requested.None? && (cpuCount.None? || cpuCount.value == 0) ==> r == Ok(1)
  {
    var fallback := if cpuCount.Some? && cpuCount.value != 0 then cpuCount.value else 1;
    var maxThreads := if requested.Some? && requested.value != 0 then requested.value else fallback;
    if requested.Some? && requested.value <= 0 then Err(ValueError) else Ok(maxThreads)
  }

  /** `max(max_threads // 2, 1)`: half the pool, rounded down, but never zero.
      Python's `//` floors; for the divisor 2 that agrees with Dafny's `/`. */
  function BatchSize(maxThreads: int): (size: nat)
    ensures size >= 1
    ensures maxThreads >= 2 ==> 2 * size <= maxThreads < 2 * size + 2
    ensures maxThreads < 4 ==> size == 1
  {
    if maxThreads / 2 >= 1 then maxThreads / 2 else 1
  }

  /** The batches `chunked_iter(funcs, size)` produces: consecutive slices of `size`
      elements, the last one possibly shorter, none empty. */
  function Chunks<T>(s: seq<T>, size: nat): (cs: seq<seq<T>>)
    requires size >= 1
    ensures forall i :: 0 <= i < |cs| ==> 0 < |cs[i]| <= size
    ensures forall i :: 0 <= i < |cs| - 1 ==> |cs[i]| == size
    ensures |cs| == 0 <==> |s| == 0
    decreases |s|
  {
    if |s| == 0 then []
    else if |s| <= size then [s]
    else [s[..size]] + Chunks(s[size..], size)
  }

  /** The batches joined back together. */
  function Flatten<T>(cs: seq<seq<T>>): seq<T>
  {
    if cs == [] then [] else cs[0] + Flatten(cs[1..])
  }

  /** Chunking keeps every element exactly once and in order. */
  lemma {:induction false} FlattenChunks<T>(s: seq<T>, size: nat)
    requires size >= 1
    ensures Flatten(Chunks(s, size)) == s
    decreases |s|
  {
    if |s| == 0 {
    } else if |s| <= size {
      assert Flatten([s]) == s + Flatten([]);
    } else {
      var cs := Chunks(s, size);
      FlattenChunks(s[size..], size);
      assert cs[1..] == Chunks(s[size..], size);
      assert s == s[..size] + s[size..];
    }
  }

  /** One step of the generator: from position `from` of `s`, the next batch is the slice
      up to `ChunkEnd`, and the batches after it are those of the rest. */
  function ChunkEnd(from: nat, size: nat, n: nat): (end: nat)
    requires from < n && size >= 1
    ensures from < end <= n && end - from <= size
    ensures end < n ==> end - from == size
  {
    Min(from + size, n)
  }

  lemma ChunksStep<T>(s: seq<T>, from: nat, size: nat)
    requires from < |s| && size >= 1
    ensures Chunks(s[from..], size) != []
    ensures Chunks(s[from..], size)[0] == s[from..ChunkEnd(from, size, |s|)]
    ensures Chunks(s[from..], size)[1..] == Chunks(s[ChunkEnd(from, size, |s|)..], size)
  {
    var end := ChunkEnd(from, size, |s|);
    if |s[from..]| > size {
      assert s[from..][size..] == s[end..];
    } else {
      assert s[end..] == [];
    }
  }
}
