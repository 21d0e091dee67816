/**
 * The library's `traverse_dir` end to end: walk the tree following links,
 * drop the paths the cache still vouches for, hash the rest on the calling
 * thread and on the workers, merge, update the cache, add the cached pairs.
 *
 * The worker threads are run one after another: each hashes its own chunk
 * independently of the others, and their results are merged in spawn order
 * after the calling thread's, which is the order `join` imposes.
 */
module Library {
  import opened Wrappers
  import opened Types
  import opened FileSystem
  import opened Hex
  import opened Hasher
  import Walker
  import opened Scan

  /** `hex_encode(md5_hash(&path).unwrap())`, on a file that can be read. */
  method HashFile(path: Path, disk: Disk, md5: Md5) returns (h: string)
    requires path in disk && !HashFails(disk[path])
    ensures h == Digest(md5, disk, path)
    ensures |h| == 2 * |md5(disk[path].content)|
  {
    var r, _ := Md5Hash(path, disk[path], md5);
    h := HexEncode(r.value);
  }

  /** One worker's closure: the pair of each path of its chunk, in chunk order. */
  method HashChunk(chunk: seq<Path>, disk: Disk, md5: Md5) returns (pairs: seq<(string, Path)>)
    requires forall p :: p in chunk ==> p in disk && !HashFails(disk[p])
    ensures pairs == Pairs(md5, disk, chunk)
  {
    pairs := [];
    for j := 0 to |chunk|
      invariant pairs == Pairs(md5, disk, chunk[..j])
    {
      var h := HashFile(chunk[j], disk, md5);
      assert chunk[..j + 1] == chunk[..j] + [chunk[j]];
      PairsAppend(md5, disk, chunk[..j], [chunk[j]]);
      pairs := pairs + [(h, chunk[j])];
    }
    assert chunk[..|chunk|] == chunk;
  }

  /** Spawning the workers: each hashes its own chunk. */
  method SpawnWorkers(chunks: seq<seq<Path>>, disk: Disk, md5: Md5) returns (results: seq<seq<(string, Path)>>)
    requires forall k, p :: 0 <= k < |chunks| && p in chunks[k] ==> p in disk && !HashFails(disk[p])
    ensures |results| == |chunks|
    ensures forall k :: 0 <= k < |chunks| ==> results[k] == Pairs(md5, disk, chunks[k])
  {
    results := [];
    for j := 0 to |chunks|
      invariant |results| == j
      invariant forall k :: 0 <= k < j ==> results[k] == Pairs(md5, disk, chunks[k])
    {
      var pairs := HashChunk(chunks[j], disk, md5);
      results := results + [pairs];
    }
  }

  /** The `for path in audiofiles_paths` loop: the calling thread inserts the pairs of what the workers left. */
  method HashRemainder(remainder: seq<Path>, disk: Disk, md5: Md5) returns (index: Index)
    requires forall p :: p in remainder ==> p in disk && !HashFails(disk[p])
    ensures index == Hashed(md5, disk, remainder)
  {
    index := map[];
    for j := 0 to |remainder|
      invariant index == Hashed(md5, disk, remainder[..j])
    {
      var h := HashFile(remainder[j], disk, md5);
      assert remainder[..j + 1] == remainder[..j] + [remainder[j]];
      HashedSnoc(md5, disk, remainder[..j], remainder[j]);
      index := index[h := remainder[j]];
    }
    assert remainder[..|remainder|] == remainder;
  }

  /** `join` each worker and `extend` the index with its pairs, in spawn order. */
  method JoinWorkers(index: Index, remainder: seq<Path>, chunks: seq<seq<Path>>, results: seq<seq<(string, Path)>>,
                     disk: Disk, md5: Md5) returns (merged: Index)
    requires forall p :: p in remainder ==> p in disk
    requires forall k, p :: 0 <= k < |chunks| && p in chunks[k] ==> p in disk
    requires index == Hashed(md5, disk, remainder)
    requires |results| == |chunks|
    requires forall k :: 0 <= k < |chunks| ==> results[k] == Pairs(md5, disk, chunks[k])
    ensures (FlattenMembers(chunks);
      merged == Hashed(md5, disk, remainder + Flatten(chunks)))
  {
    merged := index;
    assert remainder + Flatten(chunks[..0]) == remainder;
    for j := 0 to |results|
      invariant forall p :: p in Flatten(chunks[..j]) ==> p in disk
      invariant merged == Hashed(md5, disk, remainder + Flatten(chunks[..j]))
    {
      JoinStep(md5, disk, remainder, chunks, j);
      merged := InsertAll(merged, results[j]);
    }
    assert chunks[..|chunks|] == chunks;
  }

  /** Extending the index with one more worker's pairs. */
  lemma JoinStep(md5: Md5, disk: Disk, remainder: seq<Path>, chunks: seq<seq<Path>>, j: nat)
    requires j < |chunks|
    requires forall p :: p in remainder ==> p in disk
    requires forall k, p :: 0 <= k < |chunks| && p in chunks[k] ==> p in disk
    ensures forall p :: p in Flatten(chunks[..j + 1]) ==> p in disk
    ensures forall p :: p in Flatten(chunks[..j]) ==> p in disk
    ensures Hashed(md5, disk, remainder + Flatten(chunks[..j + 1]))
         == InsertAll(Hashed(md5, disk, remainder + Flatten(chunks[..j])), Pairs(md5, disk, chunks[j]))
  {
    FlattenMembers(chunks[..j + 1]);
    FlattenMembers(chunks[..j]);
    assert chunks[..j + 1] == chunks[..j] + [chunks[j]];
    FlattenAppend(chunks[..j], [chunks[j]]);
    assert [chunks[j]][1..] == [];
    assert Flatten([chunks[j]]) == chunks[j] + Flatten([]) == chunks[j];
    AppendAssoc(remainder, Flatten(chunks[..j]), chunks[j]);
    assert remainder + Flatten(chunks[..j + 1]) == remainder + Flatten(chunks[..j]) + chunks[j];
    HashedAppend(md5, disk, remainder + Flatten(chunks[..j]), chunks[j]);
  }

  /**
   * `traverse_dir(base_dir, cache)`. It returns `Ok` whenever it returns:
   * every failure on the way is an `unwrap` that panics, and the
   * preconditions rule those out.
   */
  method TraverseDir(base: Path, root: Node, cache: Cache, disk: Disk, md5: Md5, parallelism: Option<Parallelism>)
    returns (r: Result<ScanResult, HashError>)
    requires Walker.DirsReadable(Walker.FollowLinks, root)
    requires CanScan(Walker.WalkStack(Walker.FollowLinks, [(base, root)]), cache, disk)
    ensures r.Success?
    ensures r.value == ScanFiles(Walker.WalkStack(Walker.FollowLinks, [(base, root)]), cache, disk, md5, Workers(parallelism))
  {
    var files := Walker.TraverseDir(Walker.FollowLinks, base, root);
    var filtered := FilterCached(files, cache, disk);
    var misses, hits := filtered.0, filtered.1;
    var index := HashMisses(misses, disk, md5, Workers(parallelism));
    FreshRecordable(md5, disk, misses, Workers(parallelism));
    // The cache update loop runs before the cached pairs join the index.
    var updated := UpdateCache(cache, index, disk);
    index := index + InsertAll(map[], hits);
    r := Success(ScanResult(index, updated));
  }

  /**
   * Hashing the paths the cache did not vouch for: split them among the
   * workers, hash the remainder on the calling thread, then join the
   * workers in spawn order.
   */
  method HashMisses(misses: seq<Path>, disk: Disk, md5: Md5, workers: nat) returns (index: Index)
    requires forall p :: p in misses ==> p in disk && !HashFails(disk[p])
    ensures index == Fresh(md5, disk, misses, workers)
  {
    var chunks, remainder := Partition(misses, workers);
    MergeOrderPermutes(misses, workers);
    SameElements(remainder + Flatten(chunks), misses);
    FlattenMembers(chunks);
    var results := SpawnWorkers(chunks, disk, md5);
    index := HashRemainder(remainder, disk, md5);
    index := JoinWorkers(index, remainder, chunks, results, disk, md5);
  }
}
