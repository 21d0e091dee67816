/**
 * The library's `traverse_dir` after the walk: the cache filter, the split
 * of the remaining paths among worker threads, hashing, the merge of the
 * workers' results into the digest index, and the cache update.
 */
module Scan {
  import opened Wrappers
  import opened Types
  import opened FileSystem
  import opened Hex
  import opened Hasher

  /** `CachedFileHash`: the digest recorded for a path and the mtime it was recorded at. */
  datatype CachedFileHash = CachedFileHash(hash: string, modDate: SystemTime)

  /** The hashing cache, keyed by path. */
  type Cache = map<Path, CachedFileHash>

  /** The index handed to the server: lower-case hex digest to path. */
  type Index = map<string, Path>

  /** A path whose cache record is still current: recorded with the mtime the disk reports now. */
  predicate Hit(p: Path, cache: Cache, disk: Disk)
    requires p in cache ==> p in disk
  {
    p in cache && cache[p].modDate == disk[p].mtime
  }

  /** `hex_encode(md5_hash(path).unwrap())`: the digest of the file's bytes as hex. */
  function Digest(md5: Md5, disk: Disk, p: Path): (h: string)
    requires p in disk
    ensures |h| == 2 * |md5(disk[p].content)|
  {
    HexEncode(md5(disk[p].content))
  }

  /**
   * The `filter` over the walked paths: a hit is dropped from the list to
   * hash and its recorded digest is inserted into `cached` instead. The
   * result is the paths still to hash and the `cached` insertions, in order.
   */
  function FilterCached(paths: seq<Path>, cache: Cache, disk: Disk): (r: (seq<Path>, seq<(string, Path)>))
    requires forall p :: p in paths && p in cache ==> p in disk
    ensures forall p :: p in r.0 <==> p in paths && !Hit(p, cache, disk)
    ensures forall k :: 0 <= k < |r.1| ==>
      r.1[k].1 in paths && Hit(r.1[k].1, cache, disk) && r.1[k].0 == cache[r.1[k].1].hash
    ensures forall p :: p in paths && Hit(p, cache, disk) ==> (cache[p].hash, p) in r.1
    ensures |r.0| + |r.1| == |paths|
    ensures IsSubsequence(r.0, paths)
  {
    if paths == [] then ([], [])
    else
      var rest := FilterCached(paths[1..], cache, disk);
      var p := paths[0];
      if Hit(p, cache, disk) then (rest.0, [(cache[p].hash, p)] + rest.1)
      else
        assert ([p] + rest.0)[1..] == rest.0;
        ([p] + rest.0, rest.1)
  }

  /** The paths of a sequence of (digest, path) pairs, in order. */
  function PathsOf(pairs: seq<(string, Path)>): (ps: seq<Path>)
    ensures |ps| == |pairs| && forall k :: 0 <= k < |pairs| ==> ps[k] == pairs[k].1
  {
    seq(|pairs|, k requires 0 <= k < |pairs| => pairs[k].1)
  }

  /**
   * The filter loses and duplicates nothing: the paths to hash and the
   * hits' paths together are the walked paths with their multiplicities.
   */
  lemma {:induction false} FilterCachedAccounts(paths: seq<Path>, cache: Cache, disk: Disk)
    requires forall p :: p in paths && p in cache ==> p in disk
    ensures var r := FilterCached(paths, cache, disk);
      multiset(r.0) + multiset(PathsOf(r.1)) == multiset(paths)
  {
    if paths != [] {
      var rest := FilterCached(paths[1..], cache, disk);
      FilterCachedAccounts(paths[1..], cache, disk);
      var p := paths[0];
      assert paths == [p] + paths[1..];
      AccountStep(p, rest.0, PathsOf(rest.1), paths[1..]);
      if Hit(p, cache, disk) {
        var hits := [(cache[p].hash, p)] + rest.1;
        assert FilterCached(paths, cache, disk) == (rest.0, hits);
        PathsOfCons((cache[p].hash, p), rest.1);
      } else {
        assert FilterCached(paths, cache, disk) == ([p] + rest.0, rest.1);
      }
    }
  }

  lemma AccountStep(p: Path, a: seq<Path>, b: seq<Path>, tail: seq<Path>)
    requires multiset(a) + multiset(b) == multiset(tail)
    ensures multiset([p] + a) + multiset(b) == multiset([p] + tail)
    ensures multiset(a) + multiset([p] + b) == multiset([p] + tail)
  {
  }

  /** The hits' paths come in walk order, as the paths to hash do. */
  lemma {:induction false} FilterHitsInOrder(paths: seq<Path>, cache: Cache, disk: Disk)
    requires forall p :: p in paths && p in cache ==> p in disk
    ensures IsSubsequence(PathsOf(FilterCached(paths, cache, disk).1), paths)
  {
    if paths != [] {
      var rest := FilterCached(paths[1..], cache, disk);
      FilterHitsInOrder(paths[1..], cache, disk);
      var p := paths[0];
      if Hit(p, cache, disk) {
        var hits := [(cache[p].hash, p)] + rest.1;
        assert FilterCached(paths, cache, disk) == (rest.0, hits);
        PathsOfCons((cache[p].hash, p), rest.1);
        assert PathsOf(hits)[1..] == PathsOf(rest.1);
      } else {
        assert FilterCached(paths, cache, disk).1 == rest.1;
      }
    }
  }

  lemma PathsOfCons(x: (string, Path), pairs: seq<(string, Path)>)
    ensures PathsOf([x] + pairs) == [x.1] + PathsOf(pairs)
  {
    var l := PathsOf([x] + pairs);
    var r := [x.1] + PathsOf(pairs);
    assert |l| == |r|;
    forall k | 0 <= k < |l|
      ensures l[k] == r[k]
    {
      if k > 0 {
        assert ([x] + pairs)[k] == pairs[k - 1];
      }
    }
  }

  /** `HashMap::insert` of every pair in turn, which is also what `extend` does. */
  function InsertAll<K, V>(m: map<K, V>, ps: seq<(K, V)>): map<K, V>
    decreases |ps|
  {
    if ps == [] then m else InsertAll(m[ps[0].0 := ps[0].1], ps[1..])
  }

  lemma {:induction false} InsertAllAppend<K, V>(m: map<K, V>, a: seq<(K, V)>, b: seq<(K, V)>)
    ensures InsertAll(m, a + b) == InsertAll(InsertAll(m, a), b)
    decreases a
  {
    if a == [] {
      assert a + b == b;
    } else {
      assert (a + b)[1..] == a[1..] + b;
      InsertAllAppend(m[a[0].0 := a[0].1], a[1..], b);
    }
  }

  /**
   * After the insertions a key is present iff it was before or some pair
   * carries it; its value comes from a pair, or is the old one if no pair
   * carries the key.
   */
  lemma {:induction false} InsertAllLookup<K, V>(m: map<K, V>, ps: seq<(K, V)>)
    ensures var r := InsertAll(m, ps);
      forall k :: k in r <==> k in m || exists i :: 0 <= i < |ps| && ps[i].0 == k
    ensures var r := InsertAll(m, ps);
      forall k :: k in r ==> (k, r[k]) in ps || (k in m && r[k] == m[k] && forall i :: 0 <= i < |ps| ==> ps[i].0 != k)
    decreases ps
  {
    if ps != [] {
      var m' := m[ps[0].0 := ps[0].1];
      InsertAllLookup(m', ps[1..]);
      assert forall i :: 0 <= i < |ps[1..]| ==> ps[1..][i] == ps[i + 1];
      var r := InsertAll(m, ps);
      assert r == InsertAll(m', ps[1..]);
      forall k | k in m || exists i :: 0 <= i < |ps| && ps[i].0 == k
        ensures k in r
      {
        if k != ps[0].0 && k !in m {
          var i :| 0 <= i < |ps| && ps[i].0 == k;
          assert ps[1..][i - 1].0 == k;
          assert exists j :: 0 <= j < |ps[1..]| && ps[1..][j].0 == k;
        }
      }
    }
  }

  /** The last pair written for a key decides its value: later writers overwrite earlier ones. */
  lemma {:induction false} InsertAllLast<K, V>(m: map<K, V>, ps: seq<(K, V)>, i: nat)
    requires i < |ps|
    requires forall j :: i < j < |ps| ==> ps[j].0 != ps[i].0
    ensures ps[i].0 in InsertAll(m, ps) && InsertAll(m, ps)[ps[i].0] == ps[i].1
    decreases ps
  {
    var m' := m[ps[0].0 := ps[0].1];
    if i == 0 {
      InsertAllLookup(m', ps[1..]);
      assert forall j :: 0 <= j < |ps[1..]| ==> ps[1..][j] == ps[j + 1];
    } else {
      InsertAllLast(m', ps[1..], i - 1);
    }
  }

  /** The number of paths each worker takes, `len / workers`; nothing is divided when there are no workers. */
  function Quota(len: nat, workers: nat): nat
  {
    if workers == 0 then 0 else len / workers
  }

  lemma QuotaFits(len: nat, workers: nat)
    ensures workers * Quota(len, workers) <= len
    ensures workers > 0 ==> len - workers * Quota(len, workers) == len % workers
  {
  }

  lemma MulSteps(n: nat, q: nat)
    requires n >= 1
    ensures (n - 1) * q == n * q - q && n * q >= q
  {
  }

  /**
   * `n` rounds of `split_off(len - q)`: each round takes the last `q`
   * elements of `list` as one worker's chunk, listed in spawn order; what
   * is left at the end is hashed on the calling thread.
   */
  function SplitOff(list: seq<Path>, q: nat, n: nat): (r: (seq<seq<Path>>, seq<Path>))
    requires n * q <= |list|
    ensures |r.0| == n
    decreases n
  {
    if n == 0 then ([], list)
    else
      MulSteps(n, q);
      var idx := |list| - q;
      var rest := SplitOff(list[..idx], q, n - 1);
      ([list[idx..]] + rest.0, rest.1)
  }

  /** One round of `split_off` on a list long enough for the `n` rounds still to come. */
  lemma SplitOffStep(list: seq<Path>, q: nat, n: nat)
    requires 1 <= n && n * q <= |list|
    ensures q <= |list| && (n - 1) * q <= |list| - q
    ensures var r := SplitOff(list, q, n);
      var rest := SplitOff(list[..|list| - q], q, n - 1);
      r == ([list[|list| - q..]] + rest.0, rest.1)
  {
    MulSteps(n, q);
  }

  /** Every chunk holds `q` paths; chunks and remainder together are the list, each element once. */
  lemma {:induction false} SplitOffShape(list: seq<Path>, q: nat, n: nat)
    requires n * q <= |list|
    ensures var r := SplitOff(list, q, n);
      && (forall k :: 0 <= k < n ==> |r.0[k]| == q)
      && |r.1| == |list| - n * q
      && r.1 + FlattenRev(r.0) == list
    decreases n
  {
    if n > 0 {
      MulSteps(n, q);
      var idx := |list| - q;
      var rest := SplitOff(list[..idx], q, n - 1);
      SplitOffShape(list[..idx], q, n - 1);
      var r := SplitOff(list, q, n);
      assert r.0[1..] == rest.0;
      AppendAssoc(rest.1, FlattenRev(rest.0), list[idx..]);
      assert list[..idx] + list[idx..] == list;
    }
  }

  /**
   * The worker loop's `split_off` arithmetic. With `workers > 0`, each of
   * the `workers` chunks takes `len / workers` paths from the tail and the
   * `len % workers` paths left over stay on the calling thread; with no
   * workers nothing is split off. `split_index` never underflows.
   */
  method Partition(paths: seq<Path>, workers: nat) returns (chunks: seq<seq<Path>>, remainder: seq<Path>)
    ensures (QuotaFits(|paths|, workers);
      (chunks, remainder) == SplitOff(paths, Quota(|paths|, workers), workers))
    ensures |chunks| == workers
    ensures forall k :: 0 <= k < workers ==> |chunks[k]| == Quota(|paths|, workers)
    ensures workers > 0 ==> |remainder| == |paths| % workers
    ensures workers == 0 ==> remainder == paths && chunks == []
    ensures remainder + FlattenRev(chunks) == paths
  {
    var len := |paths|;
    ghost var q := Quota(len, workers);
    QuotaFits(len, workers);
    var list := paths;
    chunks := [];
    for j := 0 to workers
      invariant (workers - j) * q <= |list|
      invariant chunks + SplitOff(list, q, workers - j).0 == SplitOff(paths, q, workers).0
      invariant SplitOff(list, q, workers - j).1 == SplitOff(paths, q, workers).1
    {
      SplitOffStep(list, q, workers - j);
      var splitIndex: nat := |list| - len / workers;
      var chunk := list[splitIndex..];
      AppendAssoc(chunks, [chunk], SplitOff(list[..splitIndex], q, workers - j - 1).0);
      list := list[..splitIndex];
      chunks := chunks + [chunk];
    }
    assert SplitOff(list, q, 0) == ([], list);
    assert chunks + [] == chunks;
    remainder := list;
    SplitOffShape(paths, q, workers);
  }

  /** `available_parallelism()`: a positive thread count, or an error. */
  type Parallelism = n: nat | n >= 1 witness 1

  /**
   * `available_parallelism().map(get).unwrap_or(2) - 1`: one thread fewer
   * than available, so a single-threaded machine gets no workers at all and
   * an unknown count gets one.
   */
  function Workers(parallelism: Option<Parallelism>): (w: nat)
    ensures w == 0 <==> parallelism == Some(1)
    ensures parallelism.None? ==> w == 1
    ensures parallelism.Some? ==> w == parallelism.value - 1
  {
    match parallelism
    case Some(n) => n - 1
    case None => 2 - 1
  }

  /** `(hex_encode(md5_hash(&path).unwrap()), path)` for each path, in order. */
  function Pairs(md5: Md5, disk: Disk, paths: seq<Path>): (r: seq<(string, Path)>)
    requires forall p :: p in paths ==> p in disk
    ensures |r| == |paths|
  {
    seq(|paths|, k requires 0 <= k < |paths| => (Digest(md5, disk, paths[k]), paths[k]))
  }

  lemma PairsAppend(md5: Md5, disk: Disk, a: seq<Path>, b: seq<Path>)
    requires forall p :: p in a + b ==> p in disk
    ensures Pairs(md5, disk, a + b) == Pairs(md5, disk, a) + Pairs(md5, disk, b)
  {
  }

  /** The index built by inserting the fresh pair of each path in turn. */
  function Hashed(md5: Md5, disk: Disk, paths: seq<Path>): Index
    requires forall p :: p in paths ==> p in disk
  {
    InsertAll(map[], Pairs(md5, disk, paths))
  }

  lemma HashedAppend(md5: Md5, disk: Disk, a: seq<Path>, b: seq<Path>)
    requires forall p :: p in a + b ==> p in disk
    ensures Hashed(md5, disk, a + b) == InsertAll(Hashed(md5, disk, a), Pairs(md5, disk, b))
  {
    PairsAppend(md5, disk, a, b);
    InsertAllAppend(map[], Pairs(md5, disk, a), Pairs(md5, disk, b));
  }

  lemma HashedSnoc(md5: Md5, disk: Disk, a: seq<Path>, p: Path)
    requires forall q :: q in a + [p] ==> q in disk
    ensures Hashed(md5, disk, a + [p]) == Hashed(md5, disk, a)[Digest(md5, disk, p) := p]
  {
    HashedAppend(md5, disk, a, [p]);
    var ps := Pairs(md5, disk, [p]);
    assert ps == [(Digest(md5, disk, p), p)];
    assert ps[1..] == [];
  }

  /** Every value of an index built from fresh pairs is a hashed path, filed under its own digest. */
  lemma FreshKeyed(md5: Md5, disk: Disk, paths: seq<Path>)
    requires forall p :: p in paths ==> p in disk
    ensures forall h :: h in Hashed(md5, disk, paths) ==>
      Hashed(md5, disk, paths)[h] in paths && Digest(md5, disk, Hashed(md5, disk, paths)[h]) == h
    ensures forall h :: h in Hashed(md5, disk, paths) <==> exists p :: p in paths && Digest(md5, disk, p) == h
  {
    var ps := Pairs(md5, disk, paths);
    var hashed := Hashed(md5, disk, paths);
    InsertAllLookup(map[], ps);
    forall h | h in hashed
      ensures hashed[h] in paths && Digest(md5, disk, hashed[h]) == h
    {
      var k :| 0 <= k < |ps| && ps[k] == (h, hashed[h]);
    }
    forall h | exists p :: p in paths && Digest(md5, disk, p) == h
      ensures h in hashed
    {
      var p :| p in paths && Digest(md5, disk, p) == h;
      var k :| 0 <= k < |paths| && paths[k] == p;
      assert ps[k].0 == h;
    }
  }

  /**
   * The order in which fresh pairs reach the index: first the paths hashed
   * on the calling thread, then each worker's chunk in spawn order.
   */
  function MergeOrder(misses: seq<Path>, workers: nat): (r: seq<Path>)
  {
    QuotaFits(|misses|, workers);
    var split := SplitOff(misses, Quota(|misses|, workers), workers);
    split.1 + Flatten(split.0)
  }

  /** The merge order is a rearrangement of the paths to hash. */
  lemma MergeOrderPermutes(misses: seq<Path>, workers: nat)
    ensures multiset(MergeOrder(misses, workers)) == multiset(misses)
  {
    QuotaFits(|misses|, workers);
    var q := Quota(|misses|, workers);
    var split := SplitOff(misses, q, workers);
    SplitOffShape(misses, q, workers);
    FlattenOrders(split.0);
  }

  /** The freshly hashed part of the index, merged in thread order. */
  function Fresh(md5: Md5, disk: Disk, misses: seq<Path>, workers: nat): Index
    requires forall p :: p in misses ==> p in disk
  {
    MergeOrderPermutes(misses, workers);
    SameElements(MergeOrder(misses, workers), misses);
    Hashed(md5, disk, MergeOrder(misses, workers))
  }

  /**
   * The fresh part of the index files each hashed path under its own
   * digest, and has a key for the digest of every path to hash, whatever
   * the number of workers.
   */
  lemma FreshIndex(md5: Md5, disk: Disk, misses: seq<Path>, workers: nat)
    requires forall p :: p in misses ==> p in disk
    ensures var hashed := Fresh(md5, disk, misses, workers);
      && (forall h :: h in hashed ==> hashed[h] in misses && Digest(md5, disk, hashed[h]) == h)
      && (forall h :: h in hashed <==> exists p :: p in misses && Digest(md5, disk, p) == h)
  {
    var order := MergeOrder(misses, workers);
    MergeOrderPermutes(misses, workers);
    SameElements(order, misses);
    FreshKeyed(md5, disk, order);
    var hashed := Hashed(md5, disk, order);
    assert Fresh(md5, disk, misses, workers) == hashed;
    forall h
      ensures h in hashed ==> hashed[h] in misses && Digest(md5, disk, hashed[h]) == h
      ensures h in hashed <==> exists p :: p in misses && Digest(md5, disk, p) == h
    {
      if exists p :: p in misses && Digest(md5, disk, p) == h {
        var p :| p in misses && Digest(md5, disk, p) == h;
        assert p in order;
      }
    }
  }

  /** The fresh part can be written to the cache: its paths are on disk and each sits under one digest only. */
  lemma FreshRecordable(md5: Md5, disk: Disk, misses: seq<Path>, workers: nat)
    requires forall p :: p in misses ==> p in disk
    ensures var hashed := Fresh(md5, disk, misses, workers);
      && (forall h :: h in hashed ==> hashed[h] in disk)
      && (forall h1, h2 :: h1 in hashed && h2 in hashed && hashed[h1] == hashed[h2] ==> h1 == h2)
  {
    FreshIndex(md5, disk, misses, workers);
  }

  /**
   * The loop over the merged index before the cached pairs are added: every
   * (digest, path) pair of it is recorded in the cache with the path's
   * current mtime. The loop visits the map in no fixed order; the result
   * does not depend on that order because no path is filed under two digests.
   */
  function UpdateCache(cache: Cache, index: Index, disk: Disk): (c: Cache)
    requires forall h :: h in index ==> index[h] in disk
    requires forall h1, h2 :: h1 in index && h2 in index && index[h1] == index[h2] ==> h1 == h2
    ensures forall h :: h in index ==> index[h] in c && c[index[h]] == CachedFileHash(h, disk[index[h]].mtime)
    ensures forall p :: p in c <==> p in cache || p in index.Values
    ensures forall p :: p in cache && p !in index.Values ==> c[p] == cache[p]
  {
    cache + map h | h in index :: index[h] := CachedFileHash(h, disk[index[h]].mtime)
  }

  /** What every `unwrap` after the walk needs: each walked path is on disk, and each path to hash can be read. */
  predicate CanScan(files: seq<Path>, cache: Cache, disk: Disk)
  {
    forall p :: p in files ==> p in disk && (!Hit(p, cache, disk) ==> !HashFails(disk[p]))
  }

  datatype ScanResult = ScanResult(index: Index, cache: Cache)

  /** The index's fresh part: the pairs of the paths to hash, merged in thread order. */
  function FreshPart(files: seq<Path>, cache: Cache, disk: Disk, md5: Md5, workers: nat): Index
    requires CanScan(files, cache, disk)
  {
    Fresh(md5, disk, FilterCached(files, cache, disk).0, workers)
  }

  /** The `cached` map the filter fills: each hit's recorded digest, the later of two paths winning. */
  function CachedPart(files: seq<Path>, cache: Cache, disk: Disk): Index
    requires CanScan(files, cache, disk)
  {
    InsertAll(map[], FilterCached(files, cache, disk).1)
  }

  /**
   * `traverse_dir` after the walk: the index is the fresh digests merged in
   * thread order, with the cached digests added last; the cache gains a
   * record for every path of the fresh part.
   */
  function ScanFiles(files: seq<Path>, cache: Cache, disk: Disk, md5: Md5, workers: nat): (r: ScanResult)
    requires CanScan(files, cache, disk)
    ensures forall p :: p in cache ==> p in r.cache
    ensures forall p :: p in r.cache && p !in cache ==> p in files && !Hit(p, cache, disk)
  {
    var hashed := FreshPart(files, cache, disk, md5, workers);
    FreshRecordable(md5, disk, FilterCached(files, cache, disk).0, workers);
    FreshIndex(md5, disk, FilterCached(files, cache, disk).0, workers);
    ScanResult(hashed + CachedPart(files, cache, disk), UpdateCache(cache, hashed, disk))
  }
}
