/** What the scan after the walk guarantees, and what it does not. */
module ScanProperties {
  import opened Wrappers
  import opened Types
  import opened FileSystem
  import opened Hasher
  import opened Scan

  /** The `cached` map holds exactly the recorded digests of the hits, each filed to a hit carrying it. */
  lemma CachedPartContents(files: seq<Path>, cache: Cache, disk: Disk)
    requires CanScan(files, cache, disk)
    ensures var c := CachedPart(files, cache, disk);
      && (forall h :: h in c <==> exists p :: p in files && Hit(p, cache, disk) && cache[p].hash == h)
      && (forall h :: h in c ==> c[h] in files && Hit(c[h], cache, disk) && cache[c[h]].hash == h)
  {
    var hits := FilterCached(files, cache, disk).1;
    var c := CachedPart(files, cache, disk);
    InsertAllLookup(map[], hits);
    forall h | h in c
      ensures c[h] in files && Hit(c[h], cache, disk) && cache[c[h]].hash == h
    {
      var i :| 0 <= i < |hits| && hits[i] == (h, c[h]);
    }
    forall h | exists p :: p in files && Hit(p, cache, disk) && cache[p].hash == h
      ensures h in c
    {
      var p :| p in files && Hit(p, cache, disk) && cache[p].hash == h;
      var i :| 0 <= i < |hits| && hits[i] == (h, p);
    }
  }

  /**
   * The index returned: a key is the current digest of some path that had
   * to be hashed, or the recorded digest of some hit. Each value is a walked
   * path filed under its recorded digest if it is a hit and under its
   * current digest otherwise.
   */
  lemma IndexContents(files: seq<Path>, cache: Cache, disk: Disk, md5: Md5, workers: nat)
    requires CanScan(files, cache, disk)
    ensures var index := ScanFiles(files, cache, disk, md5, workers).index;
      forall h :: h in index <==>
        || (exists p :: p in files && !Hit(p, cache, disk) && Digest(md5, disk, p) == h)
        || (exists p :: p in files && Hit(p, cache, disk) && cache[p].hash == h)
    ensures var index := ScanFiles(files, cache, disk, md5, workers).index;
      forall h :: h in index ==>
        && index[h] in files
        && (Hit(index[h], cache, disk) ==> cache[index[h]].hash == h)
        && (!Hit(index[h], cache, disk) ==> Digest(md5, disk, index[h]) == h)
  {
    var misses := FilterCached(files, cache, disk).0;
    FreshIndex(md5, disk, misses, workers);
    CachedPartContents(files, cache, disk);
    var index := ScanFiles(files, cache, disk, md5, workers).index;
    var hashed := FreshPart(files, cache, disk, md5, workers);
    assert index == hashed + CachedPart(files, cache, disk);
    forall h
      ensures h in hashed <==> exists p :: p in files && !Hit(p, cache, disk) && Digest(md5, disk, p) == h
    {
      if exists p :: p in files && !Hit(p, cache, disk) && Digest(md5, disk, p) == h {
        var p :| p in files && !Hit(p, cache, disk) && Digest(md5, disk, p) == h;
        assert p in misses;
      }
    }
  }

  /**
   * Cached pairs are added last, so a recorded digest always leads to a hit,
   * even when a freshly hashed file has the same digest.
   */
  lemma CachedWins(files: seq<Path>, cache: Cache, disk: Disk, md5: Md5, workers: nat, p: Path)
    requires CanScan(files, cache, disk)
    requires p in files && Hit(p, cache, disk)
    ensures var index := ScanFiles(files, cache, disk, md5, workers).index;
      var h := cache[p].hash;
      h in index && index[h] in files && Hit(index[h], cache, disk)
  {
    CachedPartContents(files, cache, disk);
    assert cache[p].hash in CachedPart(files, cache, disk);
  }

  /**
   * The cache afterwards: no record is removed; every path of the fresh
   * part gets a record of its current digest and mtime; every other record,
   * the hits' included, is left as it was.
   */
  lemma CacheUpdate(files: seq<Path>, cache: Cache, disk: Disk, md5: Md5, workers: nat)
    requires CanScan(files, cache, disk)
    ensures var updated := ScanFiles(files, cache, disk, md5, workers).cache;
      var hashed := FreshPart(files, cache, disk, md5, workers);
      && (forall p :: p in updated <==> p in cache || p in hashed.Values)
      && (forall h :: h in hashed ==>
            hashed[h] in files && !Hit(hashed[h], cache, disk)
            && updated[hashed[h]] == CachedFileHash(Digest(md5, disk, hashed[h]), disk[hashed[h]].mtime))
      && (forall p :: p in cache && p !in hashed.Values ==> updated[p] == cache[p])
      && (forall p :: p in files && Hit(p, cache, disk) ==> updated[p] == cache[p])
  {
    var misses := FilterCached(files, cache, disk).0;
    FreshIndex(md5, disk, misses, workers);
  }

  /** The merged fresh pairs have the same digests whatever the number of workers. */
  lemma KeysIndependentOfWorkers(files: seq<Path>, cache: Cache, disk: Disk, md5: Md5, w1: nat, w2: nat)
    requires CanScan(files, cache, disk)
    ensures ScanFiles(files, cache, disk, md5, w1).index.Keys == ScanFiles(files, cache, disk, md5, w2).index.Keys
  {
    IndexKeys(files, cache, disk, md5, w1);
    IndexKeys(files, cache, disk, md5, w2);
  }

  /** No two paths to hash share a digest. */
  predicate NoCollisions(files: seq<Path>, cache: Cache, disk: Disk, md5: Md5)
    requires CanScan(files, cache, disk)
  {
    forall p, q ::
      (p in files && q in files && !Hit(p, cache, disk) && !Hit(q, cache, disk)
       && Digest(md5, disk, p) == Digest(md5, disk, q)) ==> p == q
  }

  /** Without digest collisions, how the work is split among threads cannot be observed. */
  lemma WorkersUnobservable(files: seq<Path>, cache: Cache, disk: Disk, md5: Md5, w1: nat, w2: nat)
    requires CanScan(files, cache, disk)
    requires NoCollisions(files, cache, disk, md5)
    ensures ScanFiles(files, cache, disk, md5, w1) == ScanFiles(files, cache, disk, md5, w2)
  {
    var misses := FilterCached(files, cache, disk).0;
    FreshIndex(md5, disk, misses, w1);
    FreshIndex(md5, disk, misses, w2);
    var f1 := FreshPart(files, cache, disk, md5, w1);
    var f2 := FreshPart(files, cache, disk, md5, w2);
    assert f1.Keys == f2.Keys;
    assert forall h :: h in f1 ==> f1[h] == f2[h];
    assert f1 == f2;
  }

  /**
   * A file whose mtime differs from its record is hashed again: its current
   * digest is in the index, and the record is replaced unless another
   * changed or new file with the same digest took its place in the index.
   */
  lemma ChangeDetected(files: seq<Path>, cache: Cache, disk: Disk, md5: Md5, workers: nat, p: Path)
    requires CanScan(files, cache, disk)
    requires p in files && p in cache && cache[p].modDate != disk[p].mtime
    ensures Digest(md5, disk, p) in ScanFiles(files, cache, disk, md5, workers).index
    ensures NoCollisions(files, cache, disk, md5) ==>
      ScanFiles(files, cache, disk, md5, workers).cache[p] == CachedFileHash(Digest(md5, disk, p), disk[p].mtime)
  {
    IndexContents(files, cache, disk, md5, workers);
    var misses := FilterCached(files, cache, disk).0;
    FreshIndex(md5, disk, misses, workers);
    CacheUpdate(files, cache, disk, md5, workers);
    var hashed := FreshPart(files, cache, disk, md5, workers);
    assert p in misses;
    var h := Digest(md5, disk, p);
    assert h in hashed;
  }

  /**
   * The cache trusts an unchanged mtime: the bytes of a hit are never read,
   * so rewriting a hit's content while keeping its mtime changes nothing.
   */
  lemma StaleContentUnseen(files: seq<Path>, cache: Cache, disk: Disk, disk': Disk, md5: Md5, workers: nat)
    requires CanScan(files, cache, disk)
    requires forall p :: p in files ==> p in disk' && disk'[p].mtime == disk[p].mtime
    requires forall p :: p in files && !Hit(p, cache, disk) ==> disk'[p] == disk[p]
    ensures CanScan(files, cache, disk')
    ensures ScanFiles(files, cache, disk', md5, workers) == ScanFiles(files, cache, disk, md5, workers)
  {
    SameMtimesSameHits(files, cache, disk, disk');
    FilterSameHits(files, cache, disk, disk');
    var misses := FilterCached(files, cache, disk).0;
    FreshSameDisk(misses, disk, disk', md5, workers);
    FreshIndex(md5, disk, misses, workers);
    var hashed := FreshPart(files, cache, disk, md5, workers);
    assert FreshPart(files, cache, disk', md5, workers) == hashed;
    UpdateSameMtimes(cache, hashed, disk, disk');
  }

  lemma SameMtimesSameHits(files: seq<Path>, cache: Cache, disk: Disk, disk': Disk)
    requires CanScan(files, cache, disk)
    requires forall p :: p in files ==> p in disk' && disk'[p].mtime == disk[p].mtime
    requires forall p :: p in files && !Hit(p, cache, disk) ==> disk'[p] == disk[p]
    ensures forall p :: p in files ==> Hit(p, cache, disk') == Hit(p, cache, disk)
    ensures CanScan(files, cache, disk')
  {
  }

  lemma UpdateSameMtimes(cache: Cache, index: Index, disk: Disk, disk': Disk)
    requires forall h :: h in index ==> index[h] in disk && index[h] in disk' && disk'[index[h]].mtime == disk[index[h]].mtime
    requires forall h1, h2 :: h1 in index && h2 in index && index[h1] == index[h2] ==> h1 == h2
    ensures UpdateCache(cache, index, disk') == UpdateCache(cache, index, disk)
  {
  }

  lemma FreshSameDisk(misses: seq<Path>, disk: Disk, disk': Disk, md5: Md5, workers: nat)
    requires forall p :: p in misses ==> p in disk && p in disk' && disk'[p] == disk[p]
    ensures Fresh(md5, disk', misses, workers) == Fresh(md5, disk, misses, workers)
  {
    var order := MergeOrder(misses, workers);
    MergeOrderPermutes(misses, workers);
    SameElements(order, misses);
    assert Pairs(md5, disk', order) == Pairs(md5, disk, order);
  }

  lemma {:induction false} FilterSameHits(files: seq<Path>, cache: Cache, disk: Disk, disk': Disk)
    requires forall p :: p in files ==> p in disk && p in disk' && disk'[p].mtime == disk[p].mtime
    ensures FilterCached(files, cache, disk') == FilterCached(files, cache, disk)
  {
    if files != [] {
      FilterSameHits(files[1..], cache, disk, disk');
    }
  }

  /**
   * When no two files to hash share a digest, a second scan of the unchanged
   * disk with the updated cache finds every walked file in the cache and
   * hashes nothing.
   */
  lemma RescanHashesNothing(files: seq<Path>, cache: Cache, disk: Disk, md5: Md5, workers: nat)
    requires CanScan(files, cache, disk)
    requires NoCollisions(files, cache, disk, md5)
    ensures var updated := ScanFiles(files, cache, disk, md5, workers).cache;
      forall p :: p in files ==> Hit(p, updated, disk)
  {
    var hashed := FreshPart(files, cache, disk, md5, workers);
    var updated := ScanFiles(files, cache, disk, md5, workers).cache;
    MissesFiled(files, cache, disk, md5, workers);
    CacheUpdate(files, cache, disk, md5, workers);
    forall p | p in files
      ensures Hit(p, updated, disk)
    {
      if !Hit(p, cache, disk) {
        var h :| h in hashed && hashed[h] == p;
      }
    }
  }

  /** The digest a walked path is filed under: the recorded one for a hit, the current one otherwise. */
  function KeyOf(md5: Md5, disk: Disk, cache: Cache, p: Path): string
    requires p in disk
  {
    if Hit(p, cache, disk) then cache[p].hash else Digest(md5, disk, p)
  }

  /** No two walked paths are filed under the same digest. */
  predicate DistinctKeys(files: seq<Path>, cache: Cache, disk: Disk, md5: Md5)
    requires CanScan(files, cache, disk)
  {
    forall p, q :: p in files && q in files && KeyOf(md5, disk, cache, p) == KeyOf(md5, disk, cache, q) ==> p == q
  }

  /** The index in terms of keys: one key per walked path, each filed to a walked path carrying it. */
  lemma IndexByKeys(files: seq<Path>, cache: Cache, disk: Disk, md5: Md5, workers: nat)
    requires CanScan(files, cache, disk)
    ensures var index := ScanFiles(files, cache, disk, md5, workers).index;
      && (forall h :: h in index <==> exists p :: p in files && KeyOf(md5, disk, cache, p) == h)
      && (forall h :: h in index ==> index[h] in files && KeyOf(md5, disk, cache, index[h]) == h)
  {
    IndexContents(files, cache, disk, md5, workers);
    IndexKeyed(files, cache, disk, md5, ScanFiles(files, cache, disk, md5, workers).index);
  }

  /** The index contents restated through `KeyOf`. */
  lemma IndexKeyed(files: seq<Path>, cache: Cache, disk: Disk, md5: Md5, index: Index)
    requires CanScan(files, cache, disk)
    requires forall h :: h in index <==>
        || (exists p :: p in files && !Hit(p, cache, disk) && Digest(md5, disk, p) == h)
        || (exists p :: p in files && Hit(p, cache, disk) && cache[p].hash == h)
    requires forall h :: h in index ==>
        && index[h] in files
        && (Hit(index[h], cache, disk) ==> cache[index[h]].hash == h)
        && (!Hit(index[h], cache, disk) ==> Digest(md5, disk, index[h]) == h)
    ensures forall h :: h in index <==> exists p :: p in files && KeyOf(md5, disk, cache, p) == h
    ensures forall h :: h in index ==> index[h] in files && KeyOf(md5, disk, cache, index[h]) == h
  {
    forall h | exists p :: p in files && KeyOf(md5, disk, cache, p) == h
      ensures h in index
    {
      var p :| p in files && KeyOf(md5, disk, cache, p) == h;
      if Hit(p, cache, disk) {
        assert exists q :: q in files && Hit(q, cache, disk) && cache[q].hash == h;
      } else {
        assert exists q :: q in files && !Hit(q, cache, disk) && Digest(md5, disk, q) == h;
      }
    }
    forall h | h in index
      ensures index[h] in files && KeyOf(md5, disk, cache, index[h]) == h
    {
    }
  }

  /** The digests a scan can file under: the key of each walked path. */
  function WalkedKeys(files: seq<Path>, cache: Cache, disk: Disk, md5: Md5): set<string>
    requires CanScan(files, cache, disk)
  {
    set p | p in files :: KeyOf(md5, disk, cache, p)
  }

  /** The index has exactly one key per walked path's key, whatever the number of workers. */
  lemma IndexKeys(files: seq<Path>, cache: Cache, disk: Disk, md5: Md5, workers: nat)
    requires CanScan(files, cache, disk)
    ensures ScanFiles(files, cache, disk, md5, workers).index.Keys == WalkedKeys(files, cache, disk, md5)
  {
    IndexByKeys(files, cache, disk, md5, workers);
    KeyedKeys(files, cache, disk, md5, ScanFiles(files, cache, disk, md5, workers).index);
  }

  /** An index keyed by the walked paths' keys has the walked keys as its key set. */
  lemma KeyedKeys(files: seq<Path>, cache: Cache, disk: Disk, md5: Md5, index: Index)
    requires CanScan(files, cache, disk)
    requires forall h :: h in index <==> exists p :: p in files && KeyOf(md5, disk, cache, p) == h
    ensures index.Keys == WalkedKeys(files, cache, disk, md5)
  {
  }

  /**
   * Scans that file every walked path under the same key, without two paths
   * sharing one, return the same index.
   */
  lemma SameKeysSameIndex(files: seq<Path>, c1: Cache, c2: Cache, disk: Disk, md5: Md5, workers: nat)
    requires CanScan(files, c1, disk) && CanScan(files, c2, disk)
    requires forall p :: p in files ==> KeyOf(md5, disk, c1, p) == KeyOf(md5, disk, c2, p)
    requires DistinctKeys(files, c1, disk, md5)
    ensures ScanFiles(files, c1, disk, md5, workers).index == ScanFiles(files, c2, disk, md5, workers).index
  {
    IndexByKeys(files, c1, disk, md5, workers);
    IndexByKeys(files, c2, disk, md5, workers);
    KeyedIndexesAgree(files, c1, c2, disk, md5,
      ScanFiles(files, c1, disk, md5, workers).index, ScanFiles(files, c2, disk, md5, workers).index);
  }

  /** Two indexes keyed as `IndexByKeys` states, under keys that agree and are distinct, are equal. */
  lemma KeyedIndexesAgree(files: seq<Path>, c1: Cache, c2: Cache, disk: Disk, md5: Md5, i1: Index, i2: Index)
    requires CanScan(files, c1, disk) && CanScan(files, c2, disk)
    requires forall p :: p in files ==> KeyOf(md5, disk, c1, p) == KeyOf(md5, disk, c2, p)
    requires DistinctKeys(files, c1, disk, md5)
    requires forall h :: h in i1 <==> exists p :: p in files && KeyOf(md5, disk, c1, p) == h
    requires forall h :: h in i1 ==> i1[h] in files && KeyOf(md5, disk, c1, i1[h]) == h
    requires forall h :: h in i2 <==> exists p :: p in files && KeyOf(md5, disk, c2, p) == h
    requires forall h :: h in i2 ==> i2[h] in files && KeyOf(md5, disk, c2, i2[h]) == h
    ensures i1 == i2
  {
    assert i1.Keys == i2.Keys;
    forall h | h in i1
      ensures i1[h] == i2[h]
    {
      assert KeyOf(md5, disk, c1, i2[h]) == h;
    }
  }

  /** A scan in which every walked path is a hit hashes nothing and leaves the cache as it was. */
  lemma AllHitsKeepCache(files: seq<Path>, cache: Cache, disk: Disk, md5: Md5, workers: nat)
    requires CanScan(files, cache, disk)
    requires forall p :: p in files ==> Hit(p, cache, disk)
    ensures FreshPart(files, cache, disk, md5, workers) == map[]
    ensures ScanFiles(files, cache, disk, md5, workers).cache == cache
  {
    var misses := FilterCached(files, cache, disk).0;
    NothingMissed(files, cache, disk);
    FreshNone(md5, disk, workers);
    assert FreshPart(files, cache, disk, md5, workers) == map[];
    UpdateNothing(cache, disk);
  }

  /** When every walked path is a hit, nothing is left to hash. */
  lemma {:induction false} NothingMissed(files: seq<Path>, cache: Cache, disk: Disk)
    requires forall p :: p in files ==> p in disk && Hit(p, cache, disk)
    ensures FilterCached(files, cache, disk).0 == []
  {
    if files != [] {
      assert files[0] in files;
      NothingMissed(files[1..], cache, disk);
    }
  }

  lemma UpdateNothing(cache: Cache, disk: Disk)
    ensures UpdateCache(cache, map[], disk) == cache
  {
    var c := UpdateCache(cache, map[], disk);
    var none: Index := map[];
    assert none.Values == {};
    assert c.Keys == cache.Keys;
  }

  /** With nothing to hash the fresh part is empty. */
  lemma FreshNone(md5: Md5, disk: Disk, workers: nat)
    ensures Fresh(md5, disk, [], workers) == map[]
  {
    FreshIndex(md5, disk, [], workers);
    var hashed := Fresh(md5, disk, [], workers);
    assert hashed.Keys == {};
  }

  /**
   * After a scan whose walked paths have distinct keys, every walked path is
   * a hit of the updated cache, filed under the same key as before.
   */
  lemma RekeyedAfterScan(files: seq<Path>, cache: Cache, disk: Disk, md5: Md5, workers: nat)
    requires CanScan(files, cache, disk)
    requires DistinctKeys(files, cache, disk, md5)
    ensures var updated := ScanFiles(files, cache, disk, md5, workers).cache;
      && CanScan(files, updated, disk)
      && forall p :: p in files ==>
           Hit(p, updated, disk) && KeyOf(md5, disk, updated, p) == KeyOf(md5, disk, cache, p)
  {
    assert NoCollisions(files, cache, disk, md5) by {
      forall p, q | p in files && q in files && !Hit(p, cache, disk) && !Hit(q, cache, disk)
        && Digest(md5, disk, p) == Digest(md5, disk, q)
        ensures p == q
      {
        assert KeyOf(md5, disk, cache, p) == KeyOf(md5, disk, cache, q);
      }
    }
    RescanHashesNothing(files, cache, disk, md5, workers);
    MissesFiled(files, cache, disk, md5, workers);
    CacheUpdate(files, cache, disk, md5, workers);
    var hashed := FreshPart(files, cache, disk, md5, workers);
    var updated := ScanFiles(files, cache, disk, md5, workers).cache;
    forall p | p in files
      ensures updated[p].hash == KeyOf(md5, disk, cache, p)
    {
      if !Hit(p, cache, disk) {
        var h :| h in hashed && hashed[h] == p;
      }
    }
  }

  /**
   * Rescanning is idempotent when no two walked paths share a key: the
   * second scan, given the first one's cache, hashes nothing and returns
   * the same index and the same cache.
   */
  lemma RescanIdempotent(files: seq<Path>, cache: Cache, disk: Disk, md5: Md5, workers: nat)
    requires CanScan(files, cache, disk)
    requires DistinctKeys(files, cache, disk, md5)
    ensures var first := ScanFiles(files, cache, disk, md5, workers);
      && CanScan(files, first.cache, disk)
      && ScanFiles(files, first.cache, disk, md5, workers) == first
  {
    var first := ScanFiles(files, cache, disk, md5, workers);
    RekeyedAfterScan(files, cache, disk, md5, workers);
    AllHitsKeepCache(files, first.cache, disk, md5, workers);
    SameKeysSameIndex(files, cache, first.cache, disk, md5, workers);
  }

  /** Without collisions every path to hash is the value of some key of the fresh part. */
  lemma MissesFiled(files: seq<Path>, cache: Cache, disk: Disk, md5: Md5, workers: nat)
    requires CanScan(files, cache, disk)
    requires NoCollisions(files, cache, disk, md5)
    ensures var hashed := FreshPart(files, cache, disk, md5, workers);
      forall p :: p in files && !Hit(p, cache, disk) ==> p in hashed.Values
  {
    var misses := FilterCached(files, cache, disk).0;
    FreshIndex(md5, disk, misses, workers);
    var hashed := FreshPart(files, cache, disk, md5, workers);
    forall p | p in files && !Hit(p, cache, disk)
      ensures p in hashed.Values
    {
      assert p in misses;
      var h := Digest(md5, disk, p);
      assert h in hashed && hashed[h] == p;
    }
  }

  /** Two copies of one audio file: same bytes, so the same digest under any hash function. */
  const CopyA: Path := ["music", "a.mp3"]
  const CopyB: Path := ["music", "b.mp3"]
  const Copies: Disk := map[
    CopyA := FileInfo(SystemTime(0, 0), [1, 2, 3], None),
    CopyB := FileInfo(SystemTime(0, 0), [1, 2, 3], None)]

  /**
   * Which of two files with equal digests the index keeps depends on the
   * number of workers: with none, the later path in walk order wins; with
   * two, each worker takes one path and the first path's worker joins last.
   */
  lemma DuplicateWinnerDependsOnWorkers(md5: Md5)
    ensures CanScan([CopyA, CopyB], map[], Copies)
    ensures var h := Digest(md5, Copies, CopyA);
      && h in ScanFiles([CopyA, CopyB], map[], Copies, md5, 0).index
      && h in ScanFiles([CopyA, CopyB], map[], Copies, md5, 2).index
      && ScanFiles([CopyA, CopyB], map[], Copies, md5, 0).index[h] == CopyB
      && ScanFiles([CopyA, CopyB], map[], Copies, md5, 2).index[h] == CopyA
  {
    var files := [CopyA, CopyB];
    CopiesIndex(md5, 0);
    CopiesIndex(md5, 2);
    assert MergeOrder(files, 0) == files;
    CopiesSplit();
    LaterCopyWins(md5, CopyA, CopyB);
    LaterCopyWins(md5, CopyB, CopyA);
  }

  /** The record a scan writes for either copy: their common digest and their common mtime. */
  function CopyRecord(md5: Md5): CachedFileHash
  {
    CachedFileHash(Digest(md5, Copies, CopyA), SystemTime(0, 0))
  }

  /**
   * The copy that loses the digest collision gets no record from this scan:
   * with no workers the index keeps the later copy, and only it is recorded.
   */
  lemma DuplicateLoserUncached(md5: Md5)
    ensures CanScan([CopyA, CopyB], map[], Copies)
    ensures CopyA !in ScanFiles([CopyA, CopyB], map[], Copies, md5, 0).cache
    ensures CopyB in ScanFiles([CopyA, CopyB], map[], Copies, md5, 0).cache
  {
    assert MergeOrder([CopyA, CopyB], 0) == [CopyA, CopyB];
    FirstScan(md5, 0, CopyA, CopyB);
  }

  /** The next scan finds the loser missing from the cache, hashes it and records it. */
  lemma DuplicateLoserRecordedNextScan(md5: Md5)
    ensures CanScan([CopyA, CopyB], map[], Copies)
    ensures var first := ScanFiles([CopyA, CopyB], map[], Copies, md5, 0);
      CanScan([CopyA, CopyB], first.cache, Copies) &&
      CopyA in ScanFiles([CopyA, CopyB], first.cache, Copies, md5, 0).cache
  {
    assert MergeOrder([CopyA, CopyB], 0) == [CopyA, CopyB];
    FirstScan(md5, 0, CopyA, CopyB);
    OneCopyCached(md5, CopyB, 0);
  }

  /**
   * Rescanning is not idempotent when two walked files share a digest: with
   * two workers and nothing changed on disk, the first two scans file the
   * digest under the first copy and the third files it under the second.
   */
  lemma RescanMovesDuplicate(md5: Md5)
    ensures CanScan([CopyA, CopyB], map[], Copies)
    ensures var h := Digest(md5, Copies, CopyA);
      var s1 := ScanFiles([CopyA, CopyB], map[], Copies, md5, 2);
      CanScan([CopyA, CopyB], s1.cache, Copies) &&
      var s2 := ScanFiles([CopyA, CopyB], s1.cache, Copies, md5, 2);
      CanScan([CopyA, CopyB], s2.cache, Copies) &&
      var s3 := ScanFiles([CopyA, CopyB], s2.cache, Copies, md5, 2);
      s1.index == map[h := CopyA] && s2.index == map[h := CopyA] && s3.index == map[h := CopyB]
  {
    CopiesSplit();
    FirstScan(md5, 2, CopyB, CopyA);
    OneCopyCached(md5, CopyA, 2);
    BothCopiesCached(md5, 2);
  }

  /** The index of a scan is its fresh part with its cached part added last. */
  lemma ScanIndexFromParts(files: seq<Path>, cache: Cache, disk: Disk, md5: Md5, workers: nat, hashed: Index, cached: Index)
    requires CanScan(files, cache, disk)
    requires FreshPart(files, cache, disk, md5, workers) == hashed
    requires CachedPart(files, cache, disk) == cached
    ensures ScanFiles(files, cache, disk, md5, workers).index == hashed + cached
  {
  }

  /** The first scan from an empty cache: the index and the cache keep only the copy hashed last. */
  lemma FirstScan(md5: Md5, workers: nat, loser: Path, winner: Path)
    requires loser in Copies && winner in Copies
    requires MergeOrder([CopyA, CopyB], workers) == [loser, winner]
    ensures CanScan([CopyA, CopyB], map[], Copies)
    ensures ScanFiles([CopyA, CopyB], map[], Copies, md5, workers) ==
      ScanResult(map[Digest(md5, Copies, CopyA) := winner], map[winner := CopyRecord(md5)])
  {
    var h := Digest(md5, Copies, CopyA);
    var empty: Cache := map[];
    FirstScanHashed(md5, workers, loser, winner);
    CopiesAllHashed();
    NoOverride(map[h := winner]);
    RecordOne(empty, h, winner, md5);
    ScanFromParts([CopyA, CopyB], empty, Copies, md5, workers, map[h := winner], map[]);
  }

  /** From an empty cache both copies are hashed, and the later one in merge order keeps the digest. */
  lemma FirstScanHashed(md5: Md5, workers: nat, loser: Path, winner: Path)
    requires loser in Copies && winner in Copies
    requires MergeOrder([CopyA, CopyB], workers) == [loser, winner]
    ensures CanScan([CopyA, CopyB], map[], Copies)
    ensures FreshPart([CopyA, CopyB], map[], Copies, md5, workers) == map[Digest(md5, Copies, CopyA) := winner]
  {
    CopiesAllHashed();
    var hashed := FreshPart([CopyA, CopyB], map[], Copies, md5, workers);
    assert hashed == Hashed(md5, Copies, [loser, winner]);
    BothCopiesHashed(md5, loser, winner);
  }

  /** Hashing the two copies one after the other leaves one entry, filed under the second. */
  lemma BothCopiesHashed(md5: Md5, x: Path, y: Path)
    requires x in Copies && y in Copies
    ensures Hashed(md5, Copies, [x, y]) == map[Digest(md5, Copies, CopyA) := y]
  {
    var h := Digest(md5, Copies, CopyA);
    LaterCopyWins(md5, x, y);
    assert Digest(md5, Copies, x) == h;
    InsertAllLookup(map[], Pairs(md5, Copies, [x, y]));
    assert Hashed(md5, Copies, [x, y]).Keys == {h};
  }

  /** A scan is its two parts put together: the fresh digests recorded, the cached ones added last. */
  lemma ScanFromParts(files: seq<Path>, cache: Cache, disk: Disk, md5: Md5, workers: nat, hashed: Index, cached: Index)
    requires CanScan(files, cache, disk)
    requires FreshPart(files, cache, disk, md5, workers) == hashed
    requires CachedPart(files, cache, disk) == cached
    ensures forall h :: h in hashed ==> hashed[h] in disk
    ensures forall h1, h2 :: h1 in hashed && h2 in hashed && hashed[h1] == hashed[h2] ==> h1 == h2
    ensures ScanFiles(files, cache, disk, md5, workers) == ScanResult(hashed + cached, UpdateCache(cache, hashed, disk))
  {
    FreshRecordable(md5, disk, FilterCached(files, cache, disk).0, workers);
  }

  /** Recording one copy filed under the common digest. */
  lemma RecordOne(cache: Cache, h: string, p: Path, md5: Md5)
    requires (p == CopyA || p == CopyB) && h == Digest(md5, Copies, CopyA)
    ensures UpdateCache(cache, map[h := p], Copies) == cache[p := CopyRecord(md5)]
  {
    RecordSingle(cache, h, p, Copies);
    assert Copies[p].mtime == SystemTime(0, 0);
  }

  /** Recording an index of one entry adds or replaces that path's record and nothing else. */
  lemma RecordSingle(cache: Cache, h: string, p: Path, disk: Disk)
    requires p in disk
    ensures UpdateCache(cache, map[h := p], disk) == cache[p := CachedFileHash(h, disk[p].mtime)]
  {
    var index := map[h := p];
    var c := UpdateCache(cache, index, disk);
    var want := cache[p := CachedFileHash(h, disk[p].mtime)];
    assert index.Values == {p} by {
      assert index[h] == p;
    }
    assert c[p] == want[p] by {
      assert index[h] == p;
    }
    assert c.Keys == want.Keys;
    forall q | q in c
      ensures c[q] == want[q]
    {
      if q != p {
        assert q !in index.Values;
      }
    }
  }

  /**
   * A scan with one copy recorded: the other copy is hashed and recorded
   * too, and the cached copy keeps the digest in the index.
   */
  lemma OneCopyCached(md5: Md5, cached: Path, workers: nat)
    requires cached == CopyA || cached == CopyB
    ensures CanScan([CopyA, CopyB], map[cached := CopyRecord(md5)], Copies)
    ensures ScanFiles([CopyA, CopyB], map[cached := CopyRecord(md5)], Copies, md5, workers) ==
      ScanResult(map[Digest(md5, Copies, CopyA) := cached], map[CopyA := CopyRecord(md5), CopyB := CopyRecord(md5)])
  {
    var other := if cached == CopyA then CopyB else CopyA;
    var cache := map[cached := CopyRecord(md5)];
    OneCopyFilter(md5, cached);
    OneHitScan(cache, md5, workers, cached, other);
    assert cache[other := CopyRecord(md5)] == map[CopyA := CopyRecord(md5), CopyB := CopyRecord(md5)];
  }

  /**
   * When one copy is a hit under the common digest and the other is hashed,
   * the hit keeps the digest in the index and the hashed copy is recorded.
   */
  lemma OneHitScan(cache: Cache, md5: Md5, workers: nat, hit: Path, miss: Path)
    requires miss == CopyA || miss == CopyB
    requires CanScan([CopyA, CopyB], cache, Copies)
    requires FilterCached([CopyA, CopyB], cache, Copies) == ([miss], [(Digest(md5, Copies, CopyA), hit)])
    ensures ScanFiles([CopyA, CopyB], cache, Copies, md5, workers) ==
      ScanResult(map[Digest(md5, Copies, CopyA) := hit], cache[miss := CopyRecord(md5)])
  {
    var h := Digest(md5, Copies, CopyA);
    OneHitParts(cache, md5, workers, hit, miss);
    OverrideOne(h, miss, hit);
    RecordOne(cache, h, miss, md5);
    ScanFromParts([CopyA, CopyB], cache, Copies, md5, workers, map[h := miss], map[h := hit]);
  }

  /** Overriding with, or overriding, an empty map changes nothing. */
  lemma NoOverride<K, V>(m: map<K, V>)
    ensures m + map[] == m && map[] + m == m
  {
  }

  /** A one-entry map overridden under its own key. */
  lemma OverrideOne<K, V>(k: K, a: V, b: V)
    ensures map[k := a] + map[k := b] == map[k := b]
  {
  }

  /** The two parts of such a scan: the hashed copy in the fresh part, the hit in the cached part. */
  lemma OneHitParts(cache: Cache, md5: Md5, workers: nat, hit: Path, miss: Path)
    requires miss == CopyA || miss == CopyB
    requires CanScan([CopyA, CopyB], cache, Copies)
    requires FilterCached([CopyA, CopyB], cache, Copies) == ([miss], [(Digest(md5, Copies, CopyA), hit)])
    ensures FreshPart([CopyA, CopyB], cache, Copies, md5, workers) == map[Digest(md5, Copies, CopyA) := miss]
    ensures CachedPart([CopyA, CopyB], cache, Copies) == map[Digest(md5, Copies, CopyA) := hit]
  {
    FreshSingle(md5, Copies, miss, workers);
    assert Digest(md5, Copies, miss) == Digest(md5, Copies, CopyA);
    InsertOne(Digest(md5, Copies, CopyA), hit);
  }

  /** Inserting one pair into an empty map. */
  lemma InsertOne(h: string, p: Path)
    ensures InsertAll(map[], [(h, p)]) == map[h := p]
  {
    assert [(h, p)][1..] == [];
    assert InsertAll(map[h := p], []) == map[h := p];
  }

  /** With one copy recorded, the filter sends the other copy to be hashed and keeps the recorded digest. */
  lemma OneCopyFilter(md5: Md5, cached: Path)
    requires cached == CopyA || cached == CopyB
    ensures CanScan([CopyA, CopyB], map[cached := CopyRecord(md5)], Copies)
    ensures FilterCached([CopyA, CopyB], map[cached := CopyRecord(md5)], Copies) ==
      ([if cached == CopyA then CopyB else CopyA], [(Digest(md5, Copies, CopyA), cached)])
  {
    var other := if cached == CopyA then CopyB else CopyA;
    var cache := map[cached := CopyRecord(md5)];
    CopiesReadable();
    assert Hit(cached, cache, Copies) && !Hit(other, cache, Copies);
    FilterPair(CopyA, CopyB, cache, Copies);
    if cached == CopyA {
      assert [] + [CopyB] == [CopyB];
      assert [(cache[CopyA].hash, CopyA)] + [] == [(cache[CopyA].hash, CopyA)];
    } else {
      assert [CopyA] + [] == [CopyA];
      assert [] + [(cache[CopyB].hash, CopyB)] == [(cache[CopyB].hash, CopyB)];
    }
  }

  /** With both copies recorded nothing is hashed, and the later copy in walk order takes the digest. */
  lemma BothCopiesCached(md5: Md5, workers: nat)
    ensures var cache := map[CopyA := CopyRecord(md5), CopyB := CopyRecord(md5)];
      CanScan([CopyA, CopyB], cache, Copies) &&
      ScanFiles([CopyA, CopyB], cache, Copies, md5, workers).index == map[Digest(md5, Copies, CopyA) := CopyB]
  {
    BothCopiesFilter(md5);
    AllHitsIndex(map[CopyA := CopyRecord(md5), CopyB := CopyRecord(md5)], Digest(md5, Copies, CopyA), md5, workers);
  }

  /** When both copies are hits under one recorded digest, nothing is hashed and the later copy takes it. */
  lemma AllHitsIndex(cache: Cache, h: string, md5: Md5, workers: nat)
    requires CanScan([CopyA, CopyB], cache, Copies)
    requires FilterCached([CopyA, CopyB], cache, Copies) == ([], [(h, CopyA), (h, CopyB)])
    ensures ScanFiles([CopyA, CopyB], cache, Copies, md5, workers).index == map[h := CopyB]
  {
    FreshNone(md5, Copies, workers);
    InsertSameKey(h, CopyA, CopyB);
    NoOverride(map[h := CopyB]);
    ScanIndexFromParts([CopyA, CopyB], cache, Copies, md5, workers, map[], map[h := CopyB]);
  }

  /** Inserting two values under one key keeps the second. */
  lemma InsertSameKey(h: string, x: Path, y: Path)
    ensures InsertAll(map[], [(h, x), (h, y)]) == map[h := y]
  {
    var ps := [(h, x), (h, y)];
    assert ps[1..] == [(h, y)];
    assert [(h, y)][1..] == [];
    assert InsertAll(map[h := x][h := y], []) == map[h := x][h := y];
    assert map[h := x][h := y] == map[h := y];
  }

  /** With both copies recorded, the filter sends nothing to be hashed and keeps both records in walk order. */
  lemma BothCopiesFilter(md5: Md5)
    ensures var cache := map[CopyA := CopyRecord(md5), CopyB := CopyRecord(md5)];
      CanScan([CopyA, CopyB], cache, Copies) &&
      FilterCached([CopyA, CopyB], cache, Copies) ==
        ([], [(Digest(md5, Copies, CopyA), CopyA), (Digest(md5, Copies, CopyA), CopyB)])
  {
    var cache := map[CopyA := CopyRecord(md5), CopyB := CopyRecord(md5)];
    var h := Digest(md5, Copies, CopyA);
    assert Hit(CopyA, cache, Copies) && Hit(CopyB, cache, Copies);
    FilterPair(CopyA, CopyB, cache, Copies);
    assert [(h, CopyA)] + [(h, CopyB)] == [(h, CopyA), (h, CopyB)];
  }

  /** The filter over two walked paths. */
  lemma FilterPair(a: Path, b: Path, cache: Cache, disk: Disk)
    requires a in disk && b in disk
    ensures FilterCached([a, b], cache, disk) ==
      ((if Hit(a, cache, disk) then [] else [a]) + (if Hit(b, cache, disk) then [] else [b]),
       (if Hit(a, cache, disk) then [(cache[a].hash, a)] else []) + (if Hit(b, cache, disk) then [(cache[b].hash, b)] else []))
  {
    var tail := FilterCached([b], cache, disk);
    assert [b][1..] == [];
    assert FilterCached([], cache, disk) == ([], []);
    var fromB := if Hit(b, cache, disk) then [] else [b];
    var hitB := if Hit(b, cache, disk) then [(cache[b].hash, b)] else [];
    if Hit(b, cache, disk) {
      assert tail == ([], [(cache[b].hash, b)] + []);
      assert [(cache[b].hash, b)] + [] == hitB;
    } else {
      assert tail == ([b] + [], []);
      assert [b] + [] == fromB;
    }
    assert tail == (fromB, hitB);
    assert [a, b][1..] == [b];
    if Hit(a, cache, disk) {
      assert FilterCached([a, b], cache, disk) == (tail.0, [(cache[a].hash, a)] + tail.1);
      assert [] + fromB == fromB;
    } else {
      assert FilterCached([a, b], cache, disk) == ([a] + tail.0, tail.1);
      assert [] + hitB == hitB;
    }
  }

  /** Hashing a single path files it under its digest, whatever the number of workers. */
  lemma FreshSingle(md5: Md5, disk: Disk, p: Path, workers: nat)
    requires p in disk
    ensures Fresh(md5, disk, [p], workers) == map[Digest(md5, disk, p) := p]
  {
    FreshIndex(md5, disk, [p], workers);
    var hashed := Fresh(md5, disk, [p], workers);
    assert hashed.Keys == {Digest(md5, disk, p)};
  }

  /** Neither copy fails to hash. */
  lemma CopiesReadable()
    ensures !HashFails(Copies[CopyA]) && !HashFails(Copies[CopyB])
  {
    assert Chunks([1, 2, 3], BUF_SIZE) == [[1, 2, 3]];
  }

  /** With an empty cache the index is exactly the copies hashed in merge order. */
  lemma CopiesIndex(md5: Md5, workers: nat)
    ensures CanScan([CopyA, CopyB], map[], Copies)
    ensures forall p :: p in MergeOrder([CopyA, CopyB], workers) ==> p in Copies
    ensures ScanFiles([CopyA, CopyB], map[], Copies, md5, workers).index ==
      Hashed(md5, Copies, MergeOrder([CopyA, CopyB], workers))
  {
    CopiesAllHashed();
    NothingCachedIndex([CopyA, CopyB], map[], Copies, md5, workers);
  }

  /** When no walked path is a cache hit, the index is the walk hashed in merge order. */
  lemma NothingCachedIndex(files: seq<Path>, cache: Cache, disk: Disk, md5: Md5, workers: nat)
    requires CanScan(files, cache, disk)
    requires FilterCached(files, cache, disk) == (files, [])
    ensures forall p :: p in MergeOrder(files, workers) ==> p in disk
    ensures ScanFiles(files, cache, disk, md5, workers).index == Hashed(md5, disk, MergeOrder(files, workers))
  {
    MergeOrderOnDisk(files, disk, workers);
    assert CachedPart(files, cache, disk) == map[];
    var hashed := FreshPart(files, cache, disk, md5, workers);
    assert hashed == Hashed(md5, disk, MergeOrder(files, workers));
    NoOverride(hashed);
    ScanIndexFromParts(files, cache, disk, md5, workers, hashed, map[]);
  }

  /** The merge order only rearranges the paths, so it stays on disk. */
  lemma MergeOrderOnDisk(files: seq<Path>, disk: Disk, workers: nat)
    requires forall p :: p in files ==> p in disk
    ensures forall p :: p in MergeOrder(files, workers) ==> p in disk
  {
    MergeOrderPermutes(files, workers);
    SameElements(MergeOrder(files, workers), files);
  }

  /** Hashing the two copies one after the other files their common digest under the second. */
  lemma LaterCopyWins(md5: Md5, x: Path, y: Path)
    requires x in Copies && y in Copies
    ensures var h := Digest(md5, Copies, CopyA);
      h in Hashed(md5, Copies, [x, y]) && Hashed(md5, Copies, [x, y])[h] == y
  {
    assert Digest(md5, Copies, y) == Digest(md5, Copies, CopyA);
    InsertAllLast(map[], Pairs(md5, Copies, [x, y]), 1);
  }

  /** With an empty cache both copies are hashed, and nothing comes from the cache. */
  lemma CopiesAllHashed()
    ensures CanScan([CopyA, CopyB], map[], Copies)
    ensures FilterCached([CopyA, CopyB], map[], Copies) == ([CopyA, CopyB], [])
    ensures CachedPart([CopyA, CopyB], map[], Copies) == map[]
  {
    CopiesReadable();
    assert [CopyA, CopyB][1..] == [CopyB];
    assert [CopyB][1..] == [];
    var files := [CopyA, CopyB];
    var empty: Cache := map[];
    assert files[1..] == [CopyB] && files[0] == CopyA;
    assert !Hit(CopyA, empty, Copies) && !Hit(CopyB, empty, Copies);
    assert FilterCached([], empty, Copies) == ([], []);
    assert FilterCached([CopyB], empty, Copies) == ([CopyB] + [], []);
    assert [CopyB] + [] == [CopyB];
    assert FilterCached(files, empty, Copies) == ([CopyA] + [CopyB], []);
    assert [CopyA] + [CopyB] == files;
  }

  /** Two workers take one copy each; the second copy is split off first. */
  lemma CopiesSplit()
    ensures MergeOrder([CopyA, CopyB], 2) == [CopyB, CopyA]
  {
    var files := [CopyA, CopyB];
    assert Quota(2, 2) == 1;
    assert files[..1] == [CopyA] && files[1..] == [CopyB];
    SplitOffStep(files, 1, 2);
    SplitOffStep([CopyA], 1, 1);
    assert [CopyA][..0] == [] && [CopyA][0..] == [CopyA];
    assert SplitOff([], 1, 0) == ([], []);
    assert SplitOff([CopyA], 1, 1) == ([[CopyA]] + [], []);
    assert [[CopyA]] + [] == [[CopyA]];
    var split := SplitOff(files, 1, 2);
    var rest := SplitOff(files[..1], 1, 1);
    assert rest == ([[CopyA]], []);
    assert split == ([files[1..]] + rest.0, rest.1);
    assert split == ([[CopyB]] + [[CopyA]], []);
    assert Flatten(split.0) == [CopyB] + Flatten([[CopyA]]);
    assert Flatten([[CopyA]]) == [CopyA] + Flatten([]);
  }
}
