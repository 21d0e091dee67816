# SubSonicVault scan core in Dafny

SubSonicVault serves a directory of audio files over HTTP. This project
models its scan core, as the library (`src/lib.rs`) and the binary
(`src/main.rs`) implement it, and proves properties of the model:

- **Classifier.** `is_audiofile` whitelists six case-sensitive extensions:
  m4b, m4a, mp3, flac, wav and opus. `extension_to_mime` maps an extension to
  the MIME type the server announces. The two crates hold identical copies,
  so each function is modelled once (`classifier.dfy`).
- **Walker.** `traverse_dir` walks the tree with an explicit stack of
  directories still to list. The library looks each entry up with
  `fs::metadata`, which follows symbolic links. The binary uses
  `DirEntry::file_type`, which does not. `WalkMode` selects the copy
  (`walker.dfy`). The filesystem is a finite tree in which a link holds the
  node it points to (`filesystem.dfy`).
- **Chunked reader.** `md5_hash` feeds the file to the hasher in
  `BUF_SIZE` (1 MiB) buffers (`hasher.dfy`). Every I/O call can fail, and a
  failure turns into a `HashError` carrying the path. MD5 itself is a
  function parameter.
- **Hex encoder.** `hex_encode` (`hex.dfy`).
- **Scan.** This is the library's `traverse_dir` after the walk
  (`scan.dfy`, `library.dfy`):
  - the cache filter;
  - the `split_off` partition among W = parallelism − 1 workers;
  - the merge of the calling thread's pairs and each worker's pairs, in
    spawn order;
  - the cache update;
  - the final `extend` with the cached pairs.
  `scan_properties.dfy` states what the scan guarantees and what it does
  not.
- **Arguments and start-up.** Both copies of `process_args`, the port and
  base-directory choice in the binary's `main`, and the `/files` listing
  with its id/MIME mapping (`args.dfy`, `startup.dfy`, `listing.dfy`).

Inputs the program takes from the operating system are parameters:

- the file tree;
- a `Disk` map from path to (mtime, bytes, index of the first failing I/O
  call);
- the MD5 function;
- `available_parallelism()`;
- the argument list;
- the `is_dir` test.

Each `unwrap` that would panic becomes a precondition:

- every directory the walk pops must be readable;
- every walked path must be on disk;
- every file that has to be hashed must be readable.

### Behaviour worth knowing

- Workers number `available_parallelism() - 1`. A single-core machine
  gets no workers: nothing is split off, and the calling thread hashes
  everything (`Scan.Workers`, `Scan.Partition`).
- Two paths to hash with the same digest overwrite each other in the
  index. Which one survives depends on the number of workers
  (`ScanProperties.DuplicateWinnerDependsOnWorkers`).
- The cache is updated from the merged fresh index, before the cached
  pairs are added. A path that loses a digest collision gets no record from
  that scan (`ScanProperties.DuplicateLoserUncached`). With two identical
  files and no workers, the next scan finds the loser missing, hashes it
  and records it (`ScanProperties.DuplicateLoserRecordedNextScan`). With
  three or more identical files the copies still missing are hashed
  together and collide again, so a scan can record as few as one more copy.
- A path that wins a collision against a cached pair gets a record, even
  though the index then points at the cached path.
- Rescanning an unchanged disk returns the same index when no two walked
  paths share a digest (`ScanProperties.RescanIdempotent`). With two
  identical files it need not: with two workers the first two scans file
  the digest under one copy and the third under the other
  (`ScanProperties.RescanMovesDuplicate`).
- The library looks entries up with `fs::metadata` and the binary with
  `DirEntry::file_type`, and the two can fail independently. In a directory
  that can be listed but not searched, the binary records an audio file
  that the library skips (`Walker.UnsearchableDirSeparates`).
- The binary's `process_args` has no `--help`. The word is an invalid
  option anywhere but last. As the last argument it is taken as the base
  directory when a directory of that name exists (`Args.BinaryRejectsHelp`).

## Model

| member | source | states |
|---|---|---|
| Classifier.IsAudioFile | src/lib.rs:44-62 | an accepted path always has an extension |
| Classifier.IsAudioFileIff | src/lib.rs:44-62 | a path is accepted exactly when its file name is a non-empty stem, a dot, and one of the six whitelisted extensions, compared case-sensitively; names without an extension are rejected |
| Classifier.ExtensionCharacterization | src/lib.rs:45 | `Path::extension` returns a dot-free extension exactly when the name ends in a dot followed by it and has a non-empty stem |
| Classifier.ExtensionToMime | src/lib.rs:160-165 | m4b and m4a are served as audio/mp4; every other extension as audio/ followed by the extension itself |
| Classifier.MimeDeterminesExtension | src/lib.rs:160-165 | every MIME type starts with "audio/"; two extensions share a MIME type only when they are equal, both MPEG-4 extensions, or an MPEG-4 extension and "mp4" |
| Classifier.AudioMimes | src/main.rs:181-186 | every audio path is served as one of audio/mp4, audio/mp3, audio/flac, audio/wav and audio/opus |
| Hex.HexEncode | src/lib.rs:257-259 | the text is twice as long as the digest |
| Hex.HexEncodeDigits | src/lib.rs:257-259 | the text uses only the sixteen lowercase digits, and characters 2i and 2i+1 are the two digits of byte i |
| Hex.HexRoundTrip | src/lib.rs:257-259 | decoding the encoding gives the digest back |
| Hex.HexDecodeCanonical | src/lib.rs:257-259 | only the encoding of a digest decodes to it |
| Hex.HexInjective | src/lib.rs:257-259 | distinct digests get distinct hexadecimal keys |
| Hasher.ChunksShape | src/lib.rs:225-250 | every buffer fed to the hasher but the last holds exactly BUF_SIZE bytes; the last holds at most BUF_SIZE, and at least one byte when the file is non-empty; together they are the file content |
| Hasher.ChunkingInvariance | src/lib.rs:225-252 | the digest does not depend on the buffer size; it is MD5 of the whole content |
| Hasher.Md5Hash | src/lib.rs:217-255 | the hash fails exactly when an open, metadata, position or read call fails before the end; the error names the path, and a failed open is reported as such; on success the result is MD5 of the content and the buffers fed have the shape above |
| FileSystem.ReadDir | src/lib.rs:77 | listing succeeds exactly on a readable directory, after following links |
| Walker.Classify | src/lib.rs:78-87 | an entry whose lookup succeeds is recorded as dir/name exactly when it is an audio regular file, and pushed as dir/name exactly when it is a directory, which is smaller; a failed entry or a failed lookup is skipped; without link following a link is skipped |
| Walker.TraverseDir | src/lib.rs:74-89 | the loop returns the stack walk, and as a multiset it holds exactly the audio files of the recursive descent |
| Walker.ListEntries | src/lib.rs:78-88 | the inner loop records and pushes, in listing order, what one listing round does, and every pushed directory is readable |
| Walker.WalkStackFiles | src/lib.rs:76-89 | for any work stack, the stack walk finds the same multiset of paths as the recursive descent below the stacked directories |
| Walker.WalkExactlyOnce | src/lib.rs:74-89 | with unique names per directory, every audio file below the root is recorded exactly once, and only audio files strictly below the root are recorded |
| Walker.AudioFilesUnder | src/lib.rs:81-82 | only audio files are recorded, each strictly below the directory it was found in |
| Walker.AudioFilesDistinct | src/lib.rs:74-89 | on a tree with unique names per directory, no path is recorded twice |
| Walker.WalkModesAgree | src/main.rs:160-179 | on a tree without links, in which the two kinds of lookup succeed alike, the binary's walk and the library's walk record the same paths in the same order |
| Walker.FollowingFindsMore | src/main.rs:167-174 | where the two kinds of lookup succeed alike, every file the binary's walk finds, the library's walk finds as often or more often |
| Walker.UnsearchableDirSeparates | src/main.rs:167-174 | in a directory that can be listed but not searched, the binary records an audio file and the library records nothing |
| Scan.FilterCached | src/lib.rs:95-110 | a path is kept for hashing exactly when it has no record or its record's mtime differs; each hit yields its recorded digest; the misses keep their relative order |
| Scan.FilterCachedAccounts | src/lib.rs:95-110 | the misses and the hits' paths together are the walked paths, counted with multiplicity |
| Scan.FilterHitsInOrder | src/lib.rs:97-101 | the hits are inserted into the cached map in walk order |
| Scan.InsertAllLookup | src/lib.rs:138 | after inserting pairs, a key is present exactly when it was before or some pair has it, and each value comes from a pair or was there before |
| Scan.InsertAllLast | src/lib.rs:135 | the last pair with a given key decides its value |
| Scan.Workers | src/lib.rs:113-116 | workers are exactly one fewer than the available threads: none on a single thread, one when the count is unknown |
| Scan.Partition | src/lib.rs:112-136 | W chunks of len / W paths each are split off the tail, the len mod W paths left stay on the calling thread, the remainder followed by the chunks in reverse gives back the paths, and W = 0 splits nothing; the split index never underflows |
| Scan.MergeOrderPermutes | src/lib.rs:134-139 | the merge order (remainder, then the chunks in spawn order) is a permutation of the paths to hash |
| Scan.FreshIndex | src/lib.rs:118-143 | the merged fresh index files each hashed path under its own digest, and has a key for the digest of every path to hash, whatever the number of workers |
| Scan.ScanFiles | src/lib.rs:95-157 | the scan only adds to the cache: every earlier record survives, and each new record is for a walked path that was not a hit |
| Scan.UpdateCache | src/lib.rs:144-153 | every path of the fresh index gets a record of its digest and current mtime; no record is removed; other records are unchanged |
| Library.HashFile | src/lib.rs:128 | a file is hashed to the hexadecimal text of MD5 of its content, twice as long as the digest |
| Library.HashChunk | src/lib.rs:125-131 | a worker returns the (digest, path) pair of each path of its chunk, in order |
| Library.SpawnWorkers | src/lib.rs:121-133 | one result per spawned chunk, in spawn order, each the pairs of its chunk |
| Library.HashRemainder | src/lib.rs:134-136 | the calling thread's index is the insertion of its paths' pairs in order |
| Library.JoinWorkers | src/lib.rs:137-139 | joining in spawn order extends the index as if all pairs were inserted in merge order |
| Library.HashMisses | src/lib.rs:112-143 | the partition, spawn, remainder and join together compute the fresh index |
| Library.TraverseDir | src/lib.rs:64-158 | the function always returns Ok, and its result is the scan of the walked files with W = parallelism − 1 |
| ScanProperties.IndexContents | src/lib.rs:95-157 | a digest is in the returned index exactly when it is the current digest of a path to hash or the recorded digest of a hit; each value is a walked path filed under its recorded digest if it is a hit, and under its current digest otherwise |
| ScanProperties.CachedPartContents | src/lib.rs:98-101 | the cached map holds exactly the recorded digests of the hits, each filed to a hit carrying it |
| ScanProperties.CachedWins | src/lib.rs:154 | cached pairs are added last, so a recorded digest always leads to a hit |
| ScanProperties.CacheUpdate | src/lib.rs:144-153 | no record is removed; each fresh path gets its current digest and mtime; every other record, the hits' included, is unchanged |
| ScanProperties.IndexKeys | src/lib.rs:95-157 | the index's digests are exactly the keys of the walked paths: the recorded digest of a hit, the current digest otherwise |
| ScanProperties.KeysIndependentOfWorkers | src/lib.rs:112-143 | the set of digests in the index does not depend on the number of workers |
| ScanProperties.WorkersUnobservable | src/lib.rs:112-157 | without digest collisions, the whole result does not depend on the number of workers |
| ScanProperties.ChangeDetected | src/lib.rs:100-104 | a path whose mtime changed is hashed again and its current digest is indexed; without collisions its record is replaced |
| ScanProperties.StaleContentUnseen | src/lib.rs:98-101 | rewriting a hit's bytes while keeping its mtime changes nothing in the result |
| ScanProperties.RescanHashesNothing | src/lib.rs:144-153 | without collisions, after the scan every walked path is a hit of the updated cache |
| ScanProperties.SameKeysSameIndex | src/lib.rs:95-157 | two scans that file every walked path under the same distinct keys return the same index |
| ScanProperties.RescanIdempotent | src/lib.rs:95-157 | when no two walked paths share a key, scanning again with the updated cache and an unchanged disk returns the same index and the same cache |
| ScanProperties.DuplicateWinnerDependsOnWorkers | src/lib.rs:134-139 | for two identical files, no workers index the later path, and two workers index the earlier one |
| ScanProperties.DuplicateLoserUncached | src/lib.rs:144-154 | of two identical files, the one that loses the collision gets no cache record from that scan |
| ScanProperties.DuplicateLoserRecordedNextScan | src/lib.rs:95-154 | of two identical files, with no workers, the next scan hashes the losing copy and records it |
| ScanProperties.RescanMovesDuplicate | src/lib.rs:95-154 | with two workers and an unchanged disk, two identical files are indexed under the first copy by the first two scans and under the second by the third |
| Args.ParseU16 | src/lib.rs:187 | a port parses exactly from an optional plus sign and at least one decimal digit whose value is at most 65535, and its value is the digits' value |
| Args.ParseU16Padded | src/lib.rs:187 | leading zeros are accepted, with or without a plus sign, so 080 and +00080 both give 80 |
| Args.ParseU16RoundTrip | src/lib.rs:187 | every number up to 65535 parses back from its decimal form, with or without a plus sign; larger numbers are rejected |
| Args.SplitOnce | src/lib.rs:187 | the split fails exactly when the separator is absent, and otherwise splits at its first occurrence |
| Args.ParseOption | src/lib.rs:183-194 | an argument is PrintHelp exactly when it is --help in the library, a Port exactly when it starts with --port= and the rest is a valid u16, and otherwise an InvalidOption naming it; it is never a base directory |
| Args.ParseAll | src/lib.rs:183-198 | the parse succeeds exactly when every argument parses, and then holds their options in order; otherwise it reports the first failing argument |
| Args.ProcessArgs | src/lib.rs:167-199 | no arguments, or a last argument that is not a directory (and not --help in the library), give InvalidOptionsStructure and nothing else does; on success BaseDir comes first and the other options are the parse of the other arguments, in order; when the library's last argument is --help the result is the parse of all arguments, PrintHelp last; an invalid option is the first one the parse of those arguments reports |
| Args.DoubleEqualsRejected | src/main.rs:213-218 | --port==80 is an invalid option |
| Args.BinaryRejectsHelp | src/main.rs:203-222 | in the binary, --help is an invalid option; the parse fails unless --help is the last argument and names a directory, which then becomes the base directory |
| Startup.SelectPort | src/main.rs:25-32 | the first Port option is chosen, and 65421 when there is none |
| Startup.SelectBaseDir | src/main.rs:34-40 | the base directory is present exactly when some option is a BaseDir, and is then the path of the first BaseDir option |
| Startup.StartupChoice | src/main.rs:14-40 | after a successful parse, the server serves the last argument's directory and listens on the first argument's port, or on 65421 when only the directory was given |
| Listing.ListFiles | src/main.rs:101-112 | one entry per file, in list order, with ids 0 to n-1, each announcing the MIME type of its file's extension |
| Listing.FileById | src/main.rs:121-138 | a file is served exactly when its id is in range and it has an extension, and it is served by path, with its last component as the file name and the MIME type of its extension |
| Listing.ListingResolves | src/main.rs:101-138 | every id the listing hands out resolves to the same path with the MIME type the listing announced, and no other id resolves |
| Listing.ListingOfAudioFiles | src/main.rs:104-112 | on the walk's output the listing never panics, its ids are distinct, and every MIME type is one of the five the whitelist can produce |

## Left out

- The HTTP server, the `home` and `scan` handlers, response bodies and headers: network plumbing. `get_file_by_id` is modelled only as the lookup it performs.
- The random pick in `home`: it depends on a random number generator.
- The MD5 compression function: it is a parameter of the model. Only the bytes fed to it are modelled.
- Real filesystem I/O and `SystemTime`. The tree and the `Disk` map are fixed inputs, and mtimes are compared for equality only. Nothing changes on disk during a scan.
- Threads, `crossbeam::scope`, `Mutex` and `AppState`. Worker chunks are hashed one after another. Their results are merged in spawn order, which is the order `join` imposes.
- The per-worker server state. `main` builds a separate `AppState`, with its own walk and its own file list, in each HTTP worker's factory (src/main.rs:42-53). So `/files` and `/file/{id}` can be answered from different lists, and `/scan` refreshes only the list of the worker that serves it. `Listing.ListingResolves` holds for one list at a time.
- Cyclic symbolic links. The tree is finite and acyclic, and a link holds its target. A cycle would make the library's walker run forever.
- The timing `println!`, `print_help`, `std::env::args` and `Path::is_dir`. The argument list and the directory test are parameters.
- The serde structures and JSON output. The `Debug` formatting of paths in the listing is also left out: a listing entry holds the path itself.
- Listing.ListFiles: ids are unbounded naturals rather than `u64`, since a list longer than 2^64 cannot exist.
- Scan.UpdateCache: the source iterates a `HashMap` in an unspecified order. The model requires that no path sits under two digests, and then the order cannot matter. The fresh index always meets this requirement (`Scan.FreshRecordable`).
- Walker.TraverseDir: the model requires every directory the walk pops to be readable. The source panics on the first one that is not.
