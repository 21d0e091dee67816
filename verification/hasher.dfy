/**
 * `md5_hash`: the file is streamed into an MD5 hasher in `BUF_SIZE` pieces.
 * The MD5 function itself is a parameter (`md5` below); a streaming hasher
 * computes it over the concatenation of everything passed to `update`, so the
 * model keeps that concatenation and applies `md5` to it at `finalize`.
 */
module Hasher {
  import opened Wrappers
  import opened Types
  import opened FileSystem

  /** The digest function, applied to the whole byte stream at `finalize`. */
  type Md5 = seq<byte> -> seq<byte>

  const BUF_SIZE: nat := 1024 * 1024

  /** The I/O call on the file handle that failed. */
  datatype IoCall = Open | Metadata | StreamPosition | ReadExact | ReadToEnd

  /** `HashError`: the path being hashed and the call that failed on it. */
  datatype HashError = HashError(path: Path, call: IoCall)

  /**
   * The buffers handed to `hasher.update` when reading `content` with a
   * buffer of `size` bytes: full buffers while more than `size` bytes remain,
   * then everything left.
   */
  function Chunks(content: seq<byte>, size: nat): (r: seq<seq<byte>>)
    requires size > 0
    ensures |r| >= 1
    decreases |content|
  {
    if |content| > size then [content[..size]] + Chunks(content[size..], size)
    else [content]
  }

  /**
   * Every buffer but the last is exactly `size` bytes, the last holds at most
   * `size` bytes and is non-empty when the file is, and the buffers
   * concatenate back to the content.
   */
  lemma {:induction false} ChunksShape(content: seq<byte>, size: nat)
    requires size > 0
    ensures var r := Chunks(content, size);
      && (forall i :: 0 <= i < |r| - 1 ==> |r[i]| == size)
      && |r[|r| - 1]| <= size
      && (|content| > 0 ==> |r[|r| - 1]| > 0)
      && Flatten(r) == content
    decreases |content|
  {
    if |content| > size {
      var rest := Chunks(content[size..], size);
      ChunksShape(content[size..], size);
      var r := [content[..size]] + rest;
      assert r[1..] == rest;
      assert content[..size] + content[size..] == content;
    } else {
      assert [content][1..] == [];
    }
  }

  /** The digest of a file is the same whatever buffer size it is streamed with. */
  lemma ChunkingInvariance(content: seq<byte>, size1: nat, size2: nat, md5: Md5)
    requires size1 > 0 && size2 > 0
    ensures md5(Flatten(Chunks(content, size1))) == md5(Flatten(Chunks(content, size2)))
    ensures md5(Flatten(Chunks(content, size1))) == md5(content)
  {
    ChunksShape(content, size1);
    ChunksShape(content, size2);
  }

  /**
   * How many I/O calls `md5_hash` makes on a file when none fails: the open,
   * then `metadata`, `stream_position` and one read per buffer.
   */
  function CallCount(content: seq<byte>): nat
  {
    1 + 3 * |Chunks(content, BUF_SIZE)|
  }

  /** The file's first failing I/O call happens before hashing completes. */
  predicate HashFails(file: FileInfo)
  {
    file.faultAt.Some? && file.faultAt.value < CallCount(file.content)
  }

  /** One full buffer is taken while more than `BUF_SIZE` bytes remain. */
  lemma ChunksStep(content: seq<byte>, pos: nat)
    requires pos + BUF_SIZE < |content|
    ensures Chunks(content[pos..], BUF_SIZE) ==
      [content[pos..pos + BUF_SIZE]] + Chunks(content[pos + BUF_SIZE..], BUF_SIZE)
  {
    assert content[pos..][..BUF_SIZE] == content[pos..pos + BUF_SIZE];
    assert content[pos..][BUF_SIZE..] == content[pos + BUF_SIZE..];
  }

  /** Reading one full buffer keeps the buffers read so far a prefix of `Chunks`. */
  lemma ReadFullBuffer(content: seq<byte>, pos: nat, fed: seq<seq<byte>>)
    requires pos + BUF_SIZE < |content|
    requires fed + Chunks(content[pos..], BUF_SIZE) == Chunks(content, BUF_SIZE)
    ensures (fed + [content[pos..pos + BUF_SIZE]]) + Chunks(content[pos + BUF_SIZE..], BUF_SIZE) ==
      Chunks(content, BUF_SIZE)
  {
    ChunksStep(content, pos);
    AppendAssoc(fed, [content[pos..pos + BUF_SIZE]], Chunks(content[pos + BUF_SIZE..], BUF_SIZE));
  }

  /** A failing call made before the last buffer is read makes the whole hash fail. */
  lemma FailsEarly(file: FileInfo, done: seq<seq<byte>>, rest: seq<seq<byte>>, k: nat)
    requires done + rest == Chunks(file.content, BUF_SIZE)
    requires file.faultAt == Some(k) && k < 1 + 3 * (|done| + |rest|)
    ensures HashFails(file)
  {
    assert |Chunks(file.content, BUF_SIZE)| == |done| + |rest|;
  }

  /** The call among `kinds`, made in order from position `from`, that fails, if any. */
  function FirstFailure(failsAt: int, from: nat, kinds: seq<IoCall>): (r: Option<IoCall>)
    ensures r.Some? <==> from <= failsAt < from + |kinds|
    ensures r.Some? ==> r.value == kinds[failsAt - from]
  {
    if from <= failsAt < from + |kinds| then Some(kinds[failsAt - from]) else None
  }

  /**
   * `md5_hash`. On success the result is the digest of the whole content and
   * `fed` lists the buffers passed to `hasher.update`, in order. Any failing
   * open, metadata, position or read call ends it with a `HashError` naming
   * the path; a file whose calls all succeed is never an error.
   */
  method Md5Hash(path: Path, file: FileInfo, md5: Md5) returns (r: Result<seq<byte>, HashError>, fed: seq<seq<byte>>)
    ensures r.Failure? <==> HashFails(file)
    ensures r.Failure? ==> r.error.path == path
    ensures file.faultAt == Some(0) ==> r == Failure(HashError(path, Open))
    ensures r.Success? ==> r.value == md5(file.content)
    ensures r.Success? ==> fed == Chunks(file.content, BUF_SIZE)
    ensures r.Success? ==> forall i :: 0 <= i < |fed| - 1 ==> |fed[i]| == BUF_SIZE
    ensures r.Success? ==> 0 < |fed| && |fed[|fed| - 1]| <= BUF_SIZE && Flatten(fed) == file.content
  {
    var content := file.content;
    // The position of the first failing call, or -1 when every call succeeds.
    var failsAt: int := if file.faultAt.Some? then file.faultAt.value else -1;
    assert failsAt >= 0 ==> file.faultAt == Some(failsAt);
    fed := [];
    var calls: nat := 0;
    if calls == failsAt {
      r := Failure(HashError(path, Open));
      return;
    }
    calls := calls + 1;
    var pos := 0;
    var hashed: seq<byte> := [];
    assert content[pos..] == content;
    while true
      invariant 0 <= pos <= |content|
      invariant fed + Chunks(content[pos..], BUF_SIZE) == Chunks(content, BUF_SIZE)
      invariant hashed == content[..pos]
      invariant calls == 1 + 3 * |fed|
      invariant failsAt < 0 || failsAt >= calls
      decreases |content| - pos
    {
      var rest := Chunks(content[pos..], BUF_SIZE);
      // `metadata().len() - stream_position()` cannot underflow: pos <= |content|.
      var more := |content| - pos > BUF_SIZE;
      if more {
        ChunksStep(content, pos);
      }
      var calls' := if more then [Metadata, StreamPosition, ReadExact] else [Metadata, StreamPosition];
      var failed := FirstFailure(failsAt, calls, calls');
      if failed.Some? {
        FailsEarly(file, fed, rest, failsAt);
        r := Failure(HashError(path, failed.value));
        return;
      }
      calls := calls + |calls'|;
      if !more {
        break;
      }
      var buf := content[pos..pos + BUF_SIZE];
      ReadFullBuffer(content, pos, fed);
      fed := fed + [buf];
      hashed := hashed + buf;
      assert content[..pos + BUF_SIZE] == content[..pos] + buf;
      pos := pos + BUF_SIZE;
    }
    assert Chunks(content[pos..], BUF_SIZE) == [content[pos..]];
    // `read_to_end` of the remaining bytes.
    if calls == failsAt {
      FailsEarly(file, fed, [content[pos..]], calls);
      r := Failure(HashError(path, ReadToEnd));
      return;
    }
    var buf := content[pos..];
    fed := fed + [buf];
    hashed := hashed + buf;
    assert hashed == content;
    assert |Chunks(content, BUF_SIZE)| == |fed|;
    ChunksShape(content, BUF_SIZE);
    r := Success(md5(hashed));
  }
}
