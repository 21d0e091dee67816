/** Value types shared by every part of the model. */
module Types {

  /** One byte of file content (`u8`). */
  newtype byte = x: int | 0 <= x < 0x100

  /** A port number (`u16`). */
  newtype u16 = x: int | 0 <= x < 0x1_0000

  /**
   * A path as the sequence of its components. `DirEntry::path()` is the
   * directory's path with the entry's name appended as one more component.
   */
  type Path = seq<string>

  /**
   * A `SystemTime` as reported by `Metadata::modified()`. The model only ever
   * compares two of them for equality.
   */
  datatype SystemTime = SystemTime(secs: int, nanos: int)

  /** Concatenation of a sequence of sequences, first to last. */
  function Flatten<T>(ss: seq<seq<T>>): seq<T>
  {
    if ss == [] then [] else ss[0] + Flatten(ss[1..])
  }

  /** A non-empty sequence is its front followed by its last element. */
  lemma SplitLast<T>(s: seq<T>)
    requires s != []
    ensures s == s[..|s| - 1] + [s[|s| - 1]]
  {
  }

  lemma AppendAssoc<T>(a: seq<T>, b: seq<T>, c: seq<T>)
    ensures (a + b) + c == a + (b + c)
  {
  }

  lemma {:induction false} FlattenAppend<T>(a: seq<seq<T>>, b: seq<seq<T>>)
    ensures Flatten(a + b) == Flatten(a) + Flatten(b)
  {
    if a == [] {
      assert a + b == b;
    } else {
      assert (a + b)[1..] == a[1..] + b;
      FlattenAppend(a[1..], b);
    }
  }

  /** Every element occurs at most once. */
  ghost predicate NoDuplicates<T(!new)>(s: seq<T>)
  {
    forall x :: multiset(s)[x] <= 1
  }

  lemma NoDuplicatesAppend<T(!new)>(a: seq<T>, b: seq<T>)
    requires NoDuplicates(a) && NoDuplicates(b)
    requires forall x :: x in a ==> x !in b
    ensures NoDuplicates(a + b)
  {
    assert multiset(a + b) == multiset(a) + multiset(b);
    forall x
      ensures multiset(a + b)[x] <= 1
    {
      if x in a {
        assert x !in multiset(b);
      }
    }
  }

  /** `a` is `b` with some elements left out, the rest kept in order. */
  predicate IsSubsequence<T(==)>(a: seq<T>, b: seq<T>)
    decreases |b|
  {
    if b == [] then a == []
    else (a != [] && a[0] == b[0] && IsSubsequence(a[1..], b[1..])) || IsSubsequence(a, b[1..])
  }

  /** Concatenation of a sequence of sequences, last to first. */
  function FlattenRev<T>(ss: seq<seq<T>>): seq<T>
  {
    if ss == [] then [] else FlattenRev(ss[1..]) + ss[0]
  }

  /** Both concatenation orders hold the same elements. */
  lemma {:induction false} FlattenOrders<T>(ss: seq<seq<T>>)
    ensures multiset(Flatten(ss)) == multiset(FlattenRev(ss))
  {
    if ss != [] {
      FlattenOrders(ss[1..]);
    }
  }

  lemma SameElements<T>(a: seq<T>, b: seq<T>)
    requires multiset(a) == multiset(b)
    ensures forall x :: x in a <==> x in b
  {
    forall x
      ensures x in a <==> x in b
    {
      assert x in a <==> x in multiset(a);
      assert x in b <==> x in multiset(b);
    }
  }

  /** Every element of every part is in both concatenations. */
  lemma {:induction false} FlattenContains<T>(ss: seq<seq<T>>, j: nat)
    requires j < |ss|
    ensures forall x :: x in ss[j] ==> x in Flatten(ss) && x in FlattenRev(ss)
  {
    if j > 0 {
      FlattenContains(ss[1..], j - 1);
    }
  }

  /** An element of the concatenation is an element of one of the parts. */
  lemma {:induction false} FlattenMembers<T>(ss: seq<seq<T>>)
    ensures forall x :: x in Flatten(ss) ==> exists j :: 0 <= j < |ss| && x in ss[j]
    ensures forall j, x :: 0 <= j < |ss| && x in ss[j] ==> x in Flatten(ss)
  {
    if ss != [] {
      var tail := ss[1..];
      FlattenMembers(tail);
      assert Flatten(ss) == ss[0] + Flatten(tail);
      forall x | x in Flatten(tail)
        ensures exists j :: 0 <= j < |ss| && x in ss[j]
      {
        var j :| 0 <= j < |tail| && x in tail[j];
        assert x in ss[j + 1];
      }
      forall j, x | 0 <= j < |ss| && x in ss[j]
        ensures x in Flatten(ss)
      {
        if j > 0 {
          assert x in tail[j - 1];
        }
      }
    }
  }
}
