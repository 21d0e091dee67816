/**
 * `traverse_dir`'s directory walk: an explicit stack of directories still to
 * list, popped from the end; every entry of a listed directory is either
 * recorded (a regular audio file), pushed (a directory) or skipped.
 *
 * The library's copy looks entries up with `fs::metadata`, which follows
 * symbolic links; the binary's copy uses `DirEntry::file_type`, which does
 * not. `WalkMode` selects between the two; everything else is shared.
 */
module Walker {
  import opened Wrappers
  import opened Types
  import opened FileSystem
  import opened Classifier

  datatype WalkMode = FollowLinks | NoFollow

  /** The node whose type the walker inspects for an entry's node. */
  function Kind(mode: WalkMode, n: Node): (k: Node)
    ensures NodeSize(k) <= NodeSize(n)
  {
    if mode == FollowLinks then Resolve(n) else n
  }

  /** What the walk does with one directory entry. */
  datatype Step = Record(path: Path) | Push(path: Path, dir: Node) | Skip

  /**
   * Whether the walker's type lookup of a `DirEntry` succeeds: the library
   * calls `fs::metadata`, the binary `DirEntry::file_type`.
   */
  predicate LookupOk(mode: WalkMode, e: Entry)
    requires e.Entry?
  {
    if mode == FollowLinks then e.metaOk else e.typeOk
  }

  /**
   * One iteration of the `for entry in entries` loop. Entries whose
   * `DirEntry` or type lookup fails are skipped; a regular audio file is
   * recorded; a directory is pushed, never recorded; anything else is
   * skipped.
   */
  function Classify(mode: WalkMode, dir: Path, e: Entry): (s: Step)
    ensures s.Push? ==> s.dir.Dir? && NodeSize(s.dir) < EntrySize(e)
    ensures s.Push? ==> e.Entry? && s.path == dir + [e.name] && s.dir == Kind(mode, e.node)
    ensures s.Record? ==> e.Entry? && s.path == dir + [e.name] && IsAudioFile(s.path) && Kind(mode, e.node).File?
    ensures e.Entry? && LookupOk(mode, e) && Kind(mode, e.node).File? && IsAudioFile(dir + [e.name]) ==>
      s == Record(dir + [e.name])
    ensures e.Entry? && LookupOk(mode, e) && Kind(mode, e.node).Dir? ==> s == Push(dir + [e.name], Kind(mode, e.node))
    ensures (e.BrokenEntry? || !LookupOk(mode, e)) ==> s.Skip?
    ensures mode == NoFollow && e.Entry? && (e.node.Symlink? || e.node.DanglingSymlink?) ==> s.Skip?
  {
    match e
    case BrokenEntry => Skip
    case Entry(name, node, _, _) =>
      if !LookupOk(mode, e) then Skip
      else if Kind(mode, node).File? && IsAudioFile(dir + [name]) then Record(dir + [name])
      else if Kind(mode, node).Dir? then Push(dir + [name], Kind(mode, node))
      else Skip
  }

  /** The total size of the directories on the work stack. */
  function StackSize(stack: seq<(Path, Node)>): nat
  {
    if stack == [] then 0 else NodeSize(stack[0].1) + StackSize(stack[1..])
  }

  lemma {:induction false} StackSizeAppend(a: seq<(Path, Node)>, b: seq<(Path, Node)>)
    ensures StackSize(a + b) == StackSize(a) + StackSize(b)
  {
    if a == [] {
      assert a + b == b;
    } else {
      assert (a + b)[1..] == a[1..] + b;
      StackSizeAppend(a[1..], b);
    }
  }

  /**
   * The paths recorded and the directories pushed, in order, while looping
   * over the entries `es` of the directory `dir`.
   */
  function Expand(mode: WalkMode, dir: Path, es: seq<Entry>): (r: (seq<Path>, seq<(Path, Node)>))
    ensures StackSize(r.1) <= EntriesSize(es)
  {
    if es == [] then ([], [])
    else
      var rest := Expand(mode, dir, es[1..]);
      match Classify(mode, dir, es[0])
      case Record(p) => ([p] + rest.0, rest.1)
      case Push(p, d) =>
        assert ([(p, d)] + rest.1)[1..] == rest.1;
        (rest.0, [(p, d)] + rest.1)
      case Skip => rest
  }

  /** One entry's contribution to `Expand`. */
  lemma ExpandStep(mode: WalkMode, dir: Path, es: seq<Entry>, i: nat)
    requires i < |es|
    ensures var s := Classify(mode, dir, es[i]);
      var t := Expand(mode, dir, es[i + 1..]);
      var r := Expand(mode, dir, es[i..]);
      && r.0 == (if s.Record? then [s.path] else []) + t.0
      && r.1 == (if s.Push? then [(s.path, s.dir)] else []) + t.1
  {
    assert es[i..][1..] == es[i + 1..];
  }

  /** Popping a directory and pushing its subdirectories shrinks the stack. */
  lemma PopShrinks(mode: WalkMode, stack: seq<(Path, Node)>)
    requires stack != []
    ensures var top := stack[|stack| - 1];
      StackSize(stack[..|stack| - 1] + Expand(mode, top.0, Listing(top.1)).1) < StackSize(stack)
  {
    var top := stack[|stack| - 1];
    var rest := stack[..|stack| - 1];
    assert stack == rest + [top];
    StackSizeAppend(rest, [top]);
    StackSizeAppend(rest, Expand(mode, top.0, Listing(top.1)).1);
  }

  /**
   * The paths the walk records, in order, when its work stack is `stack`:
   * pop the last directory, record its audio files in listing order, push
   * its subdirectories in listing order, repeat until the stack is empty.
   */
  function WalkStack(mode: WalkMode, stack: seq<(Path, Node)>): seq<Path>
    decreases StackSize(stack)
  {
    if stack == [] then []
    else
      var top := stack[|stack| - 1];
      var step := Expand(mode, top.0, Listing(top.1));
      PopShrinks(mode, stack);
      step.0 + WalkStack(mode, stack[..|stack| - 1] + step.1)
  }

  /** One round of the walk: pop the last directory, list it, push its subdirectories. */
  lemma WalkStackPop(mode: WalkMode, stack: seq<(Path, Node)>)
    requires stack != []
    ensures var top := stack[|stack| - 1];
      var step := Expand(mode, top.0, Listing(top.1));
      WalkStack(mode, stack) == step.0 + WalkStack(mode, stack[..|stack| - 1] + step.1)
  {
  }

  /**
   * Every audio file in the subtree of `n` (at path `dir`), found by plain
   * recursive descent: the reference the stack walk is measured against.
   */
  function AudioFiles(mode: WalkMode, dir: Path, n: Node): seq<Path>
    decreases NodeSize(n), 1
  {
    EntriesFiles(mode, dir, Listing(n))
  }

  function EntriesFiles(mode: WalkMode, dir: Path, es: seq<Entry>): seq<Path>
    decreases EntriesSize(es), 0
  {
    if es == [] then []
    else
      var here := match Classify(mode, dir, es[0])
        case Record(p) => [p]
        case Push(p, d) => AudioFiles(mode, p, d)
        case Skip => [];
      here + EntriesFiles(mode, dir, es[1..])
  }

  /** The audio files under every directory on a work stack. */
  function StackFiles(mode: WalkMode, stack: seq<(Path, Node)>): multiset<Path>
  {
    if stack == [] then multiset{}
    else multiset(AudioFiles(mode, stack[0].0, stack[0].1)) + StackFiles(mode, stack[1..])
  }

  lemma {:induction false} StackFilesAppend(mode: WalkMode, a: seq<(Path, Node)>, b: seq<(Path, Node)>)
    ensures StackFiles(mode, a + b) == StackFiles(mode, a) + StackFiles(mode, b)
  {
    if a == [] {
      assert a + b == b;
    } else {
      assert (a + b)[1..] == a[1..] + b;
      StackFilesAppend(mode, a[1..], b);
    }
  }

  /**
   * Listing one directory records its own audio files and pushes exactly the
   * directories whose audio files make up the rest of its subtree.
   */
  lemma {:induction false} ExpandFiles(mode: WalkMode, dir: Path, es: seq<Entry>)
    ensures var step := Expand(mode, dir, es);
      multiset(EntriesFiles(mode, dir, es)) == multiset(step.0) + StackFiles(mode, step.1)
    decreases es
  {
    if es != [] {
      ExpandFiles(mode, dir, es[1..]);
      var rest := Expand(mode, dir, es[1..]);
      match Classify(mode, dir, es[0])
      case Record(p) =>
      case Push(p, d) =>
        assert ([(p, d)] + rest.1)[1..] == rest.1;
      case Skip =>
    }
  }

  /** The stack walk records every audio file under the stack exactly as often as the recursive descent does. */
  lemma {:induction false} WalkStackFiles(mode: WalkMode, stack: seq<(Path, Node)>)
    ensures multiset(WalkStack(mode, stack)) == StackFiles(mode, stack)
    decreases StackSize(stack)
  {
    if stack != [] {
      var top := stack[|stack| - 1];
      var rest := stack[..|stack| - 1];
      var step := Expand(mode, top.0, Listing(top.1));
      var walked, below, found := multiset(WalkStack(mode, stack)), multiset(WalkStack(mode, rest + step.1)), multiset(step.0);
      var mine := multiset(AudioFiles(mode, top.0, top.1));
      assert walked == found + below by {
        WalkStackPop(mode, stack);
      }
      assert below == StackFiles(mode, rest) + StackFiles(mode, step.1) by {
        PopShrinks(mode, stack);
        WalkStackFiles(mode, rest + step.1);
        StackFilesAppend(mode, rest, step.1);
      }
      assert found + StackFiles(mode, step.1) == mine by {
        ExpandFiles(mode, top.0, Listing(top.1));
      }
      assert StackFiles(mode, stack) == StackFiles(mode, rest) + mine by {
        SplitLast(stack);
        StackFilesAppend(mode, rest, [top]);
        assert [top][1..] == [];
      }
    }
  }

  /**
   * `traverse_dir`'s walk. The result is every audio file of the tree below
   * `root` (whose path is `base`), each recorded as many times as the tree
   * holds it, in the order the work stack visits them.
   */
  method TraverseDir(mode: WalkMode, base: Path, root: Node) returns (files: seq<Path>)
    requires DirsReadable(mode, root)
    ensures files == WalkStack(mode, [(base, root)])
    ensures multiset(files) == multiset(AudioFiles(mode, base, root))
  {
    var dirList: seq<(Path, Node)> := [(base, root)];
    files := [];
    while |dirList| > 0
      invariant files + WalkStack(mode, dirList) == WalkStack(mode, [(base, root)])
      invariant forall k :: 0 <= k < |dirList| ==> DirsReadable(mode, dirList[k].1)
      decreases StackSize(dirList)
    {
      var top := dirList[|dirList| - 1];
      var rest := dirList[..|dirList| - 1];
      // `read_dir(dir).unwrap()`
      var entries := ReadDir(top.1).value;
      var found, pushed := ListEntries(mode, top.0, top.1, entries);
      WalkRound(mode, files, dirList, found, pushed, WalkStack(mode, [(base, root)]));
      files := files + found;
      dirList := rest + pushed;
    }
    assert WalkStack(mode, []) == [];
    WalkFromRoot(mode, base, root);
  }

  /**
   * One round of `traverse_dir`'s outer loop keeps its invariant: what was
   * recorded so far followed by the walk of the new stack is the whole walk,
   * the stack shrinks, and every directory on it can still be read.
   */
  lemma WalkRound(mode: WalkMode, files: seq<Path>, dirList: seq<(Path, Node)>,
                  found: seq<Path>, pushed: seq<(Path, Node)>, whole: seq<Path>)
    requires dirList != []
    requires files + WalkStack(mode, dirList) == whole
    requires (found, pushed) == Expand(mode, dirList[|dirList| - 1].0, Listing(dirList[|dirList| - 1].1))
    requires forall k :: 0 <= k < |dirList| ==> DirsReadable(mode, dirList[k].1)
    requires forall k :: 0 <= k < |pushed| ==> DirsReadable(mode, pushed[k].1)
    ensures var next := dirList[..|dirList| - 1] + pushed;
      && (files + found) + WalkStack(mode, next) == whole
      && StackSize(next) < StackSize(dirList)
      && forall k :: 0 <= k < |next| ==> DirsReadable(mode, next[k].1)
  {
    var rest := dirList[..|dirList| - 1];
    WalkStackPop(mode, dirList);
    AppendAssoc(files, found, WalkStack(mode, rest + pushed));
    PopShrinks(mode, dirList);
  }

  /**
   * The `for entry in entries` loop over one listed directory: the audio
   * files it records and the subdirectories it pushes, in listing order.
   */
  method ListEntries(mode: WalkMode, dir: Path, ghost node: Node, entries: seq<Entry>)
    returns (found: seq<Path>, pushed: seq<(Path, Node)>)
    requires DirsReadable(mode, node) && entries == ReadDir(node).value
    ensures (found, pushed) == Expand(mode, dir, Listing(node))
    ensures forall k :: 0 <= k < |pushed| ==> DirsReadable(mode, pushed[k].1)
  {
    found, pushed := [], [];
    ghost var whole := Expand(mode, dir, entries);
    assert entries[0..] == entries;
    var i := 0;
    while i < |entries|
      invariant 0 <= i <= |entries|
      invariant found + Expand(mode, dir, entries[i..]).0 == whole.0
      invariant pushed + Expand(mode, dir, entries[i..]).1 == whole.1
      invariant forall k :: 0 <= k < |pushed| ==> DirsReadable(mode, pushed[k].1)
    {
      ExpandStep(mode, dir, entries, i);
      var tail := Expand(mode, dir, entries[i + 1..]);
      match Classify(mode, dir, entries[i]) {
        case Record(p) =>
          AppendAssoc(found, [p], tail.0);
          found := found + [p];
        case Push(p, d) =>
          SubdirReadable(mode, node, i);
          AppendAssoc(pushed, [(p, d)], tail.1);
          pushed := pushed + [(p, d)];
        case Skip =>
      }
      i := i + 1;
    }
    assert entries[i..] == [];
    assert found + [] == found && pushed + [] == pushed;
    assert Listing(node) == entries;
  }

  /** The walk started from one directory finds exactly that directory's audio files. */
  lemma WalkFromRoot(mode: WalkMode, base: Path, root: Node)
    ensures multiset(WalkStack(mode, [(base, root)])) == multiset(AudioFiles(mode, base, root))
  {
    WalkStackFiles(mode, [(base, root)]);
    assert [(base, root)][1..] == [];
  }

  /** A directory the walk pushes while listing a readable directory is readable. */
  lemma SubdirReadable(mode: WalkMode, n: Node, i: nat)
    requires DirsReadable(mode, n)
    requires i < |ReadDir(n).value|
    ensures forall dir :: Classify(mode, dir, ReadDir(n).value[i]).Push? ==>
      DirsReadable(mode, Classify(mode, dir, ReadDir(n).value[i]).dir)
  {
  }

  /**
   * `read_dir(..).unwrap()` panics on a directory it cannot list. The walk
   * needs every directory it will pop, the root included, to be listable.
   */
  predicate DirsReadable(mode: WalkMode, n: Node)
    decreases NodeSize(n)
  {
    && ReadDir(n).Success?
    && var es := ReadDir(n).value;
       forall i :: 0 <= i < |es| && es[i].Entry? && LookupOk(mode, es[i]) && Kind(mode, es[i].node).Dir? ==>
         DirsReadable(mode, Kind(mode, es[i].node))
  }

  /** The names of the `DirEntry`s of a listing. */
  function Names(es: seq<Entry>): set<string>
  {
    set i | 0 <= i < |es| && es[i].Entry? :: es[i].name
  }

  lemma NamesTail(es: seq<Entry>)
    requires es != []
    ensures Names(es[1..]) <= Names(es)
    ensures UniqueNames(es) && es[0].Entry? ==> es[0].name !in Names(es[1..])
  {
    forall x | x in Names(es[1..])
      ensures x in Names(es)
      ensures UniqueNames(es) && es[0].Entry? ==> x != es[0].name
    {
      var i :| 0 <= i < |es[1..]| && es[1..][i].Entry? && es[1..][i].name == x;
      assert es[i + 1] == es[1..][i];
    }
  }

  /**
   * Only audio files are recorded, and every recorded path lies strictly
   * below the directory it was found under.
   */
  lemma {:induction false} AudioFilesUnder(mode: WalkMode, dir: Path, n: Node)
    ensures forall p :: p in AudioFiles(mode, dir, n) ==> IsAudioFile(p) && |p| > |dir| && p[..|dir|] == dir
    decreases NodeSize(n), 1
  {
    EntriesFilesUnder(mode, dir, Listing(n));
  }

  lemma {:induction false} EntriesFilesUnder(mode: WalkMode, dir: Path, es: seq<Entry>)
    ensures forall p :: p in EntriesFiles(mode, dir, es) ==>
      IsAudioFile(p) && |p| > |dir| && p[..|dir|] == dir && p[|dir|] in Names(es)
    decreases EntriesSize(es), 0
  {
    if es != [] {
      EntriesFilesUnder(mode, dir, es[1..]);
      NamesTail(es);
      match Classify(mode, dir, es[0])
      case Record(q) =>
        assert es[0].name in Names(es);
        assert q[..|dir|] == dir && q[|dir|] == es[0].name;
      case Push(q, d) =>
        assert es[0].name in Names(es);
        AudioFilesUnder(mode, q, d);
        PrefixExtends(dir, q, AudioFiles(mode, q, d));
      case Skip =>
    }
  }

  /** Paths under a subdirectory of `dir` are under `dir`, through the subdirectory's name. */
  lemma PrefixExtends(dir: Path, q: Path, ps: seq<Path>)
    requires |q| > |dir| && q[..|dir|] == dir
    requires forall p :: p in ps ==> |p| > |q| && p[..|q|] == q
    ensures forall p :: p in ps ==> |p| > |dir| && p[..|dir|] == dir && p[|dir|] == q[|dir|]
  {
    forall p | p in ps
      ensures p[..|dir|] == dir && p[|dir|] == q[|dir|]
    {
      assert p[..|q|] == q;
      assert p[..|dir|] == q[..|dir|];
      assert p[|dir|] == q[|dir|];
    }
  }

  lemma WellFormedKind(mode: WalkMode, n: Node)
    requires WellFormed(n)
    ensures WellFormed(Kind(mode, n))
  {
    WellFormedResolve(n);
  }

  /**
   * On a filesystem whose directories hold unique names, the walk records no
   * path twice.
   */
  lemma {:induction false} AudioFilesDistinct(mode: WalkMode, dir: Path, n: Node)
    requires WellFormed(n)
    ensures NoDuplicates(AudioFiles(mode, dir, n))
    decreases NodeSize(n), 1
  {
    WellFormedListing(n);
    EntriesFilesDistinct(mode, dir, Listing(n));
  }

  lemma {:induction false} EntriesFilesDistinct(mode: WalkMode, dir: Path, es: seq<Entry>)
    requires UniqueNames(es)
    requires forall i :: 0 <= i < |es| && es[i].Entry? ==> WellFormed(es[i].node)
    ensures NoDuplicates(EntriesFiles(mode, dir, es))
    decreases EntriesSize(es), 0
  {
    if es != [] {
      var tail := es[1..];
      assert forall i :: 0 <= i < |tail| ==> tail[i] == es[i + 1];
      EntriesFilesDistinct(mode, dir, tail);
      EntriesFilesUnder(mode, dir, tail);
      NamesTail(es);
      var rest := EntriesFiles(mode, dir, tail);
      match Classify(mode, dir, es[0])
      case Record(q) =>
        assert forall x :: x in rest ==> x[|dir|] != q[|dir|];
        NoDuplicatesAppend([q], rest);
      case Push(q, d) =>
        WellFormedKind(mode, es[0].node);
        AudioFilesDistinct(mode, q, d);
        AudioFilesUnder(mode, q, d);
        forall p | p in AudioFiles(mode, q, d)
          ensures p[|dir|] == es[0].name
        {
          assert p[..|q|] == q;
          assert p[|dir|] == q[|dir|];
        }
        NoDuplicatesAppend(AudioFiles(mode, q, d), rest);
      case Skip =>
        assert EntriesFiles(mode, dir, es) == [] + rest;
    }
  }

  /** `TraverseDir` on a well-formed tree records each audio file under the root exactly once. */
  lemma WalkExactlyOnce(mode: WalkMode, base: Path, root: Node)
    requires WellFormed(root)
    ensures forall p :: p in AudioFiles(mode, base, root) ==> multiset(WalkStack(mode, [(base, root)]))[p] == 1
    ensures forall p :: p in WalkStack(mode, [(base, root)]) ==> IsAudioFile(p) && |p| > |base| && p[..|base|] == base
  {
    WalkFromRoot(mode, base, root);
    AudioFilesDistinct(mode, base, root);
    AudioFilesUnder(mode, base, root);
    var walk := WalkStack(mode, [(base, root)]);
    forall p | p in walk
      ensures p in AudioFiles(mode, base, root)
    {
      assert p in multiset(walk);
    }
  }

  /**
   * With no symbolic links and with both lookups answering alike, both
   * walkers classify an entry alike.
   */
  lemma ClassifyNoLinks(dir: Path, e: Entry)
    requires e.Entry? ==> NoLinks(e.node) && e.typeOk == e.metaOk && LookupsAgree(e.node)
    ensures Classify(FollowLinks, dir, e) == Classify(NoFollow, dir, e)
    ensures Classify(NoFollow, dir, e).Push? ==>
      NoLinks(Classify(NoFollow, dir, e).dir) && LookupsAgree(Classify(NoFollow, dir, e).dir)
  {
  }

  lemma {:induction false} ExpandNoLinks(dir: Path, es: seq<Entry>)
    requires forall i :: 0 <= i < |es| && es[i].Entry? ==>
      NoLinks(es[i].node) && es[i].typeOk == es[i].metaOk && LookupsAgree(es[i].node)
    ensures Expand(FollowLinks, dir, es) == Expand(NoFollow, dir, es)
    ensures var pushed := Expand(NoFollow, dir, es).1;
      forall k :: 0 <= k < |pushed| ==> NoLinks(pushed[k].1) && LookupsAgree(pushed[k].1)
  {
    if es != [] {
      assert forall i :: 0 <= i < |es[1..]| ==> es[1..][i] == es[i + 1];
      ExpandNoLinks(dir, es[1..]);
      ClassifyNoLinks(dir, es[0]);
    }
  }

  /**
   * The library's walker (which follows links) and the binary's (which does
   * not) record the same paths in the same order on a tree without links
   * in which `fs::metadata` and `DirEntry::file_type` succeed alike.
   */
  lemma {:induction false} WalkModesAgree(stack: seq<(Path, Node)>)
    requires forall k :: 0 <= k < |stack| ==> NoLinks(stack[k].1) && LookupsAgree(stack[k].1)
    ensures WalkStack(FollowLinks, stack) == WalkStack(NoFollow, stack)
    decreases StackSize(stack)
  {
    if stack != [] {
      var top := stack[|stack| - 1];
      var rest := stack[..|stack| - 1];
      NoLinksListing(top.1);
      LookupsAgreeListing(top.1);
      ExpandNoLinks(top.0, Listing(top.1));
      var step := Expand(NoFollow, top.0, Listing(top.1));
      PopShrinks(NoFollow, stack);
      WalkStackPop(NoFollow, stack);
      WalkStackPop(FollowLinks, stack);
      WalkModesAgree(rest + step.1);
    }
  }

  /**
   * Following a link to a directory can only add files: where
   * `fs::metadata` and `DirEntry::file_type` succeed alike, every file the
   * binary's walker finds, the library's walker finds too.
   */
  lemma {:induction false} FollowingFindsMore(dir: Path, n: Node)
    requires LookupsAgree(n)
    ensures multiset(AudioFiles(NoFollow, dir, n)) <= multiset(AudioFiles(FollowLinks, dir, n))
    decreases NodeSize(n), 1
  {
    LookupsAgreeListing(n);
    var es := Listing(n);
    forall e | e in es && e.Entry?
      ensures e.typeOk == e.metaOk && LookupsAgree(e.node)
    {
      var i :| 0 <= i < |es| && es[i] == e;
    }
    EntriesFollowingFindsMore(dir, es);
  }

  lemma {:induction false} EntriesFollowingFindsMore(dir: Path, es: seq<Entry>)
    requires forall e :: e in es && e.Entry? ==> e.typeOk == e.metaOk && LookupsAgree(e.node)
    ensures multiset(EntriesFiles(NoFollow, dir, es)) <= multiset(EntriesFiles(FollowLinks, dir, es))
    decreases EntriesSize(es), 0
  {
    if es != [] {
      EntriesFollowingFindsMore(dir, es[1..]);
      match Classify(NoFollow, dir, es[0])
      case Record(q) =>
        assert Classify(FollowLinks, dir, es[0]) == Record(q);
      case Push(q, d) =>
        assert Classify(FollowLinks, dir, es[0]) == Push(q, d);
        FollowingFindsMore(q, d);
      case Skip =>
    }
  }

  /**
   * A readable directory without search permission separates the two
   * walkers: `file_type` still reports its audio file, `fs::metadata` on
   * the file fails, so the binary records the file and the library does not.
   */
  lemma UnsearchableDirSeparates()
    ensures AudioFiles(NoFollow, ["base"], UnsearchableRoot) == [["base", "sub", "a.mp3"]]
    ensures AudioFiles(FollowLinks, ["base"], UnsearchableRoot) == []
  {
    var sub := Dir(true, [Entry("a.mp3", File, true, false)]);
    var top := Entry("sub", sub, true, true);
    assert UnsearchableRoot == Dir(true, [top]);
    assert Listing(UnsearchableRoot) == [top];
    UnsearchableListing();
    forall mode: WalkMode
      ensures AudioFiles(mode, ["base"], UnsearchableRoot) == AudioFiles(mode, ["base", "sub"], sub)
    {
      assert [top][1..] == [];
      assert ["base"] + ["sub"] == ["base", "sub"];
      assert Classify(mode, ["base"], top) == Push(["base", "sub"], sub);
      assert EntriesFiles(mode, ["base"], [top]) == AudioFiles(mode, ["base", "sub"], sub) + [];
    }
  }

  /** Inside the unsearchable directory: the binary records `a.mp3`, the library skips it. */
  lemma UnsearchableListing()
    ensures var sub := Dir(true, [Entry("a.mp3", File, true, false)]);
      && AudioFiles(NoFollow, ["base", "sub"], sub) == [["base", "sub", "a.mp3"]]
      && AudioFiles(FollowLinks, ["base", "sub"], sub) == []
  {
    var file := Entry("a.mp3", File, true, false);
    var p: Path := ["base", "sub", "a.mp3"];
    MpThreeIsAudio(p);
    assert [file][1..] == [];
    assert ["base", "sub"] + ["a.mp3"] == p;
    assert Classify(NoFollow, ["base", "sub"], file) == Record(p);
    assert Classify(FollowLinks, ["base", "sub"], file) == Skip;
    assert EntriesFiles(NoFollow, ["base", "sub"], [file]) == [p] + [];
    assert EntriesFiles(FollowLinks, ["base", "sub"], [file]) == [] + [];
  }

  lemma MpThreeIsAudio(p: Path)
    requires p == ["base", "sub", "a.mp3"]
    ensures IsAudioFile(p)
  {
    assert FileName(p) == Some("a.mp3");
    assert LastDot("a.") == Some(1);
    assert "a.mp3"[..4] == "a.mp" && "a.mp"[..3] == "a.m" && "a.m"[..2] == "a.";
    assert LastDot("a.mp3") == LastDot("a.mp") == LastDot("a.m") == LastDot("a.");
    assert "a.mp3"[2..] == "mp3";
    assert NameExtension("a.mp3") == Some("mp3");
  }

  /** A readable directory `sub` holding `a.mp3`, which `sub`'s missing search permission hides from `fs::metadata`. */
  const UnsearchableRoot: Node := Dir(true, [Entry("sub", Dir(true, [Entry("a.mp3", File, true, false)]), true, true)])
}
