// internal/storage/s3vfs/s3vfs.go as a caller may think of it: a map from
// segment sequences to objects, which the bucket, its listings and its keys implement.
module FileTree {
  import opened Strings
  import opened Paths
  import opened Listing
  import opened S3Vfs

  type Tree = map<seq<string>, Object>

  predicate NamesPath(prefix: string, key: string) {
    prefix <= key &&
    var segs := Segments(key[|prefix|..]);
    segs != [] && key == FileKey(prefix, segs)
  }

  // The files a bucket holds under the prefix.
  function Files(b: Bucket, prefix: string): Tree {
    map key | key in b && NamesPath(prefix, key) :: Segments(key[|prefix|..]) := b[key]
  }

  lemma FilesAre(b: Bucket, prefix: string, segs: seq<string>)
    ensures segs in Files(b, prefix) <==> IsFile(b, prefix, segs)
    ensures segs in Files(b, prefix) ==> Files(b, prefix)[segs] == b[FileKey(prefix, segs)]
  {
    if segs in Files(b, prefix) {
      var key :| key in b && NamesPath(prefix, key) && segs == Segments(key[|prefix|..]);
      SegmentsOrdinary(key[|prefix|..]);
    }
    if IsFile(b, prefix, segs) {
      var key := FileKey(prefix, segs);
      assert key[|prefix|..] == Join(segs, '/');
      SegmentsJoin(segs);
      assert NamesPath(prefix, key);
    }
  }

  // ----- The operations on the tree -----

  // Some files strictly below dir are gone, and nothing else has changed.
  ghost predicate PrunedBelow(a: Tree, dir: seq<string>, a': Tree) {
    && (forall segs :: segs in a' ==> segs in a && a'[segs] == a[segs])
    && (forall segs :: segs in a && segs !in a' ==> dir < segs)
  }

  ghost predicate EmptyBelow(a: Tree, dir: seq<string>) {
    forall segs :: segs in a ==> !(dir < segs)
  }

  // A removal of everything below at, or of the file at; complete tells whether
  // the listing ran to the end.
  ghost predicate TreeRemove(a: Tree, at: seq<string>, below: bool, complete: bool, r: RemoveResult, a': Tree) {
    if r.RemoveInvalid? then a' == a
    else if below then PrunedBelow(a, at, a') && (r.Removed? && complete ==> EmptyBelow(a', at))
    else a' == if r.Removed? then a - {at} else a
  }

  ghost predicate TreeNext(cfg: Config, a: Tree, op: Op, a': Tree) {
    match op
    case StoreOp(p, body, took) => a' == if took then a[Segments(p) := body] else a
    case RemoveOp(p, items, failing) =>
      TreeRemove(a, Segments(p), NamesTree(cfg, p), Broken !in items, RemoveAnswer(cfg, p, items, failing), a')
    case _ => a' == a
  }

  // Stat on the tree. A directory is found only under a name without a trailing slash.
  function TreeStat(a: Tree, p: string): Answer {
    var segs := Segments(p);
    if segs == [] then Known(DirInfo)
    else if EndsInSlash(p) then NotExist
    else if segs in a then Known(InfoOf(a[segs]))
    else if exists x :: x in a && segs < x then Known(DirInfo)
    else NotExist
  }

  // ----- One step -----

  lemma FileKeyOf(prefix: string, p: string)
    requires Normalized(prefix) && NamesFile(ToKey(prefix, p))
    ensures Segments(p) != [] && AllOrdinary(Segments(p)) && !EndsInSlash(p)
    ensures ToKey(prefix, p) == FileKey(prefix, Segments(p))
  {
    KeyShape(prefix, p);
    var segs := Segments(p);
    assert segs != [] && EndsInSlash(p) ==> EndsInSlash(prefix + Remainder(segs, true));
  }

  // Objects under other keys do not matter for a file.
  lemma OtherKey(prefix: string, segs: seq<string>, other: seq<string>)
    requires AllOrdinary(segs) && AllOrdinary(other) && segs != other
    ensures FileKey(prefix, segs) != FileKey(prefix, other)
  {
    if FileKey(prefix, segs) == FileKey(prefix, other) {
      FileKeyInjective(prefix, segs, other);
    }
  }

  lemma StoreFile(b: Bucket, prefix: string, segs: seq<string>, body: Object)
    requires segs != [] && AllOrdinary(segs)
    ensures Files(b[FileKey(prefix, segs) := body], prefix) == Files(b, prefix)[segs := body]
  {
    var b' := b[FileKey(prefix, segs) := body];
    var a, a' := Files(b, prefix), Files(b', prefix);
    forall x
      ensures x in a' <==> x in a[segs := body]
      ensures x in a' ==> a'[x] == a[segs := body][x]
    {
      FilesAre(b, prefix, x);
      FilesAre(b', prefix, x);
      if x != segs && AllOrdinary(x) {
        OtherKey(prefix, x, segs);
      }
    }
  }

  lemma RemoveFile(b: Bucket, prefix: string, segs: seq<string>)
    requires segs != [] && AllOrdinary(segs)
    ensures Files(b - {FileKey(prefix, segs)}, prefix) == Files(b, prefix) - {segs}
  {
    var b' := b - {FileKey(prefix, segs)};
    var a, a' := Files(b, prefix), Files(b', prefix);
    forall x
      ensures x in a' <==> x in a - {segs}
      ensures x in a' ==> a'[x] == (a - {segs})[x]
    {
      FilesAre(b, prefix, x);
      FilesAre(b', prefix, x);
      if x != segs && AllOrdinary(x) {
        OtherKey(prefix, x, segs);
      }
    }
  }

  // Each listing of the tree, broken off or not, leads to the same kind of step.
  lemma RemoveTree(b: Bucket, prefix: string, dir: seq<string>, items: seq<Listed>, failing: set<string>)
    requires AllOrdinary(dir) && Lists(b, DirKey(prefix, dir), true, items)
    ensures var a' := Files(RemoveListed(b, items, failing), prefix);
      && PrunedBelow(Files(b, prefix), dir, a')
      && (RemovedAll(items, failing) && Broken !in items ==> EmptyBelow(a', dir))
  {
    var b' := RemoveListed(b, items, failing);
    forall x
      ensures x in Files(b', prefix) ==> x in Files(b, prefix) && Files(b', prefix)[x] == Files(b, prefix)[x]
      ensures x in Files(b, prefix) && x !in Files(b', prefix) ==> dir < x
      ensures RemovedAll(items, failing) && Broken !in items && x in Files(b', prefix) ==> !(dir < x)
    {
      FilesAre(b, prefix, x);
      FilesAre(b', prefix, x);
      if x in Files(b, prefix) {
        BelowDir(prefix, dir, x);
        ListedIsUnder(b, DirKey(prefix, dir), items, FileKey(prefix, x));
      }
    }
  }

  // What a removal of a tree is given to work on: a listing of the tree.
  ghost predicate Realistic(cfg: Config, s: FsState, op: Op) {
    && Allowed(cfg, op)
    && (op.RemoveOp? && NamesTree(cfg, op.p) && ToKey(cfg.prefix, op.p) != "" ==>
         Lists(s.bucket, TreePrefix(ToKey(cfg.prefix, op.p)), true, op.items))
  }

  lemma RemovesTree(cfg: Config, b: Bucket, p: string, items: seq<Listed>, failing: set<string>)
    requires Normalized(cfg.prefix) && ToKey(cfg.prefix, p) != "" && NamesTree(cfg, p)
    requires Lists(b, TreePrefix(ToKey(cfg.prefix, p)), true, items)
    ensures TreeRemove(Files(b, cfg.prefix), Segments(p), true, Broken !in items,
                       RemoveOutcome(ToKey(cfg.prefix, p), true, items, failing),
                       Files(RemoveListed(b, items, failing), cfg.prefix))
  {
    TreePrefixIsDirPrefix(cfg.prefix, p);
    DirPrefixKey(cfg.prefix, p);
    RemoveTree(b, cfg.prefix, Segments(p), items, failing);
  }

  lemma RemovesFile(cfg: Config, b: Bucket, p: string)
    requires Normalized(cfg.prefix) && ToKey(cfg.prefix, p) != "" && !NamesTree(cfg, p)
    ensures Files(b - {ToKey(cfg.prefix, p)}, cfg.prefix) == Files(b, cfg.prefix) - {Segments(p)}
  {
    FileKeyOf(cfg.prefix, p);
    RemoveFile(b, cfg.prefix, Segments(p));
  }

  lemma BranchesRefine(b: Bucket, prefix: string, key: string, at: seq<string>, below: bool,
                       items: seq<Listed>, failing: set<string>)
    requires key != "" && below ==>
      TreeRemove(Files(b, prefix), at, true, Broken !in items, RemoveOutcome(key, true, items, failing),
                 Files(RemoveListed(b, items, failing), prefix))
    requires key != "" && !below ==> Files(b - {key}, prefix) == Files(b, prefix) - {at}
    ensures TreeRemove(Files(b, prefix), at, below, Broken !in items, RemoveOutcome(key, below, items, failing),
                       Files(RemovedFrom(b, key, below, items, failing), prefix))
  {
  }

  lemma RemoveRefines(cfg: Config, s: FsState, p: string, items: seq<Listed>, failing: set<string>)
    requires Normalized(cfg.prefix) && Realistic(cfg, s, RemoveOp(p, items, failing))
    ensures TreeNext(cfg, Files(s.bucket, cfg.prefix), RemoveOp(p, items, failing),
                     Files(RemoveSpec(cfg, s, p, items, failing).bucket, cfg.prefix))
  {
    var key, below := ToKey(cfg.prefix, p), NamesTree(cfg, p);
    if key != "" && below {
      RemovesTree(cfg, s.bucket, p, items, failing);
    }
    if key != "" && !below {
      RemovesFile(cfg, s.bucket, p);
    }
    BranchesRefine(s.bucket, cfg.prefix, key, Segments(p), below, items, failing);
  }

  lemma StepRefines(cfg: Config, s: FsState, op: Op)
    requires Normalized(cfg.prefix) && Realistic(cfg, s, op)
    ensures TreeNext(cfg, Files(s.bucket, cfg.prefix), op, Files(Next(cfg, s, op).bucket, cfg.prefix))
  {
    match op
    case StoreOp(p, body, took) =>
      FileKeyOf(cfg.prefix, p);
      StoreFile(s.bucket, cfg.prefix, Segments(p), body);
    case RemoveOp(p, items, failing) =>
      RemoveRefines(cfg, s, p, items, failing);
    case _ =>
  }

  // S3 refuses to remove an object that the removal is for.
  ghost predicate Refused(cfg: Config, b: Bucket, p: string, failing: set<string>) {
    exists key ::
      key in failing && if NamesTree(cfg, p) then key in b && DirPrefix(cfg.prefix, p) <= key
                        else key == ToKey(cfg.prefix, p)
  }

  // A removal of a path is invalid exactly for the empty key, fails only if an
  // object it is for is refused, and succeeds if none is. A refused file stays
  // with its cache entry; any other one goes with it.
  lemma RemoveFileExact(cfg: Config, s: FsState, p: string, items: seq<Listed>, failing: set<string>)
    requires !NamesTree(cfg, p)
    ensures var key, s', r := ToKey(cfg.prefix, p), RemoveSpec(cfg, s, p, items, failing),
        RemoveAnswer(cfg, p, items, failing);
      && (r.RemoveInvalid? <==> key == "")
      && (key != "" ==> (r.RemoveFailed? <==> Refused(cfg, s.bucket, p, failing)))
      && (r.Removed? ==> s' == FsState(s.bucket - {key}, s.cache - {key}))
      && (!r.Removed? ==> s' == s)
  {
  }

  // The same of a tree. With a complete listing exactly the objects below the
  // path that were not refused are gone; the cache is emptied in any case.
  lemma RemoveTreeMeaning(cfg: Config, s: FsState, p: string, items: seq<Listed>, failing: set<string>)
    requires Normalized(cfg.prefix) && NamesTree(cfg, p) && Realistic(cfg, s, RemoveOp(p, items, failing))
    ensures var key, s', r := ToKey(cfg.prefix, p), RemoveSpec(cfg, s, p, items, failing),
        RemoveAnswer(cfg, p, items, failing);
      && (r.RemoveInvalid? <==> key == "") && (key == "" ==> s' == s)
      && (r.RemoveFailed? ==> Refused(cfg, s.bucket, p, failing))
      && (key != "" && Broken !in items ==>
           && (r.RemoveFailed? <==> Refused(cfg, s.bucket, p, failing))
           && (forall k :: k in s'.bucket <==>
                k in s.bucket && (DirPrefix(cfg.prefix, p) <= k ==> k in failing))
           && (forall k :: k in s'.bucket ==> s'.bucket[k] == s.bucket[k]))
      && (key != "" ==> s'.cache == map[])
  {
    if ToKey(cfg.prefix, p) != "" {
      TreePrefixIsDirPrefix(cfg.prefix, p);
      RemovedKeys(s.bucket, DirPrefix(cfg.prefix, p), items, failing);
    }
  }

  lemma RemovedKeys(b: Bucket, at: string, items: seq<Listed>, failing: set<string>)
    requires Lists(b, at, true, items)
    ensures !RemovedAll(items, failing) ==> exists k :: k in failing && k in b && at <= k
    ensures Broken !in items ==>
      && (RemovedAll(items, failing) <==> forall k :: k in b && at <= k ==> k !in failing)
      && (forall k :: k in RemoveListed(b, items, failing) <==> k in b && (at <= k ==> k in failing))
  {
    forall k
      ensures k in KeysOf(items) ==> k in b && at <= k
      ensures Broken !in items && k in b && at <= k ==> k in KeysOf(items)
    {
      ListedIsUnder(b, at, items, k);
    }
    if !RemovedAll(items, failing) {
      var k :| k in KeysOf(items) && k in failing;
    }
  }

  // ----- Runs -----

  ghost predicate RealisticRun(cfg: Config, s: FsState, ops: seq<Op>) {
    ops != [] ==>
      RealisticRun(cfg, s, ops[..|ops| - 1]) && Realistic(cfg, Run(cfg, s, ops[..|ops| - 1]), ops[|ops| - 1])
  }

  ghost predicate TreeRun(cfg: Config, ops: seq<Op>, trees: seq<Tree>) {
    |trees| == |ops| + 1 && forall n :: 0 <= n < |ops| ==> TreeNext(cfg, trees[n], ops[n], trees[n + 1])
  }

  lemma TreeRunLater(cfg: Config, ops: seq<Op>, earlier: seq<Tree>, last: Tree) returns (trees: seq<Tree>)
    requires ops != [] && TreeRun(cfg, ops[..|ops| - 1], earlier)
    requires TreeNext(cfg, earlier[|ops| - 1], ops[|ops| - 1], last)
    ensures TreeRun(cfg, ops, trees) && trees[0] == earlier[0] && trees[|ops|] == last
  {
    trees := earlier + [last];
    forall n | 0 <= n < |ops|
      ensures TreeNext(cfg, trees[n], ops[n], trees[n + 1])
    {
      assert n < |ops| - 1 ==> ops[..|ops| - 1][n] == ops[n];
    }
  }

  // Every run on a bucket, with any failures, evictions and broken listings, is
  // a run of the tree.
  lemma {:induction false} RunRefines(cfg: Config, s: FsState, ops: seq<Op>) returns (trees: seq<Tree>)
    requires Normalized(cfg.prefix) && RealisticRun(cfg, s, ops)
    ensures TreeRun(cfg, ops, trees) && trees[0] == Files(s.bucket, cfg.prefix)
    ensures trees[|ops|] == Files(Run(cfg, s, ops).bucket, cfg.prefix)
  {
    if ops == [] {
      trees := [Files(s.bucket, cfg.prefix)];
    } else {
      var before := ops[..|ops| - 1];
      var earlier := RunRefines(cfg, s, before);
      StepRefines(cfg, Run(cfg, s, before), ops[|ops| - 1]);
      trees := TreeRunLater(cfg, ops, earlier, Files(Run(cfg, s, ops).bucket, cfg.prefix));
    }
  }

  // ----- Stat on the tree -----

  lemma KeyIsFile(b: Bucket, prefix: string, key: string) returns (segs: seq<string>)
    requires Normalized(prefix) && WellKept(b, prefix) && key in b && prefix <= key
    ensures IsFile(b, prefix, segs) && key == FileKey(prefix, segs) && segs in Files(b, prefix)
  {
    segs := WritableIsFile(prefix, key);
    FilesAre(b, prefix, segs);
  }

  lemma SubtreeInTree(b: Bucket, prefix: string, dir: seq<string>)
    ensures HasSubtree(b, prefix, dir) <==> exists x :: x in Files(b, prefix) && dir < x
  {
    if x :| IsFile(b, prefix, x) && dir < x {
      FilesAre(b, prefix, x);
    }
    if x :| x in Files(b, prefix) && dir < x {
      FilesAre(b, prefix, x);
    }
  }

  // No key under the prefix has two slashes in a row.
  lemma NoDoubleSlash(dir: seq<string>, segs: seq<string>)
    requires dir != [] && AllOrdinary(dir) && AllOrdinary(segs) && segs != []
    ensures !(Remainder(dir, true) + "/" <= Join(segs, '/'))
  {
    var above, all := Remainder(dir, true), Join(segs, '/');
    if dir < segs {
      var rest := segs[|dir|..];
      JoinBelow(dir, segs);
      JoinEnds(rest);
      assert all[|above|] == Join(rest, '/')[0];
    } else if above <= all {
      PrefixIsAbove(dir, segs);
    }
  }

  lemma SlashNamesNoFile(prefix: string, dir: seq<string>, segs: seq<string>)
    requires dir != [] && AllOrdinary(dir) && AllOrdinary(segs) && segs != []
    ensures DirKey(prefix, dir) != FileKey(prefix, segs)
    ensures !(DirKey(prefix, dir) + "/" <= FileKey(prefix, segs))
  {
    var above, all := Remainder(dir, true), Join(segs, '/');
    JoinEnds(segs);
    NoDoubleSlash(dir, segs);
    PrefixCancels(prefix, above + "/", all);
    assert prefix + above + "/" == prefix + (above + "/");
    assert (prefix + above)[|prefix + above| - 1] == '/';
    assert (prefix + all)[|prefix + all| - 1] == all[|all| - 1];
  }

  lemma TrailingSlashUnknown(b: Bucket, prefix: string, p: string)
    requires Normalized(prefix) && WellKept(b, prefix) && Segments(p) != [] && EndsInSlash(p)
    ensures ToKey(prefix, p) !in b && !DirExists(b, ToKey(prefix, p) + "/")
  {
    KeyShape(prefix, p);
    var at := DirKey(prefix, Segments(p));
    forall key | key in b && prefix <= key
      ensures key != at && !(at + "/" <= key)
    {
      var segs := KeyIsFile(b, prefix, key);
      SlashNamesNoFile(prefix, Segments(p), segs);
    }
    assert prefix <= at;
  }

  lemma PlainKey(prefix: string, p: string)
    requires Segments(p) != [] && !EndsInSlash(p)
    ensures ToKey(prefix, p) == FileKey(prefix, Segments(p)) && AllOrdinary(Segments(p))
    ensures ToKey(prefix, p) + "/" == DirKey(prefix, Segments(p))
  {
    KeyShape(prefix, p);
  }

  // On a well-kept bucket the uncached Stat is Stat on the tree.
  lemma StatIsTreeStat(cfg: Config, b: Bucket, p: string)
    requires Normalized(cfg.prefix) && WellKept(b, cfg.prefix)
    ensures UncachedStat(cfg, b, p) == TreeStat(Files(b, cfg.prefix), p)
  {
    CleanInjective(p, p);
    var segs := Segments(p);
    if segs != [] {
      if EndsInSlash(p) {
        TrailingSlashUnknown(b, cfg.prefix, p);
      } else {
        PlainKey(cfg.prefix, p);
        FilesAre(b, cfg.prefix, segs);
        DirExistsIff(b, cfg.prefix, segs);
        SubtreeInTree(b, cfg.prefix, segs);
      }
    }
  }

  // After any run of the file system from an empty bucket and cache, Stat is Stat
  // on the tree, exactly but for cached directories that are gone.
  lemma {:induction false} StatAfterRun(cfg: Config, ops: seq<Op>, p: string, now: int)
    requires Normalized(cfg.prefix) && forall op <- ops :: Allowed(cfg, op)
    ensures var s := Run(cfg, FsState(map[], map[]), ops);
      StatSpec(cfg, s, p, now, Net(true, true)).answer == TreeStat(Files(s.bucket, cfg.prefix), p)
      <==> CleanRooted(p) == "/" || !StaleDirectory(s, cfg.ttl, ToKey(cfg.prefix, p), now)
  {
    var s := Run(cfg, FsState(map[], map[]), ops);
    RunWellKept(cfg, FsState(map[], map[]), ops);
    RunBucket(cfg, FsState(map[], map[]), ops);
    StatIsTreeStat(cfg, s.bucket, p);
    StatExactIff(cfg, map[], ops, p, now);
  }
}
