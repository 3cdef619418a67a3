// internal/storage/s3vfs/s3vfs.go and file.go: the file system over a bucket
// with its metadata cache, and the buffered writer that uploads on Close.
module S3Vfs {
  import opened Strings
  import opened Paths
  import opened Listing

  datatype Info = FileInfo(size: nat, modified: int) | DirInfo

  datatype MetaEntry = MetaEntry(info: Info, storedAt: int)

  type MetaCache = map<string, MetaEntry>

  datatype Answer = Known(info: Info) | NotExist | Invalid | Unavailable

  // Whether S3 answers this call's StatObject and ListObjects.
  datatype Net = Net(stat: bool, list: bool)

  datatype Config = Config(prefix: string, ttl: int)

  datatype FsState = FsState(bucket: Bucket, cache: MetaCache)

  datatype Stated = Stated(cache: MetaCache, answer: Answer)

  datatype RemoveResult = Removed | RemoveInvalid | RemoveFailed

  // ----- The operations as functions of bucket and cache -----

  predicate Honoured(e: MetaEntry, ttl: int, now: int) {
    ttl <= 0 || now - e.storedAt < ttl
  }

  function InfoOf(o: Object): Info {
    FileInfo(|o.data|, o.modified)
  }

  function StatKeySpec(s: FsState, ttl: int, key: string, now: int, net: Net): Stated {
    if key in s.cache && Honoured(s.cache[key], ttl, now) then Stated(s.cache, Known(s.cache[key].info))
    else
      var cache := s.cache - {key};
      if !net.stat then Stated(cache, Unavailable)
      else if key in s.bucket then
        Stated(cache[key := MetaEntry(InfoOf(s.bucket[key]), now)], Known(InfoOf(s.bucket[key])))
      else if net.list && DirExists(s.bucket, key + "/") then
        Stated(cache[key := MetaEntry(DirInfo, now)], Known(DirInfo))
      else Stated(cache, NotExist)
  }

  function StatSpec(cfg: Config, s: FsState, p: string, now: int, net: Net): Stated {
    if CleanRooted(p) == "/" then Stated(s.cache, Known(DirInfo))
    else StatKeySpec(s, cfg.ttl, ToKey(cfg.prefix, p), now, net)
  }

  predicate NamesFile(key: string) {
    key != "" && !EndsInSlash(key)
  }

  function OpenSpec(cfg: Config, s: FsState, p: string, now: int, net: Net): Stated {
    var key := ToKey(cfg.prefix, p);
    if NamesFile(key) then StatKeySpec(s, cfg.ttl, key, now, net) else Stated(s.cache, Invalid)
  }

  // The upload of a writer opened at p, followed by the cache invalidation.
  function StoreSpec(cfg: Config, s: FsState, p: string, body: Object, took: bool): FsState {
    var key := ToKey(cfg.prefix, p);
    FsState(if took then s.bucket[key := body] else s.bucket, s.cache - {key})
  }

  predicate NamesTree(cfg: Config, p: string) {
    EndsInSlash(p) || EndsInSlash(ToKey(cfg.prefix, p))
  }

  // The branches of Remove, for the key and the kind of removal it has settled on.
  function RemovedFrom(b: Bucket, key: string, below: bool, items: seq<Listed>, failing: set<string>): Bucket {
    if key == "" then b
    else if below then RemoveListed(b, items, failing)
    else if key in failing then b
    else b - {key}
  }

  function RemoveOutcome(key: string, below: bool, items: seq<Listed>, failing: set<string>): RemoveResult {
    if key == "" then RemoveInvalid
    else if below then (if RemovedAll(items, failing) then Removed else RemoveFailed)
    else if key in failing then RemoveFailed else Removed
  }

  function RemoveSpec(cfg: Config, s: FsState, p: string, items: seq<Listed>, failing: set<string>): FsState {
    var key, below := ToKey(cfg.prefix, p), NamesTree(cfg, p);
    FsState(RemovedFrom(s.bucket, key, below, items, failing),
            if key == "" then s.cache else if below then map[] else if key in failing then s.cache else s.cache - {key})
  }

  function RemoveAnswer(cfg: Config, p: string, items: seq<Listed>, failing: set<string>): RemoveResult {
    RemoveOutcome(ToKey(cfg.prefix, p), NamesTree(cfg, p), items, failing)
  }

  // ----- Runs -----

  datatype Op =
    | StatOp(p: string, now: int, net: Net)
    | OpenOp(p: string, now: int, net: Net)
    | StoreOp(p: string, body: Object, took: bool)
    | RemoveOp(p: string, items: seq<Listed>, failing: set<string>)
    | EvictOp(keys: set<string>)

  // Writers exist only at paths OpenFile accepts; nothing else is demanded.
  predicate Allowed(cfg: Config, op: Op) {
    op.StoreOp? ==> NamesFile(ToKey(cfg.prefix, op.p))
  }

  function Next(cfg: Config, s: FsState, op: Op): FsState {
    match op
    case StatOp(p, now, net) => FsState(s.bucket, StatSpec(cfg, s, p, now, net).cache)
    case OpenOp(p, now, net) => FsState(s.bucket, OpenSpec(cfg, s, p, now, net).cache)
    case StoreOp(p, body, took) => StoreSpec(cfg, s, p, body, took)
    case RemoveOp(p, items, failing) => RemoveSpec(cfg, s, p, items, failing)
    case EvictOp(keys) => FsState(s.bucket, s.cache - keys)
  }

  function Run(cfg: Config, s: FsState, ops: seq<Op>): FsState {
    if ops == [] then s else Next(cfg, Run(cfg, s, ops[..|ops| - 1]), ops[|ops| - 1])
  }

  // A cached object describes the bucket; a cached directory hides no object.
  ghost predicate Coherent(b: Bucket, cache: MetaCache) {
    forall key :: key in cache ==>
      match cache[key].info
      case FileInfo(_, _) => key in b && cache[key].info == InfoOf(b[key])
      case DirInfo => key !in b
  }

  lemma LookupCoherent(s: FsState, ttl: int, key: string, now: int, net: Net)
    requires Coherent(s.bucket, s.cache)
    ensures Coherent(s.bucket, StatKeySpec(s, ttl, key, now, net).cache)
  {
  }

  lemma RemoveCoherent(cfg: Config, s: FsState, p: string, items: seq<Listed>, failing: set<string>)
    requires Coherent(s.bucket, s.cache)
    ensures var s' := RemoveSpec(cfg, s, p, items, failing); Coherent(s'.bucket, s'.cache)
  {
  }

  lemma NextCoherent(cfg: Config, s: FsState, op: Op)
    requires Coherent(s.bucket, s.cache)
    ensures Coherent(Next(cfg, s, op).bucket, Next(cfg, s, op).cache)
  {
    match op
    case StatOp(p, now, net) => LookupCoherent(s, cfg.ttl, ToKey(cfg.prefix, p), now, net);
    case OpenOp(p, now, net) => LookupCoherent(s, cfg.ttl, ToKey(cfg.prefix, p), now, net);
    case RemoveOp(p, items, failing) => RemoveCoherent(cfg, s, p, items, failing);
    case _ =>
  }

  lemma {:induction false} RunCoherent(cfg: Config, s: FsState, ops: seq<Op>)
    requires Coherent(s.bucket, s.cache)
    ensures Coherent(Run(cfg, s, ops).bucket, Run(cfg, s, ops).cache)
  {
    if ops != [] {
      RunCoherent(cfg, s, ops[..|ops| - 1]);
      NextCoherent(cfg, Run(cfg, s, ops[..|ops| - 1]), ops[|ops| - 1]);
    }
  }

  // Runs keep a bucket well kept, so ReadDir stays exact on it.
  lemma {:induction false} RunWellKept(cfg: Config, s: FsState, ops: seq<Op>)
    requires WellKept(s.bucket, cfg.prefix)
    requires forall op <- ops :: Allowed(cfg, op)
    ensures WellKept(Run(cfg, s, ops).bucket, cfg.prefix)
  {
    if ops != [] {
      var before, op := Run(cfg, s, ops[..|ops| - 1]), ops[|ops| - 1];
      RunWellKept(cfg, s, ops[..|ops| - 1]);
      assert op in ops;
      if op.StoreOp? && op.took {
        assert Writable(cfg.prefix, ToKey(cfg.prefix, op.p));
      }
    }
  }

  // After any run on an empty bucket, a complete ReadDir names exactly the files
  // directly below p and the subtrees below p that hold a file.
  lemma {:induction false} ReadDirAfterRun(cfg: Config, ops: seq<Op>, p: string, items: seq<Listed>, name: string)
    requires Normalized(cfg.prefix) && forall op <- ops :: Allowed(cfg, op)
    requires Lists(Run(cfg, FsState(map[], map[]), ops).bucket, DirPrefix(cfg.prefix, p), false, items)
    requires Broken !in items
    ensures var b := Run(cfg, FsState(map[], map[]), ops).bucket;
      && ReadEntries(items).Entries?
      && (ListsName(ReadEntries(items).entries, name, false) <==> IsFile(b, cfg.prefix, Segments(p) + [name]))
      && (ListsName(ReadEntries(items).entries, name, true) <==> HasSubtree(b, cfg.prefix, Segments(p) + [name]))
  {
    RunWellKept(cfg, FsState(map[], map[]), ops);
    ReadDirNames(Run(cfg, FsState(map[], map[]), ops).bucket, cfg.prefix, p, items, name);
  }

  // ----- The same file system without a cache -----

  function UncachedNext(cfg: Config, b: Bucket, op: Op): Bucket {
    match op
    case StatOp(_, _, _) => b
    case OpenOp(_, _, _) => b
    case StoreOp(p, body, took) => if took then b[ToKey(cfg.prefix, p) := body] else b
    case RemoveOp(p, items, failing) => RemovedFrom(b, ToKey(cfg.prefix, p), NamesTree(cfg, p), items, failing)
    case EvictOp(_) => b
  }

  function UncachedRun(cfg: Config, b: Bucket, ops: seq<Op>): Bucket {
    if ops == [] then b else UncachedNext(cfg, UncachedRun(cfg, b, ops[..|ops| - 1]), ops[|ops| - 1])
  }

  function UncachedStat(cfg: Config, b: Bucket, p: string): Answer {
    var key := ToKey(cfg.prefix, p);
    if CleanRooted(p) == "/" then Known(DirInfo)
    else if key in b then Known(InfoOf(b[key]))
    else if DirExists(b, key + "/") then Known(DirInfo)
    else NotExist
  }

  lemma NextBucket(cfg: Config, s: FsState, op: Op)
    ensures Next(cfg, s, op).bucket == UncachedNext(cfg, s.bucket, op)
  {
  }

  lemma {:induction false} RunBucket(cfg: Config, s: FsState, ops: seq<Op>)
    ensures Run(cfg, s, ops).bucket == UncachedRun(cfg, s.bucket, ops)
  {
    if ops != [] {
      RunBucket(cfg, s, ops[..|ops| - 1]);
      NextBucket(cfg, Run(cfg, s, ops[..|ops| - 1]), ops[|ops| - 1]);
    }
  }

  predicate Reports(a: Answer, info: Info) {
    a == Known(info) && info.FileInfo?
  }

  // After any run from an empty cache, with any evictions and expiries, Stat
  // reports an object exactly when the uncached file system does, and the same
  // one; only a call S3 leaves unanswered may report nothing instead.
  lemma {:induction false} CachedRefinesUncached(cfg: Config, b: Bucket, ops: seq<Op>, p: string, now: int,
                                                 net: Net, info: Info)
    ensures var s := Run(cfg, FsState(b, map[]), ops);
      var cached := StatSpec(cfg, s, p, now, net).answer;
      var uncached := UncachedStat(cfg, UncachedRun(cfg, b, ops), p);
      && (Reports(cached, info) ==> Reports(uncached, info))
      && (Reports(uncached, info) ==> Reports(cached, info) || (!net.stat && cached == Unavailable))
  {
    RunCoherent(cfg, FsState(b, map[]), ops);
    RunBucket(cfg, FsState(b, map[]), ops);
  }

  // The same in terms of the bucket: n bytes are reported at p if and only if
  // the bucket holds n bytes at p's key.
  lemma {:induction false} StatReportsBucket(cfg: Config, b: Bucket, ops: seq<Op>, p: string, now: int,
                                             net: Net, n: nat, m: int)
    requires net.stat && Segments(p) != []
    ensures var s := Run(cfg, FsState(b, map[]), ops);
      var key := ToKey(cfg.prefix, p);
      StatSpec(cfg, s, p, now, net).answer == Known(FileInfo(n, m)) <==>
      key in s.bucket && |s.bucket[key].data| == n && s.bucket[key].modified == m
  {
    RunCoherent(cfg, FsState(b, map[]), ops);
    CleanInjective(p, p);
  }

  // ----- What holds of directories too -----

  predicate TrueOf(b: Bucket, key: string, info: Info) {
    match info
    case FileInfo(_, _) => key in b && InfoOf(b[key]) == info
    case DirInfo => key !in b && DirExists(b, key + "/")
  }

  // The n-th operation looked the key up at the entry's time, and found this.
  predicate SeenAt(cfg: Config, s: FsState, ops: seq<Op>, n: nat, key: string, e: MetaEntry) {
    && n < |ops| && (ops[n].StatOp? || ops[n].OpenOp?)
    && ops[n].now == e.storedAt
    && TrueOf(Run(cfg, s, ops[..n]).bucket, key, e.info)
  }

  lemma LookupTruth(s: FsState, ttl: int, key: string, now: int, net: Net, k: string)
    requires k in StatKeySpec(s, ttl, key, now, net).cache
    ensures var e := StatKeySpec(s, ttl, key, now, net).cache[k];
      (k in s.cache && e == s.cache[k]) || (e.storedAt == now && TrueOf(s.bucket, k, e.info))
  {
  }

  // An entry stays as it was, or is what a lookup just found.
  lemma NextEntry(cfg: Config, s: FsState, op: Op, key: string)
    requires key in Next(cfg, s, op).cache
    ensures var e := Next(cfg, s, op).cache[key];
      (key in s.cache && e == s.cache[key])
      || ((op.StatOp? || op.OpenOp?) && op.now == e.storedAt && TrueOf(s.bucket, key, e.info))
  {
    if op.StatOp? || op.OpenOp? {
      var k := ToKey(cfg.prefix, op.p);
      if key in StatKeySpec(s, cfg.ttl, k, op.now, op.net).cache {
        LookupTruth(s, cfg.ttl, k, op.now, op.net, key);
      }
    }
  }

  lemma {:induction false} EntrySeen(cfg: Config, b: Bucket, ops: seq<Op>, key: string) returns (n: nat)
    requires key in Run(cfg, FsState(b, map[]), ops).cache
    ensures SeenAt(cfg, FsState(b, map[]), ops, n, key, Run(cfg, FsState(b, map[]), ops).cache[key])
    decreases |ops|
  {
    var s0 := FsState(b, map[]);
    var before, op := ops[..|ops| - 1], ops[|ops| - 1];
    var s, s' := Run(cfg, s0, before), Run(cfg, s0, ops);
    if key in s.cache && s'.cache[key] == s.cache[key] {
      n := EntrySeen(cfg, b, before, key);
      assert ops[..n] == before[..n];
    } else {
      n := |ops| - 1;
      NextEntry(cfg, s, op, key);
    }
  }

  // Whatever Stat reports of a path below the root, object or directory, is true
  // of the bucket now, or was when an earlier lookup saw it: less than the TTL
  // ago, or at any time if no TTL is set.
  lemma {:induction false} AnswerTrueWithinTTL(cfg: Config, b: Bucket, ops: seq<Op>, p: string, now: int, net: Net)
    requires CleanRooted(p) != "/"
    requires StatSpec(cfg, Run(cfg, FsState(b, map[]), ops), p, now, net).answer.Known?
    ensures var s := Run(cfg, FsState(b, map[]), ops);
      var key := ToKey(cfg.prefix, p);
      var info := StatSpec(cfg, s, p, now, net).answer.info;
      TrueOf(s.bucket, key, info)
      || exists n, at :: (cfg.ttl > 0 ==> now - at < cfg.ttl)
                         && SeenAt(cfg, FsState(b, map[]), ops, n, key, MetaEntry(info, at))
  {
    var s := Run(cfg, FsState(b, map[]), ops);
    var key := ToKey(cfg.prefix, p);
    if key in s.cache && Honoured(s.cache[key], cfg.ttl, now) {
      var n := EntrySeen(cfg, b, ops, key);
      assert s.cache[key] == MetaEntry(s.cache[key].info, s.cache[key].storedAt);
    }
  }

  // A lookup that found something answers the next ones from the cache, without
  // S3, exactly as long as no TTL is set or the entry is younger than it.
  lemma RepeatedStatNeedsNoNetwork(cfg: Config, s: FsState, p: string, now: int, net: Net, later: int)
    requires CleanRooted(p) != "/" && StatSpec(cfg, s, p, now, net).answer.Known?
    ensures var s' := Next(cfg, s, StatOp(p, now, net));
      var key := ToKey(cfg.prefix, p);
      && key in s'.cache && Known(s'.cache[key].info) == StatSpec(cfg, s, p, now, net).answer
      && (key !in s.cache ==> s'.cache[key].storedAt == now)
      && (cfg.ttl <= 0 || later - s'.cache[key].storedAt < cfg.ttl ==>
            forall down :: StatSpec(cfg, s', p, later, down) == Stated(s'.cache, Known(s'.cache[key].info)))
      && (0 < cfg.ttl <= later - s'.cache[key].storedAt ==>
            StatSpec(cfg, s', p, later, Net(false, false)) == Stated(s'.cache - {key}, Unavailable))
  {
    var key := ToKey(cfg.prefix, p);
    assert Next(cfg, s, StatOp(p, now, net)).cache == StatKeySpec(s, cfg.ttl, key, now, net).cache;
  }

  // A lookup the cache does not answer: S3 failing at the object gives an error,
  // failing at the listing it means that there is no directory.
  lemma UncachedAnswer(cfg: Config, s: FsState, p: string, now: int, net: Net)
    requires CleanRooted(p) != "/" && ToKey(cfg.prefix, p) !in s.cache
    ensures var key, answer := ToKey(cfg.prefix, p), StatSpec(cfg, s, p, now, net).answer;
      && (answer == Unavailable <==> !net.stat)
      && (answer == Known(DirInfo) <==> net.stat && net.list && key !in s.bucket && DirExists(s.bucket, key + "/"))
      && (answer.Known? && answer.info.FileInfo? <==> net.stat && key in s.bucket)
      && answer != Invalid
  {
  }

  // ----- Directories do go stale -----

  // The cache says directory, and no object is left below it.
  predicate StaleDirectory(s: FsState, ttl: int, key: string, now: int) {
    && key in s.cache && Honoured(s.cache[key], ttl, now) && s.cache[key].info.DirInfo?
    && !DirExists(s.bucket, key + "/")
  }

  lemma LookupExactIff(s: FsState, ttl: int, key: string, now: int)
    requires Coherent(s.bucket, s.cache)
    ensures StatKeySpec(s, ttl, key, now, Net(true, true)).answer ==
      (if key in s.bucket then Known(InfoOf(s.bucket[key]))
       else if DirExists(s.bucket, key + "/") then Known(DirInfo) else NotExist)
      <==> !StaleDirectory(s, ttl, key, now)
  {
  }

  // After any run from an empty cache and with S3 answering, Stat says what the
  // file system without a cache says, except of directories that are gone.
  lemma StatExactIff(cfg: Config, b: Bucket, ops: seq<Op>, p: string, now: int)
    ensures var s := Run(cfg, FsState(b, map[]), ops);
      StatSpec(cfg, s, p, now, Net(true, true)).answer == UncachedStat(cfg, UncachedRun(cfg, b, ops), p)
      <==> CleanRooted(p) == "/" || !StaleDirectory(s, cfg.ttl, ToKey(cfg.prefix, p), now)
  {
    RunCoherent(cfg, FsState(b, map[]), ops);
    RunBucket(cfg, FsState(b, map[]), ops);
    LookupExactIff(Run(cfg, FsState(b, map[]), ops), cfg.ttl, ToKey(cfg.prefix, p), now);
  }

  lemma SingleSegment(prefix: string, d: string)
    requires Ordinary(d)
    ensures ToKey(prefix, d) == prefix + d && DirPrefix(prefix, d) == prefix + (d + "/")
    ensures CleanRooted(d) != "/"
  {
    SegmentsJoin([d]);
    assert Segments(d) == [d];
    JoinEnds([d]);
    KeyShape(prefix, d);
    DirPrefixShape(prefix, d);
    CleanInjective(d, d);
  }

  lemma ChildKeyIs(prefix: string, d: string, c: string)
    requires Ordinary(d) && Ordinary(c)
    ensures ToKey(prefix, d + "/" + c) == prefix + (d + "/") + c
    ensures !EndsInSlash(d + "/" + c) && !EndsInSlash(prefix + (d + "/") + c)
  {
    KeyOfChild(prefix, d, c);
    SingleSegment(prefix, d);
    NoTrailingSlash(d + "/", c);
    NoTrailingSlash(prefix + (d + "/"), c);
  }

  lemma DirEntryIsCached(dir: string, key: string, body: Object)
    requires dir + "/" <= key
    ensures StatKeySpec(FsState(map[key := body], map[]), 0, dir, 0, Net(true, true))
      == Stated(map[dir := MetaEntry(DirInfo, 0)], Known(DirInfo))
  {
    var b := map[key := body];
    assert |key| > |dir| && key in b;
    assert DirExists(b, dir + "/");
  }

  lemma StaleEntryStays(cfg: Config, p: string, q: string, body: Object)
    requires cfg.ttl == 0 && CleanRooted(p) != "/"
    requires ToKey(cfg.prefix, p) + "/" <= ToKey(cfg.prefix, q) && !NamesTree(cfg, q)
    ensures var s0 := FsState(map[ToKey(cfg.prefix, q) := body], map[]);
      var s1 := Next(cfg, s0, StatOp(p, 0, Net(true, true)));
      var s2 := Next(cfg, s1, RemoveOp(q, [], {}));
      && StatSpec(cfg, s2, p, 0, Net(true, true)).answer == Known(DirInfo)
      && UncachedStat(cfg, s2.bucket, p) == NotExist
  {
    var dir, key := ToKey(cfg.prefix, p), ToKey(cfg.prefix, q);
    DirEntryIsCached(dir, key, body);
    var s0 := FsState(map[key := body], map[]);
    var s1 := Next(cfg, s0, StatOp(p, 0, Net(true, true)));
    assert s1 == FsState(s0.bucket, map[dir := MetaEntry(DirInfo, 0)]);
    assert Next(cfg, s1, RemoveOp(q, [], {})) == FsState(map[], s1.cache);
  }

  // Stat of a directory, then removal of its only object: the cached directory
  // entry survives and Stat still reports a directory that is gone.
  lemma DirectoryGoesStale(cfg: Config, d: string, c: string, body: Object)
    requires cfg.ttl == 0 && Ordinary(d) && Ordinary(c)
    ensures var s0 := FsState(map[ToKey(cfg.prefix, d + "/" + c) := body], map[]);
      var s1 := Next(cfg, s0, StatOp(d, 0, Net(true, true)));
      var s2 := Next(cfg, s1, RemoveOp(d + "/" + c, [], {}));
      && StatSpec(cfg, s2, d, 0, Net(true, true)).answer == Known(DirInfo)
      && UncachedStat(cfg, s2.bucket, d) == NotExist
  {
    SingleSegment(cfg.prefix, d);
    ChildKeyIs(cfg.prefix, d, c);
    assert cfg.prefix + d + "/" == cfg.prefix + (d + "/");
    StaleEntryStays(cfg, d, d + "/" + c, body);
  }

  // ----- Open -----

  lemma RootNamesNoFile(prefix: string, p: string)
    requires Normalized(prefix) && CleanRooted(p) == "/"
    ensures !NamesFile(ToKey(prefix, p))
  {
    CleanInjective(p, p);
    KeyShape(prefix, p);
  }

  // After any run from an empty cache Open refuses exactly the empty keys and
  // those ending in a slash. With S3 answering it finds an object exactly when the
  // bucket holds one at the key, of that size and time; and it says what the file
  // system without a cache says, except of directories that are gone.
  lemma OpenExactIff(cfg: Config, b: Bucket, ops: seq<Op>, p: string, now: int, net: Net, n: nat, m: int)
    requires Normalized(cfg.prefix)
    ensures var s := Run(cfg, FsState(b, map[]), ops);
      var key, answer := ToKey(cfg.prefix, p), OpenSpec(cfg, s, p, now, net).answer;
      && (answer == Invalid <==> key == "" || key[|key| - 1] == '/')
      && (answer != Invalid && net.stat ==>
           (answer == Known(FileInfo(n, m)) <==>
              key in s.bucket && |s.bucket[key].data| == n && s.bucket[key].modified == m))
      && (answer != Invalid && net == Net(true, true) ==>
           (answer == UncachedStat(cfg, s.bucket, p) <==> !StaleDirectory(s, cfg.ttl, key, now)))
  {
    RunCoherent(cfg, FsState(b, map[]), ops);
    if CleanRooted(p) == "/" {
      RootNamesNoFile(cfg.prefix, p);
    }
    LookupExactIff(Run(cfg, FsState(b, map[]), ops), cfg.ttl, ToKey(cfg.prefix, p), now);
  }

  // So a handle Open gives out need not stand for an object: with S3 answering
  // there is none exactly when only a directory is found.
  lemma OpenedObjectIff(cfg: Config, b: Bucket, ops: seq<Op>, p: string, now: int)
    requires Normalized(cfg.prefix)
    ensures var s := Run(cfg, FsState(b, map[]), ops);
      var key, answer := ToKey(cfg.prefix, p), OpenSpec(cfg, s, p, now, Net(true, true)).answer;
      answer.Known? && key !in s.bucket <==>
      key != "" && key[|key| - 1] != '/' && key !in s.bucket
      && (DirExists(s.bucket, key + "/") || StaleDirectory(s, cfg.ttl, key, now))
  {
    RunCoherent(cfg, FsState(b, map[]), ops);
  }

  // ----- The file system object -----

  const INLINE_SPILL_THRESHOLD: int := 33554432

  class S3VFS {
    const prefix: string
    const inlineMax: int
    const metaCacheTTL: int
    var bucket: Bucket
    var metaCache: MetaCache

    ghost predicate Valid()
      reads this
    {
      Normalized(prefix) && inlineMax > 0 && Coherent(bucket, metaCache)
    }

    ghost function State(): FsState
      reads this
    {
      FsState(bucket, metaCache)
    }

    ghost function Cfg(): Config {
      Config(prefix, metaCacheTTL)
    }

    constructor (configured: string, inlineMaxBytes: int, ttl: int, contents: Bucket)
      ensures Valid() && State() == FsState(contents, map[])
      ensures prefix == NormalizePrefix(configured) && metaCacheTTL == ttl
      ensures inlineMax == if inlineMaxBytes <= 0 then 32 * 1024 * 1024 else inlineMaxBytes
    {
      prefix := NormalizePrefix(configured);
      inlineMax := if inlineMaxBytes <= 0 then INLINE_SPILL_THRESHOLD else inlineMaxBytes;
      metaCacheTTL := ttl;
      bucket := contents;
      metaCache := map[];
      new;
      NormalizePrefixShape(configured);
    }

    method StatKey(key: string, now: int, net: Net) returns (r: Answer)
      requires Valid()
      modifies this`metaCache
      ensures Valid()
      ensures Stated(metaCache, r) == StatKeySpec(old(State()), metaCacheTTL, key, now, net)
    {
      if key in metaCache {
        if Honoured(metaCache[key], metaCacheTTL, now) {
          return Known(metaCache[key].info);
        }
        metaCache := metaCache - {key};
      }
      assert metaCache == old(metaCache) - {key};
      if !net.stat {
        return Unavailable;
      }
      if key in bucket {
        r := Known(InfoOf(bucket[key]));
        metaCache := metaCache[key := MetaEntry(r.info, now)];
        return;
      }
      if net.list && DirExists(bucket, key + "/") {
        metaCache := metaCache[key := MetaEntry(DirInfo, now)];
        return Known(DirInfo);
      }
      return NotExist;
    }

    method Stat(p: string, now: int, net: Net) returns (r: Answer)
      requires Valid()
      modifies this`metaCache
      ensures Valid()
      ensures Stated(metaCache, r) == StatSpec(Cfg(), old(State()), p, now, net)
    {
      if CleanRooted(p) == "/" {
        return Known(DirInfo);
      }
      r := StatKey(ToKey(prefix, p), now, net);
    }

    method Open(p: string, now: int, net: Net) returns (r: Answer)
      requires Valid()
      modifies this`metaCache
      ensures Valid()
      ensures Stated(metaCache, r) == OpenSpec(Cfg(), old(State()), p, now, net)
    {
      var key := ToKey(prefix, p);
      if key == "" || EndsInSlash(key) {
        return Invalid;
      }
      r := StatKey(key, now, net);
    }

    // A nil writer comes with the answer of Open: an error, or a read handle.
    method OpenFile(p: string, writing: bool, now: int, net: Net) returns (w: WriteFile?, r: Answer)
      requires Valid()
      modifies this`metaCache
      ensures Valid()
      ensures w != null <==> writing && NamesFile(ToKey(prefix, p))
      ensures w != null ==> fresh(w) && w.Valid() && w.fs == this && w.logical == p && metaCache == old(metaCache)
      ensures w != null ==> w.Content() == [] && !w.closed
      ensures w == null ==> Stated(metaCache, r) == OpenSpec(Cfg(), old(State()), p, now, net)
    {
      w := null;
      var key := ToKey(prefix, p);
      if key == "" || EndsInSlash(key) {
        r := Invalid;
        return;
      }
      if !writing {
        r := Open(p, now, net);
        return;
      }
      r := Known(FileInfo(0, now));
      w := new WriteFile(this, p);
    }

    method ReadDir(p: string, items: seq<Listed>) returns (r: DirRead)
      requires Valid() && Lists(bucket, DirPrefix(prefix, p), false, items)
      ensures r == ReadEntries(items)
    {
      var entries: seq<DirEntry> := [];
      for i := 0 to |items|
        invariant ReadEntries(items[..i]) == Entries(entries)
      {
        ReadNext(items, i);
        match items[i] {
          case Broken =>
            ReadFailsFrom(items, i + 1);
            return ListFailed;
          case Found(key, _, _) =>
            if key != "" && BaseName(key) != "" {
              entries := entries + [EntryOf(items[i])];
            }
        }
      }
      assert items[..|items|] == items;
      return Entries(entries);
    }

    method Remove(p: string, items: seq<Listed>, failing: set<string>) returns (r: RemoveResult)
      requires Valid()
      requires NamesTree(Cfg(), p) ==> Lists(bucket, TreePrefix(ToKey(prefix, p)), true, items)
      modifies this
      ensures Valid()
      ensures State() == RemoveSpec(Cfg(), old(State()), p, items, failing)
      ensures r == RemoveAnswer(Cfg(), p, items, failing)
    {
      var key := ToKey(prefix, p);
      if key == "" {
        return RemoveInvalid;
      }
      if EndsInSlash(p) || EndsInSlash(key) {
        r := RemoveAll(TrimRight(key, '/') + "/", items, failing);
        return;
      }
      if key in failing {
        return RemoveFailed;
      }
      bucket := bucket - {key};
      metaCache := metaCache - {key};
      return Removed;
    }

    method RemoveAll(at: string, items: seq<Listed>, failing: set<string>) returns (r: RemoveResult)
      requires Valid() && Lists(bucket, at, true, items)
      modifies this
      ensures Valid()
      ensures bucket == RemoveListed(old(bucket), items, failing) && metaCache == map[]
      ensures r == if RemovedAll(items, failing) then Removed else RemoveFailed
    {
      r := Removed;
      for i := 0 to |items|
        invariant bucket == RemoveListed(old(bucket), items[..i], failing)
        invariant r == if RemovedAll(items[..i], failing) then Removed else RemoveFailed
      {
        RemoveNext(old(bucket), items, i, failing);
        if items[i].Found? {
          if items[i].key in failing {
            r := RemoveFailed;
          } else {
            bucket := bucket - {items[i].key};
          }
        }
      }
      assert items[..|items|] == items;
      metaCache := map[];
    }

    method InvalidateMeta(logical: string)
      modifies this`metaCache
      ensures metaCache == old(metaCache) - {ToKey(prefix, logical)}
    {
      metaCache := metaCache - {ToKey(prefix, logical)};
    }
  }

  lemma ReadNext(items: seq<Listed>, n: nat)
    requires n < |items| && ReadEntries(items[..n]).Entries?
    ensures var init := ReadEntries(items[..n]);
      ReadEntries(items[..n + 1]) ==
      if items[n].Broken? then ListFailed
      else if items[n].key == "" || BaseName(items[n].key) == "" then init
      else Entries(init.entries + [EntryOf(items[n])])
  {
    assert items[..n + 1][..n] == items[..n];
  }

  lemma ReadFailsFrom(items: seq<Listed>, n: nat)
    requires n <= |items| && ReadEntries(items[..n]).ListFailed?
    ensures ReadEntries(items).ListFailed?
    decreases |items| - n
  {
    if n < |items| {
      assert items[..n + 1][..n] == items[..n];
      ReadFailsFrom(items, n + 1);
    } else {
      assert items[..n] == items;
    }
  }

  // One more item of the listing that removeAll works through.
  lemma RemoveNext(b: Bucket, items: seq<Listed>, n: nat, failing: set<string>)
    requires n < |items|
    ensures var item, before := items[n], RemoveListed(b, items[..n], failing);
      && RemoveListed(b, items[..n + 1], failing) ==
         (if item.Found? && item.key !in failing then before - {item.key} else before)
      && (RemovedAll(items[..n + 1], failing) <==>
          RemovedAll(items[..n], failing) && !(item.Found? && item.key in failing))
  {
    KeysOfNext(items, n);
  }

  lemma KeysOfNext(items: seq<Listed>, n: nat)
    requires n < |items|
    ensures KeysOf(items[..n + 1]) == KeysOf(items[..n]) + (if items[n].Found? then {items[n].key} else {})
  {
    forall key | key in KeysOf(items[..n])
      ensures key in KeysOf(items[..n + 1])
    {
      var i :| 0 <= i < n && items[..n][i].Found? && items[..n][i].key == key;
      assert items[..n + 1][i] == items[..n][i];
    }
    forall key | key in KeysOf(items[..n + 1])
      ensures key in KeysOf(items[..n]) || (items[n].Found? && key == items[n].key)
    {
      var i :| 0 <= i < n + 1 && items[..n + 1][i].Found? && items[..n + 1][i].key == key;
      if i < n {
        assert items[..n][i] == items[i];
      }
    }
    if items[n].Found? {
      assert items[..n + 1][n] == items[n];
    }
  }

  // ----- The write handle -----

  // What the local disk and S3 do during one call.
  datatype Disk = Disk(create: bool, drain: bool, accept: nat)

  datatype Put = Stored | StoredThenFailed | NotStored

  datatype WriteResult = Wrote(n: nat, err: bool) | ErrClosed

  // The content so far: a memory buffer, or a temporary file once spilled.
  datatype Content = Inline(buf: seq<byte>) | Spilled(file: seq<byte>)

  // The handle as a value: its content, and the bodies it has uploaded.
  datatype Handle = Handle(content: Content, closed: bool, puts: seq<seq<byte>>)

  function Bytes(c: Content): seq<byte> {
    match c case Inline(buf) => buf case Spilled(file) => file
  }

  function Drained(c: Content, disk: Disk): Content {
    match c
    case Inline(buf) => if disk.create && (buf == [] || disk.drain) then Spilled(buf) else c
    case Spilled(_) => c
  }

  function Accepted(p: seq<byte>, disk: Disk): nat {
    if disk.accept < |p| then disk.accept else |p|
  }

  function WriteSpec(h: Handle, p: seq<byte>, inlineMax: int, disk: Disk): (Handle, WriteResult) {
    if h.closed then (h, ErrClosed)
    else
      var crosses := h.content.Inline? && |h.content.buf| + |p| > inlineMax;
      var content := if crosses then Drained(h.content, disk) else h.content;
      match content
      case Spilled(file) =>
        var n := Accepted(p, disk);
        (h.(content := Spilled(file + p[..n])), Wrote(n, n < |p|))
      case Inline(buf) =>
        if crosses then (h, Wrote(0, true)) else (h.(content := Inline(buf + p)), Wrote(|p|, false))
  }

  // The first Close uploads the content in one PutObject, unless the temporary
  // file cannot be rewound; later ones do nothing.
  function CloseSpec(h: Handle, rewinds: bool): Handle {
    if h.closed then h
    else if h.content.Spilled? && !rewinds then h.(closed := true)
    else h.(closed := true, puts := h.puts + [Bytes(h.content)])
  }

  datatype HandleOp = WriteOp(p: seq<byte>, disk: Disk) | CloseOp(rewinds: bool)

  function HandleNext(h: Handle, op: HandleOp, inlineMax: int): Handle {
    match op
    case WriteOp(p, disk) => WriteSpec(h, p, inlineMax, disk).0
    case CloseOp(rewinds) => CloseSpec(h, rewinds)
  }

  function HandleRun(ops: seq<HandleOp>, inlineMax: int): Handle {
    if ops == [] then Handle(Inline([]), false, [])
    else HandleNext(HandleRun(ops[..|ops| - 1], inlineMax), ops[|ops| - 1], inlineMax)
  }

  // The bytes callers were told were accepted, read off the results of the writes alone.
  function AcceptedBytes(ops: seq<HandleOp>, inlineMax: int): seq<byte> {
    if ops == [] then []
    else
      var before := ops[..|ops| - 1];
      AcceptedBytes(before, inlineMax) +
      match ops[|ops| - 1]
      case CloseOp(_) => []
      case WriteOp(p, disk) =>
        match WriteSpec(HandleRun(before, inlineMax), p, inlineMax, disk).1
        case ErrClosed => []
        case Wrote(n, _) => if n <= |p| then p[..n] else []
  }

  function Closes(ops: seq<HandleOp>): nat {
    if ops == [] then 0 else Closes(ops[..|ops| - 1]) + (if ops[|ops| - 1].CloseOp? then 1 else 0)
  }

  // Over every sequence of writes and closes, with any disk failures: the
  // content is the accepted bytes in order; at most one upload happens, of
  // exactly those bytes, and only once closed; memory never exceeds inlineMax.
  lemma {:induction false} HandleRunSafe(ops: seq<HandleOp>, inlineMax: int)
    requires inlineMax > 0
    ensures var h := HandleRun(ops, inlineMax);
      && Bytes(h.content) == AcceptedBytes(ops, inlineMax)
      && (h.closed <==> Closes(ops) > 0)
      && (h.puts == [] || (h.closed && h.puts == [AcceptedBytes(ops, inlineMax)]))
      && (h.closed && h.content.Inline? ==> h.puts != [])
      && (h.content.Inline? ==> |h.content.buf| <= inlineMax)
  {
    if ops != [] {
      HandleRunSafe(ops[..|ops| - 1], inlineMax);
    }
  }

  // What one step keeps: content does not return to memory, bytes and uploads
  // only grow, and a closed handle is left alone.
  ghost predicate Extends(h: Handle, h': Handle) {
    && (h.content.Spilled? ==> h'.content.Spilled?)
    && Bytes(h.content) <= Bytes(h'.content) && h.puts <= h'.puts
    && (h.closed ==> h' == h)
  }

  lemma HandleNextExtends(h: Handle, op: HandleOp, inlineMax: int)
    ensures Extends(h, HandleNext(h, op, inlineMax))
  {
  }

  // A write that fails without accepting anything changes at most where the
  // content is held, and only towards the file.
  lemma FailedWriteKeeps(h: Handle, op: HandleOp, inlineMax: int)
    ensures op.WriteOp? && WriteSpec(h, op.p, inlineMax, op.disk).1 == Wrote(0, true) ==>
      HandleNext(h, op, inlineMax) == h || (h.content.Inline? && HandleNext(h, op, inlineMax).content.Spilled?)
  {
  }

  // Over any run: once spilled the content stays in the file, no accepted byte
  // and no upload is taken back, and nothing happens to a closed handle.
  lemma {:induction false} SpillsOnce(ops: seq<HandleOp>, n: nat, inlineMax: int)
    requires n <= |ops|
    ensures Extends(HandleRun(ops[..n], inlineMax), HandleRun(ops, inlineMax))
    decreases |ops|
  {
    if n == |ops| {
      assert ops[..n] == ops;
    } else {
      var before := ops[..|ops| - 1];
      assert before[..n] == ops[..n];
      SpillsOnce(before, n, inlineMax);
      HandleNextExtends(HandleRun(before, inlineMax), ops[|ops| - 1], inlineMax);
    }
  }

  // The first close uploads what had been accepted by then, unless it lies in a
  // file that cannot be rewound; nothing later adds or removes an upload.
  lemma {:induction false} UploadIff(ops: seq<HandleOp>, n: nat, inlineMax: int)
    requires inlineMax > 0 && n < |ops| && ops[n].CloseOp? && Closes(ops[..n]) == 0
    ensures HandleRun(ops, inlineMax).puts ==
      if HandleRun(ops[..n], inlineMax).content.Spilled? && !ops[n].rewinds then []
      else [AcceptedBytes(ops[..n], inlineMax)]
  {
    HandleRunSafe(ops[..n], inlineMax);
    assert ops[..n + 1][..n] == ops[..n];
    SpillsOnce(ops, n + 1, inlineMax);
  }

  // Content leaves memory only in a write that would take it over the threshold.
  lemma {:induction false} SpillsOnlyOver(ops: seq<HandleOp>, inlineMax: int) returns (n: nat)
    requires HandleRun(ops, inlineMax).content.Spilled?
    ensures n < |ops| && ops[n].WriteOp?
    ensures |Bytes(HandleRun(ops[..n], inlineMax).content)| + |ops[n].p| > inlineMax
    decreases |ops|
  {
    var before := ops[..|ops| - 1];
    if HandleRun(before, inlineMax).content.Spilled? {
      n := SpillsOnlyOver(before, inlineMax);
      assert before[..n] == ops[..n];
    } else {
      n := |ops| - 1;
    }
  }

  // A write is accepted whole exactly when the handle is open and the bytes fit
  // into memory, or the file is there or can be made and takes them all.
  lemma WriteAcceptedIff(h: Handle, p: seq<byte>, inlineMax: int, disk: Disk)
    ensures WriteSpec(h, p, inlineMax, disk).1 == Wrote(|p|, false) <==>
      && !h.closed
      && if h.content.Inline? then
           |h.content.buf| + |p| <= inlineMax
           || (disk.create && (h.content.buf == [] || disk.drain) && |p| <= disk.accept)
         else |p| <= disk.accept
  {
  }

  // What a write reports is what it has added: all of it, what the file took, or
  // nothing. Into the file it goes if it is there or the write crosses the threshold.
  lemma WriteMeaning(h: Handle, p: seq<byte>, inlineMax: int, disk: Disk)
    requires !h.closed
    ensures var (h', r) := WriteSpec(h, p, inlineMax, disk);
      && r.Wrote? && r.n <= |p| && Bytes(h'.content) == Bytes(h.content) + p[..r.n]
      && h'.closed == h.closed && h'.puts == h.puts
      && (h'.content.Spilled? && r.n < |p| ==> r.err && r.n == disk.accept)
      && (h'.content.Inline? && r.n < |p| ==> r.err && r.n == 0)
      && (h.content.Inline? && |Bytes(h.content)| + |p| <= inlineMax ==> h'.content.Inline? && r == Wrote(|p|, false))
  {
  }

  function Bodies(ps: seq<seq<byte>>): seq<byte> {
    if ps == [] then [] else Bodies(ps[..|ps| - 1]) + ps[|ps| - 1]
  }

  function Writes(ps: seq<seq<byte>>, disk: Disk): seq<HandleOp> {
    seq(|ps|, i requires 0 <= i < |ps| => WriteOp(ps[i], disk))
  }

  // With a disk that works, what is uploaded is everything that was written.
  lemma {:induction false} WorkingDiskWrites(ps: seq<seq<byte>>, inlineMax: int, disk: Disk)
    requires disk.create && disk.drain && forall p <- ps :: |p| <= disk.accept
    ensures var h := HandleRun(Writes(ps, disk), inlineMax);
      Bytes(h.content) == Bodies(ps) && !h.closed && h.puts == []
  {
    if ps != [] {
      var all := Writes(ps, disk);
      assert all[..|all| - 1] == Writes(ps[..|ps| - 1], disk);
      assert all[|all| - 1] == WriteOp(ps[|ps| - 1], disk) && ps[|ps| - 1] in ps;
      WorkingDiskWrites(ps[..|ps| - 1], inlineMax, disk);
    }
  }

  lemma {:induction false} AllBytesUploaded(ps: seq<seq<byte>>, inlineMax: int, disk: Disk)
    requires disk.create && disk.drain && forall p <- ps :: |p| <= disk.accept
    ensures HandleRun(Writes(ps, disk) + [CloseOp(true)], inlineMax).puts == [Bodies(ps)]
  {
    var all := Writes(ps, disk) + [CloseOp(true)];
    assert all[..|all| - 1] == Writes(ps, disk);
    WorkingDiskWrites(ps, inlineMax, disk);
  }

  class WriteFile {
    const fs: S3VFS
    const key: string
    const logical: string
    const inlineMax: int

    var inlineBuf: seq<byte>
    var tmp: seq<byte>
    var spilled: bool
    var written: int
    var closed: bool
    ghost var puts: seq<seq<byte>>
    ghost var tempFiles: nat

    ghost predicate Valid()
      reads this
    {
      && key == ToKey(fs.prefix, logical) && NamesFile(key)
      && inlineMax > 0
      && written == |Content()|
      && (spilled ==> inlineBuf == [])
      && |inlineBuf| <= inlineMax
      && tempFiles == (if spilled && !closed then 1 else 0)
    }

    ghost function Content(): seq<byte>
      reads this
    {
      if spilled then tmp else inlineBuf
    }

    ghost function State(): Handle
      reads this
    {
      Handle(if spilled then Spilled(tmp) else Inline(inlineBuf), closed, puts)
    }

    constructor (fs: S3VFS, logical: string)
      requires fs.Valid() && NamesFile(ToKey(fs.prefix, logical))
      ensures Valid() && this.fs == fs && this.logical == logical && inlineMax == fs.inlineMax
      ensures State() == HandleRun([], inlineMax)
    {
      this.fs := fs;
      this.key := ToKey(fs.prefix, logical);
      this.logical := logical;
      this.inlineMax := fs.inlineMax;
      inlineBuf, tmp, spilled, written, closed := [], [], false, 0, false;
      puts, tempFiles := [], 0;
    }

    method Write(p: seq<byte>, disk: Disk) returns (r: WriteResult)
      requires Valid()
      modifies this
      ensures Valid()
      ensures (State(), r) == WriteSpec(old(State()), p, inlineMax, disk)
    {
      if closed {
        return ErrClosed;
      }
      if !spilled && written + |p| > inlineMax {
        var ok := Spill(disk);
        if !ok {
          return Wrote(0, true);
        }
      }
      if spilled {
        var n := Accepted(p, disk);
        tmp := tmp + p[..n];
        written := written + n;
        return Wrote(n, n < |p|);
      }
      inlineBuf := inlineBuf + p;
      written := written + |p|;
      return Wrote(|p|, false);
    }

    method Spill(disk: Disk) returns (ok: bool)
      requires Valid() && !spilled && !closed
      modifies this
      ensures Valid() && closed == old(closed) && puts == old(puts)
      ensures State().content == Drained(old(State()).content, disk)
      ensures ok == spilled
    {
      if !disk.create {
        return false;
      }
      tempFiles := tempFiles + 1;
      if |inlineBuf| > 0 {
        if !disk.drain {
          tempFiles := tempFiles - 1;
          return false;
        }
      }
      tmp := inlineBuf;
      inlineBuf := [];
      spilled := true;
      return true;
    }

    // now is the modification time S3 gives the object.
    method Close(rewinds: bool, put: Put, now: int) returns (err: bool)
      requires Valid() && fs.Valid()
      modifies this, fs
      ensures Valid() && fs.Valid()
      ensures State() == CloseSpec(old(State()), rewinds)
      ensures old(closed) ==> fs.State() == old(fs.State()) && !err
      ensures !old(closed) ==> tempFiles == 0 && written == old(written)
      ensures !old(closed) ==>
        var uploads := !old(spilled) || rewinds;
        && fs.State() ==
           StoreSpec(fs.Cfg(), old(fs.State()), logical, Object(old(Content()), now), uploads && put != NotStored)
        && (err <==> !uploads || put != Stored)
    {
      if closed {
        return false;
      }
      NextCoherent(fs.Cfg(), fs.State(), StoreOp(logical, Object(Content(), now), true));
      NextCoherent(fs.Cfg(), fs.State(), StoreOp(logical, Object(Content(), now), false));
      closed := true;
      if spilled {
        if !rewinds {
          err := true;
        } else {
          assert tmp[..written] == tmp;
          err := PutObject(tmp[..written], put, now);
        }
        tempFiles := 0;
      } else {
        err := PutObject(inlineBuf, put, now);
      }
      fs.InvalidateMeta(logical);
    }

    // One PutObject of the client: a failing call may or may not have stored the body.
    method PutObject(body: seq<byte>, put: Put, now: int) returns (err: bool)
      modifies this`puts, fs`bucket
      ensures puts == old(puts) + [body]
      ensures fs.bucket == if put == NotStored then old(fs.bucket) else old(fs.bucket)[key := Object(body, now)]
      ensures err <==> put != Stored
    {
      puts := puts + [body];
      if put != NotStored {
        fs.bucket := fs.bucket[key := Object(body, now)];
      }
      return put != Stored;
    }

    // Seeking is refused except to the current offset. Whence: 0 start, 1 current.
    method Seek(off: int, whence: int) returns (r: int, err: bool)
      requires Valid()
      ensures !err <==> (whence == 1 && off == 0) || (whence == 0 && off == |Content()|)
      ensures r == if err then 0 else |Content()|
    {
      if whence == 1 && off == 0 {
        return written, false;
      }
      if whence == 0 && off == written {
        return written, false;
      }
      return 0, true;
    }
  }
}
