// internal/storage/s3vfs: the metadata cache when calls interleave. A stat that
// misses reads the bucket and fills the cache later; a write or removal changes
// the bucket and invalidates later. Every step is atomic and takes one tick.
module StatCacheRace {
  import opened Ids
  import opened Paths
  import opened Listing
  import opened S3Vfs

  type Tid = nat

  // What a cached entry says, when its stat read the bucket and when it was filled in.
  datatype Entry = Entry(info: Info, readAt: nat, filledAt: nat)

  datatype Thread =
    | Probing(key: string, readAt: nat)               // no object at key; directory probe comes next
    | Filling(key: string, info: Info, readAt: nat)   // metaCache.Add comes next
    | Invalidating(key: string)                       // metaCache.Remove comes next
    | Purging(touched: set<string>)                   // removeAll, before metaCache.Purge

  datatype Change = Change(at: nat, maker: Tid)

  datatype State = State(
    clock: nat,
    bucket: Bucket,
    cache: map<string, Entry>,
    threads: map<Tid, Thread>,
    lastChange: map<string, Change>,   // the last step that changed each key
    settled: map<string, nat>)         // when that change's own invalidation ran

  datatype Event =
    | StatRead(t: Tid, key: string)
    | DirProbe(t: Tid, listed: bool)
    | Fill(t: Tid)
    | Upload(t: Tid, key: string, body: Object, took: bool)
    | RemoveOne(t: Tid, key: string)
    | Invalidate(t: Tid)
    | BulkStart(t: Tid)
    | BulkRemove(t: Tid, key: string)
    | Purge(t: Tid)
    | Evict(keys: set<string>)

  predicate Enabled(s: State, e: Event) {
    match e
    case StatRead(t, _) => t !in s.threads
    case DirProbe(t, _) => t in s.threads && s.threads[t].Probing?
    case Fill(t) => t in s.threads && s.threads[t].Filling?
    case Upload(t, _, _, _) => t !in s.threads
    case RemoveOne(t, _) => t !in s.threads
    case Invalidate(t) => t in s.threads && s.threads[t].Invalidating?
    case BulkStart(t) => t !in s.threads
    case BulkRemove(t, _) => t in s.threads && s.threads[t].Purging?
    case Purge(t) => t in s.threads && s.threads[t].Purging?
    case Evict(_) => true
  }

  function SetKey(s: State, t: Tid, key: string, b: Bucket): State {
    if b == s.bucket then s
    else s.(bucket := b, lastChange := s.lastChange[key := Change(s.clock, t)], settled := s.settled - {key})
  }

  // The keys whose last change t made, among those it is about to invalidate.
  function OwnChanges(s: State, t: Tid, keys: set<string>): set<string> {
    set key | key in keys && key in s.lastChange && s.lastChange[key].maker == t && key !in s.settled
  }

  function Settle(s: State, t: Tid, keys: set<string>): State {
    s.(threads := s.threads - {t}, settled := s.settled + map key | key in OwnChanges(s, t, keys) :: s.clock)
  }

  function Do(s: State, e: Event): State
    requires Enabled(s, e)
  {
    var now := s.clock;
    var s' := match e
      case StatRead(t, key) =>
        var next := if key in s.bucket then Filling(key, InfoOf(s.bucket[key]), now) else Probing(key, now);
        s.(threads := s.threads[t := next])
      case DirProbe(t, listed) =>
        var th := s.threads[t];
        if listed && DirExists(s.bucket, th.key + "/")
        then s.(threads := s.threads[t := Filling(th.key, DirInfo, th.readAt)])
        else s.(threads := s.threads - {t})
      case Fill(t) =>
        var th := s.threads[t];
        s.(cache := s.cache[th.key := Entry(th.info, th.readAt, now)], threads := s.threads - {t})
      case Upload(t, key, body, took) =>
        var b := if took then s.bucket[key := body] else s.bucket;
        SetKey(s, t, key, b).(threads := s.threads[t := Invalidating(key)])
      case RemoveOne(t, key) =>
        SetKey(s, t, key, s.bucket - {key}).(threads := s.threads[t := Invalidating(key)])
      case Invalidate(t) =>
        Settle(s, t, {s.threads[t].key}).(cache := s.cache - {s.threads[t].key})
      case BulkStart(t) => s.(threads := s.threads[t := Purging({})])
      case BulkRemove(t, key) =>
        SetKey(s, t, key, s.bucket - {key}).(threads := s.threads[t := Purging(s.threads[t].touched + {key})])
      case Purge(t) => Settle(s, t, s.threads[t].touched).(cache := map[])
      case Evict(keys) => s.(cache := s.cache - keys);
    s'.(clock := now + 1)
  }

  function Init(b: Bucket): State {
    State(0, b, map[], map[], map[], map[])
  }

  ghost predicate Runs(s: State, events: seq<Event>, s': State)
    decreases |events|
  {
    if events == [] then s' == s
    else Enabled(s, events[0]) && Runs(Do(s, events[0]), events[1..], s')
  }

  // ----- A call that nothing interleaves with -----

  // What the cached entries say, here and in S3Vfs.
  function Says(cache: map<string, Entry>): map<string, Info> {
    map key | key in cache :: cache[key].info
  }

  function MetaSays(cache: MetaCache): map<string, Info> {
    map key | key in cache :: cache[key].info
  }

  lemma SaysWithout(cache: map<string, Entry>, meta: MetaCache, key: string)
    requires MetaSays(meta) == Says(cache)
    ensures MetaSays(meta - {key}) == Says(cache - {key})
  {
    assert MetaSays(meta).Keys == meta.Keys && Says(cache).Keys == cache.Keys;
    assert forall k :: k in meta ==> MetaSays(meta)[k] == meta[k].info;
    assert forall k :: k in cache ==> Says(cache)[k] == cache[k].info;
  }

  lemma InvalidateAlone(s: State, t: Tid, key: string)
    requires t in s.threads && s.threads[t] == Invalidating(key)
    ensures var s' := Do(s, Invalidate(t));
      s'.bucket == s.bucket && s'.cache == s.cache - {key} && s'.threads == s.threads - {t}
  {
  }

  lemma WriteAlone(s: State, e: Event)
    requires Enabled(s, e) && (e.Upload? || e.RemoveOne?)
    ensures var s' := Do(s, e);
      && s'.bucket == (if e.RemoveOne? then s.bucket - {e.key}
                       else if e.took then s.bucket[e.key := e.body] else s.bucket)
      && s'.cache == s.cache && s'.threads == s.threads[e.t := Invalidating(e.key)]
  {
  }

  // An upload with its invalidation does what StoreSpec does.
  lemma StoreAlone(s: State, t: Tid, cfg: Config, p: string, body: Object, took: bool, meta: MetaCache)
    requires t !in s.threads && MetaSays(meta) == Says(s.cache)
    ensures var s' := Do(Do(s, Upload(t, ToKey(cfg.prefix, p), body, took)), Invalidate(t));
      var alone := StoreSpec(cfg, FsState(s.bucket, meta), p, body, took);
      s'.bucket == alone.bucket && Says(s'.cache) == MetaSays(alone.cache) && s'.threads == s.threads
  {
    var key := ToKey(cfg.prefix, p);
    WriteAlone(s, Upload(t, key, body, took));
    InvalidateAlone(Do(s, Upload(t, key, body, took)), t, key);
    SaysWithout(s.cache, meta, key);
  }

  // A single removal with its invalidation does what RemoveSpec does.
  lemma RemoveAlone(s: State, t: Tid, cfg: Config, p: string, meta: MetaCache)
    requires t !in s.threads && MetaSays(meta) == Says(s.cache)
    requires ToKey(cfg.prefix, p) != "" && !NamesTree(cfg, p)
    ensures var s' := Do(Do(s, RemoveOne(t, ToKey(cfg.prefix, p))), Invalidate(t));
      var alone := RemoveSpec(cfg, FsState(s.bucket, meta), p, [], {});
      s'.bucket == alone.bucket && Says(s'.cache) == MetaSays(alone.cache) && s'.threads == s.threads
  {
    var key := ToKey(cfg.prefix, p);
    WriteAlone(s, RemoveOne(t, key));
    InvalidateAlone(Do(s, RemoveOne(t, key)), t, key);
    SaysWithout(s.cache, meta, key);
  }

  // The steps of a stat of an uncached key.
  function StatSteps(s: State, t: Tid, key: string, listed: bool): State
    requires t !in s.threads
  {
    var read := Do(s, StatRead(t, key));
    if key in s.bucket then Do(read, Fill(t))
    else
      var probed := Do(read, DirProbe(t, listed));
      if t in probed.threads then Do(probed, Fill(t)) else probed
  }

  // What a fill from this information leaves behind.
  predicate Filled(s: State, s': State, key: string, info: Info) {
    && s'.bucket == s.bucket && s'.threads == s.threads
    && key in s'.cache && s'.cache[key].info == info && s'.cache - {key} == s.cache - {key}
  }

  lemma FillAlone(s: State, t: Tid, key: string, info: Info, readAt: nat)
    requires t in s.threads && s.threads[t] == Filling(key, info, readAt)
    ensures var s' := Do(s, Fill(t));
      && s'.bucket == s.bucket && s'.threads == s.threads - {t}
      && key in s'.cache && s'.cache[key].info == info && s'.cache - {key} == s.cache - {key}
  {
  }

  // A stat of an uncached key finds and caches what StatKeySpec does.
  lemma StatAlone(s: State, t: Tid, key: string, listed: bool, ttl: int, now: int)
    requires t !in s.threads && key !in s.cache
    ensures var s' := StatSteps(s, t, key, listed);
      var answer := StatKeySpec(FsState(s.bucket, map[]), ttl, key, now, Net(true, listed)).answer;
      if answer.Known? then Filled(s, s', key, answer.info)
      else s'.bucket == s.bucket && s'.threads == s.threads && s'.cache == s.cache
  {
    var read := Do(s, StatRead(t, key));
    if key in s.bucket {
      FillAlone(read, t, key, InfoOf(s.bucket[key]), s.clock);
      assert read.threads - {t} == s.threads;
    } else {
      ProbeAlone(s, t, key, listed);
    }
  }

  lemma ProbeAlone(s: State, t: Tid, key: string, listed: bool)
    requires t !in s.threads && key !in s.bucket
    ensures var s' := StatSteps(s, t, key, listed);
      if listed && DirExists(s.bucket, key + "/") then Filled(s, s', key, DirInfo)
      else s'.bucket == s.bucket && s'.threads == s.threads && s'.cache == s.cache
  {
    var probed := Do(Do(s, StatRead(t, key)), DirProbe(t, listed));
    assert probed.threads - {t} == s.threads;
    if t in probed.threads {
      FillAlone(probed, t, key, DirInfo, s.clock);
    }
  }

  // A bulk removal of one key and its purge.
  lemma BulkAlone(s: State, t: Tid, key: string)
    requires t !in s.threads
    ensures var s' := Do(Do(Do(s, BulkStart(t)), BulkRemove(t, key)), Purge(t));
      s'.bucket == s.bucket - {key} && s'.cache == map[] && s'.threads == s.threads
  {
  }

  // ----- What every interleaving keeps -----

  predicate Matches(b: Bucket, key: string, info: Info) {
    match info
    case FileInfo(_, _) => key in b && info == InfoOf(b[key])
    case DirInfo => key !in b
  }

  // Nothing has changed the key since the given time.
  predicate UnchangedSince(s: State, key: string, time: nat) {
    key in s.lastChange ==> s.lastChange[key].at <= time
  }

  ghost predicate FillerSound(s: State, th: Thread) {
    match th
    case Probing(key, readAt) => readAt < s.clock && (UnchangedSince(s, key, readAt) ==> key !in s.bucket)
    case Filling(key, info, readAt) =>
      readAt < s.clock && (UnchangedSince(s, key, readAt) ==> Matches(s.bucket, key, info))
    case _ => true
  }

  ghost predicate EntrySound(s: State, key: string, e: Entry) {
    && e.readAt < e.filledAt < s.clock
    && (UnchangedSince(s, key, e.readAt) ==> Matches(s.bucket, key, e.info))
    && (key in s.settled ==> s.settled[key] < e.filledAt)
  }

  // An unsettled change has its thread still on the way to the invalidation.
  predicate Owed(s: State, key: string) {
    key in s.lastChange && key !in s.settled ==>
      var t := s.lastChange[key].maker;
      t in s.threads &&
      match s.threads[t]
      case Invalidating(k) => k == key
      case Purging(touched) => key in touched
      case _ => false
  }

  ghost predicate Inv(s: State) {
    && (forall key :: key in s.cache ==> EntrySound(s, key, s.cache[key]))
    && (forall t :: t in s.threads ==> FillerSound(s, s.threads[t]))
    && (forall key :: key in s.lastChange ==> s.lastChange[key].at < s.clock && Owed(s, key))
    && (forall key :: key in s.settled ==>
         key in s.lastChange && s.lastChange[key].at < s.settled[key] < s.clock)
  }

  // Two buckets agree on every other key.
  ghost predicate SameElsewhere(b: Bucket, c: Bucket, key: string) {
    forall k :: k != key ==> (k in b <==> k in c) && (k in b && k in c ==> b[k] == c[k])
  }

  lemma SettleEntry(s: State, t: Tid, keys: set<string>, cache: map<string, Entry>, k: string)
    requires Inv(s) && k in s.cache && k !in keys
    ensures EntrySound(Settle(s, t, keys).(cache := cache, clock := s.clock + 1), k, s.cache[k])
  {
    assert EntrySound(s, k, s.cache[k]);
  }

  lemma SettleOwed(s: State, t: Tid, keys: set<string>, cache: map<string, Entry>, k: string)
    requires Inv(s) && t in s.threads && k in s.lastChange
    requires s.threads[t] == Purging(keys) || exists key :: s.threads[t] == Invalidating(key) && keys == {key}
    ensures Owed(Settle(s, t, keys).(cache := cache, clock := s.clock + 1), k)
  {
    assert Owed(s, k);
  }

  lemma SettleInv(s: State, t: Tid, keys: set<string>, cache: map<string, Entry>)
    requires Inv(s) && t in s.threads
    requires s.threads[t] == Purging(keys) || exists key :: s.threads[t] == Invalidating(key) && keys == {key}
    requires cache.Keys <= s.cache.Keys - keys && forall key :: key in cache ==> cache[key] == s.cache[key]
    ensures Inv(Settle(s, t, keys).(cache := cache, clock := s.clock + 1))
  {
    var s' := Settle(s, t, keys).(cache := cache, clock := s.clock + 1);
    forall k | k in s'.cache
      ensures EntrySound(s', k, s'.cache[k])
    {
      SettleEntry(s, t, keys, cache, k);
    }
    forall k | k in s'.lastChange
      ensures Owed(s', k)
    {
      SettleOwed(s, t, keys, cache, k);
    }
  }

  // The thread that wrote key, before and after the write.
  predicate WriterStep(s: State, t: Tid, key: string, th: Thread) {
    && (th == Invalidating(key) || (th.Purging? && key in th.touched))
    && (t in s.threads ==> s.threads[t].Purging? && th == Purging(s.threads[t].touched + {key}))
  }

  // A write of key leaves what was sound of other keys, and makes the last
  // change of its own newer than any reading.
  lemma SetKeyEntry(s: State, t: Tid, key: string, b: Bucket, th: Thread, k: string)
    requires Inv(s) && SameElsewhere(b, s.bucket, key) && k in s.cache
    ensures EntrySound(SetKey(s, t, key, b).(threads := s.threads[t := th], clock := s.clock + 1), k, s.cache[k])
  {
    assert EntrySound(s, k, s.cache[k]);
  }

  lemma SetKeyFiller(s: State, t: Tid, key: string, b: Bucket, th: Thread, u: Tid)
    requires Inv(s) && SameElsewhere(b, s.bucket, key) && u in s.threads
    ensures FillerSound(SetKey(s, t, key, b).(threads := s.threads[t := th], clock := s.clock + 1), s.threads[u])
  {
    assert FillerSound(s, s.threads[u]);
  }

  lemma SetKeyOwed(s: State, t: Tid, key: string, b: Bucket, th: Thread)
    requires Inv(s) && WriterStep(s, t, key, th)
    ensures var s' := SetKey(s, t, key, b).(threads := s.threads[t := th], clock := s.clock + 1);
      && (forall k :: k in s'.lastChange ==> s'.lastChange[k].at < s'.clock && Owed(s', k))
      && (forall k :: k in s'.settled ==> k in s'.lastChange && s'.lastChange[k].at < s'.settled[k] < s'.clock)
  {
    var s' := SetKey(s, t, key, b).(threads := s.threads[t := th], clock := s.clock + 1);
    forall k | k in s'.lastChange
      ensures s'.lastChange[k].at < s'.clock && Owed(s', k)
    {
      if k != key || b == s.bucket {
        assert Owed(s, k);
      }
    }
  }

  lemma SetKeyInv(s: State, t: Tid, key: string, b: Bucket, th: Thread)
    requires Inv(s) && WriterStep(s, t, key, th) && SameElsewhere(b, s.bucket, key)
    ensures Inv(SetKey(s, t, key, b).(threads := s.threads[t := th], clock := s.clock + 1))
  {
    var s' := SetKey(s, t, key, b).(threads := s.threads[t := th], clock := s.clock + 1);
    forall k | k in s'.cache
      ensures EntrySound(s', k, s'.cache[k])
    {
      SetKeyEntry(s, t, key, b, th, k);
    }
    forall u | u in s'.threads
      ensures FillerSound(s', s'.threads[u])
    {
      if u != t {
        SetKeyFiller(s, t, key, b, th, u);
      }
    }
    SetKeyOwed(s, t, key, b, th);
  }

  lemma ReaderInv(s: State, t: Tid, th: Thread)
    requires Inv(s) && (t in s.threads ==> s.threads[t].Probing?)
    requires th.Purging? || FillerSound(s.(clock := s.clock + 1), th)
    ensures Inv(s.(threads := s.threads[t := th], clock := s.clock + 1))
  {
    var s' := s.(threads := s.threads[t := th], clock := s.clock + 1);
    forall k | k in s'.lastChange
      ensures Owed(s', k)
    {
      assert Owed(s, k);
    }
    forall u | u in s'.threads
      ensures FillerSound(s', s'.threads[u])
    {
      if u != t {
        assert FillerSound(s, s.threads[u]);
      }
    }
  }

  lemma DropReaderInv(s: State, t: Tid, cache: map<string, Entry>)
    requires Inv(s) && (t in s.threads ==> s.threads[t].Probing? || s.threads[t].Filling?)
    requires forall k :: k in cache ==>
      (k in s.cache && cache[k] == s.cache[k]) || EntrySound(s.(clock := s.clock + 1), k, cache[k])
    ensures Inv(s.(cache := cache, threads := s.threads - {t}, clock := s.clock + 1))
  {
    var s' := s.(cache := cache, threads := s.threads - {t}, clock := s.clock + 1);
    forall k | k in s'.lastChange
      ensures Owed(s', k)
    {
      assert Owed(s, k);
    }
    forall k | k in s'.cache
      ensures EntrySound(s', k, s'.cache[k])
    {
      assert k in s.cache ==> EntrySound(s, k, s.cache[k]);
    }
  }

  lemma FillInv(s: State, t: Tid)
    requires Inv(s) && Enabled(s, Fill(t))
    ensures Inv(Do(s, Fill(t)))
  {
    var th := s.threads[t];
    var e := Entry(th.info, th.readAt, s.clock);
    assert FillerSound(s, th);
    assert EntrySound(s.(clock := s.clock + 1), th.key, e);
    DropReaderInv(s, t, s.cache[th.key := e]);
  }

  lemma StatReadInv(s: State, t: Tid, key: string)
    requires Inv(s) && t !in s.threads
    ensures Inv(Do(s, StatRead(t, key)))
  {
    ReaderInv(s, t, if key in s.bucket then Filling(key, InfoOf(s.bucket[key]), s.clock) else Probing(key, s.clock));
  }

  lemma DirFoundInv(s: State, t: Tid, key: string, readAt: nat)
    requires Inv(s) && t in s.threads && s.threads[t] == Probing(key, readAt)
    ensures Inv(s.(threads := s.threads[t := Filling(key, DirInfo, readAt)], clock := s.clock + 1))
  {
    assert FillerSound(s, s.threads[t]);
    assert FillerSound(s.(clock := s.clock + 1), Filling(key, DirInfo, readAt));
    ReaderInv(s, t, Filling(key, DirInfo, readAt));
  }

  lemma DirProbeInv(s: State, t: Tid, listed: bool)
    requires Inv(s) && Enabled(s, DirProbe(t, listed))
    ensures Inv(Do(s, DirProbe(t, listed)))
  {
    var th := s.threads[t];
    if listed && DirExists(s.bucket, th.key + "/") {
      DirFoundInv(s, t, th.key, th.readAt);
    } else {
      DropReaderInv(s, t, s.cache);
    }
  }

  lemma UploadInv(s: State, t: Tid, key: string, body: Object, took: bool)
    requires Inv(s) && t !in s.threads
    ensures Inv(Do(s, Upload(t, key, body, took)))
  {
    var b := if took then s.bucket[key := body] else s.bucket;
    assert SameElsewhere(b, s.bucket, key);
    SetKeyInv(s, t, key, b, Invalidating(key));
  }

  lemma RemovalInv(s: State, e: Event)
    requires Inv(s) && Enabled(s, e) && (e.RemoveOne? || e.BulkRemove?)
    ensures Inv(Do(s, e))
  {
    var b := s.bucket - {e.key};
    assert SameElsewhere(b, s.bucket, e.key);
    var next := if e.RemoveOne? then Invalidating(e.key) else Purging(s.threads[e.t].touched + {e.key});
    SetKeyInv(s, e.t, e.key, b, next);
  }

  lemma InvalidationInv(s: State, e: Event)
    requires Inv(s) && Enabled(s, e) && (e.Invalidate? || e.Purge?)
    ensures Inv(Do(s, e))
  {
    if e.Invalidate? {
      SettleInv(s, e.t, {s.threads[e.t].key}, s.cache - {s.threads[e.t].key});
    } else {
      SettleInv(s, e.t, s.threads[e.t].touched, map[]);
    }
  }

  lemma StepInv(s: State, e: Event)
    requires Inv(s) && Enabled(s, e)
    ensures Inv(Do(s, e))
  {
    match e
    case StatRead(t, key) => StatReadInv(s, t, key);
    case DirProbe(t, listed) => DirProbeInv(s, t, listed);
    case Fill(t) => FillInv(s, t);
    case Upload(t, key, body, took) => UploadInv(s, t, key, body, took);
    case BulkStart(t) => ReaderInv(s, t, Purging({}));
    case Evict(keys) => EvictInv(s, keys);
    case RemoveOne(_, _) => RemovalInv(s, e);
    case BulkRemove(_, _) => RemovalInv(s, e);
    case _ => InvalidationInv(s, e);
  }

  lemma EvictInv(s: State, keys: set<string>)
    requires Inv(s)
    ensures Inv(s.(cache := s.cache - keys, clock := s.clock + 1))
  {
    var s' := s.(cache := s.cache - keys, clock := s.clock + 1);
    forall k | k in s'.lastChange
      ensures Owed(s', k)
    {
      assert Owed(s, k);
    }
  }

  lemma {:induction false} RunInv(s: State, events: seq<Event>, s': State)
    requires Inv(s) && Runs(s, events, s')
    ensures Inv(s')
    decreases |events|
  {
    if events != [] {
      StepInv(s, events[0]);
      RunInv(Do(s, events[0]), events[1..], s');
    }
  }

  // Some thread changed the key and has not invalidated it yet.
  ghost predicate ChangePending(s: State, key: string) {
    exists t :: t in s.threads &&
      (s.threads[t] == Invalidating(key) || (s.threads[t].Purging? && key in s.threads[t].touched))
  }

  // The theorem: in every interleaving with any evictions, a cached entry that
  // contradicts the bucket while no change of its key awaits invalidation was
  // filled by a stat that read before the key's last change and filled in after
  // that change's own invalidation.
  lemma {:induction false} StaleOnlyByLateFill(b: Bucket, events: seq<Event>, s: State, key: string)
    requires Runs(Init(b), events, s)
    requires key in s.cache && !Matches(s.bucket, key, s.cache[key].info)
    requires !ChangePending(s, key)
    ensures key in s.lastChange && key in s.settled
    ensures s.cache[key].readAt < s.lastChange[key].at < s.settled[key] < s.cache[key].filledAt
  {
    RunInv(Init(b), events, s);
  }

  // ----- The condition that excludes it -----

  // The key a step writes in the bucket, if any.
  predicate Writes(e: Event, key: string) {
    match e
    case Upload(_, k, _, _) => k == key
    case RemoveOne(_, k) => k == key
    case BulkRemove(_, k) => k == key
    case _ => false
  }

  // No stat of the key is between its read and its fill.
  predicate NoStatOf(s: State, key: string) {
    forall t :: t in s.threads ==>
      match s.threads[t]
      case Probing(k, _) => k != key
      case Filling(k, _, _) => k != key
      case _ => true
  }

  // Every write of the key happens while no stat of it is under way.
  ghost predicate WritesApart(s: State, events: seq<Event>, key: string)
    decreases |events|
  {
    events != [] && Enabled(s, events[0]) ==>
      (Writes(events[0], key) ==> NoStatOf(s, key)) && WritesApart(Do(s, events[0]), events[1..], key)
  }

  predicate FreshReader(s: State, th: Thread, key: string) {
    match th
    case Probing(k, readAt) => k == key ==> UnchangedSince(s, key, readAt)
    case Filling(k, _, readAt) => k == key ==> UnchangedSince(s, key, readAt)
    case _ => true
  }

  ghost predicate Fresh(s: State, key: string) {
    && (forall t :: t in s.threads ==> FreshReader(s, s.threads[t], key))
    && (key in s.cache && key in s.settled ==> UnchangedSince(s, key, s.cache[key].readAt))
  }

  lemma StepFreshReaders(s: State, e: Event, key: string, t: Tid)
    requires Inv(s) && Fresh(s, key) && Enabled(s, e) && (Writes(e, key) ==> NoStatOf(s, key))
    requires t in Do(s, e).threads
    ensures FreshReader(Do(s, e), Do(s, e).threads[t], key)
  {
    assert key in s.lastChange ==> Owed(s, key);
    if t in s.threads && Do(s, e).threads[t] == s.threads[t] {
      assert FreshReader(s, s.threads[t], key);
    } else {
      assert t in s.threads ==> FreshReader(s, s.threads[t], key);
    }
  }

  lemma StepFresh(s: State, e: Event, key: string)
    requires Inv(s) && Fresh(s, key) && Enabled(s, e) && (Writes(e, key) ==> NoStatOf(s, key))
    ensures Fresh(Do(s, e), key)
  {
    var s' := Do(s, e);
    forall t | t in s'.threads
      ensures FreshReader(s', s'.threads[t], key)
    {
      StepFreshReaders(s, e, key, t);
    }
    assert e.Fill? ==> FreshReader(s, s.threads[e.t], key);
  }

  lemma {:induction false} RunFresh(s: State, events: seq<Event>, s': State, key: string)
    requires Inv(s) && Fresh(s, key) && Runs(s, events, s') && WritesApart(s, events, key)
    ensures Inv(s') && Fresh(s', key)
    decreases |events|
  {
    if events != [] {
      StepInv(s, events[0]);
      StepFresh(s, events[0], key);
      RunFresh(Do(s, events[0]), events[1..], s', key);
    }
  }

  // If no stat of the key spans a write of it, a cached entry agrees with the
  // bucket whenever no change of the key awaits its invalidation.
  lemma {:induction false} CoherentWhenApart(b: Bucket, events: seq<Event>, s: State, key: string)
    requires Runs(Init(b), events, s) && WritesApart(Init(b), events, key)
    requires key in s.cache && !ChangePending(s, key)
    ensures Matches(s.bucket, key, s.cache[key].info)
  {
    RunFresh(Init(b), events, s, key);
  }

  // ----- When an entry is right from now on -----

  predicate EntryRight(s: State, key: string) {
    key in s.cache ==> Matches(s.bucket, key, s.cache[key].info)
  }

  predicate ReaderRight(s: State, th: Thread, key: string) {
    match th
    case Probing(k, _) => k == key ==> key !in s.bucket
    case Filling(k, info, _) => k == key ==> Matches(s.bucket, key, info)
    case _ => true
  }

  // The entry of key, and what stats of it have read so far, agree with the bucket.
  ghost predicate RightNow(s: State, key: string) {
    EntryRight(s, key) && forall t :: t in s.threads ==> ReaderRight(s, s.threads[t], key)
  }

  predicate NotWritten(events: seq<Event>, key: string) {
    forall i :: 0 <= i < |events| ==> !Writes(events[i], key)
  }

  // Whatever follows, until the key is written again its entry agrees with the bucket.
  ghost predicate StaysRight(s: State, key: string) {
    forall events, s' :: Runs(s, events, s') && NotWritten(events, key) ==> EntryRight(s', key)
  }

  // A step that does not write key leaves its object as it is.
  lemma ObjectKept(s: State, e: Event, key: string)
    requires Enabled(s, e) && !Writes(e, key)
    ensures key in Do(s, e).bucket <==> key in s.bucket
    ensures key in s.bucket ==> Do(s, e).bucket[key] == s.bucket[key]
  {
  }

  lemma RightStep(s: State, e: Event, key: string)
    requires RightNow(s, key) && Enabled(s, e) && !Writes(e, key)
    ensures RightNow(Do(s, e), key)
  {
    var s' := Do(s, e);
    ObjectKept(s, e, key);
    if e.Fill? {
      assert ReaderRight(s, s.threads[e.t], key);
    }
    forall t | t in s'.threads
      ensures ReaderRight(s', s'.threads[t], key)
    {
      ReaderStep(s, e, key, t);
    }
  }

  lemma ReaderStep(s: State, e: Event, key: string, t: Tid)
    requires RightNow(s, key) && Enabled(s, e) && !Writes(e, key) && t in Do(s, e).threads
    ensures ReaderRight(Do(s, e), Do(s, e).threads[t], key)
  {
    ObjectKept(s, e, key);
    assert t in s.threads ==> ReaderRight(s, s.threads[t], key);
  }

  lemma {:induction false} RightRun(s: State, events: seq<Event>, s': State, key: string)
    requires RightNow(s, key) && Runs(s, events, s') && NotWritten(events, key)
    ensures RightNow(s', key)
    decreases |events|
  {
    if events != [] {
      RightStep(s, events[0], key);
      RightRun(Do(s, events[0]), events[1..], s', key);
    }
  }

  // Until a key is written again its entry agrees with the bucket exactly when it
  // does now, no stat is about to fill in what the bucket does not hold, and none
  // has missed an object that is there and may go on to find a directory.
  lemma StaysRightIff(s: State, key: string)
    ensures StaysRight(s, key) <==> RightNow(s, key)
  {
    if RightNow(s, key) {
      forall events, s' | Runs(s, events, s') && NotWritten(events, key)
        ensures EntryRight(s', key)
      {
        RightRun(s, events, s', key);
      }
    } else {
      NotRightForLong(s, key);
    }
  }

  lemma NotRightForLong(s: State, key: string)
    requires !RightNow(s, key)
    ensures !StaysRight(s, key)
  {
    if !EntryRight(s, key) {
      assert Runs(s, [], s);
    } else {
      var t :| t in s.threads && !ReaderRight(s, s.threads[t], key);
      if s.threads[t].Filling? {
        var s' := Do(s, Fill(t));
        assert [Fill(t)][1..] == [] && Runs(s', [], s');
        assert Runs(s, [Fill(t)], s') && !EntryRight(s', key);
      } else {
        MissGoesOn(s, key, t, Above(s.threads.Keys));
      }
    }
  }

  // An object appears below key, the directory probe finds it, and the stat that
  // has missed the object at key fills in a directory.
  lemma MissGoesOn(s: State, key: string, t: Tid, u: Tid)
    requires t in s.threads && s.threads[t].Probing? && s.threads[t].key == key && key in s.bucket && u !in s.threads
    ensures !StaysRight(s, key)
  {
    var up := Upload(u, key + "/x", s.bucket[key], true);
    var s1 := Do(s, up);
    assert key + "/" <= key + "/x" && key + "/x" in s1.bucket;
    var s2 := Do(s1, DirProbe(t, true));
    var s3 := Do(s2, Fill(t));
    Runs3(s, up, s1, DirProbe(t, true), s2, Fill(t), s3);
    assert key + "/x" != key;
    assert NotWritten([up, DirProbe(t, true), Fill(t)], key) && !EntryRight(s3, key);
  }

  // The failing case is reached from the start, for every key and any two
  // versions: all calls have returned and the cache still holds the old version.
  lemma {:induction false} LateFillStaysStale(key: string, first: Object, second: Object)
    requires InfoOf(first) != InfoOf(second)
    ensures var events := [Upload(0, key, first, true), Invalidate(0), StatRead(1, key),
                           Upload(2, key, second, true), Invalidate(2), Fill(1)];
      Runs(Init(map[]), events, State(6, map[key := second], map[key := Entry(InfoOf(first), 2, 5)],
                                      map[], map[key := Change(3, 2)], map[key := 4]))
  {
    var events := [Upload(0, key, first, true), Invalidate(0), StatRead(1, key),
                   Upload(2, key, second, true), Invalidate(2), Fill(1)];
    var s3 := State(3, map[key := first], map[], map[1 := Filling(key, InfoOf(first), 2)],
                    map[key := Change(0, 0)], map[key := 1]);
    var s6 := State(6, map[key := second], map[key := Entry(InfoOf(first), 2, 5)],
                    map[], map[key := Change(3, 2)], map[key := 4]);
    LateFillBegins(key, first);
    LateFillEnds(key, first, second);
    assert events == [Upload(0, key, first, true), Invalidate(0), StatRead(1, key)]
                     + [Upload(2, key, second, true), Invalidate(2), Fill(1)];
    RunsCompose(Init(map[]), [Upload(0, key, first, true), Invalidate(0), StatRead(1, key)], s3,
                [Upload(2, key, second, true), Invalidate(2), Fill(1)], s6);
  }

  lemma {:induction false} RunsCompose(s: State, a: seq<Event>, m: State, b: seq<Event>, s': State)
    requires Runs(s, a, m) && Runs(m, b, s')
    ensures Runs(s, a + b, s')
    decreases |a|
  {
    if a == [] {
      assert a + b == b;
    } else {
      assert (a + b)[1..] == a[1..] + b;
      RunsCompose(Do(s, a[0]), a[1..], m, b, s');
    }
  }

  lemma Runs3(s0: State, e0: Event, s1: State, e1: Event, s2: State, e2: Event, s3: State)
    requires Enabled(s0, e0) && Do(s0, e0) == s1
    requires Enabled(s1, e1) && Do(s1, e1) == s2
    requires Enabled(s2, e2) && Do(s2, e2) == s3
    ensures Runs(s0, [e0, e1, e2], s3)
  {
    assert [e0, e1, e2][1..] == [e1, e2] && [e1, e2][1..] == [e2] && [e2][1..] == [];
    assert Runs(s2, [e2], s3);
    assert Runs(s1, [e1, e2], s3);
  }

  lemma LateFillBegins(key: string, first: Object)
    ensures Runs(Init(map[]), [Upload(0, key, first, true), Invalidate(0), StatRead(1, key)],
                 State(3, map[key := first], map[], map[1 := Filling(key, InfoOf(first), 2)],
                       map[key := Change(0, 0)], map[key := 1]))
  {
    var b: Bucket := map[key := first];
    assert key in b && b != map[];
    var s0 := Init(map[]);
    var s1 := State(1, b, map[], map[0 := Invalidating(key)], map[key := Change(0, 0)], map[]);
    var s2 := State(2, b, map[], map[], map[key := Change(0, 0)], map[key := 1]);
    var s3 := State(3, b, map[], map[1 := Filling(key, InfoOf(first), 2)], map[key := Change(0, 0)], map[key := 1]);
    assert Do(s0, Upload(0, key, first, true)) == s1;
    assert Do(s1, Invalidate(0)) == s2 by {
      assert OwnChanges(s1, 0, {key}) == {key};
    }
    assert Do(s2, StatRead(1, key)) == s3;
    Runs3(s0, Upload(0, key, first, true), s1, Invalidate(0), s2, StatRead(1, key), s3);
  }

  lemma LateFillEnds(key: string, first: Object, second: Object)
    requires InfoOf(first) != InfoOf(second)
    ensures Runs(State(3, map[key := first], map[], map[1 := Filling(key, InfoOf(first), 2)],
                       map[key := Change(0, 0)], map[key := 1]),
                 [Upload(2, key, second, true), Invalidate(2), Fill(1)],
                 State(6, map[key := second], map[key := Entry(InfoOf(first), 2, 5)],
                       map[], map[key := Change(3, 2)], map[key := 4]))
  {
    var f := Filling(key, InfoOf(first), 2);
    var b: Bucket := map[key := second];
    assert b[key] == second;
    var s3 := State(3, map[key := first], map[], map[1 := f], map[key := Change(0, 0)], map[key := 1]);
    assert s3.bucket[key] == first && s3.bucket[key := second] == b && b != s3.bucket;
    var s4 := State(4, b, map[], map[1 := f, 2 := Invalidating(key)], map[key := Change(3, 2)], map[]);
    var s5 := State(5, b, map[], map[1 := f], map[key := Change(3, 2)], map[key := 4]);
    var s6 := State(6, b, map[key := Entry(InfoOf(first), 2, 5)], map[], map[key := Change(3, 2)], map[key := 4]);
    assert Do(s3, Upload(2, key, second, true)) == s4;
    assert Do(s4, Invalidate(2)) == s5 by {
      assert OwnChanges(s4, 2, {key}) == {key};
      assert s4.threads - {2} == map[1 := f];
    }
    assert Do(s5, Fill(1)) == s6;
    Runs3(s3, Upload(2, key, second, true), s4, Invalidate(2), s5, Fill(1), s6);
  }
}
