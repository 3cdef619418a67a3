# apt-proxy: a verified model

apt-proxy is a caching proxy for Linux package mirrors. This project models its
stateful parts in Dafny and proves what they keep: over every call, every run of
a sequential object, and every interleaving of a concurrent one.
`dafny verify dfyconfig.toml` checks the whole project.

| file | models |
|---|---|
| `Options.dfy`, `Ids.dfy`, `Strings.dfy`, `Paths.dfy` | shared values, fresh ids and string functions; object keys: `path.Clean` on rooted paths as a stack of segments, the prefix, the mapping of paths to keys and back |
| `Listing.dfy` | a flat bucket, the S3 prefix/delimiter listing, and the directory operations over it |
| `S3Vfs.dfy` | the file system object with its metadata cache, and the write handle that spills to a temporary file and uploads on `Close` |
| `FileTree.dfy` | the file system as its callers think of it, a map from segment sequences to objects, refined by every run |
| `StatCacheRace.dfy` | the same cache when stats, uploads and removals interleave step by step |
| `Benchmark.dfy` | `GetTheFastestMirror`: workers, semaphore, closer, collector and drainer |
| `SingleFlight.dfy` | the benchmark result cache behind its singleflight slots |
| `RateLimit.dfy` | the per-client limiter with its sweep |
| `Reload.dfy` | the SIGHUP reload loop |
| `Registry.dfy`, `Mirrors.dfy` | the distribution registry and its two maps; what a mirror's URL says about it |
| `RegistryReload.dfy` | what the registry holds and reports after a reload, told from the built-ins and the file |
| `ReloadRace.dfy` | reloads of the registry that run at the same time, one locked step after another |
| `HostPatterns.dfy` | the ordered pattern list built from the registry, and routing |
| `PatternCacheRace.dfy` | the cached pattern list when requests and reloads interleave step by step |
| `Rewriters.dfy` | the rewriter slots with refreshes and late callbacks |
| `Retry.dfy` | the retrying transport |
| `EnvExpand.dfy` | `${NAME}` and `${NAME:-default}` expansion |
| `ByteCount.dfy` | the scaling loop of the byte formatters |

Code that updates an object is a class whose methods are tied to functions of the
old state; theorems about runs are lemmas on those functions. Goroutines are
state machines whose events are the atomic steps of the source (a channel
operation, a locked section, one call to the bucket). Clocks, probe outcomes,
network and disk failures, S3 answers and map iteration orders are inputs that
may be anything.

## Where the code and its description differ

The model follows the code.

- The limiter is described as a sliding one-minute window (`README.md:733`). It
  is a fixed window. The exact bounds for one client are 2 * limit - 1 requests
  in a half-open minute and 2 * limit in a closed one, both attained; it is a
  sliding window exactly when the limit is 1.
- `removeAll` is said to surface errors (`internal/storage/s3vfs/s3vfs.go:415-417`),
  but it drops listing errors. A reported success means that the tree is gone
  exactly when the listing did not break off or there was nothing to remove.
- Pattern matching is said to be deterministic
  (`internal/proxy/handler.go:63-65`). It is for the five known modes; beyond
  them exactly when the matching distributions would give the same rule.
- Bursts of SIGHUPs are described as debounced (`internal/cli/daemon.go:510-514`);
  of the signals taken before the first reload starts, one causes one reload and
  two or more cause exactly two.
- `GetTheFastestMirrorWithCache` is said to use the cache if available and to
  benchmark otherwise (`internal/benchmarks/benchmark.go:349-352`). A caller that begins while a
  flight is about to give up the slot with an error, or with a mirror the cache no
  longer validly holds, can receive a mirror that was at no step of its call valid
  in the cache or being probed, or the error of a probe that ended before it began.
  It cannot in any other case.
- `Registry.Reload` is said to be safe to call at startup and on reload
  (`internal/distro/registry.go:317`). Two calls at the same time can make
  `RegisterBuiltins` panic: they do in some interleaving exactly when the file has
  an entry, with valid patterns, that takes the type of a built-in or its id but
  not both.
- `invalidateHostPatterns` is said to make the next request rebuild the list
  (`internal/proxy/handler.go:316-317`). A request that built its list before a
  reload and stores it after the invalidation brings the old list back until the
  next refresh. An invalidation works exactly when no request then holds a list
  that the registry contradicts.
- `Stat` is said to treat synthetic directories as valid targets
  (`internal/storage/s3vfs/s3vfs.go:278-281`). Under a name with a trailing slash
  no directory is ever found, since the probe then looks for a double slash.
- `Open` is said to ensure that the object exists
  (`internal/storage/s3vfs/s3vfs.go:221-223`). It also gives out a handle for a name
  without an object, exactly when a directory of that name is found.
- A cached directory entry outlives the directory
  (`internal/storage/s3vfs/s3vfs.go:404-412`).

## Model

| member | source | states |
|---|---|---|
| Paths.KeyUnderPrefix | internal/storage/s3vfs/path.go:33-46 | every key starts with the prefix, and what follows splits into segments that are never empty, "." or "..", bar one empty one after a trailing slash |
| Paths.KeyRoundTrip | internal/storage/s3vfs/path.go:37-52 | a key mapped back to a path maps to the same key again |
| Paths.KeySharing | internal/storage/s3vfs/path.go:37-46 | two paths share a key if and only if they clean to the same path and, unless that is the root, agree on a trailing slash |
| Paths.KeyOfChild | internal/storage/s3vfs/path.go:37-63 | the key of a child is the listing prefix of its directory followed by its name |
| Paths.SegmentsDots | internal/storage/s3vfs/path.go:37-46 | cleaning ignores leading and further slashes and single dots, and two dots take the last segment away, if there is one |
| Paths.NormalizePrefixTrims | internal/storage/s3vfs/path.go:25-31 | a normalized prefix without its slash is the configured one without the slashes around it and the white space around those, all of them |
| Paths.NormalizePrefixShape | internal/storage/s3vfs/path.go:22-31 | a normalized prefix is empty, or has no leading slash and exactly one trailing slash |
| Paths.NormalizePrefixTwice | internal/storage/s3vfs/path.go:25-31 | normalizing a configured prefix again changes nothing if and only if no white space stands behind its leading slashes |
| Paths.NormalizePrefixNotIdempotent | internal/storage/s3vfs/path.go:25-31 | a prefix for which normalizing twice differs |
| Listing.BaseNameOf | internal/storage/s3vfs/path.go:65-73 | the base name of a listed key is the child's name, with or without the trailing slash that marks a common prefix |
| Listing.BelowDir | internal/storage/s3vfs/path.go:54-63 | the listing prefix of a directory is a prefix of the keys of exactly the files strictly below it |
| Listing.FileKeyInjective | internal/storage/s3vfs/path.go:37-46 | files named by different segment sequences never share a key |
| Listing.ReadDirNames | internal/storage/s3vfs/s3vfs.go:349-384 | on a well-kept bucket a complete ReadDir names a file for exactly the objects directly below p, and a directory for exactly the subtrees below p that hold an object |
| Listing.ReadDirFaithful | internal/storage/s3vfs/s3vfs.go:349-384 | no name is listed twice in one role, and file entries carry the size and time of their object |
| Listing.ReadFailsIff | internal/storage/s3vfs/s3vfs.go:362-367 | ReadDir fails if and only if the listing breaks off |
| Listing.TreePrefixIsDirPrefix | internal/storage/s3vfs/s3vfs.go:400-402 | the prefix Remove hands to removeAll is the listing prefix of the directory |
| Listing.RemoveTreeExact | internal/storage/s3vfs/s3vfs.go:390-448 | a removal of p/ with a complete listing that reports success deletes exactly the objects strictly below p and touches no other object |
| Listing.SuccessMeansGoneIff | internal/storage/s3vfs/s3vfs.go:415-448 | over all listings that break off, or all that do not, and all refusals: a removal of a prefix that reports success leaves nothing under it, if and only if the listing does not break off or nothing was there |
| Listing.RemoveTrustedIff | internal/storage/s3vfs/s3vfs.go:394-448 | for Remove on a path of a well-kept bucket: if and only if the listing does not break off or no file lies strictly below the path |
| S3Vfs.RunCoherent | internal/storage/s3vfs/s3vfs.go:294-329 | over every run with any evictions, expiries and failures, cached object entries describe the bucket and cached directories hide no object |
| S3Vfs.CachedRefinesUncached | internal/storage/s3vfs/s3vfs.go:278-329 | after every run Stat reports an object if and only if the file system without a cache does, and the same one, unless S3 leaves the call unanswered |
| S3Vfs.StatReportsBucket | internal/storage/s3vfs/s3vfs.go:278-329 | Stat reports n bytes at a path if and only if the bucket holds n bytes at the path's key |
| S3Vfs.RunWellKept | internal/storage/s3vfs/s3vfs.go:235-267 | writers opened through OpenFile, removals and failures keep the bucket well kept |
| S3Vfs.ReadDirAfterRun | internal/storage/s3vfs/s3vfs.go:349-384 | after any run on an empty bucket ReadDir is exact |
| S3Vfs.AnswerTrueWithinTTL | internal/storage/s3vfs/s3vfs.go:80-83 | whatever Stat reports below the root, object or directory, is true of the bucket now or was when an earlier lookup saw it, less than the TTL ago if one is set |
| S3Vfs.StatExactIff | internal/storage/s3vfs/s3vfs.go:282-329 | after any run from an empty cache, whatever the TTL and the evictions, Stat with S3 answering says what a file system without a cache says if and only if it does not find an honoured directory entry with no object left below it |
| S3Vfs.RepeatedStatNeedsNoNetwork | internal/storage/s3vfs/s3vfs.go:297-303 | what a lookup has found is answered again without S3 exactly as long as no TTL is set or the entry is younger than it, and after that S3 is asked |
| S3Vfs.UncachedAnswer | internal/storage/s3vfs/s3vfs.go:305-345 | a lookup the cache does not answer is an error exactly if S3 fails at the object, and a directory exactly if there is no object and a listing that S3 answers finds one below; a failing listing means that there is none |
| S3Vfs.OpenExactIff | internal/storage/s3vfs/s3vfs.go:214-233 | after any run from an empty cache Open refuses exactly empty keys and keys ending in a slash, finds an object exactly when the bucket holds one at the key, of that size and time, and otherwise says what a file system without a cache says, exactly unless it finds a stale directory entry |
| S3Vfs.OpenedObjectIff | internal/storage/s3vfs/s3vfs.go:221-227 | Open succeeds without an object exactly when objects lie below the name or a stale directory entry is found |
| S3Vfs.DirectoryGoesStale | internal/storage/s3vfs/s3vfs.go:404-412 | the failing case of StatExactIff: a directory entry cached by Stat survives the removal of the directory's only object, for any directory and child name |
| S3Vfs.S3VFS.constructor | internal/storage/s3vfs/s3vfs.go:153-183 | a new file system has an empty cache, a normalized prefix and the default threshold for a non-positive one |
| S3Vfs.S3VFS.StatKey | internal/storage/s3vfs/s3vfs.go:297-329 | answer and cache after a lookup, with expiry, the object probe and the directory probe |
| S3Vfs.S3VFS.Stat | internal/storage/s3vfs/s3vfs.go:282-289 | the root is a directory without a lookup; other paths go through their key |
| S3Vfs.S3VFS.Open | internal/storage/s3vfs/s3vfs.go:214-233 | empty and directory keys are invalid; otherwise the object or directory must be known |
| S3Vfs.S3VFS.OpenFile | internal/storage/s3vfs/s3vfs.go:239-267 | a fresh writer exactly for a write flag and a file key; read-only opens answer as Open |
| S3Vfs.S3VFS.ReadDir | internal/storage/s3vfs/s3vfs.go:352-384 | the loop returns what the channel's items determine, and fails on any error among them |
| S3Vfs.S3VFS.Remove | internal/storage/s3vfs/s3vfs.go:394-413 | bucket, cache and result after a removal of a key or a tree; a refused single removal changes nothing |
| S3Vfs.S3VFS.RemoveAll | internal/storage/s3vfs/s3vfs.go:418-448 | listed keys go except the refused ones, the cache is emptied, an error is returned if and only if one was refused |
| S3Vfs.S3VFS.InvalidateMeta | internal/storage/s3vfs/s3vfs.go:453-455 | the path's key leaves the cache |
| S3Vfs.HandleRunSafe | internal/storage/s3vfs/file.go:99-183 | over every sequence of writes and closes with any disk failures: the content is the accepted bytes in order, at most one upload happens, of exactly those bytes and only after a close, and memory never exceeds the threshold |
| S3Vfs.AllBytesUploaded | internal/storage/s3vfs/file.go:99-183 | with a working disk the upload is everything that was written, in order, however often it spills over the threshold |
| S3Vfs.SpillsOnce | internal/storage/s3vfs/file.go:99-183 | over every sequence of writes and closes content that has spilled stays in the file, no accepted byte and no upload is taken back, and a closed handle no longer changes |
| S3Vfs.SpillsOnlyOver | internal/storage/s3vfs/file.go:99-121 | content has spilled only if a write would have taken it over the threshold |
| S3Vfs.WriteMeaning | internal/storage/s3vfs/file.go:99-142 | a write adds as many bytes as it reports: all, what the file took, or none if the spill failed; within the threshold it stays in memory and takes all |
| S3Vfs.UploadIff | internal/storage/s3vfs/file.go:149-183 | the first close uploads what had been accepted by then, unless it lies in a file that cannot be rewound, and no later operation adds or removes an upload |
| S3Vfs.WriteFile.Write | internal/storage/s3vfs/file.go:99-121 | the new handle and the reported count, for a closed, inline, spilling or spilled handle |
| S3Vfs.WriteFile.Spill | internal/storage/s3vfs/file.go:126-142 | the buffer moves to the temporary file as a whole or not at all, and a failed spill leaves no file behind |
| S3Vfs.WriteFile.Close | internal/storage/s3vfs/file.go:149-183 | the first close uploads the content once and invalidates the path's cache entry whatever happens; later closes do nothing; no temporary file is left |
| S3Vfs.WriteFile.Seek | internal/storage/s3vfs/file.go:89-97 | only a seek to the current offset is accepted |
| FileTree.RunRefines | internal/storage/s3vfs/s3vfs.go:235-448 | every run, with any evictions, failures and broken listings, is a run of a map from segment sequences to objects in which an upload sets one file, a removal of a name takes one away, a removal of a tree takes away only files strictly below it, all of them if it succeeds on a complete listing, and nothing else changes |
| FileTree.RemoveFileExact | internal/storage/s3vfs/s3vfs.go:394-413 | a removal of a name is invalid exactly for the empty key and fails exactly if S3 refuses the key, changing nothing; otherwise object and cache entry are gone |
| FileTree.RemoveTreeMeaning | internal/storage/s3vfs/s3vfs.go:394-448 | a removal of a tree fails only if S3 refuses an object below it, and exactly then if the listing is complete; then exactly the refused objects below it stay, and the cache is emptied |
| FileTree.StatIsTreeStat | internal/storage/s3vfs/s3vfs.go:282-345 | on a well-kept bucket Stat without a cache reports the file of that map, or a directory if and only if a file lies below, and nothing under a name with a trailing slash |
| FileTree.StatAfterRun | internal/storage/s3vfs/s3vfs.go:282-345 | after any run from an empty bucket the cached Stat answers as that map does, if and only if it finds no cached directory that is gone |
| StatCacheRace.StoreAlone | internal/storage/s3vfs/file.go:149-183 | an upload and its invalidation with nothing between do what StoreSpec does in one step |
| StatCacheRace.RemoveAlone | internal/storage/s3vfs/s3vfs.go:404-412 | the same of a single removal and RemoveSpec |
| StatCacheRace.StatAlone | internal/storage/s3vfs/s3vfs.go:297-329 | the same of a stat of an uncached key and StatKeySpec |
| StatCacheRace.StaleOnlyByLateFill | internal/storage/s3vfs/s3vfs.go:297-329 | in every interleaving, a cached entry that contradicts the bucket while no change of its key awaits invalidation was read before the key's last change and filled in after that change's own invalidation |
| StatCacheRace.StaysRightIff | internal/storage/s3vfs/s3vfs.go:297-329 | from any state, in every continuation that does not write a key its cached entry agrees with the bucket, if and only if it does now, no stat is about to fill in what the bucket does not hold, and none has missed an object that is there |
| StatCacheRace.CoherentWhenApart | internal/storage/s3vfs/s3vfs.go:404-455 | if no stat of a key spans a write of it, its cached entry agrees with the bucket whenever no change of it awaits invalidation |
| StatCacheRace.LateFillStaysStale | internal/storage/s3vfs/file.go:149-183 | for any key and two versions, a run after which every call has returned and the cache holds the old version |
| Benchmark.NothingBlocks | internal/benchmarks/benchmark.go:264-301 | in every interleaving at most eight probes run at once, a waiting worker can begin exactly while fewer than eight hold the semaphore, and no send, release or Done blocks or meets a closed channel |
| Benchmark.EveryoneFinishes | internal/benchmarks/benchmark.go:259-342 | every run has at most 6n + 9 steps, and when none is left workers, closer, collector and drainer have all finished |
| Benchmark.AnswerIsFastest | internal/benchmarks/benchmark.go:303-341 | a returned URL is that of a gathered result of least duration, and every gathered result carries the URL of an input mirror and the duration of a probe event of that mirror's worker; the context is cancelled by then |
| Benchmark.GatheredFirst | internal/benchmarks/benchmark.go:288-317 | what is gathered is what workers sent first, in the order of their sends, each with its mirror's URL and the duration of that mirror's probe event |
| Benchmark.GatheredExactly | internal/benchmarks/benchmark.go:303-341 | over a finished run min(3, number of mirrors, number of results sent) results are gathered, and an error is returned if and only if no probe event reports success |
| Benchmark.EnoughCancels | internal/benchmarks/benchmark.go:303-314 | once min(3, number of mirrors) results are gathered the context is cancelled, every waiting worker can give up, and nothing more is gathered |
| SingleFlight.KeyInjective | internal/benchmarks/benchmark.go:386-388 | different distribution types never share a slot |
| SingleFlight.ProbesAreGuarded | internal/benchmarks/benchmark.go:353-378 | in every interleaving probes of one type never overlap, none starts while a valid result is cached, and the cache holds only what successful probes of that type found, for a day |
| SingleFlight.ResultsAccounted | internal/benchmarks/benchmark.go:353-449 | every caller receives a value cached and valid during its call, or the outcome of a flight of its type that was under way after the call began, itself valid in the cache during that flight or probed within it |
| SingleFlight.ResultsWereProbed | internal/benchmarks/benchmark.go:353-449 | every result a caller is given, cached or not, is the outcome of a probe event of a flight of its type |
| SingleFlight.HitIsServed | internal/benchmarks/benchmark.go:353-358 | a call that finds a valid result cached returns it at once and joins no flight, and only then |
| SingleFlight.GoodIff | internal/benchmarks/benchmark.go:353-449 | a call is certain, in every continuation, of a value validly cached at a step after it began or of the outcome of a probe that ended after it began, if and only if at its beginning no flight of its type is about to give up the slot with an error or with a mirror the cache does not validly hold |
| SingleFlight.NeverValidDuringCall | internal/benchmarks/benchmark.go:353-378 | from the start, for any type and any mirror or an error, a run in which a caller receives it although it was at no step of its call validly cached or being probed |
| SingleFlight.BenchmarkCache.GetCachedResult | internal/benchmarks/benchmark.go:51-68 | a result is found if and only if one is cached and has not expired |
| SingleFlight.BenchmarkCache.SetCachedResult | internal/benchmarks/benchmark.go:71-80 | the type's entry is replaced, stamped with the current time, and no other |
| SingleFlight.BenchmarkCache.ClearCache | internal/benchmarks/benchmark.go:83-87 | the cache is empty |
| RateLimit.SweepInvisible | internal/api/ratelimit.go:104-129 | on every ordered request sequence the limiter with its shared map and sweep answers as the key's own window would |
| RateLimit.AtMostTwiceTheLimit | internal/api/ratelimit.go:104-129 | any half-open minute sees at most 2 * limit - 1 allowed requests of a key, any closed one at most 2 * limit |
| RateLimit.AllowedIff | internal/api/ratelimit.go:104-129 | a request is allowed if and only if fewer than limit earlier ones of its key came since the window it falls into was opened, a window being opened by the first request and then by the first one a minute or more after the last opening |
| RateLimit.SweptExactly | internal/api/ratelimit.go:114-121 | a sweep takes away exactly the buckets that began more than two minutes ago |
| RateLimit.HalfOpenBoundAttained | internal/api/ratelimit.go:104-129 | for every limit a run with 2 * limit - 1 in a half-open minute |
| RateLimit.ClosedBoundAttained | internal/api/ratelimit.go:104-129 | for every limit a run with 2 * limit in a closed minute |
| RateLimit.WindowWithinLimit | internal/api/ratelimit.go:109-127 | each window allows at most the limit |
| RateLimit.SlidesIffLimitIsOne | internal/api/ratelimit.go:104-129 | the limiter is the documented sliding window if and only if the limit is 1 |
| RateLimit.RateLimitMiddleware.Serve | internal/api/ratelimit.go:78-97 | a limit of zero or less lets everything through |
| RateLimit.RateLimitMiddleware.Allow | internal/api/ratelimit.go:104-129 | new buckets and answer; whatever outlives a sweep began within the last two minutes |
| RateLimit.RateLimitMiddleware.Sweep | internal/api/ratelimit.go:114-121 | in any iteration order exactly the buckets older than two minutes go |
| Reload.ReloadSafety | internal/cli/daemon.go:515-553 | in every run at most one reload is scheduled or under way, Stop has cancelled no live timer, the send on reloadDone does not block, and reloads do not outnumber the signals taken |
| Reload.ServedUnderLoad | internal/cli/daemon.go:515-553 | however many signals keep arriving, after any signal at most four steps that are not arrivals or notings of further signals pass before a reload starts, and until then such a step can always be taken |
| Reload.QuietRunsEnd | internal/cli/daemon.go:522-553 | without new signals at most 13 steps remain, in any order |
| Reload.IdleIsClean | internal/cli/daemon.go:515-553 | at rest nothing is in flight, pending or unserved |
| Reload.EverySignalServed | internal/cli/daemon.go:484-553 | in every run that comes to rest each SIGHUP, even one dropped by a full channel, is followed by a reload that starts after it |
| Reload.BurstReloads | internal/cli/daemon.go:515-549 | in every run that comes to rest and takes no signal after the first reload starts, the number of reloads is the number of signals taken but at most two |
| Reload.ReloadLoop.ScheduleReload | internal/cli/daemon.go:522-535 | the loop's variables after scheduling, including any timer Stop would cancel |
| Reload.ReloadLoop.OnReloadDone | internal/cli/daemon.go:544-549 | the loop's variables after a completed reload |
| Registry.AlwaysInverse | internal/distro/registry.go:69-182 | after any sequence of registrations, removals, clears, loads and reloads, interleaved or not, the two maps are inverse to each other |
| Registry.TypeResolves | internal/distro/registry.go:69-97 | after any such sequence a type maps to an id if and only if it is non-zero and the id is registered with it |
| Registry.RegisterMeaning | internal/distro/registry.go:69-97 | after any such sequence a registration succeeds if and only if no other id has the type and the id has no other type, and each refusal has its reason |
| Registry.RegisterEffect | internal/distro/registry.go:69-97 | after a registration the id, new or not, maps to the distribution and its non-zero type to the id, and all else is as before; a refused one changes nothing |
| Registry.UnregisterUndoes | internal/distro/registry.go:158-173 | unregistering undoes the registration of a new id |
| Registry.ReloadKeepsBuiltins | internal/distro/registry.go:318-343 | whatever the file holds the maps stay inverse and the five built-in types resolve to their ids; a load error changes nothing |
| RegistryReload.ReloadRegisters | internal/distro/registry.go:248-343 | an entry that can be loaded and shares id and type with built-ins and other entries only together is registered after the reload, field by field, if no later entry has its id; so new distributions are added and repeated ones replaced |
| RegistryReload.ReloadOnly | internal/distro/registry.go:318-343 | after a reload every distribution is a built-in as it is or what a loadable entry of its id says, and no built-in id is missing |
| RegistryReload.ReloadBuiltinsOnly | internal/distro/registry.go:328-330 | without a file exactly the built-ins are registered |
| RegistryReload.FailuresExact | internal/distro/registry.go:332-341 | the reported ids are those of the entries that at their turn could not be loaded or had their id or type claimed by the registry, in order and each as often |
| Mirrors.AliasOfHost | internal/distro/distro.go:98-104 | a mirror's alias is the last label of its host name in front of the top-level domain, whatever scheme and path the URL has |
| Registry.BuiltinsPanicIff | internal/distro/registry.go:190-245 | RegisterBuiltins succeeds if and only if no built-in's type or id is claimed otherwise |
| ReloadRace.NeverPanicsIff | internal/distro/registry.go:190-343 | however many reloads run at the same time, however the file changes between them and however their locked steps interleave, registering a built-in never fails, if and only if no entry of any version of the file that could be registered has the type or the id of a built-in without having both |
| ReloadRace.InTurnNeverPanics | internal/distro/registry.go:318-343 | reloads that take turns never panic, whatever the file holds each time, and each leaves what one Reload leaves |
| Registry.Registry.Register | internal/distro/registry.go:69-97 | both maps and the error after a registration |
| Registry.Registry.Unregister | internal/distro/registry.go:158-173 | both maps and the error after a removal |
| Registry.Registry.Clear | internal/distro/registry.go:176-182 | both maps are empty |
| Registry.Registry.GetByType | internal/distro/registry.go:109-120 | finds the distribution registered with the type, if and only if there is one |
| Registry.Registry.RegisterBuiltins | internal/distro/registry.go:190-245 | registers in order up to the first failure, which is a panic |
| Registry.Registry.LoadFromConfig | internal/distro/registry.go:248-290 | nothing changes unless every pattern compiles; then the distribution built from the entry, with its rules and its mirrors with scheme and alias, is registered |
| Registry.Registry.Reload | internal/distro/registry.go:318-343 | the tables are the built-ins with the entries registered in turn; the result is an error and no change if loading fails, otherwise the ids of the entries that failed, none without a file |
| HostPatterns.HostPatternsFromRegistry | internal/proxy/handler.go:66-92 | in any map order the list is the known modes in order, then every other eligible distribution once |
| HostPatterns.OrdersAgree | internal/proxy/handler.go:66-92 | any two such lists have each eligible distribution exactly once and the same prefix of known modes |
| HostPatterns.ListedIff | internal/proxy/handler.go:66-92 | exactly the distributions with a pattern and at least one rule are listed, with that pattern and those rules |
| HostPatterns.OrderByKind | internal/proxy/handler.go:73-91 | Ubuntu, Ubuntu ports, Debian, CentOS and Alpine come in this order and before all others |
| HostPatterns.LeastKindWins | internal/proxy/handler.go:325-349 | a request gets its rule from the matching known mode of least type |
| HostPatterns.KnownRouteDeterministic | internal/proxy/handler.go:325-349 | a request matching a known mode's pattern gets the same rule whatever the map orders were |
| HostPatterns.RouteDeterministicIff | internal/proxy/handler.go:325-349 | the rule is independent of the map orders if and only if a known pattern matches or all other matching distributions give the same rule |
| HostPatterns.MatchingRule | internal/proxy/rewriter.go:362-369 | the first rule whose pattern matches, and none if and only if none matches |
| HostPatterns.HandleExternalURLs | internal/proxy/handler.go:325-349 | the rule of the first matching entry, and no other entry is tried |
| HostPatterns.PackageStruct.HostPatterns | internal/proxy/handler.go:304-314 | a non-empty cached list is reused; otherwise the registry's list is cached, or the defaults are used uncached |
| HostPatterns.PackageStruct.InvalidateHostPatterns | internal/proxy/handler.go:318-320 | the cached list is dropped |
| PatternCacheRace.StaleOnlyByLateStore | internal/proxy/handler.go:304-320 | in every interleaving, a cached list that contradicts the registry while no change of it awaits invalidation was built before the last change and stored after the last invalidation |
| PatternCacheRace.StaysRightIff | internal/proxy/handler.go:304-320 | from any state, a cached list agrees with the registry in every continuation until the registry changes again, if and only if the list cached now agrees and so does every list a request has built and not yet stored |
| PatternCacheRace.InvalidationWorksIff | internal/proxy/handler.go:316-320 | after an invalidation no wrong list is cached until the next change, if and only if no request holds a wrong one |
| PatternCacheRace.CorrectWhenApart | internal/proxy/handler.go:304-320 | if no request holds a built list when the cache is invalidated, the cached list agrees with the registry whenever no change awaits invalidation |
| PatternCacheRace.LateStoreStays | internal/proxy/handler.go:304-320 | for any two registries, a reload from one to the other after which all requests are at rest and the old list is in use, and stays so until the next invalidation |
| Rewriters.SlotsFollowHistory | internal/proxy/rewriter.go:232-258 | in every interleaving a slot is nil until its first creation or commit; then its pattern is that of the latest one and its mirror that of the latest event |
| Rewriters.OtherSlotsUntouched | internal/proxy/rewriter.go:119-131 | slots outside the configured modes never change |
| Rewriters.LateCallbackKeepsPattern | internal/proxy/rewriter.go:244-255 | a callback arriving after a refresh replaces its mirror and keeps its pattern |
| Rewriters.ConfiguredIs | internal/proxy/rewriter.go:119-131 | mode 0 fills all five slots, the mode of a slot that one, any other mode none |
| Rewriters.URLRewriters.Assign | internal/proxy/rewriter.go:291-299 | a created rewriter takes its mode's slot, if there is one |
| Rewriters.URLRewriters.CommitRefresh | internal/proxy/rewriter.go:401-412 | exactly the configured slots take their new rewriters |
| Rewriters.URLRewriters.OnBenchmark | internal/proxy/rewriter.go:232-258 | a fresh rewriter with the old pattern takes the slot; published ones are not written to, and a nil slot stays nil |
| Rewriters.URLRewriters.Snapshot | internal/proxy/rewriter.go:332-341 | a request sees mirror and pattern of one published rewriter |
| Retry.RoundTrip | internal/proxy/transport.go:78-163 | between 1 and MaxRetries + 1 attempts, one if the body cannot be replayed; each attempt after the first was asked for and sends a fresh body when there is GetBody; each response is returned open or closed exactly once; the code after the loop is reached if and only if retries are negative |
| Retry.RoundTripDetermined | internal/proxy/transport.go:78-163 | number of attempts and outcome are determined by what upstream, context and GetBody do |
| Retry.RoundTripMeaning | internal/proxy/transport.go:78-163 | every attempt but the last got a reply the options retry while retries were left; the last one's response or error is handed out if the request cannot be sent again, its reply is not retried or retries have run out, and otherwise the wait was cancelled or GetBody failed |
| EnvExpand.MatchPrefixExact | internal/config/loader_yaml.go:123-127 | a string starts with a reference if and only if the matcher says so, and with at most one |
| EnvExpand.ScanSplits | internal/config/loader_yaml.go:133-134 | every source splits into references and other characters, and the pieces concatenate back to it |
| EnvExpand.SplitUnique | internal/config/loader_yaml.go:133-134 | there is only one such split |
| EnvExpand.ExpandIsPiecewise | internal/config/loader_yaml.go:129-151 | expansion evaluates the pieces once each: a set variable, even an empty one, beats the default, and an unset reference without default stays |
| EnvExpand.ExpandCases | internal/config/loader_yaml.go:129-151 | a reference becomes its variable's value, even an empty one, if it is set, else its default, even an empty one, else it stays |
| EnvExpand.ReplacementIsValue | internal/config/loader_yaml.go:134-150 | the replacement function's length test detects a default exactly |
| EnvExpand.ExpandUnset | internal/config/loader_yaml.go:129-151 | with no referenced variable set and no default present expansion is the identity |
| EnvExpand.ExpandTwice | internal/config/loader_yaml.go:129-151 | a second expansion changes nothing if the source has no dollar sign outside its references and every reference stays as it is or gets a value without one |
| EnvExpand.StableIff | internal/config/loader_yaml.go:129-151 | a second expansion changes nothing in every environment if and only if the source has no reference |
| EnvExpand.ExpandNotIdempotent | internal/config/loader_yaml.go:129-151 | expanding twice differs from expanding once when a variable's value is a reference to another one that is set |
| ByteCount.Scale | internal/system/filesize.go:54-58 | without overflow the loop ends with div the largest power of the unit not above b, div <= b < div * unit, and an exponent of at most 5 |
| ByteCount.ScalesUnique | internal/system/filesize.go:54-58 | no other divisor and exponent satisfy that |
| ByteCount.ByteCountDecimal | internal/system/filesize.go:49-60 | plain bytes below 1000; otherwise mantissa times divisor is the amount, the mantissa is in [1, 1000) and the suffix is the divisor's |
| ByteCount.ByteCountBinary | internal/system/filesize.go:65-76 | the same with 1024 |

## Left out

- HTTP handlers, routing set-up, health checks, tracing, logging, templates and static assets: plumbing without state worth an invariant.
- The minio client, the LRU, singleflight, http-kit and httpcache-kit: each appears as a small contract (a listing, a map whose entries may vanish, one slot per key, arbitrary retry predicates); their own code is not part of this model.
- Go's `regexp` and `url.Parse`: URL and rule patterns are abstract predicates; only the `${...}` pattern has a concrete matcher.
- Rewriting of request paths and queries, mirror tables and geo lookup: data-driven string handling.
- Config flags, merging, defaults and validation, API keys, client addresses, error codes, `AppState`: field by field and easy.
- The probe itself (`Benchmark`, `singleBenchmark`): its duration and failure are arbitrary.
- Shutdown of the reload loop: runs are considered before the select takes it.
- The loader's file search and validation: what it makes of the file is an input.
- Error values: an error is reduced to the branch it takes.
- FileInfo names: a cached entry keeps the name of the path that was first looked up; the model carries kind, size and modification time.
- Byte counts of a write handle are unbounded integers; the source's int64 cannot overflow before 2^63 bytes have been written.
- ByteCount.ByteCountDecimal: the mantissa is an exact real; the source prints it rounded to one digit, which can show 1000.0.
- ByteCount.ByteCountBinary: the mantissa is an exact real; the source prints it rounded to two digits, which can show 1024.00.
- EnvExpand.ExpandTwice: the condition is sufficient for one environment and not necessary, since what is put together can be stable by coincidence; over all environments StableIff is exact.
- Registry values returned by GetAll are copies in the source; sharing of the returned structs is not modelled.
- A single removal that takes effect on S3 although the call fails would leave its cached entry behind; failed single removals change nothing here, failed uploads may.
- HostPatterns.PackageStruct.HostPatterns: load, build and store are one step here; PatternCacheRace separates them.
- Benchmark.EveryoneFinishes: takes it that every probe returns, with a result or an error.
