# Verification of the live event path

A Dafny model of the live event path of Media Scan Monitor, with proofs about it: the recursive
inotify watcher and its gate, routing, the debouncer, the dispatcher and the engine that rebuilds the
configuration underneath them, the event bus and its stream, the login throttle, and the stored
configuration from which the snapshot is built. `dafny verify dfyconfig.toml` checks all of it.

The program runs on one event loop, so every stretch between two awaits is one atomic step. Objects that
the program updates in place are classes whose methods are proved against functions on values; the
protocols are state machines over those functions, and the theorems are about all their runs.

## What is proved

**Watcher** (`DirTree`, `Watcher`, `Rescans`, `Spaced`, `RootChanges`, `WatchRuns`, `Draining`, `AttachRace`,
`OrderlyRuns`, `LosingRuns`, `FileRuns`, `Routable`). Directories are lists of segments, each with a number for the occasion on which it
was created, so that a kernel watch belongs to one directory and an entry of the bookkeeping can go stale. The
world has a tree, a kernel queue with a single overflow mark, kernel watches and the backend's bookkeeping; its
steps are directories that appear or vanish (seen, or lost in an overflow), file events, the backend taking one
event, and `set_roots`.

- `CleanExactly`: over every run, draining the queue leaves the whole tree below the attached roots watched in
  every state, if and only if every appearance and every change of roots met its guard. The guard is read off the
  bookkeeping, the queue and the roots before the step. A reported appearance is lost only if the bookkeeping
  holds an entry that nothing queued will drop; an unreported one needs a queued walk behind every queued
  deletion and no such entry; a change of roots must not put below an added root a directory with a stale entry,
  nor drop what a retained root still covers.
- Completeness is thus false in general, and not only after overflows: `RemakeLosesDirectory` is a run with no
  overflow, no change of roots and no lost event that ends with an empty queue and an unwatched directory. Two
  more runs lose one through a second overflow behind one mark, in a queue of any capacity of at least two, and
  through a root removed under a queued creation. `OrderlyRunsAreGuarded` gives a simpler sufficient condition, on the order of the queue alone.
- `WalkYieldsEntriesOnce`: a walk yields every directory below its root and every file at or below it as created,
  nothing else, and nothing twice.
- `NoFileIsMissed`: in every state of a guarded run, a file that appeared below an attached root and was not
  yielded since has its event queued or lies below a queued walk; with nothing queued all were yielded.
- `Contained`: nothing outside the roots is watched or about to be walked if and only if every change of roots
  leaves nothing queued or kept outside the new roots; a drained queue is enough.
- The incremental `set_roots` equals a fresh start if and only if every overlap of a removed and a retained
  root lies below an added one and, when the root `/` is dropped, every directory right below it is a root
  itself; so any sequence of prefix-free root sets without `/` loses nothing. Dropping the root `/` alone leaves
  every watch but its own behind (`RootDirectoryStays`).
- The backend knows a path under what `normalize_path` makes of it, its key, and the methods are proved with
  keys. `KeyMoves`: the key is where the name, stripped at its end, leads from the parent directory, so a path is
  its own key unless it ends in whitespace. `FreshSetRootsExact`: a fresh `set_roots` watches exactly the
  directories below the roots, if and only if each of them with whitespace at the end of its name has a child
  named by whitespace or a dot and whitespace, or a grandchild named by two dots and whitespace, and no key
  leads out of the roots. So a directory `/a ` is not watched, unless it has, say, a directory named by one space
  in it (`SpacedDirectory`); and its deletion forgets the watches of `/a` (`SpacedDeletion`). Where every path is
  its own key, the methods have the effects that the runs are about.
- The gate counts at least what is watched, and exactly that if and only if the existing roots are not
  ignored and not nested.

**Paths and routing** (`Paths`, `Normalize`, `Extensions`, `Router`, `Requests`, `Coalescing`). The stack algorithm of `normpath` keeps
what a path resolves to from every working directory (section 4.13 of IEEE Std 1003.1-2017, without symbolic
links), and two texts with the same leading slashes have the same output exactly if they resolve alike. Prefix test, ignore rule and
scan path are equivalent to their readings on segments, and an event yields exactly the requests that say, field
by field, what the routes it concerns ask for (`RoutedExact`), one each and in order. Coalescing by key loses no scan target if and only
if no two routes of one server that files can match, with different libraries, have equal roots or a parent and
its child as roots, and no missing library id meets the literal id `None`; deeper nesting is harmless.

**Debouncer** (`Debounce`, `DebounceRuns`, `Trailing`). Timers are woken, cancelled, or woken although they
were cancelled; the identity guard carries the safety proof. Every trailing request of every run is armed,
or ended once, for one of four causes, and is dispatched exactly if it fired. With timers served on time,
each key's log is the collapse of its bursts, whatever the other keys do.

**Engine** (`EngineRuns`, `EngineAnswers`, `Clients`, `EngineSafety`, `EngineRaces`, `Provenance`, `Pipeline`,
`Engine`). `start`, `rebuild`,
event handling, timers and `aclose` interleave freely at their await points, and only there: adapters that can be
constructed are built without a pause, and a configuration without watch paths passes the gate without one.

- `EngineFollowsAnswers`: in every run the engine's state, roots and configuration are those of a small ledger of
  the gate's answers and the configurations read: it runs, on the watch paths asked about, exactly if the latest
  answer was yes.
- Roots, state and configuration agree from the moment `start` has passed the gate, across every sequence of
  rebuilds. `start` itself does not hold the rebuild lock and uses the configuration it read before waiting
  for the gate: `EnterIsCoherent` says exactly when that leaves the engine in agreement. For any two
  configurations with different watch paths, of which the first has some, `StaleStart` is a run that ends with
  the roots of the one that was already replaced; a change of one folder's path gives two such configurations
  (`StaleStartFromWrites`). A first configuration without watch paths always starts in agreement
  (`EmptyStartIsCoherent`).
- Every HTTP client ever built is held at exactly one place at every point of a run, if and only if no swap, nor
  the wiring of `start`, replaces clients under the closing loop of `aclose`; a swap there closes a client twice
  (`SwapUnderLoopClosesTwice`). After a close with no rebuild in flight each client was closed once, if and only
  if no rebuild raised in its gate check with clients in its build; such clients stay open for good
  (`RaisingRebuildLeaks`). Both runs exist for any configuration that has a server and a watch path.
- From event to trigger nothing is lost: what routing gives is submitted to the debouncer, once and in order
  (`RoutedAreSubmitted`); the debouncer inside the engine makes a run of its own, so its laws hold across rebuilds
  (`DebouncerRuns`); each dispatch triggers the adapter that its server has then (`TriggersAreAnswers`); and a
  trailing request is triggered exactly if its timer fired while its server had an adapter, once
  (`TrailingTriggeredOnce`).
- No trigger begins for a server that the latest swap dropped, and every trigger begins on the current
  adapter and an open client, for a request that routing gave under the configuration then in force.

**Bus, stream and throttle** (`EventsBus`, `EventStream`, `RateLimiter`). Bounded structures agree with an
unbounded history; a client of the stream is sent all that its subscription delivers. A caller that records only what was allowed makes at most `max_attempts` records in any
half-open window; a closed one can hold one more.

**Stored configuration** (`Schemas`, `Repo`, `Snapshot`, `Writes`). After any sequence of writes the rows are
without orphans and duplicates, names are unique, every row says what was last supplied for it, and every write is
refused exactly for what was supplied before. The snapshot has one route for each folder last supplied as enabled,
of a server last supplied as enabled, with exactly what was last supplied for the two (`RoutesAreAsSupplied`).

## Model

| member | source | states |
|---|---|---|
| DirTree.PruningIsFiltering | mediascanmonitor/watcher/inotify_backend.py:115-121 | pruning names during the walk visits exactly what filtering the full walk by ignored segments keeps, under a root that is not ignored |
| DirTree.WalkStep | mediascanmonitor/watcher/inotify_backend.py:115-117 | one turn of the pruned top-down walk keeps every directory to visit either visited or below exactly one pending directory |
| DirTree.CountDirs | mediascanmonitor/watcher/watch_limit.py:21-34 | the nested loops count each existing root and every directory below it that pruning keeps |
| DirTree.CountCoversWatches | mediascanmonitor/watcher/watch_limit.py:21-34 | the count is at least the number of watches of a fresh watcher, and equals it if and only if the existing roots are not ignored and not nested |
| DirTree.CheckWatchLimit | mediascanmonitor/watcher/watch_limit.py:46-66 | the status reports count, rounded-up need and recommendation, and whether the limit suffices |
| DirTree.GateSound | mediascanmonitor/watcher/watch_limit.py:56-66 | a gate that says yes has room for every watch of a fresh watcher |
| DirTree.RecommendedLasts | mediascanmonitor/watcher/watch_limit.py:57-65 | at the recommended limit the gate still passes for any tree grown to the need; the gate passes iff the limit is at least the unrounded product |
| DirTree.StatusIsLeast | mediascanmonitor/watcher/watch_limit.py:56-66 | the reported need and recommendation are the least numbers not below the product, and the rest is reported as it is |
| Watcher.InotifyBackend.AddWatch | mediascanmonitor/watcher/inotify_backend.py:82-92 | a path gets a kernel watch and an entry unless it has an entry already |
| Watcher.InotifyBackend.RemoveWatchTree | mediascanmonitor/watcher/inotify_backend.py:94-105 | the loop over text prefixes forgets exactly the watches at or below the path |
| Watcher.DoomedText | mediascanmonitor/watcher/inotify_backend.py:95-96 | the textual test for removal is the segment prefix test, except for the root directory |
| Watcher.InotifyBackend.WalkAddWatches | mediascanmonitor/watcher/inotify_backend.py:107-127 | the walk watches the key of every kept directory at or below the root and reports each entry below it once |
| Rescans.WalkYieldsExactly | mediascanmonitor/watcher/inotify_backend.py:115-127 | on any tree a walk yields exactly a created event for the key of each directory it enters but its root, and of each file in one |
| Rescans.WalkYieldsEntriesOnce | mediascanmonitor/watcher/inotify_backend.py:115-127 | where every path is its own key that is every directory below the root and every file at or below it, ignored directories aside, each once |
| Rescans.ResyncYieldsExactly | mediascanmonitor/watcher/inotify_backend.py:161-170 | a resync yields exactly what the walks of its roots find |
| Watcher.TidyExactly | mediascanmonitor/watcher/inotify_backend.py:118-121 | a path is its own key, so that the walk watches it as itself, if and only if its text does not end in whitespace |
| Watcher.WatchedByKey | mediascanmonitor/watcher/inotify_backend.py:115-121 | a walk gives a directory an entry if and only if some visited path has it as its key |
| Spaced.KeyMoves | mediascanmonitor/normalize.py:15-25 | the key of a path is where its name, stripped at its end, leads from its parent: to a sibling, the parent itself, or one level up |
| Spaced.WatchedByName | mediascanmonitor/watcher/inotify_backend.py:115-121 | with any roots, a fresh set_roots watches a directory below them if and only if its name does not end in whitespace or a directory below it has it as its key, which is told from two names |
| Spaced.FreshSetRootsExact | mediascanmonitor/watcher/inotify_backend.py:107-139 | on any tree and for any roots, a fresh set_roots watches exactly the directories at or below them if and only if each one named with whitespace at its end has such a directory below it and no key leads out |
| Spaced.SpacedDirectory | mediascanmonitor/watcher/inotify_backend.py:118-121 | a sole directory whose name ends in whitespace is not watched, and with a directory named by whitespace in it, it is |
| Spaced.SpacedDeletion | mediascanmonitor/watcher/inotify_backend.py:191-194 | a directory's deletion forgets what is at or below the place its stripped name leads to |
| Watcher.InotifyBackend.SetRoots | mediascanmonitor/watcher/inotify_backend.py:130-139 | roots are taken under their keys; removed ones are forgotten, added ones that exist are walked, and the roots are replaced |
| Watcher.TidyTreeSetRoots | mediascanmonitor/watcher/inotify_backend.py:130-139 | where every path is its own key this is the change of roots that the runs are about |
| Watcher.InotifyBackend.ResyncRoots | mediascanmonitor/watcher/inotify_backend.py:161-170 | an overflow walks every root again and reports everything below each |
| Watcher.InotifyBackend.HandleEvent | mediascanmonitor/watcher/inotify_backend.py:161-197 | each event branch changes the watches as specified for the key of its path and yields the event, followed by the rescan for a new directory |
| Watcher.TidyTreeHandled | mediascanmonitor/watcher/inotify_backend.py:161-197 | where every path is its own key an event has the effect that the runs are about |
| RootChanges.SetRootsExact | mediascanmonitor/watcher/inotify_backend.py:130-139 | an update leaves exactly the watches of a fresh start if and only if every overlap of removed and retained roots is covered by an added root and, when the root directory is removed, every directory right below it that is not ignored is an old or new root |
| RootChanges.IncrementalIsFromScratch | mediascanmonitor/watcher/inotify_backend.py:130-139 | any sequence of updates whose earlier sets are prefix-free and settle the root directory, as those without it do, ends in the backend a fresh start with the last set builds |
| RootChanges.RootDirectoryStays | mediascanmonitor/watcher/inotify_backend.py:94-96 | dropping the root directory forgets one watch and leaves all others |
| Routable.RoutableIsWatched | mediascanmonitor/pipeline/router.py:31-50 | an existing entry strictly below the root of a route that matches it is routed to a request, and its directory is in the watch set |
| Routable.WatchedIsRoutable | mediascanmonitor/watcher/inotify_backend.py:115-121 | every watched directory lies at or below a watch path with no ignored segment |
| Draining.DrainExact | mediascanmonitor/watcher/inotify_backend.py:161-195 | draining the queue leaves a directory watched if and only if bookkeeping and queue destine it to be |
| Draining.ResyncsAreOneOverflow | mediascanmonitor/watcher/inotify_backend.py:167-169 | walking the roots one by one with pauses between has, on a tree that stands still, the effect of one resync |
| AttachRace.StepExact | mediascanmonitor/watcher/inotify_backend.py:82-195 | from a state that drains clean, a step of tree, kernel or backend leads to one if and only if it meets its guard |
| AttachRace.CleanExactly | mediascanmonitor/watcher/inotify_backend.py:107-197 | in every run, draining would leave the whole tree below the attached roots watched in every state if and only if every appearance and every change of roots met its guard |
| AttachRace.Complete | mediascanmonitor/watcher/inotify_backend.py:182-195 | in every state of a guarded run a directory is watched, or a walk that finds it is queued, or a queued walk is behind its last queued deletion; draining leaves it watched |
| AttachRace.ReportedAppearance | mediascanmonitor/watcher/inotify_backend.py:182-190 | a reported appearance keeps the state clean if and only if no new directory has an entry that nothing queued will drop |
| AttachRace.Contained | mediascanmonitor/watcher/inotify_backend.py:107-139 | nothing outside the roots and nothing ignored is watched or about to be walked if and only if every change of roots leaves nothing queued or kept outside the new roots |
| AttachRace.DrainedIsConfined | mediascanmonitor/watcher/inotify_backend.py:130-139 | with a drained queue every change of roots that does not remove the root directory does so |
| OrderlyRuns.StepInv | mediascanmonitor/watcher/inotify_backend.py:107-197 | under the simpler condition on the order of the queue every step keeps an invariant of tree, queue, kernel watches and bookkeeping |
| OrderlyRuns.OrderlyRunsAreGuarded | mediascanmonitor/watcher/inotify_backend.py:107-197 | a run under that condition meets every guard |
| LosingRuns.SecondOverflowLosesDirectory | mediascanmonitor/watcher/inotify_backend.py:161-170 | for any capacity of at least two and any file events that fill the queue, a run in which a directory made, removed and made again behind one overflow mark ends unwatched with an empty queue |
| LosingRuns.RemovedRootLosesDirectory | mediascanmonitor/watcher/inotify_backend.py:83-84 | a run in which a root removed under a queued creation leaves a stale entry that hides a directory |
| LosingRuns.RemakeLosesDirectory | mediascanmonitor/watcher/inotify_backend.py:182-195 | a run with no overflow, no change of roots and no lost event that ends with an unwatched directory and an empty queue |
| FileRuns.StepMissesNone | mediascanmonitor/watcher/inotify_backend.py:107-197 | a step that meets its guard keeps every file that appeared below an attached root and was not yielded since awaited in the queue |
| FileRuns.NoFileIsMissed | mediascanmonitor/watcher/inotify_backend.py:107-127 | in every state of a guarded run such a file has its event queued or lies below a queued walk, and with nothing queued there is none |
| FileRuns.MissedWhenUnwatched | mediascanmonitor/watcher/inotify_backend.py:182-190 | with nothing queued a new file is awaited if and only if its directory has a kernel watch |
| FileRuns.TakingReportsFiles | mediascanmonitor/watcher/inotify_backend.py:172-197 | what taking an event yields contains every file that the runs count as reported by it |
| Normalize.NormPathKeepsMeaning | mediascanmonitor/normalize.py:15-25 | the stack algorithm keeps what a path resolves to from every working directory |
| Normalize.NormPathCanonical | mediascanmonitor/normalize.py:15-25 | two texts have the same output if and only if they have the same leading slashes and resolve alike from everywhere |
| Normalize.NormPathIdempotent | mediascanmonitor/normalize.py:15-25 | the algorithm does nothing to its own output |
| Normalize.NormalizePathFixedPoint | mediascanmonitor/normalize.py:25 | normalizing twice is normalizing once if and only if the output has no surrounding whitespace |
| Normalize.StripOf | mediascanmonitor/normalize.py:25 | stripping leaves what no whitespace surrounds, whatever whitespace is put around it |
| Normalize.NormalizeAbsolute | mediascanmonitor/normalize.py:15-25 | a text with one leading slash becomes a slash-separated list of proper segments |
| Normalize.NormalizeExtensionFixedPoint | mediascanmonitor/normalize.py:10-12 | an extension is a fixed point of normalization if and only if it does not start with a dot |
| Extensions.NormalizeExtensionMeaning | mediascanmonitor/normalize.py:10-12 | whitespace, dots, whitespace, an extension and whitespace normalize to the extension, each character lowercased |
| Extensions.EveryExtensionTyped | mediascanmonitor/normalize.py:10-12 | every text is of that form |
| Router.ExtensionMatchesMeaning | mediascanmonitor/pipeline/filters.py:11-25 | a file matches a nonempty set if and only if its name is a nonempty base, a dot and an extension that lowercases into the set |
| Router.IsIgnoredSegments | mediascanmonitor/pipeline/filters.py:1-8 | a path is ignored if and only if one of its segments is |
| Router.IsPathPrefixSegments | mediascanmonitor/pipeline/router.py:23-28 | the string test holds if and only if the segment list is a prefix, root directory included |
| Router.ComputeScanPathSegments | mediascanmonitor/pipeline/router.py:7-20 | the scan path is the root and the first segment below it when the file is at least two levels below, and the root otherwise |
| Router.ScanPathBetween | mediascanmonitor/pipeline/router.py:7-20 | the scan path is a normalized path between root and file |
| Router.ScanPathShared | mediascanmonitor/pipeline/router.py:7-20 | two files at least two levels below a root have the same scan path if and only if they share the first segment |
| Router.Route | mediascanmonitor/pipeline/router.py:31-73 | the loop returns one request for each matching route, in order, and none for an ignored path |
| Router.RequestsForExact | mediascanmonitor/pipeline/router.py:43-72 | a request comes out if and only if some matching route causes it |
| Requests.RoutedExact | mediascanmonitor/pipeline/router.py:31-73 | a request comes out if and only if no segment is ignored and some route concerns the event and the request says its fields: file, event type, server, library, scan path, key and top folder |
| Requests.OneEachInOrder | mediascanmonitor/pipeline/router.py:43-73 | there is one request for each matching route, in the order of the routes |
| Coalescing.CoalescingExact | mediascanmonitor/pipeline/debounce.py:42-46 | requests of one key always have one target if and only if no two routes of a server that files can match clash |
| Coalescing.MatchedIsLive | mediascanmonitor/pipeline/router.py:40-50 | a route that gives a request has a root that is not ignored, a subscribed event type and a listed extension that some name gives |
| Coalescing.LibraryKeysCollide | mediascanmonitor/pipeline/router.py:56-58 | two library keys are equal if and only if the ids are, or one is missing and the other is the text None |
| Debounce.Debouncer.Submit | mediascanmonitor/pipeline/debounce.py:35-46 | an off or unknown server dispatches at once; a trailing one cancels the pending timer and arms a new one |
| Debounce.Debouncer.UpdateServers | mediascanmonitor/pipeline/debounce.py:48-60 | the loop cancels and drops exactly the timers of servers that are gone and keeps the others |
| Debounce.Debouncer.FireAfter | mediascanmonitor/pipeline/debounce.py:62-72 | an awake timer dispatches only if it is still the one in the table |
| Debounce.Debouncer.Aclose | mediascanmonitor/pipeline/debounce.py:74-81 | every armed timer is cancelled and the table is empty |
| Debounce.StepKeepsInv | mediascanmonitor/pipeline/debounce.py:35-81 | every armed timer is asleep, of its key, and not cancelled, after every step |
| DebounceRuns.TasksAreTrailings | mediascanmonitor/pipeline/debounce.py:41-46 | each trailing submission creates one timer with its own request and deadline |
| DebounceRuns.Conservation | mediascanmonitor/pipeline/debounce.py:35-81 | each trailing request is armed or ended exactly once, for one cause, and is dispatched exactly if it fired, once, as submitted and not early |
| DebounceRuns.ImmediateConservation | mediascanmonitor/pipeline/debounce.py:36-39 | requests that do not trail are dispatched at once, each once and in order |
| DebounceRuns.ArmedIsLatest | mediascanmonitor/pipeline/debounce.py:43-46 | what is armed for a key is its latest trailing request |
| DebounceRuns.DispatchRunsToItsEnd | mediascanmonitor/pipeline/debounce.py:71-72 | a dispatch that has begun is never cancelled by a later step |
| DebounceRuns.SupersededByLater | mediascanmonitor/pipeline/debounce.py:40-46 | a trailing request is superseded only by a later one with the same server and scan key |
| DebounceRuns.OneArmedPerKey | mediascanmonitor/pipeline/debounce.py:40-46 | no two armed requests have the same server and scan key |
| DebounceRuns.SleepersAreTended | mediascanmonitor/pipeline/debounce.py:41-81 | in every run a sleeping timer is armed if and only if it was not asked to cancel |
| DebounceRuns.PhaseIsTold | mediascanmonitor/pipeline/debounce.py:62-72 | a timer sleeps until it wakes, then dispatches until that is done if it was still armed, and is finished otherwise |
| Trailing.TrailingRefinement | mediascanmonitor/pipeline/debounce.py:35-72 | with timers served on time, what a key has dispatched and has pending is the collapse of its submissions into the last of each burst, one window later |
| Trailing.QuietRunIsCollapse | mediascanmonitor/pipeline/debounce.py:35-72 | after the last deadline the log of a key is the collapse of its submissions |
| Trailing.EagerProgress | mediascanmonitor/pipeline/debounce.py:62-72 | serving timers on time never gets stuck |
| EngineRuns.StepKeepsBuilds | mediascanmonitor/engine.py:216-238 | each adapter of a build under way is bound to its server and to the client made for it |
| EngineRuns.StepKeepsLinked | mediascanmonitor/engine.py:190-196 | adapters, clients, debouncer servers and configuration agree after every step |
| EngineAnswers.EngineFollowsAnswers | mediascanmonitor/engine.py:83-197 | in every run state, roots and configuration are what the latest answer of the gate and the configurations read say: running on the watch paths asked about exactly after a yes; the lock is held from the beginning of a rebuild to its end |
| EngineAnswers.SwapAnswered | mediascanmonitor/engine.py:185-197 | after a yes a swap leaves the engine running on the new watch paths, after a no blocked without roots, with the new adapters, clients and servers |
| EngineAnswers.InstalledAdapters | mediascanmonitor/engine.py:216-238 | what a wiring or a swap installs has an adapter for every server of the configuration but those whose construction failed |
| Clients.StepOwnedExactly | mediascanmonitor/engine.py:120-130 | a step keeps each client at exactly one place if and only if it replaces none under the closing loop |
| Clients.ClientConservation | mediascanmonitor/engine.py:165-238 | at every point of a run each client ever built is in exactly one of being built, current, being closed, closed or lost, if and only if no swap or wiring replaces clients under the closing loop |
| Clients.ClosedLeavesNothingOpen | mediascanmonitor/engine.py:120-130 | after aclose with no rebuild in flight every client was closed once or lost, and none is open if and only if no rebuild raised with a client in its build |
| EngineRaces.RaisingRebuildLeaks | mediascanmonitor/engine.py:183-187 | with any configuration that has a server and a watch path, a run in which a raising gate check leaves a client that is never closed |
| EngineRaces.SwapUnderLoopClosesTwice | mediascanmonitor/engine.py:120-130 | with any configuration that has a server and a watch path, a run in which a swap under the closing loop closes a client twice |
| EngineSafety.EngineCoherence | mediascanmonitor/engine.py:165-214 | after the gate, in every run, running means the roots of the configuration, blocked means no roots, and adapters, clients, debouncer and configuration have the same servers |
| EngineSafety.SwapIsCoherent | mediascanmonitor/engine.py:185-197 | a swap brings roots, state and configuration into agreement whatever they were, installs the new configuration and begins no trigger |
| EngineSafety.EnterIsCoherent | mediascanmonitor/engine.py:97-106 | passing the gate leaves them in agreement if and only if the waiting configuration has the current watch paths, or, refused, the watcher has no roots |
| EngineSafety.UndisturbedStart | mediascanmonitor/engine.py:83-106 | without a swap while start waits for the gate they agree |
| EngineRaces.StaleStart | mediascanmonitor/engine.py:97-106 | for any two configurations with different watch paths, the first of which has some, a run in which a swap during the wait is overwritten with the older roots |
| EngineRaces.StaleStartFromWrites | mediascanmonitor/engine.py:97-106 | the same with the snapshots before and after a change of a folder's path, in the history that creates any enabled server with that folder |
| EngineSafety.EmptyStartIsCoherent | mediascanmonitor/engine.py:140-142 | in every run a start whose configuration has no watch paths enters in agreement, as nothing comes between its wiring and its entry |
| EngineSafety.TriggerIsCurrent | mediascanmonitor/engine.py:240-250 | every trigger begins on the adapter of the latest swap, made from its server's entry and current client |
| EngineSafety.TriggerIsOnOpenClient | mediascanmonitor/engine.py:240-250 | in every run a trigger before aclose closes clients begins on a client that is neither closed nor being closed |
| EngineSafety.NoTriggerOnDroppedServer | mediascanmonitor/engine.py:190-197 | while the configuration lacks a server no trigger for it begins, in any interleaving, until a swap brings it back |
| Provenance.TriggersAreRouted | mediascanmonitor/engine.py:270-290 | every trigger's request was routed from an event taken before, under the configuration then in force |
| Pipeline.RoutedAreSubmitted | mediascanmonitor/engine.py:270-290 | in every run the requests routed are those submitted, once and in order, and then those still waiting |
| Pipeline.DebouncerRuns | mediascanmonitor/engine.py:190-191 | the debouncer inside the engine makes a run of its own, across swaps and the close |
| Pipeline.DispatchTriggers | mediascanmonitor/engine.py:240-250 | a step that begins a dispatch triggers its server's adapter, if there is one, and no other step triggers |
| Pipeline.TriggersAreAnswers | mediascanmonitor/engine.py:240-250 | the triggers of a run are one for each dispatch whose server had an adapter then, in order |
| Pipeline.TrailingTriggeredOnce | mediascanmonitor/pipeline/debounce.py:62-72 | a trailing request is triggered if and only if its timer fired while its server had an adapter: once, on it, as submitted and not early |
| Engine.Dispatcher.Dispatch | mediascanmonitor/pipeline/dispatcher.py:20-44 | a missing adapter or an adapter that raises becomes a failed result, and only a present adapter is triggered |
| Engine.Dispatcher.SetAdapters | mediascanmonitor/pipeline/dispatcher.py:46-48 | the adapters are replaced at once |
| Engine.Engine.BuildAdapters | mediascanmonitor/engine.py:216-238 | the loop ends with a client for each server that works and as many closed as do not, and is a run of the machine |
| Engine.Engine.WireUp | mediascanmonitor/engine.py:92-95 | the starting engine gets clients, dispatcher and debouncer of the same configuration |
| Engine.Engine.EnterLoop | mediascanmonitor/engine.py:99-106 | roots and state follow the gate's answer, and a headless start stops when refused |
| Engine.Engine.SwapIn | mediascanmonitor/engine.py:186-197 | the block without awaits replaces adapters, debouncer servers, configuration, clients, roots and state together |
| Engine.Engine.RetireOld | mediascanmonitor/engine.py:210-212 | every replaced client is closed, each once and nothing else |
| Engine.Engine.SubmitNext | mediascanmonitor/engine.py:240-250 | a submission that dispatches at once triggers through the current dispatcher |
| Engine.Engine.HandleEvent | mediascanmonitor/engine.py:270-290 | the routed requests are submitted in order, as a run of the machine |
| Engine.Engine.Aclose | mediascanmonitor/engine.py:120-130 | timers are dropped and every current client is closed once, as a run of the machine |
| EventsBus.EventsBus.Publish | mediascanmonitor/observ/events_bus.py:44-51 | the ring takes the record within its capacity and every queue takes it, dropping its oldest when full |
| EventsBus.EventsBus.Recent | mediascanmonitor/observ/events_bus.py:53-57 | the last records of the ring, at most the limit |
| EventsBus.EventsBus.Subscribe | mediascanmonitor/observ/events_bus.py:59-61 | a new subscriber starts with an empty queue |
| EventsBus.EventsBus.Receive | mediascanmonitor/observ/events_bus.py:62-64 | the oldest queued record is taken |
| EventsBus.QueueIsHistorySuffix | mediascanmonitor/observ/events_bus.py:44-66 | in every interleaving the ring is the end of the history, each queue an unbroken end of it since registration and at most a hundred long, deliveries are strictly in order, and a record passes a subscriber by only if the one a hundred later was published before it was taken |
| EventsBus.RecentIsHistory | mediascanmonitor/observ/events_bus.py:53-57 | in every run what is read from the ring are the latest records of the history, as many as asked for, kept and there |
| EventsBus.QueuesAreMembers | mediascanmonitor/observ/events_bus.py:59-66 | there is a queue for each subscriber that has come and not gone, and for no other |
| EventStream.StreamNeverRepeats | mediascanmonitor/web/pages.py:80-86 | a client's frames are the whole replay and then records with strictly larger places in the history, in every interleaving |
| EventStream.StreamSendsDelivered | mediascanmonitor/web/pages.py:83-86 | after the replay a client is sent everything its subscription delivers, and once it has gone its queue is gone |
| RateLimiter.LoginRateLimiter.Prune | mediascanmonitor/web/ratelimit.py:27-34 | failures at or before the cutoff are dropped and an empty list is removed |
| RateLimiter.LoginRateLimiter.Allowed | mediascanmonitor/web/ratelimit.py:36-37 | the answer compares the failures inside the window with the limit |
| RateLimiter.LoginRateLimiter.RecordFailure | mediascanmonitor/web/ratelimit.py:39-42 | the failure is added after pruning, the clock being read twice |
| RateLimiter.PruningAgrees | mediascanmonitor/web/ratelimit.py:27-34 | with a monotone clock what counts after pruning is at any later time what counts in the whole history |
| RateLimiter.AnswerAgrees | mediascanmonitor/web/ratelimit.py:36-45 | every answer is that of the whole history and depends on the key's own calls only |
| RateLimiter.NoEmptyEntries | mediascanmonitor/web/ratelimit.py:30-33 | a key of which nothing counts is not kept |
| RateLimiter.StoredAreRecent | mediascanmonitor/web/ratelimit.py:27-42 | after a question or a record nothing of the key is stored but what was inside the window, and the failure just recorded |
| RateLimiter.AtMostMaxAttempts | mediascanmonitor/web/auth.py:244-253 | a caller that records only right after being allowed makes at most the limit of records in any half-open window |
| RateLimiter.ClosedWindowHoldsOneMore | mediascanmonitor/web/ratelimit.py:27-29 | with one attempt allowed, two allowed records exactly one window apart |
| Schemas.EventTypesRoundTrip | mediascanmonitor/db/models.py:51-58 | parsing what was serialized gives the set of the list written |
| Schemas.TypesNamedExact | mediascanmonitor/db/models.py:56-58 | a text parses if and only if each nonempty piece names a type, and a type is read if and only if its name is a piece |
| Schemas.AllTypesText | mediascanmonitor/migrations/versions/0004_server_event_types.py:27 | the text that a migrated row gets is that of all types, and reads as all of them |
| Schemas.NormalizeExtensions | mediascanmonitor/db/schemas.py:122-132 | the loop computes the normalized list without empty and repeated entries |
| Schemas.DedupedExact | mediascanmonitor/db/schemas.py:127-132 | that list has distinct elements, exactly the nonempty ones of its input |
| Schemas.DedupedExtends | mediascanmonitor/db/schemas.py:127-132 | elements stay in the order of their first occurrence |
| Schemas.ValidateFolder | mediascanmonitor/db/schemas.py:107-132 | a folder is accepted if and only if its stripped path is absolute, and is stored normalized |
| Repo.Repo.SetServerFolders | mediascanmonitor/db/repo.py:26-47 | the folders of a server become exactly those submitted, with their file types, and nothing else changes |
| Repo.Repo.CreateServer | mediascanmonitor/db/repo.py:56-80 | a taken name refuses the row; otherwise one row is added whose event types read back as submitted |
| Repo.Repo.CreateServerWithFolders | mediascanmonitor/db/repo.py:96-132 | server and folders are stored together, or nothing is when the name is taken |
| Repo.Repo.UpdateServer | mediascanmonitor/db/repo.py:134-151 | omitted fields stay, a missing row and a taken name change nothing |
| Repo.Repo.UpdateServerWithFolders | mediascanmonitor/db/repo.py:153-178 | fields and folders change together or not at all; a missing server and a name that another has are the only refusals; event types read back |
| Repo.Repo.DeleteServer | mediascanmonitor/db/repo.py:180-186 | the server, its folders and their file types go, and a missing server is no error |
| Repo.Repo.CreateFolder | mediascanmonitor/db/repo.py:189-205 | a folder needs its server and is stored as submitted |
| Repo.Repo.UpdateFolder | mediascanmonitor/db/repo.py:222-251 | omitted fields stay and given extensions replace the file types, normalized |
| Repo.Repo.DeleteFolder | mediascanmonitor/db/repo.py:253-259 | the folder and its file types go |
| Repo.Repo.SetFiletypes | mediascanmonitor/db/repo.py:262-281 | the file types become the normalized, distinct, nonempty extensions of the list |
| Repo.DroppingKeepsIntact | mediascanmonitor/db/repo.py:180-186 | deleting folders with their file types leaves no orphan, no duplicate and no unreadable row |
| Snapshot.BuildRuntimeConfig | mediascanmonitor/config/runtime.py:63-114 | one route for each enabled folder of an enabled server, watch paths that are exactly the route paths, and the enabled servers |
| Snapshot.RouteReadsRow | mediascanmonitor/config/runtime.py:90-107 | a route has its folder's server, library and normalized path, and exactly the extensions that its file types normalize to |
| Snapshot.SnapshotIsWhole | mediascanmonitor/config/runtime.py:70-114 | each enabled folder of an enabled server has one route, each enabled server is there as its row says, and exactly the routes' paths are watched |
| Snapshot.RoutesHaveServers | mediascanmonitor/config/runtime.py:70-107 | every route's server is in the snapshot with the same name and scan mode |
| Snapshot.SnapshotWatchesItsRoutes | mediascanmonitor/config/runtime.py:93-107 | with folder paths of one leading slash the snapshot meets what routing and watching require of it |
| Snapshot.RoutesReadRows | mediascanmonitor/config/runtime.py:105 | a route's event types are those that its server's row reads as |
| Writes.WritesKeepIntact | mediascanmonitor/db/repo.py:26-281 | after any sequence of writes no row is an orphan, no folder has an extension twice, names are unique, and every server and folder is stored as last supplied, event types reading back |
| Writes.WritesAnswered | mediascanmonitor/db/repo.py:56-281 | a write is refused exactly for what was supplied before: a taken name, or something that is not there |
| Writes.RoutesAreAsSupplied | mediascanmonitor/config/runtime.py:63-114 | after any sequence of writes every route has the fields, event types and normalized path and extensions last supplied for its folder and server, both enabled |
| Writes.SnapshotIsAsSupplied | mediascanmonitor/config/runtime.py:63-114 | and every such folder has one route, and the servers are the enabled ones as last supplied |

## Left out

- AttachRace.CleanExactly: a tree walk is atomic and `add_watch` never fails; every path is its own key.
- Coalescing.CoalescingExact: for normal paths and one scan mode per server, which every snapshot of single-slashed folder paths has.
- Trailing.TrailingRefinement: for a fixed server map, with timers served before anything else happens at their deadline; time is counted in ticks.
- Engine.Dispatcher.Dispatch: an adapter's trigger is an outcome given from outside; retries, requests and responses are not modelled.
- LosingRuns.RemakeLosesDirectory: an event queued under a watch that was removed meanwhile is still delivered with its path; RemovedRootLosesDirectory rests on this too.
- Snapshot.BuildRuntimeConfig: servers and folders are read from one state of the tables, where the program reads them in separate sessions (mediascanmonitor/config/runtime.py:70, 90) and a write can come between.
- FileRuns.NoFileIsMissed: only the runs of FileRuns have files; what is below a root when it is added is not to be reported.
- WatchRuns lets the kernel overflow at any time; only the run of SecondOverflowLosesDirectory counts the queue against a capacity.
- A key that names a file gets no watch in the model; the program would watch the file.
- Names of directories are compared as text: symbolic links, inode aliasing and internal renames are modelled as a move out and a move in.
- The directory event is yielded before its subtree is walked; the model keeps the event at the head of the queue until the walk.
- Lowercasing is an arbitrary idempotent function on characters that never yields a dot or whitespace.
- The headroom of the gate is an exact fraction of at least one, not a floating-point number.
- The gate's policy setting is not read: the gate's answer is any answer, except that an empty configuration passes.
- A negative debounce window is not modelled; the program treats it like zero.
- HTTP clients are built and closed without raising, and a rebuild is not cancelled halfway.
- The event record that ends a dispatch is not tied to the bus; the bus takes arbitrary records.
- `RawEventsBus` has the shape of `EventsBus` and is not repeated.
- Row numbers are any unused ones, as the database picks them; secrets and adapter settings are opaque; explicit nulls are refused by the schemas and do not occur.
- Web routes, templates, sessions, the command line, migrations and encryption are not part of this model.
