# Proofs about the Workers SDK repository

Dafny models of the algorithms and protocols of this repository that are easiest to get wrong and
hardest to check by reading, with proofs of what they promise. `dafny verify dfyconfig.toml`
checks all of it.

| file | what it models |
|---|---|
| `shards.dfy` | the balancing of end-to-end test files over shards, with Graham's bounds |
| `tight.dfy` | a family of files for every number of shards on which that bound is reached |
| `sorting.dfy` | stable sorting by a given order |
| `retries.dfy` | the four rounds in which failed test files are repeated |
| `packages.dfy` | which packages a release publishes and what they pin |
| `tiers.dfy` | the memoised depth-first search and the dependency tiers |
| `pool.dfy` | the worker pool that publishes one tier |
| `registry.dfy` | reads of the registry: retries, the filter, the propagation gate |
| `release.dfy` | the release protocol as a state machine, and the invariant that every step keeps |
| `history.dfy` | what holds over any number of aborted and repeated runs |
| `gate.dfy` | which dependencies a release waits for, and which not |
| `once.dfy` | that no version is published twice, and the one way in which a publish is called for a version that is there |
| `publish.dfy` | the loop of one release: its steps are those of the protocol, each backed by an answer of the environment, and its end is decided by these answers |
| `dependants.dfy` | which packages must be deprecated together |
| `args.dfy` | the command line of the deprecation script |
| `writes.dfy` | a general account of scattering items over the places of a store |
| `convert.dfy` | what the config compiler makes of bindings, and how they are read back |
| `rawconfig.dfy` | the passes of the config compiler that fill one shared result object |
| `loader.dfy` | the module hooks that load a config file without caching |
| `pager.dfy` | the pages and the cursor of the long select prompt |
| `wire.dfy` | the Postgres wire format and message loop of the mock server |
| `common.dfy` | optional values, results, sums, concatenations and exact selections from a list, shared by the others |

Code that updates variables or objects is modelled by methods and classes, each proved against a
function of its inputs or of the old state; what is worth knowing about that function is stated by
lemmas. Concurrency (the worker pool, the release) is a state machine over its atomic steps, and
the claims hold for every interleaving.

## Assumptions about the environment

- Release: registry answers that arrive are accurate; versions are never removed or changed; one
  release publishes at a time. A publish that was called may land at any later time, also after it
  failed or its job is gone. `PublishRunner` never rejects, as in `createPublishRunner`.
  `localeCompare` gives a total order. The propagation gate ends because everything is found or
  because the clock reaches the deadline; the bound on the rounds is for `pollSeconds > 0` and a
  clock that each sleep advances by at least its argument.
- Sharding: the jobs of one matrix see files of equal duration in the same order. `ShardsAgree` shows
  that they agree on the shards if and only if they do, `OrderMatters` that a file can otherwise be
  left out by every job.
- Loader: the UUID drawn for a config is not empty, differs from every other UUID drawn, and is
  spelled out by no import statement.
- Objects used as dictionaries: the names that every object inherits are a parameter,
  `inherited`; `__proto__` as a package or variable name is excluded.

## Where the code does not do what one would expect

- Propagation is awaited only for what the same run published. After a run that timed out, the
  next one finds the version listed and publishes its dependants, although it was never found
  resolvable (`UnawaitedPublish`). `AwaitedIffNotListed` gives the exact condition: a dependency
  is awaited if and only if its version was not listed when its tier was filtered.
- A publish can be called for a version that is on the registry (`LateLanding`), but only if an
  earlier run called it too and it landed after this run had read it (`LandedLate`). Whatever was
  there when the run started is not published again (`NeverAgain`), nor is what any run has
  published without an error (`PublishedOnce`).
- An unsafe binding's own `name` field is overwritten by the binding name
  (`packages/config/src/convert.ts:256-260`), although the schema lets it through.
  `ReadsBackIff` gives the exact condition under which an environment can be read back.
- `buildDependantsGraph` throws a `TypeError` for a workspace dependency on an unknown package
  whose name every object inherits, such as `constructor`, because `dep in dependants` is then
  true (`NoGraphExample`). `BuildDependantsGraph` fails exactly then.
- A module outside a config's own graph that asks for no-cache loading, or spells out the
  parameter, brings another UUID into the load (`StrayMarks`; `TwoUuids` is such a workspace). All
  modules loaded with the parameter carry the config's UUID if and only if the import graph below
  the config has no such import (`OneUuidIffNoStray`), which does not depend on the UUIDs that
  would be drawn (`StrayWhateverDrawn`). The comment at `packages/config/src/load.ts:90` says that
  the attribute is set internally only.
- The message loop of the mock server does not end on a message of length -1
  (`StuckOnMinusOne`) and can go round for ever on other negative lengths (`GoesRound`). It never
  ends if and only if it comes back to an offset (`NeverEndsIffRevisits`).
- A refresh of the select prompt that brings no options leaves a cursor that points nowhere
  (`OnRefreshed`), and an option that is too tall as the first one makes the first page empty
  (`OnlyFirstPageEmpty`).

## Model

| member | source | states |
|---|---|---|
| Shards.SortDescSorts | tools/e2e/runIndividualE2EFiles.ts:105-109 | the sort gives a permutation of the files in descending order of duration |
| Shards.SortDescStable | tools/e2e/runIndividualE2EFiles.ts:107-109 | files of equal duration keep their input order, so the assignment is a function of the file list |
| Shards.Lightest | tools/e2e/runIndividualE2EFiles.ts:114-120 | the chosen index has the least total, and is the first one that has |
| Shards.LightestIndex | tools/e2e/runIndividualE2EFiles.ts:114-120 | the inner loop over the running totals finds that first lightest shard |
| Shards.Pack | tools/e2e/runIndividualE2EFiles.ts:110-123 | the nested loops over the shard arrays compute the greedy assignment, although the totals are kept up to date rather than recomputed |
| Shards.SelectTests | tools/e2e/runIndividualE2EFiles.ts:54-126 | all files without sharding settings, an error for a count below 1 or an index out of range, otherwise the shard of the given index; m times three times what that list takes, by the duration table with 30 for files it does not name, is at most 4m-1 times the makespan of any other split of the files |
| Shards.JobsNearOptimal | tools/e2e/runIndividualE2EFiles.ts:54-126 | that bound holds of every job of the matrix, whatever function gives the durations of the table |
| Shards.JobsAreClose | tools/e2e/runIndividualE2EFiles.ts:105-126 | what two jobs take differs by at most the longest of the files |
| Shards.JobsDescend | tools/e2e/runIndividualE2EFiles.ts:107-122 | each job lists its files from the longest to the shortest |
| Shards.GreedyConserves | tools/e2e/runIndividualE2EFiles.ts:110-123 | the shards together hold each file as often as the list does |
| Shards.EachFileInOneShard | tools/e2e/runIndividualE2EFiles.ts:105-126 | jobs that see the files in the same order together run every file, each file in exactly one job |
| Shards.ShardsAgree | tools/e2e/runIndividualE2EFiles.ts:107-123 | two jobs have the same shards if and only if they see the files of each duration in the same order |
| Shards.OrderMatters | tools/e2e/runIndividualE2EFiles.ts:107-126 | two jobs that see two files of equal duration in different orders both run the same one |
| Shards.MakespanIsMax | tools/e2e/runIndividualE2EFiles.ts:111-122 | the makespan is the largest shard total and is reached by a shard |
| Shards.GreedyGap | tools/e2e/runIndividualE2EFiles.ts:113-123 | at every moment two shards differ by at most the longest file assigned so far |
| Shards.ListSchedulingBound | tools/e2e/runIndividualE2EFiles.ts:113-123 | for any order of the files, m times the makespan is at most 2m-1 times that of any other assignment |
| Shards.FewLongFiles | tools/e2e/runIndividualE2EFiles.ts:107-123 | with files in descending order, a file of which three overfill the other assignment goes to a shard that stays within that assignment's makespan |
| Shards.LptBound | tools/e2e/runIndividualE2EFiles.ts:105-123 | "near-optimal balance": for every list, duration function and m, 3m times the makespan is at most 4m-1 times that of any other assignment |
| Tightness.LptTight | tools/e2e/runIndividualE2EFiles.ts:105-123 | the bound cannot be improved: for every m there are 2m + 1 files on which the heaviest shard is exactly 4/3 - 1/(3m) times that of another assignment |
| Sorting.SortBySorts | tools/e2e/runIndividualE2EFiles.ts:107-109 | the sort used here and for packages gives an ordered permutation for any total preorder |
| Retries.RunRound | tools/e2e/runIndividualE2EFiles.ts:151-166 | one round leaves exactly the files that failed in it |
| Retries.RunWithRetries | tools/e2e/runIndividualE2EFiles.ts:141-181 | at most four rounds, each over the failures of the one before; exit code 0 as soon as a round has none; otherwise what is reported are the failures of the last round |
| Retries.FailedInMembers | tools/e2e/runIndividualE2EFiles.ts:151-172 | the failures of a round are listed once each, and are the files that some execution in that round failed |
| Retries.FailedInOrder | tools/e2e/runIndividualE2EFiles.ts:151-166 | they are listed in the order in which they first fail |
| Retries.QueuedIffAlwaysFailed | tools/e2e/runIndividualE2EFiles.ts:143-173 | a file is reported after n rounds if and only if it was run and failed in all of them |
| Retries.PassedNeverRunsAgain | tools/e2e/runIndividualE2EFiles.ts:151-172 | a file that passed is in no later round, for a list without repetitions as a glob gives |
| Retries.EmptyStaysEmpty | tools/e2e/runIndividualE2EFiles.ts:168-172 | stopping at the first round without failures loses nothing |
| Packages.WorkspaceDependencies | tools/deployments/publish-packages.ts:112-123 | exactly the known packages that some runtime field gives a workspace range, each once |
| Packages.FindPublishablePackages | tools/deployments/publish-packages.ts:85-134 | every package found is what the last package.json of its name says that is not private and has a name and a version: version, directory, access (public if none is given) and, sorted and each once, exactly those names of such files that some runtime field gives a workspace range; every such file's name is found; names are unique and in the locale's order |
| Tiers.DepthSearch.DepthOf | tools/deployments/publish-packages.ts:152-182 | terminates; either the cache grows, stays exact and holds the returned depth, or the error is a dependency path that ends in a cycle |
| Tiers.DepthIsLongestChain | tools/deployments/publish-packages.ts:165-181 | a cached depth is the length of the longest chain of dependencies below the package |
| Tiers.DepthsExcludeCycles | tools/deployments/publish-packages.ts:157-164 | a complete table of depths exists only for an acyclic graph |
| Tiers.ComputeTiers | tools/deployments/publish-packages.ts:145-201 | throws exactly when the known-package graph has a cycle, naming a path into it; otherwise all depths are exact and each tier holds exactly the packages of its depth, in the order of the input |
| Tiers.Layer | tools/deployments/publish-packages.ts:188-198 | pushing with on-demand empty tiers gives at index k exactly the packages of depth k, in the order of the input |
| Tiers.TiersAreValid | tools/deployments/publish-packages.ts:136-201 | the tiers are a permutation of the packages, none is empty, every dependency is in a strictly earlier tier |
| Tiers.TiersAreEarliest | tools/deployments/publish-packages.ts:136-201 | every other valid layering puts each package no earlier and needs at least as many tiers |
| WorkerPool.ExecuteValid | tools/deployments/publish-packages.ts:488-499 | over any interleaving: one worker per claimed and unfinished index, every result stored at its package's index, claims counted by `next` |
| WorkerPool.PublishTierCorrect | tools/deployments/publish-packages.ts:476-508 | there are max(1, min(concurrency, n)) workers; under every interleaving each index is claimed once and in order, at most as many packages as workers are in flight, there is no deadlock, at most 2n steps and one for each worker, and at the end result i is that of package i |
| RegistryReads.FetchPackumentWithRetry | tools/deployments/publish-packages.ts:261-285 | the first answer that is not an error, within the attempts allowed (one at least), after delays of which the first is the given one and each later one twice the one before; gives up only when every allowed attempt failed |
| RegistryReads.FilterUnpublished | tools/deployments/publish-packages.ts:299-318 | fails exactly when some package cannot be read; otherwise returns exactly the packages whose exact version is not on the registry, in the order given, each read with doubling delays up to its first answer |
| RegistryReads.MissingMembers | tools/deployments/publish-packages.ts:304-317 | what is missing, as a set, and that names stay unique |
| RegistryReads.WaitForPropagation | tools/deployments/publish-packages.ts:351-415 | what is reported as stuck are exactly the versions that no check finds before the deadline is read, so the gate opens if and only if each one is found in time, and then settles; at most ceil(timeout / poll) + 1 rounds |
| RegistryReads.OpensIffInTime | tools/deployments/publish-packages.ts:361-403 | for packages with different names the gate opens if and only if each of them is found in time |
| RegistryReads.CheckRound | tools/deployments/publish-packages.ts:368-392 | a round over a snapshot leaves exactly the entries that no check has found so far |
| RegistryReads.UnseenMeans | tools/deployments/publish-packages.ts:367-392 | an entry is pending after n rounds if and only if all of its n checks failed |
| RegistryReads.AtMostRoundsIsCeiling | tools/deployments/publish-packages.ts:394-403 | the bound on rounds is ceil(timeout / poll) + 1 |
| Release.StepKeeps | tools/deployments/publish-packages.ts:547-658 | every step of a run, of the pool and of the environment keeps the invariant |
| Histories.ReleaseSafe | tools/deployments/publish-packages.ts:547-658 | in every reachable state, over any interleaving, failure, late landing, abort and re-run: each version on the registry has all versions it pins there too, each publish call came after evidence for every dependency, tags come last and with every package published; whatever the run has called was not on the registry when this run read it, and what is about to be called is still not there unless a publish of it, called before, landed since that read |
| Histories.NeverAgain | tools/deployments/publish-packages.ts:299-318 | over any sequence of failing runs, a version that is on the registry when a run starts is called neither in that run nor in a later one |
| Once.CalledOnce | tools/deployments/publish-packages.ts:476-508 | no run calls the publish of a version twice, in whichever tiers and pools |
| Once.PublishedOnce | tools/deployments/publish-packages.ts:569-643 | once a publish has ended without an error, no worker of the same or a later run ever claims that version again |
| Once.LandedLate | tools/deployments/publish-packages.ts:299-318 | a version that is there when it is about to be published was not there when this run read it, and was called by an earlier run |
| Once.LateLanding | tools/deployments/publish-packages.ts:569-601 | a history of two runs in which that happens |
| Gate.AwaitedIffNotListed | tools/deployments/publish-packages.ts:571-643 | in every run that does not skip the gate, a dependency was found resolvable before a publish call if and only if it was not listed when its tier was filtered |
| Gate.UnawaitedPublish | tools/deployments/publish-packages.ts:571-643 | a history of two runs in which a package is published although its dependency was never found resolvable |
| Histories.MissingShrinks | tools/deployments/publish-packages.ts:299-318 | over any sequence of runs nothing on the registry changes, the missing set never grows and shrinks by each publish without error |
| Histories.RegistryGrows | tools/deployments/publish-packages.ts:569-643 | versions and their pins stay on the registry for ever |
| Histories.PublishedIsThere | tools/deployments/publish-packages.ts:597-601 | a package logged as published is on the registry |
| PublishAll.PlanRelease | tools/deployments/publish-packages.ts:547-549 | finds every public package as its package.json says, and nothing else; the tiers are those of the exact depths and such as a run can use, or the manifests pin each other in a circle and a path into it is named |
| PublishAll.CyclesArePinCycles | tools/deployments/publish-packages.ts:110-163 | the graph of the packages has a cycle if and only if the manifests pin each other in a circle |
| PublishAll.DependenciesArePins | tools/deployments/publish-packages.ts:112-123 | what a run treats as the dependencies of a package are exactly the packages that its manifest pins |
| PublishAll.ComputedTiersAreValid | tools/deployments/publish-packages.ts:547-549 | the computed tiers meet what the protocol assumes of its tiers |
| PublishAll.PublishTier | tools/deployments/publish-packages.ts:480-508 | whichever worker is scheduled next, the pool ends, result i is that of package i, and the registry has grown by exactly what landed |
| PublishAll.RunTier | tools/deployments/publish-packages.ts:569-643 | one tier: each package is read with doubling delays; it goes on if and only if the tier can be read, every missing package is published without an error and the gate, if there is one, opens; otherwise which of the three failed, with the exact failures or stuck versions, what is on the registry then, and for how long an opened gate settles |
| PublishAll.PublishAllPackages | tools/deployments/publish-packages.ts:547-658 | a whole run after any history, for exactly the public packages of the workspace and what their package.json files pin: it takes only steps of the protocol, each reported event backed by an answer of the environment; tags are created if and only if every tier passes, otherwise the first tier that does not decides the outcome; manifests that pin each other in a circle publish nothing |
| PublishAll.OutcomeMeans | tools/deployments/publish-packages.ts:574-656 | what the outcome of a run that fails names: a tier of the run, the failed publishes of its packages, or a gate that is neither the last tier's nor skipped |
| PublishAll.ErrorsInOrder | tools/deployments/publish-packages.ts:597-608 | the failures reported are exactly those of the packages whose publish ends with an error, in order |
| PublishAll.RunIsSafe | tools/deployments/publish-packages.ts:547-658 | where such a run ends, the registry is closed under pins, tags came last, and before every publish call each dependency was listed by the first answer from the registry as it was when the run read its tier, or published without an error and, unless the gate is skipped, found by a check made in time; no version is called that was there when the run started or when the run read it |
| Dependants.BuildDependantsGraph | tools/deployments/deprecate.ts:12-67 | the exact transpose of the dependency relation among known packages, listing known packages only; fails exactly on a workspace dependency on an unknown package with an inherited name |
| Dependants.CollectPackages | tools/deployments/deprecate.ts:19-51 | the collected names and dependencies are those of the public manifests |
| Dependants.BuildGraph | tools/deployments/deprecate.ts:53-66 | each known package lists its dependants in order; fails exactly on an unknown dependency with an inherited name |
| Dependants.DependantsInOrder | tools/deployments/deprecate.ts:53-66 | the dependants of a package are exactly the packages that list it, in order and each once |
| Dependants.GetRequiredDependants | tools/deployments/deprecate.ts:91-113 | fails at the first unknown name, as an unknown package or because it is a name every object inherits; otherwise returns exactly the direct dependants that are not given, each once, in the order in which they are first met |
| Dependants.NoGraphExample | tools/deployments/deprecate.ts:58-64 | a package list for which the graph cannot be built |
| Dependants.NothingRequiredIffClosed | tools/deployments/deprecate.ts:87-113 | nothing is required if and only if the given packages contain every transitive dependant of each of them |
| Dependants.AddUntilClosedIsLeast | tools/deployments/deprecate.ts:87-113 | adding what is required until nothing is terminates, at exactly the given packages and their transitive dependants |
| Args.ParseArgs | tools/deployments/deprecate.ts:282-346 | the index loop accepts exactly what items write out, with a package and a reason among them, and returns what they mean |
| Args.ParseSpecUndoesPrint | tools/deployments/deprecate.ts:305-330 | a printed specifier is parsed back, scopes and rollback versions included |
| Args.ParseUndoesPrint | tools/deployments/deprecate.ts:282-346 | parsing undoes printing for any order and repetition of specs and flags, and reports what is missing |
| Args.ParsedIsExpressible | tools/deployments/deprecate.ts:302-346 | whatever parses can be printed, so parsing reaches exactly the expressible results |
| Args.PrintUndoesParse | tools/deployments/deprecate.ts:282-346 | printing what was parsed and parsing again gives the same result |
| Args.ParsesExactly | tools/deployments/deprecate.ts:282-346 | the arguments parse to a result if and only if they are specifiers, reasons and dry-run flags written out that mean this result and leave nothing out |
| Args.FirstErrorReported | tools/deployments/deprecate.ts:284-330 | otherwise the first argument that continues no item is named: any other flag as unknown, a reason without a value, or what no specifier is written as |
| Convert.ValidateSingletonBindings | packages/config/src/schema.ts:297-335 | the reported duplicates are exactly the singleton types defined more than once |
| Convert.OmitUndefined | packages/config/src/convert.ts:937-945 | exactly the fields that have a value |
| Convert.FieldsReadBack | packages/config/src/convert.ts:264-603 | the fields of an array binding, renamed and stripped of undefined values, can be read back |
| Convert.NamesAgree | packages/config/src/convert.ts:236-603 | the compiler puts each field of a binding under the name that Wrangler's config has for it in that array, from a table written the other way round |
| Convert.StepReadsBack | packages/config/src/convert.ts:254-603 | one iteration changes what is read at one place at most, and puts there the name and what survives of the binding |
| Convert.BindingsConserved | packages/config/src/convert.ts:205-697 | if each singleton type occurs once and each vpc-network binding names a network, every binding has a place of its own in the output, is read there, and nothing else is in the output |
| Convert.ReadsBackIff | packages/config/src/convert.ts:205-697 | the whole environment can be read back by the names of Wrangler's config, up to json strings and texts, empty dev objects and dev objects of arrays without a remote field, if and only if it passes both checks of the schema and no unsafe binding has a name field of its own |
| Convert.SurvivesWhole | packages/config/src/schema.ts:208-229 | a binding is kept whole if and only if it names exactly one network and, if unsafe, has no name of its own |
| Convert.OwnNameIsLost | packages/config/src/convert.ts:255-262 | the output does not depend on an unsafe binding's own name, so no reader can do better |
| RawConfigs.CollectBindings | packages/config/src/convert.ts:209-603 | the loop with its accumulators, the singleton fields and the assets name collects exactly what was read back above |
| RawConfigs.ConvertBindingsAndAssets | packages/config/src/convert.ts:205-697 | the result holds all bindings, no field is present and empty, assets merge the config with the binding, other unsafe fields are kept |
| RawConfigs.ConvertDomains | packages/config/src/convert.ts:884-898 | custom-domain routes are appended to the routes already there |
| RawConfigs.ConvertTriggers | packages/config/src/convert.ts:792-878 | routes, consumers and connect handlers are appended to those already there, producers are kept, addresses are set if and only if there is an email trigger |
| RawConfigs.RoutesReadBack | packages/config/src/convert.ts:824-833 | domains and fetch triggers share the routes, and both lists can be read back from them in order, with zones given by name if they have a dot and by id otherwise |
| RawConfigs.PartsReadBack | packages/config/src/convert.ts:792-878 | schedules, queue consumers and connect handlers are those of the triggers of their kind, in order |
| RawConfigs.AddressesReadBack | packages/config/src/convert.ts:799-878 | the addresses are those of all email triggers, and are set if and only if there is one |
| RawConfigs.SplitLosesOnlyOrder | packages/config/src/convert.ts:799-878 | two lists of triggers give the same output if and only if they agree kind by kind and on the email addresses: only the interleaving and the grouping of addresses are lost |
| RawConfigs.ConvertTailConsumers | packages/config/src/convert.ts:904-927 | consumers are split by streaming, in order, and a field is set only if it has entries |
| RawConfigs.WorkersByStreaming | packages/config/src/convert.ts:904-927 | each of the two lists has exactly the consumers of its kind, in order |
| RawConfigs.ConvertExports | packages/config/src/convert.ts:703-786 | fails with exactly the exports of unknown types; otherwise every export is converted |
| RawConfigs.ExportsReadBack | packages/config/src/convert.ts:713-765 | an export can be read back but for whether its created state was spelled out and for a container beside other storage than sqlite |
| RawConfigs.OnlyKnownExports | packages/config/src/convert.ts:703-786 | nothing but the exports of known types is among the converted ones |
| RawConfigs.UnknownAreReported | packages/config/src/convert.ts:703-786 | what is reported are exactly the exports of unknown types, with these and in order |
| RawConfigs.TopFieldsReadBack | packages/config/src/convert.ts:65-123 | a top-level field is kept exactly unless it is an entrypoint that is no string |
| RawConfigs.ConvertToWranglerConfig | packages/config/src/convert.ts:24-42 | fails exactly on exports of unknown types; otherwise after all passes the bindings are still all there, and every field holds what each pass wrote to it |
| Loader.GetAfterSet | packages/config/src/load.ts:208-223 | a UUID that was appended is what the importing module reads, and other parameters are untouched |
| Loader.Hooks.Resolve | packages/config/src/load.ts:117-184 | in terms of the import itself: a cf-worker reference is anchored if it is relative and has a parent, and not recorded; a file outside node_modules, imported from a module with the parameter or with the attribute, is recorded and its URL gets the parameter and keeps the others; any other import is left alone |
| Loader.LoadConfig | packages/config/src/load.ts:39-60 | on any finite import graph, cyclic or not, loading ends, loads exactly what the imports below the config lead to and records exactly the tracked ones; each file outside node_modules that a loaded module with the parameter imports, and not as a cf-worker reference, is recorded and loaded with that module's UUID; without stray imports the reachable files are the only ones recorded |
| Loader.OneUuidIffNoStray | packages/config/src/load.ts:162-181 | all modules loaded with the parameter carry the config's UUID if and only if the import graph below the config has no stray import |
| Loader.StrayWhateverDrawn | packages/config/src/load.ts:162-181 | whether it has one does not depend on the UUIDs that would be drawn |
| Loader.TwoUuids | packages/config/src/load.ts:162-181 | a config whose load comes to hold two UUIDs, because a library asks for no-cache loading of a file |
| Loader.ReachableIsTracked | packages/config/src/load.ts:171-181 | every reachable file is the config or named by a tracked import below it |
| Loader.TrackedIsReachable | packages/config/src/load.ts:171-181 | without stray imports below the config, tracked imports name reachable files only |
| Loader.ReachableCarries | packages/config/src/load.ts:171-181 | everything reachable carries the root's UUID |
| Loader.LoadsShareNothing | packages/config/src/load.ts:90-95 | two loads with different UUIDs share no module of a config's graph |
| Loader.SharedIsUnmarked | packages/config/src/load.ts:90-95 | if neither graph has a stray import, then of all the modules that two loads with different UUIDs load, they share none that is loaded with the parameter |
| Loader.StrayMarks | packages/config/src/load.ts:171-181 | a stray import brings in another UUID than the config's |
| Pager.BuildPages | packages/cli/interactive.ts:512-536 | the loop with its running size computes the greedy pages |
| Pager.PaginateConserves | packages/cli/interactive.ts:512-536 | the pages concatenate to the options, whatever their heights, and a page exceeds the limit only if it holds a single option that does |
| Pager.OnlyFirstPageEmpty | packages/cli/interactive.ts:523-536 | of the pages returned only the first can be empty, and it is exactly when the first option is too tall |
| Pager.PagesAreValid | packages/cli/interactive.ts:512-536 | when each option fits, all pages are non-empty and within rows - 6 |
| Pager.FewestPages | packages/cli/interactive.ts:512-536 | no split into consecutive pages within the limit has fewer pages |
| Pager.ChoosePage | packages/cli/interactive.ts:538-554 | the lookup returns the page the cursor is on, the position on it and whether it is first or last, or nothing if there is none |
| Pager.LookupInvertsPaging | packages/cli/interactive.ts:538-554 | every cursor within the options is on exactly one page, and points to its option there |
| Pager.PageToShow | packages/cli/interactive.ts:512-554 | for a cursor within the options, the page shown is a stretch of the options around it, with the small cursor on the very option; it is marked as last if and only if the options end with it, as first if and only if they begin with it and the first option is not too tall; it fits in rows - 6 if every option does |
| Pager.SelectRefreshablePrompt.constructor | packages/cli/select-list.ts:33-43 | the cursor starts at the first option with the initial value, at the first option if none has it |
| Pager.SelectRefreshablePrompt.OnCursor | packages/cli/select-list.ts:65-80 | cursor keys move and wrap, and the value stays that of the option under the cursor |
| Pager.SelectRefreshablePrompt.OnRefreshed | packages/cli/select-list.ts:49-62 | the new options are taken over and the prompt stays valid if and only if there are any |
| Pager.CursorInRange | packages/cli/select-list.ts:45-80 | over any sequence of keys and non-empty refreshes the cursor stays in range, and between refreshes it is the sum of all steps modulo the number of options |
| Wire.PgMsg | fixtures/shared/src/mock-postgres-server.ts:17-24 | the buffer is the type, the length that counts itself, and the payload; a length that is no int32 is an error |
| Wire.Int32RoundTrip | fixtures/shared/src/mock-postgres-server.ts:21 | an int32 is written with its highest byte first, negative numbers as their two's complement, and read back |
| Wire.WalkVisitsFrames | fixtures/shared/src/mock-postgres-server.ts:150-190 | on a chunk of whole frames the loop visits exactly those frames, in order, and closes at the first X |
| Wire.PlacesHoldFrames | fixtures/shared/src/mock-postgres-server.ts:150-190 | the bytes at each visited place are the frame |
| Wire.HaltsOnLengths | fixtures/shared/src/mock-postgres-server.ts:151-190 | without negative lengths the loop ends within as many iterations as there are bytes |
| Wire.StuckOnMinusOne | fixtures/shared/src/mock-postgres-server.ts:158-189 | on a length of -1 it never ends |
| Wire.EndsSoonOrNever | fixtures/shared/src/mock-postgres-server.ts:151-190 | on any chunk at all the loop ends within as many iterations as there are bytes, or never |
| Wire.NeverEndsIffRevisits | fixtures/shared/src/mock-postgres-server.ts:151-190 | it never ends if and only if two messages it visits start at the same offset |
| Wire.GoesRound | fixtures/shared/src/mock-postgres-server.ts:158-189 | a chunk with a length of -6 that is read round and round |
| Wire.Connection.OnData | fixtures/shared/src/mock-postgres-server.ts:119-191 | on any chunk: the replies to an SSL request, to the one startup message and to each query the loop has visited after any number of iterations, and when the connection ends |
| Wire.RequestCodes | fixtures/shared/src/mock-postgres-server.ts:119-131 | the SSL request has the code 1234 and 5679, startup is that of protocol 3.0 |
| Wire.FramesServed | fixtures/shared/src/mock-postgres-server.ts:150-190 | a chunk of whole frames gets one reply for each query before the first X, and closes if and only if there is an X |
| Wire.QueriesAreQ | fixtures/shared/src/mock-postgres-server.ts:150-190 | what is answered are exactly the messages of type Q, in order |
| Wire.StopsAtFirstX | fixtures/shared/src/mock-postgres-server.ts:150-190 | what is read are the messages before the first one of type X |
| Wire.Connection.OnFrames | fixtures/shared/src/mock-postgres-server.ts:119-191 | the same of a connection after startup |
| Wire.FramesAreNoSslRequest | fixtures/shared/src/mock-postgres-server.ts:123-127 | a chunk of whole frames is never taken for an SSL request |
| Wire.RowDescription | fixtures/shared/src/mock-postgres-server.ts:53-75 | the message for the columns; too many columns are an error |
| Wire.DataRow | fixtures/shared/src/mock-postgres-server.ts:78-92 | the message for the values; too many or too long ones are an error |
| Wire.RowsRoundTrip | fixtures/shared/src/mock-postgres-server.ts:53-92 | a reader following the Postgres message formats gets back the columns, all as text, and the values |
| Wire.AllAreText | fixtures/shared/src/mock-postgres-server.ts:53-75 | every column is described as one of type OID 25 without a fixed size or a modifier, sent as text |

## Left out

- File system, processes, npm, git, HTTP and JSON: their answers are inputs, or choices of the environment.
- `resolveVersion`, `buildCommands`, `executeCommands` and `main` of the deprecation script; `createPublishRunner`, `escapePackageName`, `readIntEnv` and the dry-run branch of the release; log output.
- Release.StepKeeps: models the pool's shared `results` and `next` as values of a state machine whose atomic steps are the stretches between two `await`s; a worker that completes one publish and claims the next is two steps, which only adds interleavings.
- PublishAll.PublishAllPackages: a version that lands does so when its publish ends, and the exit code of the tag command is not looked at; the state machine also has earlier and later landings and jobs that are killed.
- Packages.FindPublishablePackages: `.sort()` on dependency names orders by UTF-16 code units, the model by characters, which is the same for names that npm allows.
- Shards.SelectTests: durations are natural numbers (the source adds small integers in a `Float64Array`), the sort is a verified stable insertion sort, and settings that are no numbers, which fail the same assertions, are not values of the model.
- Retries.RunWithRetries: whether the execution of a file passes is an input.
- Convert.FieldsReadBack: the nested objects of `outbound` and `local_dev` are opaque values, and the development-only fields (connection string, S3 credentials) count as fields of their binding.
- Convert.BindingsConserved: the array bindings that differ only in their names and fields are one family with a slot tag.
- RawConfigs.ConvertTopLevel: the nested objects of limits, observability, cache, and the unsafe metadata and capnp are opaque values; renaming their fields would only add easy members.
- Zod's parsing of config files; only the checks that the compiler relies on are modelled.
- Loader.LoadConfig: the module system's worklist stands for Node's loader; URL parsing, `encodeURIComponent`, `AsyncLocalStorage`, export filtering and the registering of hooks are not modelled, and `anchor` stands for resolving a relative specifier against a module's URL.
- Pager.ChoosePage: rendering, colours and hidden options are not modelled; `rows` is given.
- Wire.Connection.OnData: what the handler has done is stated for every number of iterations, because its loop may never end; strings are their UTF-8 bytes, and the replies to startup and to a query are given byte strings; how several chunks split a message is not handled by the source either.
