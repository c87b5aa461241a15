# hubble-authz-proxy: a verified model

hubble-authz-proxy stands between a browser and the Hubble UI backend and removes from every
response what the caller may not see.  This project models the parts of it that hold state or
carry an argument, and proves what they promise.

**The filter and its memory.**  A service-map link names its ends by opaque IDs only, so the filter
learns, from every poll, which namespace each service is in, and decides links from that memory.
The memory is one registry shared by all channels, bounded, swept and evicted least recently used
first.  `RegistryModel` gives the registry as a transition relation, `Registry` as the mutable object
with its deleting loops, `RegistryRuns` what holds of whole runs, `CapInclusion` how registries of
different caps compare.  `ServiceMap` gives one poll as
functions, `UiFilter` as the loops over the registry object; `FilterLaws`, `Idempotence`,
`Noninterference`, `Dangling` and `PeerScopes` prove the laws of a poll and of a history of polls.  `Interleaving`
splits every poll into its single registry operations and lets any number of polls, control polls and
sweeps interleave; `FailClosed` compares that machine, step by step, with one whose registry never
forgets, and `Reachable` proves what holds of its every state.

**The scope cache.**  With cluster RBAC, a caller's scope is the set of namespaces in which the API
server lets them list pods.  Answers are cached per identity, misses share one resolution, reviews go
out in parallel and fail as a whole, and informer events evict what they may have made untrue.
`ClusterRbac` is the truth (allow-only RBAC and writes to it), `ScopeCache` and `Authorizer` the cache
and its mutable object, `Protocol` the concurrent machine of writes, informer queues, resolutions,
cache and clock.  `WatchCompleteness`, `Overtaken`, `Singleflight`, `Staleness` and `Freshness` prove
its properties over every interleaving.

**Identities and the mapping file.**  `Strings` and `Identity` cover the groups header and the cache
key; `Authz` the file-backed authorizer that keeps its last good mapping.

`dafny verify dfyconfig.toml` checks everything.

## Where the code does less than one might expect

Each of these is the code's behaviour, kept as it is; a lemma says exactly when the stronger
statement holds or shows a case in which it does not.

- Pass 1b asks `scope.Namespaces[ns]` without the non-empty check of the visibility rule, and so do the
  branches of `eventVisible` for namespace and service events.  A service can be revealed by an edge
  that is itself not shown, exactly if the empty namespace is in scope:
  `Dangling.RevealedOnlyByVisibleEdge`.  Events of no namespace pass for the same reason, and the one
  visibility rule decides every event exactly if the empty namespace is not in scope:
  `FilterLaws.OneRuleExactly`.
- Peers are recorded under the scope of the poll that saw the link and outlive a change of scope.  A
  poll shows, in all histories with given scopes, only services in its scope or linked to one in it,
  exactly if no earlier scope of the channel held anything that its own does not:
  `PeerScopes.PeersFollowScopeExactly`, with a history for every shrunk scope in
  `PeerScopes.PeersOutliveScope`.
- An invalidation does not reach a resolution in flight.  One that is overtaken stores its older
  answer afterwards: `Overtaken.OvertakenExceedsTruth` gives a whole run that ends, with all events
  delivered, in a cached grant truth denies.  All other entries are safe:
  `WatchCompleteness.WatchMissesNothing`.
- ServiceAccount subjects are ignored by invalidation.  Revocation is complete for exactly the
  identities not named like a ServiceAccount: `ClusterRbac.RevocationExact`.
- The deadline of a sweep covers its reviews, not the store that follows.  If stores come at most d
  after the re-check, all grants served are less than two TTLs old in every run exactly if d does not
  exceed the TTL: `Freshness.FreshExactly`, with a run for every longer d in `Freshness.LateIsStale`.
- The mapping reload compares digests.  That agrees with always reparsing exactly if no two parseable
  contents with different mappings share a digest, the initial zero digest included:
  `Authz.LastGoodExactly`.
- A read that does not parse goes unreported if its digest is that of the content in force.  All failed
  reads are reported exactly if no such content shares a digest with a parseable one or with the zero
  digest: `Authz.ErrorsExactly`.
- The rules for users are looked up without the non-empty check of the admin names, so a caller without
  an email, or without a user, bears the empty name.  What is missing grants nothing exactly if no rule
  for the empty name does: `Authz.MissingNameGrantsExactly`.
- The order of a batch matters if it announces one ID in two namespaces, and only then:
  `FilterLaws.OrderIndependenceExact`.
- Evicting the least recently seen channel gives LRU inclusion if clock readings never tie:
  `CapInclusion.LruInclusion`.  With ties it does so exactly if the smaller cap is one or the larger
  registry has none: `CapInclusion.TiesToleratedExactly`.
- `MarkEmptyScopeNotified` returns true not once per channel but once for each time the channel's
  notice was forgotten with it, and once more if it is on record: `RegistryRuns.NoticesExact`.
  `RegistryRuns.ToldTwice` is a run with two notices.  The method's comment says as much of evictions.

## Model

| member | source | states |
|---|---|---|
| RegistryModel.TouchedFrame | internal/registry/registry.go:91-145 | a write sets its channel's record, leaves every other tracked record as it was, and drops channels only when it admits one |
| RegistryModel.NextKeepsInv | internal/registry/registry.go:77-228 | every operation keeps the cap, a gauge equal to the channel count, created = tracked + expired + evicted, and no empty ID recorded |
| Registry.Registry.constructor | internal/registry/registry.go:67-74 | a new registry is the empty initial state |
| Registry.Registry.DropExpired | internal/registry/registry.go:121-126 | the deleting loop leaves exactly the channels not idle past the cutoff |
| Registry.Registry.Oldest | internal/registry/registry.go:132-138 | the scan finds a tracked channel with minimal lastSeen; its empty-ID sentinel means exactly that none is tracked |
| Registry.Registry.MakeRoom | internal/registry/registry.go:116-145 | nothing below the cap; otherwise expired channels go first, then least recently seen ones until one more fits, each counted |
| Registry.Registry.DropOldest | internal/registry/registry.go:131-144 | the eviction loop ends one below the cap having dropped only channels seen no later than any it kept |
| Registry.Registry.ChannelLocked | internal/registry/registry.go:91-103 | returns the channel's record, admitting a fresh one, counted and gauged, if it was not tracked |
| Registry.Registry.Remember | internal/registry/registry.go:77-87 | is the atomic Remember step and keeps the invariant; empty IDs change nothing |
| Registry.Registry.RememberPeer | internal/registry/registry.go:149-159 | is the atomic RememberPeer step and keeps the invariant; empty IDs change nothing |
| Registry.Registry.MarkEmptyScopeNotified | internal/registry/registry.go:168-184 | is the atomic step that answers whether the channel is untold and marks it told |
| Registry.Registry.IsPeer | internal/registry/registry.go:188-197 | answers whether the service is a recorded peer, changing nothing, not even lastSeen |
| Registry.Registry.Lookup | internal/registry/registry.go:203-214 | tells unknown from known-in-no-namespace and refreshes a tracked channel; a miss does not admit one |
| Registry.Registry.Sweep | internal/registry/registry.go:217-228 | drops exactly the channels idle past the TTL and sets the gauge |
| RegistryRuns.EvictionCorrect | internal/registry/registry.go:91-145 | after an admission the newcomer is tracked within the cap; a live channel goes only when none is expired, is least recently seen of all, and goes alone |
| RegistryRuns.ExpiredGoFirst | internal/registry/registry.go:116-145 | an admission at the cap keeps no other channel idle past the TTL, counts each of those as expired and as evictions exactly the live channels dropped; below the cap nothing is dropped or counted |
| RegistryRuns.Conservation | internal/registry/registry.go:77-228 | after every prefix of every run of operations: cap, exact gauge, created = tracked + dropped as expired + counted evictions |
| RegistryRuns.NoticesExact | internal/registry/registry.go:161-184 | over any run a channel is told exactly once for each time it was dropped with its notice on record, and once more if the notice is on record |
| RegistryRuns.ToldTwice | internal/registry/registry.go:164-184 | a run in which a channel swept in between is told twice |
| RegistryRuns.SeenExactly | internal/registry/registry.go:76-214 | in every reachable state lastSeen is the time of the last operation that refreshed the channel; a peer query and a lookup that misses are none |
| RegistryRuns.SweptIfIdle | internal/registry/registry.go:216-228 | at any point of any run a sweep drops exactly the channels no operation has refreshed for longer than the TTL |
| RegistryRuns.TrackedWasWritten | internal/registry/registry.go:77-214 | in any run a tracked channel was written, not just looked up |
| RegistryRuns.WhyDropped | internal/registry/registry.go:116-228 | in any run a channel is dropped only by a sweep that finds it idle past the TTL or to admit another at the cap |
| CapInclusion.InclusionStep | internal/registry/registry.go:77-228 | one operation on a smaller and a larger registry keeps inclusion of channels and of what is recorded of them, agreeing stamps, and equality while the smaller has room |
| CapInclusion.SameVictim | internal/registry/registry.go:131-143 | with distinct stamps, a channel of the smaller registry that the larger may evict is the one the smaller evicts |
| CapInclusion.LruInclusion | internal/registry/registry.go:91-145 | on one schedule with a strict clock and nothing idle past the TTL, a smaller cap tracks a subset with equal lastSeen and sub-maps of namespaces and peers, whatever Lookups miss |
| CapInclusion.TiesToleratedExactly | internal/registry/registry.go:131-143 | with readings that may repeat, inclusion holds throughout all pairs of runs on one schedule if and only if the smaller cap is one or the larger registry is uncapped |
| CapInclusion.TieBreaks | internal/registry/registry.go:131-143 | for all other caps, two runs from the empty registry on one schedule that end without inclusion |
| Visibility.StrictIsLenientWithoutForeigners | internal/proxy/filter.go:18-28 | strict visibility is lenient visibility with no foreign end |
| ChannelView.OwnStep | internal/registry/registry.go:77-214 | a channel's own operations change and answer its view as functions, whatever was evicted to admit it |
| ChannelView.OtherStep | internal/registry/registry.go:91-145 | operations on other channels and sweeps leave a channel's record as it was or drop it whole |
| FilterLaws.OneRule | internal/proxy/uifilter.go:255-306 | every event but a batch of flows is kept, unchanged, exactly if the namespaces it involves may be shown, or it is a notification, or a revealed service in lenient mode, or a namespace or service event of no namespace while the scope holds the empty one |
| FilterLaws.OneRuleExactly | internal/proxy/uifilter.go:276-285 | the visibility rule alone decides all such events, for every memory, if and only if the empty namespace is not in scope |
| FilterLaws.BatchKeepsVisible | internal/proxy/uifilter.go:262-274 | a batch of flows keeps, in order and multiplicity, exactly its visible flows; the event is dropped if none is left |
| FilterLaws.BatchExactly | internal/proxy/uifilter.go:262-274 | in either mode the verdict on a batch of flows is to drop it exactly if none of its flows may be shown, and else the batch trimmed, in order and multiplicity, to those that may |
| FilterLaws.LearnsLast | internal/proxy/uifilter.go:176-180 | after pass 1 an ID has the namespace of its last announcement, or what was known before; no peer changes |
| FilterLaws.PeersAreFarEnds | internal/proxy/uifilter.go:194-214 | pass 1b changes no namespace and adds exactly the far ends of links with one known end in scope and the other out of it |
| FilterLaws.RememberedFacts | internal/proxy/uifilter.go:171-214 | peers only grow over a poll, and not at all in strict mode |
| FilterLaws.KeepCollects | internal/proxy/uifilter.go:216-227 | what is returned is the kept verdicts in batch order |
| FilterLaws.OrderIndependence | internal/proxy/uifilter.go:171-227 | permuting a batch with one namespace per ID permutes the verdicts alike and leaves the same memory |
| FilterLaws.OrderIndependenceExact | internal/proxy/uifilter.go:171-180 | every permutation of a batch leaves the same namespaces if and only if no ID is announced in two |
| Idempotence.KeptKeepsLast | internal/proxy/uifilter.go:216-227 | if an ID's last announcement is shown it is still last in the filtered batch; otherwise what remains is in scope |
| Idempotence.VisibleLinkRevealed | internal/proxy/uifilter.go:182-214 | a link shown in lenient mode has revealed its foreign end |
| Idempotence.LinkKeptAgain | internal/proxy/uifilter.go:287-296 | a link kept once is kept when its filtered batch is filtered again and reveals nothing new |
| Idempotence.Idempotent | internal/proxy/uifilter.go:165-230 | refiltering a filtered batch returns it unchanged and adds no peer, even if it announced an ID twice |
| Noninterference.MemoryPurged | internal/proxy/uifilter.go:171-180 | the memory of a history without foreign events agrees with the full one on every service the latter does not know to be foreign |
| Noninterference.KeepPurged | internal/proxy/uifilter.go:255-306 | with such a memory a poll without its foreign events returns what the full poll does |
| Noninterference.StrictNoninterference | internal/proxy/uifilter.go:165-306 | in strict mode erasing, from any history of a channel, everything that belonged to or touched a foreign namespace when it was decided changes no output of any poll, even if services move |
| Noninterference.FixedHomesNoninterference | internal/proxy/uifilter.go:165-306 | if each service ID keeps one namespace, links to foreign ones may be erased even before these are announced |
| Noninterference.LenientInterferesExactly | internal/proxy/uifilter.go:182-193 | in lenient mode erasing foreign namespaces changes no output, in all histories with one scope, if and only if that scope is empty |
| Dangling.RememberedRegistered | internal/registry/registry.go:77-87 | polls never make a channel remember an empty ID, nor the empty channel anything |
| Dangling.NoDanglingEdge | internal/proxy/uifilter.go:182-227 | lenient: if a link is kept, each end is in scope or revealed, and its last announcement in the batch is kept |
| Dangling.RevealedStaysShown | internal/proxy/uifilter.go:279-285 | every announcement of a service the channel holds as a peer is kept in later lenient polls |
| Dangling.RevealedOnlyByVisibleEdge | internal/proxy/uifilter.go:207-212 | every link that reveals a service is itself shown, for all memories and links, if and only if the empty namespace is not in scope |
| PeerScopes.GrowingScopeShowsItsOwn | internal/proxy/uifilter.go:194-214 | if no earlier scope exceeds this poll's, every service it shows is in its scope or was linked to one on record in it |
| PeerScopes.PeersOutliveScope | internal/proxy/uifilter.go:205-212 | for every earlier scope that does exceed it, a history in which the poll shows a service that is neither |
| PeerScopes.PeersFollowScopeExactly | internal/proxy/uifilter.go:194-214 | all histories with given scopes show at poll n only services in its scope or linked to one in it, if and only if no earlier scope exceeds it |
| UiFilter.Proxy.FilterServiceMapStream | internal/proxy/uifilter.go:165-230 | the three loops over the registry object return exactly the poll's kept events and leave exactly its memory and its notice; other channels are at most dropped |
| UiFilter.Proxy.FilterControlStream | internal/proxy/uifilter.go:69-109 | gives that reply; the registry takes the marking step exactly if there is a list, notices are on and the scope is empty, and is untouched otherwise |
| UiFilter.Proxy.FindPeer | internal/proxy/uifilter.go:196-213 | two lookups and at most one recorded peer amount to one step of pass 1b |
| UiFilter.Proxy.EventVisible | internal/proxy/uifilter.go:255-306 | decides an event from the channel's view, trimming flow batches, and leaves every view as it was |
| UiFilter.ControlReplyExactly | internal/proxy/uifilter.go:75-106 | the reply is unchanged exactly without a list; the notice exactly if notices are on, the scope is empty and the channel has an ID and is not on record as told; otherwise the listed names in scope, in order and multiplicity |
| UiFilter.Stepped | internal/registry/registry.go:77-214 | one operation other than the notice seen from every channel: its own view changes as a function and its notice not at all, others only by being dropped |
| Interleaving.StepIsOperation | internal/proxy/uifilter.go:165-306 | each step of the machine is nothing or one registry operation, and advances one request only |
| Interleaving.TraceInv | internal/registry/registry.go:77-228 | every reachable registry keeps its invariant and every request stays what it was |
| FailClosed.SameOperation | internal/registry/registry.go:77-228 | one operation on a bounded and on an ideal registry keeps each map below the ideal one and the answer no more permissive |
| FailClosed.ResumeBelow | internal/proxy/uifilter.go:194-230 | a request that got the less informed answer stays at the same point with a subsequence of what the other kept |
| FailClosed.StepBelow | internal/proxy/uifilter.go:165-230 | every move of the schedule keeps the bounded system below the ideal one |
| FailClosed.FailClosed | internal/proxy/uifilter.go:165-230 | over every interleaving of requests, sweeps and evictions, each request has kept a subsequence of what it would have kept had nothing been forgotten, and every bounded map is a sub-map |
| FailClosed.IdealExists | internal/registry/registry.go:77-228 | every schedule of a bounded run has a run of the ideal registry |
| FailClosed.FailsClosedOnEverySchedule | internal/proxy/uifilter.go:165-230 | so every bounded run has an ideal one on its schedule that it stays below throughout |
| Reachable.NewPeer | internal/proxy/uifilter.go:194-213 | a peer appears only in the turn of a lenient request on its channel that looked up, at two earlier steps, both ends of one of its links and saw exactly the other end in its scope |
| Reachable.PeerSoundness | internal/proxy/uifilter.go:194-214 | in every reachable state every peer of a channel goes back to three turns of one lenient request on it, in order: source looked up, destination looked up, and, one being on record in its scope and the other out of it, the other recorded |
| Reachable.PeersPersist | internal/registry/registry.go:147-159 | peers stay for as long as the channel is tracked |
| Reachable.PeerStaysShown | internal/proxy/uifilter.go:279-285 | on the interleaved machine a lenient request keeps every announcement of a peer it decides while the channel has stayed tracked since the peer was recorded |
| Reachable.TurnOnTrack | internal/proxy/uifilter.go:171-227 | one turn of an undisturbed request is one step of the uninterrupted poll |
| Reachable.Undisturbed | internal/proxy/uifilter.go:165-230 | a request whose channel no other step touches is, at every point, where the uninterrupted poll would be, and ends with exactly its answer and memory |
| Reachable.FinishedLeavesNoDanglingEdge | internal/proxy/uifilter.go:182-227 | on the interleaved machine, an undisturbed lenient request that kept a link kept the last announcement of either end |
| Identity.SplitGroups | internal/identity/identity.go:83-93 | the nested loops read exactly the groups the specification lists |
| Identity.GroupsDistribute | internal/identity/identity.go:83-93 | reading headers distributes over concatenation |
| Identity.RepeatedOrJoined | internal/identity/identity.go:82-93 | repeated headers and their comma-joined form read the same (sections 5.3 and 5.6.1 of RFC 9110) |
| Identity.GroupsWellFormed | internal/identity/identity.go:86-89 | only trimmed, non-empty, comma-free groups are read |
| Identity.GroupsRoundTrip | internal/identity/identity.go:83-93 | reading undoes comma-joining if and only if all groups are trimmed, non-empty and comma-free |
| Identity.PaddedGroupsRead | internal/identity/identity.go:86-89 | a header lists its groups whatever white space surrounds them, and blank ones not at all |
| Strings.TrimsExactly | internal/identity/identity.go:87 | trimming strips all white space around what neither begins nor ends with it, and nothing else |
| Strings.SpacesExactly | internal/identity/identity.go:87 | white space is the White_Space property of Unicode |
| Identity.FromWellFormed | internal/identity/identity.go:70-80 | an identity is refused exactly without user and email, and has the user, email and groups read; from NUL-free headers it is well formed |
| Strings.SplitJoin | internal/authz/rbac/rbac.go:283 | splitting undoes joining on separator-free pieces, so the joined key is unambiguous |
| Strings.SortFacts | internal/authz/rbac/rbac.go:281-282 | sorting orders and permutes |
| Strings.SortedUnique | internal/authz/rbac/rbac.go:281-282 | a collection has one sorted listing |
| Identity.CacheKeyInjective | internal/authz/rbac/rbac.go:277-284 | well-formed identities share a key if and only if user and email are equal and groups equal as multisets |
| Identity.CacheKeyCollides | internal/authz/rbac/rbac.go:280-284 | with an empty group or a NUL in a field different callers share a key |
| Authz.StaticAuthorizer.Reload | internal/authz/authz.go:116-139 | the new mapping, digest and report are the specified function of the old ones and the read |
| Authz.StaticAuthorizer.RunReloader | internal/authz/authz.go:150-190 | the loop holds what the history of reads gives and counts each outcome; a non-positive interval does nothing |
| Authz.StaticAuthorizer.AllowedNamespaces | internal/authz/authz.go:193-232 | unrestricted exactly for admins; otherwise exactly the namespaces some rule lists for the user, email or a group; empty names are no admins |
| Authz.SameCallerSameScope | internal/authz/authz.go:193-220 | callers differing in group order only get the same answer |
| Authz.AdminRule | internal/authz/authz.go:198-205 | a further admin name makes admins of just those whose user, email or group it is; the empty name of nobody |
| Authz.UserRule | internal/authz/authz.go:208-213 | a rule for a user name grants its namespaces to just those whose user or email it is |
| Authz.GroupRule | internal/authz/authz.go:214-218 | a rule for a group grants its namespaces to just its members |
| Authz.MissingNameGrantsExactly | internal/authz/authz.go:207-219 | no caller is granted a namespace for a user or email it lacks if and only if no rule for the empty name grants it |
| Authz.ReloadsKeepLastGood | internal/authz/authz.go:116-190 | after every history with a good start the mapping in force is the parse of the most recent parseable read |
| Authz.LastGoodExactly | internal/authz/authz.go:116-128 | the digest shortcut agrees with always reparsing on all such histories if and only if digests identify mappings |
| Authz.HeldIsLastGood | internal/authz/authz.go:111-139 | with collision-free digests mapping and digest in force are those of the last good content, or the initial ones |
| Authz.ChangedExactly | internal/authz/authz.go:111-139 | a change is reported exactly when parseable content differs from the content in force |
| Authz.ErrorsExactly | internal/authz/authz.go:116-139 | only reads that fail or do not parse are errors; all of them are, in every history, if and only if their digests differ from those of parseable contents and from zero |
| Authz.OutcomesCount | internal/authz/authz.go:162-176 | each outcome is counted as often as reads had it |
| ClusterRbac.LosersAreConcerned | internal/authz/rbac/watch.go:74-159 | any single write that costs an identity access anywhere makes its handler evict that identity |
| ClusterRbac.RevocationExact | internal/authz/rbac/watch.go:310-322 | that holds for all clusters and writes if and only if the identity is not named like a ServiceAccount |
| ClusterRbac.ConcernExact | internal/authz/rbac/watch.go:262-308 | a role event evicts an identity if and only if, in some cluster with these bindings, deleting that role costs it access |
| ClusterRbac.BindingConcernExact | internal/authz/rbac/watch.go:117-158 | a binding event concerns an identity if and only if, in some cluster and for some role, deleting the binding with its old or new subjects costs it access |
| ClusterRbac.CreationsOnlyWiden | internal/authz/rbac/watch.go:80-93 | creating roles or bindings, and any namespace write, takes access from nobody |
| ClusterRbac.SameCallerSameAccess | internal/authz/rbac/rbac.go:277-284 | identities with one cache key have one answer, so they may share an entry |
| ClusterRbac.EmailOnlyWithoutUser | internal/authz/rbac/rbac.go:197-200 | reviews are made for the user, whatever the email, and for the email only without a user |
| ClusterRbac.WideMeansEverywhere | internal/authz/rbac/rbac.go:147-161 | a cluster-wide yes implies every namespace's, so it may stand for them |
| ClusterRbac.BindingReach | internal/authz/rbac/watch.go:256-261 | a role binding reaches its own namespace only; without bindings nothing is granted |
| ScopeCache.StoreFrame | internal/authz/rbac/rbac.go:229-245 | storing keeps the new entry and alters no other it keeps |
| ScopeCache.StoreBounded | internal/authz/rbac/rbac.go:229-245 | the cache never outgrows its bound |
| ScopeCache.StoreSparesLive | internal/authz/rbac/rbac.go:233-243 | a live entry of another caller is dropped only if the cache is then exactly full and holds nothing expired |
| ScopeCache.StoreDropsExpiredExactly | internal/authz/rbac/rbac.go:233-243 | below its bound the cache drops nothing; at it another caller's expired entry always goes |
| ScopeCache.EvictsExactly | internal/authz/rbac/watch.go:74-159 | each handler evicts an entry if and only if its event could leave it beyond truth in some cluster with the informers' bindings, and touches no other |
| ScopeCache.DeletionExactly | internal/authz/rbac/watch.go:351-360 | of namespace events only a deletion evicts, and only restricted entries listing the namespace |
| Authorizer.ResolvesToTruth | internal/authz/rbac/rbac.go:146-195 | against a cluster a resolution succeeds, unrestricted exactly for those who may list everywhere and otherwise with just the namespaces they may list |
| Authorizer.SucceedsOnlyWhole | internal/authz/rbac/rbac.go:155-194 | a resolution succeeds if and only if the wide review and, unless that said yes, the list and every listed review succeed |
| Authorizer.Authorizer.Cached | internal/authz/rbac/rbac.go:218-227 | serves an entry strictly before its expiry and never after |
| Authorizer.Authorizer.EvictExpiredLocked | internal/authz/rbac/rbac.go:247-254 | leaves exactly the unexpired entries |
| Authorizer.Authorizer.Sweep | internal/authz/rbac/rbac.go:257-261 | leaves exactly the unexpired entries |
| Authorizer.Authorizer.Store | internal/authz/rbac/rbac.go:229-245 | a full cache drops expired entries, then arbitrary ones until one more fits; the entry lives for the TTL |
| Authorizer.Authorizer.ReviewEach | internal/authz/rbac/rbac.go:168-194 | under every worker schedule with at most concurrency reviews out: an error if any review failed, else exactly the namespaces answered yes |
| Authorizer.Authorizer.Resolve | internal/authz/rbac/rbac.go:146-195 | the cluster-wide yes wins; any failed call fails the whole |
| Authorizer.Authorizer.AllowedNamespaces | internal/authz/rbac/rbac.go:111-144 | a live entry answers and changes nothing; a success is stored under the caller's key; a failure is not stored |
| Authorizer.Authorizer.InvalidateSubjects | internal/authz/rbac/watch.go:313-345 | evicts exactly the entries a User or Group subject names, and counts them |
| Authorizer.Authorizer.EvictMatched | internal/authz/rbac/watch.go:329-344 | the eviction loop removes exactly the entries whose user or a group was collected |
| Authorizer.Authorizer.InvalidateNamespace | internal/authz/rbac/watch.go:351-360 | evicts exactly the restricted entries listing the namespace, and counts them |
| Authorizer.Authorizer.RoleSubjects | internal/authz/rbac/watch.go:262-274 | collects subjects naming exactly those whom a binding of the role in its own namespace names |
| Authorizer.Authorizer.OnRoleChanged | internal/authz/rbac/watch.go:262-276 | evicts exactly the entries of identities bound to the role in its own namespace |
| Authorizer.Authorizer.ClusterRoleSubjects | internal/authz/rbac/watch.go:283-306 | collects subjects naming exactly those whom any binding of the cluster role names |
| Authorizer.Authorizer.OnClusterRoleChanged | internal/authz/rbac/watch.go:283-308 | evicts exactly the entries of identities bound to the cluster role in any namespace or cluster-wide |
| Authorizer.Authorizer.HandleEvent | internal/authz/rbac/watch.go:74-159 | each kind of event evicts exactly the entries it concerns, given the informers' bindings |
| Authorizer.ReferringSubjects | internal/authz/rbac/watch.go:286-306 | the loop over bindings collects subjects naming exactly those whom a referring binding names |
| Authorizer.MatchIsNaming | internal/authz/rbac/watch.go:314-339 | matching against the collected user and group names is being named by a subject |
| WatchCompleteness.FollowsAgree | internal/authz/rbac/watch.go:62-72 | an informer's copy with no queued edit naming an identity agrees with truth on the bindings that name it |
| WatchCompleteness.WriteKeepsAccess | internal/authz/rbac/watch.go:74-159 | a write leaves every access standing or covered by an undelivered event that concerns its holder |
| WatchCompleteness.HandleKeepsAccess | internal/authz/rbac/watch.go:262-345 | a handler that spares an identity, though its informer copies lag, leaves its access covered by another undelivered event |
| WatchCompleteness.StepKeepsCovered | internal/authz/rbac/watch.go:74-159 | every step of the machine keeps every entry and resolution, if not overtaken, covered |
| WatchCompleteness.WatchMissesNothing | internal/authz/rbac/watch.go:74-159 | in every delivery order a cached scope that exceeds truth has an undelivered event whose handler, as the informers stand, evicts it; with all delivered no cached scope exceeds truth |
| Overtaken.AtomicWatchCompleteness | internal/authz/rbac/rbac.go:124-139 | with resolution and store as one step there is no exception but ServiceAccount names |
| Overtaken.OvertakenExceedsTruth | internal/authz/rbac/rbac.go:133-138 | a resolution overtaken by an invalidation leaves a cached scope beyond truth with every event delivered |
| Singleflight.RunFlights | internal/authz/rbac/rbac.go:120-139 | in every reachable state resolutions are keyed, bounded in reviews, beside no live entry once past the re-check, and complete when resolved |
| Singleflight.RunCache | internal/authz/rbac/rbac.go:218-254 | in every reachable state entries are keyed by their own identity, bounded, accounted for, and expire one TTL after they were stored |
| Singleflight.SingleflightAccounting | internal/authz/rbac/rbac.go:111-144 | successful sweeps of a key are its ended entries plus one if it has an entry; no live entry beside a sweeping resolution; a store replaces no live entry |
| Singleflight.RunCountsSweeps | internal/authz/rbac/rbac.go:124-139 | in every reachable state the sweeps begun for a key are those stored, those failed and the one going on, if any |
| Singleflight.SweepsExactly | internal/authz/rbac/rbac.go:111-144 | sweeps begun = failed + ended entries + (1 if an entry) + (1 if one is going on); one goes on beside an entry only once that has expired |
| Singleflight.ColdCallersCostOneSweep | internal/authz/rbac/rbac.go:120-139 | from a moment without entry or sweep, while no entry of the key ends or expires, any number of callers begin one sweep besides those that fail, and that only if it goes on or has left an entry |
| Singleflight.EntriesOwnedAndBounded | internal/authz/rbac/rbac.go:229-245 | every entry is its own caller's and there are never more than the cap |
| Singleflight.HitsPostdateInvalidation | internal/authz/rbac/watch.go:327-344 | an entry present after an invalidation that matches it was stored after that invalidation |
| Staleness.EntriesAreFullAnswers | internal/authz/rbac/rbac.go:130-195 | every entry is unrestricted, or exactly those of the namespaces once listed that were answered yes; list and answers were all given after its resolution's re-check and by its deadline |
| Staleness.StalenessBound | internal/authz/rbac/rbac.go:130-138 | every cached grant that is live was the API server's answer less than a TTL plus its resolution's time ago |
| Freshness.HandedOutAnswered | internal/authz/rbac/rbac.go:130-143 | every grant a resolution hands to those waiting for it was answered after its re-check and by its deadline |
| Freshness.LateIsStale | internal/authz/rbac/rbac.go:130-138 | for every delay longer than the TTL, a run that stores that late and serves a grant no answer of the last two TTLs supports |
| Freshness.FreshExactly | internal/authz/rbac/rbac.go:111-143 | every run that stores at most d after the re-check serves each caller, by cache key, from the cache or as a waiter, only grants answered for that caller less than two TTLs ago, if and only if d does not exceed the TTL |

## Left out

- A channel's record is a value in the registry's map, replaced by every write, where the program
  mutates it in place.  No reference to it leaves the mutex; aliasing is not modelled.
- FilterServiceMapStream: is proved for a poll that nothing interrupts; `Interleaving` and
  `Reachable.Undisturbed` cover the interrupted ones.
- LruInclusion: needs a strictly increasing clock and nothing idle past the TTL;
  `CapInclusion.TiesToleratedExactly` says which caps need no strictness.
- StrictNoninterference: is about histories in which the channel is not dropped.
- FreshExactly: is about identities without NULs and empty groups, whose keys are unambiguous.
- StalenessBound: bounds by the resolution's own duration, because the code bounds nothing but the
  reviews; `Freshness.FreshExactly` says for which delays two TTLs suffice.
- WatchMissesNothing: excepts overtaken entries and ServiceAccount names, for which it may fail.
- Storing an entry reads the clock twice; the methods model both readings, the concurrent machine one.
- In the machine callers are no steps of their own: a hit is a live entry, and those waiting on a
  resolution get its scope when it is stored.
- Events of one object that an informer coalesces, relists, tombstones, resyncs, the sync timeout and
  the trimming of watched objects.
- The rules of a role: only whether they allow listing pods is kept.  Groups the API server adds to
  an identity on its own.
- Scopes are sets of names: the program's maps hold no false values.
- Strings are sequences of code points; invalid UTF-8 is not modelled.
- `filterBody`, `knownRoute`, `eventKind`: fixed dispatch.  The text of notices, metrics and logs.
- Envelopes, protobuf and JSON, HTTP proxying, the response limit, header names and diagnostics
  (`NewHeaders`, `PresentIn`, `OtherFamilyIn`): encoding and single-branch checks.
- SHA-256 and YAML: a digest and a partial parser are parameters.
- Real clocks, tickers and cancellation of contexts: readings and histories are parameters.
