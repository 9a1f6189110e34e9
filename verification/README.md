# Verified models of the hard core of perfuncted

perfuncted drives Linux desktops: it reads accessibility trees over AT-SPI, locates images on
screen, types through virtual keyboards and talks EI to a compositor. This project models the parts
of it where many steps change one state, or where a fast form must agree with a simple one, and
proves what those parts are for. `dafny verify dfyconfig.toml` checks everything.

## How the models are built

* **Handles, caches and observations of one accessibility backend.** `AtSpi` has identities, handles,
  cached items and decoded signals; `HandleEpochs` says which handles an epoch accepts; `Revocation`
  is the walk over recorded ancestry; `CacheValidation`, `ChildIndex` and `CacheTables` are the item
  list check, the sorted index and the tables behind it; `Observation` is the bounded signal history,
  its relevance rules and what they say about a provider's tree; `Backend` is the state machine. The
  fields that the backend's lock guards form one record, and a method is one locked section or a
  helper called inside one. Beside the record stands an account of what the proofs remember: signals
  that fell out of the history, ancestry as told without any cap, and when each snapshot was published.
* **Snapshots.** `Walk` is the depth-first walk. What a provider answers in one walk is any function of
  the handle, since no handle is read or asked twice, and a snapshot is held against those answers.
  `Delivery` follows a snapshot from the walk over the response limit to its reader, while signals
  come in. A provider's tree is a map from objects to what the provider says of them, and a signal
  announces how it changes. The walk is not atomic: a node need only be true at some moment of it.
* **Response budget.** `Utf8` and `Json` are decoding, escaping and lengths; `Snapshots` has the
  nodes; `Estimates` has the size formulas beside the JSON texts they estimate; `Pruning` defines what
  keeping a prefix of the nodes means from scratch; `Budget` has the algorithms. `Ancestors` is the
  ordered ancestor match.
* **Ownership and events.** `Owner` (leases and retirement of backend generations) and `Dispatcher`
  (one physical event stream, many subscribers) are written as atomic steps, so that a sequence of
  steps is an interleaving of threads; the class methods beside them are those steps.
* **Virtual keyboard.** `KeyModel` has the simulator and the executor's books, `KeySlots` the slot
  allocation, `Keyboard` the connection and the keyboard itself. XKB text is a map from slot to symbol.
* **Location, coordinates, framing.** `Locate`, `Coordinates` and `Framing`. Coordinates carry Go's
  64-bit types and their wrap-around.

`Basics` holds the types all of them share. A `hide` statement in a proof only keeps definitions away
from the solver that the proof does not need.

## What turned out not to hold

* A batch accepted by the keyboard's pre-flight check can still leave different books than the check
  predicted: holding a modifier key while borrowing the same modifier ends with it released.
  `KeyModel.ExecutorFollowsSimulator` gives the exact condition, `KeyModel.BorrowedModifierIsDropped` an input.
* Tapping an unnamed multi-character key such as `{ab}` while `a` is held releases the held key's
  slot. `KeyModel.HeldKeysSurvive` gives the exact condition, `KeyModel.LongTapReleasesHeldKey` an input.
* `boundSnapshotResponse`, taken by itself, can return a response over its limit by two bytes for
  every empty but present list (node list or relation targets), which cloning turns into `null`.
  `Budget.BoundSnapshotResponse` states both halves: within every limit without such lists, over
  the limit at the snapshot's own size with them. `Budget.HollowIsOverLimit` is such an input. Its one
  production caller (accessibility/snapshot.go:103) never supplies one: a walk that ends well has a
  node, and relation targets are only appended (`Walk.ReadRelations`), so that
  `Walk.WalkedHasNoEmptyLists` applies and the limit holds.
* `jsonStringSize` counts three bytes for a byte that is not UTF-8; the encoder writes six.
  `Json.SizeIsExactForUtf8` shows that the size is exact for valid UTF-8 only, `Json.OneBadByte` an input.
* A snapshot can keep a child count that is out of date although no signal raised a conflict: where the
  walk left a child out (for its depth, node or visibility limits, or a skipped role) and that child
  goes or comes. `Observation.UnvisitedChildGoes` is such an input, with the child on another bus than
  the root and its parent not cached, `Observation.UnvisitedWindowCloses` one on the root's own bus. All
  else that a snapshot shows stays true: `Observation.PassedSignalLeavesSnapshot` states that for every signal
  that passes, with the exact condition for the counts, and `Observation.WholeSnapshotKeepsCounts`,
  `Observation.KnownRemovalKeepsCounts` and `Observation.OtherSignalsKeepCounts` name the cases where they stay right.
* The relevance rule, taken by itself, needs snapshots that list observed children only: else a removal
  can pass and leave the snapshot showing what is gone (`Observation.UnobservedListedPasses`). No snapshot is
  like that. The walk lists a child only after visiting it, and bounding only takes away
  (`Walk.TakeSnapshot`, `Budget.ResponseIsPart`, `Delivery.ObservedThroughout`), so that
  `Delivery.ResponseStaysTrue` holds from the walk to the reader.
* `revokeObjectLocked`, taken by itself, can leave the incarnation table one entry over its cap: it
  looks a surviving parent up between its capacity check and moving the removed objects on, and moving
  on does not ask for room. `Backend.RoomExactly` says exactly when, `Backend.DbusBackend.RevokeCrowded`
  carries the stages out on such tables. No run reaches any: a parent is looked up only for a root that
  has a recorded parent, and such a root and all its descendants have entries already
  (`Backend.RoomKept`), so that `Backend.CapHolds` states the cap for every moment of every run. What a
  full table does cost is precision. An object looked up in vain raises `parentTrackingIncomplete`,
  within a removal exactly when the surviving parent had no entry and the table no room
  (`Backend.DbusBackend.RevokeObject`), and then the next removal ends the epoch with all its handles
  (`Backend.DbusBackend.RevokeOrInvalidate`).

## Model

| member | source | states |
|---|---|---|
| HandleEpochs.RevocationIsPermanent | accessibility/backend_dbus.go:269-282 | a handle issued by some moment and rejected later is rejected at every moment after that, for every history of locked sections |
| HandleEpochs.RejectedStaysRejected | accessibility/backend_dbus.go:276-282 | whenever generation and incarnations only advance, a handle not ahead of the epoch stays rejected |
| HandleEpochs.AdvancesTransitive | accessibility/backend_dbus.go:202-230 | advancing (lexicographically by generation and incarnation, never back to life) composes |
| HandleEpochs.RunAdvances | accessibility/backend_dbus.go:202-230 | any two moments of a history are related by advancing |
| Backend.DbusBackend.Run | accessibility/events.go:657-697 | every sequence of locked sections of every kind keeps the invariant, both tables within their cap included, and is traced moment by moment; the epochs are an advancing history |
| Backend.DbusBackend.Take | accessibility/events.go:634-697 | each locked section keeps the invariant, advances the epoch and, for a signal, does what that signal does |
| Backend.TraceHistory | accessibility/events.go:634-697 | the epochs along any trace of locked sections are an advancing history |
| Backend.RemovalMeans | accessibility/events.go:699-759 | which signals take handles and whose: an own well-formed reference to what was removed, the sender of a window's destruction or of its own end; everything exactly if a removal cannot be followed |
| Backend.NamedIsGoneForGood | accessibility/events.go:699-759 | over every run: once a signal has named an object as gone, no handle issued up to then for it or for a descendant under the ancestry told up to then is accepted at any later moment |
| Backend.UnnamedEndsEverything | accessibility/events.go:717-767 | over every run: after a removal that is malformed, another sender's or without a sender no handle issued up to then is ever accepted again |
| Backend.OtherSignalsKeepHandles | accessibility/events.go:699-749 | any other signal leaves every handle accepted exactly if it was |
| Backend.RemovedForGood | accessibility/events.go:699-767 | the common form of the two by what `Removal` says of the signal |
| Backend.RemovalSparesOthers | accessibility/events.go:699-767 | at every removal of every run, a handle accepted before is accepted after exactly if it is not for the object named or a recorded descendant, no ancestry was dropped and the tables had room after the lookup of the signal's object |
| Backend.CapHolds | accessibility/backend_dbus.go:202-230 | at every moment of every run both tables are within their cap; whatever has a recorded parent or a cache entry has a table entry, or a full table is on record and no removal stays targeted |
| Backend.DbusBackend.IncarnationOf | accessibility/backend_dbus.go:218-230 | looking an object up changes no incarnation; it gets an entry exactly if there is room, else the full table is remembered as incomplete |
| Backend.DbusBackend.NodeIDOf | accessibility/backend_dbus.go:232-235 | a handle handed out is not ahead of the epoch and is accepted while the backend lives |
| Backend.DbusBackend.IssueHandle | accessibility/backend_dbus.go:232-235 | the same at a lock boundary |
| Backend.DbusBackend.Invalidate | accessibility/backend_dbus.go:202-216 | a new generation with empty tables, caches and index; the signal history stays |
| Backend.DbusBackend.InvalidateAllHandles | accessibility/events.go:761-767 | a new generation with nothing on record, all else unchanged |
| Backend.DbusBackend.MarkDisconnected | accessibility/lifecycle.go:35-53 | the first disconnect ends the epoch for good and empties all caches; later ones do nothing |
| Backend.DbusBackend.Close | accessibility/backend_dbus.go:435-465 | closing ends the epoch for good, once |
| Backend.DbusBackend.RecordParent | accessibility/backend_dbus.go:250-267 | latest observation wins; the table is the ancestry told unless it was full, and then it is marked incomplete |
| Backend.DbusBackend.RecordObjectParent | accessibility/backend_dbus.go:237-248 | ancestry is recorded only between two handles that are both current |
| Revocation.RemovedTree | accessibility/backend_dbus.go:319-349 | the breadth-first walk returns exactly the object and its recorded same-bus descendants |
| Revocation.ChildLists | accessibility/backend_dbus.go:320-336 | the adjacency lists are exactly the observed edges and, for objects without one, the cached edges |
| Revocation.ObservedLists | accessibility/backend_dbus.go:320-326 | the observed part of the adjacency is exactly the observed same-bus edges |
| Revocation.ClosedHoldsPath | accessibility/backend_dbus.go:337-348 | a set closed under recorded edges holds every path that starts in it |
| Revocation.SameBus | accessibility/backend_dbus.go:319-349 | a recorded descendant is on the removed object's bus |
| Revocation.WalkEnds | accessibility/backend_dbus.go:337-348 | when the queue is exhausted the set is exactly the descendants |
| Backend.DbusBackend.RevokeObject | accessibility/backend_dbus.go:289-317 | succeeds exactly when the root is valid, no ancestry was dropped and the tables have room; then the tree and only the tree moves on, the item table, completeness and new table entries are given exactly, and the full table is remembered exactly when the one surviving parent had no entry and there was no room; else nothing changes |
| Backend.RevocationDone | accessibility/backend_dbus.go:289-317 | the stages of a revocation compose: incarnations, tables and child counts |
| Backend.RevokedCore | accessibility/backend_dbus.go:289-317 | the stages of a revocation keep the invariant |
| Backend.NothingHangsThere | accessibility/backend_dbus.go:289-376 | after a removal no observed or cached parent on record is a removed object |
| CacheTables.DroppedExactly | accessibility/backend_dbus.go:351-404 | an application is dropped exactly if one of its objects was observed or cached right under a removed object of another bus, or cache and observation disagree about one |
| Backend.RoomKept | accessibility/backend_dbus.go:289-317 | the capacity check before is enough: a parent is looked up on the way only if the root has an entry, and then the whole tree has |
| Backend.RoomExactly | accessibility/backend_dbus.go:289-317 | taken by itself the capacity check is enough exactly when moving on needs no new entry, or the parent looked up on the way needs none or leaves room; never is the table more than one over |
| Backend.CrowdedOut | accessibility/backend_dbus.go:289-317 | the stages of a removal on one such set of tables, which no run reaches: the parent is looked up, the table ends one over its cap and is remembered as full |
| Backend.CrowdedStart | accessibility/backend_dbus.go:289-317 | on these tables the capacity check passes and the removal is targeted, though the root has no entry |
| Backend.CrowdedTree | accessibility/backend_dbus.go:319-349 | the tree removed there is the root alone |
| Backend.DbusBackend.RevokeCrowded | accessibility/backend_dbus.go:289-317 | running the stages themselves on these tables leaves the table one over its cap |
| Backend.TreeRooted | accessibility/backend_dbus.go:319-349 | every object of a removed tree but its root has its recorded parent in the tree |
| Backend.CountedFromDetached | accessibility/backend_dbus.go:351-376 | dropping caches under removed objects first and contradicted ones after is the same as both at once |
| Backend.RemovalReachesSubtree | accessibility/events.go:751-767 | after a subtree removal every earlier handle under the latest ancestry told is rejected even if records were dropped; a targeted removal leaves the rest; a dropped record ends the epoch |
| Backend.DbusBackend.DetachForeign | accessibility/backend_dbus.go:351-376 | exactly the foreign children of removed objects lose their parent, and exactly their applications lose their cache |
| Backend.DetachKeeps | accessibility/backend_dbus.go:351-376 | detaching leaves everything about the removed tree's bus alone |
| CacheTables.LinkChildren | accessibility/backend_dbus.go:388-404 | each child gets its observed parent, else its cached one; exactly the applications whose cache contradicts observation are dropped |
| CacheTables.CountLosses | accessibility/backend_dbus.go:405-413 | each surviving parent is counted exactly its removed children |
| CacheTables.SeveredAreLost | accessibility/backend_dbus.go:388-413 | where no application was dropped the counted children are the removed objects recorded under the parent |
| CacheTables.OneLoss | accessibility/backend_dbus.go:405-413 | at most one surviving parent loses a child to a removal, the one the root is linked to, and it loses one |
| CacheTables.RootLinked | accessibility/backend_dbus.go:388-404 | the root is linked to its recorded parent unless its own application was dropped on the way |
| Backend.DbusBackend.ApplyLosses | accessibility/backend_dbus.go:414-418 | each parent's count goes down by its losses wherever the application stays complete; with a single loss exactly that count moves |
| Backend.DbusBackend.AdjustForRevocation | accessibility/backend_dbus.go:388-419 | exactly the contradicted applications lose their cache and one surviving parent, on whatever bus, one child; if the removed tree's application stays complete, every other item of it has lost exactly its removed children |
| Backend.DbusBackend.AdjustChildCount | accessibility/cache.go:377-396 | one count moves within int32, or the item and the completeness of its application go; the parent is looked up exactly if its application is complete |
| Backend.DbusBackend.InvalidateApplication | accessibility/backend_dbus.go:421-433 | one application loses its items and completeness, and index and snapshots go |
| Backend.DbusBackend.MoveOn | accessibility/backend_dbus.go:303-307 | every removed object is exactly one incarnation further and has no recorded parent; the table grows by exactly the objects without an entry, and a full table is remembered exactly when one of them met it |
| Backend.DbusBackend.RevokeOrInvalidate | accessibility/events.go:751-759 | a removal stays targeted exactly when ancestry is complete and the tables have room; else the epoch ends |
| Backend.DbusBackend.TransitionHandles | accessibility/events.go:699-749 | each signal kind has its effect on handles: none, one tree, or the epoch |
| Backend.DbusBackend.PrepareEventTransition | accessibility/events.go:657-697 | one signal is one history entry and one revision, empties snapshots and index, moves handles as its kind says and updates or drops the cached items; a removal stays targeted exactly when ancestry is complete and the tables have room once the signal's object has been looked up; after it the items left are without the tree and counted right; a dead backend is untouched |
| Backend.DbusBackend.FollowCache | accessibility/events.go:679-694 | after the handles, an addition is worked in, a removal takes its object off, malformed or foreign cache signals and all other signals drop the items |
| Backend.DbusBackend.Rekey | accessibility/events.go:680-687 | giving items the handles of the epoch changes no entry |
| Backend.DbusBackend.ApplyCacheSignal | accessibility/cache.go:312-334 | additions and removals are applied; malformed or foreign ones empty the cache |
| Backend.DbusBackend.ApplyAdd | accessibility/cache.go:336-362 | an added item replaces the old one, child counts follow its parent, and its parent becomes the latest ancestry |
| Backend.AddKeepsDrift | accessibility/cache.go:346-360 | adding an item keeps every other complete count of its application as far from the number of cached children as before |
| Observation.FloorIsExact | accessibility/snapshot.go:204-206 | a reader is refused for lost history exactly when a signal after its start has been forgotten |
| Observation.Record | accessibility/events.go:843-848 | the newest 8192 signals are kept in order and the floor is the newest forgotten revision |
| Observation.AscendingOrder | accessibility/events.go:672-674 | revisions in the history ascend |
| Observation.OtherPasses | accessibility/snapshot.go:226-244 | a signal that adds and removes nothing passes exactly if its object was not observed and it is no window opening under the registry or on the bus of an application's root |
| Observation.ObservedAdditionPasses | accessibility/snapshot.go:246-317 | an addition that touches what was observed passes exactly if the tree was reread and shows it under its parent, listed there, with the content told |
| Observation.UnobservedAdditionPasses | accessibility/snapshot.go:246-258 | an addition that touches nothing observed passes exactly if it is on another bus than the root, which is not the registry's |
| Observation.RemovalPasses | accessibility/snapshot.go:319-327 | a removal passes exactly if neither the object nor the parent known or telling was observed, and with the parent unknown only from another bus than the root's |
| Observation.MalformedRefused | accessibility/snapshot.go:226-230 | a signal that is absent, malformed, another sender's or without an object is refused |
| Observation.ObservedExactly | accessibility/snapshot.go:207-213 | exactly the snapshot's nodes are observed, its root in any case |
| Observation.PassedSignalLeavesSnapshot | accessibility/snapshot.go:226-327 | a snapshot that lists observed children only and showed the provider's tree still shows it after any signal that raises no conflict, and no observed child is missing; its child counts are right exactly if no observed object has had or got the signal's object as a child it did not have before or after |
| Observation.PassedSignalsLeaveSnapshot | accessibility/snapshot.go:200-224 | the same after every list of signals that pass |
| Observation.ReadNodeByNode | accessibility/snapshot.go:200-224 | a snapshot whose nodes were each true when read, at whatever different moments, is true of the tree as a whole after the last signal if none raises a conflict |
| Observation.NodeStays | accessibility/snapshot.go:226-327 | a node once read stays true over a signal that passes, whenever the other nodes are read |
| Observation.NoChildMissed | accessibility/snapshot.go:226-327 | a snapshot that left no child out leaves none out after a signal that passes, windows included, and its counts stay right |
| Observation.WholeSnapshotStaysWhole | accessibility/snapshot.go:200-224 | the same after every list of signals that pass: every child of every node and the right counts |
| Observation.WholeSnapshotKeepsCounts | accessibility/snapshot.go:226-327 | child counts stay right in a snapshot that left no child out, unless a window opens in it |
| Observation.KnownRemovalKeepsCounts | accessibility/snapshot.go:319-327 | child counts stay right in any snapshot when the cache places the removed object under its true parent |
| Observation.OtherSignalsKeepCounts | accessibility/snapshot.go:226-244 | child counts stay right when a parent tells of the removal itself, when a window opens in something unobserved, and after signals that move nothing |
| Observation.UnvisitedChildGoes | accessibility/snapshot.go:319-327 | an input where a passing removal leaves a child count out of date: the only child, on another bus, was not visited and its parent is not cached |
| Observation.UnvisitedWindowCloses | accessibility/snapshot.go:226-244 | another such input on the bus of the root: a window that was left out is destroyed |
| Observation.UnobservedListedPasses | accessibility/snapshot.go:319-327 | an input of the rule taken by itself: the same removal passes for a node that lists the unobserved child, and then the snapshot shows what is gone |
| Observation.OwnAreObserved | accessibility/snapshot.go:207-213 | a snapshot whose nodes list nothing but its own nodes lists observed objects only |
| Delivery.ObservedThroughout | accessibility/snapshot.go:73-107 | what the walk hands over, and any response made of it under any limit, lists observed objects only |
| Delivery.WalkStaysTrue | accessibility/snapshot.go:73-102 | a snapshot walked while signals come in, none of which raises a conflict, agrees node by node with the tree as it is after the last of them |
| Delivery.ResponseStaysTrue | accessibility/snapshot.go:73-182 | from the walk over the response limit to the reader: while the signals checked against the walked snapshot and then against the response all pass, the response shows the tree as it is after the last |
| Backend.DbusBackend.RecordObservation | accessibility/events.go:810-873 | the signal is appended with the identities its kind names and the parent the cache knows; the tables are those after looking up the object of an own cache removal, else unchanged |
| Backend.DbusBackend.ObservationChanged | accessibility/snapshot.go:200-224 | reports a change exactly if some signal since the read began is forgotten or conflicts |
| Backend.DbusBackend.PublishSnapshot | accessibility/snapshot.go:169-189 | publishes exactly if the backend lives, generation and root are current and every signal since is remembered and harmless; else nothing changes |
| Backend.ConflictIsNotMissed | accessibility/snapshot.go:169-224 | over every run: a signal after a read began whose change conflicts with what was read stands against its publication for good |
| Backend.OpeningWindowIsNotMissed | accessibility/snapshot.go:169-244 | over every run: when a window has opened while a snapshot of the registry or of its application was being read, handing that snapshot in changes nothing, however much later |
| Backend.RemovalBelowIsNotMissed | accessibility/events.go:850-873 | over every run: when an object has been removed that the cache had under an observed parent, handing the snapshot in changes nothing, however much later |
| Backend.SignalsStay | accessibility/events.go:810-848 | no locked section loses a signal from the account of signals |
| Backend.DbusBackend.ServeSnapshot | accessibility/snapshot.go:54-63 | a snapshot served from the cache has had no signal since its publication |
| Backend.LogOrder | accessibility/events.go:657-697 | no signal has a revision above the current one |
| CacheValidation.ValidateLoadedItems | accessibility/cache.go:236-273 | accepts exactly the lists of own, distinct objects without a parent cycle; then every parent chain leaves the list within its length |
| CacheValidation.CheckCycles | accessibility/cache.go:250-271 | with vetted entries shared between starts, accepts exactly the acyclic parent maps |
| CacheValidation.WalkUp | accessibility/cache.go:257-269 | one walk finds a cycle or vets entries that all leave the map |
| CacheValidation.CollectParents | accessibility/cache.go:237-246 | the identity checks accept exactly own entries about distinct objects |
| CacheValidation.RoundsNeverLeave | accessibility/cache.go:247-271 | nothing on a round of parent links ever leaves the map |
| CacheValidation.LeavesInTime | accessibility/cache.go:247-271 | if every chain leaves, each leaves within as many steps as there are entries |
| CacheValidation.TrailLeaves | accessibility/cache.go:257-269 | if a trail's end leaves the map, all of it does |
| ChildIndex.BuildIndex | accessibility/cache.go:151-182 | the index gives every parent its cached children, each once, sorted by index and path |
| ChildIndex.SortKids | accessibility/cache.go:165-180 | one parent's children are a sorted permutation |
| ChildIndex.DictionaryOrder | accessibility/cache.go:165-180 | paths are ordered as in a dictionary: a beginning first, else by the first byte that differs |
| ChildIndex.GroupByParent | accessibility/cache.go:156-164 | items of the generation are grouped exactly by the parent they name |
| Backend.DbusBackend.CachedChildren | accessibility/cache.go:108-145 | answers exactly for current handles of complete applications with cached children, and with the unindexed answer |
| Backend.DbusBackend.CachedItem | accessibility/cache.go:398-417 | only a current handle finds its object's item, however it spells the first incarnation |
| Backend.DbusBackend.PublishLoadedCache | accessibility/cache.go:217-234 | unsound lists are rejected, stale ones refused, overtaken ones ignored; else the list replaces what was cached |
| Backend.DbusBackend.ReplaceCompleteCache | accessibility/cache.go:275-301 | items and ancestry of the application are exactly those of the list, all else stays |
| CacheTables.LoadedContent | accessibility/cache.go:289-295 | an entry is cached under the handle of its object exactly if that handle is valid |
| AtSpi.ParentOrNone | accessibility/events.go:976-981 | a parent reference names itself, unless it is the null reference, and then no object |
| AtSpi.PlainExactly | accessibility/events.go:965-967 | object paths are the root's path and the paths of non-empty names of letters, digits and underscores, and nothing else |
| Json.MeasureString | accessibility/snapshot.go:1169-1208 | the measured size is the length of the escaped string, short of three per bad byte |
| Json.SizeIsExactForUtf8 | accessibility/snapshot.go:1158-1208 | size and escaped length agree exactly for valid UTF-8 |
| Json.EncodingIsUndone | accessibility/snapshot.go:1158-1208 | whoever reads an escaped string back by RFC 8259 gets the string, if it is valid UTF-8 |
| Json.EncodingIsSafe | accessibility/snapshot.go:1158-1208 | an escaped string has no control characters, angle brackets or ampersands |
| Json.OneBadByte | accessibility/snapshot.go:1158-1208 | an input with the wrong size: the single byte 0xFF counts five bytes and is written in eight |
| Utf8.Truncate | accessibility/snapshot.go:1218-1230 | the longest valid prefix within the limit, if the string exceeds it |
| Utf8.ValidIsEncoded | accessibility/snapshot.go:1218-1230 | valid text is the encoding of some Unicode scalar values |
| Utf8.EncodedIsValid | accessibility/snapshot.go:1218-1230 | the encoding of any scalar values is valid text |
| Utf8.LongestIsNear | accessibility/snapshot.go:1218-1230 | cutting valid text loses at most three bytes more than the limit asks for |
| Estimates.NodeFits | accessibility/snapshot.go:842-924 | a node's estimate is the length of its JSON text plus an explicit slack: a byte per handle with an incarnation, per action and per switch that is on, and the surplus of the info objects |
| Estimates.SnapshotFits | accessibility/snapshot.go:930-974 | a snapshot's estimate is the length of its JSON text plus the slacks of its nodes and a byte if it is truncated |
| Estimates.IdFits | accessibility/snapshot.go:976-986 | an identity's estimate is the length of its JSON text, and a byte more with an incarnation |
| Estimates.RelationsFit | accessibility/snapshot.go:1025-1042 | a relation map's estimate is the length of its JSON text plus the slack of its targets |
| Estimates.ActionsFit | accessibility/snapshot.go:999-1008 | an action list's estimate is the length of its JSON text and a byte per action |
| Estimates.InfoFits | accessibility/snapshot.go:1044-1086 | value, selection, table and document infos are estimated at the length of their texts plus exact surpluses, 32 bytes for each number among them |
| Pruning.PrefixClosed | accessibility/snapshot.go:771-801 | every child and relation target left in a prefix is a retained node, and its root is its first node |
| Pruning.PrefixKeeps | accessibility/snapshot.go:771-801 | a node in a prefix keeps its content, all children among the retained nodes and of each relation all targets among them |
| Pruning.PrefixMonotone | accessibility/snapshot.go:513-553 | longer prefixes are not smaller |
| Pruning.PrunedGrows | accessibility/snapshot.go:699-728 | a node pruned to more identities is not smaller |
| Pruning.BareIsSmallest | accessibility/snapshot.go:571-588 | no node is smaller than a bare one of the same identity |
| Budget.NodeSizes | accessibility/snapshot.go:461-469 | the sizes of the nodes |
| Budget.PrefixSums | accessibility/snapshot.go:506-511 | running sums of the sizes |
| Budget.MeasureKept | accessibility/snapshot.go:700-712 | size and number of the retained identities |
| Budget.MeasureKeptRelations | accessibility/snapshot.go:730-758 | size and number of the relations that keep a target |
| Budget.SizeAfterPruning | accessibility/snapshot.go:699-728 | the adjusted size is the size of the pruned node from scratch |
| Budget.SizeForPrefix | accessibility/snapshot.go:683-697 | the corrected running sum is the size of the pruned prefix from scratch |
| Budget.MaximumPotentialPrefix | accessibility/snapshot.go:571-588 | no prefix above the returned bound fits |
| Budget.ProjectPrefix | accessibility/snapshot.go:513-553 | returns the longest prefix whose pruned size fits, the empty one if none does |
| Budget.PruneNode | accessibility/snapshot.go:771-801 | pruning a node loop by loop gives the pruned node as defined |
| Budget.SizeFromIndex | accessibility/snapshot.go:471-476 | the size from node sizes and running sums is the size from scratch |
| Budget.KeepPrefix | accessibility/snapshot.go:536-551 | cloning and pruning in place gives the prefix as defined from scratch |
| Budget.CloneSize | accessibility/snapshot.go:478-486 | a clone is larger by two bytes for every empty list |
| Budget.BoundNode | accessibility/snapshot.go:803-836 | the node after the first step of the fixed order that makes it fit, or after the last one: no more is given up than it takes |
| Budget.BoundedOnce | accessibility/snapshot.go:803-836 | a node is bounded in one way; one that fits stays whole, any other was too big one step before |
| Budget.StepsInOrder | accessibility/snapshot.go:805-834 | however many steps are taken, each field is as it was or emptied after all fields before it, and of the text a valid prefix stays |
| Budget.BoundNodes | accessibility/snapshot.go:488-504 | exactly the oversized nodes are bounded, each as far as it takes, and their sizes redone |
| Budget.BoundSnapshotResponse | accessibility/snapshot.go:426-459 | whole if it fits, else the longest prefix of the bounded nodes, else the least response or the error; within every limit exactly without empty lists |
| Budget.TextWithinLimit | accessibility/snapshot.go:426-459 | the JSON text of any response to a snapshot of valid UTF-8 without empty lists is within the limit |
| Budget.WholeExactly | accessibility/snapshot.go:426-459 | a response to valid text without empty lists is the snapshot itself exactly if no limit is set or the JSON text leaves the slack of the estimate |
| Budget.CloneIsSame | accessibility/snapshot.go:478-486 | a clone of a snapshot without empty lists is the snapshot |
| Budget.TextIsHalved | accessibility/snapshot.go:803-811 | a step on text leaves a valid prefix of at most half, short of that by three bytes at most, and changes nothing else but the remark |
| Budget.LeastIsLeast | accessibility/snapshot.go:555-569 | the least response is no larger than any prefix |
| Budget.ReasonOnce | accessibility/snapshot.go:1232-1239 | a reason comes in once, behind the others |
| Budget.ResponseUtf8 | accessibility/snapshot.go:426-459 | bounding, pruning and cloning leave valid text valid |
| Budget.HollowIsOverLimit | accessibility/snapshot.go:436-440 | one snapshot and limit whose response is two bytes over |
| Walk.ReadRelations | accessibility/node.go:319-342 | a relation has an entry exactly if the provider gave it a target, with exactly those targets in order, so no list is empty |
| Walk.WalkedHasNoEmptyLists | accessibility/snapshot.go:66-103 | a snapshot as the walk leaves it has no empty lists |
| Walk.TakeSnapshot | accessibility/snapshot.go:66-95 | there is a snapshot exactly if the root was visited to the end and no new epoch was met, and else a cause: cancelled, a new epoch, an unreadable root or no node allowed; it is one tree, every node once, after its parent, with exactly its children listed, and accounts for all that the provider gave |
| Walk.NothingMissed | accessibility/snapshot.go:1307-1421 | whatever the provider gives as a child of a node is a node, unless the role is to be skipped, the depth or the node limit was reached, or the child cannot be read or, under the visibility filter, seen; each cut is on record |
| Walk.NothingMadeUp | accessibility/snapshot.go:1307-1421 | every node is what was read under its handle, is no deeper than allowed and may be seen, and all but the root are given by the provider for their parent, which is above the limit and not of a role to be skipped |
| Walk.UnabridgedIsWhole | accessibility/snapshot.go:1307-1421 | a snapshot with no reason, no failure and no filter holds everything that can be reached from the root by the references given |
| Walk.LimitReached | accessibility/snapshot.go:1311-1318 | a limit is on record only if it was reached |
| Walk.SnapshotWalker.Walk | accessibility/snapshot.go:1307-1361 | unless it is cancelled or the epoch is over, a visit adds one whole branch below its parent with everything below accounted for, or nothing, and then the handle is unreadable or a limit is on record |
| Walk.SnapshotWalker.Expand | accessibility/snapshot.go:1345-1361 | a node read is found with the whole branch below it, its references followed exactly if it has children and its role is not to be skipped, unless the walk ends |
| Walk.SnapshotWalker.WalkChildren | accessibility/snapshot.go:1373-1421 | unless cut off, the children listed are the roots of the branches added, in order; every reference given was tried or is cut off by a limit on record, a failed answer and a wrong number are on record |
| Walk.SnapshotWalker.WalkRefs | accessibility/snapshot.go:1395-1420 | the loop over the references tries each of them until a limit is reached |
| Walk.SnapshotWalker.WalkChild | accessibility/snapshot.go:1395-1418 | what the visit of one child adds are branches whose roots are the child listed; a child not tried is cut off by a limit on record |
| Walk.SnapshotWalker.ReadNode | accessibility/node.go:20-104 | a node is read exactly if the caller has not cancelled, the handle is valid and the provider answers; it is what was answered, with the handle and parent asked for, no children yet, a count that is not negative and the relations of the relation set |
| Walk.Plant | accessibility/snapshot.go:1349-1361 | a node whose children are the roots of the branches below it makes one branch with them |
| Walk.Join | accessibility/snapshot.go:1395-1418 | two branches side by side without common handles are branches again, with the roots of both |
| Walk.WalkedListsOwn | accessibility/snapshot.go:1416-1418 | every child listed in a walked snapshot is a node of the snapshot |
| Budget.ResponseIsPart | accessibility/snapshot.go:426-459 | whatever is given up for the limit, a response shows nothing but parts of the snapshot's nodes, each with its own place, role and count or its identity alone, and lists only what it shows if the snapshot did |
| Ancestors.MatchesAncestors | accessibility/snapshot.go:1656-1690 | the greedy walk succeeds exactly if some increasing choice of ancestors meets the constraints in order |
| Ancestors.FindNext | accessibility/snapshot.go:1668-1688 | one constraint: taking the next ancestor that meets it loses nothing, and the cutoff never stops the walk early |
| Ancestors.Take | accessibility/snapshot.go:1678-1682 | an ancestor that meets the next constraint may as well be taken for it |
| Ancestors.Skip | accessibility/snapshot.go:1683 | an ancestor that fails the next constraint can be skipped |
| Ancestors.ChainRepeatsNobody | accessibility/snapshot.go:1661-1677 | the chain follows parent links, repeats nobody and leaves out the node itself |
| Owner.RunSound | accessibility_owner.go:91-171 | every interleaving of the owner's sections keeps the invariant |
| Owner.StepKeeps | accessibility_owner.go:91-327 | each section keeps the invariant |
| Owner.ClosedOnceWhenUnused | accessibility_owner.go:160-281 | in every reachable state a backend is closed at most once and only when retired without leases; retired without leases means closing has begun; the un-retired generation is the current one; active counts the leases |
| Owner.LeasesOnlyOnCurrent | accessibility_owner.go:115-139 | a lease is only granted on the current, un-retired generation of an open owner |
| Owner.ClosedOwnsNoMore | accessibility_owner.go:283-311 | once closed the owner takes on no generation, whatever steps follow |
| Owner.AllClosedOnReturn | accessibility_owner.go:316-326 | when Close returns every backend ever owned has been closed |
| Owner.CloseIsNeverStuck | accessibility_owner.go:312-320 | once all leases are back and all closers have run, Close can return |
| Owner.CloseDecidesNothing | accessibility_owner.go:304-310 | the extra hold keeps Close itself from taking a closing upon it |
| Owner.BackendOwner.Install | accessibility_owner.go:91-113 | a backend is taken on exactly when the owner is open and has none, as a fresh generation; any other is to be closed at once |
| Owner.BackendOwner.Acquire | accessibility_owner.go:115-126 | a fresh lease on the current generation, exactly when there is one and the owner is open |
| Owner.BackendOwner.AcquireFor | accessibility_owner.go:128-139 | the same, only while the asked generation is current |
| Owner.BackendOwner.Release | accessibility_owner.go:151-171 | the release that has to close is exactly the last one on a retired generation; a second release does nothing |
| Owner.BackendOwner.RetireLocked | accessibility_owner.go:258-270 | retires once and tells whether the caller has to close |
| Owner.BackendOwner.CallBackendClose | accessibility_owner.go:272-273 | the backend's Close is called for the first time and without leases |
| Owner.BackendOwner.FinishBackendClose | accessibility_owner.go:274-281 | the generation is forgotten after its Close |
| Owner.BackendOwner.HoldAndRetire | accessibility_owner.go:303-310 | every generation not yet closing is held and retired |
| Owner.BackendOwner.Close | accessibility_owner.go:283-312 | the locked part of Close |
| Owner.BackendOwner.CloseReturn | accessibility_owner.go:317-326 | Close returns only when all generations are done |
| Owner.BackendOwner.Publish | accessibility_owner.go:921-948 | refused for a closed session, then for a closed owner or a generation no longer current; else the fresh backend replaces the lease's generation, and the held lease keeps the old one from being closed here |
| Owner.BackendOwner.Abandon | accessibility_owner.go:896-919 | the generation stops being current and is retired; the held lease keeps it from being closed here |
| Dispatcher.RunKeeps | accessibility/events.go:97-163 | every interleaving of the dispatcher's sections keeps the invariant |
| Dispatcher.StepKeeps | accessibility/events.go:345-462 | each section keeps the invariant |
| Dispatcher.OneDispatcher | accessibility/events.go:345-462 | at most one physical dispatcher is being set up, running or cleaning up |
| Dispatcher.NobodyJoinsCleanup | accessibility/events.go:97-114 | a run being cleaned up has no subscribers and admits none |
| Dispatcher.NothingUnaccounted | accessibility/events.go:986-1001 | per subscriber, signals processed while subscribed are the events sent with the drops they report, plus pending drops |
| Dispatcher.SeenCountsSignals | accessibility/events.go:609-628 | the count of signals is moved by exactly the active signals while subscribed |
| Dispatcher.ClosedOnce | accessibility/events.go:135-151 | a channel is closed at most once, exactly when its caller was refused or is no longer subscribed |
| Dispatcher.ClosedForGood | accessibility/events.go:982-1001 | whatever steps follow, nothing is sent into a closed channel and it is not closed again |
| Dispatcher.EventDispatcher.Reserve | accessibility/events.go:97-124 | admitted exactly if not retired and either others subscribe or nothing is running or starting; else told which run to wait for, or refused after retirement |
| Dispatcher.EventDispatcher.BeginSetup | accessibility/events.go:362-408 | a setup begins exactly when nothing is running, starting or retired |
| Dispatcher.EventDispatcher.PublishRun | accessibility/events.go:428-446 | the run is published exactly with the connection and a subscriber alive and before retirement |
| Dispatcher.EventDispatcher.FinishStart | accessibility/events.go:516-528 | the setup is over |
| Dispatcher.EventDispatcher.Withdraw | accessibility/events.go:550-569 | a subscriber is closed once, and exactly the last one out names the run to stop, if there is one |
| Dispatcher.EventDispatcher.BeginCleanup | accessibility/events.go:135-144 | all subscribers are closed before cleanup can block |
| Dispatcher.EventDispatcher.FinishCleanup | accessibility/events.go:153-163 | the old run is no longer published |
| Dispatcher.EventDispatcher.Deliver | accessibility/events.go:986-1001 | each subscriber with room gets the event with its drop count, each without one more drop |
| Dispatcher.DeliverOffers | accessibility/events.go:986-1001 | the same for every state, and nobody else gets anything |
| Dispatcher.EventDispatcher.Coalesce | accessibility/events.go:618-626 | a repeated event costs every subscriber one drop |
| Dispatcher.EventDispatcher.HandleSignal | accessibility/events.go:604-628 | a signal of a dead backend is not handed on, a repeated event is counted as dropped, any other is delivered |
| KeyModel.ExecutorFollowsSimulator | input/wl_keyboard.go:185-249 | the executor keeps the books the pre-flight check predicted, after every prefix, exactly when no action holds a modifier key while borrowing it |
| KeyModel.AcceptedExactly | input/wl_keyboard.go:185-249 | a batch is accepted exactly if the executor, were no modifier borrowed by its own hold, finds every action possible in the books it has by then |
| KeyModel.HoldTypeRelease | input/wl_keyboard.go:185-249 | text under a held modifier is accepted: hold Shift, type, let Shift go |
| KeyModel.BorrowedModifierIsDropped | input/wl_keyboard.go:518-530 | an input on which prediction and books differ |
| KeyModel.HeldAgrees | input/wl_keyboard.go:185-249 | held keys are booked alike by check and executor |
| KeyModel.HeldKeysSurvive | input/wl_keyboard.go:598-636 | every booked key stays physically down exactly when no literal tap contains a held character |
| KeyModel.ShortTapsAreSafe | input/wl_keyboard.go:624-635 | taps of at most one character never let a held key go |
| KeyModel.LongTapReleasesHeldKey | input/wl_keyboard.go:624-635 | an input on which a held key is let go |
| KeySlots.FirstPass | input/wl_keyboard.go:266-298 | the targets collected are exactly what the batch needs |
| KeySlots.AssignSlots | input/wl_keyboard.go:389-444 | targets get distinct free slots around the reserved ones, each the next one in order, and allocation fails exactly when they do not fit |
| KeySlots.AllocationEnds | input/wl_keyboard.go:391-401 | running out of slots means that reserved slots and targets exceed the range |
| KeySlots.BuildKeymap | input/wl_keyboard.go:402-444 | the uploaded map defines every assigned slot with its target's symbol, and the modifier slots |
| KeySlots.StableOrder | input/wl_keyboard.go:320-336 | the letters and digits come first in every order, then the batch's other characters |
| KeySlots.AcceleratorsStay | input/wl_keyboard.go:320-336 | any two batches in the stable order sent under the same held keys put each letter and digit on the same slot; with no key held on its own place in the range |
| KeySlots.PlacedAccelerators | input/wl_keyboard.go:320-420 | slots placed in the stable order give a keymap with each letter and digit on the slot that depends on the held keys alone |
| KeySlots.AcceleratorSlotAlone | input/wl_keyboard.go:320-336 | with no key held that slot is the character's own place in the dynamic range |
| KeySlots.SameStartSameSlots | input/wl_keyboard.go:389-401 | orders that begin alike put the common targets on the same slots |
| KeySlots.TooManyRunes | input/wl_keyboard.go:356-358 | more characters than dynamic slots cannot be placed, held ones included |
| Keyboard.ChooseOrder | input/wl_keyboard.go:353-355 | letters and digits come first exactly when they, the characters and the named keys together fit the dynamic range |
| KeySlots.ShortListsFit | input/wl_keyboard.go:353-358 | lists within the dynamic range fit |
| Keyboard.WlKeyboard.Warmup | input/wl_keyboard.go:111-130 | after warming up the compositor has the modifier keymap, the books are sound and no key is held |
| Keyboard.WlKeyboard.UploadKeymap | input/wl_keyboard.go:770-800 | an upload takes effect as a whole or not at all |
| Keyboard.WlKeyboard.UploadKeymapAndRestoreMods | input/wl_keyboard.go:134-142 | the modifier mask is announced again after an upload |
| Keyboard.WlKeyboard.ApplyTempMods | input/wl_keyboard.go:147-158 | exactly the missing modifiers are added and reported |
| Keyboard.WlKeyboard.ClearTempMods | input/wl_keyboard.go:161-167 | exactly the borrowed modifiers are taken back |
| Keyboard.WlKeyboard.Tap | input/wl_keyboard.go:828-846 | press and release of one slot |
| Keyboard.WlKeyboard.ValidateSequence | input/wl_keyboard.go:185-249 | accepts exactly the batches of which every action is possible in turn |
| Keyboard.WlKeyboard.ReserveHeld | input/wl_keyboard.go:360-381 | held keys keep their slots; a slot on which the cached keymap disagrees is reported |
| Keyboard.WlKeyboard.PlanBatch | input/wl_keyboard.go:258-444 | planning writes nothing and yields slots and keymap for exactly the batches that are accepted and fit; the slots are the placement, beside the held keys, of an order that begins with all letters and digits exactly if there is room for them |
| Keyboard.WlKeyboard.ExecuteAction | input/wl_keyboard.go:449-644 | one action does to books, compositor and typed presses what the executor model says |
| Keyboard.WlKeyboard.ExecuteBatch | input/wl_keyboard.go:449-644 | a whole batch does, and the not-held branch is taken only when the books say so |
| Keyboard.WlKeyboard.Sendkeys | input/wl_keyboard.go:258-647 | a rejection writes and changes nothing; on a healthy connection a batch is done exactly if it is possible: sendable held keys, every action possible in turn, enough slots; slots of held keys never move; a batch with room for them leaves each letter and digit on the slot that the keys held before decide |
| Keyboard.WlKeyboard.PressKey | input/wl_keyboard.go:652-695 | a key goes down on a slot that the uploaded map defines with its symbol, beside all held keys, which keep their slots; on a healthy connection exactly if it can be held, is up and has a slot |
| Keyboard.RoomForOne | input/wl_keyboard.go:385-402 | short of the whole dynamic range held there is a slot for one more key |
| Keyboard.WlKeyboard.ReleaseKey | input/wl_keyboard.go:700-737 | a key is released on the slot it was held on, whatever failed before; all other held keys keep theirs |
| Keyboard.WlKeyboard.ReleaseAlone | input/wl_keyboard.go:741-766 | the last held key is released on its slot |
| Keyboard.WlKeyboard.RunAll | input/wl_keyboard.go:258-766 | over every run, failing writes included: at each moment held keys have distinct slots above the modifier slots and show their own symbols there, and they keep their slots; each operation done is done as modelled, and `clean` says exactly that no batch let through taps a character held at the time |
| Keyboard.AcceleratorsKeepSlots | input/wl_keyboard.go:320-336 | over every run, two batches with room for all letters and digits that begin with the same held keys leave each of them on one and the same slot, however far apart |
| Keyboard.SlotIsStable | input/wl_keyboard.go:299-381 | over every run a key held from one moment to another sits on one slot all the while |
| Keyboard.ReleasedWherePressed | input/wl_keyboard.go:700-766 | over every run a held key comes up on the slot it was pressed on: once it is gone its slot is not down, unless the same operation gave it to another key |
| Keyboard.HeldKeysStayDown | input/wl_keyboard.go:598-636 | over every run without a batch that taps a held character every held key is down at every moment, failing writes included |
| Locate.LocateExact | find/find.go:852-946 | the first match in raster order of an all-positions scan, placed in the search area; not found exactly when nothing matches |
| Locate.FirstIsUnique | find/find.go:900-945 | there is one first match |
| Locate.ScanPass | find/find.go:900-945 | one pass finds the first match, proves there is none, or asks for another anchor |
| Locate.ScanRow | find/find.go:910-936 | overlapping byte matches skip no position of the row |
| Locate.MatchShowsAnchor | find/find.go:903-918 | every match shows the anchor's bytes, whatever row and window were chosen |
| Locate.SelectAnchor | find/find.go:964-1005 | the anchor lies in the reference; the most detailed other row and the highest-scoring window, ties to the first |
| Locate.MatchAt | find/find.go:1046-1075 | row comparison is pixel-by-pixel equality |
| Locate.RowsArePixels | find/find.go:1062-1073 | rows agree as byte slices exactly if all pixels agree |
| Locate.BufferSizeIsExact | find/find.go:1200-1213 | the size is refused exactly for empty bounds, overlapping rows or a size beyond an int; nothing overflows |
| Locate.Index | find/find.go:911-916 | the first occurrence from an offset on |
| Coordinates.AxisSpan | capture.go:105-111 | the wrapped difference is the length, refused exactly when empty or beyond an int |
| Coordinates.ScaleOffset | capture.go:113-117 | the division is legal and the quotient is the rounded-down offset inside the destination |
| Coordinates.Div64 | capture.go:113-117 | the quotient of a 128-bit number fits 64 bits when the high word is below the divisor |
| Coordinates.ScaleMonotone | capture.go:113-117 | larger offsets are not mapped lower |
| Coordinates.ScreenPoint | capture.go:37-83 | defined exactly for uniform captures and pixels inside; the point is inside the screen rectangle |
| Coordinates.ImagePoint | bundle_screen.go:396-399 | the pixel is inside the image |
| Coordinates.ToScreen | capture.go:76-82 | one axis, in wrapping arithmetic that never wraps |
| Coordinates.ToImage | bundle_screen.go:397-398 | one axis, in wrapping arithmetic that never wraps |
| Coordinates.MappingMonotone | bundle_screen.go:323-326 | both maps keep order along each axis |
| Coordinates.ThereAndBack | bundle_screen.go:323-326 | out to the finer grid and back never overshoots, is at most one short, and exact exactly when nothing was rounded |
| Coordinates.ExactForAllMultiples | bundle_screen.go:323-326 | exact for every offset exactly when the image span is a multiple of the region span |
| Coordinates.PixelAndBack | bundle_screen.go:323-326 | the same for whole points through both maps |
| Coordinates.TranslatePoints | bundle_screen.go:330-402 | all points inside a uniform capture, in order; refused exactly otherwise |
| Coordinates.PointsBounds | bundle_screen.go:308-328 | the least rectangle containing every point; refused exactly when a coordinate is the largest int |
| Framing.RequestBytes | input/eis.go:731-743 | a request byte for byte: object, size and opcode, least significant byte first, then the body and zeros up to a multiple of four |
| Framing.BrokenExactly | input/eis.go:72-98 | a stream is broken at its first message exactly if the size field is below 16, above 1048576 or no multiple of four |
| Framing.ParseUndoesStream | input/eis.go:731-743 | parsing printed requests gives back exactly those requests, bodies padded, with nothing left over |
| Framing.StreamUndoesParse | input/eis.go:73-98 | whatever the input, messages printed again and the rest are the bytes read |
| Framing.ParseContinues | input/eis.go:72-98 | parsing may stop and resume at any byte |
| Framing.Reader.Drain | input/eis.go:73-98 | complete messages leave the buffer in order |
| Framing.Reader.Feed | input/eis.go:60-98 | after any chunk, received messages and buffer are the parse of all bytes so far |
| Framing.Reader.FeedAll | input/eis.go:55-98 | any splitting of a stream of legal requests into chunks yields exactly those requests and an empty buffer |
| Framing.ReadUndoesString | input/eis.go:761-806 | a string argument is read back at any offset exactly when it is NUL-free valid UTF-8, and refused otherwise |
| Framing.ReadUndoesInt | input/eis.go:745-783 | unsigned arguments are read back at any offset |
| Framing.BuildString | input/eis.go:761-769 | the padding loop builds the string argument |
| Framing.GetPut | input/eis.go:745-757 | integers survive their encoding |
| Framing.PutGet | input/eis.go:745-757 | bytes survive decoding |

## Left out

- D-Bus, Wayland, uinput, X11 and portal calls: each is success or failure, or an input.
- Delivery.ResponseStaysTrue: an object is taken to be visited under one handle, because a second incarnation within one walk means that the object or an ancestor was removed in between, and a single node's properties are taken to be read at one moment. A removal announces that its object is gone; that the object's descendants went with it is left to the handles (`Backend.RemovedForGood`) and, for what lies above the snapshot's root, to the check of the root's handle (`Backend.DbusBackend.PublishSnapshot`).
- Walk.SnapshotWalker.ReadNode: which bus calls fill which property, and what a redaction takes away, is part of what the provider answers; warnings of failed reads are counted, their texts left open.
- Timers, deadlines, contexts and goroutine scheduling below the level of locked sections.
- Wrap-around of generation, incarnation and revision counters, and saturation in `addJSONSize`: numbers are unbounded there.
- Decoding of D-Bus message bodies and of state bit words: signals and items arrive decoded or as malformed; states are names.
- The per-backend toolkit names, the age of cached snapshots (a flag), and the retry loop around snapshots.
- Order of Go map iteration: sets are walked in arbitrary order; loops that only delete matching map entries are map comprehensions.
- Window and application resolution checks (accessibility/snapshot.go:329-424): same shape as the snapshot check, with further easy rules.
- Bus names that begin or end with a Unicode blank other than tab, newline, return or space, which the original refuses as well.
- Case folding and substring search of selectors: `Ancestors.MatchesAncestors` is proved for any matching predicate.
- Generic `image.Image` and NRGBA sources, nil images, and rectangles whose side lengths exceed an int in the image search.
- Pacing, tracing, capability reports and event bindings of the owner's subscriptions.
- XKB text formatting and file handling of the keymap: one upload succeeds or fails as a whole.
- Keysyms outside the name table and its aliases: keys are modifier, named or literal, each with its spelling.
- File descriptors received with EI data, the handling of a parsed protocol message (taken to succeed), float arguments; byte order is little-endian.
- Backend.DbusBackend.AdjustForRevocation: whether an unobserved root counts as its cached parent's child when its own application's cache is dropped for contradicting observation is left open, because it depends on map iteration order in the original.
- Keyboard.WlKeyboard.Sendkeys: after a failed write the books and the compositor may differ; only slots, keymap and held keys that stay down are promised then.
- Estimates.SnapshotFits: a floating-point number is taken to need at most 32 characters, as the original assumes.
