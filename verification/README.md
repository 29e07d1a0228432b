# Verified models of a panel's hard parts

This project models six components of a Linux panel that drives remote proxy nodes, and proves what they
promise. Time is an integer. Each section the program runs under a mutex is one step, and the concurrent parts are
state machines whose theorems hold in every interleaving of those steps. Nothing here runs the program.

`Common` holds the types they share.

* **Prefix aggregation** (`Powers`, `Blocks`, `Prefixes`, `Aggregate`, `GenDomestic`,
  `PrivateRanges`, `Generate`). CIDR prefixes as in section 3.1
  of RFC 4632, as aligned blocks of 2^k numbers. The sort-and-stack pass returns the shortest list that covers
  exactly what its input covers, by way of a canonical form that is unique.
* **Online-users cache** (`OnlineUsers`, `OnlineUsersTheorems`, `OnlineUsersOrder`, `OnlineUsersReread`,
  `OnlineUsersMeaning`, `OnlineUsersCache`). Cleanup cannot be observed, sweeps of different nodes commute, re-reading a sweep extends nothing.
* **MTProto node manager** (`Ownership`, `Booking`, `Names`, `BookingTheorems`, `BookingFailures`, `ManagerObject`,
  `UsageObject`, `Desired`, `DesiredRuns`, `DesiredObject`) **and its feed** (`Feed`, `FeedTheorems`, `Bursts`).
  Who owns a node's counters, what is charged against the stored baseline, what the panel wants a node to run while
  settings change under it, and what the activity feed records of what was observed.
* **Reverse-agent hub** (`Registry`, `RegistryTheorems`, `RegistryCommands`, `RegistryAnswers`, `RegistryObject`, `Terminals`). Session
  indexes, command correlation, and the terminal rendezvous.
* **GeoIP parser** (`Wire`, `GeoIP`, `GeoIPMeaning`). The protobuf walker ("Base 128 Varints" and "Message Structure" of
  the Protocol Buffers encoding guide) inverts encoding, and the entries mean the encoded addresses after the
  IPv4-mapped normalisation of section 2.5.5.2 of RFC 4291.
* **Tunnel tracker and chunked push** (`TunnelTracker`, `TunnelRuns`, `ChunkedPush`).

`dafny verify dfyconfig.toml` checks everything.

Where the program keeps state in an object, the model has a class whose methods are tied to a function on values, and
the theorems are about that function and the runs it makes.

## Where the code falls short of the plain statement

Each of these is proved: a witness that the plain statement fails, and the condition under which it holds.

* `drop` takes an entry out of the map in one locked section and cancels it after the section. A start in between gives
  a node two uncancelled entries. One owner per node holds throughout a run exactly when no install lands in such a gap
  (`Ownership.SingleOwnerExactlyWhenClean`, `BookingFailures.SplitDropChargesTwice`).
* `onUsage` looks at the pushed users twice. A user pushed between the two looks is charged without its counter being
  saved, and so is a user whose name the baseline column cannot hold. After a restart the same bytes are charged again.
  A booking charges no more than it saves exactly when neither happens (`BookingTheorems.BookingCoversItself`,
  `BookingFailures.LatePushIsChargedTwice`, `BookingFailures.UnstorableIsChargedTwice`).
* `SetCreds` copies the node's row in one locked section and puts it back in a second. The cover site is kept exactly
  when the last state the agent applied in between, if one named a site, named the one it began with. Settings are never
  lost, because saving them needs the turn (`DesiredRuns.CredsKeepCoverExactlyWhenUnmoved`, `DesiredRuns.CredsRevertCover`).
* The chunk loop takes a reader's own `io.ErrUnexpectedEOF` for the end of the build. A push that reports success has
  sent the whole source exactly when the reader did not break off like that with the buffer not full and data left
  (`ChunkedPush.Push`, `ChunkedPush.PushCutShort`).
* A sweep that has neither a source ID nor a past time of its own counts as new when it is read again. Reading a sweep
  again is idle exactly when it has one of the two (`OnlineUsersReread.GuardedExactlyWhenRereadingIsIdle`).
* An IPv4-mapped GeoIP address with a prefix length under 96 is printed as IPv4 text with that length, which means
  something else or nothing (`GeoIPMeaning.EmittedIsExact`).
* Sweeps of two nodes with the same observation time may depend on their order: the one that arrives last wins
  (`OnlineUsersOrder.EqualTimesClash`, `OnlineUsersOrder.SweepsCommute`).
* A refresh closes the links it found dead after it has let the lock go. A link that speaks in between counts as up at the
  next refresh and is closed all the same. It does so exactly when it was heard in between, recently enough, and is old
  enough (`TunnelRuns.ClosedWhileUp`, `TunnelRuns.MarkedLinkSpeaksExactlyWhenHeard`).
* The one-second limit on flood events is kept per entry, not per node: an entry that replaces another during a flood emits
  beside it. A node's emissions of a kind are a second apart exactly when each finds every burst of the kind on the node
  quiet for that long (`Bursts.ReplacedEntryDoublesUp`, `Bursts.NodeSpacedExactlyWhenQuiet`).
* An IPv6 prefix that holds the IPv4-mapped block stands for all of IPv4, which the written list does not spell out. The
  list is right at every address exactly when the country has no such prefix, or has all public IPv4 addresses anyway
  (`Generate.WholeV6IsWrong`, `Generate.GeneratedAddresses`).
* The two session indexes of the hub drift apart if two UUIDs share a node ID
  (`RegistryTheorems.ConsistentExactlyWhenInjective`).
* A terminal session opened under an ID whose registered slot holds a stream takes that stream's registration away, and
  no cleanup finds it. Throughout a run every stream in a slot is registered exactly when no session is opened like that;
  IDs that are fresh, or whose openers have all returned, never are (`Terminals.HomedExactlyWhenOpensClear`,
  `Terminals.ReusedIDStrands`).

## Model

| member | source | states |
|---|---|---|
| `Aggregate.Aggregate` | cmd/gen-domestic/main.go:112-137 | for any prefixes of both families, unmasked and repeated ones included, the result is sorted, disjoint and free of sibling pairs, and covers an address exactly if some input prefix does |
| `Aggregate.AggregateIsShortest` | cmd/gen-domestic/main.go:110-137 | no list of prefixes that covers the same addresses is shorter than the result |
| `Aggregate.AggregateDecidesEquality` | cmd/gen-domestic/main.go:110-137 | two inputs give the same list if and only if they cover the same addresses |
| `Aggregate.AggregateIsIdempotent` | cmd/gen-domestic/main.go:110-137 | aggregating a result again changes nothing |
| `Aggregate.AggregateIgnoresOrder` | cmd/gen-domestic/main.go:112-119 | order and repetition of the input do not matter |
| `Aggregate.AggregateIsMaximalPrefixes` | cmd/gen-domestic/main.go:110-137 | a masked prefix is in the result if and only if it lies inside the input's union and no larger prefix around it does |
| `Aggregate.SiblingsMatch` | cmd/gen-domestic/main.go:139-144 | the sibling test holds of two masked prefixes exactly when they are the two halves of one block |
| `Blocks.CanonicalIsUnique` | cmd/gen-domestic/main.go:110-137 | two ordered, disjoint, sibling-free lists of blocks with the same cover are equal |
| `Blocks.CanonicalIsShortest` | cmd/gen-domestic/main.go:110-137 | such a list is no longer than any list of blocks with its cover |
| `GenDomestic.Judge` | cmd/gen-domestic/main.go:97-104 | a range is refused exactly when the first private range it overlaps does not contain it, and passes untouched exactly when it overlaps none |
| `GenDomestic.OutsidePrivate` | cmd/gen-domestic/main.go:85-108 | fails exactly when some range is refused; otherwise keeps, in order, the ranges no private range touches |
| `GenDomestic.OutsideCovers` | cmd/gen-domestic/main.go:85-108 | what is kept covers exactly the input's addresses that are not private |
| `GenDomestic.BlockedIsStraddling` | cmd/gen-domestic/main.go:85-108 | for an aggregated private list, a range is refused if and only if it has both private and public addresses |
| `PrivateRanges.PrivateIsCanonical` | internal/remotenodes/nodecfg/private.go:9-14 | the program's own list of private ranges is sorted, disjoint and free of sibling pairs |
| `PrivateRanges.StopsExactlyOnStraddling` | cmd/gen-domestic/main.go:85-108 | against that list the run stops if and only if a range has both private and public addresses |
| `PrivateRanges.GapsAreCanonical` | internal/remotenodes/nodecfg/private.go:9-14 | masked prefixes with a gap between each and the next are canonical |
| `GenDomestic.MaskRanges` | cmd/gen-domestic/main.go:59-70 | parsing succeeds exactly when every line is an acceptable range and then gives each one masked; an error names an offending line |
| `GenDomestic.Render` | cmd/gen-domestic/main.go:58-83 | end to end: it succeeds exactly when all ranges are acceptable and none is refused, and the list is canonical and covers exactly the ranges' addresses that are not private |
| `Generate.Generate` | cmd/gen-domestic/main.go:50-56 | no data, a failed lookup with its reason, or a rendering of the country's printed entries |
| `Generate.GenerateIsExact` | cmd/gen-domestic/main.go:50-83 | from any encoded list: for a country whose prefixes can all be printed, a list is written if and only if none of them covers part of the private ranges, and it is canonical and covers exactly their addresses that are not private |
| `Generate.GeneratedAddresses` | cmd/gen-domestic/main.go:50-83 | the written list covers an address exactly when the country has it, IPv4-mapped ones taken as IPv4, and it is not private, at every address, if and only if no IPv6 prefix of the country holds the IPv4-mapped block or its prefixes have all public IPv4 addresses |
| `Generate.WholeV6IsWrong` | cmd/gen-domestic/main.go:50-83 | a country whose one prefix is `::/0`: the list is wrong as soon as one IPv4 address is public |
| `Generate.OwnListIsWritten` | cmd/gen-domestic/main.go:50-108 | against the program's own private ranges a list is written if and only if no prefix of the country has both private and public addresses |
| `OnlineUsersCache.OnlineUsersCache.ApplyNodeOnlineIPSnapshot` | pkg/cache/online_users.go:38-97 | the six maps after a sweep, and the time it reports, for late, repeated, future-dated, empty and failed sweeps |
| `OnlineUsersCache.OnlineUsersCache.SweepUsers` | pkg/cache/online_users.go:71-95 | the loop over the sweep's users merges all of them, in whatever order the map yields them |
| `OnlineUsersCache.OnlineUsersCache.SweepOneUser` | pkg/cache/online_users.go:71-95 | one user's stamps and IPs: newer sightings win, older ones are kept out |
| `OnlineUsersCache.OnlineUsersCache.SetOnlineUsers` | pkg/cache/online_users.go:119-127 | stamps the users and touches nothing else |
| `OnlineUsersCache.OnlineUsersCache.SetNodeOnlineUsers` | pkg/cache/online_users.go:130-142 | stamps the users on the node and touches nothing else |
| `OnlineUsersCache.OnlineUsersCache.ClearNodeOnlineUser` | pkg/cache/online_users.go:146-152 | removes one user from one node |
| `OnlineUsersCache.OnlineUsersCache.SetUserOnlineIPs` | pkg/cache/online_users.go:269-277 | replaces a user's IPs, or removes them if there are none |
| `OnlineUsersCache.OnlineUsersCache.CleanExpired` | pkg/cache/online_users.go:235-266 | deleting while ranging leaves exactly the live stamps, the IPs of users still stamped, and nodes that are not empty |
| `OnlineUsersCache.OnlineUsersCache.CleanUsers` | pkg/cache/online_users.go:239-246 | the pass over users and their IPs |
| `OnlineUsersCache.OnlineUsersCache.CleanNodes` | pkg/cache/online_users.go:248-258 | the nested pass over nodes |
| `OnlineUsersCache.OnlineUsersCache.GetOnlineUsers` | pkg/cache/online_users.go:156-170 | each online user once and nobody else |
| `OnlineUsersCache.OnlineUsersCache.GetNodeOnlineCount` | pkg/cache/online_users.go:178-195 | the number of users the node has seen within the age limit |
| `OnlineUsersCache.OnlineUsersCache.GetAllOnlineIPs` | pkg/cache/online_users.go:301-320 | the live IPs of every online user who has any |
| `OnlineUsersMeaning.SightingShows` | pkg/cache/online_users.go:71-78 | an accepted sweep that sees a user with IPs puts the user on its node for every reader of the node, unless the node has a newer stamp |
| `OnlineUsersMeaning.SightingStamps` | pkg/cache/online_users.go:79-81 | and online: the last sighting is this one or a newer one |
| `OnlineUsersMeaning.SightingGivesIPs` | pkg/cache/online_users.go:82-94 | if nothing newer is known of the user, the readers give the sweep's IPs |
| `OnlineUsersMeaning.OlderSightingKeepsIPs` | pkg/cache/online_users.go:82-84 | if something newer is known, the IPs stay |
| `OnlineUsersMeaning.EmptySightingTakesOff` | pkg/cache/online_users.go:71-89 | an empty IP map takes the user off the node unless the node has a newer stamp, and takes the IPs away if nothing newer is known; the last sighting stays |
| `OnlineUsersMeaning.NewerNodeStampStays` | pkg/cache/online_users.go:72-78 | a newer stamp on the node stays, whatever the sweep says |
| `OnlineUsersMeaning.OthersUntouched` | pkg/cache/online_users.go:71-95 | users a sweep does not name, and other nodes, are as before |
| `OnlineUsersMeaning.TakenInExactly` | pkg/cache/online_users.go:39-59 | a failed, repeated, too old or not newer sweep changes nothing, and every other one leaves its mark |
| `OnlineUsersMeaning.ReplyIsWhen` | pkg/cache/online_users.go:39-53 | the time handed back: the sweep's own unless it is missing or ahead, then the clock's, and it is the mark of an accepted sweep |
| `OnlineUsersMeaning.OnlineForMaxAge` | pkg/cache/online_users.go:198-232 | a stamped user is online for exactly the age limit, others are as before |
| `OnlineUsersMeaning.OnNodeForMaxAge` | pkg/cache/online_users.go:130-142 | a user stamped on a node is on it for exactly the age limit |
| `OnlineUsersMeaning.ClearedIsOff` | pkg/cache/online_users.go:146-152 | a cleared user is off that node and no other user or node changes |
| `OnlineUsersMeaning.SetIPsShow` | pkg/cache/online_users.go:269-298 | the IPs set are those given while the user is online |
| `OnlineUsersMeaning.CleanKeepsTheLive` | pkg/cache/online_users.go:235-266 | a cleanup keeps exactly the live stamps, the IPs of the live, and every node's mark |
| `OnlineUsersTheorems.CleanupIsUnobservable` | pkg/cache/online_users.go:38-97 | two runs of sweeps, node writers and cleanups that differ only in their cleanups give every sweep the same reply and every reader the same answers from then on |
| `OnlineUsersTheorems.EmptyIsSound` | pkg/cache/online_users.go:12-19 | the empty cache the process starts with meets the premise of the two theorems on cleanup |
| `OnlineUsersTheorems.RunsStayAlike` | pkg/cache/online_users.go:235-266 | the relation between a cache and its never-cleaned twin that every step keeps |
| `OnlineUsersTheorems.LoneWriterReveals` | pkg/cache/online_users.go:119-127 | a cleanup just before `SetOnlineUsers` shows if and only if the user's last sighting has expired and IPs are still cached |
| `OnlineUsersOrder.SweepsCommute` | pkg/cache/online_users.go:54-97 | two sweeps of different nodes leave the same cache in either order if and only if they are independent, and different observation times make them so, from any cache and for any mix of IP maps |
| `OnlineUsersOrder.EqualTimesClash` | pkg/cache/online_users.go:82-94 | two sweeps of one time that see a user at different addresses leave different caches, from any cache that takes both in and knows nothing later of the user: the last to arrive wins |
| `OnlineUsersOrder.BatchOrderIrrelevant` | pkg/cache/online_users.go:54-97 | a batch of sweeps of different nodes with different observation times leaves the same cache in every order |
| `OnlineUsersOrder.ArrivalTimeIrrelevant` | pkg/cache/online_users.go:44-64 | within the age limit, when a sweep arrives makes no difference |
| `OnlineUsersReread.RereadingNeverExtends` | pkg/cache/online_users.go:44-64 | a sweep with a source ID or a past time of its own, re-read any number of times with cleanups, refused and failed sweeps and news of other nodes in between: every reader reports the user offline once the age limit has passed since it was first applied, even if its clock was ahead; a newer sweep of the same node may come in between if the sweep has its own time |
| `OnlineUsersReread.StampsNeverAhead` | pkg/cache/online_users.go:44-64 | no stamp is ever ahead of the clock |
| `OnlineUsersReread.ReplyIsStable` | pkg/cache/online_users.go:36-53 | the time handed back for a sweep with a source ID, even a clamped one, is the same whenever it is read again, over any run in which no other sweep of its node is taken in |
| `OnlineUsersReread.TakenInAgain` | pkg/cache/online_users.go:44-60 | a sweep taken in once is taken in again at a later time if and only if it has no source ID, the clock has moved, and its time is missing, or was ahead and is within the age limit |
| `OnlineUsersReread.GuardedExactlyWhenRereadingIsIdle` | pkg/cache/online_users.go:44-60 | from any cache, reading a sweep again at any later time leaves the stamps of a user it saw where they were, if and only if the sweep has a source ID or a past time of its own |
| `OnlineUsersReread.UnguardedExtends` | pkg/cache/online_users.go:48-60 | any other sweep, read again a moment later, keeps every user it saw online from that moment |
| `Ownership.SingleOwnerExactlyWhenClean` | internal/mtprotonode/manager.go:316-404 | throughout a run every node has at most one uncancelled entry, if and only if no install happens while an entry of its node waits for `drop` to cancel it |
| `Ownership.AtomicDropsOwn` | internal/mtprotonode/manager.go:286-294 | with `drop` as one step every node has at most one entry that can book, and an uncancelled entry is the one in the map |
| `Ownership.ReadCutsOff` | internal/mtprotonode/manager.go:354-361 | with `drop` as one step, once start has read the baseline every booking finished later on that node is by an entry made after the read |
| `Ownership.OlderEntriesNeverBook` | internal/mtprotonode/manager.go:354-361 | the same with `drop` in two halves, as long as no uncancelled entry of the node is half way through it when the baseline is read |
| `Ownership.LimboMayBook` | internal/mtprotonode/manager.go:286-294 | the other half: an entry half way through `drop` at that moment can still book after the new entry is in place |
| `Ownership.PruneSparesTheNew` | internal/mtprotonode/manager.go:237-278 | sync's prune cancels an uncancelled entry if and only if it was the node's entry when the sync began, still is, and its row is gone |
| `Ownership.RunSteady` | internal/mtprotonode/manager.go:316-404 | in every run an uncancelled entry is in the map or half way through `drop`, the map has no entry between a start's clearing and its install, and a booking belongs to its node |
| `Ownership.UncleanInstallMakesTwo` | internal/mtprotonode/manager.go:286-294 | an install in the gap leaves two uncancelled entries at once |
| `Ownership.NeverBooksAgain` | internal/mtprotonode/manager.go:626-632 | an entry that is cancelled and not in the middle of a booking never books again |
| `Ownership.DropStops` | internal/mtprotonode/manager.go:286-294 | a whole drop leaves its entry cancelled and out of the map and every other entry as it was |
| `Ownership.HaltStops` | internal/mtprotonode/manager.go:304-313 | a halt cancels the node's entry in the map and touches no other node's |
| `Ownership.StopStopsAll` | internal/mtprotonode/manager.go:207-216 | after a stop the map is empty and whatever is uncancelled is half way through a drop |
| `Ownership.EndStopsAll` | internal/mtprotonode/manager.go:379-380 | when the context ends every entry is cancelled and so is every one installed later; a restarted process has none |
| `Ownership.InstallTakesOver` | internal/mtprotonode/manager.go:402-404 | an installed entry is its node's and takes nobody else's place |
| `Ownership.TurnsExclude` | internal/mtprotonode/manager.go:626-632 | a booking and a start of one node never overlap, and a cancelled entry cannot begin one |
| `ManagerObject.Manager.Halt` | internal/mtprotonode/manager.go:304-313 | the node's entry is cancelled and gone from the map, nothing else changes |
| `ManagerObject.Manager.Drop` | internal/mtprotonode/manager.go:286-294 | the entry is cancelled, and gone from the map unless a newer one has replaced it |
| `ManagerObject.Manager.Install` | internal/mtprotonode/manager.go:379-404 | a new entry, with nobody pushed to it, takes the node's place in the map |
| `ManagerObject.Manager.Stop` | internal/mtprotonode/manager.go:208-216 | exactly the entries in the map are cancelled, and the map is empty |
| `ManagerObject.Manager.Prune` | internal/mtprotonode/manager.go:268-276 | exactly the unwanted entries that are still the ones of the snapshot are cancelled and removed |
| `BookingTheorems.NoDoubleCharging` | internal/mtprotonode/manager.go:626-680 | with `drop` and `onUsage` as single steps, over every history of polls, failed transactions, pushes, replacements and restarts, a storable name is never charged beyond its stored baseline, up or down, nor stored beyond what was counted |
| `BookingTheorems.ChargedWithinBaseline` | internal/mtprotonode/manager.go:626-680 | the same with both calls split into their sections, for a name none of whose bookings slips and runs without an install inside a drop; every entry that may still book starts at or above the baseline |
| `BookingTheorems.BookingCoversItself` | internal/mtprotonode/manager.go:633-680 | an accepted booking charges a name no further than it moves its baseline, if and only if the name is storable and was pushed when the booking began, or is not charged at all |
| `BookingTheorems.PushedInTimeIsExact` | internal/mtprotonode/manager.go:626-680 | a storable name that is pushed whenever anyone is pushed to its node's entry is charged for exactly what is stored, whatever was counted before the first push: nothing twice and nothing dropped |
| `BookingTheorems.BookedUpToReport` | internal/mtprotonode/manager.go:626-680 | an accepted booking of such a name brings its charge up to the report's counter |
| `BookingTheorems.NobodyPushedKeepsCounters` | internal/mtprotonode/manager.go:653-658 | a booking that found nobody pushed accepts, charges and stores nothing, and returns no error only if no counter had moved |
| `BookingTheorems.CountersWaitForPush` | internal/mtprotonode/manager.go:633-658 | in every history, until the first push reaches an entry its accepted counters stay at the stored baseline it started from, whatever it polls and books |
| `BookingTheorems.TransactionDecides` | internal/mtprotonode/manager.go:659-679 | a transaction that fails leaves no trace; one that goes through has the whole report accepted |
| `Names.StorableExactly` | internal/mtprotonode/store.go:165-170 | a name is storable exactly if it is 1 to 190 bytes, is the UTF-8 encoding (section 3 of RFC 3629) of Unicode scalar values, and has no zero byte |
| `BookingTheorems.OverchargedExactlyWhenSlips` | internal/mtprotonode/manager.go:626-680 | after any history of bookings that saved the name, the next act leaves it charged beyond its baseline if and only if it is a booking that charges it without saving it |
| `BookingTheorems.OnlyPushedAreBooked` | internal/mtprotonode/manager.go:633-669 | in every history a name that is charged or saved for a node was pushed to an entry of that node |
| `BookingTheorems.InstallStartsAtBaseline` | internal/mtprotonode/manager.go:355-391 | the entry a start installs counts from the baseline as it is stored at that moment |
| `BookingFailures.UnstorableIsChargedTwice` | internal/mtprotonode/store.go:141-170 | every name that cannot be stored has a history that charges it for more than was counted |
| `BookingFailures.LatePushIsChargedTwice` | internal/mtprotonode/manager.go:633-669 | so does every name pushed between the two looks at the pushed users |
| `BookingFailures.SplitDropChargesTwice` | internal/mtprotonode/manager.go:286-294 | so does every name, if a start lands between the two halves of a drop |
| `Booking.SettleEffect` | internal/mtprotonode/store.go:141-163 | what an accepted booking does to any name of any node: charged by its delta if pushed, saved at its cumulative value if pushed and storable, else untouched |
| `UsageObject.OnUsage` | internal/mtprotonode/manager.go:625-680 | cancelled entries and entries nobody pushed to book nothing; otherwise charge and baseline land together or not at all, wherever the transaction breaks, and for the pushed users alone |
| `UsageObject.Store.IngestTraffic` | internal/node/usecase/traffic_batch.go:397-450 | the charge and the baseline saved in its transaction are both in the database or neither is, whether the charge, the save or the commit breaks |
| `UsageObject.Store.SaveBaseline` | internal/mtprotonode/store.go:141-163 | upserts the storable names and leaves every other row, inside the open transaction if there is one |
| `UsageObject.Pick` | internal/mtprotonode/manager.go:636-642 | the entries of a report whose users were pushed |
| `DesiredRuns.DesiredKeepsUp` | internal/mtprotonode/manager.go:115-130 | under every interleaving of pushes with their unlocked check, saved settings, credential swaps and applied states, a desired state has the entry's current stream limit and stop, the revision of its content, only pushed users, a cover site that was in use or passed its check, and is what the node object was given |
| `DesiredRuns.PushLands` | internal/mtprotonode/pusher.go:21-81 | whatever happened during its check, a push lands the users, port, listen address and nets it was built with; only a refused cover site is left out, and then a site the entry has used stands in and the refusal is noted |
| `DesiredRuns.TeardownLands` | internal/mtprotonode/pusher.go:35-47 | a teardown lands no users and otherwise what was last asked for: port, listen address, nets and, unless it is refused by now, the cover site |
| `DesiredRuns.PayloadLands` | internal/mtprotonode/pusher.go:48-76 | any other push lands what its payload says: its users if it is enabled, in name order, its port or 443, its listen address and, unless refused, its cover site |
| `DesiredRuns.RefusedKeepsCurrent` | internal/mtprotonode/pusher.go:56-66 | a refused push is on the site the entry had when the push looked |
| `DesiredRuns.FreshHasPassed` | internal/mtprotonode/manager.go:993-999 | a site taken as good without asking has passed before |
| `DesiredRuns.CheckDecides` | internal/mtprotonode/manager.go:992-1013 | what a passed and a refused check do to the entry and to the push |
| `DesiredRuns.SettingsAreSaved` | internal/mtprotonode/manager.go:940-961 | saved settings are the entry's from then on and the desired state's at once, nothing else of it changes, and a setting left out stays |
| `DesiredRuns.NoTunnelAsksForNobody` | internal/mtprotonode/manager.go:421-439 | no users, the node's own site and settings, port 443 and the given nets, and only where nothing was asked for |
| `DesiredRuns.PushedExactlyWhenLanded` | internal/mtprotonode/manager.go:122-129 | in every run a name counts as pushed exactly from the landing of the first push that has it |
| `DesiredRuns.AdoptedIsCurrent` | internal/mtprotonode/manager.go:1061-1086 | a repair's site is the entry's from then on |
| `DesiredRuns.FailedSwapChangesNothing` | internal/mtprotonode/manager.go:1050-1053 | a swap of credentials that fails changes nothing of the entry |
| `DesiredRuns.CredsKeepCoverExactlyWhenUnmoved` | internal/mtprotonode/manager.go:1037-1059 | SetCreds keeps the stream limit and stop always, and the entry's cover site if and only if the last state applied between its two sections that names a site, if any, names the site it began with |
| `DesiredRuns.SiteIsLastApplied` | internal/mtprotonode/manager.go:601-621 | while SetCreds is under way the entry's cover site is that of the last applied state that names one |
| `DesiredRuns.CoverIsVouched` | internal/mtprotonode/manager.go:992-1013 | every cover site the entry ever ran on or was ever asked to is the row's own, one a repair adopted, or one that passed its check |
| `DesiredRuns.CredsRevertCover` | internal/mtprotonode/manager.go:1037-1059 | every push of a new cover site has a run in which the site passes, lands and is applied, and the entry is back on the old one |
| `DesiredRuns.WithDisguiseIs` | internal/mtprotonode/pusher.go:83-96 | the cover site changes in both its places, the revision follows, all else stays, and doing it again changes nothing |
| `DesiredRuns.OnSettingsIs` | internal/mtprotonode/manager.go:117-122 | the recorded state is the wanted one on the entry's settings, with the revision of its own content |
| `DesiredRuns.StepCalls` | internal/mtprotonode/pusher.go:56-66 | every push under way carries a stamped state, and once judged one on a site that was in use or passed |
| `Desired.StateFromPayload` | internal/mtprotonode/state.go:24-77 | succeeds exactly on an MTProto payload whose settings parse and name a cover site; port 0 becomes 443, a disabled payload has no users, the others are a permutation in name order, the revision is the content's |
| `Desired.UsersByName` | internal/mtprotonode/state.go:57-74 | the payload's users, named by email or else username, sorted and none lost |
| `Desired.ToUser` | internal/mtprotonode/state.go:59-71 | each field of a user from the payload's, the name from the email or else the username |
| `DesiredObject.LiveEntry.WantLocked` | internal/mtprotonode/manager.go:117-130 | records the state on the entry's settings and adds all its users to the pushed ones |
| `DesiredObject.LiveEntry.UpdateSettings` | internal/mtprotonode/manager.go:940-961 | a real change reaches the desired state at once, if there is one; anything else only the row |
| `DesiredObject.LiveEntry.NoTunnel` | internal/mtprotonode/manager.go:421-439 | asks for no users only where nothing was asked for |
| `DesiredObject.LiveEntry.Land` | internal/mtprotonode/pusher.go:68-76 | the push's last section |
| `Feed.Clip` | internal/mtprotonode/feed.go:69-78 | the longest beginning of at most 500 bytes that ends before a rune |
| `Feed.ClipLoop` | internal/mtprotonode/feed.go:69-78 | the backward loop computes it |
| `Feed.ClipKeepsRunes` | internal/mtprotonode/feed.go:69-78 | whole runes stay whole and at most three bytes more than needed are cut |
| `Feed.FoldInto` | internal/mtprotonode/feed.go:103-126 | the entry a flood merges with: the nearest of its kind with nothing on the way a minute or more older, or none if there is none |
| `Feed.Feed.AddLocked` | internal/mtprotonode/feed.go:80-90 | the shifted ring keeps the last 200 events in order |
| `Feed.Feed.FindFold` | internal/mtprotonode/feed.go:103-126 | the backward scan finds that entry |
| `Feed.Feed.FloodEvent` | internal/mtprotonode/feed.go:103-126 | merge or append, and what the feed remembers is untouched |
| `Feed.Feed.LinkSeen` | internal/mtprotonode/feed.go:142-156 | records a change of the link and only a change |
| `Feed.Feed.ProxySeen` | internal/mtprotonode/feed.go:159-193 | records a change of the proxy's state and only a change |
| `Feed.Feed.CoverSeen` | internal/mtprotonode/feed.go:196-210 | records a change of the cover site's health and only a change |
| `Feed.Feed.AppliedState` | internal/mtprotonode/feed.go:213-225 | records a new revision once and forgets the last push failure |
| `Feed.Feed.PushFailedWith` | internal/mtprotonode/feed.go:228-239 | records a failure that differs from the last |
| `FeedTheorems.FeedIsStutterFree` | internal/mtprotonode/feed.go:142-210 | over every sequence of observations, each channel's events are exactly the changes in what was observed of it, so none repeats back to back and the last one is where things stand |
| `FeedTheorems.FeedAlternates` | internal/mtprotonode/feed.go:142-210 | link and cover events strictly alternate, beginning with a failure |
| `FeedTheorems.ChangesNeverRepeat` | internal/mtprotonode/feed.go:142-210 | the changes of any sequence never repeat and end where it ends |
| `FeedTheorems.PushFailuresAreChanges` | internal/mtprotonode/feed.go:213-239 | between two landed pushes each new failure is recorded once and a retry that fails the same way is not |
| `FeedTheorems.FailuresOncePerLanding` | internal/mtprotonode/feed.go:213-239 | over every run, landings included, the failures recorded are those that differ from the last since a push landed: a failure is recorded again after a landing |
| `FeedTheorems.RevisionsAreChanges` | internal/mtprotonode/feed.go:213-225 | as many landings are recorded as the applied revision changes |
| `FeedTheorems.NewsLevels` | internal/mtprotonode/feed.go:142-239 | how bad each recorded event is |
| `FeedTheorems.NewsDetails` | internal/mtprotonode/feed.go:142-239 | and the reason it carries |
| `FeedTheorems.AddedTop` | internal/mtprotonode/feed.go:80-90 | the newest entry after an addition, clipped and stamped, and the entries before it |
| `FeedTheorems.FloodTop` | internal/mtprotonode/feed.go:109-123 | the newest entry after a merge: counts together, the later time, the new detail if there is one |
| `FeedTheorems.RingIsLogEnd` | internal/mtprotonode/feed.go:80-90 | without floods the ring is the end of everything recorded |
| `FeedTheorems.FloodConserves` | internal/mtprotonode/feed.go:103-126 | a flood adds its count to its kind and takes away only what it pushes out |
| `FeedTheorems.FloodKeepsOthers` | internal/mtprotonode/feed.go:103-126 | a merge keeps the order of all other entries and the ring its bound |
| `Bursts.Entry.Coalesce` | internal/mtprotonode/manager.go:759-781 | lets an event through exactly when no timer runs and a second has passed; otherwise holds and counts it |
| `Bursts.Entry.Flush` | internal/mtprotonode/manager.go:783-792 | hands over everything held, as one event with its count |
| `Bursts.FloodsAddUp` | internal/mtprotonode/manager.go:730-792 | in every interleaving the events seen of a kind are those held, plus those on their way, plus the counts in the ring, plus the counts evicted from it; and the ring holds at most 200 |
| `Bursts.EmissionsAreSpaced` | internal/mtprotonode/manager.go:749-792 | successive emissions of one entry and kind are at least a second apart, and a timer runs exactly while something is held |
| `Bursts.HeldCarriesLast` | internal/mtprotonode/manager.go:776-779 | in every run a burst that holds events carries the time and detail of the last one its entry saw |
| `Bursts.EmissionSays` | internal/mtprotonode/manager.go:730-792 | what each emission hands over: the event itself, or one for all that was held with their number and the last one's time and detail, no refused destination named |
| `Bursts.NodeSpacedExactlyWhenQuiet` | internal/mtprotonode/manager.go:748-792 | any two emissions of a kind on a node, from whichever entries, are at least a second apart, if and only if each emission finds every burst of the kind on the node that has sent quiet for a second |
| `Bursts.OneEntryIsSpaced` | internal/mtprotonode/manager.go:748-792 | a node whose entry is never replaced keeps the limit |
| `Bursts.ReplacedEntryDoublesUp` | internal/mtprotonode/manager.go:748-792 | for each flood kind, a run in which an entry and the one that replaces it emit at the same time |
| `RegistryTheorems.ConsistentExactlyWhenInjective` | internal/hub/registry.go:69-135 | the two indexes hold the same sessions in every run if and only if no two UUIDs share a node ID |
| `RegistryTheorems.RunIndexes` | internal/hub/registry.go:69-135 | with an injective lookup each session is under its own UUID and its own node ID at every moment |
| `RegistryTheorems.TwoRegister` | internal/hub/registry.go:69-103 | a run of two registrations that breaks the indexes when a node ID is shared |
| `RegistryTheorems.CurrentIsLastRegistered` | internal/hub/registry.go:69-135 | however stale handlers interleave, the session for a UUID is the last one registered until its own handler unregisters it |
| `RegistryCommands.CommandsCorrelate` | internal/hub/registry.go:168-228 | in every interleaving no channel is closed twice or sent to after its close, every channel in a pending map is open, and a returned response carries the request's own ID |
| `RegistryCommands.ResultIsFinal` | internal/hub/registry.go:168-228 | a call takes at most one result |
| `RegistryAnswers.AnswerArrives` | internal/hub/registry.go:255-269 | the first answer with its request ID reaches a waiting call: it may receive, and receives that answer |
| `RegistryAnswers.SecondAnswerIsDropped` | internal/hub/registry.go:264-268 | a second answer does not replace the first |
| `RegistryAnswers.StrayAnswerIsDropped` | internal/hub/registry.go:260-263 | an answer nobody waits for changes nothing |
| `RegistryAnswers.CloseWakesCall` | internal/hub/registry.go:119-124 | when its session is closed a waiting call gets the answer that had come, or learns that the session is gone |
| `RegistryAnswers.CloseSparesOthers` | internal/hub/registry.go:73-81 | and no other session's channel is touched |
| `RegistryAnswers.ReplacedIsClosed` | internal/hub/registry.go:69-135 | a reconnect closes the session it replaces, the current handler its own |
| `RegistryAnswers.PickIsCurrent` | internal/hub/registry.go:168-174 | a command goes to the current session, or says at once that there is none |
| `RegistryAnswers.PendWaits` | internal/hub/registry.go:176-181 | it waits on an open, empty channel of its own under its request |
| `RegistryAnswers.RouteIsCurrent` | internal/hub/registry.go:247-253 | an answer is routed to the agent's current session, and nowhere without one |
| `RegistryAnswers.LeavingCleansUp` | internal/hub/registry.go:183-187 | a returning command's pending entry is gone and the others are not |
| `RegistryAnswers.GivingUpSaysWhy` | internal/hub/registry.go:208-227 | a timeout and a failed send are told apart |
| `RegistryAnswers.CommandIsAnswered` | internal/hub/registry.go:168-269 | end to end from any reachable hub: a command to a connected agent that answers returns the answer |
| `RegistryObject.ConnectedAgentRegistry.Register` | internal/hub/registry.go:69-103 | closes the prior session's pending channels, replaces it in both indexes, and touches no other session |
| `RegistryObject.ConnectedAgentRegistry.Unregister` | internal/hub/registry.go:109-135 | a stale handler changes nothing; the current one closes its pending channels and leaves both indexes |
| `RegistryObject.ConnectedAgentRegistry.CloseChans` | internal/hub/registry.go:73-81 | the loop closes exactly the pending channels, each once |
| `RegistryObject.ConnectedAgentRegistry.AddPending` | internal/hub/registry.go:176-181 | an open, empty channel waits under the request's ID |
| `RegistryObject.ConnectedAgentRegistry.RemovePending` | internal/hub/registry.go:183-187 | the deferred removal |
| `RegistryObject.ConnectedAgentRegistry.Deliver` | internal/hub/registry.go:255-269 | into an empty slot, dropped when it is taken or nobody waits |
| `Terminals.HomedExactlyWhenOpensClear` | internal/hub/server.go:335-358 | throughout a run every stream in a slot is registered, so that a cleanup will find it, if and only if no session is opened while the slot registered for its ID holds a stream |
| `Terminals.AlwaysInOnePlace` | internal/hub/server.go:258-300 | in every run, whatever the IDs, an accepted stream is in exactly one of the waiter's slot, the opener's hands and the closed ones at every moment |
| `Terminals.NoOrphans` | internal/hub/server.go:258-300 | if no session is opened over a stream, a slot that holds a stream belongs to an opener that has not returned, and the slot of one that has returned is empty |
| `Terminals.ReturnedIDsOpenClear` | pkg/agent/reverse_client.go:294-301 | opening an ID none of whose openers is still about is never an open over a stream |
| `Terminals.FreshIDsOpenClear` | pkg/agent/reverse_client.go:294-301 | neither is opening a fresh one, so runs with fresh IDs have no orphans |
| `Terminals.AllReturned` | pkg/agent/reverse_client.go:294-338 | once every opener has returned no stream is left in a slot, and an open one is with its opener |
| `Terminals.ReusedIDStrands` | internal/hub/server.go:335-358 | for every ID and stream, a run that opens over the stream and leaves it open in a slot whose opener has returned |
| `Terminals.LeavesSlotWell` | internal/hub/server.go:344-358 | a stream leaves its slot only into the opener's hands or by being closed |
| `Terminals.StreamIsHandedOver` | pkg/agent/reverse_client.go:316-337 | a stream that arrives for a waiting opener is accepted, taken by that opener and open in its hands |
| `Terminals.StreamIsRefused` | internal/hub/server.go:283-292 | a stream nobody waits for, or whose slot is taken, is refused and changes nothing else |
| `Terminals.CleanUpCloses` | internal/hub/server.go:344-358 | an opener that gave up closes a stream that had come, and one that has its stream keeps it open |
| `Terminals.HolderCloses` | internal/hub/terminal_session.go:17-19 | the holder of a stream can close it, and closes no other |
| `Terminals.HubServer.RegisterTerminalWaiter` | internal/hub/server.go:335-341 | an empty slot under the session ID |
| `Terminals.HubServer.Offer` | internal/hub/server.go:278-292 | a stream is accepted exactly if a waiter is registered and its slot is free |
| `Terminals.HubServer.CleanupTerminalWaiter` | internal/hub/server.go:344-358 | the waiter is forgotten and a stream left in its slot is closed |
| `Terminals.Session.Close` | internal/hub/terminal_session.go:17-19 | closed, however often it is asked for |
| `Wire.ProtoFields` | pkg/geoip/nftset.go:95-138 | on every byte string the index-driven walk ends in bounds and returns the payloads of the field's occurrences, or an error exactly if the buffer is not a list of fields |
| `Wire.ProtoVarintField` | pkg/geoip/nftset.go:141-175 | the walk as the code does it, wrap-around of its index included, up to the first time it goes back |
| `Wire.RoundTrip` | pkg/geoip/nftset.go:95-138 | parsing inverts the encoding of any field list |
| `Wire.FieldRoundTrip` | pkg/geoip/nftset.go:95-138 | the first field of an encoding is read back, whatever follows |
| `Wire.VarintRoundTrip` | pkg/geoip/nftset.go:98-101 | decoding inverts the varint encoding of any 64-bit value, whatever follows |
| `Wire.UvarintExactly` | pkg/geoip/nftset.go:98-101 | on every byte string a value is read exactly where there is a varint of at most 64 bits, and it is what its base-128 digits say, shortest form or not |
| `Wire.FirstIsFramed` | pkg/geoip/nftset.go:97-136 | a field is found exactly where a key and a body of its wire type are framed |
| `Wire.AcceptedWalk` | pkg/geoip/nftset.go:141-175 | a buffer `protoFields` accepts is walked by `protoVarintField` with the same framing, so it ends in bounds with the first varint field of the number |
| `Wire.UncheckedWalkEscapes` | pkg/geoip/nftset.go:141-175 | a family of buffers `protoFields` refuses on which that walk makes its index negative and panics: it relies on the other's checks |
| `Wire.PastBody` | pkg/geoip/nftset.go:105-136 | one field's body by wire type: where the next field starts, or a framing error |
| `GeoIP.ParseGeoIP` | pkg/geoip/nftset.go:38-92 | the first country with the code, its addresses sorted into the two families, and each error case |
| `GeoIP.CollectCidrs` | pkg/geoip/nftset.go:66-85 | every entry of the country in order, by the length and form of its address |
| `GeoIPMeaning.LookupInvertsEncoding` | pkg/geoip/nftset.go:38-92 | looking a code up in any encoded list gives the prefixes of the first country that has it, or the error that fits |
| `GeoIPMeaning.PlacedByFamily` | pkg/geoip/nftset.go:73-84 | the two lists are the two families, IPv4-mapped addresses of length 96 or more in their IPv4 form, each in the country's order |
| `GeoIPMeaning.LookupByFamily` | pkg/geoip/nftset.go:61-89 | whatever the data, a result is not empty, has only 4-byte addresses in one list and only 16-byte ones in the other, none of them mapped with length 96 or more |
| `GeoIPMeaning.EmittedIsExact` | pkg/geoip/nftset.go:73-84 | an entry's text means the encoded prefix, IPv4-mapped addresses taken as IPv4, if and only if it is not a mapped address with a length under 96 |
| `GeoIPMeaning.EntriesAreExact` | pkg/geoip/nftset.go:66-85 | a country's entries together mean exactly its addresses |
| `GeoIPMeaning.LookupIsExact` | pkg/geoip/nftset.go:38-92 | end to end from the encoded list to the addresses |
| `GeoIPMeaning.MappedReach` | pkg/geoip/nftset.go:77-82 | taking 96 off a mapped prefix keeps its addresses |
| `TunnelTracker.Tunnel.Refresh` | cmd/remote-nodes-bridge/tracker.go:89-114 | up exactly if some link has been heard, is at least 3 s old and silent at most 40 s; since moves only on a flip; exactly the links silent over 90 s are closed and dropped |
| `TunnelTracker.Tunnel.Judge` | cmd/remote-nodes-bridge/tracker.go:93-105 | the loop finds all dead links and whether one speaks for the tunnel |
| `TunnelTracker.Tunnel.CloseAll` | cmd/remote-nodes-bridge/tracker.go:111-113 | closes and drops exactly the dead ones |
| `TunnelTracker.Tunnel.NewLink` | cmd/remote-nodes-bridge/tracker.go:158-164 | an unheard link opened now joins the others |
| `TunnelTracker.Tunnel.CloseLink` | cmd/remote-nodes-bridge/tracker.go:184-191 | dropped once, the socket closed each time |
| `TunnelTracker.LinkConn.Read` | cmd/remote-nodes-bridge/tracker.go:176-182 | only a read that delivered something counts as a sign of life |
| `TunnelTracker.Tunnel.OpenFlow` | cmd/remote-nodes-bridge/tracker.go:133-138 | one more open flow, counted |
| `TunnelTracker.Tunnel.CloseFlow` | cmd/remote-nodes-bridge/tracker.go:201-204 | closing twice counts once |
| `TunnelRuns.RefreshJudges` | cmd/remote-nodes-bridge/tracker.go:89-114 | in every interleaving with reads, opens, closes and other refreshes, read off the steps alone: after a refresh the tunnel is up exactly if some link opened and not closed since has been heard, is at least 3 s old and has been silent at most 40 s; since is the time of the last flip; the links it marks for closing are exactly the tracked ones silent over 90 s, and none of them counts as up in it |
| `TunnelRuns.MarkedLinkSpeaksExactlyWhenHeard` | cmd/remote-nodes-bridge/tracker.go:99-113 | a link an earlier refresh found dead and has yet to close counts as up at a later one if and only if it was heard in between, at most 40 s before, and is at least 3 s old, unless the later refresh read its clock over 50 s earlier |
| `TunnelRuns.ClosedWhileUp` | cmd/remote-nodes-bridge/tracker.go:110-113 | a run in which the only link the tunnel stands on is closed and the tunnel stays up without any |
| `TunnelRuns.LinkHistory` | cmd/remote-nodes-bridge/tracker.go:158-191 | a link's times and whether it is tracked, from the steps alone |
| `TunnelRuns.NoDeadLinkRemains` | cmd/remote-nodes-bridge/tracker.go:99-113 | between refreshes no link the last one judged and that is still tracked had been silent over 90 s at it |
| `TunnelRuns.FlowsAreCounted` | cmd/remote-nodes-bridge/tracker.go:133-138 | the counter is the number of flows opened and not closed, in every run |
| `TunnelRuns.LastFlipIsLast` | cmd/remote-nodes-bridge/tracker.go:106-108 | the stamp is that of the last judgement that differed from the one before |
| `TunnelRuns.NoFlipYet` | cmd/remote-nodes-bridge/tracker.go:72-72 | before the first such judgement it is the time the tunnel was made |
| `ChunkedPush.Push` | pkg/agent/xray_push.go:57-86 | for every source, every pattern of short, failing, broken-off and stalled reads and every agent: it sends the header and the chunks of what the reader gives before it stops, or a beginning of that; unless the agent ends the call, it reports a failure exactly when the reader fails and does not return exactly when the reader stalls; and a push that ends well has sent the whole source if and only if the reader was not cut short |
| `ChunkedPush.WholeExactlyWhenNotCut` | pkg/agent/xray_push.go:68-86 | a reader that neither fails nor stalls is read to its end if and only if it does not break off with the buffer not full and data left |
| `ChunkedPush.OnlyBreaksCut` | pkg/agent/xray_push.go:72-77 | a reader that never reports `io.ErrUnexpectedEOF` itself is never cut short |
| `ChunkedPush.PushCutShort` | pkg/agent/xray_push.go:71-77 | for every source and every place in its first chunk: a reader that breaks off there gives a push that ends well with only what came before |
| `ChunkedPush.ChunksAreWellCut` | pkg/agent/xray_push.go:67-86 | the chunks make up the source, each of 1 to 2^20 bytes and all but the last of exactly 2^20 |
| `ChunkedPush.WellCutIsUnique` | pkg/agent/xray_push.go:67-86 | there is only one such cut |
| `ChunkedPush.Reader.ReadFull` | pkg/agent/xray_push.go:71-77 | fills the buffer, or tells an empty end from a short one, across any short reads; the reader's own `io.ErrUnexpectedEOF` passes through, an error with a full buffer is dropped, and a reader that stalls keeps it from returning |
| `ChunkedPush.Stream.Send` | pkg/agent/xray_push.go:46-55 | a message is appended, or the stream has ended and nothing is |

## Left out

- The text that prefixes, addresses and errors are printed as: prefixes are compared by meaning. JSON, SHA-256 and the revision's hex form: the hash is a parameter and may collide.
- TunnelRuns.NoDeadLinkRemains: says nothing of a link that joins after the last refresh, however long ago it was opened; no refresh has seen it.
- Trimming and case folding of country codes and domains are function parameters; telemt's settings are a map of strings, not of any JSON value.
- `sort.Slice` is a library call: `Aggregate` and `Desired` sort by insertion, and the theorems do not depend on how equal keys come out.
- A 64-bit `int` is assumed in `Wire`, where its wrap-around matters; elsewhere counters are unbounded, so the conversion of usage deltas to signed 64 bits is not modelled.
- `hubnode` is not part of this model. Assumed of it: a report's deltas are its cumulative counters minus the accepted ones, accepted counters advance only when the callback returns no error and begin at the stored baseline, reports of one node do not overlap, the node's counters never go back, and a state reported as applied is one the node object was given.
- A usage report for a node whose row has just been deleted, and the deletion of a node's baseline: the row is taken to exist.
- The number of active users that `onUsage` notes, the rates, the link statistics and the health reports of the manager.
- The age limit on a passed cover check: any passed site may count as fresh, so every choice of clock is covered.
- OnlineUsersTheorems.CleanupIsUnobservable: runs without `SetOnlineUsers` and `SetUserOnlineIPs`, which write one map without its partner and can both show a cleanup; `LoneWriterReveals` says exactly when a cleanup right before `SetOnlineUsers` shows, and no such condition is given for `SetUserOnlineIPs`.
- OnlineUsersReread.RereadingNeverExtends: a sweep with an ID but no past time of its own is protected only while it is the latest of its node, so newer sweeps of the node are left out of its runs.
- BookingTheorems.NoDoubleCharging: takes `drop` and `onUsage` as single steps and a storable name, because without them it is false; `ChargedWithinBaseline` and `SingleOwnerExactlyWhenClean` give the conditions for the split calls.
- BookingTheorems.ChargedWithinBaseline: its conditions are sufficient; a name that went uncharged earlier has slack, so a slip does not always show as a charge beyond the baseline. For names without slack `OverchargedExactlyWhenSlips` is exact.
- GeoIPMeaning.LookupIsExact: for countries without a mapped address under length 96, because such an entry is printed wrong; `EmittedIsExact` is the exact condition for one entry.
- Wire.ProtoVarintField: not past the first time its index goes back, from where the code may answer, panic or never end; `AcceptedWalk` shows that no buffer it is called on gets there.
- An answer that carries an error of the agent's is an answer like any other: the payload is not looked at.
- Log-stream waiters of the hub: delivered outside the lock and never drained, so no claim like `Terminals.NoOrphans` is made.
- The order of the hub's connect and disconnect callbacks, which run after the lock is released.
- The answer to a finished push, and the context errors that replace others: `ChunkedPush` models the chunk loop.
- `wrap`'s choice of tunnel for a socket by address and tag.
- gRPC, the database, dialling, SSH, installation, the web panel and the rest of the repository.
