# Beatmap lookup policy and account bookkeeping, in Dafny

This project models two pieces of the BeatLeader web client and proves properties about them.

**Beatmap metadata lookups (`src/services/beatmaps.js`).** A song is looked up by content hash (`byHash`) or by short key (`byKey`). Both identifiers are lowercased first. A record already in the local song repository is returned as it is, unless the caller forces an update. Otherwise the remote API is called, unless one of these holds:
- the caller asked for cache-only;
- a global suspension window is active;
- for a lookup by hash, that hash has had three rate-limited "not found" answers.

After the call:
- a record found remotely is normalised and stored;
- a "not found" answer bumps the per-hash counter, at most once an hour;
- a network failure whose message is exactly `Network error` starts a one-hour suspension (see the paragraph on backoff below).

Every failure yields no record, even when a forced update had a cached one to fall back on.

- `BeatmapsPolicy` (`beatmaps_policy.dfy`) holds the pure part: lowercasing, record normalisation, the suspension predicate and its prolongation, and the not-found registry.
- `BeatmapsService` (`beatmaps_service.dfy`) is a class over the durable state. That state is the song repository with its key index and the two cache entries `bmSuspension` and `bm404`. Its methods are `cacheSongInfo`, `prolongSuspension`, `setHashNotFound`, `fetchSong`, `byHash` and `byKey`. Each lookup takes the remote call's outcome as a value and reports whether it made the call.

One consequence of the code as written is proved in `Service.FetchSong`'s contract. `fetchSong` reaches the remote API only after it has seen that no suspension is active. So `prolongSuspension` always starts from a fresh record, and a network failure seen through `fetchSong` always leaves `{started: t, activeTo: t + 1h, count: 1}`, where `t` is the time the answer arrived. This holds because a record that has lapsed stays lapsed (`LapsedStaysLapsed`), and the clock has moved forward since the gate read it. The 1h, 3h, 7h, … escalation (`EscalationFromScratch`) holds for `prolongSuspension` itself, but no sequence of lookups reaches it.

**Account store (`src/stores/beatleader/account.js`).**
- `AccountModel` (`account_model.dfy`) holds clans, commands and the two filters the store applies.
- `FriendSync` (`friend_sync.dfy`) reconciles the server's friend list with the local one and returns the published `player-add-cmd` / `player-remove-cmd` events. It is a loop over the server list, proved equal to `Reconciled`. The add half of `Reconciled` is the loop's own decision, prefix by prefix, written as recursion. The remove half is declarative: the local friends the server does not list. The counts per player (`ReconciledCommands`) are proved separately and hold when the server list repeats no id.
- `AccountStore` (`account_store.dfy`) has two classes. `Account` covers the clan bookkeeping and the sign-in error rule. `StoreSingleton` covers the refcounted `store` / `storeSubCount`.

Time is an integer count of milliseconds; `HOUR` is 3 600 000. `addToDate(d, t)` is `t + d`. An empty string stands for a missing or falsy hash, key or id, and a clan id of 0 for a falsy one.

## Model

| member | source | states |
|---|---|---|
| BeatmapsPolicy.Lower | src/services/beatmaps.js:19-20 | lowercasing keeps the length, maps each character by ASCII case, leaves no upper-case letter, and is the identity on lower-case text |
| BeatmapsPolicy.LowerIdempotent | src/services/beatmaps.js:96-110 | canonicalising an identifier twice is the same as once |
| BeatmapsPolicy.LowerIgnoresCase | src/services/beatmaps.js:96-110 | identifiers that differ only in letter case ("ABC123", "abc123") reach the same repository and registry entry |
| BeatmapsPolicy.Normalized | src/services/beatmaps.js:16-27 | no record when hash or key is missing or empty; otherwise a record with lowercased hash and key, no description, and every other field unchanged |
| BeatmapsPolicy.NormalizedIsStable | src/services/beatmaps.js:19-24 | normalising a stored record again changes nothing |
| BeatmapsService.Service.CacheSongInfo | src/services/beatmaps.js:16-27 | returns the normalised record and writes exactly it: the repository holds it under its hash, a lookup by its key finds it, every key-index entry not for that key or that hash is kept, and no key other than its own is added; with hash or key missing returns nothing and writes nothing |
| BeatmapsService.Service.StoreSong | src/services/beatmaps.js:24 | the repository write replaces the record under that hash and points the key index at it; unrelated index entries are kept and no other key appears; every stored record stays reachable by its key, including one whose key the replaced record shared |
| BeatmapsService.IndexAfterStore | src/services/beatmaps.js:24 | the key index after a write is sound and complete for the new repository, finds the written record by its key, keeps every unrelated entry and adds no key but the record's own |
| BeatmapsService.IndexedByKey | src/services/beatmaps.js:107 | a lookup through the key index yields only a stored record carrying that key, and misses only when no stored record carries it |
| BeatmapsPolicy.Pow2 | src/services/beatmaps.js:36 | the backoff factor `Math.pow(2, count)` is at least 1, and at least 2 once count is positive |
| BeatmapsPolicy.IsSuspended | src/services/beatmaps.js:29 | no record never suspends; a suspending record has not reached its activeTo and started less than a day ago |
| BeatmapsPolicy.SuspensionLapsesAfterADay | src/services/beatmaps.js:29 | a record started 24h or more ago never suspends, whatever its activeTo |
| BeatmapsPolicy.LapsedStaysLapsed | src/services/beatmaps.js:29 | a record that has stopped suspending never suspends again as time passes |
| BeatmapsPolicy.Prolonged | src/services/beatmaps.js:31-40 | base is the record if currently suspended, else `{now, now, 0}`; activeTo grows by 2^count hours and count by exactly 1; the result is active at `now` for at least another hour |
| BeatmapsService.Service.ProlongSuspension | src/services/beatmaps.js:31-40 | overwrites the suspension entry with the prolonged record and nothing else |
| BeatmapsPolicy.ProlongedIsEscalation | src/services/beatmaps.js:34-37 | every record written has activeTo = started + (2^count - 1) hours and count >= 1, so activeTo > started |
| BeatmapsPolicy.EscalationFromScratch | src/services/beatmaps.js:31-40 | n successive prolongations from no record end the window 1h, 3h, 7h, …, (2^n - 1)h after `now` |
| BeatmapsPolicy.RegisterNotFound | src/services/beatmaps.js:44-58 | an unseen hash gets `{now, now, 1}`; a seen one is counted and stamped only when recentTry is unset or more than an hour old, else the registry is left as it was; other hashes are never touched |
| BeatmapsPolicy.CountDue | src/services/beatmaps.js:50 | an entry never stamped may count; a stamped one may count exactly when its recent try is more than an hour old |
| BeatmapsPolicy.IsHashUnavailable | src/services/beatmaps.js:59-62 | a hash is unavailable exactly when it is registered with a count of at least 3; an unregistered hash never is |
| BeatmapsService.Service.SetHashNotFound | src/services/beatmaps.js:44-58 | the registry entry becomes what RegisterNotFound says, and nothing else changes |
| BeatmapsPolicy.NotFoundWithinAnHourCountsOnce | src/services/beatmaps.js:50-57 | after an answer that counted, another within the hour leaves the registry unchanged |
| BeatmapsPolicy.NotFoundAfterAnHourCountsAgain | src/services/beatmaps.js:50-57 | an answer more than an hour after one that counted raises the count by one |
| BeatmapsPolicy.ThreeSpacedAnswersSuppress | src/services/beatmaps.js:44-62 | three answers more than an hour apart for an unseen hash make it unavailable, and the first two do not |
| BeatmapsPolicy.UnavailableIsPermanent | src/services/beatmaps.js:44-62 | no registration ever makes an unavailable hash available again |
| BeatmapsPolicy.RegisterNotFoundWellFormed | src/services/beatmaps.js:48-54 | every written entry has a recentTry, count >= 1, and recentTry >= firstTry + (count - 1) hours |
| BeatmapsPolicy.SuppressionTakesTwoHours | src/services/beatmaps.js:50-61 | a hash reaches the threshold of 3 only after at least two hours of not-found answers |
| BeatmapsService.Gated | src/services/beatmaps.js:72 | an active suspension always closes the gate, as does a given hash that is unavailable; with no hash only the suspension counts |
| BeatmapsService.Service.FetchSong | src/services/beatmaps.js:64-94 | a cache hit without forceUpdate is returned with no remote call; cache-only returns nothing with no call; otherwise the call is made exactly when neither suspended nor (hash given and unavailable); every failure returns nothing; a found record is stored and a lookup by its key then finds it, other index entries kept; not-found with a hash writes only the registry, `Network error` only the suspension, an empty answer or other failure nothing; the gate uses the clock before the call, the writes the clock when the answer arrives, and with that clock not running backwards the suspension is always `{answered, answered+1h, 1}` |
| BeatmapsService.Service.ByHash | src/services/beatmaps.js:96-102 | looks up and gates on the lowercased hash; a stored record is returned without a call; a found record is stored and reachable by its key; a not-found answer writes only the registry, under the lowercased hash; `Network error` writes only the suspension, `{answered, answered+1h, 1}` when the clock has not run backwards; an empty answer or other failure changes nothing; writes are stamped with the time the answer arrived |
| BeatmapsService.Service.ByKey | src/services/beatmaps.js:104-110 | looks up the lowercased key in the key index; only the suspension gates the call; a cache-only miss or a suspended lookup returns nothing without a call; the not-found registry is never consulted or written; a found record is stored and reachable by its key; every other answer leaves the repository alone, and `Network error` sets the suspension to `{answered, answered+1h, 1}` when the clock has not run backwards |
| BeatmapsService.FetchIntoEmptyRepository | src/services/beatmaps.js:96-102 | a record for "ABCD" fetched into an empty repository is stored and returned as "abcd"/"k1" with no description and its other fields unchanged |
| BeatmapsService.FetchedSongIsFoundByKey | src/services/beatmaps.js:96-110 | a record fetched by hash "ABCD" is then returned by a lookup of key "K1" without a second remote call, whatever that call would yield |
| BeatmapsService.SharedKeySurvivesRekey | src/services/beatmaps.js:104-110 | with records "a" and "b" both under key "k", moving "b" to key "k2" still lets a lookup by "k" return "a" without a remote call |
| BeatmapsService.MissingHashIsSuppressed | src/services/beatmaps.js:59-72 | after three not-found answers two hours apart, a fourth lookup of that hash returns nothing without calling the remote API |
| AccountModel.WithoutClan | src/stores/beatleader/account.js:427-449 | filtering by clan id leaves no clan with that id and never lengthens the list |
| AccountModel.WithoutClanKeepsOthers | src/stores/beatleader/account.js:427-449 | every clan with another id is kept, as often as it occurred |
| AccountModel.WithoutClanKeepsOrder | src/stores/beatleader/account.js:427-449 | the filter distributes over concatenation, so remaining clans keep their order |
| AccountModel.WithoutClanAbsent | src/stores/beatleader/account.js:443-449 | filtering out an id that is not present leaves the list as it is |
| AccountModel.WithoutPlayer | src/stores/beatleader/account.js:459-465 | the filtered list has no element equal to the player id and keeps every other id with its multiplicity |
| AccountModel.WithoutPlayerKeepsOrder | src/stores/beatleader/account.js:459-465 | the filter distributes over concatenation, so remaining ids keep their order |
| FriendSync.FriendIds | src/stores/beatleader/account.js:48 | one id per server entry, in order: the record's id or the bare id (`f.id ?? f`) |
| FriendSync.Unmatched | src/stores/beatleader/account.js:47-51 | the local friends not among the server ids seen so far, each with its local multiplicity |
| FriendSync.UnmatchedExtend | src/stores/beatleader/account.js:50-51 | filtering `toDelete` by one more matched id gives the unmatched friends for the longer prefix |
| FriendSync.ReconcileStep | src/stores/beatleader/account.js:49-55 | one turn of the loop either drops a matched friend from `toDelete` or publishes one add, never both |
| FriendSync.Additions | src/stores/beatleader/account.js:49-55 | only add commands are published by the first loop, and only for server ids |
| FriendSync.Removals | src/stores/beatleader/account.js:57-59 | one remove command per remaining id, with its multiplicity, and no add command |
| FriendSync.Reconciled | src/stores/beatleader/account.js:47-59 | every add names a server id; each local friend the server does not list is removed once per local occurrence, and no server id is ever removed |
| FriendSync.AdditionsCount | src/stores/beatleader/account.js:49-55 | with no repeated server id, a server friend missing locally yields exactly one add and any other id none |
| FriendSync.ReconciledCommands | src/stores/beatleader/account.js:47-59 | with no repeated server id: one add per server friend not local, one remove per local occurrence of a friend not on the server, no command for a friend on both lists |
| FriendSync.RepeatedServerEntryIsReAdded | src/stores/beatleader/account.js:48-55 | a local friend listed twice by the server is re-added on its second mention |
| FriendSync.ReconcileFriends | src/stores/beatleader/account.js:36-59 | the published commands are exactly the declarative reconciliation of the local list with the server ids; an empty server list publishes nothing here |
| FriendSync.PublishRemovals | src/stores/beatleader/account.js:57-59 | publishes one remove per remaining friend, in order |
| AccountStore.Account.constructor | src/stores/beatleader/account.js:15 | a new account has no lists, no clan and no error |
| AccountStore.Account.RemoveClanRequest | src/stores/beatleader/account.js:409-415 | with an array and a truthy clan id, drops every request with that id; otherwise leaves clanRequest as it was |
| AccountStore.Account.AddClan | src/stores/beatleader/account.js:417-425 | appends the clan to player.clans when that is an array and drops matching requests; touches nothing else |
| AccountStore.Account.RemoveClan | src/stores/beatleader/account.js:427-433 | drops every clan with that id from player.clans, keeping the rest |
| AccountStore.Account.BanClan | src/stores/beatleader/account.js:435-441 | appends exactly one clan to bannedClans when it is an array, otherwise no change |
| AccountStore.Account.UnbanClan | src/stores/beatleader/account.js:443-449 | drops every clan with that id from bannedClans, keeping the rest |
| AccountStore.Account.AddClanInvitation | src/stores/beatleader/account.js:451-457 | appends exactly one player id to clan.pendingInvites when it is an array, otherwise no change |
| AccountStore.Account.RemoveClanInvitation | src/stores/beatleader/account.js:459-465 | leaves pendingInvites without that player id, every other id kept in order |
| AccountStore.Account.SetPlayerClan | src/stores/beatleader/account.js:467-471 | replaces account.clan |
| AccountStore.Account.ApplySignInResponse | src/stores/beatleader/account.js:129-137 | a non-empty response text becomes account.error; an empty one clears it and requests a refresh (the same rule in migrate, lines 153-162) |
| AccountStore.StoreSingleton.constructor | src/stores/beatleader/account.js:7-8 | the module starts with no store and a subscriber count of 0, which satisfies "store exists iff count > 0" |
| AccountStore.StoreSingleton.Acquire | src/stores/beatleader/account.js:11-13 | each factory call adds one to storeSubCount and returns the existing store if any, else a fresh one that becomes the store; keeps "store exists iff count > 0" |
| AccountStore.StoreSingleton.Unsubscribe | src/stores/beatleader/account.js:103-114 | subtracts one from storeSubCount and resets the store to null exactly when the count reaches 0 |
| AccountStore.SharedStoreLifecycle | src/stores/beatleader/account.js:103-114 | two factory calls share one store, which survives the first unsubscribe and is dropped by the second |

## Left out

- BeatmapsPolicy.Lower: lowercases ASCII letters only. The source's `toLowerCase` also maps non-ASCII letters.
- FriendSync.ReconciledCommands: the "exactly one add" and "no command for a common friend" parts assume the server list has no repeated id. With a repeated id the source publishes an extra add, as `RepeatedServerEntryIsReAdded` shows.
- The friend-sync branch for an empty server list (account.js:37-45): its remove commands depend on the text of HTTP responses. `ReconcileFriends` publishes nothing for that case.
- All network I/O: `fetch`, `FormData`, URL building, `checkResponse`, `document.location.reload`, and the remote API clients. The remote lookup is an outcome value, and the refresh after a successful sign-in is a returned flag.
- Failures of the repository, the cache or the logger are not modelled. In the source, `return cacheSongInfo(...)` is not awaited inside the `try`, so a failing repository write would escape `fetchSong`. The catch around `prolongSuspension` is not modelled either.
- The clock is a parameter. A lookup has two readings: `now` for the gate, and `answered` for the not-found and suspension records written after the remote answer. The suspension clause assumes `now <= answered`. Within one synchronous step the source calls `new Date()` more than once, a few milliseconds apart (for example `started` and `activeTo` in `prolongSuspension`); the model uses one reading for such a step.
- Concurrency: overlapping lookups that race on the read-modify-write of `bmSuspension` and `bm404` are not modelled. Each call is atomic, so `prolongSuspension` works on the current record.
- BeatmapsService.Service.StoreSong: when several stored records share a key, the index returns the most recently stored one (or, after that one is re-keyed, some other record with the key). IndexedDB's own choice among them, by primary-key order, is not modelled. That some record is returned whenever one carries the key is modelled.
- `Math.pow` is exact here. Floating-point rounding, and Date values beyond JavaScript's range, are not modelled.
- The svelte store, the event bus subscriptions (account.js:473-483), `configStore`, and `set(account)` publishing. Published events are the returned command list.
- `setTimeout`-driven clearing of messages and errors, and the other profile operations (changePassword, changeLogin, changeAvatar, changeName, changeCountry, changePatreonMessage, banPlayer, unbanPlayer, logOut, refresh, refreshAccount's account replacement). These are network plumbing.
- Clans are values, so aliasing is not captured. In the source, a clan object pushed into two lists, or set as `account.clan`, is one shared object that `push` mutates in place.
- A null element in a clan list (the source's `r?.id`), and a server friend record without an id (which `f.id ?? f` passes on as the record itself).
- Loose (`!=`) versus strict comparison of player ids: ids are strings, so the two agree.
- `src/stores/http/enhancers/common/acc-calc.js` (floating-point accuracy) is not part of this model.
