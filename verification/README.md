# Verified model of the csd-swarm node

csd-swarm pins payloads that a chain lists by hash: it enumerates confirmed proposals, fetches each
payload from an HTTP origin or from peers, checks its SHA-256, keeps it in a flat directory, and serves
it over HTTP and to peers. An operator can take a hash down for good with a persistent denylist. This
project models that node in Dafny and proves what it promises: takedowns hold, nothing unverified or
unlisted is kept, the disk budget and the cached total hold under interleaving, offset paging does not
skip, no request is lost or answered twice.

`dafny verify dfyconfig.toml` checks everything.

## How it is modelled

The content store appears at two granularities.

- `Stores.Store` (Store.dfy) is the store as its callers see it, a class whose methods are whole
  operations. What the disk does during a call is a parameter (`Io`, `OpenIo`), so every contract says
  exactly when the operation succeeds and what is then in memory and on disk. `Operations` states the
  same as relations between the state before and after, and `Histories` reasons about sequences of them.
- `StoreSteps` is a transition system in which every await point of an operation is a program counter.
  Any number of put, ingest, deny, allow, purge and serve tasks interleave, each disk action may fail,
  an HTTP handler may be dropped at any await point (its locks are released, nothing is rolled back, the
  disk call it was waiting for goes on detached), and the process may crash and reopen its directory
  between any two steps. A step that has to wait for a lock changes nothing, so *every* list of actions
  is a run and the theorems quantify over all lists.

`Alone` connects the two: a task that nobody disturbs ends, for every way in which the environment can
resolve its steps, in a state that stands in the relation of `Operations` to the one it started from.

`Peering` and `PeeringInvariants` are the p2p task as a state machine over whole runs; `EventLoops` is
the loop itself, a class whose arms update its fields, keep the invariants, and step as that machine
does. `Paging`, `Pins` and `UrlEncode` are the chain enumeration, `Acquire` the untrusted fetch,
`Ingest` the pass that ties them together, `Ranges` and `Gateway` the HTTP answers, and `Network` runs
any number of nodes, each against arbitrary content servers and arbitrary peers.

| file | what it holds |
|---|---|
| Text.dfy, Hashes.dfy, Totals.dfy | lines, trimming, hash normal form, sums and 64-bit arithmetic |
| Denylist.dfy, Disk.dfy | the denylist file and the store directory |
| StoreSteps.dfy, StoreInvariants.dfy, Takedown.dfy, SingleWriter.dfy | the store under concurrency |
| Operations.dfy, Histories.dfy, Store.dfy | whole operations, sequences of them, and the store class |
| Alone.dfy, Progress.dfy | undisturbed tasks; absence of deadlock |
| Cancellation.dfy, Orphans.dfy | handlers dropped in the middle of a rewrite; index entries without a file |
| Gateway.dfy, Ranges.dfy | HTTP answers |
| Paging.dfy, Pins.dfy, UrlEncode.dfy | chain enumeration |
| Acquire.dfy, Ingest.dfy | fetching and the ingest pass |
| Peering.dfy, PeeringInvariants.dfy, EventLoop.dfy, Gossip.dfy, Network.dfy | p2p and whole networks |

## Assumptions

- SHA-256 is an unknown function from bytes to 64 lower-case hex digits; no claim needs it to be
  collision-free.
- A rename is atomic and durable; a failed rename or removal changes nothing. Writing a file takes two
  steps, between which (and after a failure) its temporary may hold anything.
- Strings are ASCII. A hash with other characters is never valid, so nothing is lost for keys.
- Lengths are unbounded naturals; the total is 64-bit, saturating in put and purge and wrapping in open
  as a release build does. Theorems that need the true sum to fit 64 bits say so.
- Only HTTP handlers are dropped; ingest and the serving of peers run in tasks that nobody aborts. A
  file call on the blocking pool is not stopped by dropping whoever awaits it.
- Request ids are fresh; each inbound request has its own response channel.
- The chain node, content servers, gossip and peer answers are arbitrary inputs unless a lemma's
  `requires` says otherwise.

## What the proofs found

1. **Takedowns.** Between the commit of deny(h) and the next allow(h), every query for h is refused,
   under any interleaving (`Takedown.TakedownHolds`). Within one life of the process nothing can undo
   this. Across crashes a takedown stays in force exactly when every reopen can read the denylist
   (`BanHoldsIff`), given that no handler was dropped in the middle of a rewrite.
2. **An unreadable denylist.** `load_denylist` treats any read error as an empty list. Banned content
   whose removal had failed is then served again (`UnreadableDenylistServesAgain`), and the next deny of
   any hash rewrites the file from the near-empty set, so every earlier takedown is lost for good, even
   to opens that can read the file (`UnreadableOpenErases`, `RewriteKeepsIff`).
3. **Dropped handlers.** File and set agree at every moment at which nobody is changing the list if and
   only if no handler is ever dropped in the middle of a rewrite and no open fails to read a file that
   has entries (`StoreInvariants.DenylistInOrderIff`). A deny dropped in mid-rewrite leaves its hash in
   memory but not in the file, and a second deny of it reports success without writing it
   (`Cancellation.RetriedDenyIsPersistedIff`). The disk call left behind waits for no lock: a late rename
   can install a half-written temporary of the next rewrite (`LeftoverRenameTears`), and a late write can
   replace it, so that a deny which nobody dropped reports success and is not in the file
   (`LateWriteUndoesDeny`). Left to itself the call repairs the file exactly when it was the rename, and
   works (`LeftoverHealsIff`); otherwise the next rewrite that completes does, of whatever hash
   (`NextDenyWritesAll`), and for good once no such call is left (`StoreInvariants.DenylistRecovers`).
4. **"The store will never write it"** (src/store.rs:176-178) is stronger than the code. A put that
   passed its own check before the deny still lands (`LatePutStillLands`), and that is the only way a
   denied hash gets to disk or into the index (`DiskGainsIff`, `IndexGainsBannedIff`, `DeniedStaysOut`).
   It is never served.
5. **Budget.** Checking the budget and inserting are separate steps. One ingest task as the only writer
   makes this safe (`SingleWriter.BudgetHolds`). From any idle store, two writers can overrun the budget
   (`TwoWritersOverrun`), and two writers of one hash, which share a temporary, can put a torn file in
   place (`TwoWritersTear`).
6. **Paging.** On a feed that changes in any way between requests, a finished loop has collected exactly
   the items that were on the page asked for at the time (`Paging.FoundIff`). That is everything listed
   at the start if the feed only gains items in front (`PagingNeverSkips`); it is not if an item leaves
   the front (`ShrinkingFeedSkips`). A `CSD_PER_DOMAIN` above the node's own page cap silently truncates
   a domain to one page (`AskingAboveTheCapTruncates`).
7. **Domains `.` and `..`** consist of unreserved characters and are sent as dot segments, which a client
   resolves away; exactly these two are (`UrlEncode.EncodeIsDotSegmentIff`).
8. **Ranges.** Exact for every well-formed single range except a first position beyond 64 bits, which
   is read as absent: with a last position the range becomes a suffix, without one the whole object
   (`Ranges.RangesHonouredIff`).
9. **Normal form.** `norm` is not idempotent; it is exactly when the rest after one prefix does not
   start like another (`Hashes.NormIdempotentIff`). All callers that normalise twice do so on valid
   hashes, where it is harmless (`Hashes.NormTwiceOnValid`).
10. **Residue.** A removal that fails at purge leaves the file; after an allow, the next open indexes it
    again. Reopening rebuilds the index exactly when nothing but denied files is left over
    (`Stores.ReopenRebuildsIff`).
11. **Entries without a file.** An index entry loses its file exactly by a removal while it is there, or
    by the insertion of a put whose file a purge has removed since its rename (`Orphans.OrphanArisesIff`).
    The second kind stays when both have returned (`OrphanStays`): after an allow, HEAD gives a length,
    GET gives 404 (`OrphanIsShownNotServed`), and ingest takes the hash for held, until the next open
    (`ReopenLeavesNone`).

## Model

| member | source | states |
|---|---|---|
| `Takedown.TakedownHolds` | src/store.rs:126-215 | From the step at which deny(h) commits until an allow(h) takes the lock, a check of h by gateway GET or HEAD or by a peer's Get or Have can only refuse, and the refusal is the final answer, whatever ran before, runs, fails or is dropped; if the time in between spans a crash, its reopens can read the denylist and no handler was dropped in mid-rewrite |
| `Takedown.CommitBans` | src/store.rs:179-197 | A deny that leaves the denylist stage has its hash in the set and in the file, as long as no handler dropped in mid-rewrite has upset the list |
| `Takedown.WithheldPersists` | src/store.rs:179-215 | Within one life of the process nothing but an allow of that hash undoes a deny in memory, not even a dropped handler or a lost file |
| `Takedown.BanPersists` | src/store.rs:43-91 | In memory and in the file nothing but an allow of that hash undoes it, across crashes too, if the file can be read back and no rewrite is torn off |
| `Takedown.BanHoldsIff` | src/store.rs:239-254 | A takedown is in force at every moment of a run exactly when every reopen in the run can read the denylist |
| `Takedown.AnswerIsFinal` | src/gateway.rs:176-255 | An answered query is never answered differently later |
| `Takedown.CheckRefuses` | src/p2p.rs:405-429 | The denylist check of a query for a denied hash refuses it, or waits while the list is being written |
| `Takedown.QueriesReachTheKey` | src/gateway.rs:141-148 | However a valid hash is written, request handling and store look it up under the same key |
| `Takedown.ReopenKeepsBanIff` | src/store.rs:239-254 | A crash keeps a takedown exactly when the denylist file can be read at the next open |
| `Takedown.UnreadableDenylistServesAgain` | src/store.rs:56-82 | If it cannot and the blob's removal had failed, a GET returns the banned bytes |
| `Takedown.RewriteKeepsIff` | src/store.rs:43-53 | A completed rewrite puts a hash into the file exactly when it is in memory, whatever the file said before |
| `Takedown.UnreadableOpenErases` | src/store.rs:239-254 | After one unreadable open, one deny of any hash leaves the file with that hash alone, for later opens too |
| `Takedown.DeniedStaysOut` | src/store.rs:126-133 | With no put past its check, a banned hash never comes back to index or disk until it is allowed |
| `Takedown.IndexGainsBannedIff` | src/store.rs:126-156 | A step indexes a banned hash exactly when it is the insertion of a put that had passed its check |
| `Takedown.DiskGainsIff` | src/store.rs:148-151 | A step brings a hash to disk exactly when it is a working rename of a put of that hash |
| `Takedown.LatePutStillLands` | src/store.rs:148-156 | Such a put does land on disk and in the index although the hash stays banned |
| `StoreInvariants.DenylistInOrderIff` | src/store.rs:39-53 | Over any run, file and set agree at every moment at which nobody is changing the list exactly when no handler is dropped in mid-rewrite and no open fails to read a file with entries |
| `StoreInvariants.DenylistNeverLosesATakedown` | src/store.rs:39-53 | At the other moments of such a run the file lags by the one change in flight, so a crash at any disk step reloads the set from before or after that change; after an unreadable open the file still contains the set |
| `StoreInvariants.DenylistRecovers` | src/store.rs:43-53 | After any history, once the list is free and no call of a dropped handler is left on it, the next completed rewrite brings file and set together, and they stay so as above |
| `StoreInvariants.FileFollowsSetAlways` | src/store.rs:179-215 | The same as an invariant of every run without a torn rewrite, including after rolled-back I/O errors: exact while every open can read the file, inclusion otherwise |
| `StoreInvariants.RenameKeepsFile` | src/store.rs:49-52 | The rename installs exactly the set in memory, whatever the file said before |
| `StoreInvariants.FailedRenameKeepsFile` | src/store.rs:190-193 | If it fails, the roll-back brings the set back to what the file says |
| `StoreInvariants.TotalStaysExactIff` | src/store.rs:152-174 | Over any run whose sums fit 64 bits, the cached total is the sum of the index at every moment the index lock is free exactly when no handler is dropped while it owes the total its change |
| `StoreInvariants.TotalIsExact` | src/store.rs:152-174 | In such a run the lock holder accounts for the difference at all other moments |
| `StoreInvariants.StepKeepsTotal` | src/store.rs:152-174 | While the lock is held the total is off by exactly what its holder still has to add or subtract |
| `Totals.SaturatingUpdateExactIff` | src/store.rs:152-156 | The saturating update is exact exactly when the new sum fits 64 bits |
| `Totals.WrapAdd` | src/store.rs:66-82 | Adding lengths one at a time at open gives the true sum modulo 2^64 |
| `StoreSteps.LocksMatchStep` | src/store.rs:152-215 | Mutual exclusion: a lock is held by exactly the task whose program counter says so, in every step |
| `SingleWriter.BudgetHolds` | src/store.rs:134-156 | With one ingest task and any number of concurrent denies and allows, dropped or not, the total never exceeds the budget, or the total at open if that was more |
| `SingleWriter.TwoWritersOverrun` | src/store.rs:134-147 | From any idle store, two puts that fit the budget one by one but not both can exceed it together |
| `SingleWriter.TwoWritersTear` | src/store.rs:148-151 | From any idle store, two puts of one hash can leave an arbitrary half-written file in place |
| `SingleWriter.StoreStaysCertified` | src/store.rs:1-3 | With one writer every blob on disk hashes to its name through all crashes and torn temporaries, and so does every body a reader is given |
| `SingleWriter.GatewayNeverServesUnverified` | src/gateway.rs:204-214 | Whatever is on disk and whoever wrote it, a body the gateway serves hashes to the key asked for |
| `Progress.EveryTaskCanEnd` | src/store.rs:152-215 | No deadlock: from any state with its locks in order, any task can be brought to its end without a crash or a drop |
| `Progress.ListLockComesFree` | src/store.rs:188-214 | The holder of the list lock can let go of it by its own steps, waiting for no other lock |
| `Progress.IndexLockComesFree` | src/store.rs:152-173 | The holder of the index lock is one step from letting go |
| `Orphans.OrphanArisesIff` | src/store.rs:148-174 | A step leaves an index entry without its file exactly when it is a working removal while the entry is there, or the insertion of a put whose file is gone |
| `Orphans.OrphanStays` | src/store.rs:148-174 | A purge between a put's rename and its insert leaves such an entry after both have returned |
| `Orphans.DroppedPurgeOrphans` | src/store.rs:165-174 | So does a purge dropped while it removes the file |
| `Orphans.OrphanIsShownNotServed` | src/gateway.rs:176-204 | For such an entry HEAD answers with a length and GET that it is missing |
| `Alone.PutDecides` | src/store.rs:127-147 | The checks let a put through exactly when its hash is not denied and the budget admits it |
| `Alone.PutCompletes` | src/store.rs:148-156 | From its first write on, an undisturbed put ends as the whole operation does, whatever is held and whatever fails |
| `Alone.PutAlone` | src/store.rs:126-157 | An undisturbed put ends as the whole operation does, under any budget, with any disk action failing |
| `Alone.DenyAlone` | src/store.rs:179-197 | An undisturbed deny ends as the whole operation does, already denied or not, rolled back or not, blob removed or not |
| `Alone.AllowAlone` | src/store.rs:202-215 | And so does an undisturbed allow |
| `Alone.PurgeAlone` | src/store.rs:160-174 | And so does an undisturbed purge, whether or not the file goes away |
| `Alone.IngestAlone` | src/main.rs:186-240 | An undisturbed ingest changes nothing if the hash is denied or held or no verified bytes came, and otherwise ends as the put of those bytes |
| `Alone.ServeAlone` | src/gateway.rs:176-214 | An undisturbed query is refused, missing, given a length, a body or an error, each exactly when, for GET, HEAD, Get and Have |
| `Alone.PeerGetIsLookup` | src/p2p.rs:421-422 | A peer's Get is given the held and undenied file while the disk can be read, and else nothing |
| `Alone.RequestsEnter` | src/store.rs:105-215 | However a hash is written, the request works on that hash |
| `Alone.OthersDoNotEnter` | src/store.rs:127-130 | What writes no hash starts nothing that could change the store |
| `Alone.ReopenedIsOpened` | src/store.rs:56-91 | A crash and reopen leaves exactly what opening the directory makes of it |
| `Cancellation.DropKeepsOrderIff` | src/store.rs:184-195 | After a drop, file and set agree exactly when the handler was not between changing the set and having the file renamed |
| `Cancellation.LeftoverHealsIff` | src/store.rs:46-51 | If it was, the disk call left behind makes file and set equal again exactly when it is the rename, and works |
| `StoreInvariants.DropKeepsTotalIff` | src/store.rs:152-174 | Dropping a task keeps the total exact exactly when it owed the total nothing |
| `Cancellation.RetriedDenyIsPersistedIff` | src/store.rs:188-195 | After a deny dropped in mid-rewrite, a second deny succeeds without persisting; with nothing else in between, the hash gets into the file exactly when the call left behind was the rename, and works |
| `Cancellation.LeftoverRenameTears` | src/store.rs:46-51 | A rename left behind can install whatever the next rewrite has put into the shared temporary so far |
| `Cancellation.LateWriteUndoesDeny` | src/store.rs:45-51 | A write left behind can land between the write and the rename of another deny, which then reports success with its hash missing from the file |
| `Cancellation.NextDenyWritesAll` | src/store.rs:43-53 | The next undisturbed deny of another hash writes out everything in the set, whatever the file said and whatever calls are left |
| `Stores.Store.Open` | src/store.rs:56-91 | Denied is what the lines of a readable denylist write, indexed is every file with a valid name that is not denied, with its length, gone are the denied files that could be removed, and nothing else changes; it fails exactly when the directory cannot be created or listed to the end |
| `Stores.Store.Scan` | src/store.rs:64-82 | The scan removes denied blobs, indexes the others, and when broken off has removed some denied blobs and nothing else |
| `Stores.Store.IsDenied` | src/store.rs:105-107 | Membership of the normalised hash |
| `Stores.Store.Has` | src/store.rs:109-111 | The indexed length under the normalised hash |
| `Stores.Store.Get` | src/store.rs:113-122 | The held bytes exactly when the normalised hash is held and the file can be read |
| `Stores.Store.Place` | src/store.rs:148-151 | Bytes appear under the final name exactly when write and rename both work; otherwise only the temporary changes |
| `Stores.Store.Put` | src/store.rs:126-157 | Succeeds exactly for a valid, undenied hash that the budget admits when write and rename work, then holds the bytes and changes nothing else; each error exactly when its check fails, with held blobs, index and total as before |
| `Stores.Store.Purge` | src/store.rs:160-174 | Held blobs, index and total lose exactly that hash |
| `Stores.Store.WriteDenylist` | src/store.rs:43-53 | The file parses to the set exactly when write and rename work; otherwise it is untouched |
| `Stores.Store.Deny` | src/store.rs:179-197 | On success the hash is denied in memory and file and no longer held, and a rewritten file says just what the set says; on an I/O error everything is rolled back; when each happens |
| `Stores.Store.Allow` | src/store.rs:202-215 | On success the hash is off the list in memory and file; on an I/O error it is back in both; held content is untouched |
| `Stores.Store.List` | src/store.rs:229-236 | Every held hash once, prefixed, with its length |
| `Stores.ReopenRebuildsIff` | src/store.rs:67-82 | Opening rebuilds the same index exactly when every valid file not indexed is denied |
| `Histories.ReopenRestores` | src/store.rs:260-277 | After any sequence of puts, denies, allows and purges whose removals worked, whatever else failed, opening again restores denylist, index and files, and the total if the lengths always fitted 64 bits |
| `Histories.OpKeepsMatched` | src/store.rs:126-215 | Each operation keeps memory and directory saying the same |
| `Stores.Store.RunAndReopen` | src/store.rs:260-277 | The same of the class: open, run any operations, open again |
| `Denylist.ParseOfPrint` | src/store.rs:43-53 | Reading back the file returns the set, in whatever order it was written |
| `Denylist.ParseIff` | src/store.rs:239-254 | A hash is read from a text exactly when some line of it, between newlines or its ends, writes that hash with nothing but white space around it |
| `Denylist.LineHashIff` | src/store.rs:243-251 | A line contributes a hash exactly when it writes it, in either case, with the prefix or not; blank lines, comments and all others contribute none |
| `Denylist.LoadDenylist` | src/store.rs:239-254 | The loop loads exactly the hashes that some line of the file's text writes; a missing file is empty |
| `Denylist.ParseIsCanonical` | src/store.rs:248-251 | Whatever is in the file, only canonical hashes are loaded |
| `Text.LinesOfPrint` | src/store.rs:44-44 | Newline-terminated lines split back into themselves |
| `Text.LinesOfJoin` | src/p2p.rs:237-241 | Newline-joined lines split back into themselves |
| `Text.LinesCrLf` | src/p2p.rs:389-389 | A line ended by carriage return and newline loses both |
| `Text.TrimUncovers` | src/store.rs:243-243 | White space around a text comes off, however much |
| `Hashes.NormIdempotentIff` | src/store.rs:28-30 | Normalising twice equals once exactly when no second prefix follows the first |
| `Hashes.NormIff` | src/store.rs:28-30 | What normalises to a hash is its 64 digits in either case, with or without the prefix, and nothing else |
| `Hashes.ValidNormIsCanonical` | src/store.rs:35-37 | Whatever normalises to a valid hash normalises to 64 lower-case digits, although the validity test accepts upper case |
| `Hashes.NormTwiceOnValid` | src/p2p.rs:209-221 | On valid results a second normalisation, or adding the prefix and normalising, changes nothing |
| `Acquire.Acquire` | src/acquire.rs:100-121 | Returns bytes exactly when some candidate delivers an in-cap body with the wanted hash, and then the first such; otherwise the error is that of the last candidate |
| `Acquire.FetchCapped` | src/acquire.rs:124-144 | The stream loop computes the capped fetch and never buffers more than the cap |
| `Acquire.FetchedIff` | src/acquire.rs:124-144 | A fetch yields a body exactly when the server answers, declares at most the cap and streams at most the cap unbroken; the body is the whole stream |
| `Acquire.FailureReasons` | src/acquire.rs:124-144 | Any other fetch fails with the first thing that goes wrong |
| `Acquire.ChunkingDoesNotMatter` | src/acquire.rs:134-143 | Result and error depend on the whole body and the declared length, not on chunk boundaries |
| `Acquire.FirstVerifiedIsSound` | src/acquire.rs:98-111 | Bytes returned hash to the wanted hash and are within the cap |
| `Paging.FetchDomain` | src/chain.rs:90-132 | The loop visits offsets as the recursive form does and ends within 200 requests |
| `Paging.PagingCollects` | src/chain.rs:90-132 | For any node, what is collected is the pages of at most 200 requests, each for what lies behind the pages before, one behind the other, with the reason the loop ended; a later failure drops nothing |
| `Paging.PagingNeverSkips` | src/chain.rs:91-93 | On a feed that only grows in front, a loop that ends on a short page or the total has collected all that was listed at its start |
| `Paging.FoundIff` | src/chain.rs:90-132 | On a feed that changes in any way between requests, a finished loop has collected an item exactly when the item was on a page at the time that page was asked for |
| `Paging.SettledItemsAreFound` | src/chain.rs:91-93 | In particular an item that stays listed and never moves to the front |
| `Paging.PagingFinishes` | src/chain.rs:96-98 | Unless a request fails it ends that way, as long as the feed fits 200 pages |
| `Paging.AskingAboveTheCapTruncates` | src/main.rs:55-59 | Asking for more than the node's page cap stops after one page, which is everything exactly when the feed fits the cap |
| `Paging.ShrinkingFeedSkips` | src/chain.rs:91-93 | The smallest feed on which one item that is listed throughout is missed, because another leaves the front |
| `Pins.ConfirmedPins` | src/chain.rs:78-156 | Paging through the domains and collecting: the pins are sorted by height, distinct, each the first confirmed proposal of its hash; a hash is pinned exactly when a proposal of it was fetched whose height plus the confirmations is at most the tip (or that is at height 0 of a shorter chain); there is no list exactly when tip or domains cannot be had |
| `Pins.ListedAndConfirmedIsPinned` | src/chain.rs:84-156 | Every proposal confirmed and listed when its domain's enumeration began is pinned, if the feed only grows in front and the loop ends by itself |
| `Pins.PinnedWasServed` | src/chain.rs:140-153 | Every pin was served for some domain, confirmed |
| `Pins.SortByHeight` | src/chain.rs:154-155 | Sorted, a permutation, and stable |
| `Pins.PinnedHashesExact` | src/chain.rs:140-153 | The pinned hashes are exactly the lower-cased hashes of the fetched proposals up to a height |
| `Pins.PinnedIffConfirmed` | src/chain.rs:84-153 | That height is the tip minus the confirmations, and every pin respects it |
| `Pins.PinnedHashesIgnoreOrder` | src/chain.rs:137-153 | Neither the order in which domains complete nor duplicates from paging change which hashes are pinned, or how many |
| `UrlEncode.DecodeOfEncode` | src/chain.rs:160-169 | Percent-decoding returns the same bytes for every domain |
| `UrlEncode.EncodeInjective` | src/chain.rs:99-104 | Two domains never share a request path |
| `UrlEncode.EncodeIsOneSegment` | src/chain.rs:160-169 | Only unreserved characters and upper-case triplets come out, per sections 2.1 and 2.3 of RFC 3986 |
| `UrlEncode.EncodeIsDotSegmentIff` | src/chain.rs:99-104 | The segment is a dot segment, which section 5.2.4 of RFC 3986 resolves away, exactly for the domains `.` and `..` |
| `UrlEncode.EncodeKeepsPlainIff` | src/chain.rs:160-169 | Nothing is encoded exactly when every byte is unreserved |
| `UrlEncode.EncodeForExample` | src/chain.rs:160-169 | A slash and a byte beyond ASCII as triplets, and the four marks as they are |
| `Ranges.RangesHonouredIff` | src/gateway.rs:257-269 | A well-formed single range is answered with exactly the positions section 14.1.2 of RFC 9110 selects, unless its first position exceeds 64 bits (with the exceptions where even that does no harm) |
| `Ranges.PartialIsTheSlice` | src/gateway.rs:217-246 | For any header a 206 body is the announced in-bounds slice with the announced length, and an empty object gives 416 |
| `Ranges.WholeIff` | src/gateway.rs:217-261 | The whole object comes back exactly when there is no header, or none that starts with the unit and has a dash after it |
| `Ranges.AnyRangeIsServed` | src/gateway.rs:257-269 | For any range header, well-formed or not, exactly the positions are served that the numbers before and after its first dash ask for |
| `Ranges.ParseU64Iff` | src/gateway.rs:260-260 | A number is decimal digits, with a plus sign or not, that fit 64 bits |
| `Ranges.ValueOfAppend` | src/gateway.rs:260-260 | Decimal notation: what stands before n digits counts 10^n fold |
| `Ranges.PiecesReassemble` | src/gateway.rs:217-246 | The 206 bodies of any contiguous partition into ranges join to the object |
| `Ranges.ParseOfRender` | src/gateway.rs:257-261 | Each form of range header is parsed to its positions |
| `Gateway.GetContent` | src/gateway.rs:189-255 | Which of 400, 410, 503, 404, 500 and content comes back, each exactly when; content is the held, verified object, whole exactly when no Range header asks for a range, else under that range |
| `Gateway.HeadContent` | src/gateway.rs:176-187 | Which of 400, 410, 404 and headers comes back, with the true length |
| `Gateway.CtEq` | src/gateway.rs:66-75 | The accumulating comparison agrees with equality |
| `Peering.AcceptGet` | src/p2p.rs:218-226 | Peer bytes pass exactly when within the cap and hashing to the normalised wanted hash |
| `EventLoops.EventLoop.OnWant` | src/p2p.rs:340-350 | A want is sent to one known provider, or answered with nothing when there is none; all invariants are kept |
| `EventLoops.EventLoop.OnGossip` | src/p2p.rs:387-402 | The line loop records what the message announces, within the bounds; all invariants are kept |
| `EventLoops.EventLoop.Run` | src/p2p.rs:336-445 | Over any events the loop ends in the state the run theorems speak about, with all their invariants |
| `PeeringInvariants.WantsAreConserved` | src/p2p.rs:340-440 | In every run each want is answered exactly once or waits in exactly one pending entry, and bytes it gets hash to its normalised hash and are within the cap |
| `PeeringInvariants.EndSettlesWant` | src/p2p.rs:432-440 | Any response to a pending request, and any failure of it, removes the entry and answers its want, with the body if it is verified and with nothing otherwise |
| `PeeringInvariants.PendingIff` | src/p2p.rs:340-440 | In every run a request is pending exactly when it was sent and neither a response to it nor its failure has come up since |
| `PeeringInvariants.WaitingIff` | src/p2p.rs:340-440 | And a want is waiting exactly when there is such a request for it |
| `PeeringInvariants.StrayAnswersAreIgnored` | src/p2p.rs:432-440 | Unknown or repeated response ids change nothing |
| `PeeringInvariants.ServesAreConserved` | src/p2p.rs:332-429 | Permits and their holders add up to 16, at most 32 bodies are buffered, and each inbound request is in exactly one of reading, queued and answered, and answered at most once |
| `PeeringInvariants.RequestIsTaken` | src/p2p.rs:405-429 | A Have is answered at once; a Get is refused at once exactly when no permit is free, and else takes one and reads under its normalised key |
| `PeeringInvariants.PermitsComeBack` | src/p2p.rs:416-429 | From any state, when the serves under way go through, all 16 permits are free again |
| `PeeringInvariants.ProvidersStayBounded` | src/p2p.rs:25-26 | In every run at most 100,000 hashes are tracked, all canonical, each with 1 to 64 peers |
| `PeeringInvariants.AddProvidersKeep` | src/p2p.rs:387-402 | Any message keeps the provider table within 100,000 canonical hashes of 1 to 64 peers, forgets nothing and adds only what its sender announced |
| `PeeringInvariants.ProvidersWereAnnounced` | src/p2p.rs:387-402 | Every provider on record announced that hash itself, in a message of the run |
| `PeeringInvariants.ProvidersOnlyGrow` | src/p2p.rs:387-402 | No event removes a provider |
| `PeeringInvariants.WantFindsPeerIff` | src/p2p.rs:340-350 | A want finds a peer exactly when its hash is tracked, and is turned away otherwise |
| `PeeringInvariants.HonestReplyIsAccepted` | src/p2p.rs:432-436 | A holder asked for a pending hash looks up the right key, and its bytes reach the waiting want |
| `PeeringInvariants.InvAlways` | src/p2p.rs:336-445 | All these invariants hold in every run, whatever peers send |
| `Gossip.PublishedIsUnderstood` | src/p2p.rs:229-246 | The receiver splits an announcement into exactly the held hashes, in any listing order |
| `Gossip.NamedIff` | src/p2p.rs:389-394 | A message names a hash exactly when one of its lines writes it |
| `Gossip.LineRecordsIff` | src/p2p.rs:390-400 | A line adds its sender under the hash it writes exactly when that hash is known or there is room for another, and there is room for another peer |
| `Gossip.ReceiverRecords` | src/p2p.rs:387-402 | A receiver with room records the sender for exactly the hashes a message names, whatever else is in it |
| `Gossip.ListingLists` | src/store.rs:229-236 | What the store lists is, stripped of its prefixes, exactly its index |
| `Gossip.HolderAnswers` | src/p2p.rs:416-429 | A holder with a permit to spare answers a Get with what it holds, if not denied, under the normalised key, after what was queued before |
| `Gossip.ReplicationWorks` | src/p2p.rs:229-440 | List, announce, want, serve, answer, store, over the states and stores of both nodes: a held and undenied blob reaches another node that wants it, without any origin |
| `Ingest.PayloadIff` | src/main.rs:198-220 | There is a payload for a valid hash exactly when a candidate or a peer has it, and it is verified and in cap |
| `Ingest.IngestPin` | src/main.rs:186-240 | Which outcome a pin has, each exactly when, and what the store then holds |
| `Ingest.IngestPass` | src/main.rs:182-249 | The counters and the denied pins add up to the number of pins, nothing held is lost, only verified payloads of pins are added; each pin ends denied, held or failed as the store left by the pins before it decides, never fetched if it was held |
| `Ingest.HeldAfterPassIff` | src/main.rs:182-249 | Without a budget, a hash is held after a pass exactly when it was before or one of its pins is valid, undenied, available and stored without a disk error |
| `Ingest.EveryOutcomeIsCounted` | src/main.rs:184-240 | The four counters plus the denied pins make up the whole list |
| `Network.OnlyListedVerifiedContent` | src/main.rs:182-241 | For any number of nodes and arbitrary servers and peers, restarts on leftover files included, every blob a node holds was in its directory at the very start, or hashes to its key, is within the object cap, and its key was listed by the chain |
| `Network.NodeStepKeepsSound` | src/main.rs:186-241 | Every step of a node keeps that, from the allowlist through fetch, want and answer to the store |
| `Network.PinGetsStored` | src/main.rs:182-240 | A listed pin that is neither denied nor held and that some candidate delivers is in the store after its turn, if the store takes it |
| `Network.PinGetsStoredFromPeer` | src/main.rs:207-240 | And if no candidate delivers it, a peer on record for it that answers with it does |
| `Network.PinGetsGivenUp` | src/main.rs:232-240 | A pin that nobody has is given up with the store as it was |
| `Network.AdminTakesEffect` | src/store.rs:179-215 | A deny that succeeds leaves its hash denied and not held, an allow leaves it not denied |
| `Network.RestartReadsDirectory` | src/store.rs:56-91 | After a restart a node holds and denies what its directory says |
| `Network.ListedWasReturned` | src/main.rs:182-183 | In every history, what a node's allowlist has was returned to that node by the chain |

## Left out

- libp2p itself (handshakes, gossipsub mesh, connection limits, identify, ping, dialling) and identity
  files: events deliver arbitrary messages and fresh request ids.
- The CBOR codec and its limits: a response that does not decode appears as an outbound failure.
- HTTP clients, routing, admin tokens as headers, JSON shapes and headers other than length, range and
  entity tag.
- `host_is_public`, `ip_is_public`, `candidate_urls`, redirects, src/gateways.rs and src/peers.rs:
  candidates are an arbitrary list of responses.
- Health, pin and peer listings, logging, environment parsing.
- Timers and fairness: what is proved is safety, or progress under a stated assumption.
- The end of the event loop when its command channel closes; wants then pending are dropped with it.
- Effects of two concurrent writers inside one temporary file beyond arbitrary contents.
- Network.OnlyListedVerifiedContent: a node's store there is updated by whole operations; its
  concurrency is in `StoreSteps`. A peer's messages are arbitrary, so that a message is another node's
  is not used; `Gossip.ReplicationWorks` is where two nodes meet.
- EventLoops.EventLoop.OnHaveRequest: takes the store's answer as given; its three store reads are steps
  of `StoreSteps.ServeStep`.
- Takedown.BanPersists: after a handler dropped in mid-rewrite it promises nothing about the file until
  the list has recovered (`StoreInvariants.DenylistRecovers`); which single entries survive in between
  depends on what is in the shared temporary. In memory `Takedown.WithheldPersists` covers those runs.
- Takedown.CommitBans: excludes states in which a call of a dropped handler is left on the list, where
  it fails (`Cancellation.LateWriteUndoesDeny`).
- Ranges.RangesHonouredIff: speaks of single ranges with a valid syntax; a last position before the
  first counts as asking for nothing, which the code answers with 416.
