# noterv2 board store and route guard, in Dafny

noterv2 is a single-page notes application. Each signed-in user owns a collection of
"boards" in a hosted real-time database. The client keeps a live local copy of that
collection. This project models the two pieces of the client that make decisions:

- **The board store** (`useBoardsBase`, src/db/boards.ts). It builds the user-scoped
  database paths. Its listener `update` folds each pushed snapshot into the local list:
  for each child it replaces the first entry with the same key in place, or appends the
  child. It then re-sorts the list by `meta.stamp`, newest first, and steps the sync status
  `init → fetching → stale`. A watcher empties the list and unsubscribes on sign-out.
  `useBoard(id)` shows the board with key `id`, or a default template. It redirects to the
  not-found page when the board is absent after the first snapshot, `boardContext.newBoard`
  is defined, and it differs from `id`.
- **The route guard** (`router.beforeEach`, src/router/index.ts). It compares the auth state
  with the `requiresAuth` flags of the matched route records. It then proceeds, forwards a
  signed-in user away from the landing page, or sends a visitor to `/` with a `redirect`
  query.

Files, one module each:

- `types.dfy` (`Types`): `Board`, `BoardData`, `Meta`, `User`, `Option`. The editor blocks
  and the cover CSS are `Opaque` values.
- `reconcile.dfy` (`Reconcile`): `findIndex`/`find` by key, the replace-or-append step
  `Upsert`, and the fold over a snapshot, `Merge`. Lemmas cover the key set, key uniqueness
  and last-write-wins.
- `stamp_sort.dfy` (`StampOrder`): the re-sort, as a stable insertion sort. It is proved
  sorted, a permutation and stable. Any sorted stable reordering is proved equal to it, so
  the model does not depend on the engine's sort algorithm.
- `boards.dfy` (`Boards`): the paths, the per-snapshot result `Reconciled`, and runs of
  snapshots (`Replay`). Also `Lookup`, the redirect predicate, and the class `BoardStore`.
  In `BoardStore`, `ApplySnapshot` is the imperative `update` loop and `SetUser` is the
  sign-out watcher.
- `router.dfy` (`Router`): the route table as constant data, `every` over the matched
  records, and the guard. The guard returns the list of `next` calls it makes.

Three behaviours of the code that a reader might not expect, all modelled as written:

- The not-found redirect fires only when `boardContext.newBoard` is defined
  (src/db/boards.ts:138), besides the status being `stale`, no board having key `id`, and
  `newBoard` differing from `id` (src/db/boards.ts:139-141). While `newBoard` is undefined,
  an unknown id never redirects.
- Sign-out leaves the sync status as it was: the watcher empties the list and calls `off()`
  (src/db/boards.ts:103-108), and nothing resets `dbStatus` to `init`.
- The subscription path is fixed when the store is built (src/db/boards.ts:62). After a
  sign-out, a later sign-in registers no new subscription in this store.

## Model

| member | source | states |
|---|---|---|
| `Reconcile.FindIndex` | src/db/boards.ts:70-72 | -1 exactly when no entry has the key; otherwise the index of the first entry with it |
| `Reconcile.Find` | src/db/boards.ts:135 | `None` exactly when the key is absent from the list; otherwise the first entry with that key |
| `Reconcile.UniqueFind` | src/db/boards.ts:135 | with no duplicate keys, `find` by `b.key` returns `b` exactly when `b` is in the list |
| `Reconcile.Upsert` | src/db/boards.ts:70-89 | one child grows the list by at most one entry; entries with other keys stay at their positions |
| `Reconcile.UpsertKeys` | src/db/boards.ts:74-89 | after one child, the key set is the old one plus the child's key |
| `Reconcile.UpsertUnique` | src/db/boards.ts:74-89 | replace-or-append never creates a duplicate key |
| `Reconcile.UpsertFind` | src/db/boards.ts:83-89 | after one child, its key finds that child; every other key finds what it found before |
| `Reconcile.Merge` | src/db/boards.ts:69-90 | folding a snapshot in never shrinks the list |
| `Reconcile.MergeKeepsOthers` | src/db/boards.ts:69-90 | the fold keeps every old entry whose key the snapshot lacks at its position |
| `Reconcile.LastWith` | src/db/boards.ts:69-90 | `None` exactly when the key is not in the snapshot; otherwise the last child with that key |
| `Reconcile.MergeKeys` | src/db/boards.ts:69-90 | the key set after the fold is the old key set united with the snapshot's keys |
| `Reconcile.MergeUnique` | src/db/boards.ts:69-90 | no duplicate keys before the fold means none after it |
| `Reconcile.MergeFind` | src/db/boards.ts:69-90 | last write wins: a snapshot key finds its last child; other keys find what they found before |
| `StampOrder.Insert` | src/db/boards.ts:92-94 | one step of the stable sort: the board goes before the first entry not newer than it; it keeps a list newest first (`InsertSorted`), adds exactly that board (`InsertMultiset`) and goes first among its own stamp (`InsertWithStamp`) |
| `StampOrder.StampSort` | src/db/boards.ts:92-94 | the `sort` by `b.meta.stamp - a.meta.stamp`: non-increasing (`StampSortSorted`), a permutation (`StampSortPermutation`), stable (`StampSortStable`), and the only sorted stable reordering (`SortedStableIsStampSort`) |
| `StampOrder.InsertBounded` | src/db/boards.ts:92-94 | when the board and every entry of the list are stamped at most some bound, so is every entry after the insertion |
| `StampOrder.InsertSorted` | src/db/boards.ts:92-94 | inserting into a newest-first list keeps it newest-first |
| `StampOrder.InsertMultiset` | src/db/boards.ts:92-94 | inserting adds exactly the one board |
| `StampOrder.InsertWithStamp` | src/db/boards.ts:92-94 | an inserted board goes in front of the boards with its own stamp and leaves other stamps' order alone |
| `StampOrder.StampSortSorted` | src/db/boards.ts:92-94 | the sorted list is non-increasing by `meta.stamp` |
| `StampOrder.StampSortPermutation` | src/db/boards.ts:92-94 | the sorted list is a permutation of its input |
| `StampOrder.StampSortStable` | src/db/boards.ts:92-94 | boards with equal stamps keep their relative order |
| `StampOrder.SameHeads` | src/db/boards.ts:92-94 | two non-empty sorted lists with the same boards per stamp start with the same board |
| `StampOrder.SortedSameStampsEqual` | src/db/boards.ts:92-94 | two sorted lists with the same boards per stamp, in the same order, are equal |
| `StampOrder.SortedStableIsStampSort` | src/db/boards.ts:92-94 | every sorted, stable reordering of a list is the model's sort of it |
| `StampOrder.StampSortKeys` | src/db/boards.ts:92-94 | sorting keeps the key set |
| `StampOrder.InsertOrigin` | src/db/boards.ts:92-94 | every entry after an insertion is the inserted board or an entry of the list |
| `StampOrder.InsertUniqueKeys` | src/db/boards.ts:92-94 | inserting a board with a new key keeps keys unique |
| `StampOrder.StampSortUnique` | src/db/boards.ts:92-94 | sorting keeps keys unique |
| `StampOrder.StampSortFind` | src/db/boards.ts:92-94 | with unique keys, sorting does not change what any key finds |
| `Boards.UserPath` | src/db/boards.ts:57-60 | the collection path is empty exactly when no user is signed in |
| `Boards.BoardPath` | src/db/boards.ts:111-114 | a record path is the user's collection path plus `/` and the id; with no user it names the user `undefined` |
| `Boards.UserPathInjective` | src/db/boards.ts:57-60 | different users get different collection paths |
| `Boards.Reconciled` | src/db/boards.ts:69-94 | the list `update` leaves after one snapshot, the fold then the sort: newest first and a stable permutation of the fold (`ReconciledOrder`), key set grown by the snapshot's keys (`ReconciledKeys`), unique keys kept (`ReconciledUnique`), last write wins (`ReconciledFind`) |
| `Boards.ReconciledOrder` | src/db/boards.ts:92-94 | after a snapshot the list is newest first and a stable permutation of the merged list |
| `Boards.ReconciledKeys` | src/db/boards.ts:69-94 | after a snapshot the key set is the old one united with the snapshot's keys, so no board is removed |
| `Boards.ReconciledUnique` | src/db/boards.ts:69-94 | a list without duplicate keys has none after a snapshot |
| `Boards.ReconciledFind` | src/db/boards.ts:69-94 | a snapshot key finds its last child in the snapshot; any other key finds its old entry unchanged |
| `Boards.ReconciledKeepsAbsent` | src/db/boards.ts:69-94 | a board whose key the snapshot does not carry is still in the list, unchanged |
| `Boards.ReplayLastWins` | src/db/boards.ts:64-99 | over any run of snapshots from an empty list: one entry per key seen, carrying the most recent child; sorted newest first |
| `Boards.Lookup` | src/db/boards.ts:149-153 | the first board with key `id` when there is one, otherwise `BOARD_DEFAULT` |
| `Boards.ShouldRedirect` | src/db/boards.ts:137-142 | true exactly when `newBoard` is defined, the status is `stale`, no board has key `id` and `newBoard` differs from `id` |
| `Boards.LookupAfterSnapshot` | src/db/boards.ts:130-153 | once a snapshot carrying `id` is in, `useBoard(id)` shows that key's last child and does not redirect |
| `Boards.MissingBoardShowsTemplate` | src/db/boards.ts:16-49 | an id no board carries shows `BOARD_DEFAULT`: named `Untitled`, cover `🔰`, editor version `2.18.0` |
| `Boards.LookupUnique` | src/db/boards.ts:149-153 | with unique keys, the lookup by a member's key returns that member |
| `Boards.BoardStore.constructor` | src/db/boards.ts:51-62 | the store starts empty in `init`, subscribed on the user's path; with no user the watcher unsubscribes at once; the store invariants hold |
| `Boards.BoardStore.ApplySnapshot` | src/db/boards.ts:64-99 | the new list is the children folded in and sorted; the status is `stale` from any start; afterwards the list has unique keys, is newest first, and each key finds its most recent child over all snapshots since the last sign-out |
| `Boards.BoardStore.SetUser` | src/db/boards.ts:103-108 | a null user empties the list and unsubscribes; the status is kept; a signed-in user changes nothing else; the store invariants hold afterwards |
| `Boards.StoreInvariant` | src/db/boards.ts:64-108 | every store reachable through these operations has unique keys, is newest first, holds exactly the keys delivered since the list was last emptied, and each key finds its most recent child |
| `Router.RequiresAuth` | src/router/index.ts:71 | true exactly when every matched record requires auth, so an empty match requires auth |
| `Router.GuardCalls` | src/router/index.ts:68-88 | one or two `next` calls; two exactly on a public route that is not a signed-in visit to `home` |
| `Router.GuardCallsFixed` | src/router/index.ts:73-78 | the guard with `return next()` makes exactly one call |
| `Router.Decision` | src/router/index.ts:68-88 | the navigation vue-router acts on: the first `next` call of the guard as written (`FixedGuardKeepsFirstCall`) |
| `Router.FixedGuardKeepsFirstCall` | src/router/index.ts:68-88 | the fixed guard's only call is the first call of the guard as written |
| `Router.PublicRouteCallsNextTwice` | src/router/index.ts:73-87 | an unauthenticated visit to `/404` proceeds, then makes a second `next` call asking for `/` with `redirect` set to `/404` |
| `Router.RouteTableChains` | src/router/index.ts:13-65 | the routes a navigation ends on: `home`, `/user` with its child, `/:boardId` with its child, `404` |
| `Router.RouteTableAuth` | src/router/index.ts:13-65 | both `/user` records and both `/:boardId` records require auth, `home` and `404` do not |
| `Router.EmptyMatchRequiresAuth` | src/router/index.ts:71 | a navigation with no matched record is guarded and sends an unauthenticated visitor to `/` |
| `Router.HomeForwardsSignedInUser` | src/router/index.ts:74-75 | a signed-in visit to `home` goes to the `redirect` query value, or to `/user` without one |
| `Router.GuardedRoute` | src/router/index.ts:80-87 | on a guarded route: signed-in proceeds; otherwise redirect to `/` with the full path |
| `Router.PublicRouteFallThrough` | src/router/index.ts:73-87 | on other public visits the first call proceeds; the second call proceeds again for a signed-in user or asks for `/` with `redirect` set to the full path |
| `Router.NoUnauthenticatedEntry` | src/router/index.ts:80-87 | an unauthenticated visitor never proceeds onto a guarded route |
| `Router.SignInReturnsToTarget` | src/router/index.ts:74-87 | the `/` redirect that stops an unauthenticated visit leads back to the target after sign-in |

## Left out

- Firebase calls (`getDatabase`, `ref`, `onValue`, `update`, `remove`) are asynchronous
  network I/O. A snapshot is the sequence of its children, each a `Board`. Delivery is a
  call of `ApplySnapshot`.
- Delivery after `off()` is not ruled out. The database SDK stops calling the listener
  then, and `update` itself checks nothing, so `ApplySnapshot` does not consult `subscribed`.
- The bodies of `updateBoard` and `deleteBoard` are foreign async writes and a navigation.
  Only the path they build is modelled (`BoardPath`). Rejected writes are not modelled.
- Vue reactivity is left out: `ref`, `computed`, `watchEffect` scheduling (`flush: 'post'`)
  and the `createSharedComposable` singleton. The redirect is the boolean `ShouldRedirect`.
  `router.push('/404')` and `off()` appear only as that boolean and the `subscribed` flag.
- The intermediate status `fetching` exists only while `update` runs. No watcher can observe
  it, because the listener runs to completion.
- `authReady`/`onAuthStateChanged` and vue-router's path matching are not modelled. The guard
  takes the auth state and the matched records as inputs. `LeafChains` covers the table's
  single level of nesting.
- vue-router acts on the first `next` call and ignores later ones. This is taken as given,
  not modelled. `Decision` is therefore the first call.
- Query values that are arrays or `null` are not modelled. `redirect` is an optional string.
- `meta.stamp` is an unbounded `int`. NaN or missing stamps, and the float subtraction in
  the comparator, are not modelled.
- The sort algorithm of the JavaScript engine is not modelled. The stable insertion sort
  stands in for it, and `SortedStableIsStampSort` shows that every stable sort gives the same
  list.
- `BOARD_DEFAULT`'s HTML blocks and CSS gradient are opaque tokens. The source gives it no
  key, stamp or time; the model uses `""` and `0`.
- `Boards.ReconciledFind`: stated only for lists without duplicate keys. With duplicates,
  sorting can reorder same-key entries. Every list the store holds has unique keys
  (`ReplayLastWins`).
- src/db/index.ts (environment config, auth wrappers), src/main.ts (bootstrap),
  src/store/app.ts (a drawer toggle) and uno.config.ts (CSS tooling) are not part of this
  model.

## Findings

| source | as written | input that shows it | evidently intended | confidence | as-written member | corrected member |
|---|---|---|---|---|---|---|
| src/router/index.ts:77 | `next()` on the public-route branch has no `return`, so control falls through to lines 80-87 and calls `next` again | an unauthenticated visit to `/404`: `next()` and then `next({ path: '/', query: { redirect: '/404' } })` | `return next()`, one call per navigation | high; not executed | `Router.PublicRouteCallsNextTwice` | `Router.GuardCallsFixed` |
