/** The shared board store `useBoardsBase` of src/db/boards.ts: the user-scoped paths, the
    snapshot listener `update` with its sync status, the sign-out watcher, and the
    per-board accessor `useBoard` (lookup with a default, and the not-found redirect). */
module Boards {
  import opened Types
  import opened Reconcile
  import opened StampOrder

  /** `dbStatus`: `Stale` means the first snapshot has been processed. */
  datatype SyncStatus = Init | Fetching | Stale

  // ---------------------------------------------------------------- paths

  /** The collection the store subscribes to (src/db/boards.ts:57-60). */
  function UserPath(user: Option<User>): (p: string)
    ensures p == "" <==> user.None?
  {
    match user
    case None => ""
    case Some(u) => "Users/" + u.uid + "/Boards"
  }

  /** The record written by `updateBoard` and removed by `deleteBoard`
      (src/db/boards.ts:113 and 122). With no user the template literal renders the
      missing uid as the text `undefined`. */
  function BoardPath(user: Option<User>, id: string): (p: string)
    ensures user.Some? ==> p == UserPath(user) + "/" + id
    ensures user.None? ==> p == UserPath(Some(User("undefined"))) + "/" + id
  {
    "Users/" + (match user case None => "undefined" case Some(u) => u.uid) + "/Boards/" + id
  }

  /** Distinct users get distinct collections. */
  lemma UserPathInjective(a: User, b: User)
    requires UserPath(Some(a)) == UserPath(Some(b))
    ensures a == b
  {
    var p := UserPath(Some(a));
    assert a.uid == p[6..|p| - 7];
    assert b.uid == p[6..|p| - 7];
  }

  // ---------------------------------------------------------------- snapshots

  /** The board list after one snapshot (src/db/boards.ts:69-94): the children folded in
      one at a time, then the whole list re-sorted newest first. */
  function Reconciled(boards: seq<Board>, children: seq<Board>): seq<Board> {
    StampSort(Merge(boards, children))
  }

  /** The list after a snapshot is sorted newest first, and it is the merged list reordered
      stably: same entries, and equal stamps in their merged order. */
  lemma ReconciledOrder(boards: seq<Board>, children: seq<Board>)
    ensures SortedByStamp(Reconciled(boards, children))
    ensures multiset(Reconciled(boards, children)) == multiset(Merge(boards, children))
    ensures forall t :: WithStamp(Reconciled(boards, children), t) == WithStamp(Merge(boards, children), t)
  {
    StampSortSorted(Merge(boards, children));
    StampSortPermutation(Merge(boards, children));
    forall t ensures WithStamp(Reconciled(boards, children), t) == WithStamp(Merge(boards, children), t) {
      StampSortStable(Merge(boards, children), t);
    }
  }

  /** The key set after a snapshot is the old one united with the snapshot's keys. */
  lemma ReconciledKeys(boards: seq<Board>, children: seq<Board>)
    ensures KeySet(Reconciled(boards, children)) == KeySet(boards) + KeySet(children)
  {
    MergeKeys(boards, children);
    StampSortKeys(Merge(boards, children));
  }

  /** Keys that were unique stay unique. */
  lemma ReconciledUnique(boards: seq<Board>, children: seq<Board>)
    requires UniqueKeys(boards)
    ensures UniqueKeys(Reconciled(boards, children))
  {
    MergeUnique(boards, children);
    StampSortUnique(Merge(boards, children));
  }

  /** Last write wins: a key of the snapshot finds its last child there; any other key
      finds exactly what it found before. */
  lemma ReconciledFind(boards: seq<Board>, children: seq<Board>, k: string)
    requires UniqueKeys(boards)
    ensures Find(Reconciled(boards, children), k)
         == if k in KeySet(children) then LastWith(children, k) else Find(boards, k)
  {
    MergeUnique(boards, children);
    StampSortFind(Merge(boards, children), k);
    MergeFind(boards, children, k);
  }

  /** A board whose key the snapshot does not carry is kept, unchanged. */
  lemma ReconciledKeepsAbsent(boards: seq<Board>, children: seq<Board>, b: Board)
    requires b in boards && b.key !in KeySet(children)
    ensures b in Reconciled(boards, children)
  {
    var i :| 0 <= i < |boards| && boards[i] == b;
    var m := Merge(boards, children);
    MergeKeepsOthers(boards, children);
    assert m[i] == b;
    StampSortPermutation(m);
    assert b in multiset(m);
  }

  /** Every snapshot delivered since the list was last empty, in order. */
  function Replay(snapshots: seq<seq<Board>>): seq<Board>
    decreases |snapshots|
  {
    if snapshots == [] then []
    else Reconciled(Replay(snapshots[..|snapshots| - 1]), snapshots[|snapshots| - 1])
  }

  lemma MergeNext(boards: seq<Board>, children: seq<Board>, i: nat)
    requires i < |children|
    ensures Merge(boards, children[..i + 1]) == Upsert(Merge(boards, children[..i]), children[i])
  {
    assert children[..i + 1][..i] == children[..i];
  }

  lemma ReplayNext(snapshots: seq<seq<Board>>, children: seq<Board>)
    ensures Replay(snapshots + [children]) == Reconciled(Replay(snapshots), children)
  {
    assert (snapshots + [children])[..|snapshots|] == snapshots;
  }

  /** All children of a run of snapshots, in delivery order. */
  function Flatten(snapshots: seq<seq<Board>>): seq<Board>
    decreases |snapshots|
  {
    if snapshots == [] then []
    else Flatten(snapshots[..|snapshots| - 1]) + snapshots[|snapshots| - 1]
  }

  lemma KeySetConcat(a: seq<Board>, b: seq<Board>)
    ensures KeySet(a + b) == KeySet(a) + KeySet(b)
  {
    assert forall x :: x in a + b <==> x in a || x in b;
  }

  /** Over any run of snapshots the list holds exactly one entry per key seen, carrying the
      most recently delivered child for that key, newest stamp first. */
  lemma {:induction false} ReplayLastWins(snapshots: seq<seq<Board>>)
    ensures UniqueKeys(Replay(snapshots))
    ensures SortedByStamp(Replay(snapshots))
    ensures KeySet(Replay(snapshots)) == KeySet(Flatten(snapshots))
    ensures forall k :: Find(Replay(snapshots), k) == LastWith(Flatten(snapshots), k)
    decreases |snapshots|
  {
    if snapshots != [] {
      var front := snapshots[..|snapshots| - 1];
      var last := snapshots[|snapshots| - 1];
      var before := Replay(front);
      ReplayLastWins(front);
      ReconciledUnique(before, last);
      ReconciledOrder(before, last);
      ReconciledKeys(before, last);
      KeySetConcat(Flatten(front), last);
      forall k ensures Find(Replay(snapshots), k) == LastWith(Flatten(snapshots), k) {
        ReconciledFind(before, last, k);
        LastWithConcat(Flatten(front), last, k);
      }
    }
  }

  // ---------------------------------------------------------------- useBoard

  /** `BOARD_DEFAULT` (src/db/boards.ts:16-49): the onboarding template shown for an id
      that is not in the list. Its content blocks and cover CSS are opaque here; it has
      no key, stamp or time in the source, modelled as "" and 0. */
  const BoardDefault: Board :=
    Board("", BoardData(Opaque(0), "2.18.0", 0), Meta("Untitled", 0, "\U{1F530}", Opaque(1)))

  /** The board `useBoard(id)` shows (src/db/boards.ts:149-153): the first board with key
      `id`, or the default template when there is none. */
  function Lookup(boards: seq<Board>, id: string): (r: Board)
    ensures id in KeySet(boards) ==> exists i :: 0 <= i < |boards| && boards[i] == r && r.key == id
                                                 && forall j :: 0 <= j < i ==> boards[j].key != id
    ensures id !in KeySet(boards) ==> r == BoardDefault
  {
    Find(boards, id).GetOr(BoardDefault)
  }

  /** The condition of the not-found redirect in `useBoard` (src/db/boards.ts:137-142):
      `newBoard` is defined, the first snapshot is in, no board has the key, and `newBoard`
      is not the key. */
  function ShouldRedirect(newBoard: Option<string>, status: SyncStatus, boards: seq<Board>, id: string): (r: bool)
    ensures r <==> newBoard.Some? && status == Stale && (forall b :: b in boards ==> b.key != id)
                   && newBoard.value != id
  {
    newBoard.Some? && status == Stale && Find(boards, id).None? && newBoard != Some(id)
  }

  /** Once a snapshot carrying `id` is in, `useBoard(id)` shows that key's last child there,
      and it does not redirect. */
  lemma LookupAfterSnapshot(boards: seq<Board>, children: seq<Board>, id: string, newBoard: Option<string>)
    requires UniqueKeys(boards) && id in KeySet(children)
    ensures Lookup(Reconciled(boards, children), id) == LastWith(children, id).value
    ensures !ShouldRedirect(newBoard, Stale, Reconciled(boards, children), id)
  {
    ReconciledFind(boards, children, id);
  }

  /** An id no board carries shows the onboarding template: an `Untitled` board with the
      `🔰` cover, in editor format 2.18.0. */
  lemma MissingBoardShowsTemplate(boards: seq<Board>, id: string)
    requires forall b :: b in boards ==> b.key != id
    ensures Lookup(boards, id).meta.name == "Untitled"
    ensures Lookup(boards, id).meta.cover == "\U{1F530}"
    ensures Lookup(boards, id).data.version == "2.18.0"
  {
  }

  /** In a list without duplicate keys the lookup returns exactly the member with the key. */
  lemma LookupUnique(boards: seq<Board>, b: Board)
    requires UniqueKeys(boards) && b in boards
    ensures Lookup(boards, b.key) == b
  {
    UniqueFind(boards, b);
  }

  // ---------------------------------------------------------------- the store

  /** One instance of `useBoardsBase`: the local list, the sync status, the signed-in user
      and whether the push subscription is still registered. */
  class BoardStore {
    var boards: seq<Board>
    var status: SyncStatus
    var user: Option<User>
    var subscribed: bool
    /** `dbRef` is built once, from the user at construction time (src/db/boards.ts:62). */
    const subscriptionPath: string
    /** The snapshots processed since the list was last emptied. */
    ghost var history: seq<seq<Board>>

    ghost predicate Valid()
      reads this
    {
      && boards == Replay(history)
      && (history != [] ==> status == Stale)
    }

    /** Setting up the store: an empty list in status `Init`, the subscription registered on
        the user's path; the sign-out watcher runs at once and unregisters it when there is
        no user (src/db/boards.ts:52-62, 101-108). */
    constructor (signedIn: Option<User>)
      ensures Valid()
      ensures boards == [] && status == Init && user == signedIn && history == []
      ensures subscriptionPath == UserPath(signedIn)
      ensures subscribed == signedIn.Some?
      ensures UniqueKeys(boards) && SortedByStamp(boards)
      ensures KeySet(boards) == KeySet(Flatten(history))
      ensures forall k :: Find(boards, k) == LastWith(Flatten(history), k)
    {
      boards := [];
      status := Init;
      user := signedIn;
      subscriptionPath := UserPath(signedIn);
      subscribed := signedIn.Some?;
      history := [];
    }

    /** The listener `update` (src/db/boards.ts:64-99), called with a snapshot's children. */
    method ApplySnapshot(children: seq<Board>)
      requires Valid()
      modifies this
      ensures Valid()
      ensures boards == Reconciled(old(boards), children)
      ensures history == old(history) + [children]
      ensures status == Stale
      ensures user == old(user) && subscribed == old(subscribed)
      ensures UniqueKeys(boards) && SortedByStamp(boards)
      ensures KeySet(boards) == KeySet(Flatten(history))
      ensures forall k :: Find(boards, k) == LastWith(Flatten(history), k)
    {
      if status == Init {
        status := Fetching;
      }
      label Folding:
      for i := 0 to |children|
        invariant boards == Merge(old(boards), children[..i])
        invariant status == old@Folding(status) && user == old(user)
        invariant subscribed == old(subscribed) && history == old(history)
      {
        var child := children[i];
        ghost var before := boards;
        var index := FindIndex(boards, child.key);
        if index == -1 {
          boards := boards + [child];
        } else {
          boards := boards[index := child];
        }
        assert boards == Upsert(before, child);
        MergeNext(old(boards), children, i);
      }
      assert children[..|children|] == children;
      boards := StampSort(boards);
      if status == Fetching {
        status := Stale;
      }
      ReplayNext(history, children);
      history := history + [children];
      ReplayLastWins(history);
    }

    /** The auth state changes; the watcher of src/db/boards.ts:103-108 empties the list and
        unregisters the subscription when the user becomes null. The status is kept, and a
        later sign-in does not register the subscription again. */
    method SetUser(u: Option<User>)
      requires Valid()
      modifies this
      ensures Valid()
      ensures user == u && status == old(status)
      ensures u.None? ==> boards == [] && !subscribed && history == []
      ensures u.Some? ==> boards == old(boards) && subscribed == old(subscribed) && history == old(history)
      ensures UniqueKeys(boards) && SortedByStamp(boards)
      ensures KeySet(boards) == KeySet(Flatten(history))
      ensures forall k :: Find(boards, k) == LastWith(Flatten(history), k)
    {
      user := u;
      if u.None? {
        boards := [];
        subscribed := false;
        history := [];
      }
      ReplayLastWins(history);
    }
  }

  /** What every reachable store holds: one entry per key delivered since the list was last
      emptied, carrying that key's most recent child, newest stamp first. */
  lemma StoreInvariant(store: BoardStore)
    requires store.Valid()
    ensures UniqueKeys(store.boards) && SortedByStamp(store.boards)
    ensures KeySet(store.boards) == KeySet(Flatten(store.history))
    ensures forall k :: Find(store.boards, k) == LastWith(Flatten(store.history), k)
  {
    ReplayLastWins(store.history);
  }
}
