/** The re-sort that ends every snapshot (src/db/boards.ts:92-94): `sort` with the comparator
    `b.meta.stamp - a.meta.stamp`, newest first. `Array.prototype.sort` is stable, so it is
    modelled by a stable insertion sort; `SortedStableIsStampSort` shows that every stable
    sort by this comparator gives the same list. */
module StampOrder {
  import opened Types
  import opened Reconcile

  /** Non-increasing by stamp. */
  predicate SortedByStamp(s: seq<Board>) {
    forall i, j :: 0 <= i < j < |s| ==> s[i].meta.stamp >= s[j].meta.stamp
  }

  /** The entries stamped `t`, in list order; a sort is stable when it keeps every such list. */
  function WithStamp(s: seq<Board>, t: int): seq<Board> {
    if s == [] then []
    else (if s[0].meta.stamp == t then [s[0]] else []) + WithStamp(s[1..], t)
  }

  /** `x` placed into `s` before the first entry whose stamp is not greater than its own. */
  function Insert(x: Board, s: seq<Board>): seq<Board> {
    if s == [] || s[0].meta.stamp <= x.meta.stamp then [x] + s
    else [s[0]] + Insert(x, s[1..])
  }

  /** The list sorted by stamp, newest first, equal stamps in their original order. */
  function StampSort(s: seq<Board>): seq<Board> {
    if s == [] then [] else Insert(s[0], StampSort(s[1..]))
  }

  lemma {:induction false} InsertMultiset(x: Board, s: seq<Board>)
    ensures multiset(Insert(x, s)) == multiset(s) + multiset{x}
  {
    if s != [] && s[0].meta.stamp > x.meta.stamp {
      InsertMultiset(x, s[1..]);
      assert s == [s[0]] + s[1..];
    }
  }

  /** Inserting keeps every stamp at or below a common bound. */
  lemma {:induction false} InsertBounded(x: Board, s: seq<Board>, bound: int)
    requires x.meta.stamp <= bound
    requires forall j :: 0 <= j < |s| ==> s[j].meta.stamp <= bound
    ensures forall j :: 0 <= j < |Insert(x, s)| ==> Insert(x, s)[j].meta.stamp <= bound
  {
    if s != [] && s[0].meta.stamp > x.meta.stamp {
      InsertBounded(x, s[1..], bound);
    }
  }

  lemma {:induction false} InsertSorted(x: Board, s: seq<Board>)
    requires SortedByStamp(s)
    ensures SortedByStamp(Insert(x, s))
  {
    if s != [] && s[0].meta.stamp > x.meta.stamp {
      InsertSorted(x, s[1..]);
      InsertBounded(x, s[1..], s[0].meta.stamp);
    }
  }

  /** Inserting `x` adds it to the entries of its own stamp, in front, and to no other. */
  lemma {:induction false} InsertWithStamp(x: Board, s: seq<Board>, t: int)
    ensures WithStamp(Insert(x, s), t) == (if x.meta.stamp == t then [x] else []) + WithStamp(s, t)
  {
    var own := if x.meta.stamp == t then [x] else [];
    if s == [] || s[0].meta.stamp <= x.meta.stamp {
      var r := [x] + s;
      assert r[0] == x && r[1..] == s;
      assert WithStamp(r, t) == own + WithStamp(s, t);
    } else {
      var rest := Insert(x, s[1..]);
      var r := [s[0]] + rest;
      var head := if s[0].meta.stamp == t then [s[0]] else [];
      InsertWithStamp(x, s[1..], t);
      assert r[0] == s[0] && r[1..] == rest;
      assert WithStamp(r, t) == head + (own + WithStamp(s[1..], t));
      assert WithStamp(s, t) == head + WithStamp(s[1..], t);
      assert head == [] || own == [];
    }
  }

  /** The result is a permutation of the input. */
  lemma {:induction false} StampSortPermutation(s: seq<Board>)
    ensures multiset(StampSort(s)) == multiset(s)
  {
    if s != [] {
      StampSortPermutation(s[1..]);
      InsertMultiset(s[0], StampSort(s[1..]));
      assert s == [s[0]] + s[1..];
    }
  }

  /** The result is newest first. */
  lemma {:induction false} StampSortSorted(s: seq<Board>)
    ensures SortedByStamp(StampSort(s))
  {
    if s != [] {
      StampSortSorted(s[1..]);
      InsertSorted(s[0], StampSort(s[1..]));
    }
  }

  /** The sort is stable: the boards of any one stamp keep their order. */
  lemma {:induction false} StampSortStable(s: seq<Board>, t: int)
    ensures WithStamp(StampSort(s), t) == WithStamp(s, t)
  {
    if s != [] {
      StampSortStable(s[1..], t);
      InsertWithStamp(s[0], StampSort(s[1..]), t);
    }
  }

  lemma {:induction false} WithStampMember(s: seq<Board>, t: int, b: Board)
    ensures b in WithStamp(s, t) <==> b in s && b.meta.stamp == t
  {
    if s != [] {
      WithStampMember(s[1..], t, b);
      assert s == [s[0]] + s[1..];
    }
  }

  lemma HeadHasStamp(s: seq<Board>)
    requires s != []
    ensures WithStamp(s, s[0].meta.stamp) != []
  {
  }

  lemma NoStampsEmpty(s: seq<Board>)
    requires forall t :: WithStamp(s, t) == []
    ensures s == []
  {
    if s != [] {
      HeadHasStamp(s);
      assert false;
    }
  }

  /** Two non-empty sorted lists with the same entries per stamp start with the same board. */
  lemma SameHeads(r: seq<Board>, q: seq<Board>)
    requires r != [] && q != []
    requires SortedByStamp(r) && SortedByStamp(q)
    requires forall t :: WithStamp(r, t) == WithStamp(q, t)
    ensures r[0] == q[0]
  {
    var m, n := r[0].meta.stamp, q[0].meta.stamp;
    WithStampMember(r, n, q[0]);
    WithStampMember(q, m, r[0]);
    WithStampMember(q, n, q[0]);
    assert q[0] in r;
    assert r[0] in q;
    assert m == n;
    assert WithStamp(r, m)[0] == r[0];
    assert WithStamp(q, m)[0] == q[0];
  }

  /** Dropping equal heads from two lists with the same entries per stamp keeps them so. */
  lemma SameHeadTails(r: seq<Board>, q: seq<Board>, t: int)
    requires r != [] && q != [] && r[0] == q[0]
    requires WithStamp(r, t) == WithStamp(q, t)
    ensures WithStamp(r[1..], t) == WithStamp(q[1..], t)
  {
    if r[0].meta.stamp == t {
      assert WithStamp(r, t) == [r[0]] + WithStamp(r[1..], t);
      assert WithStamp(q, t) == [q[0]] + WithStamp(q[1..], t);
      assert WithStamp(r[1..], t) == WithStamp(r, t)[1..];
    } else {
      assert WithStamp(r, t) == WithStamp(r[1..], t);
      assert WithStamp(q, t) == WithStamp(q[1..], t);
    }
  }

  /** Two sorted lists with the same entries per stamp, in the same order, are equal. */
  lemma {:induction false} SortedSameStampsEqual(r: seq<Board>, q: seq<Board>)
    requires SortedByStamp(r) && SortedByStamp(q)
    requires forall t :: WithStamp(r, t) == WithStamp(q, t)
    ensures r == q
    decreases |r|
  {
    if r == [] {
      NoStampsEmpty(q);
    } else if q == [] {
      NoStampsEmpty(r);
    } else {
      SameHeads(r, q);
      forall t ensures WithStamp(r[1..], t) == WithStamp(q[1..], t) {
        SameHeadTails(r, q, t);
      }
      SortedSameStampsEqual(r[1..], q[1..]);
      assert r == [r[0]] + r[1..] && q == [q[0]] + q[1..];
    }
  }

  /** Any sorted, stable reordering of `s` is `StampSort(s)`: the model does not depend on
      which stable algorithm the JavaScript engine uses. */
  lemma SortedStableIsStampSort(s: seq<Board>, r: seq<Board>)
    requires SortedByStamp(r)
    requires forall t :: WithStamp(r, t) == WithStamp(s, t)
    ensures r == StampSort(s)
  {
    StampSortSorted(s);
    forall t ensures WithStamp(r, t) == WithStamp(StampSort(s), t) {
      StampSortStable(s, t);
    }
    SortedSameStampsEqual(r, StampSort(s));
  }

  /** Sorting keeps the key set. */
  lemma StampSortKeys(s: seq<Board>)
    ensures KeySet(StampSort(s)) == KeySet(s)
  {
    StampSortPermutation(s);
    assert forall b :: b in StampSort(s) <==> b in multiset(StampSort(s));
  }

  /** Sorting never creates a second entry for a key. */
  lemma {:induction false} StampSortUnique(s: seq<Board>)
    requires UniqueKeys(s)
    ensures UniqueKeys(StampSort(s))
  {
    if s != [] {
      var rest := StampSort(s[1..]);
      StampSortUnique(s[1..]);
      StampSortKeys(s[1..]);
      KeySetAt(s[1..], s[0].key);
      InsertUniqueKeys(s[0], rest);
    }
  }

  /** Every entry after an insertion is the inserted board or an entry of the list. */
  lemma {:induction false} InsertOrigin(x: Board, s: seq<Board>)
    ensures forall j :: 0 <= j < |Insert(x, s)| ==> Insert(x, s)[j] == x || Insert(x, s)[j] in s
  {
    if s != [] && s[0].meta.stamp > x.meta.stamp {
      InsertOrigin(x, s[1..]);
      assert forall b :: b in s[1..] ==> b in s;
    }
  }

  lemma {:induction false} InsertUniqueKeys(x: Board, s: seq<Board>)
    requires UniqueKeys(s) && x.key !in KeySet(s)
    ensures UniqueKeys(Insert(x, s))
  {
    if s != [] && s[0].meta.stamp > x.meta.stamp {
      assert x.key !in KeySet(s[1..]) by { assert forall b :: b in s[1..] ==> b in s; }
      InsertUniqueKeys(x, s[1..]);
      var r := Insert(x, s[1..]);
      InsertOrigin(x, s[1..]);
      forall j | 0 <= j < |r| ensures r[j].key != s[0].key {
        if r[j] != x {
          var m :| 0 <= m < |s[1..]| && s[1..][m] == r[j];
          assert s[m + 1] == r[j];
        }
      }
    }
  }

  /** In a list without duplicate keys, sorting does not change what a key finds. */
  lemma StampSortFind(s: seq<Board>, k: string)
    requires UniqueKeys(s)
    ensures Find(StampSort(s), k) == Find(s, k)
  {
    var r := StampSort(s);
    StampSortUnique(s);
    StampSortPermutation(s);
    StampSortKeys(s);
    match Find(s, k)
    case Some(b) =>
      UniqueFind(s, b);
      assert b in multiset(r);
      UniqueFind(r, b);
    case None =>
  }
}
