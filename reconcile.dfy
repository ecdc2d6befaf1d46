/** Folding the children of a pushed snapshot into the local board list
    (the `forEach` of `update` in src/db/boards.ts), before the list is re-sorted. */
module Reconcile {
  import opened Types

  /** The keys present in a board list. */
  function KeySet(s: seq<Board>): set<string> {
    set b | b in s :: b.key
  }

  /** No key occurs twice in the list. */
  predicate UniqueKeys(s: seq<Board>) {
    forall i, j :: 0 <= i < j < |s| ==> s[i].key != s[j].key
  }

  lemma KeySetAt(s: seq<Board>, k: string)
    ensures k in KeySet(s) <==> exists i :: 0 <= i < |s| && s[i].key == k
  {
    if k in KeySet(s) {
      var b :| b in s && b.key == k;
      var i :| 0 <= i < |s| && s[i] == b;
    }
  }

  /** `findIndex` by key: the first position holding key `k`, or -1 when no entry has it. */
  function FindIndex(s: seq<Board>, k: string): (r: int)
    ensures -1 <= r < |s|
    ensures r == -1 <==> forall i :: 0 <= i < |s| ==> s[i].key != k
    ensures 0 <= r ==> s[r].key == k && forall i :: 0 <= i < r ==> s[i].key != k
  {
    if s == [] then -1
    else if s[0].key == k then 0
    else
      var rest := FindIndex(s[1..], k);
      if rest == -1 then -1 else rest + 1
  }

  /** `find` by key: the first board holding key `k`, if any. */
  function Find(s: seq<Board>, k: string): (r: Option<Board>)
    ensures r.None? <==> k !in KeySet(s)
    ensures r.Some? ==> exists i :: 0 <= i < |s| && s[i] == r.value && s[i].key == k
                                    && forall j :: 0 <= j < i ==> s[j].key != k
  {
    KeySetAt(s, k);
    var i := FindIndex(s, k);
    if i == -1 then None else Some(s[i])
  }

  /** In a list without duplicate keys, `find` returns exactly the member with that key. */
  lemma UniqueFind(s: seq<Board>, b: Board)
    requires UniqueKeys(s)
    ensures Find(s, b.key) == Some(b) <==> b in s
  {
    if b in s {
      var i :| 0 <= i < |s| && s[i] == b;
      var j := FindIndex(s, b.key);
      assert j == i;
    }
  }

  /** One child folded into the list (src/db/boards.ts:70-89): the first entry with the
      child's key is replaced in place, or the child is appended when no entry has it. */
  function Upsert(s: seq<Board>, c: Board): (r: seq<Board>)
    ensures |s| <= |r| <= |s| + 1
    ensures forall i :: 0 <= i < |s| && s[i].key != c.key ==> r[i] == s[i]
  {
    var i := FindIndex(s, c.key);
    if i == -1 then s + [c] else s[i := c]
  }

  lemma UpsertKeys(s: seq<Board>, c: Board)
    ensures KeySet(Upsert(s, c)) == KeySet(s) + {c.key}
  {
    var i := FindIndex(s, c.key);
    var r := Upsert(s, c);
    if i != -1 {
      forall k | k in KeySet(s) + {c.key} ensures k in KeySet(r) {
        KeySetAt(s, k);
        if k != c.key {
          var j :| 0 <= j < |s| && s[j].key == k;
          assert r[j] in r;
        } else {
          assert r[i] in r;
        }
      }
      forall k | k in KeySet(r) ensures k in KeySet(s) + {c.key} {
        var j :| 0 <= j < |r| && r[j].key == k by { KeySetAt(r, k); }
        if j != i { assert s[j] in s; }
      }
    }
  }

  /** Replacing or appending never creates a second entry for a key. */
  lemma UpsertUnique(s: seq<Board>, c: Board)
    requires UniqueKeys(s)
    ensures UniqueKeys(Upsert(s, c))
  {
    KeySetAt(s, c.key);
  }

  /** After folding `c`, its key finds `c`; every other key finds what it found before. */
  lemma UpsertFind(s: seq<Board>, c: Board, k: string)
    ensures Find(Upsert(s, c), k) == if k == c.key then Some(c) else Find(s, k)
  {
    var i := FindIndex(s, c.key);
    var r := Upsert(s, c);
    var j := FindIndex(r, k);
    if k == c.key {
      if i == -1 {
        assert forall m :: 0 <= m < |s| ==> r[m] == s[m];
        assert r[|s|] == c;
        assert j == |s|;
      } else {
        assert forall m :: 0 <= m < i ==> r[m] == s[m];
        assert r[i] == c;
        assert j == i;
      }
    } else {
      assert forall m :: 0 <= m < |s| ==> (r[m].key == k <==> s[m].key == k);
      assert i == -1 ==> r[|s|].key != k;
      assert j == FindIndex(s, k);
    }
  }

  /** The children of one snapshot folded into `s` in order (src/db/boards.ts:69-90). */
  function Merge(s: seq<Board>, children: seq<Board>): (r: seq<Board>)
    ensures |s| <= |r|
    decreases |children|
  {
    if children == [] then s
    else Upsert(Merge(s, children[..|children| - 1]), children[|children| - 1])
  }

  /** The fold leaves every entry whose key the snapshot does not carry at its position. */
  lemma {:induction false} MergeKeepsOthers(s: seq<Board>, children: seq<Board>)
    ensures forall i :: 0 <= i < |s| && s[i].key !in KeySet(children) ==> Merge(s, children)[i] == s[i]
    decreases |children|
  {
    if children != [] {
      var front := children[..|children| - 1];
      assert KeySet(children) == KeySet(front) + {children[|children| - 1].key};
      MergeKeepsOthers(s, front);
    }
  }

  /** The last child of a snapshot that carries key `k`, if any. */
  function LastWith(cs: seq<Board>, k: string): (r: Option<Board>)
    ensures r.None? <==> k !in KeySet(cs)
    ensures r.Some? ==> exists i :: 0 <= i < |cs| && cs[i] == r.value && cs[i].key == k
                                     && forall j :: i < j < |cs| ==> cs[j].key != k
    decreases |cs|
  {
    if cs == [] then None
    else if cs[|cs| - 1].key == k then Some(cs[|cs| - 1])
    else
      var front := cs[..|cs| - 1];
      assert KeySet(cs) == KeySet(front) + {cs[|cs| - 1].key};
      LastWith(front, k)
  }

  /** The last child with key `k` in `a + b` is the last in `b`, or else the last in `a`. */
  lemma {:induction false} LastWithConcat(a: seq<Board>, b: seq<Board>, k: string)
    ensures LastWith(a + b, k) == if k in KeySet(b) then LastWith(b, k) else LastWith(a, k)
    decreases |b|
  {
    if b == [] {
      assert a + b == a;
    } else {
      var front := b[..|b| - 1];
      assert (a + b)[..|a + b| - 1] == a + front;
      assert KeySet(b) == KeySet(front) + {b[|b| - 1].key};
      LastWithConcat(a, front, k);
    }
  }

  /** The key set only grows, and by exactly the snapshot's keys: no board is removed. */
  lemma {:induction false} MergeKeys(s: seq<Board>, children: seq<Board>)
    ensures KeySet(Merge(s, children)) == KeySet(s) + KeySet(children)
    decreases |children|
  {
    if children != [] {
      var front := children[..|children| - 1];
      var c := children[|children| - 1];
      assert children == front + [c];
      assert KeySet(children) == KeySet(front) + {c.key};
      MergeKeys(s, front);
      UpsertKeys(Merge(s, front), c);
    }
  }

  /** A list without duplicate keys keeps none after a snapshot is folded in. */
  lemma {:induction false} MergeUnique(s: seq<Board>, children: seq<Board>)
    requires UniqueKeys(s)
    ensures UniqueKeys(Merge(s, children))
    decreases |children|
  {
    if children != [] {
      var front := children[..|children| - 1];
      MergeUnique(s, front);
      UpsertUnique(Merge(s, front), children[|children| - 1]);
    }
  }

  /** Last write wins per key; a key the snapshot does not carry finds what it found before. */
  lemma {:induction false} MergeFind(s: seq<Board>, children: seq<Board>, k: string)
    ensures Find(Merge(s, children), k) == if k in KeySet(children) then LastWith(children, k) else Find(s, k)
    decreases |children|
  {
    if children != [] {
      var front := children[..|children| - 1];
      var c := children[|children| - 1];
      assert KeySet(children) == KeySet(front) + {c.key};
      MergeFind(s, front, k);
      UpsertFind(Merge(s, front), c, k);
    }
  }
}
