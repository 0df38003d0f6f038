/**
 * Bounded, newest-first histories: the buffer algorithms of the entity template that players and
 * enemies share. A history is a sequence whose entries each carry a simulation step (given by
 * `key`); index 0 is the newest entry and the back is the oldest.
 */
module History {

  /** Steps never increase with the index: the freshest entry is at index 0. */
  predicate NewestFirst<T>(s: seq<T>, key: T -> nat) {
    forall i, j :: 0 <= i < j < |s| ==> key(s[i]) >= key(s[j])
  }

  /** Index of the first entry whose step is below k, or |s| when there is none
      (the scan `for (; i < c; ++i) if (a[i].step < k) break;`). */
  function FirstBelow<T>(s: seq<T>, key: T -> nat, k: nat): (i: nat)
    ensures i <= |s|
    ensures forall j :: 0 <= j < i ==> key(s[j]) >= k
    ensures i < |s| ==> key(s[i]) < k
    decreases |s|
  {
    if |s| == 0 || key(s[0]) < k then 0 else 1 + FirstBelow(s[1..], key, k)
  }

  /** Index of the first entry whose step is at most k, or |s| when there is none
      (the scan `for (; i < c; ++i) if (a[i].step <= k) break;`). */
  function FirstAtOrBelow<T>(s: seq<T>, key: T -> nat, k: nat): (i: nat)
    ensures i <= |s|
    ensures forall j :: 0 <= j < i ==> key(s[j]) > k
    ensures i < |s| ==> key(s[i]) <= k
    decreases |s|
  {
    if |s| == 0 || key(s[0]) <= k then 0 else 1 + FirstAtOrBelow(s[1..], key, k)
  }

  /** Array::Insert(i, x). */
  function Insert<T>(s: seq<T>, i: nat, x: T): (r: seq<T>)
    requires i <= |s|
    ensures |r| == |s| + 1 && r[i] == x
    ensures forall j :: 0 <= j < i ==> r[j] == s[j]
    ensures forall j :: i < j <= |s| ==> r[j] == s[j - 1]
  {
    s[..i] + [x] + s[i..]
  }

  /** The insertion step every history uses: when the buffer is full, a newcomer whose place is past
      the end is dropped, and otherwise the oldest entry is popped before the newcomer is inserted. */
  function BoundedInsert<T>(s: seq<T>, i: nat, x: T, cap: nat): (r: seq<T>)
    requires i <= |s| <= cap
    ensures |s| < cap ==> |r| == |s| + 1
    ensures |s| == cap ==> |r| == cap
    ensures (|s| < cap || i < |s|) ==> r[i] == x
  {
    if |s| == cap then
      if i == |s| then s else Insert(s[..|s| - 1], i, x)
    else
      Insert(s, i, x)
  }

  /** Inputs (and enemy states): the newcomer goes after every entry at least as new as it. */
  function InsertAfterEqual<T>(s: seq<T>, key: T -> nat, x: T, cap: nat): (r: seq<T>)
    requires |s| <= cap
    ensures |r| == if |s| < cap then |s| + 1 else cap
  {
    BoundedInsert(s, FirstBelow(s, key, key(x)), x, cap)
  }

  /** Cloned-entity states: the newcomer goes before every entry at most as new as it. */
  function InsertBeforeEqual<T>(s: seq<T>, key: T -> nat, x: T, cap: nat): (r: seq<T>)
    requires |s| <= cap
    ensures |r| == if |s| < cap then |s| + 1 else cap
  {
    BoundedInsert(s, FirstAtOrBelow(s, key, key(x)), x, cap)
  }

  /** RemoveOlderInputs: pop from the back while the back entry is older than k. */
  function TrimOlder<T>(s: seq<T>, key: T -> nat, k: nat): (r: seq<T>)
    ensures |r| <= |s| && r == s[..|r|]
    ensures forall j :: |r| <= j < |s| ==> key(s[j]) < k
    ensures |r| > 0 ==> key(r[|r| - 1]) >= k
    decreases |s|
  {
    if |s| > 0 && key(s[|s| - 1]) < k then TrimOlder(s[..|s| - 1], key, k) else s
  }

  /** The backwards scan `while (i >= 0 && a[i].step < k) --i;` started at index i. */
  function ScanBack<T>(s: seq<T>, key: T -> nat, k: nat, i: int): (r: int)
    requires -1 <= i < |s|
    ensures -1 <= r <= i
    ensures forall j :: r < j <= i ==> key(s[j]) < k
    ensures r >= 0 ==> key(s[r]) >= k
    decreases i + 1
  {
    if i < 0 || key(s[i]) >= k then i else ScanBack(s, key, k, i - 1)
  }

  /** Any index that satisfies the scan's exit condition is the one the scan finds. */
  lemma {:induction false} FirstBelowUnique<T>(s: seq<T>, key: T -> nat, k: nat, i: nat)
    requires i <= |s|
    requires forall j :: 0 <= j < i ==> key(s[j]) >= k
    requires i < |s| ==> key(s[i]) < k
    ensures FirstBelow(s, key, k) == i
    decreases |s|
  {
    if i > 0 {
      FirstBelowUnique(s[1..], key, k, i - 1);
    }
  }

  lemma {:induction false} FirstAtOrBelowUnique<T>(s: seq<T>, key: T -> nat, k: nat, i: nat)
    requires i <= |s|
    requires forall j :: 0 <= j < i ==> key(s[j]) > k
    requires i < |s| ==> key(s[i]) <= k
    ensures FirstAtOrBelow(s, key, k) == i
    decreases |s|
  {
    if i > 0 {
      FirstAtOrBelowUnique(s[1..], key, k, i - 1);
    }
  }

  lemma {:induction false} ScanBackUnique<T>(s: seq<T>, key: T -> nat, k: nat, i: int, r: int)
    requires -1 <= r <= i < |s|
    requires forall j :: r < j <= i ==> key(s[j]) < k
    requires r >= 0 ==> key(s[r]) >= k
    ensures ScanBack(s, key, k, i) == r
    decreases i + 1
  {
    if r < i {
      ScanBackUnique(s, key, k, i - 1, r);
    }
  }

  /** Which retained entries a time query at step k is answered from. */
  datatype Bracket = TooNew | TooOld | Between(newer: nat)

  /** The case split of GetStateAtTime / GetPositionAtTime after scanning from the oldest entry. */
  function Bracketing<T>(s: seq<T>, key: T -> nat, k: nat): (b: Bracket)
    requires |s| > 0
    ensures b == TooNew <==> forall j :: 0 <= j < |s| ==> key(s[j]) < k
    ensures b == TooOld <==> key(s[|s| - 1]) >= k
    ensures b.Between? ==> b.newer + 1 < |s| && key(s[b.newer + 1]) < k <= key(s[b.newer])
    ensures b.Between? ==> forall j :: b.newer < j < |s| ==> key(s[j]) < k
  {
    var last := |s| - 1;
    var i := ScanBack(s, key, k, last);
    if i == -1 then TooNew else if i == last then TooOld else Between(i)
  }

  /** Inserting at a place where every earlier entry is at least as new and the entry there is at
      most as new keeps a newest-first history newest-first. */
  lemma InsertKeepsOrder<T>(s: seq<T>, key: T -> nat, i: nat, x: T)
    requires NewestFirst(s, key) && i <= |s|
    requires forall j :: 0 <= j < i ==> key(s[j]) >= key(x)
    requires i < |s| ==> key(s[i]) <= key(x)
    ensures NewestFirst(Insert(s, i, x), key)
  {
    var r := Insert(s, i, x);
    forall a, b | 0 <= a < b < |r| ensures key(r[a]) >= key(r[b]) {
      if b == i {
        assert r[a] == s[a];
      } else if a == i {
        assert r[b] == s[b - 1];
      } else if a < i {
        assert r[a] == s[a];
        if b < i { assert r[b] == s[b]; } else { assert r[b] == s[b - 1]; }
      } else {
        assert r[a] == s[a - 1] && r[b] == s[b - 1];
      }
    }
  }

  /** A prefix of a newest-first history is newest-first. */
  lemma PrefixKeepsOrder<T>(s: seq<T>, key: T -> nat, n: nat)
    requires NewestFirst(s, key) && n <= |s|
    ensures NewestFirst(s[..n], key)
  {
  }

  /** Inserting adds exactly the newcomer to the contents. */
  lemma InsertContents<T>(s: seq<T>, i: nat, x: T)
    requires i <= |s|
    ensures multiset(Insert(s, i, x)) == multiset(s) + multiset{x}
  {
    assert s == s[..i] + s[i..];
  }

  /** The contents of a bounded insertion: never over capacity; below capacity nothing is lost;
      when full, a newcomer placed past the end is dropped and otherwise exactly the oldest entry
      goes. */
  lemma BoundedInsertContents<T>(s: seq<T>, i: nat, x: T, cap: nat)
    requires i <= |s| <= cap
    ensures var r := BoundedInsert(s, i, x, cap);
      && |r| <= cap
      && (|s| < cap ==> multiset(r) == multiset(s) + multiset{x})
      && (|s| == cap && i == |s| ==> r == s)
      && (|s| == cap && i < |s| ==> multiset(r) == multiset(s) - multiset{s[|s| - 1]} + multiset{x})
  {
    if |s| < cap {
      InsertContents(s, i, x);
    } else if i < |s| {
      var t := s[..|s| - 1];
      assert s == t + [s[|s| - 1]];
      assert multiset(t) == multiset(s) - multiset{s[|s| - 1]};
      InsertContents(t, i, x);
    }
  }

  /** Inserting at a place that keeps the order, into a buffer with its back popped when full,
      keeps a newest-first history newest-first and within capacity. */
  lemma BoundedInsertKeepsOrder<T>(s: seq<T>, key: T -> nat, i: nat, x: T, cap: nat)
    requires NewestFirst(s, key) && i <= |s| <= cap
    requires forall j :: 0 <= j < i ==> key(s[j]) >= key(x)
    requires i < |s| ==> key(s[i]) <= key(x)
    ensures NewestFirst(BoundedInsert(s, i, x, cap), key)
  {
    if |s| == cap && i < |s| {
      PrefixKeepsOrder(s, key, |s| - 1);
      InsertKeepsOrder(s[..|s| - 1], key, i, x);
    } else if |s| < cap {
      InsertKeepsOrder(s, key, i, x);
    }
  }

  /** InsertInput and SendEnemyState keep the history newest-first. */
  lemma InsertAfterEqualKeepsOrder<T>(s: seq<T>, key: T -> nat, x: T, cap: nat)
    requires NewestFirst(s, key) && |s| <= cap
    ensures NewestFirst(InsertAfterEqual(s, key, x, cap), key)
  {
    BoundedInsertKeepsOrder(s, key, FirstBelow(s, key, key(x)), x, cap);
  }

  /** InsertState of a cloned entity keeps the history newest-first. */
  lemma InsertBeforeEqualKeepsOrder<T>(s: seq<T>, key: T -> nat, x: T, cap: nat)
    requires NewestFirst(s, key) && |s| <= cap
    ensures NewestFirst(InsertBeforeEqual(s, key, x, cap), key)
  {
    BoundedInsertKeepsOrder(s, key, FirstAtOrBelow(s, key, key(x)), x, cap);
  }

  /** Where the entries go in a bounded insertion that keeps the newcomer: those before its place
      stay, those after it move one place back. */
  lemma BoundedInsertShape<T>(s: seq<T>, i: nat, x: T, cap: nat)
    requires i <= |s| <= cap && (|s| < cap || i < |s|)
    ensures var r := BoundedInsert(s, i, x, cap);
      && (forall j :: 0 <= j < i ==> r[j] == s[j])
      && (forall j :: i < j < |r| ==> r[j] == s[j - 1])
  {
    if |s| == cap {
      var t := s[..|s| - 1];
      assert forall j :: 0 <= j < |t| ==> t[j] == s[j];
    }
  }

  /** InsertInput and SendEnemyState: a full buffer drops a newcomer that is not newer than any kept
      entry; otherwise the newcomer lands after every entry at least as new as it and before every
      older one, and exactly the oldest entry is evicted when the buffer was full. */
  lemma InsertAfterEqualPlacement<T>(s: seq<T>, key: T -> nat, x: T, cap: nat)
    requires NewestFirst(s, key) && |s| <= cap
    ensures var r := InsertAfterEqual(s, key, x, cap);
      && (|s| == cap && (forall j :: 0 <= j < |s| ==> key(s[j]) >= key(x)) ==> r == s)
      && ((|s| < cap || exists j :: 0 <= j < |s| && key(s[j]) < key(x)) ==>
           var i := FirstBelow(s, key, key(x));
           && r[i] == x
           && (forall j :: 0 <= j < i ==> key(r[j]) >= key(x))
           && (forall j :: i < j < |r| ==> key(r[j]) < key(x))
           && multiset(r) == (if |s| == cap then multiset(s) - multiset{s[|s| - 1]} else multiset(s)) + multiset{x})
  {
    var i := FirstBelow(s, key, key(x));
    var r := BoundedInsert(s, i, x, cap);
    assert InsertAfterEqual(s, key, x, cap) == r;
    BoundedInsertContents(s, i, x, cap);
    if i < |s| || |s| < cap {
      BoundedInsertShape(s, i, x, cap);
      forall j | 0 <= j < i ensures key(r[j]) >= key(x) {
        assert r[j] == s[j];
      }
      forall j | i < j < |r| ensures key(r[j]) < key(x) {
        assert r[j] == s[j - 1];
        assert key(s[j - 1]) <= key(s[i]);
      }
      assert |s| == cap ==> key(s[i]) < key(x);
    } else {
      assert r == s;
      assert forall j :: 0 <= j < |s| ==> key(s[j]) >= key(x);
    }
  }

  /** InsertState of a cloned entity: the same rule, with the newcomer landing before every entry
      at most as new as it. */
  lemma InsertBeforeEqualPlacement<T>(s: seq<T>, key: T -> nat, x: T, cap: nat)
    requires NewestFirst(s, key) && |s| <= cap
    ensures var r := InsertBeforeEqual(s, key, x, cap);
      && (|s| == cap && (forall j :: 0 <= j < |s| ==> key(s[j]) > key(x)) ==> r == s)
      && ((|s| < cap || exists j :: 0 <= j < |s| && key(s[j]) <= key(x)) ==>
           var i := FirstAtOrBelow(s, key, key(x));
           && r[i] == x
           && (forall j :: 0 <= j < i ==> key(r[j]) > key(x))
           && (forall j :: i < j < |r| ==> key(r[j]) <= key(x))
           && multiset(r) == (if |s| == cap then multiset(s) - multiset{s[|s| - 1]} else multiset(s)) + multiset{x})
  {
    var i := FirstAtOrBelow(s, key, key(x));
    var r := BoundedInsert(s, i, x, cap);
    assert InsertBeforeEqual(s, key, x, cap) == r;
    BoundedInsertContents(s, i, x, cap);
    if i < |s| || |s| < cap {
      BoundedInsertShape(s, i, x, cap);
      forall j | 0 <= j < i ensures key(r[j]) > key(x) {
        assert r[j] == s[j];
      }
      forall j | i < j < |r| ensures key(r[j]) <= key(x) {
        assert r[j] == s[j - 1];
        assert key(s[j - 1]) <= key(s[i]);
      }
      assert |s| == cap ==> key(s[i]) <= key(x);
    } else {
      assert r == s;
      assert forall j :: 0 <= j < |s| ==> key(s[j]) > key(x);
    }
  }

  /** RemoveOlderInputs only removes a suffix of entries older than k; on a newest-first history
      every entry that remains is at least as new as k. */
  lemma {:induction false} TrimOlderFacts<T>(s: seq<T>, key: T -> nat, k: nat)
    requires NewestFirst(s, key)
    ensures var r := TrimOlder(s, key, k);
      && NewestFirst(r, key)
      && (forall j :: 0 <= j < |r| ==> key(r[j]) >= k)
      && (forall j :: 0 <= j < |s| ==> (key(s[j]) >= k <==> j < |r|))
  {
    var r := TrimOlder(s, key, k);
    PrefixKeepsOrder(s, key, |r|);
    if |r| > 0 {
      forall j | 0 <= j < |r| ensures key(r[j]) >= k {
        assert key(r[j]) >= key(r[|r| - 1]);
      }
    }
  }
}
