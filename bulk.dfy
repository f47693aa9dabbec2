/**
 * The two ways a batch of records reaches a table keyed by id: Django's
 * `bulk_create(objs, ignore_conflicts=True)` (an existing or earlier key
 * wins) and SQLite's `INSERT OR REPLACE` (the latest record wins).
 */
module Bulk {

  /** Every entry is stored under its own key (the primary-key invariant). */
  ghost predicate KeyedBy<T>(table: map<int, T>, key: T -> int)
  {
    forall k :: k in table ==> key(table[k]) == k
  }

  /** The keys of a batch of records. */
  function KeysOf<T>(objs: seq<T>, key: T -> int): set<int>
  {
    set i | 0 <= i < |objs| :: key(objs[i])
  }

  lemma KeysOfSnoc<T>(objs: seq<T>, key: T -> int)
    requires |objs| > 0
    ensures KeysOf(objs, key) == KeysOf(objs[..|objs| - 1], key) + {key(objs[|objs| - 1])}
  {
    var front := objs[..|objs| - 1];
    forall k | k in KeysOf(objs, key) ensures k in KeysOf(front, key) + {key(objs[|objs| - 1])} {
      var i :| 0 <= i < |objs| && key(objs[i]) == k;
      if i < |objs| - 1 { assert key(front[i]) == k; }
    }
    forall k | k in KeysOf(front, key) ensures k in KeysOf(objs, key) {
      var i :| 0 <= i < |front| && key(front[i]) == k;
      assert key(objs[i]) == k;
    }
  }

  /** A batch never has more distinct keys than records. */
  lemma {:induction false} KeysOfBound<T>(objs: seq<T>, key: T -> int)
    ensures |KeysOf(objs, key)| <= |objs|
    decreases |objs|
  {
    if |objs| > 0 {
      KeysOfSnoc(objs, key);
      KeysOfBound(objs[..|objs| - 1], key);
    }
  }

  /** The position of the first record of the batch with key `k`. */
  function FirstIndex<T>(objs: seq<T>, key: T -> int, k: int): (i: nat)
    requires k in KeysOf(objs, key)
    ensures i < |objs| && key(objs[i]) == k
    ensures forall j :: 0 <= j < i ==> key(objs[j]) != k
    decreases |objs|
  {
    if key(objs[0]) == k then 0
    else
      assert k in KeysOf(objs[1..], key) by {
        var i :| 0 <= i < |objs| && key(objs[i]) == k;
        assert key(objs[1..][i - 1]) == k;
      }
      1 + FirstIndex(objs[1..], key, k)
  }

  /** The position of the last record of the batch with key `k`. */
  function LastIndex<T>(objs: seq<T>, key: T -> int, k: int): (i: nat)
    requires k in KeysOf(objs, key)
    ensures i < |objs| && key(objs[i]) == k
    ensures forall j :: i < j < |objs| ==> key(objs[j]) != k
    decreases |objs|
  {
    if key(objs[|objs| - 1]) == k then |objs| - 1
    else
      KeysOfSnoc(objs, key);
      LastIndex(objs[..|objs| - 1], key, k)
  }

  /**
   * `bulk_create(objs, ignore_conflicts=True)`: each record is inserted
   * unless its key is already taken, by an old row or by an earlier record
   * of the same batch.
   */
  function InsertIgnoring<T>(table: map<int, T>, objs: seq<T>, key: T -> int): (r: map<int, T>)
    ensures r.Keys == table.Keys + KeysOf(objs, key)
    ensures forall k :: k in table ==> r[k] == table[k]
    ensures KeyedBy(table, key) ==> KeyedBy(r, key)
    decreases |objs|
  {
    if |objs| == 0 then table
    else
      KeysOfSnoc(objs, key);
      var prev := InsertIgnoring(table, objs[..|objs| - 1], key);
      var o := objs[|objs| - 1];
      if key(o) in prev then prev else prev[key(o) := o]
  }

  lemma FirstIndexOfFront<T>(objs: seq<T>, key: T -> int, k: int)
    requires |objs| > 0 && k in KeysOf(objs[..|objs| - 1], key)
    ensures k in KeysOf(objs, key)
    ensures FirstIndex(objs, key, k) == FirstIndex(objs[..|objs| - 1], key, k)
  {
    KeysOfSnoc(objs, key);
    var front := objs[..|objs| - 1];
    var i, j := FirstIndex(front, key, k), FirstIndex(objs, key, k);
    assert key(objs[i]) == k;
  }

  lemma FirstIndexIsLast<T>(objs: seq<T>, key: T -> int, k: int)
    requires |objs| > 0 && key(objs[|objs| - 1]) == k && k !in KeysOf(objs[..|objs| - 1], key)
    ensures k in KeysOf(objs, key)
    ensures FirstIndex(objs, key, k) == |objs| - 1
  {
    KeysOfSnoc(objs, key);
    var front := objs[..|objs| - 1];
    var j := FirstIndex(objs, key, k);
  }

  /** A key that was free before the batch ends up holding the batch's first record with that key. */
  lemma {:induction false} InsertIgnoringFirstWins<T>(table: map<int, T>, objs: seq<T>, key: T -> int, k: int)
    requires k in KeysOf(objs, key) && k !in table
    ensures InsertIgnoring(table, objs, key)[k] == objs[FirstIndex(objs, key, k)]
    decreases |objs|
  {
    var n := |objs|;
    var front := objs[..n - 1];
    var o := objs[n - 1];
    KeysOfSnoc(objs, key);
    var prev := InsertIgnoring(table, front, key);
    assert InsertIgnoring(table, objs, key) == if key(o) in prev then prev else prev[key(o) := o];
    if k in KeysOf(front, key) {
      InsertIgnoringFirstWins(table, front, key, k);
      FirstIndexOfFront(objs, key, k);
    } else {
      FirstIndexIsLast(objs, key, k);
    }
  }

  /** Every key that was free before the batch ends up holding the batch's first record with that key. */
  lemma InsertIgnoringFirstWinsAll<T>(table: map<int, T>, objs: seq<T>, key: T -> int)
    ensures forall k :: k in KeysOf(objs, key) && k !in table ==> InsertIgnoring(table, objs, key)[k] == objs[FirstIndex(objs, key, k)]
  {
    forall k | k in KeysOf(objs, key) && k !in table
      ensures InsertIgnoring(table, objs, key)[k] == objs[FirstIndex(objs, key, k)]
    {
      InsertIgnoringFirstWins(table, objs, key, k);
    }
  }

  /** A batch whose keys are all taken inserts nothing. */
  lemma {:induction false} InsertIgnoringTaken<T>(table: map<int, T>, objs: seq<T>, key: T -> int)
    requires KeysOf(objs, key) <= table.Keys
    ensures InsertIgnoring(table, objs, key) == table
    decreases |objs|
  {
    if |objs| > 0 {
      KeysOfSnoc(objs, key);
      InsertIgnoringTaken(table, objs[..|objs| - 1], key);
    }
  }

  /**
   * `INSERT OR REPLACE` once per record, in order: each record replaces any
   * row with its key.
   */
  function Upsert<T>(table: map<int, T>, objs: seq<T>, key: T -> int): (r: map<int, T>)
    ensures r.Keys == table.Keys + KeysOf(objs, key)
    ensures forall k :: k in table && k !in KeysOf(objs, key) ==> r[k] == table[k]
    ensures KeyedBy(table, key) ==> KeyedBy(r, key)
    decreases |objs|
  {
    if |objs| == 0 then table
    else
      KeysOfSnoc(objs, key);
      Upsert(table, objs[..|objs| - 1], key)[key(objs[|objs| - 1]) := objs[|objs| - 1]]
  }

  /** One more record replaces whatever its key held. */
  lemma UpsertSnoc<T>(table: map<int, T>, objs: seq<T>, x: T, key: T -> int)
    ensures Upsert(table, objs + [x], key) == Upsert(table, objs, key)[key(x) := x]
  {
    assert (objs + [x])[..|objs|] == objs;
  }

  /** Every key of the batch ends up holding the batch's last record with that key. */
  lemma {:induction false} UpsertLastWins<T>(table: map<int, T>, objs: seq<T>, key: T -> int, k: int)
    requires k in KeysOf(objs, key)
    ensures Upsert(table, objs, key)[k] == objs[LastIndex(objs, key, k)]
    decreases |objs|
  {
    var n := |objs|;
    KeysOfSnoc(objs, key);
    if key(objs[n - 1]) != k {
      UpsertLastWins(table, objs[..n - 1], key, k);
    }
  }
}
