/**
 * The two row loops of the loaders: one that skips the rows it cannot
 * coerce (and warns about the first few), and one that stops at the first
 * such row because the exception escapes the loop.
 */
module Ingest {
  import opened Wrappers

  /** The coerced rows in file order, leaving out every row whose coercion fails. */
  function Admitted<R, T>(rows: seq<R>, coerce: R -> Option<T>): (r: seq<T>)
    ensures |r| <= |rows|
    decreases |rows|
  {
    if |rows| == 0 then []
    else
      var front := Admitted(rows[..|rows| - 1], coerce);
      match coerce(rows[|rows| - 1])
      case Some(x) => front + [x]
      case None => front
  }

  /** The positions of the rows that coerce, in file order. */
  function Coerced<R, T>(rows: seq<R>, coerce: R -> Option<T>): (r: seq<nat>)
    ensures forall j :: 0 <= j < |r| ==> r[j] < |rows| && coerce(rows[r[j]]).Some?
    ensures forall i :: 0 <= i < |rows| && coerce(rows[i]).Some? ==> i in r
    ensures forall j, k :: 0 <= j < k < |r| ==> r[j] < r[k]
    decreases |rows|
  {
    if |rows| == 0 then []
    else
      var n := |rows| - 1;
      var front := Coerced(rows[..n], coerce);
      assert forall j :: 0 <= j < |front| ==> rows[..n][front[j]] == rows[front[j]];
      if coerce(rows[n]).Some? then front + [n] else front
  }

  /**
   * The admitted records are the coerced rows in file order: the `j`-th
   * record is the coercion of the `j`-th row that coerces.
   */
  lemma {:induction false} AdmittedInOrder<R, T>(rows: seq<R>, coerce: R -> Option<T>)
    ensures |Admitted(rows, coerce)| == |Coerced(rows, coerce)|
    ensures forall j :: 0 <= j < |Admitted(rows, coerce)| ==> coerce(rows[Coerced(rows, coerce)[j]]) == Some(Admitted(rows, coerce)[j])
    decreases |rows|
  {
    if |rows| > 0 {
      var n := |rows| - 1;
      var front := rows[..n];
      AdmittedInOrder(front, coerce);
      var a, c := Admitted(front, coerce), Coerced(front, coerce);
      assert forall j :: 0 <= j < |c| ==> front[c[j]] == rows[c[j]];
      match coerce(rows[n])
      case Some(x) =>
        assert Admitted(rows, coerce) == a + [x];
        assert Coerced(rows, coerce) == c + [n];
      case None =>
        assert Admitted(rows, coerce) == a;
        assert Coerced(rows, coerce) == c;
    }
  }

  /** Every admitted record comes from some row, and every row that coerces is admitted. */
  lemma {:induction false} AdmittedExactly<R, T>(rows: seq<R>, coerce: R -> Option<T>, x: T)
    ensures x in Admitted(rows, coerce) <==> exists i :: 0 <= i < |rows| && coerce(rows[i]) == Some(x)
    decreases |rows|
  {
    if |rows| > 0 {
      var n := |rows|;
      var front := rows[..n - 1];
      AdmittedExactly(front, coerce, x);
      if exists i :: 0 <= i < n && coerce(rows[i]) == Some(x) {
        var i :| 0 <= i < n && coerce(rows[i]) == Some(x);
        if i < n - 1 { assert coerce(front[i]) == Some(x); }
      }
      if exists i :: 0 <= i < n - 1 && coerce(front[i]) == Some(x) {
        var i :| 0 <= i < n - 1 && coerce(front[i]) == Some(x);
        assert coerce(rows[i]) == Some(x);
      }
    }
  }

  /** When every row coerces, nothing is skipped and the records line up with the rows. */
  lemma {:induction false} AdmittedAll<R, T>(rows: seq<R>, coerce: R -> Option<T>)
    requires forall i :: 0 <= i < |rows| ==> coerce(rows[i]).Some?
    ensures |Admitted(rows, coerce)| == |rows|
    ensures forall i :: 0 <= i < |rows| ==> coerce(rows[i]) == Some(Admitted(rows, coerce)[i])
    decreases |rows|
  {
    if |rows| > 0 {
      var front := rows[..|rows| - 1];
      AdmittedAll(front, coerce);
      assert forall i :: 0 <= i < |front| ==> rows[i] == front[i];
    }
  }

  /** The positions, below `limit`, of the rows whose coercion fails: the rows that get a warning. */
  function Warned<R, T>(rows: seq<R>, coerce: R -> Option<T>, limit: nat): (r: seq<nat>)
    ensures forall j :: 0 <= j < |r| ==> r[j] < limit && r[j] < |rows| && coerce(rows[r[j]]).None?
    ensures forall i :: 0 <= i < |rows| && i < limit && coerce(rows[i]).None? ==> i in r
    ensures forall j, k :: 0 <= j < k < |r| ==> r[j] < r[k]
    decreases |rows|
  {
    if |rows| == 0 then []
    else
      var n := |rows| - 1;
      var front := Warned(rows[..n], coerce, limit);
      assert forall j :: 0 <= j < |front| ==> rows[..n][front[j]] == rows[front[j]];
      if n < limit && coerce(rows[n]).None? then front + [n] else front
  }

  /**
   * Every row coerced, or the position of the first row that does not (the
   * loop raises there and nothing after it is read).
   */
  function ParseAll<R, T>(rows: seq<R>, coerce: R -> Option<T>): (r: Result<seq<T>, nat>)
    ensures r.Ok? ==> |r.value| == |rows| && forall i :: 0 <= i < |rows| ==> coerce(rows[i]) == Some(r.value[i])
    ensures r.Err? ==> r.error < |rows| && coerce(rows[r.error]).None?
    ensures r.Err? ==> forall i :: 0 <= i < r.error ==> coerce(rows[i]).Some?
    decreases |rows|
  {
    if |rows| == 0 then Ok([])
    else
      var n := |rows| - 1;
      match ParseAll(rows[..n], coerce)
      case Err(i) => Err(i)
      case Ok(objs) =>
        match coerce(rows[n])
        case None => Err(n)
        case Some(x) => Ok(objs + [x])
  }

  /** All rows parse exactly when no row fails, and then the result is what the skipping loop admits. */
  lemma ParseAllIsAdmitted<R, T>(rows: seq<R>, coerce: R -> Option<T>)
    ensures ParseAll(rows, coerce).Ok? <==> forall i :: 0 <= i < |rows| ==> coerce(rows[i]).Some?
    ensures ParseAll(rows, coerce).Ok? ==> ParseAll(rows, coerce).value == Admitted(rows, coerce)
  {
    if ParseAll(rows, coerce).Ok? {
      AdmittedAll(rows, coerce);
      var a, b := ParseAll(rows, coerce).value, Admitted(rows, coerce);
      assert forall i :: 0 <= i < |rows| ==> Some(a[i]) == Some(b[i]);
    }
  }

  /** The `for i, row in enumerate(rows): try ... except: warn if i < limit; continue` loop. */
  method CollectAdmitted<R, T>(rows: seq<R>, coerce: R -> Option<T>, limit: nat) returns (objs: seq<T>, warned: seq<nat>)
    ensures objs == Admitted(rows, coerce)
    ensures warned == Warned(rows, coerce, limit)
  {
    objs, warned := [], [];
    var i := 0;
    while i < |rows|
      invariant 0 <= i <= |rows|
      invariant objs == Admitted(rows[..i], coerce)
      invariant warned == Warned(rows[..i], coerce, limit)
    {
      assert rows[..i + 1][..i] == rows[..i];
      var c := coerce(rows[i]);
      if c.Some? {
        objs := objs + [c.value];
      } else if i < limit {
        warned := warned + [i];
      }
      i := i + 1;
    }
    assert rows[..|rows|] == rows;
  }

  /** The `for row in reader: objs.append(...)` loop, which raises at the first bad row. */
  method CollectAll<R, T>(rows: seq<R>, coerce: R -> Option<T>) returns (r: Result<seq<T>, nat>)
    ensures r == ParseAll(rows, coerce)
  {
    var objs: seq<T> := [];
    var i := 0;
    while i < |rows|
      invariant 0 <= i <= |rows|
      invariant ParseAll(rows[..i], coerce) == Ok(objs)
    {
      assert rows[..i + 1][..i] == rows[..i];
      var c := coerce(rows[i]);
      if c.None? {
        ParseAllStopsAtError(rows, coerce, i);
        return Err(i);
      }
      objs := objs + [c.value];
      i := i + 1;
    }
    assert rows[..|rows|] == rows;
    r := Ok(objs);
  }

  /** A prefix that parses, extended by one row that parses, parses to one more record. */
  lemma ParseAllSnoc<R, T>(rows: seq<R>, coerce: R -> Option<T>, i: nat, objs: seq<T>)
    requires i < |rows| && ParseAll(rows[..i], coerce) == Ok(objs) && coerce(rows[i]).Some?
    ensures ParseAll(rows[..i + 1], coerce) == Ok(objs + [coerce(rows[i]).value])
  {
    assert rows[..i + 1][..i] == rows[..i];
  }

  /** Once a prefix fails, every longer prefix fails at the same row. */
  lemma {:induction false} ParseAllStopsAtError<R, T>(rows: seq<R>, coerce: R -> Option<T>, i: nat)
    requires i < |rows| && ParseAll(rows[..i], coerce).Ok? && coerce(rows[i]).None?
    ensures ParseAll(rows, coerce) == Err(i)
    decreases |rows|
  {
    var n := |rows| - 1;
    if i < n {
      assert rows[..n][..i] == rows[..i];
      ParseAllStopsAtError(rows[..n], coerce, i);
    } else {
      assert rows[..n] == rows[..i];
    }
  }
}
