/** Two shapes that recur in the introspection code: a dictionary filled by
    `d[key] = value` in a loop over result rows (a later row for the same key
    overwrites an earlier one), and a loop that stops with the exception of
    the first row it cannot handle. */
module Rows {
  import opened Wrappers

  /** The dictionary that `for (k, v) in pairs: d[k] = v` leaves behind,
      starting from `{}`: its keys are exactly the keys that occur. */
  function LastWins<K(==), V>(pairs: seq<(K, V)>): (m: map<K, V>)
    ensures m.Keys == set i | 0 <= i < |pairs| :: pairs[i].0
  {
    if pairs == [] then map[]
    else
      var n := |pairs| - 1;
      var m := LastWins(pairs[..n])[pairs[n].0 := pairs[n].1];
      assert forall i :: 0 <= i < n ==> pairs[..n][i] == pairs[i];
      m
  }

  /** Pairs built row by row have the rows' keys. */
  lemma KeysOfRows<R, K, V>(rows: seq<R>, pairs: seq<(K, V)>, key: R --> K)
    requires |pairs| == |rows|
    requires forall i :: 0 <= i < |rows| ==> key.requires(rows[i])
    requires forall i :: 0 <= i < |rows| ==> pairs[i].0 == key(rows[i])
    ensures (set i | 0 <= i < |pairs| :: pairs[i].0) == set i | 0 <= i < |rows| :: key(rows[i])
  {
    var a := set i | 0 <= i < |pairs| :: pairs[i].0;
    var b := set i | 0 <= i < |rows| :: key(rows[i]);
    forall x | x in a ensures x in b {
      var i :| 0 <= i < |pairs| && pairs[i].0 == x;
      assert key(rows[i]) == x;
    }
    forall x | x in b ensures x in a {
      var i :| 0 <= i < |rows| && key(rows[i]) == x;
      assert pairs[i].0 == x;
    }
  }

  /** One more assignment to the dictionary. */
  lemma LastWinsSnoc<K, V>(pairs: seq<(K, V)>, p: (K, V))
    ensures LastWins(pairs + [p]) == LastWins(pairs)[p.0 := p.1]
  {
    assert (pairs + [p])[..|pairs|] == pairs;
  }

  /** Position `i` is the last one in `pairs` with key `pairs[i].0`. */
  ghost predicate IsLast<K, V>(pairs: seq<(K, V)>, i: int) {
    0 <= i < |pairs| && forall j :: i < j < |pairs| ==> pairs[j].0 != pairs[i].0
  }

  /** The key of the last occurrence is bound to that occurrence's value. */
  lemma {:induction false} LastWinsAt<K, V>(pairs: seq<(K, V)>, i: int)
    requires IsLast(pairs, i)
    ensures pairs[i].0 in LastWins(pairs) && LastWins(pairs)[pairs[i].0] == pairs[i].1
  {
    var n := |pairs| - 1;
    if i < n {
      assert IsLast(pairs[..n], i);
      LastWinsAt(pairs[..n], i);
    }
  }

  /** Every key's last occurrence gives its binding. */
  lemma LastWinsAll<K, V>(pairs: seq<(K, V)>)
    ensures forall i :: IsLast(pairs, i) ==>
              pairs[i].0 in LastWins(pairs) && LastWins(pairs)[pairs[i].0] == pairs[i].1
  {
    forall i | IsLast(pairs, i)
      ensures pairs[i].0 in LastWins(pairs) && LastWins(pairs)[pairs[i].0] == pairs[i].1
    {
      LastWinsAt(pairs, i);
    }
  }

  /** A key that occurs has a last occurrence. */
  lemma {:induction false} LastOccurrence<K, V>(pairs: seq<(K, V)>, i: int)
    requires 0 <= i < |pairs|
    ensures exists j :: IsLast(pairs, j) && pairs[j].0 == pairs[i].0
  {
    var n := |pairs| - 1;
    if pairs[n].0 == pairs[i].0 {
      assert IsLast(pairs, n);
    } else {
      LastOccurrence(pairs[..n], i);
      var j :| IsLast(pairs[..n], j) && pairs[..n][j].0 == pairs[i].0;
      assert IsLast(pairs, j);
    }
  }

  /** Every binding of the dictionary comes from the last row with its key. */
  lemma LastWinsFrom<K, V>(pairs: seq<(K, V)>, k: K)
    requires k in LastWins(pairs)
    ensures exists j :: IsLast(pairs, j) && pairs[j].0 == k && LastWins(pairs)[k] == pairs[j].1
  {
    var i :| 0 <= i < |pairs| && pairs[i].0 == k;
    LastOccurrence(pairs, i);
    var j :| IsLast(pairs, j) && pairs[j].0 == k;
    LastWinsAt(pairs, j);
  }

  /** The results of `f` over `rows`, or the error of the first row on which
      `f` fails: what a loop that raises on the first bad row produces. */
  function Collect<R, T, E>(rows: seq<R>, f: R -> Result<T, E>): Result<seq<T>, E> {
    if rows == [] then Success([])
    else
      var n := |rows| - 1;
      match Collect(rows[..n], f)
      case Failure(e) => Failure(e)
      case Success(vs) =>
        match f(rows[n])
        case Failure(e) => Failure(e)
        case Success(v) => Success(vs + [v])
  }

  /** `Collect` succeeds exactly when every row does, and then holds every
      row's result, in row order. */
  lemma {:induction false} CollectSuccess<R, T, E>(rows: seq<R>, f: R -> Result<T, E>)
    ensures Collect(rows, f).Success? <==> forall i :: 0 <= i < |rows| ==> f(rows[i]).Success?
    ensures Collect(rows, f).Success? ==>
              && |Collect(rows, f).value| == |rows|
              && forall i :: 0 <= i < |rows| ==> f(rows[i]) == Success(Collect(rows, f).value[i])
  {
    if rows != [] {
      var n := |rows| - 1;
      CollectSuccess(rows[..n], f);
      assert forall i :: 0 <= i < n ==> rows[..n][i] == rows[i];
    }
  }

  /** A failing `Collect` reports the error of a row before which every row
      succeeded. */
  lemma {:induction false} CollectFailure<R, T, E>(rows: seq<R>, f: R -> Result<T, E>)
    ensures Collect(rows, f).Failure? ==>
              exists i :: 0 <= i < |rows| && f(rows[i]) == Failure(Collect(rows, f).error)
                          && forall j :: 0 <= j < i ==> f(rows[j]).Success?
  {
    if rows != [] {
      var n := |rows| - 1;
      CollectFailure(rows[..n], f);
      CollectSuccess(rows[..n], f);
      assert forall i :: 0 <= i < n ==> rows[..n][i] == rows[i];
      if Collect(rows[..n], f).Failure? {
        var i :| 0 <= i < n && f(rows[..n][i]) == Failure(Collect(rows[..n], f).error)
                 && forall j :: 0 <= j < i ==> f(rows[..n][j]).Success?;
        assert f(rows[i]) == Failure(Collect(rows, f).error);
      }
    }
  }

  /** One more row handled without error. */
  lemma CollectSnoc<R, T, E>(rows: seq<R>, f: R -> Result<T, E>, k: int, vs: seq<T>)
    requires 0 <= k < |rows| && Collect(rows[..k], f) == Success(vs) && f(rows[k]).Success?
    ensures Collect(rows[..k + 1], f) == Success(vs + [f(rows[k]).value])
  {
    assert rows[..k + 1][..k] == rows[..k];
  }

  /** Every row of a prefix that `Collect` got through succeeded. */
  lemma PrefixSucceeded<R, T, E>(rows: seq<R>, f: R -> Result<T, E>, k: int, vs: seq<T>)
    requires 0 <= k <= |rows| && Collect(rows[..k], f) == Success(vs)
    ensures forall j :: 0 <= j < k ==> f(rows[j]).Success?
  {
    CollectSuccess(rows[..k], f);
    assert forall j :: 0 <= j < k ==> rows[..k][j] == rows[j];
  }

  /** The error reported is the one of the first failing row. */
  lemma CollectFirstFailure<R, T, E>(rows: seq<R>, f: R -> Result<T, E>, i: int)
    requires 0 <= i < |rows| && f(rows[i]).Failure?
    requires forall j :: 0 <= j < i ==> f(rows[j]).Success?
    ensures Collect(rows, f) == Failure(f(rows[i]).error)
  {
    CollectSuccess(rows, f);
    CollectFailure(rows, f);
    var r := Collect(rows, f);
    var k :| 0 <= k < |rows| && f(rows[k]) == Failure(r.error)
             && forall j :: 0 <= j < k ==> f(rows[j]).Success?;
    assert !(k < i) && !(i < k);
  }
}
