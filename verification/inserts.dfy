/**
 * Row-by-row inserts where each attempt may raise: an exception is caught and
 * reported, and the remaining rows are still attempted. Which attempts raise
 * is outside the model and is given as the set of their indices.
 */
module Inserts {

  /** The rows whose insert attempt (by index) did not raise, in order. */
  function Successful<T>(rows: seq<T>, failed: set<nat>): (r: seq<T>)
    ensures |r| <= |rows|
  {
    if rows == [] then []
    else Successful(rows[..|rows| - 1], failed) + (if |rows| - 1 in failed then [] else [rows[|rows| - 1]])
  }

  /** How many of the first `n` attempts raised. */
  function FailedCount(n: nat, failed: set<nat>): nat {
    if n == 0 then 0 else FailedCount(n - 1, failed) + (if n - 1 in failed then 1 else 0)
  }

  /** The successful rows and the failed attempts together account for every row. */
  lemma {:induction false} SuccessfulCount<T>(rows: seq<T>, failed: set<nat>)
    ensures |Successful(rows, failed)| + FailedCount(|rows|, failed) == |rows|
  {
    if rows != [] {
      SuccessfulCount(rows[..|rows| - 1], failed);
    }
  }

  /** A failure does not stop later rows: every row whose own attempt succeeds is written. */
  lemma {:induction false} SuccessfulKeeps<T>(rows: seq<T>, failed: set<nat>, i: nat)
    requires i < |rows| && i !in failed
    ensures rows[i] in Successful(rows, failed)
  {
    if i < |rows| - 1 {
      SuccessfulKeeps(rows[..|rows| - 1], failed, i);
    }
  }

  /** Nothing is written that was not attempted. */
  lemma {:induction false} SuccessfulFrom<T>(rows: seq<T>, failed: set<nat>)
    ensures forall x :: x in Successful(rows, failed) ==> x in rows
  {
    if rows != [] {
      SuccessfulFrom(rows[..|rows| - 1], failed);
    }
  }

  lemma SuccessfulStep<T>(rows: seq<T>, failed: set<nat>, i: nat)
    requires i < |rows|
    ensures Successful(rows[..i + 1], failed)
            == Successful(rows[..i], failed) + (if i in failed then [] else [rows[i]])
  {
    assert rows[..i + 1][..i] == rows[..i];
  }

  /** Attempting one more row adds it to the successful ones unless that attempt raised. */
  lemma SuccessfulAppend<T>(done: seq<T>, x: T, failed: set<nat>)
    ensures Successful(done + [x], failed) == Successful(done, failed) + (if |done| in failed then [] else [x])
  {
    assert (done + [x])[..|done|] == done;
  }
}
