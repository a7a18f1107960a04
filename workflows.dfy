// The three processing workflows shared by the wagl and gaip constant
// tables, and the two ways those tables cut a declaration-ordered list of
// names into the part each workflow uses.

module Workflows {

  /** Both products (`STANDARD`), reflectance only (`NBAR`) or surface
      brightness temperature only (`SBT`). */
  datatype Workflow = Standard | Nbar | Sbt

  /** `{STANDARD: all, NBAR: all[0:k], SBT: all[k:]}[w]`. */
  function SliceAt<T>(all: seq<T>, k: nat, w: Workflow): (r: seq<T>)
    requires k <= |all|
    ensures |r| <= |all|
    ensures forall x :: x in r ==> x in all
    ensures w == Nbar ==> |r| == k && r <= all
    ensures w == Sbt ==> |r| == |all| - k
  {
    match w
    case Standard => all
    case Nbar => all[..k]
    case Sbt => all[k..]
  }

  /** `{STANDARD: all, NBAR: all[0:-1], SBT: [all[-1]]}[w]`. */
  function SliceLast<T>(all: seq<T>, w: Workflow): (r: seq<T>)
    requires |all| > 0
    ensures |r| <= |all|
    ensures forall x :: x in r ==> x in all
    ensures w == Nbar ==> |r| == |all| - 1 && r <= all
    ensures w == Sbt ==> |r| == 1
  {
    match w
    case Standard => all
    case Nbar => all[..|all| - 1]
    case Sbt => [all[|all| - 1]]
  }

  predicate Distinct<T(==)>(s: seq<T>)
  {
    forall i, j :: 0 <= i < j < |s| ==> s[i] != s[j]
  }

  /** The NBAR and SBT parts of a table cut at `k` are the whole table in
      order, and share no name when the table has no repeat. */
  lemma SliceAtPartition<T>(all: seq<T>, k: nat)
    requires k <= |all|
    ensures SliceAt(all, k, Nbar) + SliceAt(all, k, Sbt) == SliceAt(all, k, Standard)
    ensures Distinct(all) ==> forall x :: x in SliceAt(all, k, Nbar) ==> x !in SliceAt(all, k, Sbt)
  {
    assert all[..k] + all[k..] == all;
    if Distinct(all) {
      forall x | x in all[..k]
        ensures x !in all[k..]
      {
        var i :| 0 <= i < k && all[i] == x;
        forall j | 0 <= j < |all| - k
          ensures all[k..][j] != x
        {
          assert all[k..][j] == all[k + j];
        }
      }
    }
  }

  /** The same for a table whose SBT part is its last name. */
  lemma SliceLastPartition<T>(all: seq<T>)
    requires |all| > 0
    ensures SliceLast(all, Nbar) + SliceLast(all, Sbt) == SliceLast(all, Standard)
    ensures Distinct(all) ==> all[|all| - 1] !in SliceLast(all, Nbar)
  {
    assert all[..|all| - 1] + [all[|all| - 1]] == all;
    var init := all[..|all| - 1];
    if Distinct(all) {
      forall i | 0 <= i < |init|
        ensures init[i] != all[|all| - 1]
      {
        assert init[i] == all[i];
      }
    }
  }
}
