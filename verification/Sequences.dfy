/** Leaving elements of a sequence out. */
module Sequences {

  predicate Increasing(os: seq<nat>) {
    forall i, j :: 0 <= i < j < |os| ==> os[i] < os[j]
  }

  /** `out` is what `all` has at the positions `os`, in order. */
  ghost predicate Picks<T>(out: seq<T>, all: seq<T>, os: seq<nat>) {
    |os| == |out| && Increasing(os) && forall j :: 0 <= j < |os| ==> os[j] < |all| && out[j] == all[os[j]]
  }

  /** The same from position `k` on. */
  ghost predicate PicksFrom<T>(out: seq<T>, all: seq<T>, os: seq<nat>, k: nat) {
    Picks(out, all, os) && forall j :: 0 <= j < |os| ==> k <= os[j]
  }

  lemma PicksOneMore<T>(out: seq<T>, all: seq<T>, os: seq<nat>, k: nat)
    requires PicksFrom(out, all, os, k + 1) && k < |all|
    ensures PicksFrom(out, all, os, k) && PicksFrom([all[k]] + out, all, [k] + os, k)
  {
  }

  ghost predicate PartOf<T(!new)>(out: seq<T>, all: seq<T>) {
    exists os :: Picks(out, all, os)
  }

  lemma {:induction false} PickedLater<T>(out: seq<T>, all: seq<T>, os: seq<nat>, k: nat)
    requires Picks(out, all, os) && k < |os|
    ensures os[k] >= k
  {
    if k > 0 { PickedLater(out, all, os, k - 1); }
  }

  lemma PartShorter<T(!new)>(out: seq<T>, all: seq<T>)
    requires PartOf(out, all)
    ensures |out| <= |all|
  {
    var os :| Picks(out, all, os);
    if |os| > 0 { PickedLater(out, all, os, |os| - 1); }
  }
}
