/** The level-index remap table `lmap` that `cdb_init` builds: one slot per
    database level id in [id_min, id_max], holding the 0-based position at
    which the level query returned that id. */
module LevelMap {

  /** Every id has a slot in a table of `n` slots starting at `idMin`. */
  predicate InTable(ids: seq<int>, idMin: int, n: nat) {
    forall k :: 0 <= k < |ids| ==> idMin <= ids[k] < idMin + n
  }

  predicate Distinct(ids: seq<int>) {
    forall i, j :: 0 <= i < j < |ids| ==> ids[i] != ids[j]
  }

  /** The table after a zero-filled start and one write per returned id, in
      the order returned: the k-th id writes k into slot `id - idMin`. */
  function Remap(ids: seq<int>, idMin: int, n: nat): (m: seq<nat>)
    requires InTable(ids, idMin, n)
    ensures |m| == n
    decreases |ids|
  {
    if ids == [] then seq(n, _ => 0)
    else
      var k := |ids| - 1;
      Remap(ids[..k], idMin, n)[ids[k] - idMin := k]
  }

  /** A slot holds the position of the LAST row that returned its id. */
  lemma {:induction false} RemapLastWrite(ids: seq<int>, idMin: int, n: nat, k: nat)
    requires InTable(ids, idMin, n)
    requires k < |ids|
    requires forall j :: k < j < |ids| ==> ids[j] != ids[k]
    ensures Remap(ids, idMin, n)[ids[k] - idMin] == k
  {
    var last := |ids| - 1;
    if k < last {
      RemapLastWrite(ids[..last], idMin, n, k);
    }
  }

  /** The slot of an id the level query never returned keeps its zero. */
  lemma {:induction false} RemapUnreturned(ids: seq<int>, idMin: int, n: nat, id: int)
    requires InTable(ids, idMin, n)
    requires idMin <= id < idMin + n
    requires forall j :: 0 <= j < |ids| ==> ids[j] != id
    ensures Remap(ids, idMin, n)[id - idMin] == 0
  {
    if ids != [] {
      RemapUnreturned(ids[..|ids| - 1], idMin, n, id);
    }
  }

  /** A non-zero slot names a row that returned that slot's id. */
  lemma {:induction false} RemapNamesItsRow(ids: seq<int>, idMin: int, n: nat, s: nat)
    requires InTable(ids, idMin, n)
    requires s < n && Remap(ids, idMin, n)[s] != 0
    ensures Remap(ids, idMin, n)[s] < |ids|
    ensures ids[Remap(ids, idMin, n)[s]] == idMin + s
  {
    var last := |ids| - 1;
    if ids[last] - idMin != s {
      RemapNamesItsRow(ids[..last], idMin, n, s);
    }
  }

  lemma RemapLastWriteDistinct(ids: seq<int>, idMin: int, n: nat, k: nat)
    requires InTable(ids, idMin, n) && Distinct(ids) && k < |ids|
    ensures Remap(ids, idMin, n)[ids[k] - idMin] == k
  {
    RemapLastWrite(ids, idMin, n, k);
  }

  /** For distinct ids the table sends the k-th returned id to k: a
      one-to-one map of the returned ids onto 0 .. |ids| - 1. */
  lemma RemapDense(ids: seq<int>, idMin: int, n: nat)
    requires InTable(ids, idMin, n) && Distinct(ids)
    ensures forall k :: 0 <= k < |ids| ==> Remap(ids, idMin, n)[ids[k] - idMin] == k
  {
    forall k | 0 <= k < |ids|
      ensures Remap(ids, idMin, n)[ids[k] - idMin] == k
    {
      RemapLastWriteDistinct(ids, idMin, n, k);
    }
  }
}
