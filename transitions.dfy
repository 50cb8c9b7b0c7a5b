/** The one-row-per-call transition readers of cfacdb.c, `cfac_db_rtrans`
    (radiative) and `cfac_db_aitrans` (autoionization): each row becomes one
    sink call whose level indices come from `lmap`. */
module Transitions {
  import opened Common
  import opened LevelMap
  import opened Database

  /** Both endpoints of a transition have a slot in a table of `n` slots. */
  predicate EndpointsFit(iniId: int, finId: int, idMin: int, n: nat) {
    idMin <= iniId < idMin + n && idMin <= finId < idMin + n
  }

  /** A row of the radiative transition query (`ini_id, fin_id, mpole, rme, de`). */
  datatype RRow = RRow(iniId: int, finId: int, mpole: int, rme: Double, de: Double)

  /** `rtrans_cb_data_t` as the sink sees it. The oscillator strength `gf` is
      a floating-point formula of `rme`, `de` and `mpole`; the call carries
      those operands instead. */
  datatype RCall = RCall(ii: nat, fi: nat, mpole: int, rme: Double, de: Double)

  /** The sink data of one radiative row: the initial index from the FINAL
      level and the final index from the INITIAL level. */
  function RCallOf(row: RRow, lm: seq<nat>, idMin: int): RCall
    requires EndpointsFit(row.iniId, row.finId, idMin, |lm|)
  {
    RCall(lm[row.finId - idMin], lm[row.iniId - idMin], row.mpole, row.rme, row.de)
  }

  /** A row of the autoionization query (`ini_id, fin_id, rate`). */
  datatype ARow = ARow(iniId: int, finId: int, rate: Double)

  datatype ACall = ACall(ii: nat, fi: nat, rate: Double)

  /** The sink data of one autoionization row: indices in the row's own
      orientation. */
  function ACallOf(row: ARow, lm: seq<nat>, idMin: int): ACall
    requires EndpointsFit(row.iniId, row.finId, idMin, |lm|)
  {
    ACall(lm[row.iniId - idMin], lm[row.finId - idMin], row.rate)
  }

  /** With the table built from distinct level ids, a radiative call's `ii`
      is the position of the row's final level and `fi` that of its initial
      level, in the order the level query returned them. */
  lemma RadiativeOrientation(levels: seq<int>, idMin: int, n: nat, row: RRow, a: nat, b: nat)
    requires InTable(levels, idMin, n) && Distinct(levels)
    requires a < |levels| && b < |levels|
    requires row.iniId == levels[a] && row.finId == levels[b]
    ensures RCallOf(row, Remap(levels, idMin, n), idMin).ii == b
    ensures RCallOf(row, Remap(levels, idMin, n), idMin).fi == a
  {
    RemapDense(levels, idMin, n);
  }

  /** With the table built from distinct level ids, an autoionization call's
      `ii` is the position of the row's initial level and `fi` that of its
      final level. */
  lemma AutoionizationOrientation(levels: seq<int>, idMin: int, n: nat, row: ARow, a: nat, b: nat)
    requires InTable(levels, idMin, n) && Distinct(levels)
    requires a < |levels| && b < |levels|
    requires row.iniId == levels[a] && row.finId == levels[b]
    ensures ACallOf(row, Remap(levels, idMin, n), idMin).ii == a
    ensures ACallOf(row, Remap(levels, idMin, n), idMin).fi == b
  {
    RemapDense(levels, idMin, n);
  }

  /** The return code of a one-row-per-call reader whose stream ends with
      `end`: SQLITE_DONE and SQLITE_OK both end it normally. */
  function StreamCode(end: StepEnd): (rc: int)
    ensures rc == ReaderOk || rc == ReaderSqlError
    ensures rc == ReaderSqlError <==> end == StepError
  {
    if end == StepError then ReaderSqlError else ReaderOk
  }

  /** `cfac_db_rtrans`: one sink call per row, in row order. */
  method RTrans(cdb: CfacDb?, rows: seq<RRow>, end: StepEnd) returns (rc: int, calls: seq<RCall>)
    requires cdb != null ==> cdb.Ready()
    requires cdb != null ==> forall k :: 0 <= k < |rows| ==>
               EndpointsFit(rows[k].iniId, rows[k].finId, cdb.idMin, cdb.lmap.Length)
    ensures cdb == null ==> rc == ReaderNoDb && calls == []
    ensures cdb != null ==> rc == StreamCode(end) && |calls| == |rows|
    ensures cdb != null ==> forall k :: 0 <= k < |rows| ==>
              calls[k] == RCallOf(rows[k], cdb.lmap[..], cdb.idMin)
  {
    if cdb == null {
      return ReaderNoDb, [];
    }
    calls := [];
    var i := 0;
    while i < |rows|
      invariant 0 <= i <= |rows| && |calls| == i
      invariant forall k :: 0 <= k < i ==> calls[k] == RCallOf(rows[k], cdb.lmap[..], cdb.idMin)
    {
      var upper := rows[i].iniId;
      var lower := rows[i].finId;
      var ii := cdb.lmap[lower - cdb.idMin];
      var fi := cdb.lmap[upper - cdb.idMin];
      calls := calls + [RCall(ii, fi, rows[i].mpole, rows[i].rme, rows[i].de)];
      i := i + 1;
    }
    rc := StreamCode(end);
  }

  /** `cfac_db_aitrans`: one sink call per row, in row order. */
  method AITrans(cdb: CfacDb?, rows: seq<ARow>, end: StepEnd) returns (rc: int, calls: seq<ACall>)
    requires cdb != null ==> cdb.Ready()
    requires cdb != null ==> forall k :: 0 <= k < |rows| ==>
               EndpointsFit(rows[k].iniId, rows[k].finId, cdb.idMin, cdb.lmap.Length)
    ensures cdb == null ==> rc == ReaderNoDb && calls == []
    ensures cdb != null ==> rc == StreamCode(end) && |calls| == |rows|
    ensures cdb != null ==> forall k :: 0 <= k < |rows| ==>
              calls[k] == ACallOf(rows[k], cdb.lmap[..], cdb.idMin)
  {
    if cdb == null {
      return ReaderNoDb, [];
    }
    calls := [];
    var i := 0;
    while i < |rows|
      invariant 0 <= i <= |rows| && |calls| == i
      invariant forall k :: 0 <= k < i ==> calls[k] == ACallOf(rows[k], cdb.lmap[..], cdb.idMin)
    {
      var upper := rows[i].iniId;
      var lower := rows[i].finId;
      var ii := cdb.lmap[upper - cdb.idMin];
      var fi := cdb.lmap[lower - cdb.idMin];
      calls := calls + [ACall(ii, fi, rows[i].rate)];
      i := i + 1;
    }
    rc := StreamCode(end);
  }
}
