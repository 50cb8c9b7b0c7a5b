/** The collisional transition reader `cfac_db_ctrans`: it streams the rows
    of the collision-strength query, groups consecutive rows that share the
    key (ini_id, fin_id, type), and hands each group to the sink as one
    call carrying the group's energy/strength samples. */
module Grouping {
  import opened Common
  import opened LevelMap
  import opened Database

  // ---------------------------------------------------------------------
  // Rows, keys and maximal runs
  // ---------------------------------------------------------------------

  /** One row of the collision-strength query. A format-1 database has no
      `kl`, `ap2` and `ap3` columns; the reader then does not read those
      fields. */
  datatype CRow = CRow(iniId: int, finId: int, ctype: int, e: Double, strength: Double, de: Double,
                       kl: int, ap0: Double, ap1: Double, ap2: Double, ap3: Double)

  /** The grouping key the reader compares between consecutive rows. */
  datatype Key = Key(iniId: int, finId: int, ctype: int)

  function KeyOf(r: CRow): Key {
    Key(r.iniId, r.finId, r.ctype)
  }

  /** A run of consecutive rows that share `key`. */
  datatype Run = Run(key: Key, rows: seq<CRow>)

  function Last<T>(s: seq<T>): T
    requires s != []
  {
    s[|s| - 1]
  }

  /** One row more: it extends the last run when it has that run's key and
      opens a new run otherwise. */
  function AddRow(rs: seq<Run>, r: CRow): seq<Run> {
    if rs != [] && Last(rs).key == KeyOf(r)
    then rs[..|rs| - 1] + [Run(KeyOf(r), Last(rs).rows + [r])]
    else rs + [Run(KeyOf(r), [r])]
  }

  /** The rows split into maximal runs of equal key, built row by row. */
  function Runs(rows: seq<CRow>): seq<Run>
    decreases |rows|
  {
    if rows == [] then [] else AddRow(Runs(rows[..|rows| - 1]), Last(rows))
  }

  lemma RunsSnoc(p: seq<CRow>, r: CRow)
    ensures Runs(p + [r]) == AddRow(Runs(p), r)
  {
  }

  lemma RunsPrefixStep(rows: seq<CRow>, i: nat)
    requires i < |rows|
    ensures Runs(rows[..i + 1]) == AddRow(Runs(rows[..i]), rows[i])
  {
    RunsSnoc(rows[..i], rows[i]);
    assert rows[..i] + [rows[i]] == rows[..i + 1];
  }

  /** The rows of the runs, concatenated in order. */
  function Flatten(rs: seq<Run>): seq<CRow>
    decreases |rs|
  {
    if rs == [] then [] else Flatten(rs[..|rs| - 1]) + Last(rs).rows
  }

  lemma FlattenSnoc(rs: seq<Run>, run: Run)
    ensures Flatten(rs + [run]) == Flatten(rs) + run.rows
  {
  }

  predicate RunKeyed(run: Run) {
    forall j :: 0 <= j < |run.rows| ==> KeyOf(run.rows[j]) == run.key
  }

  predicate NonEmptyKeyedRuns(rs: seq<Run>) {
    forall k :: 0 <= k < |rs| ==> rs[k].rows != [] && RunKeyed(rs[k])
  }

  predicate NeighboursDiffer(rs: seq<Run>) {
    forall k :: 0 < k < |rs| ==> rs[k - 1].key != rs[k].key
  }

  /** `rs` splits `rows` into non-empty runs whose rows carry the run's key,
      and no two neighbouring runs share a key. */
  predicate MaximalRuns(rows: seq<CRow>, rs: seq<Run>) {
    Flatten(rs) == rows && NonEmptyKeyedRuns(rs) && NeighboursDiffer(rs)
  }

  lemma MaximalAddRow(p: seq<CRow>, rs: seq<Run>, r: CRow)
    requires MaximalRuns(p, rs)
    ensures MaximalRuns(p + [r], AddRow(rs, r))
  {
    if rs != [] && Last(rs).key == KeyOf(r) {
      var m := |rs| - 1;
      var run := Run(KeyOf(r), rs[m].rows + [r]);
      assert rs[..m] + [rs[m]] == rs;
      FlattenSnoc(rs[..m], rs[m]);
      FlattenSnoc(rs[..m], run);
      assert RunKeyed(run);
    } else {
      FlattenSnoc(rs, Run(KeyOf(r), [r]));
    }
  }

  /** `Runs` is a partition of the rows into maximal runs. */
  lemma {:induction false} RunsAreMaximal(rows: seq<CRow>)
    ensures MaximalRuns(rows, Runs(rows))
    decreases |rows|
  {
    if rows != [] {
      var p := rows[..|rows| - 1];
      RunsAreMaximal(p);
      MaximalAddRow(p, Runs(p), Last(rows));
      assert p + [Last(rows)] == rows;
    }
  }

  /** Taking the last row off a maximal partition leaves a maximal partition
      of the other rows, from which `AddRow` rebuilds the original. */
  lemma MaximalRemoveLast(rows: seq<CRow>, rs: seq<Run>) returns (shorter: seq<Run>)
    requires MaximalRuns(rows, rs) && rows != []
    ensures MaximalRuns(rows[..|rows| - 1], shorter)
    ensures AddRow(shorter, Last(rows)) == rs
  {
    var m := |rs| - 1;
    var init, last := rs[..m], rs[m];
    assert init + [last] == rs;
    var r := Last(last.rows);
    assert KeyOf(r) == last.key;
    if |last.rows| == 1 {
      assert last == Run(KeyOf(r), [r]);
      shorter := init;
    } else {
      var cut := Run(last.key, last.rows[..|last.rows| - 1]);
      assert last.rows == cut.rows + [r];
      FlattenSnoc(init, cut);
      shorter := init + [cut];
      assert shorter[..m] == init;
    }
    assert rows == Flatten(rs) == Flatten(init) + last.rows;
    assert r == Last(rows);
    assert rows[..|rows| - 1] == Flatten(shorter);
  }

  /** Any partition into maximal runs is the one `Runs` builds: the grouping
      is determined by the rows alone. */
  lemma {:induction false} MaximalRunsUnique(rows: seq<CRow>, rs: seq<Run>)
    requires MaximalRuns(rows, rs)
    ensures rs == Runs(rows)
    decreases |rows|
  {
    if rows != [] {
      var shorter := MaximalRemoveLast(rows, rs);
      MaximalRunsUnique(rows[..|rows| - 1], shorter);
    }
  }

  /** The number of positions where a row's key differs from the previous row's. */
  function KeyChanges(rows: seq<CRow>): nat
    decreases |rows|
  {
    if |rows| <= 1 then 0
    else
      KeyChanges(rows[..|rows| - 1]) +
      (if KeyOf(rows[|rows| - 2]) != KeyOf(Last(rows)) then 1 else 0)
  }

  /** A non-empty stream has one run more than it has key changes, and its
      last run has the last row's key. */
  lemma {:induction false} RunCount(rows: seq<CRow>)
    ensures rows == [] ==> Runs(rows) == []
    ensures rows != [] ==> |Runs(rows)| == KeyChanges(rows) + 1
    ensures rows != [] ==> Last(Runs(rows)).key == KeyOf(Last(rows))
    decreases |rows|
  {
    if rows != [] {
      var p := rows[..|rows| - 1];
      RunCount(p);
      if p != [] {
        assert Last(p) == rows[|rows| - 2];
      }
    }
  }

  // ---------------------------------------------------------------------
  // What the sink receives
  // ---------------------------------------------------------------------

  /** One entry of the `es` buffer, the reduced energy `1 + e/de` of a row,
      kept as its two operands. */
  datatype EPoint = EPoint(e: Double, de: Double)

  /** `ctrans_cb_data_t` at a sink call: `e` and `d` are the first `nd`
      entries of the `es` and `ds` buffers. */
  datatype CBatch = CBatch(ii: nat, fi: nat, ctype: int, de: Double, kl: int,
                           ap0: Double, ap1: Double, ap2: Double, ap3: Double,
                           nd: nat, e: seq<EPoint>, d: seq<Double>)

  /** The `es` entries of a run's rows, in row order. */
  function Samples(rows: seq<CRow>): (s: seq<EPoint>)
    ensures |s| == |rows|
    decreases |rows|
  {
    if rows == [] then [] else Samples(rows[..|rows| - 1]) + [EPoint(Last(rows).e, Last(rows).de)]
  }

  /** The `ds` entries of a run's rows, in row order. */
  function Strengths(rows: seq<CRow>): (s: seq<Double>)
    ensures |s| == |rows|
    decreases |rows|
  {
    if rows == [] then [] else Strengths(rows[..|rows| - 1]) + [Last(rows).strength]
  }

  lemma SamplesSnoc(rows: seq<CRow>, r: CRow)
    ensures Samples(rows + [r]) == Samples(rows) + [EPoint(r.e, r.de)]
    ensures Strengths(rows + [r]) == Strengths(rows) + [r.strength]
  {
  }

  /** Both endpoints of the row have a slot in a table of `n` slots. */
  predicate RowFits(r: CRow, idMin: int, n: nat) {
    idMin <= r.iniId < idMin + n && idMin <= r.finId < idMin + n
  }

  predicate RowsFit(rows: seq<CRow>, idMin: int, n: nat) {
    forall k :: 0 <= k < |rows| ==> RowFits(rows[k], idMin, n)
  }

  predicate RunFits(run: Run, idMin: int, n: nat) {
    run.rows != [] && RowFits(Last(run.rows), idMin, n)
  }

  predicate AllRunsFit(rs: seq<Run>, idMin: int, n: nat) {
    forall k :: 0 <= k < |rs| ==> RunFits(rs[k], idMin, n)
  }

  /** The sink data of a run: the indices and scalar fields as the run's
      last row wrote them (format 1 has no `kl`, `ap2`, `ap3` and writes 0),
      the run length and all of the run's samples. */
  function BatchOf(run: Run, lm: seq<nat>, idMin: int, format: int): CBatch
    requires RunFits(run, idMin, |lm|)
  {
    var r := Last(run.rows);
    CBatch(lm[r.iniId - idMin], lm[r.finId - idMin], r.ctype, r.de,
           if format == 1 then 0 else r.kl, r.ap0, r.ap1,
           if format == 1 then Zero else r.ap2, if format == 1 then Zero else r.ap3,
           |run.rows|, Samples(run.rows), Strengths(run.rows))
  }

  /** One call per run, in run order. */
  function Batches(rs: seq<Run>, lm: seq<nat>, idMin: int, format: int): (bs: seq<CBatch>)
    requires AllRunsFit(rs, idMin, |lm|)
    ensures |bs| == |rs|
    decreases |rs|
  {
    if rs == [] then []
    else Batches(rs[..|rs| - 1], lm, idMin, format) + [BatchOf(Last(rs), lm, idMin, format)]
  }

  lemma BatchesSnoc(rs: seq<Run>, run: Run, lm: seq<nat>, idMin: int, format: int)
    requires AllRunsFit(rs, idMin, |lm|) && RunFits(run, idMin, |lm|)
    ensures AllRunsFit(rs + [run], idMin, |lm|)
    ensures Batches(rs + [run], lm, idMin, format) == Batches(rs, lm, idMin, format) + [BatchOf(run, lm, idMin, format)]
  {
  }

  lemma {:induction false} BatchesIndex(rs: seq<Run>, lm: seq<nat>, idMin: int, format: int, k: nat)
    requires AllRunsFit(rs, idMin, |lm|) && k < |rs|
    ensures Batches(rs, lm, idMin, format)[k] == BatchOf(rs[k], lm, idMin, format)
    decreases |rs|
  {
    if k < |rs| - 1 {
      BatchesIndex(rs[..|rs| - 1], lm, idMin, format, k);
    }
  }

  lemma AddRowFits(rs: seq<Run>, r: CRow, idMin: int, n: nat)
    requires AllRunsFit(rs, idMin, n) && RowFits(r, idMin, n)
    ensures AllRunsFit(AddRow(rs, r), idMin, n)
  {
  }

  lemma {:induction false} RunsFitTable(rows: seq<CRow>, idMin: int, n: nat)
    requires RowsFit(rows, idMin, n)
    ensures AllRunsFit(Runs(rows), idMin, n)
    decreases |rows|
  {
    if rows != [] {
      RunsFitTable(rows[..|rows| - 1], idMin, n);
      AddRowFits(Runs(rows[..|rows| - 1]), Last(rows), idMin, n);
    }
  }

  /** All runs but the last: those already handed to the sink while the
      last one is still being collected. */
  function Closed(rs: seq<Run>): seq<Run> {
    if rs == [] then [] else rs[..|rs| - 1]
  }

  /** How one more row changes the closed runs and the pending (last) run. */
  lemma AddRowStep(rs: seq<Run>, r: CRow)
    ensures AddRow(rs, r) != []
    ensures rs != [] && Last(rs).key == KeyOf(r) ==>
              Closed(AddRow(rs, r)) == Closed(rs) && Last(AddRow(rs, r)) == Run(KeyOf(r), Last(rs).rows + [r])
    ensures !(rs != [] && Last(rs).key == KeyOf(r)) ==>
              Closed(AddRow(rs, r)) == rs && Last(AddRow(rs, r)) == Run(KeyOf(r), [r])
  {
  }

  lemma ClosedFits(rs: seq<Run>, idMin: int, n: nat)
    requires AllRunsFit(rs, idMin, n)
    ensures AllRunsFit(Closed(rs), idMin, n)
  {
  }

  /** The sink calls of a stream that ends with SQLITE_DONE. */
  function SinkCalls(rows: seq<CRow>, lm: seq<nat>, idMin: int, format: int): seq<CBatch>
    requires RowsFit(rows, idMin, |lm|)
  {
    RunsFitTable(rows, idMin, |lm|);
    Batches(Runs(rows), lm, idMin, format)
  }

  /** The sink calls of a stream that ends in an error: the pending run is
      never flushed. */
  function SinkCallsBeforeError(rows: seq<CRow>, lm: seq<nat>, idMin: int, format: int): seq<CBatch>
    requires RowsFit(rows, idMin, |lm|)
  {
    RunsFitTable(rows, idMin, |lm|);
    ClosedFits(Runs(rows), idMin, |lm|);
    Batches(Closed(Runs(rows)), lm, idMin, format)
  }

  // ---------------------------------------------------------------------
  // Properties of the sink calls
  // ---------------------------------------------------------------------

  /** The `e` entries of the calls, concatenated. */
  function AllE(bs: seq<CBatch>): seq<EPoint>
    decreases |bs|
  {
    if bs == [] then [] else AllE(bs[..|bs| - 1]) + bs[|bs| - 1].e
  }

  /** The `d` entries of the calls, concatenated. */
  function AllD(bs: seq<CBatch>): seq<Double>
    decreases |bs|
  {
    if bs == [] then [] else AllD(bs[..|bs| - 1]) + bs[|bs| - 1].d
  }

  lemma {:induction false} SamplesAppend(a: seq<CRow>, b: seq<CRow>)
    ensures Samples(a + b) == Samples(a) + Samples(b)
    decreases |b|
  {
    if b == [] {
      assert a + b == a;
    } else {
      var init := b[..|b| - 1];
      assert a + b == (a + init) + [Last(b)];
      SamplesAppend(a, init);
      SamplesSnoc(a + init, Last(b));
    }
  }

  lemma {:induction false} StrengthsAppend(a: seq<CRow>, b: seq<CRow>)
    ensures Strengths(a + b) == Strengths(a) + Strengths(b)
    decreases |b|
  {
    if b == [] {
      assert a + b == a;
    } else {
      var init := b[..|b| - 1];
      assert a + b == (a + init) + [Last(b)];
      StrengthsAppend(a, init);
      SamplesSnoc(a + init, Last(b));
    }
  }

  lemma AllSnoc(bs: seq<CBatch>, b: CBatch)
    ensures AllE(bs + [b]) == AllE(bs) + b.e
    ensures AllD(bs + [b]) == AllD(bs) + b.d
  {
  }

  lemma {:induction false} BatchesFlatten(rs: seq<Run>, lm: seq<nat>, idMin: int, format: int)
    requires AllRunsFit(rs, idMin, |lm|)
    ensures AllE(Batches(rs, lm, idMin, format)) == Samples(Flatten(rs))
    ensures AllD(Batches(rs, lm, idMin, format)) == Strengths(Flatten(rs))
    decreases |rs|
  {
    if rs != [] {
      var m := |rs| - 1;
      var init := rs[..m];
      assert init + [rs[m]] == rs;
      BatchesSnoc(init, rs[m], lm, idMin, format);
      BatchesFlatten(init, lm, idMin, format);
      AllSnoc(Batches(init, lm, idMin, format), BatchOf(rs[m], lm, idMin, format));
      SamplesAppend(Flatten(init), rs[m].rows);
      StrengthsAppend(Flatten(init), rs[m].rows);
    }
  }

  /** Every row is handed to the sink exactly once and in order: the calls'
      sample buffers, concatenated, are the samples of the stream, the rows
      with a non-positive strength included. Each call carries at least one
      sample and `nd` counts exactly the samples it carries. */
  lemma SinkCallsPartition(rows: seq<CRow>, lm: seq<nat>, idMin: int, format: int)
    requires RowsFit(rows, idMin, |lm|)
    ensures AllE(SinkCalls(rows, lm, idMin, format)) == Samples(rows)
    ensures AllD(SinkCalls(rows, lm, idMin, format)) == Strengths(rows)
    ensures forall k :: 0 <= k < |SinkCalls(rows, lm, idMin, format)| ==>
              var c := SinkCalls(rows, lm, idMin, format)[k];
              1 <= c.nd && c.nd == |c.e| == |c.d|
  {
    RunsFitTable(rows, idMin, |lm|);
    RunsAreMaximal(rows);
    BatchesFlatten(Runs(rows), lm, idMin, format);
    forall k | 0 <= k < |Runs(rows)|
      ensures var c := Batches(Runs(rows), lm, idMin, format)[k]; 1 <= c.nd && c.nd == |c.e| == |c.d|
    {
      BatchesIndex(Runs(rows), lm, idMin, format, k);
    }
  }

  /** One call per maximal run: a stream of rows has as many calls as key
      changes plus one, and none at all when empty. */
  lemma SinkCallsCount(rows: seq<CRow>, lm: seq<nat>, idMin: int, format: int)
    requires RowsFit(rows, idMin, |lm|)
    ensures rows == [] ==> SinkCalls(rows, lm, idMin, format) == []
    ensures rows != [] ==> |SinkCalls(rows, lm, idMin, format)| == KeyChanges(rows) + 1
  {
    RunCount(rows);
  }

  /** The scalar fields of a call: its `ii`, `fi` and `type` come from the
      run's key, the others from the run's last row. */
  lemma BatchOfFields(run: Run, lm: seq<nat>, idMin: int, format: int)
    requires RunFits(run, idMin, |lm|) && RunKeyed(run)
    ensures idMin <= run.key.iniId < idMin + |lm| && idMin <= run.key.finId < idMin + |lm|
    ensures var c, last := BatchOf(run, lm, idMin, format), Last(run.rows);
            && c.ii == lm[run.key.iniId - idMin] && c.fi == lm[run.key.finId - idMin]
            && c.ctype == run.key.ctype
            && c.de == last.de && c.ap0 == last.ap0 && c.ap1 == last.ap1
            && c.kl == (if format == 1 then 0 else last.kl)
            && c.ap2 == (if format == 1 then Zero else last.ap2)
            && c.ap3 == (if format == 1 then Zero else last.ap3)
  {
    assert KeyOf(run.rows[|run.rows| - 1]) == run.key;
  }

  /** Call k belongs to run k of the maximal partition: its fields are those
      of `BatchOfFields`, and neighbouring calls come from runs with
      different keys. */
  lemma SinkCallFields(rows: seq<CRow>, lm: seq<nat>, idMin: int, format: int, k: nat)
    requires RowsFit(rows, idMin, |lm|)
    requires k < |SinkCalls(rows, lm, idMin, format)|
    ensures k < |Runs(rows)| && RunFits(Runs(rows)[k], idMin, |lm|) && RunKeyed(Runs(rows)[k])
    ensures SinkCalls(rows, lm, idMin, format)[k] == BatchOf(Runs(rows)[k], lm, idMin, format)
    ensures 0 < k ==> Runs(rows)[k - 1].key != Runs(rows)[k].key
  {
    RunsAreMaximal(rows);
    RunsFitTable(rows, idMin, |lm|);
    BatchesIndex(Runs(rows), lm, idMin, format, k);
  }

  /** With the table built from distinct level ids, the call of a run sends
      the run's initial level to its position in the level query and the
      final level to its. */
  lemma BatchOrientation(levels: seq<int>, idMin: int, n: nat, run: Run, format: int, a: nat, b: nat)
    requires InTable(levels, idMin, n) && Distinct(levels)
    requires RunFits(run, idMin, n) && RunKeyed(run)
    requires a < |levels| && b < |levels|
    requires run.key.iniId == levels[a] && run.key.finId == levels[b]
    ensures BatchOf(run, Remap(levels, idMin, n), idMin, format).ii == a
    ensures BatchOf(run, Remap(levels, idMin, n), idMin, format).fi == b
  {
    var lm := Remap(levels, idMin, n);
    BatchOfFields(run, lm, idMin, format);
    RemapLastWriteDistinct(levels, idMin, n, a);
    RemapLastWriteDistinct(levels, idMin, n, b);
  }

  /** With the table built from distinct level ids, a collisional call's `ii`
      is the position of its initial level and `fi` that of its final level. */
  lemma CollisionalOrientation(levels: seq<int>, idMin: int, n: nat, rows: seq<CRow>,
                               format: int, k: nat, a: nat, b: nat)
    requires InTable(levels, idMin, n) && Distinct(levels)
    requires RowsFit(rows, idMin, n)
    requires k < |Runs(rows)|
    requires a < |levels| && b < |levels|
    requires Runs(rows)[k].key.iniId == levels[a] && Runs(rows)[k].key.finId == levels[b]
    ensures k < |SinkCalls(rows, Remap(levels, idMin, n), idMin, format)|
    ensures SinkCalls(rows, Remap(levels, idMin, n), idMin, format)[k].ii == a
    ensures SinkCalls(rows, Remap(levels, idMin, n), idMin, format)[k].fi == b
  {
    var lm := Remap(levels, idMin, n);
    RunsFitTable(rows, idMin, n);
    SinkCallFields(rows, lm, idMin, format, k);
    BatchOrientation(levels, idMin, n, Runs(rows)[k], format, a, b);
  }

  // ---------------------------------------------------------------------
  // The sample buffers bound the run length
  // ---------------------------------------------------------------------

  /** Size of the `es` and `ds` buffers. */
  const SampleCapacity: nat := 256

  predicate RunsWithin(rs: seq<Run>, bound: nat) {
    forall k :: 0 <= k < |rs| ==> |rs[k].rows| <= bound
  }

  lemma AddRowWithin(rs: seq<Run>, r: CRow, bound: nat)
    requires RunsWithin(AddRow(rs, r), bound)
    ensures RunsWithin(rs, bound)
  {
    if rs != [] && Last(rs).key == KeyOf(r) {
      var m := |rs| - 1;
      assert |AddRow(rs, r)[m].rows| == |rs[m].rows| + 1;
      assert forall k :: 0 <= k < m ==> AddRow(rs, r)[k] == rs[k];
    } else {
      assert forall k :: 0 <= k < |rs| ==> AddRow(rs, r)[k] == rs[k];
    }
  }

  lemma RunsWithinDropLast(rows: seq<CRow>, i: nat, bound: nat)
    requires i < |rows| && RunsWithin(Runs(rows[..i + 1]), bound)
    ensures RunsWithin(Runs(rows[..i]), bound)
  {
    var p := rows[..i];
    RunsSnoc(p, rows[i]);
    assert p + [rows[i]] == rows[..i + 1];
    AddRowWithin(Runs(p), rows[i], bound);
  }

  /** Runs of a prefix are never longer than the runs of the whole stream. */
  lemma {:induction false} PrefixRunsWithin(rows: seq<CRow>, i: nat, bound: nat)
    requires i <= |rows| && RunsWithin(Runs(rows), bound)
    ensures RunsWithin(Runs(rows[..i]), bound)
    decreases |rows| - i
  {
    if i == |rows| {
      assert rows[..i] == rows;
    } else {
      PrefixRunsWithin(rows, i + 1, bound);
      RunsWithinDropLast(rows, i, bound);
    }
  }

  // ---------------------------------------------------------------------
  // cfac_db_ctrans
  // ---------------------------------------------------------------------

  /** The `nd` samples collected so far and the call fields as the reader
      holds them, against the pending run they must describe. */
  ghost predicate Pending(runs: seq<Run>, nd: nat, prev: Key, cb: CBatch, e: seq<EPoint>, d: seq<Double>,
                          lm: seq<nat>, idMin: int, format: int)
  {
    && (runs == [] ==> nd == 0 && prev == Key(0, 0, 0))
    && (runs != [] ==>
          && RunFits(Last(runs), idMin, |lm|)
          && nd == |Last(runs).rows| && prev == Last(runs).key
          && cb.(nd := nd, e := e, d := d) == BatchOf(Last(runs), lm, idMin, format))
  }

  /** The call fields after the reader has read `row`. */
  function WithRow(cb: CBatch, row: CRow, lm: seq<nat>, idMin: int, format: int): CBatch
    requires RowFits(row, idMin, |lm|)
  {
    cb.(ii := lm[row.iniId - idMin], fi := lm[row.finId - idMin], ctype := row.ctype, de := row.de,
        kl := if format == 1 then 0 else row.kl, ap0 := row.ap0, ap1 := row.ap1,
        ap2 := if format == 1 then Zero else row.ap2, ap3 := if format == 1 then Zero else row.ap3)
  }

  /** A row with a new key opens a run of its own. */
  lemma PendingOpen(rs: seq<Run>, row: CRow, cb: CBatch, lm: seq<nat>, idMin: int, format: int)
    requires RowFits(row, idMin, |lm|)
    requires !(rs != [] && Last(rs).key == KeyOf(row))
    ensures Pending(AddRow(rs, row), 1, KeyOf(row), WithRow(cb, row, lm, idMin, format),
                    [EPoint(row.e, row.de)], [row.strength], lm, idMin, format)
  {
    AddRowStep(rs, row);
    var run := Last(AddRow(rs, row));
    assert run == Run(KeyOf(row), [row]);
    assert Last(run.rows) == row;
    assert Samples(run.rows) == [EPoint(row.e, row.de)];
    assert Strengths(run.rows) == [row.strength];
    var b := BatchOf(run, lm, idMin, format);
    assert b.nd == 1;
    assert b == WithRow(cb, row, lm, idMin, format).(nd := 1, e := [EPoint(row.e, row.de)], d := [row.strength]);
  }

  /** A row with the pending run's key extends it by one sample. */
  lemma PendingExtend(rs: seq<Run>, row: CRow, nd: nat, cb: CBatch, e: seq<EPoint>, d: seq<Double>,
                      lm: seq<nat>, idMin: int, format: int)
    requires RowFits(row, idMin, |lm|)
    requires rs != [] && Last(rs).key == KeyOf(row)
    requires Pending(rs, nd, KeyOf(row), cb, e, d, lm, idMin, format)
    ensures Pending(AddRow(rs, row), nd + 1, KeyOf(row), WithRow(cb, row, lm, idMin, format),
                    e + [EPoint(row.e, row.de)], d + [row.strength], lm, idMin, format)
  {
  }

  /** Handing the pending run to the sink closes it. */
  lemma Flush(rs: seq<Run>, nd: nat, prev: Key, cb: CBatch, e: seq<EPoint>, d: seq<Double>,
              lm: seq<nat>, idMin: int, format: int)
    requires rs != [] && AllRunsFit(rs, idMin, |lm|)
    requires Pending(rs, nd, prev, cb, e, d, lm, idMin, format)
    ensures AllRunsFit(Closed(rs), idMin, |lm|)
    ensures Batches(rs, lm, idMin, format) ==
            Batches(Closed(rs), lm, idMin, format) + [cb.(nd := nd, e := e, d := d)]
  {
  }

  /** The bookkeeping of one row: whether the pending samples are handed to
      the sink, how many samples stay in the buffers, and what the reader
      then holds. */
  lemma RowStep(runs: seq<Run>, row: CRow, nd: nat, prev: Key, cb: CBatch, e: seq<EPoint>, d: seq<Double>,
                calls: seq<CBatch>, lm: seq<nat>, idMin: int, format: int)
    requires RowFits(row, idMin, |lm|) && AllRunsFit(runs, idMin, |lm|)
    requires RunsWithin(AddRow(runs, row), SampleCapacity)
    requires |e| == nd && |d| == nd
    requires Pending(runs, nd, prev, cb, e, d, lm, idMin, format)
    requires calls == Batches(Closed(runs), lm, idMin, format)
    ensures AllRunsFit(AddRow(runs, row), idMin, |lm|)
    ensures KeyOf(row) != prev && nd != 0 ==>
              calls + [cb.(nd := nd, e := e, d := d)] == Batches(Closed(AddRow(runs, row)), lm, idMin, format)
    ensures !(KeyOf(row) != prev && nd != 0) ==> calls == Batches(Closed(AddRow(runs, row)), lm, idMin, format)
    ensures KeyOf(row) != prev ==>
              Pending(AddRow(runs, row), 1, KeyOf(row), WithRow(cb, row, lm, idMin, format),
                      [EPoint(row.e, row.de)], [row.strength], lm, idMin, format)
    ensures KeyOf(row) == prev ==>
              nd < SampleCapacity &&
              Pending(AddRow(runs, row), nd + 1, KeyOf(row), WithRow(cb, row, lm, idMin, format),
                      e + [EPoint(row.e, row.de)], d + [row.strength], lm, idMin, format)
  {
    AddRowStep(runs, row);
    AddRowFits(runs, row, idMin, |lm|);
    if runs != [] {
      Flush(runs, nd, prev, cb, e, d, lm, idMin, format);
    }
    if KeyOf(row) != prev || runs == [] {
      PendingOpen(runs, row, cb, lm, idMin, format);
      assert nd == 0 ==> e == [] && d == [];
    } else {
      PendingExtend(runs, row, nd, cb, e, d, lm, idMin, format);
      var next := AddRow(runs, row);
      assert |next[|next| - 1].rows| == nd + 1;
    }
  }

  /** A row with the pending run's key still fits in the buffers. */
  lemma RoomForRow(runs: seq<Run>, row: CRow, nd: nat, prev: Key, cb: CBatch, e: seq<EPoint>, d: seq<Double>,
                   lm: seq<nat>, idMin: int, format: int)
    requires RunsWithin(AddRow(runs, row), SampleCapacity)
    requires Pending(runs, nd, prev, cb, e, d, lm, idMin, format)
    ensures KeyOf(row) == prev ==> nd < SampleCapacity
  {
    if KeyOf(row) == prev && runs != [] {
      AddRowStep(runs, row);
      var next := AddRow(runs, row);
      assert |next[|next| - 1].rows| == nd + 1;
    }
  }

  /** The reader's state after a row, as `ReadRow` leaves it, describes the
      runs of the stream one row longer. */
  lemma AfterRow(runs: seq<Run>, row: CRow, nd: nat, prev: Key, cb: CBatch, e: seq<EPoint>, d: seq<Double>,
                 calls: seq<CBatch>, nd': nat, prev': Key, cb': CBatch, e': seq<EPoint>, d': seq<Double>,
                 calls': seq<CBatch>, lm: seq<nat>, idMin: int, format: int)
    requires RowFits(row, idMin, |lm|) && AllRunsFit(runs, idMin, |lm|)
    requires RunsWithin(AddRow(runs, row), SampleCapacity)
    requires |e| == nd && |d| == nd
    requires Pending(runs, nd, prev, cb, e, d, lm, idMin, format)
    requires calls == Batches(Closed(runs), lm, idMin, format)
    requires prev' == KeyOf(row) && cb' == WithRow(cb, row, lm, idMin, format)
    requires KeyOf(row) != prev && nd != 0 ==> calls' == calls + [cb.(nd := nd, e := e, d := d)]
    requires !(KeyOf(row) != prev && nd != 0) ==> calls' == calls
    requires KeyOf(row) != prev ==> nd' == 1 && e' == [EPoint(row.e, row.de)] && d' == [row.strength]
    requires KeyOf(row) == prev ==> nd' == nd + 1 && e' == e + [EPoint(row.e, row.de)] && d' == d + [row.strength]
    ensures nd' <= SampleCapacity && AllRunsFit(AddRow(runs, row), idMin, |lm|)
    ensures Pending(AddRow(runs, row), nd', prev', cb', e', d', lm, idMin, format)
    ensures calls' == Batches(Closed(AddRow(runs, row)), lm, idMin, format)
  {
    RowStep(runs, row, nd, prev, cb, e, d, calls, lm, idMin, format);
  }

  /** The `SQLITE_ROW` case of `cfac_db_ctrans`: a row whose key differs
      from the previous one first hands the pending samples (if any) to the
      sink and empties the buffers; then the row's fields overwrite the call
      data and its sample is appended to the buffers. */
  method ReadRow(cdb: CfacDb, row: CRow, es: array<EPoint>, ds: array<Double>,
                 nd: nat, prev: Key, cb: CBatch, calls: seq<CBatch>)
    returns (nd': nat, prev': Key, cb': CBatch, calls': seq<CBatch>)
    requires cdb.lmap != null && RowFits(row, cdb.idMin, cdb.lmap.Length)
    requires es.Length == SampleCapacity && ds.Length == SampleCapacity
    requires es as object != ds as object && es as object != cdb.lmap && ds as object != cdb.lmap
    requires nd <= SampleCapacity && (KeyOf(row) == prev ==> nd < SampleCapacity)
    modifies es, ds
    ensures prev' == KeyOf(row) && cb' == WithRow(cb, row, cdb.lmap[..], cdb.idMin, cdb.dbFormat)
    ensures KeyOf(row) != prev && nd != 0 ==> calls' == calls + [cb.(nd := nd, e := old(es[..nd]), d := old(ds[..nd]))]
    ensures !(KeyOf(row) != prev && nd != 0) ==> calls' == calls
    ensures KeyOf(row) != prev ==>
              nd' == 1 && es[..nd'] == [EPoint(row.e, row.de)] && ds[..nd'] == [row.strength]
    ensures KeyOf(row) == prev ==>
              nd' == nd + 1 && es[..nd'] == old(es[..nd]) + [EPoint(row.e, row.de)] &&
              ds[..nd'] == old(ds[..nd]) + [row.strength]
  {
    var kl, ap2, ap3;
    if cdb.dbFormat == 1 {
      kl, ap2, ap3 := 0, Zero, Zero;
    } else {
      kl, ap2, ap3 := row.kl, row.ap2, row.ap3;
    }
    nd', prev', calls' := nd, prev, calls;
    if row.iniId != prev.iniId || row.finId != prev.finId || row.ctype != prev.ctype {
      if nd != 0 {
        calls' := calls + [cb.(nd := nd, e := es[..nd], d := ds[..nd])];
      }
      nd' := 0;
      prev' := KeyOf(row);
    }
    var ii, fi := cdb.lmap[row.iniId - cdb.idMin], cdb.lmap[row.finId - cdb.idMin];
    cb' := cb.(ii := ii, fi := fi, ctype := row.ctype, de := row.de,
               kl := kl, ap0 := row.ap0, ap1 := row.ap1, ap2 := ap2, ap3 := ap3);
    assert prev' == KeyOf(row);
    assert cb' == WithRow(cb, row, cdb.lmap[..], cdb.idMin, cdb.dbFormat);
    es[nd'] := EPoint(row.e, row.de);
    ds[nd'] := row.strength;
    assert es[..nd' + 1] == old(es[..nd']) + [EPoint(row.e, row.de)];
    assert ds[..nd' + 1] == old(ds[..nd']) + [row.strength];
    nd' := nd' + 1;
  }

  /** The step loop of `cfac_db_ctrans` over the rows: when it ends, every
      run but the last has been handed to the sink and the buffers hold the
      last run. */
  method CollectRows(cdb: CfacDb, rows: seq<CRow>, es: array<EPoint>, ds: array<Double>)
    returns (nd: nat, prev: Key, cb: CBatch, calls: seq<CBatch>)
    requires cdb.lmap != null && RowsFit(rows, cdb.idMin, cdb.lmap.Length)
    requires es.Length == SampleCapacity && ds.Length == SampleCapacity
    requires es as object != ds as object && es as object != cdb.lmap && ds as object != cdb.lmap
    requires RunsWithin(Runs(rows), SampleCapacity)
    modifies es, ds
    ensures nd <= SampleCapacity && AllRunsFit(Runs(rows), cdb.idMin, cdb.lmap.Length)
    ensures Pending(Runs(rows), nd, prev, cb, es[..nd], ds[..nd], cdb.lmap[..], cdb.idMin, cdb.dbFormat)
    ensures calls == Batches(Closed(Runs(rows)), cdb.lmap[..], cdb.idMin, cdb.dbFormat)
  {
    ghost var runs: seq<Run> := [];
    cb := CBatch(0, 0, 0, Zero, 0, Zero, Zero, Zero, Zero, 0, [], []);
    prev := Key(0, 0, 0);
    nd := 0;
    calls := [];
    var i := 0;
    while i < |rows|
      invariant 0 <= i <= |rows| && runs == Runs(rows[..i])
      invariant AllRunsFit(runs, cdb.idMin, cdb.lmap.Length) && nd <= SampleCapacity
      invariant Pending(runs, nd, prev, cb, es[..nd], ds[..nd], cdb.lmap[..], cdb.idMin, cdb.dbFormat)
      invariant calls == Batches(Closed(runs), cdb.lmap[..], cdb.idMin, cdb.dbFormat)
    {
      RunsPrefixStep(rows, i);
      PrefixRunsWithin(rows, i + 1, SampleCapacity);
      ghost var e, d, lm := es[..nd], ds[..nd], cdb.lmap[..];
      RoomForRow(runs, rows[i], nd, prev, cb, e, d, lm, cdb.idMin, cdb.dbFormat);
      var nd', prev', cb', calls' := ReadRow(cdb, rows[i], es, ds, nd, prev, cb, calls);
      assert cdb.lmap[..] == lm;
      AfterRow(runs, rows[i], nd, prev, cb, e, d, calls, nd', prev', cb', es[..nd'], ds[..nd'], calls',
               lm, cdb.idMin, cdb.dbFormat);
      nd, prev, cb, calls := nd', prev', cb', calls';
      runs := AddRow(runs, rows[i]);
      i := i + 1;
    }
    assert rows[..i] == rows;
  }

  /** `cfac_db_ctrans`. The buffers hold 256 samples and nothing checks for
      overflow, so no run may be longer. An SQLITE_OK step is not among the
      handled results and ends the stream like an error. */
  method CTrans(cdb: CfacDb?, rows: seq<CRow>, end: StepEnd) returns (rc: int, calls: seq<CBatch>)
    requires cdb != null ==> cdb.Ready() && RowsFit(rows, cdb.idMin, cdb.lmap.Length)
    requires RunsWithin(Runs(rows), SampleCapacity)
    ensures cdb == null ==> rc == ReaderNoDb && calls == []
    ensures cdb != null && end == StepDone ==>
              rc == ReaderOk && calls == SinkCalls(rows, cdb.lmap[..], cdb.idMin, cdb.dbFormat)
    ensures cdb != null && end != StepDone ==>
              rc == ReaderSqlError && calls == SinkCallsBeforeError(rows, cdb.lmap[..], cdb.idMin, cdb.dbFormat)
  {
    var es := new EPoint[SampleCapacity](_ => EPoint(Zero, Zero));
    var ds := new Double[SampleCapacity](_ => Zero);
    if cdb == null {
      return ReaderNoDb, [];
    }
    var nd, prev, cb;
    nd, prev, cb, calls := CollectRows(cdb, rows, es, ds);
    if end == StepDone {
      if nd != 0 {
        Flush(Runs(rows), nd, prev, cb, es[..nd], ds[..nd], cdb.lmap[..], cdb.idMin, cdb.dbFormat);
        calls := calls + [cb.(nd := nd, e := es[..nd], d := ds[..nd])];
      } else {
        assert Runs(rows) == [];
      }
      return ReaderOk, calls;
    }
    return ReaderSqlError, calls;
  }
}
