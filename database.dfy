/** The database handle of cfacdb.c (`cfac_db_t`) with its two set-up steps:
    `cdb_open` (format detection and schema selection) and `cdb_init`
    (session, dimensions, species and the level remap table). */
module Database {
  import opened Common
  import opened Callbacks
  import opened LevelMap

  type Sql = string

  /** The format of a database whose `cfacdb` table query had result `q`.
      The destination starts at the zero `memset` leaves; a failing query,
      a missing table or a callback abort all mean the first format. */
  function DetectFormat(q: Query): (f: int)
    ensures q.QueryFailed? ==> f == 1
    ensures f != 1 ==> Exec(q, FormatCb, 0).ok
    ensures -TwoTo32 / 2 <= f < TwoTo32 / 2
  {
    match q
    case QueryFailed => 1
    case QueryRows(rows) =>
      ExecRowsRange(rows, FormatCb, 0, -TwoTo32 / 2, TwoTo32 / 2);
      var r := ExecRows(rows, FormatCb, 0);
      if r.ok then r.dest else 1
  }

  /** The only formats `cdb_open` accepts. */
  predicate SupportedFormat(format: int) {
    format == 1 || format == 2
  }

  /** The version-specific schema run after the base schema. */
  function VersionSchema(format: int, v1: seq<Sql>, v2: seq<Sql>): (s: seq<Sql>)
    ensures s == v1 || s == v2
    ensures format == 1 ==> s == v1
    ensures format == 2 ==> s == v2
  {
    if format == 1 then v1 else v2
  }

  /** A `cfacdb` table without the format row leaves the zero in place, and
      a database of format 0 is refused. */
  lemma FormatOfNoRow()
    ensures DetectFormat(QueryRows([])) == 0
    ensures !SupportedFormat(DetectFormat(QueryRows([])))
  {
  }

  /** A row that is not exactly one non-NULL value aborts the query, and the
      database is then taken to be of the first format. */
  lemma FormatOfMalformedRow(rows: seq<seq<Cell>>, k: nat)
    requires k < |rows| && !SingleValue(rows[k])
    ensures DetectFormat(QueryRows(rows)) == 1
  {
    forall row, d ensures FormatCb(row, d).rc == 0 <==> SingleValue(row) {
    }
    ExecMalformedFails(rows, FormatCb, 0, k);
  }

  /** With well-formed rows the format is the last row's value, as `atol`
      reads it and truncated to `int`. */
  lemma FormatOfWellFormedRows(rows: seq<seq<Cell>>)
    requires rows != []
    requires forall k :: 0 <= k < |rows| ==> SingleValue(rows[k])
    ensures DetectFormat(QueryRows(rows)) == ToCInt(Atol(LastValue(rows)))
  {
    ExecFormatWellFormed(rows, 0);
  }

  /** A format written as its decimal text is read back as that format. */
  lemma FormatRoundTrip(format: int)
    requires SupportedFormat(format)
    ensures DetectFormat(QueryRows([[Text(Decimal(format))]])) == format
  {
    var rows := [[Text(Decimal(format))]];
    FormatOfWellFormedRows(rows);
    AtolDecimal(format, []);
    assert Decimal(format) + [] == Decimal(format);
  }

  /** The schema statements of `cdb_open`: the base schema, then the one
      for the database's format, each run in order; `outcome(j)` is whether
      the j-th statement sent to the database succeeds. Returns whether all
      succeeded and the statements sent, the failing one last. */
  method ExecSchemas(format: int, base: seq<Sql>, v1: seq<Sql>, v2: seq<Sql>, outcome: nat -> bool)
    returns (ok: bool, executed: seq<Sql>)
    ensures |executed| <= |base + VersionSchema(format, v1, v2)|
    ensures executed == (base + VersionSchema(format, v1, v2))[..|executed|]
    ensures ok <==> forall j :: 0 <= j < |base + VersionSchema(format, v1, v2)| ==> outcome(j)
    ensures ok ==> executed == base + VersionSchema(format, v1, v2)
    ensures !ok ==> executed != [] && !outcome(|executed| - 1)
    ensures forall j :: 0 <= j < |executed| - 1 ==> outcome(j)
  {
    var all := base + VersionSchema(format, v1, v2);
    var schemas := [base, VersionSchema(format, v1, v2)];
    executed := [];
    var ns := 0;
    while ns < 2
      invariant 0 <= ns <= 2
      invariant executed == if ns == 0 then [] else if ns == 1 then base else all
      invariant forall j :: 0 <= j < |executed| ==> outcome(j)
    {
      var schema := schemas[ns];
      ghost var before := executed;
      var i := 0;
      while i < |schema|
        invariant 0 <= i <= |schema|
        invariant executed == before + schema[..i]
        invariant forall j :: 0 <= j < |executed| ==> outcome(j)
      {
        var rc := outcome(|executed|);
        executed := executed + [schema[i]];
        if !rc {
          assert executed == all[..|executed|];
          return false, executed;
        }
        i := i + 1;
      }
      assert schema[..i] == schema;
      ns := ns + 1;
    }
    return true, executed;
  }

  /** The session query of `cdb_init` run through `sid_cb`, starting from
      the handle's current `sid`. */
  function LatestSession(q: Query, sid: int): (r: ExecResult)
    ensures q.QueryFailed? ==> r == ExecResult(false, sid)
    ensures r.dest == sid || 0 <= r.dest < TwoTo64
  {
    match q
    case QueryFailed => ExecResult(false, sid)
    case QueryRows(rows) =>
      ExecRowsRange(rows, SidCb, sid, 0, TwoTo64);
      ExecRows(rows, SidCb, sid)
  }

  /** With well-formed rows the session id is the last row's value, as
      `atol` reads it and reduced into `unsigned long`. */
  lemma SessionOfWellFormedRows(rows: seq<seq<Cell>>, sid: int)
    requires rows != []
    requires forall k :: 0 <= k < |rows| ==> SingleValue(rows[k])
    ensures LatestSession(QueryRows(rows), sid) == ExecResult(true, ToULong(Atol(LastValue(rows))))
  {
    ExecSidWellFormed(rows, sid);
  }

  /** A session id written as its decimal text is read back as that id. */
  lemma SessionRoundTrip(n: nat, sid: int)
    requires n < TwoTo64
    ensures LatestSession(QueryRows([[Text(Decimal(n))]]), sid) == ExecResult(true, n)
  {
    var rows := [[Text(Decimal(n))]];
    SessionOfWellFormedRows(rows, sid);
    AtolDecimal(n, []);
    assert Decimal(n) + [] == Decimal(n);
  }

  /** The results of the six dimension queries of `cdb_init`, in the order
      it runs them; `None` is a query whose step does not return a row. */
  datatype Dimensions = Dimensions(
    ndim: Option<int>, rtdim: Option<int>, aidim: Option<int>,
    cedim: Option<int>, cidim: Option<int>, pidim: Option<int>)

  predicate AllDimensions(d: Dimensions) {
    d.ndim.Some? && d.rtdim.Some? && d.aidim.Some? &&
    d.cedim.Some? && d.cidim.Some? && d.pidim.Some?
  }

  /** The columns of the species row `cdb_init` keeps. */
  datatype Species = Species(anum: int, mass: Double, idMin: int, idMax: int)

  /** What `cdb_init` demands of the species row and the level stream: its
      `lmap` write is unchecked, so every level id needs a slot. */
  predicate LevelsFit(species: Species, levels: seq<int>) {
    species.idMin <= species.idMax &&
    InTable(levels, species.idMin, species.idMax - species.idMin + 1)
  }

  /** The `lmap` loop of `cdb_init`: a zero-filled table of `ntot` slots,
      then slot `levels[k] - idMin` set to k for each returned row k. */
  method BuildLevelMap(levels: seq<int>, idMin: int, ntot: nat) returns (table: array<nat>)
    requires InTable(levels, idMin, ntot)
    ensures fresh(table) && table.Length == ntot
    ensures table[..] == Remap(levels, idMin, ntot)
  {
    table := new nat[ntot](_ => 0);
    assert table[..] == Remap([], idMin, ntot);
    var i := 0;
    while i < |levels|
      invariant 0 <= i <= |levels|
      invariant table[..] == Remap(levels[..i], idMin, ntot)
    {
      assert levels[..i + 1][..i] == levels[..i];
      table[levels[i] - idMin] := i;
      i := i + 1;
    }
    assert levels[..i] == levels;
  }

  class CfacDb {
    var dbFormat: int
    var sid: int
    var ndim: int
    var rtdim: int
    var aidim: int
    var cedim: int
    var cidim: int
    var pidim: int
    var anum: int
    var mass: Double
    var idMin: int
    var idMax: int
    var neleMin: int
    var neleMax: int
    var lmap: array?<nat>
    /** The level ids in the order the level query returned them. */
    ghost var levelIds: seq<int>

    /** The handle as `malloc` plus `memset(cdb, 0, ...)` leave it. */
    constructor ()
      ensures dbFormat == 0 && sid == 0 && idMin == 0 && idMax == 0
      ensures lmap == null && levelIds == []
    {
      dbFormat, sid := 0, 0;
      ndim, rtdim, aidim, cedim, cidim, pidim := 0, 0, 0, 0, 0, 0;
      anum, mass, idMin, idMax, neleMin, neleMax := 0, Zero, 0, 0, 0, 0;
      lmap := null;
      levelIds := [];
    }

    /** What a successful `cdb_open` guarantees. */
    ghost predicate Opened()
      reads this
    {
      SupportedFormat(dbFormat)
    }

    /** What a successful `cdb_init` guarantees: `lmap` has one slot per id
      in [idMin, idMax] and holds the remap of the returned level ids. */
    ghost predicate Ready()
      reads this, lmap
    {
      Opened() && lmap != null &&
      idMin <= idMax && lmap.Length == idMax - idMin + 1 &&
      InTable(levelIds, idMin, lmap.Length) &&
      lmap[..] == Remap(levelIds, idMin, lmap.Length)
    }

    /** The body of `cdb_init` after `cdb_open` has succeeded. The result
      is false where the source closes the handle and returns NULL. */
    method Init(sidQuery: Query, dims: Dimensions, species: Option<Species>,
                levels: seq<int>, end: StepEnd, neleMin: int, neleMax: int)
      returns (ok: bool)
      requires Opened()
      requires species.Some? ==> LevelsFit(species.value, levels)
      modifies this`sid, this`ndim, this`rtdim, this`aidim, this`cedim, this`cidim, this`pidim,
               this`anum, this`mass, this`idMin, this`idMax, this`neleMin, this`neleMax,
               this`lmap, this`levelIds
      ensures ok <==> LatestSession(sidQuery, old(sid)).ok && AllDimensions(dims) &&
                      species.Some? && end != StepError
      ensures ok ==> Ready() && fresh(lmap)
      ensures ok ==> dbFormat == old(dbFormat) && sid == LatestSession(sidQuery, old(sid)).dest
      ensures ok ==> ndim == dims.ndim.value && rtdim == dims.rtdim.value &&
                     aidim == dims.aidim.value && cedim == dims.cedim.value &&
                     cidim == dims.cidim.value && pidim == dims.pidim.value
      ensures ok ==> anum == species.value.anum && mass == species.value.mass &&
                     idMin == species.value.idMin && idMax == species.value.idMax
      ensures ok ==> this.neleMin == neleMin && this.neleMax == neleMax
      ensures ok ==> levelIds == levels
    {
      // the session id
      var r := LatestSession(sidQuery, sid);
      sid := r.dest;
      if !r.ok {
        return false;
      }
      // the six counts; the first query without a row aborts, and what the
      // earlier ones stored is discarded with the handle
      if !AllDimensions(dims) {
        return false;
      }
      ndim, rtdim, aidim := dims.ndim.value, dims.rtdim.value, dims.aidim.value;
      cedim, cidim, pidim := dims.cedim.value, dims.cidim.value, dims.pidim.value;
      // the species row
      if species.None? {
        return false;
      }
      ok := LoadLevels(species.value, levels, end, neleMin, neleMax);
    }

    /** The second half of `cdb_init`: keep the species row, allocate the
      zero-filled `lmap` of `id_max - id_min + 1` slots and fill it from the
      level stream, which fails if it ends in an error. */
    method LoadLevels(sp: Species, levels: seq<int>, end: StepEnd, neleMin: int, neleMax: int)
      returns (ok: bool)
      requires Opened() && LevelsFit(sp, levels)
      modifies this`anum, this`mass, this`idMin, this`idMax, this`neleMin, this`neleMax,
               this`lmap, this`levelIds
      ensures ok <==> end != StepError
      ensures anum == sp.anum && mass == sp.mass && idMin == sp.idMin && idMax == sp.idMax
      ensures this.neleMin == neleMin && this.neleMax == neleMax
      ensures ok ==> Ready() && fresh(lmap) && levelIds == levels
    {
      anum, mass, idMin, idMax := sp.anum, sp.mass, sp.idMin, sp.idMax;
      var ntot := idMax - idMin + 1;
      this.neleMin, this.neleMax := neleMin, neleMax;
      var table := BuildLevelMap(levels, idMin, ntot);
      lmap := table;
      if end == StepError {
        return false;
      }
      levelIds := levels;
      assert lmap[..] == Remap(levelIds, idMin, lmap.Length);
      return true;
    }
  }

  /** `cdb_open`: `connected` is whether SQLite opened the file, `formatQuery`
      the result of the format query, `base`, `v1` and `v2` the three schema
      lists and `outcome(j)` whether the j-th schema statement succeeds.
      Returns the handle, or null where the source returns NULL, and the
      schema statements that were sent. */
  method Open(connected: bool, formatQuery: Query, base: seq<Sql>, v1: seq<Sql>, v2: seq<Sql>,
              outcome: nat -> bool)
    returns (cdb: CfacDb?, executed: seq<Sql>)
    ensures cdb != null <==>
            connected && SupportedFormat(DetectFormat(formatQuery)) &&
            forall j :: 0 <= j < |base + VersionSchema(DetectFormat(formatQuery), v1, v2)| ==> outcome(j)
    ensures cdb != null ==> fresh(cdb) && cdb.Opened() && cdb.dbFormat == DetectFormat(formatQuery)
    ensures cdb != null ==> cdb.lmap == null
    ensures !(connected && SupportedFormat(DetectFormat(formatQuery))) ==> executed == []
    ensures |executed| <= |base + VersionSchema(DetectFormat(formatQuery), v1, v2)|
    ensures executed == (base + VersionSchema(DetectFormat(formatQuery), v1, v2))[..|executed|]
    ensures cdb != null ==> executed == base + VersionSchema(DetectFormat(formatQuery), v1, v2)
    ensures connected && SupportedFormat(DetectFormat(formatQuery)) && cdb == null ==>
              executed != [] && !outcome(|executed| - 1)
    ensures forall j :: 0 <= j < |executed| - 1 ==> outcome(j)
  {
    if !connected {
      return null, [];
    }
    var c := new CfacDb();
    var r := Exec(formatQuery, FormatCb, c.dbFormat);
    c.dbFormat := r.dest;
    if !r.ok {
      // no usable format row: the database predates the format table
      c.dbFormat := 1;
    }
    if c.dbFormat != 1 && c.dbFormat != 2 {
      return null, [];
    }
    var ok;
    ok, executed := ExecSchemas(c.dbFormat, base, v1, v2, outcome);
    if !ok {
      return null, executed;
    }
    return c, executed;
  }
}
