/** The single-value row callbacks `sid_cb` and `format_cb` of cfacdb.c,
    the C library conversion `atol` they rely on, and the row loop of
    `sqlite3_exec` that drives them. */
module Callbacks {
  import opened Common

  // ---------------------------------------------------------------------
  // atol: leading white space, an optional sign, then decimal digits up to
  // the first non-digit. Anything after the digits is ignored.
  // ---------------------------------------------------------------------

  /** The characters C's `isspace` accepts in the "C" locale. */
  predicate IsSpace(c: char) {
    c == ' ' || 9 <= c as int <= 13
  }

  predicate IsDigit(c: char) {
    '0' <= c <= '9'
  }

  predicate AllDigits(d: string) {
    forall i :: 0 <= i < |d| ==> IsDigit(d[i])
  }

  function SkipSpace(s: string): (t: string)
    ensures |t| <= |s| && t == s[|s| - |t|..]
    ensures t == [] || !IsSpace(t[0])
  {
    if s != [] && IsSpace(s[0]) then SkipSpace(s[1..]) else s
  }

  /** The longest prefix of `s` made of digits. */
  function DigitPrefix(s: string): (d: string)
    ensures |d| <= |s| && d == s[..|d|]
    ensures AllDigits(d)
    ensures |d| < |s| ==> !IsDigit(s[|d|])
  {
    if s != [] && IsDigit(s[0]) then [s[0]] + DigitPrefix(s[1..]) else []
  }

  /** The value of a run of decimal digits, most significant first. */
  function DigitsValue(d: string): nat
    requires AllDigits(d)
  {
    if d == [] then 0
    else 10 * DigitsValue(d[..|d| - 1]) + (d[|d| - 1] as int - '0' as int)
  }

  /** `atol(s)` with the value left unbounded: an overflow of `long`, which
      C leaves undefined, is not modelled. */
  function Atol(s: string): int {
    var t := SkipSpace(s);
    if t != [] && t[0] == '-' then -(DigitsValue(DigitPrefix(t[1..])) as int)
    else if t != [] && t[0] == '+' then DigitsValue(DigitPrefix(t[1..]))
    else DigitsValue(DigitPrefix(t))
  }

  /** Canonical decimal text of a number: the reference `Atol` inverts. */
  function Digits(n: nat): (d: string)
    ensures d != [] && AllDigits(d)
  {
    if n < 10 then ['0' + n as char]
    else Digits(n / 10) + ['0' + (n % 10) as char]
  }

  function Decimal(n: int): (s: string)
    ensures s != []
  {
    if n < 0 then "-" + Digits(-n) else Digits(n)
  }

  lemma {:induction false} DigitsValueOfDigits(n: nat)
    ensures DigitsValue(Digits(n)) == n
  {
    if n >= 10 {
      var d := Digits(n);
      assert d[..|d| - 1] == Digits(n / 10);
      DigitsValueOfDigits(n / 10);
    }
  }

  lemma {:induction false} DigitPrefixOfDigitsThenOther(d: string, rest: string)
    requires AllDigits(d)
    requires rest == [] || !IsDigit(rest[0])
    ensures DigitPrefix(d + rest) == d
  {
    if d != [] {
      assert (d + rest)[1..] == d[1..] + rest;
      DigitPrefixOfDigitsThenOther(d[1..], rest);
    }
  }

  /** `atol` on a digit run followed by a non-digit reads the digit run. */
  lemma UnsignedAtol(d: string, rest: string)
    requires d != [] && AllDigits(d)
    requires rest == [] || !IsDigit(rest[0])
    ensures Atol(d + rest) == DigitsValue(d)
  {
    var s := d + rest;
    assert s[0] == d[0];
    assert SkipSpace(s) == s;
    DigitPrefixOfDigitsThenOther(d, rest);
  }

  /** `atol` on a minus sign, a digit run and a non-digit reads the
      negated digit run. */
  lemma NegativeAtol(d: string, rest: string)
    requires d != [] && AllDigits(d)
    requires rest == [] || !IsDigit(rest[0])
    ensures Atol("-" + d + rest) == -(DigitsValue(d) as int)
  {
    var s := "-" + d + rest;
    assert SkipSpace(s) == s;
    assert s[1..] == d + rest;
    DigitPrefixOfDigitsThenOther(d, rest);
  }

  /** `atol` reads back the canonical decimal text of every number, and
      ignores whatever follows the digits. */
  lemma AtolDecimal(n: int, rest: string)
    requires rest == [] || !IsDigit(rest[0])
    ensures Atol(Decimal(n) + rest) == n
  {
    if n < 0 {
      NegativeAtol(Digits(-n), rest);
      DigitsValueOfDigits(-n);
    } else {
      UnsignedAtol(Digits(n), rest);
      DigitsValueOfDigits(n);
    }
  }

  // ---------------------------------------------------------------------
  // Integer conversions of the stored value
  // ---------------------------------------------------------------------

  const TwoTo32: int := 0x1_0000_0000
  const TwoTo64: int := 0x1_0000_0000_0000_0000

  /** Conversion of the `long` from `atol` to a 32-bit `int`, as GCC and
      Clang define it: reduction modulo 2^32 into [-2^31, 2^31). */
  function ToCInt(v: int): (r: int)
    ensures -TwoTo32 / 2 <= r < TwoTo32 / 2
    ensures -TwoTo32 / 2 <= v < TwoTo32 / 2 ==> r == v
  {
    var m := v % TwoTo32;
    if m >= TwoTo32 / 2 then m - TwoTo32 else m
  }

  /** Conversion of the `long` from `atol` to `unsigned long` (64 bits):
      reduction modulo 2^64, which C defines. */
  function ToULong(v: int): (r: nat)
    ensures r < TwoTo64
    ensures 0 <= v < TwoTo64 ==> r == v
  {
    v % TwoTo64
  }

  // ---------------------------------------------------------------------
  // The callbacks and sqlite3_exec's row loop
  // ---------------------------------------------------------------------

  /** What a row callback returns and the value it leaves in `*udata`. */
  datatype CbResult = CbResult(rc: int, dest: int)

  /** The row shape both callbacks accept: exactly one column, not NULL. */
  predicate SingleValue(row: seq<Cell>) {
    |row| == 1 && row[0].Text?
  }

  /** `format_cb`: stores the row's one value into the `int` format field. */
  function FormatCb(row: seq<Cell>, dest: int): (r: CbResult)
    ensures r.rc == 0 <==> SingleValue(row)
    ensures r.rc != 0 ==> r.rc == -1 && r.dest == dest
    ensures r.rc == 0 ==> -TwoTo32 / 2 <= r.dest < TwoTo32 / 2
  {
    if |row| != 1 || row[0].Null? then CbResult(-1, dest)
    else CbResult(0, ToCInt(Atol(row[0].s)))
  }

  /** `sid_cb`: stores the row's one value into the `unsigned long` session id. */
  function SidCb(row: seq<Cell>, dest: int): (r: CbResult)
    ensures r.rc == 0 <==> SingleValue(row)
    ensures r.rc != 0 ==> r.rc == -1 && r.dest == dest
    ensures r.rc == 0 ==> 0 <= r.dest < TwoTo64
  {
    if |row| != 1 || row[0].Null? then CbResult(-1, dest)
    else CbResult(0, ToULong(Atol(row[0].s)))
  }

  /** Whether `sqlite3_exec` returned SQLITE_OK, and the destination value
      the callbacks left behind. */
  datatype ExecResult = ExecResult(ok: bool, dest: int)

  /** `sqlite3_exec` with a row callback: a failing statement leaves the
      destination untouched; otherwise the callback runs on each row in
      order, and the first non-zero return aborts the statement. */
  function Exec(q: Query, cb: (seq<Cell>, int) -> CbResult, dest: int): ExecResult {
    match q
    case QueryFailed => ExecResult(false, dest)
    case QueryRows(rows) => ExecRows(rows, cb, dest)
  }

  function ExecRows(rows: seq<seq<Cell>>, cb: (seq<Cell>, int) -> CbResult, dest: int): ExecResult
    decreases |rows|
  {
    if rows == [] then ExecResult(true, dest)
    else
      var c := cb(rows[0], dest);
      if c.rc != 0 then ExecResult(false, c.dest) else ExecRows(rows[1..], cb, c.dest)
  }

  /** The text of the last row's one column. */
  function LastValue(rows: seq<seq<Cell>>): string
    requires rows != [] && SingleValue(rows[|rows| - 1])
  {
    rows[|rows| - 1][0].s
  }

  /** With single-value rows only, the statement succeeds and the value of
      the last row is the one kept (or the initial value when there is none). */
  lemma {:induction false} ExecFormatWellFormed(rows: seq<seq<Cell>>, dest: int)
    requires forall k :: 0 <= k < |rows| ==> SingleValue(rows[k])
    ensures ExecRows(rows, FormatCb, dest).ok
    ensures rows == [] ==> ExecRows(rows, FormatCb, dest).dest == dest
    ensures rows != [] ==> ExecRows(rows, FormatCb, dest).dest == ToCInt(Atol(LastValue(rows)))
  {
    if rows != [] {
      ExecFormatWellFormed(rows[1..], FormatCb(rows[0], dest).dest);
    }
  }

  /** With single-value rows only, the session query succeeds and the id of
      the last row is the one kept (or the initial value when there is none). */
  lemma {:induction false} ExecSidWellFormed(rows: seq<seq<Cell>>, dest: int)
    requires forall k :: 0 <= k < |rows| ==> SingleValue(rows[k])
    ensures ExecRows(rows, SidCb, dest).ok
    ensures rows == [] ==> ExecRows(rows, SidCb, dest).dest == dest
    ensures rows != [] ==> ExecRows(rows, SidCb, dest).dest == ToULong(Atol(LastValue(rows)))
  {
    if rows != [] {
      ExecSidWellFormed(rows[1..], SidCb(rows[0], dest).dest);
    }
  }

  /** A callback that stores only values in [lo, hi) and leaves the
      destination alone when it rejects a row makes the whole statement
      leave either the initial value or a value in [lo, hi). */
  lemma {:induction false} ExecRowsRange(rows: seq<seq<Cell>>, cb: (seq<Cell>, int) -> CbResult,
                                         dest: int, lo: int, hi: int)
    requires forall row, d :: cb(row, d).rc != 0 ==> cb(row, d).dest == d
    requires forall row, d :: cb(row, d).rc == 0 ==> lo <= cb(row, d).dest < hi
    ensures ExecRows(rows, cb, dest).dest == dest || lo <= ExecRows(rows, cb, dest).dest < hi
  {
    if rows != [] && cb(rows[0], dest).rc == 0 {
      var d := cb(rows[0], dest).dest;
      ExecRowsRange(rows[1..], cb, d, lo, hi);
    }
  }

  /** One row of another shape makes the whole statement fail. */
  lemma {:induction false} ExecMalformedFails(rows: seq<seq<Cell>>, cb: (seq<Cell>, int) -> CbResult,
                                              dest: int, k: nat)
    requires k < |rows| && !SingleValue(rows[k])
    requires forall row, d :: cb(row, d).rc == 0 <==> SingleValue(row)
    ensures !ExecRows(rows, cb, dest).ok
  {
    if k > 0 && cb(rows[0], dest).rc == 0 {
      ExecMalformedFails(rows[1..], cb, cb(rows[0], dest).dest, k - 1);
    }
  }
}
