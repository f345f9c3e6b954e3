/** Result fetching on a `Cursor` (src/sqlite3_qt/dbapi2.py:186-200, 334-388).

    The `QSqlQuery` behind a cursor is modelled as the rows of its result set and a
    position: `pos` rows have been stepped over by `next()`, and after a successful
    `next()` the current record is `rows[pos - 1]`. A `next()` past the last row fails and
    the position stays at `|rows|`. Qt then places the query after the last row; the two
    cannot be told apart here, because the current record is read only after a successful
    `next()`. */
module Fetch {
  import opened Wrappers
  import opened Values

  function Min(a: int, b: int): int {
    if a <= b then a else b
  }

  /** The batch size `fetchmany` uses: `size`, or `arraysize` when `size <= 0`. */
  function BatchSize(size: int, arraysize: int): int {
    if size <= 0 then arraysize else size
  }

  /** The rows a batch of `n` returns when `remaining` rows are left: as many as asked
      for, or all that are left, and never a negative count. */
  function Taken(n: int, remaining: nat): (t: nat)
    ensures n <= 0 ==> t == 0
    ensures n > 0 ==> t <= n && t <= remaining && (t == n || t == remaining)
  {
    if n <= 0 then 0 else Min(n, remaining)
  }

  /** The rows `fetchmany` as written steps over: its loop calls `next()` before testing
      the bound, so a full batch steps over one row more than it returns. */
  function Consumed(n: int, remaining: nat): (c: nat)
    ensures Taken(n, remaining) <= c <= remaining
    ensures c == Taken(n, remaining) + 1 <==> Taken(n, remaining) < remaining
  {
    if n <= 0 then Min(1, remaining) else Min(n + 1, remaining)
  }

  /** `fetchmany` as written on rows `rows` at position `pos` with batch size `n`: the
      batch returned and the position after it. */
  function AsWrittenBatch(rows: seq<Row>, pos: nat, n: int): (r: (seq<Row>, nat))
    requires pos <= |rows|
    ensures pos + |r.0| <= r.1 <= |rows| && r.0 == rows[pos..pos + |r.0|]
    ensures r.1 == pos + |r.0| + 1 <==> pos + |r.0| < |rows|
    ensures |r.0| == Taken(n, |rows| - pos) && r.1 == pos + Consumed(n, |rows| - pos)
  {
    var t := Taken(n, |rows| - pos);
    (rows[pos..pos + t], pos + Consumed(n, |rows| - pos))
  }

  /** `fetchmany` testing the bound before calling `next()`: the position moves past
      exactly the rows returned. */
  function CorrectedBatch(rows: seq<Row>, pos: nat, n: int): (r: (seq<Row>, nat))
    requires pos <= |rows|
    ensures pos <= r.1 <= |rows| && r.0 == rows[pos..r.1]
    ensures n > 0 ==> |r.0| == n || r.1 == |rows|
    ensures |r.0| == Taken(n, |rows| - pos)
  {
    var t := Taken(n, |rows| - pos);
    (rows[pos..pos + t], pos + t)
  }

  /** Calling `fetchmany(n)` as written until it returns an empty batch, the usual way
      to read a result in batches. */
  function DrainAsWritten(rows: seq<Row>, pos: nat, n: nat): seq<Row>
    requires pos <= |rows| && n >= 1
    decreases |rows| - pos
  {
    var (batch, next) := AsWrittenBatch(rows, pos, n);
    if batch == [] then [] else batch + DrainAsWritten(rows, next, n)
  }

  /** The same with the corrected `fetchmany`. */
  function DrainCorrected(rows: seq<Row>, pos: nat, n: nat): seq<Row>
    requires pos <= |rows| && n >= 1
    decreases |rows| - pos
  {
    var (batch, next) := CorrectedBatch(rows, pos, n);
    if batch == [] then [] else batch + DrainCorrected(rows, next, n)
  }

  /** Reading in batches with the corrected `fetchmany` returns every remaining row, in
      order. */
  lemma {:induction false} DrainCorrectedReadsAll(rows: seq<Row>, pos: nat, n: nat)
    requires pos <= |rows| && n >= 1
    ensures DrainCorrected(rows, pos, n) == rows[pos..]
    decreases |rows| - pos
  {
    var (batch, next) := CorrectedBatch(rows, pos, n);
    if batch != [] {
      DrainCorrectedReadsAll(rows, next, n);
      assert rows[pos..next] + rows[next..] == rows[pos..];
    }
  }

  /** With more than `n` rows left, `fetchmany(n)` as written returns the next `n` rows
      and the next call starts one row further on: row `pos + n` is never returned. */
  lemma DrainAsWrittenSkips(rows: seq<Row>, pos: nat, n: nat)
    requires n >= 1 && pos + n < |rows|
    ensures DrainAsWritten(rows, pos, n) == rows[pos..pos + n] + DrainAsWritten(rows, pos + n + 1, n)
  {
  }

  /** Batches of the as-written `fetchmany` return at most the remaining rows. */
  lemma {:induction false} DrainAsWrittenBound(rows: seq<Row>, pos: nat, n: nat)
    requires pos <= |rows| && n >= 1
    ensures |DrainAsWritten(rows, pos, n)| <= |rows| - pos
    decreases |rows| - pos
  {
    var (batch, next) := AsWrittenBatch(rows, pos, n);
    if batch != [] {
      DrainAsWrittenBound(rows, next, n);
    }
  }

  /** Reading in batches with `fetchmany` as written loses rows whenever more than one
      batch is left. */
  lemma DrainAsWrittenLosesRows(rows: seq<Row>, pos: nat, n: nat)
    requires n >= 1 && pos + n < |rows|
    ensures |DrainAsWritten(rows, pos, n)| < |rows| - pos
  {
    DrainAsWrittenSkips(rows, pos, n);
    DrainAsWrittenBound(rows, pos + n + 1, n);
  }

  /** Three rows read one at a time with `fetchmany(1)` as written: the middle row is
      never returned. */
  lemma ThreeRowsLoseTheMiddle(rows: seq<Row>)
    requires rows == [[Integer(0)], [Integer(1)], [Integer(2)]]
    ensures DrainAsWritten(rows, 0, 1) == [[Integer(0)], [Integer(2)]]
    ensures DrainCorrected(rows, 0, 1) == rows
  {
    DrainAsWrittenSkips(rows, 0, 1);
    assert DrainAsWritten(rows, 2, 1) == rows[2..3] + DrainAsWritten(rows, 3, 1);
    DrainCorrectedReadsAll(rows, 0, 1);
  }

  /** A cursor over the result set of the last statement executed. */
  class Cursor {
    var rows: seq<Row>
    var pos: nat
    var arraysize: int

    ghost predicate Valid()
      reads this
    {
      pos <= |rows|
    }

    /** A cursor positioned before the first row of `result`, with `arraysize == 1`. */
    constructor (result: seq<Row>)
      ensures Valid() && rows == result && pos == 0 && arraysize == 1
    {
      rows, pos, arraysize := result, 0, 1;
    }

    /** `QSqlQuery.next()`: moves to the next row when there is one. */
    method Advance() returns (ok: bool)
      requires Valid()
      modifies this
      ensures Valid() && rows == old(rows) && arraysize == old(arraysize)
      ensures ok <==> old(pos) < |rows|
      ensures pos == if ok then old(pos) + 1 else old(pos)
    {
      ok := pos < |rows|;
      if ok {
        pos := pos + 1;
      }
    }

    /** `_fetch_tuple`: the current record. */
    method FetchTuple() returns (row: Row)
      requires Valid() && pos > 0
      ensures row == rows[pos - 1]
    {
      row := rows[pos - 1];
    }

    /** `fetchone`: the next row, or `None` once the rows are exhausted. */
    method FetchOne() returns (row: Option<Row>)
      requires Valid()
      modifies this
      ensures Valid() && rows == old(rows) && arraysize == old(arraysize)
      ensures old(pos) < |rows| ==> row == Some(rows[old(pos)]) && pos == old(pos) + 1
      ensures old(pos) == |rows| ==> row == None && pos == old(pos)
    {
      var ok := Advance();
      if ok {
        var r := FetchTuple();
        row := Some(r);
      } else {
        row := None;
      }
    }

    /** `__next__`: the next row, or `StopIteration` once the rows are exhausted. */
    method Next() returns (row: Result<Row, PyError>)
      requires Valid()
      modifies this
      ensures Valid() && rows == old(rows) && arraysize == old(arraysize)
      ensures old(pos) < |rows| ==> row == Ok(rows[old(pos)]) && pos == old(pos) + 1
      ensures old(pos) == |rows| ==> row == Err(StopIteration) && pos == old(pos)
    {
      var out := FetchOne();
      if out.None? {
        return Err(StopIteration);
      }
      row := Ok(out.value);
    }

    /** `fetchmany(size)` as written: `next()` is called before the bound is tested. */
    method FetchMany(size: int) returns (batch: seq<Row>)
      requires Valid()
      modifies this
      ensures Valid() && rows == old(rows) && arraysize == old(arraysize)
      ensures (batch, pos) == AsWrittenBatch(rows, old(pos), BatchSize(size, arraysize))
    {
      var n := BatchSize(size, arraysize);
      ghost var start := pos;
      var i := 0;
      batch := [];
      while true
        invariant Valid() && rows == old(rows) && arraysize == old(arraysize)
        invariant pos == start + i && i <= Taken(n, |rows| - start)
        invariant batch == rows[start..pos]
        decreases |rows| - pos
      {
        var ok := Advance();
        if !ok || !(i < n) {
          break;
        }
        var row := FetchTuple();
        batch := batch + [row];
        i := i + 1;
      }
    }

    /** `fetchmany(size)` with the bound tested before `next()` is called. */
    method FetchManyCorrected(size: int) returns (batch: seq<Row>)
      requires Valid()
      modifies this
      ensures Valid() && rows == old(rows) && arraysize == old(arraysize)
      ensures (batch, pos) == CorrectedBatch(rows, old(pos), BatchSize(size, arraysize))
    {
      var n := BatchSize(size, arraysize);
      ghost var start := pos;
      var i := 0;
      batch := [];
      while i < n
        invariant Valid() && rows == old(rows) && arraysize == old(arraysize)
        invariant pos == start + i && i <= Taken(n, |rows| - start)
        invariant batch == rows[start..pos]
        decreases |rows| - pos
      {
        var ok := Advance();
        if !ok {
          break;
        }
        var row := FetchTuple();
        batch := batch + [row];
        i := i + 1;
      }
    }

    /** `fetchall`: every remaining row, in order; the cursor is exhausted afterwards. */
    method FetchAll() returns (all: seq<Row>)
      requires Valid()
      modifies this
      ensures Valid() && rows == old(rows) && arraysize == old(arraysize)
      ensures all == rows[old(pos)..] && pos == |rows|
    {
      ghost var start := pos;
      all := [];
      while true
        invariant Valid() && rows == old(rows) && arraysize == old(arraysize)
        invariant start <= pos && all == rows[start..pos]
        decreases |rows| - pos
      {
        var ok := Advance();
        if !ok {
          break;
        }
        var row := FetchTuple();
        all := all + [row];
      }
    }
  }
}
