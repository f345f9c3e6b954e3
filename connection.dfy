/** The naming of Qt database connections in `Connection.__init__`
    (src/sqlite3_qt/dbapi2.py:520, 539-556).

    Every connection registers with Qt under the name `con` followed by the decimal value of
    the class counter `Connection._cnt`, which is incremented at once, before the connection
    is opened: a connection that then fails still uses up its name. */
module Connections {
  import opened Wrappers
  import opened Values

  function DigitChar(d: nat): char
    requires d < 10
  {
    "0123456789"[d]
  }

  function DigitValue(c: char): nat {
    if '0' <= c <= '9' then (c as int - '0' as int) as nat else 0
  }

  /** `str(n)` for a non-negative integer: its decimal digits, most significant first. */
  function Decimal(n: nat): (s: string)
    ensures |s| > 0
    ensures forall i | 0 <= i < |s| :: '0' <= s[i] <= '9'
    ensures |s| > 1 ==> s[0] != '0'
    decreases n
  {
    if n < 10 then [DigitChar(n)] else Decimal(n / 10) + [DigitChar(n % 10)]
  }

  /** The value of a string of decimal digits. */
  function ParseDecimal(s: string): nat
    decreases |s|
  {
    if s == [] then 0 else ParseDecimal(s[..|s| - 1]) * 10 + DigitValue(s[|s| - 1])
  }

  /** Reading the digits back gives the number. */
  lemma {:induction false} DecimalRoundTrip(n: nat)
    ensures ParseDecimal(Decimal(n)) == n
    decreases n
  {
    var s := Decimal(n);
    if n < 10 {
      assert DigitValue(DigitChar(n)) == n;
    } else {
      DecimalRoundTrip(n / 10);
      assert s[..|s| - 1] == Decimal(n / 10);
      assert DigitValue(DigitChar(n % 10)) == n % 10;
    }
  }

  /** The Qt connection name `f"con{n}"`. */
  function ConnectionName(n: nat): string {
    "con" + Decimal(n)
  }

  /** Different counter values give different connection names, so no connection replaces
      another one registered with Qt. */
  lemma ConnectionNamesDistinct(a: nat, b: nat)
    requires a != b
    ensures ConnectionName(a) != ConnectionName(b)
  {
    DecimalRoundTrip(a);
    DecimalRoundTrip(b);
    assert ConnectionName(a)[3..] == Decimal(a);
    assert ConnectionName(b)[3..] == Decimal(b);
  }

  /** The class attribute `Connection._cnt`, shared by every connection. */
  class Registry {
    var count: nat

    constructor ()
      ensures count == 0
    {
      count := 0;
    }

    /** `Connection.__init__`: takes the name for the current count and increments it, then
        fails with `DatabaseError` when a transaction is asked for (`autocommit` false) and
        Qt cannot start one, or when Qt cannot open the database. On success the result is
        the connection's `qt_name`. */
    method Connect(autocommit: bool, transactionOk: bool, openOk: bool)
      returns (qtName: Result<string, PyError>)
      modifies this
      ensures count == old(count) + 1
      ensures qtName == if !(autocommit || transactionOk) || !openOk then Err(DatabaseError)
                        else Ok(ConnectionName(old(count)))
    {
      var name := ConnectionName(count);
      count := count + 1;
      if !(autocommit || transactionOk) {
        return Err(DatabaseError);
      }
      if !openOk {
        return Err(DatabaseError);
      }
      qtName := Ok(name);
    }
  }
}
