/** The parameter layout of `Cursor.execute` and `Cursor.executemany`
    (src/sqlite3_qt/dbapi2.py:202-284).

    The engine calls (`prepare`, `bindValue`, `exec`, `execBatch`) are not modelled: whether
    `prepare` and `exec`/`execBatch` succeed is a parameter, and what `bindValue` receives is
    recorded as a binding plan. `_flag` and `_sflag` are reduced to their observable outcome:
    the `Binary` flag is set exactly when `memoryview` accepts the value (every value, for a
    column). */
module Binding {
  import opened Wrappers
  import opened Values

  /** Where `bindValue` puts a value: a position, or a named placeholder such as `:id`. */
  datatype Placeholder = Index(i: nat) | Named(name: string)

  /** One `bindValue(at, value, flag)` call of `execute`; `binary` is the `Binary` bit of
      the flag, which always includes `InOut`. */
  datatype Binding = Binding(at: Placeholder, value: Value, binary: bool)

  /** One `bindValue(at, values, flag)` call of `executemany`: a whole column. */
  datatype Column = Column(at: Placeholder, values: seq<Value>, binary: bool)

  /** A parameter set as `isinstance` sees it: a `Sequence`, a `Mapping` (its items in
      insertion order), or a value that is neither, such as `None`. For `executemany`,
      `Neither` also stands for a value `zip` cannot iterate; iterable objects of other
      kinds (a `set`, a generator) are not part of this model. */
  datatype Params =
    | Sequence(items: seq<Value>)
    | Mapping(entries: seq<(string, Value)>)
    | Neither

  /** `memoryview(v)` succeeds, so `_flag`/`_sflag` set `Binary`. */
  predicate IsBuffer(v: Value) {
    v.Blob?
  }

  /** `_sflag(values)`: the comprehension over `memoryview` fails at the first value
      that is not a buffer, and the flag then stays `InOut`. */
  predicate AllBuffers(values: seq<Value>) {
    forall j | 0 <= j < |values| :: IsBuffer(values[j])
  }

  /** The placeholder `f":{k}"` of a mapping key. */
  function NameOf(k: string): Placeholder {
    Named(":" + k)
  }

  function Keys(entries: seq<(string, Value)>): (keys: seq<string>)
    ensures |keys| == |entries|
  {
    seq(|entries|, i requires 0 <= i < |entries| => entries[i].0)
  }

  /** Python `dict` keys are distinct. */
  predicate UniqueKeys(entries: seq<(string, Value)>) {
    forall i, j | 0 <= i < j < |entries| :: entries[i].0 != entries[j].0
  }

  // ---------------------------------------------------------------------------
  // execute
  // ---------------------------------------------------------------------------

  /** The bindings `execute` makes for `parameters`: the i-th element of a sequence at
      index i, each mapping item `(k, v)` at `:k`, nothing for anything else. */
  function BindPlan(parameters: Params): seq<Binding> {
    match parameters
    case Sequence(items) =>
      seq(|items|, i requires 0 <= i < |items| => Binding(Index(i), items[i], IsBuffer(items[i])))
    case Mapping(entries) =>
      seq(|entries|, i requires 0 <= i < |entries| =>
        Binding(NameOf(entries[i].0), entries[i].1, IsBuffer(entries[i].1)))
    case Neither => []
  }

  /** The values a plan binds, in binding order. */
  function BoundValues(plan: seq<Binding>): (values: seq<Value>)
    ensures |values| == |plan|
  {
    seq(|plan|, i requires 0 <= i < |plan| => plan[i].value)
  }

  /** The mapping a plan of named placeholders was made from: each placeholder's name
      without its leading `:`. */
  function BoundEntries(plan: seq<Binding>): (entries: seq<(string, Value)>)
    ensures |entries| == |plan|
  {
    seq(|plan|, i requires 0 <= i < |plan| =>
      (if plan[i].at.Named? && |plan[i].at.name| > 0 then plan[i].at.name[1..] else [],
       plan[i].value))
  }

  /** A sequence is bound positionally, each element at its own index with its own flag,
      and reading the values back gives the sequence. */
  lemma PositionalBinding(items: seq<Value>)
    ensures var plan := BindPlan(Sequence(items));
      BoundValues(plan) == items &&
      forall i | 0 <= i < |plan| :: plan[i].at == Index(i) && (plan[i].binary <==> items[i].Blob?)
  {
  }

  /** A mapping is bound item by item, in its order, under `:` and its key, and reading
      the placeholders back gives the mapping. */
  lemma {:induction false} NamedBinding(entries: seq<(string, Value)>)
    ensures var plan := BindPlan(Mapping(entries));
      BoundEntries(plan) == entries &&
      forall i | 0 <= i < |plan| :: plan[i].at.Named? && plan[i].at.name[..1] == ":"
  {
    var plan := BindPlan(Mapping(entries));
    forall i | 0 <= i < |plan|
      ensures BoundEntries(plan)[i] == entries[i]
    {
      var k := entries[i].0;
      assert plan[i].at.name == ":" + k;
      assert (":" + k)[1..] == k;
    }
  }

  /** Distinct keys get distinct placeholders, so no binding of `execute` overwrites
      another. */
  lemma NamedPlaceholdersDistinct(entries: seq<(string, Value)>)
    requires UniqueKeys(entries)
    ensures var plan := BindPlan(Mapping(entries));
      forall i, j | 0 <= i < j < |plan| :: plan[i].at != plan[j].at
  {
    var plan := BindPlan(Mapping(entries));
    forall i, j | 0 <= i < j < |plan|
      ensures plan[i].at != plan[j].at
    {
      var a, b := entries[i].0, entries[j].0;
      assert (":" + a)[1..] == a && (":" + b)[1..] == b;
    }
  }

  /** `Cursor.execute` after `prepare`: `prepareOk` and `execOk` are the engine's answers.
      `plan` lists the `bindValue` calls made, in order. */
  method Execute(parameters: Params, prepareOk: bool, execOk: bool)
    returns (plan: seq<Binding>, raised: Option<PyError>)
    ensures plan == (if prepareOk then BindPlan(parameters) else [])
    ensures raised == if !prepareOk then Some(ProgrammingError)
                      else if !execOk then Some(DatabaseError)
                      else None
  {
    plan := [];
    if !prepareOk {
      return plan, Some(ProgrammingError);
    }
    match parameters {
      case Sequence(items) =>
        for i := 0 to |items|
          invariant plan == BindPlan(parameters)[..i]
        {
          var v := items[i];
          plan := plan + [Binding(Index(i), v, IsBuffer(v))];
        }
      case Mapping(entries) =>
        for i := 0 to |entries|
          invariant plan == BindPlan(parameters)[..i]
        {
          var (k, v) := entries[i];
          plan := plan + [Binding(NameOf(k), v, IsBuffer(v))];
        }
      case Neither =>
    }
    assert plan == BindPlan(parameters);
    raised := if execOk then None else Some(DatabaseError);
  }

  // ---------------------------------------------------------------------------
  // executemany
  // ---------------------------------------------------------------------------

  /** What iterating a parameter set yields, as `zip` does: a sequence's elements, a
      mapping's keys; anything else is not iterable. */
  function ItemsOf(p: Params): Result<seq<Value>, PyError> {
    match p
    case Sequence(items) => Ok(items)
    case Mapping(entries) => Ok(seq(|entries|, i requires 0 <= i < |entries| => Text(entries[i].0)))
    case Neither => Err(TypeError)
  }

  /** The arguments of `zip(*params)`; `zip` fails before yielding anything when one
      of them is not iterable. */
  function Rows(params: seq<Params>): (rows: Result<seq<seq<Value>>, PyError>)
    ensures rows.Ok? ==> (|rows.value| == |params| &&
      forall j | 0 <= j < |params| :: ItemsOf(params[j]) == Ok(rows.value[j]))
    ensures rows.Err? ==> rows.error == TypeError && exists j | 0 <= j < |params| :: params[j].Neither?
  {
    if params == [] then Ok([])
    else match (ItemsOf(params[0]), Rows(params[1..]))
      case (Ok(items), Ok(rest)) => Ok([items] + rest)
      case (Err(e), _) => Err(e)
      case (_, Err(e)) => Err(e)
  }

  /** The length of the shortest row: where `zip` stops. */
  function MinLen(rows: seq<seq<Value>>): (m: nat)
    requires rows != []
    ensures forall j | 0 <= j < |rows| :: m <= |rows[j]|
  {
    if |rows| == 1 then |rows[0]|
    else
      var m := MinLen(rows[1..]);
      assert forall j | 1 <= j < |rows| :: rows[j] == rows[1..][j - 1];
      if |rows[0]| <= m then |rows[0]| else m
  }

  /** Some row is exactly as long as `MinLen` says: `zip` stops at the end of the
      shortest row, not before. */
  lemma {:induction false} MinLenAttained(rows: seq<seq<Value>>)
    requires rows != []
    ensures exists j | 0 <= j < |rows| :: MinLen(rows) == |rows[j]|
  {
    if |rows| == 1 {
      assert MinLen(rows) == |rows[0]|;
    } else if |rows[0]| <= MinLen(rows[1..]) {
      assert MinLen(rows) == |rows[0]|;
    } else {
      MinLenAttained(rows[1..]);
      var j :| 0 <= j < |rows[1..]| && MinLen(rows[1..]) == |rows[1..][j]|;
      assert rows[1..][j] == rows[j + 1];
    }
  }

  /** `[list(t) for t in zip(*rows)]`: column i holds the i-th item of every row. */
  function Transpose(rows: seq<seq<Value>>): seq<seq<Value>>
    requires rows != []
  {
    seq(MinLen(rows), i requires 0 <= i < MinLen(rows) =>
      seq(|rows|, j requires 0 <= j < |rows| => rows[j][i]))
  }

  /** `v[k]` on one parameter set: a mapping's value, `KeyError` for a missing key,
      `TypeError` on anything that is not a mapping. */
  function Subscript(p: Params, k: string): Result<Value, PyError> {
    match p
    case Mapping(entries) => Lookup(entries, k)
    case _ => Err(TypeError)
  }

  /** The value of the first item with key `k`. */
  function Lookup(entries: seq<(string, Value)>, k: string): (r: Result<Value, PyError>)
    ensures r.Ok? <==> k in Keys(entries)
    ensures r.Err? ==> r.error == KeyError
    ensures r.Ok? ==> (k, r.value) in entries
  {
    if entries == [] then Err(KeyError)
    else
      assert Keys(entries) == [entries[0].0] + Keys(entries[1..]);
      assert entries == [entries[0]] + entries[1..];
      if entries[0].0 == k then Ok(entries[0].1)
      else Lookup(entries[1..], k)
  }

  /** `[v[k] for v in params]`, failing at the first parameter set that fails. */
  function ColumnFor(params: seq<Params>, k: string): (r: Result<seq<Value>, PyError>)
    ensures r.Ok? ==> (|r.value| == |params| &&
      forall j | 0 <= j < |params| :: Subscript(params[j], k) == Ok(r.value[j]))
    ensures r.Err? ==> exists j | 0 <= j < |params| ::
      Subscript(params[j], k) == Err(r.error) && forall t | 0 <= t < j :: Subscript(params[t], k).Ok?
  {
    if params == [] then Ok([])
    else
      assert forall t | 1 <= t < |params| :: params[t] == params[1..][t - 1];
      match Subscript(params[0], k)
      case Err(e) => Err(e)
      case Ok(v) =>
        match ColumnFor(params[1..], k)
        case Err(e) => Err(e)
        case Ok(rest) => Ok([v] + rest)
  }

  /** One positional column per item of the transposed rows. */
  function PositionalColumns(cols: seq<seq<Value>>): seq<Column> {
    seq(|cols|, i requires 0 <= i < |cols| => Column(Index(i), cols[i], AllBuffers(cols[i])))
  }

  /** The columns bound for `keys`, in order, up to the first key whose column fails:
      the columns bound before the exception and the exception. */
  function NamedColumns(params: seq<Params>, keys: seq<string>): (seq<Column>, Option<PyError>)
    decreases |keys|
  {
    if keys == [] then ([], None)
    else match ColumnFor(params, keys[0])
      case Err(e) => ([], Some(e))
      case Ok(col) =>
        var (rest, err) := NamedColumns(params, keys[1..]);
        ([Column(NameOf(keys[0]), col, AllBuffers(col))] + rest, err)
  }

  /** The `bindValue` calls of `executemany` for `params`, and the exception that stops
      them, if any. The first parameter set decides the layout. */
  function ManyPlan(params: seq<Params>): (seq<Column>, Option<PyError>) {
    if params == [] then ([], None)
    else match params[0]
      case Sequence(_) =>
        (match Rows(params)
         case Err(e) => ([], Some(e))
         case Ok(rows) => (PositionalColumns(Transpose(rows)), None))
      case Mapping(entries) => NamedColumns(params, Keys(entries))
      case Neither => ([], None)
  }

  /** Every column of a transposition is as long as there are rows. */
  lemma TransposeColumns(rows: seq<seq<Value>>)
    requires rows != [] && MinLen(rows) > 0
    ensures var cols := Transpose(rows);
      cols != [] && MinLen(cols) == |rows| &&
      forall i, j | 0 <= i < |cols| && 0 <= j < |rows| :: cols[i][j] == rows[j][i]
  {
    var cols := Transpose(rows);
    assert forall i | 0 <= i < |cols| :: |cols[i]| == |rows|;
    MinLenAttained(cols);
  }

  /** Transposing twice gives back the rows cut to the length of the shortest: `zip`
      loses the items past it and nothing else. */
  lemma TransposeTwice(rows: seq<seq<Value>>)
    requires rows != [] && MinLen(rows) > 0
    ensures var back := Transpose(Transpose(rows));
      |back| == |rows| && forall j | 0 <= j < |rows| :: back[j] == rows[j][..MinLen(rows)]
  {
    TransposeColumns(rows);
    var cols := Transpose(rows);
    var m := MinLen(rows);
    var back := Transpose(cols);
    assert |back| == |rows|;
    forall j | 0 <= j < |rows|
      ensures back[j] == rows[j][..m]
    {
      assert |back[j]| == m;
      forall i | 0 <= i < m
        ensures back[j][i] == rows[j][i]
      {
        assert back[j][i] == cols[i][j];
      }
    }
  }

  /** `executemany` over sequences: one column per position up to the shortest parameter
      set, column i holding the i-th item of every set (a mapping among them contributes
      its keys, as iterating it does), each column as long as there are sets. */
  lemma SequenceColumns(params: seq<Params>)
    requires params != [] && params[0].Sequence?
    requires forall j | 0 <= j < |params| :: !params[j].Neither?
    ensures var (cols, err) := ManyPlan(params);
      var rows := Rows(params).value;
      err == None && |cols| == MinLen(rows) &&
      forall i | 0 <= i < |cols| ::
        cols[i].at == Index(i) && |cols[i].values| == |params| &&
        forall j | 0 <= j < |params| :: cols[i].values[j] == ItemsOf(params[j]).value[i]
  {
  }

  /** A parameter set that is not iterable makes `executemany` over sequences fail with
      `TypeError` before anything is bound. */
  lemma SequenceColumnsNotIterable(params: seq<Params>, j: nat)
    requires params != [] && params[0].Sequence?
    requires j < |params| && params[j].Neither?
    ensures ManyPlan(params) == ([], Some(TypeError))
  {
  }

  /** The columns of `executemany` agree with what `execute` binds for each parameter
      set alone: column i, entry j is the value `execute` binds at index i for set j, and
      the column is binary exactly when every one of those bindings is. */
  lemma ColumnsAgreeWithExecute(params: seq<Params>)
    requires params != []
    requires forall j | 0 <= j < |params| :: params[j].Sequence?
    ensures var cols := ManyPlan(params).0;
      forall i, j | 0 <= i < |cols| && 0 <= j < |params| ::
        i < |BindPlan(params[j])| &&
        BindPlan(params[j])[i] == Binding(Index(i), cols[i].values[j], IsBuffer(cols[i].values[j]))
    ensures var cols := ManyPlan(params).0;
      forall i | 0 <= i < |cols| ::
        cols[i].binary <==> forall j | 0 <= j < |params| :: BindPlan(params[j])[i].binary
  {
    SequenceColumns(params);
    var cols := ManyPlan(params).0;
    var rows := Rows(params).value;
    forall j | 0 <= j < |params|
      ensures forall i | 0 <= i < |cols| :: (i < |BindPlan(params[j])| &&
        BindPlan(params[j])[i] == Binding(Index(i), cols[i].values[j], IsBuffer(cols[i].values[j])))
    {
      assert ItemsOf(params[j]) == Ok(rows[j]);
      assert MinLen(rows) <= |rows[j]|;
    }
  }

  /** Every mapping holds key `k`. */
  predicate AllHaveKey(params: seq<Params>, k: string) {
    forall j | 0 <= j < |params| :: params[j].Mapping? && k in Keys(params[j].entries)
  }

  /** Column `c` is the column of key `k`: bound at `:k`, holding each set's value for
      `k`, in order. */
  predicate ColumnOfKey(params: seq<Params>, k: string, c: Column) {
    c.at == NameOf(k) && |c.values| == |params| &&
    forall j | 0 <= j < |params| :: params[j].Mapping? && Lookup(params[j].entries, k) == Ok(c.values[j])
  }

  /** When every mapping has key `k`, its column is found. */
  lemma ColumnForKey(params: seq<Params>, k: string)
    requires AllHaveKey(params, k)
    ensures ColumnFor(params, k).Ok?
    ensures ColumnOfKey(params, k, Column(NameOf(k), ColumnFor(params, k).value, AllBuffers(ColumnFor(params, k).value)))
  {
    forall j | 0 <= j < |params|
      ensures Subscript(params[j], k).Ok?
    {
    }
  }

  /** `executemany` over mappings that share the first mapping's keys: one column per key
      of the first mapping, in its order, column i holding each set's value for that key. */
  lemma {:induction false} MappingColumns(params: seq<Params>, keys: seq<string>)
    requires forall i | 0 <= i < |keys| :: AllHaveKey(params, keys[i])
    ensures var (cols, err) := NamedColumns(params, keys);
      err == None && |cols| == |keys| &&
      forall i | 0 <= i < |keys| :: ColumnOfKey(params, keys[i], cols[i])
    decreases |keys|
  {
    if keys != [] {
      var k := keys[0];
      assert AllHaveKey(params, k);
      ColumnForKey(params, k);
      var col := ColumnFor(params, k).value;
      var c := Column(NameOf(k), col, AllBuffers(col));
      assert forall i | 0 <= i < |keys[1..]| :: keys[1..][i] == keys[i + 1];
      MappingColumns(params, keys[1..]);
      var rest := NamedColumns(params, keys[1..]).0;
      var cols := NamedColumns(params, keys).0;
      assert cols == [c] + rest;
      forall i | 0 <= i < |keys|
        ensures ColumnOfKey(params, keys[i], cols[i])
      {
        if i > 0 {
          assert cols[i] == rest[i - 1] && keys[i] == keys[1..][i - 1];
        }
      }
    }
  }

  /** A mapping that lacks a key of the first stops `executemany` with `KeyError`, when
      every set is a mapping. */
  lemma {:induction false} MissingKeyRaises(params: seq<Params>, keys: seq<string>, i: nat, j: nat)
    requires forall t | 0 <= t < |params| :: params[t].Mapping?
    requires i < |keys| && j < |params| && keys[i] !in Keys(params[j].entries)
    ensures NamedColumns(params, keys).1 == Some(KeyError)
    decreases |keys|
  {
    ColumnForMappings(params, keys[0]);
    if i == 0 {
      ColumnForMissing(params, keys[0], j);
    } else if ColumnFor(params, keys[0]).Ok? {
      assert keys[1..][i - 1] == keys[i];
      MissingKeyRaises(params, keys[1..], i - 1, j);
    }
  }

  /** A column over mappings only can fail only with `KeyError`. */
  lemma ColumnForMappings(params: seq<Params>, k: string)
    requires forall t | 0 <= t < |params| :: params[t].Mapping?
    ensures ColumnFor(params, k).Err? ==> ColumnFor(params, k).error == KeyError
  {
    var r := ColumnFor(params, k);
    if r.Err? {
      var t :| 0 <= t < |params| && Subscript(params[t], k) == Err(r.error);
      assert Subscript(params[t], k) == Lookup(params[t].entries, k);
    }
  }

  /** A mapping without the key makes the column fail. */
  lemma ColumnForMissing(params: seq<Params>, k: string, j: nat)
    requires j < |params| && params[j].Mapping? && k !in Keys(params[j].entries)
    ensures ColumnFor(params, k).Err?
  {
    assert Subscript(params[j], k).Err?;
  }

  /** The `bindValue` loop of `executemany` over sequences: column i at index i. */
  method BindPositional(cols: seq<seq<Value>>) returns (plan: seq<Column>)
    ensures plan == PositionalColumns(cols)
  {
    plan := [];
    for i := 0 to |cols|
      invariant plan == PositionalColumns(cols)[..i]
    {
      plan := plan + [Column(Index(i), cols[i], AllBuffers(cols[i]))];
    }
  }

  /** `NamedColumns` from key `i` on: the column of key `i`, then the rest, unless that
      column fails. */
  lemma NamedColumnsAt(params: seq<Params>, keys: seq<string>, i: nat)
    requires i < |keys|
    ensures var col := ColumnFor(params, keys[i]);
      var rest := NamedColumns(params, keys[i + 1..]);
      NamedColumns(params, keys[i..]) ==
        if col.Err? then ([], Some(col.error))
        else ([Column(NameOf(keys[i]), col.value, AllBuffers(col.value))] + rest.0, rest.1)
  {
    assert keys[i..][0] == keys[i] && keys[i..][1..] == keys[i + 1..];
  }

  /** The `bindValue` loop of `executemany` over the keys of the first mapping; a failing
      `v[k]` ends it with the columns bound so far. */
  method BindNamed(params: seq<Params>, keys: seq<string>) returns (plan: seq<Column>, raised: Option<PyError>)
    ensures (plan, raised) == NamedColumns(params, keys)
  {
    plan := [];
    assert keys[0..] == keys;
    for i := 0 to |keys|
      invariant NamedColumns(params, keys).0 == plan + NamedColumns(params, keys[i..]).0
      invariant NamedColumns(params, keys).1 == NamedColumns(params, keys[i..]).1
    {
      NamedColumnsAt(params, keys, i);
      var col := ColumnFor(params, keys[i]);
      if col.Err? {
        assert plan + [] == plan;
        return plan, Some(col.error);
      }
      plan := plan + [Column(NameOf(keys[i]), col.value, AllBuffers(col.value))];
    }
    assert keys[|keys|..] == [];
    assert plan + [] == plan;
    raised := None;
  }

  /** `Cursor.executemany` after `prepare`. `seqOfParameters` is `None` when the caller
      passes none (then `len` raises `TypeError`); `plan` lists the `bindValue` calls made,
      in order, including those made before an exception. */
  method ExecuteMany(seqOfParameters: Option<seq<Params>>, prepareOk: bool, execOk: bool)
    returns (plan: seq<Column>, raised: Option<PyError>)
    ensures !prepareOk ==> plan == [] && raised == Some(ProgrammingError)
    ensures prepareOk && seqOfParameters.None? ==> plan == [] && raised == Some(TypeError)
    ensures prepareOk && seqOfParameters.Some? ==>
      var (bound, err) := ManyPlan(seqOfParameters.value);
      plan == bound &&
      raised == if err.Some? then err else if execOk then None else Some(DatabaseError)
  {
    plan := [];
    if !prepareOk {
      return plan, Some(ProgrammingError);
    }
    if seqOfParameters.None? {
      return plan, Some(TypeError);
    }
    var params := seqOfParameters.value;
    if |params| > 0 {
      match params[0] {
        case Sequence(_) =>
          var rows := Rows(params);
          if rows.Err? {
            return plan, Some(rows.error);
          }
          plan := BindPositional(Transpose(rows.value));
        case Mapping(entries) =>
          plan, raised := BindNamed(params, Keys(entries));
          if raised.Some? {
            return;
          }
        case Neither =>
      }
    }
    raised := if execOk then None else Some(DatabaseError);
  }
}
