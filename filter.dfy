/**
 * Row filters over a data table: `IsDefined`, `HasClass`, `SameValue` and
 * `Values` with its discrete, continuous, string and string-list conditions.
 * Applying a filter keeps the rows it accepts, in their original order, and
 * leaves the domain alone.
 */
module RowFilters {
  import opened Wrappers
  import Text
  import Schema

  /** A defined cell: a number or a string. A missing cell is `None`. */
  datatype Value = Num(x: real) | Str(s: string)

  type Cell = Option<Value>

  /** One data instance: the cells of the variables (attributes then class variables) and of the metas. */
  datatype Row = Row(values: seq<Cell>, metas: seq<Cell>)

  datatype Table = Table(domain: Schema.Domain, rows: seq<Row>)

  /** Every row has one cell per variable and one per meta of the domain. */
  predicate WellFormed(t: Table) {
    forall i :: 0 <= i < |t.rows| ==>
      |t.rows[i].values| == |Schema.Variables(t.domain)| && |t.rows[i].metas| == |t.domain.metas|
  }

  /** Column `c` of a row: a variable when `c >= 0`, meta `-1-c` when negative. */
  function CellAt(row: Row, c: int): (r: Cell)
    ensures 0 <= c < |row.values| ==> r == row.values[c]
    ensures c < 0 && -1 - c < |row.metas| ==> r == row.metas[-1 - c]
  {
    if 0 <= c < |row.values| then row.values[c]
    else if c < 0 && -1 - c < |row.metas| then row.metas[-1 - c]
    else None
  }

  /** The operators of a continuous condition. */
  datatype NumOp = Equal | NotEqual | Less | LessEqual | Greater | GreaterEqual | Between | Outside | Defined

  /** The operators of a string condition. */
  datatype TextOp = Equal | NotEqual | Less | LessEqual | Greater | GreaterEqual | Between | Outside | Defined
                  | Contains | StartsWith | EndsWith

  datatype Condition =
    | FilterDiscrete(column: int, allowed: Option<seq<Value>>)
    | FilterContinuous(column: int, op: NumOp, low: real, high: real)
    | FilterString(column: int, sop: TextOp, first: string, second: string, caseSensitive: bool)
    | FilterStringList(column: int, strings: seq<string>, caseSensitive: bool)

  datatype Filter =
    | IsDefined(columns: Option<seq<int>>, negate: bool)
    | HasClass(negate: bool)
    | SameValue(column: int, value: Cell, negate: bool)
    | Values(conditions: seq<Condition>, conjunction: bool, negate: bool)

  datatype FilterError = ValueError

  /** `Values(conditions, conjunction, negate)`: a filter needs at least one condition. */
  function MakeValues(conditions: seq<Condition>, conjunction: bool, negate: bool): (r: Result<Filter, FilterError>)
    ensures r.Err? <==> conditions == []
    ensures r.Ok? ==> r.value.Values? && r.value.conditions == conditions
                      && r.value.conjunction == conjunction && r.value.negate == negate
  {
    if conditions == [] then Err(ValueError) else Ok(Values(conditions, conjunction, negate))
  }

  /** A comparison on numbers; a missing (or non-numeric) cell passes only `NotEqual`. */
  predicate NumPasses(op: NumOp, cell: Cell, low: real, high: real) {
    match cell
    case Some(Num(x)) =>
      (match op
       case Equal => x == low
       case NotEqual => x != low
       case Less => x < low
       case LessEqual => x <= low
       case Greater => x > low
       case GreaterEqual => x >= low
       case Between => low <= x <= high
       case Outside => !(low <= x <= high)
       case Defined => true)
    case _ => op == NumOp.NotEqual
  }

  /** A comparison on strings in code-point order, after folding case of both sides when asked. */
  predicate TextPasses(op: TextOp, cell: Cell, first: string, second: string, caseSensitive: bool) {
    match cell
    case Some(Str(raw)) =>
      var s := if caseSensitive then raw else Text.Lower(raw);
      var a := if caseSensitive then first else Text.Lower(first);
      var b := if caseSensitive then second else Text.Lower(second);
      (match op
       case Equal => s == a
       case NotEqual => s != a
       case Less => Text.LexLess(s, a)
       case LessEqual => Text.LexLessEq(s, a)
       case Greater => Text.LexLess(a, s)
       case GreaterEqual => Text.LexLessEq(a, s)
       case Between => Text.LexLessEq(a, s) && Text.LexLessEq(s, b)
       case Outside => !(Text.LexLessEq(a, s) && Text.LexLessEq(s, b))
       case Defined => true
       case Contains => Text.Contains(s, a)
       case StartsWith => Text.StartsWith(s, a)
       case EndsWith => Text.EndsWith(s, a))
    case _ => op == TextOp.NotEqual
  }

  function LowerAll(ss: seq<string>): (r: seq<string>)
    ensures |r| == |ss|
    ensures forall i :: 0 <= i < |ss| ==> r[i] == Text.Lower(ss[i])
  {
    seq(|ss|, i requires 0 <= i < |ss| => Text.Lower(ss[i]))
  }

  predicate Passes(row: Row, cond: Condition) {
    var cell := CellAt(row, cond.column);
    match cond
    case FilterDiscrete(_, allowed) =>
      cell.Some? && (allowed.None? || cell.value in allowed.value)
    case FilterContinuous(_, op, low, high) =>
      NumPasses(op, cell, low, high)
    case FilterString(_, op, first, second, caseSensitive) =>
      TextPasses(op, cell, first, second, caseSensitive)
    case FilterStringList(_, strings, caseSensitive) =>
      match cell
      case Some(Str(s)) => if caseSensitive then s in strings else Text.Lower(s) in LowerAll(strings)
      case _ => false
  }

  predicate AllDefined(cells: seq<Cell>) {
    forall i :: 0 <= i < |cells| ==> cells[i].Some?
  }

  /** Whether a filter, before negation, accepts a row of a table over domain `d`. */
  predicate Accepts(d: Schema.Domain, f: Filter, row: Row) {
    match f
    case IsDefined(columns, _) =>
      (match columns
       case None => AllDefined(row.values)
       case Some(cs) => forall i :: 0 <= i < |cs| ==> CellAt(row, cs[i]).Some?)
    case HasClass(_) => forall i :: |d.attributes| <= i < |row.values| ==> row.values[i].Some?
    case SameValue(c, v, _) => CellAt(row, c) == v
    case Values(conds, conjunction, _) =>
      if conjunction then forall i :: 0 <= i < |conds| ==> Passes(row, conds[i])
      else exists i :: 0 <= i < |conds| && Passes(row, conds[i])
  }

  /** Whether a filter keeps a row: acceptance, flipped by `negate`. */
  predicate Keeps(d: Schema.Domain, f: Filter, row: Row) {
    Accepts(d, f, row) != f.negate
  }

  /** The rows a filter keeps, in their original order. */
  function Select(d: Schema.Domain, f: Filter, rows: seq<Row>): (r: seq<Row>)
    ensures |r| <= |rows|
    decreases |rows|
  {
    if rows == [] then []
    else
      var rest := Select(d, f, rows[1..]);
      if Keeps(d, f, rows[0]) then [rows[0]] + rest else rest
  }

  /** A row is in the result exactly when it is one of the input rows and the filter keeps it. */
  lemma {:induction false} SelectKeepsExactly(d: Schema.Domain, f: Filter, rows: seq<Row>)
    ensures forall x :: x in Select(d, f, rows) <==> x in rows && Keeps(d, f, x)
    decreases |rows|
  {
    if rows != [] {
      SelectKeepsExactly(d, f, rows[1..]);
      assert rows == [rows[0]] + rows[1..];
    }
  }

  /** `filter(table)`: a table over the same domain holding the kept rows. */
  function Apply(f: Filter, t: Table): (r: Table)
    ensures r.domain == t.domain
    ensures WellFormed(t) ==> WellFormed(r)
  {
    var kept := Select(t.domain, f, t.rows);
    SelectKeepsExactly(t.domain, f, t.rows);
    assert forall i :: 0 <= i < |kept| ==> kept[i] in t.rows;
    Table(t.domain, kept)
  }

  /** The same filter with `negate` flipped. */
  function Negated(f: Filter): (r: Filter)
    ensures r.negate == !f.negate
    ensures forall d, row :: Accepts(d, r, row) == Accepts(d, f, row)
  {
    f.(negate := !f.negate)
  }

  /** Filtering distributes over concatenation, so kept rows stay in their original order. */
  lemma {:induction false} SelectAppend(d: Schema.Domain, f: Filter, a: seq<Row>, b: seq<Row>)
    ensures Select(d, f, a + b) == Select(d, f, a) + Select(d, f, b)
    decreases |a|
  {
    if a != [] {
      SelectAppend(d, f, a[1..], b);
      assert (a + b)[1..] == a[1..] + b;
      assert (a + b)[0] == a[0];
    } else {
      assert a + b == b;
    }
  }

  /** A row the filter keeps is returned as a one-row table, a row it rejects is dropped. */
  lemma SelectSingle(d: Schema.Domain, f: Filter, row: Row)
    ensures Select(d, f, [row]) == if Keeps(d, f, row) then [row] else []
  {
    assert [row][1..] == [];
  }

  /** A filter and its negation split the rows: each row is kept by exactly one of them. */
  lemma {:induction false} NegationPartitions(d: Schema.Domain, f: Filter, rows: seq<Row>)
    ensures multiset(Select(d, f, rows)) + multiset(Select(d, Negated(f), rows)) == multiset(rows)
    ensures |Select(d, f, rows)| + |Select(d, Negated(f), rows)| == |rows|
    decreases |rows|
  {
    if rows != [] {
      NegationPartitions(d, f, rows[1..]);
      assert rows == [rows[0]] + rows[1..];
      assert Keeps(d, Negated(f), rows[0]) == !Keeps(d, f, rows[0]);
    }
    var a, b := Select(d, f, rows), Select(d, Negated(f), rows);
    assert |multiset(a) + multiset(b)| == |multiset(rows)|;
  }

  /** Filtering twice with the same filter keeps the same rows as filtering once. */
  lemma {:induction false} SelectIdempotent(d: Schema.Domain, f: Filter, rows: seq<Row>)
    ensures Select(d, f, Select(d, f, rows)) == Select(d, f, rows)
    decreases |rows|
  {
    if rows != [] {
      SelectIdempotent(d, f, rows[1..]);
      var rest := Select(d, f, rows[1..]);
      if Keeps(d, f, rows[0]) {
        assert ([rows[0]] + rest)[1..] == rest;
      }
    }
  }

  /** Filtering by `f` then `g` is filtering by any `h` that keeps exactly the rows both keep. */
  lemma {:induction false} SelectFuse(d: Schema.Domain, f: Filter, g: Filter, h: Filter, rows: seq<Row>)
    requires forall row :: Keeps(d, h, row) == (Keeps(d, f, row) && Keeps(d, g, row))
    ensures Select(d, g, Select(d, f, rows)) == Select(d, h, rows)
    decreases |rows|
  {
    if rows != [] {
      SelectFuse(d, f, g, h, rows[1..]);
      var rest := Select(d, f, rows[1..]);
      if Keeps(d, f, rows[0]) {
        assert ([rows[0]] + rest)[1..] == rest;
      }
    }
  }

  /** A conjunction of two condition lists acts as applying the two lists one after the other. */
  lemma ConjunctionComposes(d: Schema.Domain, c1: seq<Condition>, c2: seq<Condition>, rows: seq<Row>)
    ensures Select(d, Values(c1 + c2, true, false), rows)
            == Select(d, Values(c2, true, false), Select(d, Values(c1, true, false), rows))
  {
    forall row
      ensures Keeps(d, Values(c1 + c2, true, false), row)
              == (Keeps(d, Values(c1, true, false), row) && Keeps(d, Values(c2, true, false), row))
    {
      var all := c1 + c2;
      assert forall i :: 0 <= i < |c1| ==> all[i] == c1[i];
      assert forall i :: 0 <= i < |c2| ==> all[|c1| + i] == c2[i];
    }
    SelectFuse(d, Values(c1, true, false), Values(c2, true, false), Values(c1 + c2, true, false), rows);
  }

  /** `Between(lo, hi)` is the conjunction of `GreaterEqual(lo)` and `LessEqual(hi)`. */
  lemma BetweenIsTwoBounds(row: Row, c: int, lo: real, hi: real)
    ensures Passes(row, FilterContinuous(c, NumOp.Between, lo, hi))
            == (Passes(row, FilterContinuous(c, NumOp.GreaterEqual, lo, hi))
                && Passes(row, FilterContinuous(c, NumOp.LessEqual, hi, lo)))
  {
  }

  /** `Outside` keeps exactly the defined cells that `Between` rejects. */
  lemma OutsideComplementsBetween(row: Row, c: int, lo: real, hi: real)
    ensures Passes(row, FilterContinuous(c, NumOp.Outside, lo, hi))
            == (Passes(row, FilterContinuous(c, NumOp.Defined, lo, hi))
                && !Passes(row, FilterContinuous(c, NumOp.Between, lo, hi)))
  {
  }

  /** Lower-casing the stored strings does not change the result of a case-insensitive condition. */
  lemma CaseInsensitiveIgnoresDataCase(op: TextOp, s: string, first: string, second: string)
    ensures TextPasses(op, Some(Str(s)), first, second, false)
            == TextPasses(op, Some(Str(Text.Lower(s))), first, second, false)
  {
    Text.LowerIdempotent(s);
  }

  /** Lower-casing the literals does not change the result of a case-insensitive condition. */
  lemma CaseInsensitiveIgnoresLiteralCase(op: TextOp, cell: Cell, first: string, second: string)
    ensures TextPasses(op, cell, first, second, false)
            == TextPasses(op, cell, Text.Lower(first), Text.Lower(second), false)
  {
    Text.LowerIdempotent(first);
    Text.LowerIdempotent(second);
  }

  /** Without upper-case letters anywhere, case folding changes nothing. */
  lemma CaseFoldingOnLowerCase(op: TextOp, s: string, first: string, second: string)
    requires forall i :: 0 <= i < |s| ==> !Text.IsUpperChar(s[i])
    requires forall i :: 0 <= i < |first| ==> !Text.IsUpperChar(first[i])
    requires forall i :: 0 <= i < |second| ==> !Text.IsUpperChar(second[i])
    ensures TextPasses(op, Some(Str(s)), first, second, false) == TextPasses(op, Some(Str(s)), first, second, true)
  {
  }

  /** A missing cell is kept by a string condition exactly when the operator is `NotEqual`. */
  lemma MissingStringPassesOnlyNotEqual(row: Row, c: int, op: TextOp, first: string, second: string, cs: bool)
    requires CellAt(row, c).None?
    ensures Passes(row, FilterString(c, op, first, second, cs)) <==> op == TextOp.NotEqual
    ensures !Passes(row, FilterStringList(c, [first, second], cs))
  {
  }

  /** How a string cell of a filtered table reads back: a missing string shows as the empty string. */
  function Shown(cell: Cell): (r: string)
    ensures cell.None? ==> r == ""
    ensures cell.Some? && cell.value.Str? ==> r == cell.value.s
  {
    match cell
    case Some(Str(s)) => s
    case _ => ""
  }
}
