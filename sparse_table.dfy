/**
 * The sparse table of Orange/data/table/impl.py: exporting role columns as one
 * coordinate (COO) matrix, and building a table from per-role coordinate
 * matrices laid side by side.
 */
module SparseTables {
  import opened Wrappers
  import Text
  import Schema

  // ---------------------------------------------------------------- density flags

  datatype Density = Dense | Sparse
  datatype Storage = DenseTable | SparseTable

  /** `X_density`, `Y_density` and `metas_density`: a dense table reports DENSE, a sparse one SPARSE, for every role. */
  function RoleDensity(s: Storage): (r: Density)
    ensures r == Sparse <==> s == SparseTable
  {
    match s
    case DenseTable => Dense
    case SparseTable => Sparse
  }

  // ---------------------------------------------------------------- coordinate matrices

  /** A stored (non-default) entry of a sparse column: its row and its value. */
  datatype Stored = Stored(row: nat, value: real)

  /** One (row, column, value) triplet of a coordinate matrix. */
  datatype Entry = Entry(row: nat, col: nat, value: real)

  /** `coo_matrix((data, (row, col)), shape=(nRows, nCols))`: three parallel arrays and a shape. */
  datatype Coo = Coo(nRows: nat, nCols: nat, data: seq<real>, rowIdx: seq<nat>, colIdx: seq<nat>)

  predicate Aligned(m: Coo) {
    |m.data| == |m.rowIdx| && |m.rowIdx| == |m.colIdx|
  }

  /** Every triplet lies inside the shape. */
  predicate WellShaped(m: Coo) {
    Aligned(m) && forall k :: 0 <= k < |m.data| ==> m.rowIdx[k] < m.nRows && m.colIdx[k] < m.nCols
  }

  function Triplets(data: seq<real>, rows: seq<nat>, cols: seq<nat>): (r: seq<Entry>)
    requires |data| == |rows| == |cols|
    ensures |r| == |data|
    ensures forall k :: 0 <= k < |r| ==> r[k] == Entry(rows[k], cols[k], data[k])
  {
    seq(|data|, k requires 0 <= k < |data| => Entry(rows[k], cols[k], data[k]))
  }

  function Entries(m: Coo): seq<Entry>
    requires Aligned(m)
  {
    Triplets(m.data, m.rowIdx, m.colIdx)
  }

  lemma TripletsAppend(d1: seq<real>, r1: seq<nat>, c1: seq<nat>, d2: seq<real>, r2: seq<nat>, c2: seq<nat>)
    requires |d1| == |r1| == |c1| && |d2| == |r2| == |c2|
    ensures Triplets(d1 + d2, r1 + r2, c1 + c2) == Triplets(d1, r1, c1) + Triplets(d2, r2, c2)
  {
  }

  // ---------------------------------------------------------------- the table

  /**
   * A sparse table: the domain, whether it is a single row (a series), `len(self)`,
   * the named sparse columns, the weights and the row ids.
   */
  datatype Table = Table(domain: Schema.Domain, isSeries: bool, length: nat,
                         names: seq<string>, columns: seq<seq<Stored>>,
                         weights: seq<real>, ids: seq<int>)

  function AllColumns(d: Schema.Domain): seq<Schema.Variable> {
    d.attributes + d.classVars + d.metas
  }

  /** The position of the first column called `name`. */
  function FirstName(names: seq<string>, name: string): (r: Option<nat>)
    ensures r.Some? ==> r.value < |names| && names[r.value] == name
    ensures r.Some? ==> forall k :: 0 <= k < r.value ==> names[k] != name
    ensures r.None? <==> name !in names
    decreases |names|
  {
    if names == [] then None
    else if names[0] == name then Some(0)
    else
      match FirstName(names[1..], name)
      case Some(k) => Some(k + 1)
      case None => None
  }

  /** A table has a column for every variable of its domain. */
  predicate Valid(t: Table) {
    |t.names| == |t.columns|
    && forall v :: v in AllColumns(t.domain) ==> v.name in t.names
  }

  /** `self[name]`: the first column with that name. */
  function Column(t: Table, name: string): seq<Stored>
    requires |t.names| == |t.columns| && name in t.names
  {
    t.columns[FirstName(t.names, name).value]
  }

  /** The exported variables: attributes, then class variables, then metas, each only when asked for. */
  function Selected(d: Schema.Domain, x: bool, y: bool, meta: bool): (r: seq<Schema.Variable>)
    ensures forall v :: v in r ==> v in AllColumns(d)
    ensures |r| == (if x then |d.attributes| else 0) + (if y then |d.classVars| else 0) + (if meta then |d.metas| else 0)
  {
    (if x then d.attributes else []) + (if y then d.classVars else []) + (if meta then d.metas else [])
  }

  function SelectedColumns(t: Table, cols: seq<Schema.Variable>): (r: seq<seq<Stored>>)
    requires Valid(t)
    requires forall v :: v in cols ==> v in AllColumns(t.domain)
    ensures |r| == |cols|
  {
    seq(|cols|, i requires 0 <= i < |cols| => Column(t, cols[i].name))
  }

  function ValuesOf(col: seq<Stored>): (r: seq<real>)
    ensures |r| == |col|
  {
    seq(|col|, k requires 0 <= k < |col| => col[k].value)
  }

  function RowsOfColumn(col: seq<Stored>): (r: seq<nat>)
    ensures |r| == |col|
  {
    seq(|col|, k requires 0 <= k < |col| => col[k].row)
  }

  function Repeat(i: nat, n: nat): (r: seq<nat>)
    ensures |r| == n
  {
    seq(n, _ => i)
  }

  /** The number of stored entries in the first `n` columns. */
  function StoredCount(cs: seq<seq<Stored>>, n: nat): nat
    requires n <= |cs|
  {
    if n == 0 then 0 else StoredCount(cs, n - 1) + |cs[n - 1]|
  }

  /** The concatenated `sp_values` of the first `n` columns. */
  function DataOf(cs: seq<seq<Stored>>, n: nat): (r: seq<real>)
    requires n <= |cs|
    ensures |r| == StoredCount(cs, n)
  {
    if n == 0 then [] else DataOf(cs, n - 1) + ValuesOf(cs[n - 1])
  }

  /** The concatenated row indices of the first `n` columns. */
  function RowsOf(cs: seq<seq<Stored>>, n: nat): (r: seq<nat>)
    requires n <= |cs|
    ensures |r| == StoredCount(cs, n)
  {
    if n == 0 then [] else RowsOf(cs, n - 1) + RowsOfColumn(cs[n - 1])
  }

  /** The column index of every stored entry of the first `n` columns. */
  function ColsOf(cs: seq<seq<Stored>>, n: nat): (r: seq<nat>)
    requires n <= |cs|
    ensures |r| == StoredCount(cs, n)
  {
    if n == 0 then [] else ColsOf(cs, n - 1) + Repeat(n - 1, |cs[n - 1]|)
  }

  /** What `_to_numpy(X=x, Y=y, meta=meta)` returns for a table. */
  function ExportSpec(t: Table, x: bool, y: bool, meta: bool): Coo
    requires Valid(t)
  {
    var cols := Selected(t.domain, x, y, meta);
    if cols == [] then Coo(t.length, 0, [], [], [])
    else
      var cs := SelectedColumns(t, cols);
      Coo(if t.isSeries then 1 else t.length, |cols|, DataOf(cs, |cs|), RowsOf(cs, |cs|), ColsOf(cs, |cs|))
  }

  /** `_to_numpy`: the selected columns' stored entries, appended column by column. */
  method ToCoo(t: Table, x: bool, y: bool, meta: bool) returns (m: Coo)
    requires Valid(t)
    ensures m == ExportSpec(t, x, y, meta)
  {
    var cols := Selected(t.domain, x, y, meta);
    var nRows := if t.isSeries then 1 else t.length;
    if cols == [] {
      return Coo(t.length, 0, [], [], []);
    }
    ghost var cs := SelectedColumns(t, cols);
    var data: seq<real> := [];
    var rows: seq<nat> := [];
    var colIdx: seq<nat> := [];
    var i := 0;
    while i < |cols|
      invariant 0 <= i <= |cols|
      invariant data == DataOf(cs, i) && rows == RowsOf(cs, i) && colIdx == ColsOf(cs, i)
    {
      var column := Column(t, cols[i].name);
      assert column == cs[i];
      assert DataOf(cs, i + 1) == DataOf(cs, i) + ValuesOf(column);
      assert RowsOf(cs, i + 1) == RowsOf(cs, i) + RowsOfColumn(column);
      assert ColsOf(cs, i + 1) == ColsOf(cs, i) + Repeat(i, |column|);
      data := data + ValuesOf(column);
      rows := rows + RowsOfColumn(column);
      colIdx := colIdx + Repeat(i, |column|);
      i := i + 1;
    }
    m := Coo(nRows, |cols|, data, rows, colIdx);
  }

  /** The triplets contributed by one column: its stored entries tagged with column index `i`. */
  function Tagged(col: seq<Stored>, i: nat): (r: seq<Entry>)
    ensures |r| == |col|
  {
    seq(|col|, k requires 0 <= k < |col| => Entry(col[k].row, i, col[k].value))
  }

  /** Tagging a column keeps the multiplicity of each stored entry, under column index `i` only. */
  lemma {:induction false} TaggedCounts(col: seq<Stored>, i: nat, e: Entry)
    ensures multiset(Tagged(col, i))[e] == if e.col == i then multiset(col)[Stored(e.row, e.value)] else 0
    decreases |col|
  {
    if col != [] {
      TaggedCounts(col[1..], i, e);
      assert Tagged(col, i) == [Tagged(col, i)[0]] + Tagged(col[1..], i);
      assert col == [col[0]] + col[1..];
    }
  }

  /** The triplets of the first `n` columns are the tagged columns, one after the other. */
  lemma {:induction false} BuiltTriplets(cs: seq<seq<Stored>>, n: nat)
    requires n <= |cs|
    ensures Triplets(DataOf(cs, n), RowsOf(cs, n), ColsOf(cs, n))
            == (if n == 0 then [] else Triplets(DataOf(cs, n - 1), RowsOf(cs, n - 1), ColsOf(cs, n - 1)) + Tagged(cs[n - 1], n - 1))
  {
    if n > 0 {
      var c := cs[n - 1];
      TripletsAppend(DataOf(cs, n - 1), RowsOf(cs, n - 1), ColsOf(cs, n - 1), ValuesOf(c), RowsOfColumn(c), Repeat(n - 1, |c|));
      assert Triplets(ValuesOf(c), RowsOfColumn(c), Repeat(n - 1, |c|)) == Tagged(c, n - 1);
    }
  }

  /**
   * Each stored entry `(r, v)` of column `i < n` occurs in the built triplets as
   * `(r, i, v)` exactly as often as it is stored, and nothing else occurs.
   */
  lemma {:induction false} BuiltCounts(cs: seq<seq<Stored>>, n: nat, e: Entry)
    requires n <= |cs|
    ensures multiset(Triplets(DataOf(cs, n), RowsOf(cs, n), ColsOf(cs, n)))[e]
            == if e.col < n then multiset(cs[e.col])[Stored(e.row, e.value)] else 0
    decreases n
  {
    if n > 0 {
      var prev := Triplets(DataOf(cs, n - 1), RowsOf(cs, n - 1), ColsOf(cs, n - 1));
      var tagged := Tagged(cs[n - 1], n - 1);
      var want := if e.col < n then multiset(cs[e.col])[Stored(e.row, e.value)] else 0;
      BuiltCounts(cs, n - 1, e);
      TaggedCounts(cs[n - 1], n - 1, e);
      assert multiset(prev)[e] + multiset(tagged)[e] == want;
      assert multiset(Triplets(DataOf(cs, n), RowsOf(cs, n), ColsOf(cs, n)))[e] == multiset(prev + tagged)[e] by {
        BuiltTriplets(cs, n);
      }
    }
  }

  /**
   * The export holds every stored entry of the `i`-th selected column exactly once
   * per occurrence, as `(row, i, value)`, and no other triplet; its shape is
   * `(1 if series else len, number of selected columns)`, or `(len, 0)` when no
   * column is selected.
   */
  lemma ExportHoldsSelectedEntries(t: Table, x: bool, y: bool, meta: bool, e: Entry)
    requires Valid(t)
    ensures var m := ExportSpec(t, x, y, meta);
            var cols := Selected(t.domain, x, y, meta);
            Aligned(m) && m.nCols == |cols|
            && m.nRows == (if cols != [] && t.isSeries then 1 else t.length)
            && multiset(Entries(m))[e]
               == if e.col < |cols| then multiset(Column(t, cols[e.col].name))[Stored(e.row, e.value)] else 0
  {
    var cols := Selected(t.domain, x, y, meta);
    if cols != [] {
      var cs := SelectedColumns(t, cols);
      BuiltCounts(cs, |cs|, e);
    }
  }

  /** The number of exported triplets is the total number of stored entries of the selected columns. */
  lemma ExportCount(t: Table, x: bool, y: bool, meta: bool)
    requires Valid(t)
    requires Selected(t.domain, x, y, meta) != []
    ensures var cs := SelectedColumns(t, Selected(t.domain, x, y, meta));
            |ExportSpec(t, x, y, meta).data| == StoredCount(cs, |cs|)
  {
    var cs := SelectedColumns(t, Selected(t.domain, x, y, meta));
  }

  // ---------------------------------------------------------------- coordinate matrix to frame

  /** The stored entries of column `j` of a triplet list, in triplet order (`ss.loc[j, :]`). */
  function InColumn(es: seq<Entry>, j: nat): (r: seq<Stored>)
    ensures |r| <= |es|
    decreases |es|
  {
    if es == [] then []
    else (if es[0].col == j then [Stored(es[0].row, es[0].value)] else []) + InColumn(es[1..], j)
  }

  /** Every triplet as a stored entry, whatever its column (the whole series, used for a one-column matrix). */
  function AsStored(es: seq<Entry>): (r: seq<Stored>)
    ensures |r| == |es|
  {
    seq(|es|, k requires 0 <= k < |es| => Stored(es[k].row, es[k].value))
  }

  /** Column `j` holds each triplet `(r, j, v)` as `(r, v)`, as often as it occurs. */
  lemma {:induction false} InColumnCounts(es: seq<Entry>, j: nat, s: Stored)
    ensures multiset(InColumn(es, j))[s] == multiset(es)[Entry(s.row, j, s.value)]
    decreases |es|
  {
    if es != [] {
      InColumnCounts(es[1..], j, s);
      assert es == [es[0]] + es[1..];
    }
  }

  /** When every triplet is in column 0, the one-column branch selects the same entries. */
  lemma {:induction false} SingleColumnAgrees(es: seq<Entry>)
    requires forall k :: 0 <= k < |es| ==> es[k].col == 0
    ensures AsStored(es) == InColumn(es, 0)
    decreases |es|
  {
    if es != [] {
      SingleColumnAgrees(es[1..]);
      assert AsStored(es) == [AsStored(es)[0]] + AsStored(es[1..]);
    }
  }

  /** A sparse data frame: its number of rows, its column labels and its columns. */
  datatype Frame = Frame(nRows: nat, labels: seq<nat>, columns: seq<seq<Stored>>)

  function Range(start: nat, n: nat): (r: seq<nat>)
    ensures |r| == n
    ensures forall k :: 0 <= k < n ==> r[k] == start + k
  {
    seq(n, k => start + k)
  }

  /** Column `j` of the frame built from `m`. */
  function FrameColumn(m: Coo, j: nat): seq<Stored>
    requires Aligned(m)
  {
    if m.nCols == 1 then AsStored(Entries(m)) else InColumn(Entries(m), j)
  }

  function FrameSpec(m: Coo, start: nat): Frame
    requires Aligned(m)
  {
    Frame(m.nRows, Range(start, m.nCols), seq(m.nCols, (j: int) requires 0 <= j => FrameColumn(m, j)))
  }

  /** `_coo_to_sparse_dataframe`: rows `0..nRows`, labels `start..start+nCols`, filled column by column. */
  method CooToFrame(m: Coo, start: nat) returns (f: Frame)
    requires Aligned(m)
    ensures f == FrameSpec(m, start)
  {
    var es := Entries(m);
    var columns: seq<seq<Stored>> := [];
    var j := 0;
    while j < m.nCols
      invariant 0 <= j <= m.nCols
      invariant columns == seq(j, (k: int) requires 0 <= k => FrameColumn(m, k))
    {
      var col := if m.nCols == 1 then AsStored(es) else InColumn(es, j);
      columns := columns + [col];
      j := j + 1;
    }
    f := Frame(m.nRows, Range(start, m.nCols), columns);
  }

  /** Column `j` of the frame holds exactly the triplets of column `j`, whichever branch built it. */
  lemma FrameColumnCounts(m: Coo, j: nat, s: Stored)
    requires WellShaped(m) && j < m.nCols
    ensures multiset(FrameColumn(m, j))[s] == multiset(Entries(m))[Entry(s.row, j, s.value)]
  {
    if m.nCols == 1 {
      SingleColumnAgrees(Entries(m));
    }
    InColumnCounts(Entries(m), j, s);
  }

  // ---------------------------------------------------------------- building a table from matrices

  datatype ImportError = IndexError | ValueError

  /** The class input: a two-dimensional matrix, or an array of some other rank. */
  datatype ClassInput = ClassMatrix(m: Coo) | OtherRank(shape: seq<nat>)

  /** Continuous variables named `prefix + str(i)` for `i` in `range(n)`. */
  function Inferred(prefix: string, n: nat): (r: seq<Schema.Variable>)
    ensures |r| == n
    ensures forall i :: 0 <= i < n ==> r[i] == Schema.Variable(prefix + Text.NatToString(i), Schema.Continuous, None)
  {
    seq(n, (i: int) requires 0 <= i => Schema.Variable(prefix + Text.NatToString(i), Schema.Continuous, None))
  }

  /** `shape[1]` of a present matrix, 0 for an absent one. */
  function Width(m: Option<Coo>): nat {
    if m.Some? then m.value.nCols else 0
  }

  /**
   * The domain inferred when none is given: "Feature i", "Target i" and "Meta i",
   * all continuous. Reading `Y.shape[1]` of an array of rank below two raises IndexError.
   */
  function InferDomain(x: Option<Coo>, y: Option<ClassInput>, metas: Option<Coo>): (r: Result<Schema.Domain, ImportError>)
    ensures r.Err? <==> y.Some? && y.value.OtherRank? && |y.value.shape| < 2
    ensures r.Err? ==> r.error == IndexError
    ensures r.Ok? ==> r.value.attributes == Inferred("Feature ", Width(x))
                      && r.value.metas == Inferred("Meta ", Width(metas))
                      && (y.None? ==> r.value.classVars == [])
                      && (y.Some? && y.value.ClassMatrix? ==> r.value.classVars == Inferred("Target ", y.value.m.nCols))
  {
    var yWidth: Result<nat, ImportError> :=
      match y
      case None => Ok(0)
      case Some(ClassMatrix(m)) => Ok(m.nCols)
      case Some(OtherRank(shape)) => if |shape| >= 2 then Ok(shape[1]) else Err(IndexError);
    match yWidth
    case Err(e) => Err(e)
    case Ok(w) => Ok(Schema.Domain(Inferred("Feature ", Width(x)), Inferred("Target ", w), Inferred("Meta ", Width(metas))))
  }

  predicate DistinctNames(names: seq<string>) {
    forall i, j :: 0 <= i < j < |names| ==> names[i] != names[j]
  }

  lemma PrefixedNamesDiffer(p: string, q: string, m: nat, n: nat)
    requires |p| == |q| && (p != q || m != n)
    ensures p + Text.NatToString(m) != q + Text.NatToString(n)
  {
    if p + Text.NatToString(m) == q + Text.NatToString(n) {
      assert (p + Text.NatToString(m))[..|p|] == p;
      assert (q + Text.NatToString(n))[..|q|] == q;
      assert (p + Text.NatToString(m))[|p|..] == Text.NatToString(m);
      assert (q + Text.NatToString(n))[|q|..] == Text.NatToString(n);
      Text.NatToStringInjective(m, n);
    }
  }

  /** The prefix of column `k` of the inferred domain with `a` attributes and `c` class variables. */
  function InferredPrefix(a: nat, c: nat, k: nat): string {
    if k < a then "Feature " else if k < a + c then "Target " else "Meta "
  }

  /** The number in the name of column `k` of that domain. */
  function InferredIndex(a: nat, c: nat, k: nat): nat {
    if k < a then k else if k < a + c then k - a else k - a - c
  }

  lemma InferredColumnName(a: nat, c: nat, m: nat, k: nat)
    requires k < a + c + m
    ensures Schema.Names(Inferred("Feature ", a) + Inferred("Target ", c) + Inferred("Meta ", m))[k]
            == InferredPrefix(a, c, k) + Text.NatToString(InferredIndex(a, c, k))
  {
    var all := Inferred("Feature ", a) + Inferred("Target ", c) + Inferred("Meta ", m);
    assert Schema.Names(all)[k] == all[k].name;
    if k < a {
      assert all[k] == Inferred("Feature ", a)[k];
    } else if k < a + c {
      assert all[k] == Inferred("Target ", c)[k - a];
    } else {
      assert all[k] == Inferred("Meta ", m)[k - a - c];
    }
  }

  lemma InferredClassVars(x: Option<Coo>, y: Option<ClassInput>, metas: Option<Coo>)
    requires InferDomain(x, y, metas).Ok?
    ensures InferDomain(x, y, metas).value.classVars == Inferred("Target ", |InferDomain(x, y, metas).value.classVars|)
  {
  }

  /** The inferred variables all have different names. */
  lemma InferredNamesDistinct(x: Option<Coo>, y: Option<ClassInput>, metas: Option<Coo>)
    requires InferDomain(x, y, metas).Ok?
    ensures DistinctNames(Schema.Names(AllColumns(InferDomain(x, y, metas).value)))
  {
    var d := InferDomain(x, y, metas).value;
    var a, c, m := |d.attributes|, |d.classVars|, |d.metas|;
    InferredClassVars(x, y, metas);
    assert AllColumns(d) == Inferred("Feature ", a) + Inferred("Target ", c) + Inferred("Meta ", m);
    var names := Schema.Names(AllColumns(d));
    forall i, j | 0 <= i < j < |names|
      ensures names[i] != names[j]
    {
      InferredColumnName(a, c, m, i);
      InferredColumnName(a, c, m, j);
      var pi, pj := InferredPrefix(a, c, i), InferredPrefix(a, c, j);
      if pi == pj {
        PrefixedNamesDiffer(pi, pj, InferredIndex(a, c, i), InferredIndex(a, c, j));
      } else {
        assert (pi + Text.NatToString(InferredIndex(a, c, i)))[0] == pi[0];
        assert (pj + Text.NatToString(InferredIndex(a, c, j)))[0] == pj[0];
      }
    }
  }

  /**
   * The column names, in the order attributes, class variables, metas; a string
   * variable anywhere raises ValueError, since sparse matrices hold only numbers.
   */
  function ColumnNames(d: Schema.Domain): (r: Result<seq<string>, ImportError>)
    ensures r.Ok? <==> Schema.AllPrimitive(AllColumns(d))
    ensures r.Err? ==> r.error == ValueError
    ensures r.Ok? ==> r.value == Schema.Names(AllColumns(d))
  {
    if Schema.AllPrimitive(AllColumns(d)) then Ok(Schema.Names(AllColumns(d))) else Err(ValueError)
  }

  /** The role matrices in the order they are laid out: X, Y, metas. */
  function Roles(x: Option<Coo>, y: Option<ClassInput>, metas: Option<Coo>): (r: seq<Option<Coo>>)
    ensures |r| == 3
  {
    [x, if y.Some? && y.value.ClassMatrix? then Some(y.value.m) else None, metas]
  }

  predicate AllAligned(roles: seq<Option<Coo>>) {
    forall k :: 0 <= k < |roles| ==> (roles[k].Some? ==> Aligned(roles[k].value))
  }

  /** The number of columns of the first `n` roles: the `col_idx_start` of role `n`. */
  function WidthBefore(roles: seq<Option<Coo>>, n: nat): nat
    requires n <= |roles|
  {
    if n == 0 then 0 else WidthBefore(roles, n - 1) + Width(roles[n - 1])
  }

  /** The frames of the present roles among the first `n`, each starting at its running offset. */
  function RoleFrames(roles: seq<Option<Coo>>, n: nat): seq<Frame>
    requires n <= |roles| && AllAligned(roles)
  {
    if n == 0 then []
    else
      RoleFrames(roles, n - 1)
      + (if roles[n - 1].Some? then [FrameSpec(roles[n - 1].value, WidthBefore(roles, n - 1))] else [])
  }

  function Max(a: nat, b: nat): nat {
    if a < b then b else a
  }

  /** `pd.concat(frames, axis=1)`: the union of the row ranges, the columns side by side. */
  function Joined(frames: seq<Frame>): Frame
    decreases |frames|
  {
    if frames == [] then Frame(0, [], [])
    else
      var init := Joined(frames[..|frames| - 1]);
      var last := frames[|frames| - 1];
      Frame(Max(init.nRows, last.nRows), init.labels + last.labels, init.columns + last.columns)
  }

  lemma JoinedAppend(frames: seq<Frame>, f: Frame)
    ensures var init := Joined(frames);
            Joined(frames + [f]) == Frame(Max(init.nRows, f.nRows), init.labels + f.labels, init.columns + f.columns)
  {
    assert (frames + [f])[..|frames|] == frames;
  }

  /** `set_weights(weights)` on `n` rows: given weights must have one per row; no weights means 1 each. */
  function Weights(weights: Option<seq<real>>, n: nat): (r: Result<seq<real>, ImportError>)
    ensures r.Ok? ==> |r.value| == n
    ensures weights.None? ==> r.Ok? && forall k :: 0 <= k < n ==> r.value[k] == 1.0
    ensures weights.Some? ==> (r.Ok? <==> |weights.value| == n) && (r.Ok? ==> r.value == weights.value)
    ensures r.Err? ==> r.error == ValueError
  {
    match weights
    case None => Ok(seq(n, _ => 1.0))
    case Some(w) => if |w| == n then Ok(w) else Err(ValueError)
  }

  /** `_new_id(n)`: `n` fresh consecutive row ids from the global counter, here starting at `first`. */
  function Ids(first: int, n: nat): (r: seq<int>)
    ensures |r| == n
    ensures forall i, j :: 0 <= i < j < n ==> r[i] < r[j]
  {
    seq(n, k => first + k)
  }

  /** The outcome of `_from_sparse_numpy(domain, X, Y, metas, weights)`. */
  function ImportSpec(domain: Option<Schema.Domain>, x: Option<Coo>, y: Option<ClassInput>, metas: Option<Coo>,
                      weights: Option<seq<real>>, firstId: int): Result<Table, ImportError>
    requires AllAligned(Roles(x, y, metas))
  {
    var inferred := if domain.Some? then Ok(domain.value) else InferDomain(x, y, metas);
    if inferred.Err? then Err(inferred.error)
    else if y.Some? && y.value.OtherRank? then Err(ValueError)
    else
      var d := inferred.value;
      var names := ColumnNames(d);
      if names.Err? then Err(names.error)
      else
        var frames := RoleFrames(Roles(x, y, metas), 3);
        if frames == [] then Err(ValueError)
        else Assemble(d, names.value, Joined(frames), weights, firstId)
  }

  /** The last steps of the import: the joined frame must have one column per name, then weights and ids are set. */
  function Assemble(d: Schema.Domain, names: seq<string>, joined: Frame, weights: Option<seq<real>>, firstId: int): Result<Table, ImportError> {
    if |joined.columns| != |names| then Err(ValueError)
    else
      var w := Weights(weights, joined.nRows);
      if w.Err? then Err(w.error)
      else Ok(Table(d, false, joined.nRows, names, joined.columns, w.value, Ids(firstId, joined.nRows)))
  }

  /** The loop over `attributes + class_vars + metas` that collects the names and refuses string variables. */
  method CollectNames(d: Schema.Domain) returns (r: Result<seq<string>, ImportError>)
    ensures r == ColumnNames(d)
  {
    var all := AllColumns(d);
    var names: seq<string> := [];
    var i := 0;
    while i < |all|
      invariant 0 <= i <= |all|
      invariant names == Schema.Names(all[..i])
      invariant forall k :: 0 <= k < i ==> Schema.IsPrimitive(all[k])
    {
      if all[i].kind.StringKind? {
        return Err(ValueError);
      }
      assert all[..i + 1] == all[..i] + [all[i]];
      names := names + [all[i].name];
      i := i + 1;
    }
    assert all[..i] == all;
    return Ok(names);
  }

  /** The loop over `(X, Y, metas)`: skip absent roles, convert the rest at the running column offset. */
  method LayOut(roles: seq<Option<Coo>>) returns (frames: seq<Frame>)
    requires AllAligned(roles)
    ensures frames == RoleFrames(roles, |roles|)
  {
    frames := [];
    var start := 0;
    var k := 0;
    while k < |roles|
      invariant 0 <= k <= |roles|
      invariant frames == RoleFrames(roles, k) && start == WidthBefore(roles, k)
    {
      if roles[k].Some? {
        var f := CooToFrame(roles[k].value, start);
        frames := frames + [f];
        start := start + roles[k].value.nCols;
      }
      k := k + 1;
    }
  }

  /** `_from_sparse_numpy`: collect the column names, then lay the role matrices side by side. */
  method FromSparseNumpy(domain: Option<Schema.Domain>, x: Option<Coo>, y: Option<ClassInput>, metas: Option<Coo>,
                         weights: Option<seq<real>>, firstId: int) returns (r: Result<Table, ImportError>)
    requires AllAligned(Roles(x, y, metas))
    ensures r == ImportSpec(domain, x, y, metas, weights, firstId)
  {
    var d: Schema.Domain;
    if domain.Some? {
      d := domain.value;
    } else {
      var inferred := InferDomain(x, y, metas);
      if inferred.Err? {
        return Err(inferred.error);
      }
      d := inferred.value;
    }
    if y.Some? && y.value.OtherRank? {
      return Err(ValueError);
    }
    var names := CollectNames(d);
    if names.Err? {
      return Err(names.error);
    }
    var frames := LayOut(Roles(x, y, metas));
    if frames == [] {
      return Err(ValueError);
    }
    var joined := Joined(frames);
    if |joined.columns| != |names.value| {
      return Err(ValueError);
    }
    var w := Weights(weights, joined.nRows);
    if w.Err? {
      return Err(w.error);
    }
    r := Ok(Table(d, false, joined.nRows, names.value, joined.columns, w.value, Ids(firstId, joined.nRows)));
  }

  // ---------------------------------------------------------------- properties of the import

  lemma {:induction false} WidthMonotone(roles: seq<Option<Coo>>, k: nat, n: nat)
    requires k <= n <= |roles|
    ensures WidthBefore(roles, k) <= WidthBefore(roles, n)
    decreases n
  {
    if k < n {
      WidthMonotone(roles, k, n - 1);
    }
  }

  /** One more role: a present one is appended to the joined frame, an absent one leaves it as it is. */
  lemma JoinedStep(roles: seq<Option<Coo>>, n: nat)
    requires 0 < n <= |roles| && AllAligned(roles)
    ensures var init := Joined(RoleFrames(roles, n - 1));
            var f := Joined(RoleFrames(roles, n));
            if roles[n - 1].Some? then
              f == Frame(Max(init.nRows, roles[n - 1].value.nRows),
                         init.labels + Range(WidthBefore(roles, n - 1), roles[n - 1].value.nCols),
                         init.columns + FrameSpec(roles[n - 1].value, WidthBefore(roles, n - 1)).columns)
            else f == init
  {
    if roles[n - 1].Some? {
      JoinedAppend(RoleFrames(roles, n - 1), FrameSpec(roles[n - 1].value, WidthBefore(roles, n - 1)));
    } else {
      assert RoleFrames(roles, n) == RoleFrames(roles, n - 1);
    }
  }

  lemma {:induction false} JoinedWidth(roles: seq<Option<Coo>>, n: nat)
    requires n <= |roles| && AllAligned(roles)
    ensures |Joined(RoleFrames(roles, n)).columns| == WidthBefore(roles, n)
    decreases n
  {
    if n > 0 {
      JoinedWidth(roles, n - 1);
      JoinedStep(roles, n);
    }
  }

  lemma RangeAppend(a: nat, b: nat, c: nat)
    ensures Range(a, b) + Range(a + b, c) == Range(a, b + c)
  {
    var parts, whole := Range(a, b) + Range(a + b, c), Range(a, b + c);
    forall k | 0 <= k < b + c
      ensures parts[k] == whole[k]
    {
      if k >= b {
        assert parts[k] == Range(a + b, c)[k - b];
      }
    }
  }

  lemma {:induction false} JoinedLabels(roles: seq<Option<Coo>>, n: nat)
    requires n <= |roles| && AllAligned(roles)
    ensures Joined(RoleFrames(roles, n)).labels == Range(0, WidthBefore(roles, n))
    decreases n
  {
    if n > 0 {
      JoinedLabels(roles, n - 1);
      JoinedStep(roles, n);
      if roles[n - 1].Some? {
        RangeAppend(0, WidthBefore(roles, n - 1), roles[n - 1].value.nCols);
      }
    }
  }

  lemma {:induction false} JoinedRowsBound(roles: seq<Option<Coo>>, n: nat, k: nat)
    requires n <= |roles| && AllAligned(roles)
    requires k < n && roles[k].Some?
    ensures roles[k].value.nRows <= Joined(RoleFrames(roles, n)).nRows
    decreases n
  {
    JoinedStep(roles, n);
    if k < n - 1 {
      JoinedRowsBound(roles, n - 1, k);
    }
  }

  /** A non-empty joined frame takes its row count from some present role. */
  lemma {:induction false} JoinedRowsWitness(roles: seq<Option<Coo>>, n: nat) returns (k: nat)
    requires n <= |roles| && AllAligned(roles)
    requires Joined(RoleFrames(roles, n)).nRows != 0
    ensures k < n && roles[k].Some? && roles[k].value.nRows == Joined(RoleFrames(roles, n)).nRows
    decreases n
  {
    JoinedStep(roles, n);
    var init := Joined(RoleFrames(roles, n - 1));
    if roles[n - 1].Some? && init.nRows <= roles[n - 1].value.nRows {
      k := n - 1;
    } else {
      k := JoinedRowsWitness(roles, n - 1);
    }
  }

  lemma JoinedRows(roles: seq<Option<Coo>>, n: nat)
    requires n <= |roles| && AllAligned(roles)
    ensures var f := Joined(RoleFrames(roles, n));
            (forall k :: 0 <= k < n && roles[k].Some? ==> roles[k].value.nRows <= f.nRows)
            && (f.nRows == 0 || exists k :: 0 <= k < n && roles[k].Some? && roles[k].value.nRows == f.nRows)
  {
    forall k | 0 <= k < n && roles[k].Some?
      ensures roles[k].value.nRows <= Joined(RoleFrames(roles, n)).nRows
    {
      JoinedRowsBound(roles, n, k);
    }
    if Joined(RoleFrames(roles, n)).nRows != 0 {
      var k := JoinedRowsWitness(roles, n);
    }
  }

  /**
   * Laying out the first `n` roles: as many columns as their widths add up to,
   * labels `0, 1, ...` without gaps across absent roles, and as many rows as the
   * longest present role.
   */
  lemma JoinedShape(roles: seq<Option<Coo>>, n: nat)
    requires n <= |roles| && AllAligned(roles)
    ensures var f := Joined(RoleFrames(roles, n));
            |f.columns| == WidthBefore(roles, n)
            && f.labels == Range(0, WidthBefore(roles, n))
            && (forall k :: 0 <= k < n && roles[k].Some? ==> roles[k].value.nRows <= f.nRows)
            && (f.nRows == 0 || exists k :: 0 <= k < n && roles[k].Some? && roles[k].value.nRows == f.nRows)
  {
    JoinedWidth(roles, n);
    JoinedLabels(roles, n);
    JoinedRows(roles, n);
  }

  /** Column `j` of role `k` sits at the role's running offset plus `j`. */
  lemma {:induction false} JoinedColumn(roles: seq<Option<Coo>>, n: nat, k: nat, j: nat)
    requires n <= |roles| && AllAligned(roles)
    requires k < n && roles[k].Some? && j < roles[k].value.nCols
    ensures var f := Joined(RoleFrames(roles, n));
            WidthBefore(roles, k) + j < |f.columns|
            && f.columns[WidthBefore(roles, k) + j] == FrameColumn(roles[k].value, j)
    decreases n
  {
    if k < n - 1 {
      JoinedColumn(roles, n - 1, k, j);
      WidthMonotone(roles, k + 1, n - 1);
      JoinedWidth(roles, n - 1);
      JoinedKeepsColumn(roles, n, WidthBefore(roles, k) + j);
    } else {
      JoinedLastColumn(roles, n, j);
    }
  }

  /** Laying out one more role keeps the columns already there. */
  lemma JoinedKeepsColumn(roles: seq<Option<Coo>>, n: nat, i: nat)
    requires 0 < n <= |roles| && AllAligned(roles)
    requires i < |Joined(RoleFrames(roles, n - 1)).columns|
    ensures i < |Joined(RoleFrames(roles, n)).columns|
    ensures Joined(RoleFrames(roles, n)).columns[i] == Joined(RoleFrames(roles, n - 1)).columns[i]
  {
    JoinedStep(roles, n);
  }

  /** A present role's columns follow the columns laid out before it. */
  lemma JoinedLastColumn(roles: seq<Option<Coo>>, n: nat, j: nat)
    requires 0 < n <= |roles| && AllAligned(roles)
    requires roles[n - 1].Some? && j < roles[n - 1].value.nCols
    ensures WidthBefore(roles, n - 1) + j < |Joined(RoleFrames(roles, n)).columns|
    ensures Joined(RoleFrames(roles, n)).columns[WidthBefore(roles, n - 1) + j] == FrameColumn(roles[n - 1].value, j)
  {
    var m := roles[n - 1].value;
    var init := Joined(RoleFrames(roles, n - 1)).columns;
    var last := FrameSpec(m, WidthBefore(roles, n - 1)).columns;
    JoinedWidth(roles, n - 1);
    assert Joined(RoleFrames(roles, n)).columns == init + last by {
      JoinedStep(roles, n);
    }
    assert last[j] == FrameColumn(m, j);
    assert (init + last)[|init| + j] == last[j];
  }

  /** Column `j` of each present role `k` is found at the role's running offset plus `j`. */
  predicate ColumnsAtOffsets(roles: seq<Option<Coo>>, columns: seq<seq<Stored>>)
    requires AllAligned(roles)
  {
    forall k :: 0 <= k < |roles| && roles[k].Some? ==> RoleAtOffset(roles, columns, k)
  }

  /** Column `j` of present role `k` is found at the role's running offset plus `j`. */
  predicate RoleAtOffset(roles: seq<Option<Coo>>, columns: seq<seq<Stored>>, k: nat)
    requires AllAligned(roles) && k < |roles| && roles[k].Some?
  {
    forall j :: 0 <= j < roles[k].value.nCols
      ==> WidthBefore(roles, k) + j < |columns| && columns[WidthBefore(roles, k) + j] == FrameColumn(roles[k].value, j)
  }

  /** Every present role has at most `n` rows. */
  predicate RowsCovered(roles: seq<Option<Coo>>, n: nat) {
    forall k :: 0 <= k < |roles| && roles[k].Some? ==> roles[k].value.nRows <= n
  }

  lemma JoinedColumns(roles: seq<Option<Coo>>)
    requires AllAligned(roles)
    ensures ColumnsAtOffsets(roles, Joined(RoleFrames(roles, |roles|)).columns)
  {
    forall k | 0 <= k < |roles| && roles[k].Some?
      ensures RoleAtOffset(roles, Joined(RoleFrames(roles, |roles|)).columns, k)
    {
      JoinedRoleColumns(roles, k);
    }
  }

  lemma JoinedRoleColumns(roles: seq<Option<Coo>>, k: nat)
    requires AllAligned(roles) && k < |roles| && roles[k].Some?
    ensures RoleAtOffset(roles, Joined(RoleFrames(roles, |roles|)).columns, k)
  {
    var columns := Joined(RoleFrames(roles, |roles|)).columns;
    forall j | 0 <= j < roles[k].value.nCols
      ensures WidthBefore(roles, k) + j < |columns| && columns[WidthBefore(roles, k) + j] == FrameColumn(roles[k].value, j)
    {
      JoinedColumn(roles, |roles|, k, j);
    }
  }

  /** The domain a successful import ends up with: the given one, or the inferred one. */
  function ImportDomain(domain: Option<Schema.Domain>, x: Option<Coo>, y: Option<ClassInput>, metas: Option<Coo>): Schema.Domain
    requires domain.Some? || InferDomain(x, y, metas).Ok?
  {
    if domain.Some? then domain.value else InferDomain(x, y, metas).value
  }

  /**
   * A successful import has the domain, one column named after each variable in
   * role order, one weight and one id per row, increasing ids, and the columns of
   * each role matrix at that role's running offset.
   */
  lemma ImportLayout(domain: Option<Schema.Domain>, x: Option<Coo>, y: Option<ClassInput>, metas: Option<Coo>,
                     weights: Option<seq<real>>, firstId: int)
    requires AllAligned(Roles(x, y, metas))
    requires ImportSpec(domain, x, y, metas, weights, firstId).Ok?
    ensures domain.Some? || InferDomain(x, y, metas).Ok?
    ensures var t := ImportSpec(domain, x, y, metas, weights, firstId).value;
            var roles := Roles(x, y, metas);
            t.domain == ImportDomain(domain, x, y, metas)
            && Valid(t) && !t.isSeries
            && t.names == Schema.Names(AllColumns(t.domain))
            && Schema.AllPrimitive(AllColumns(t.domain))
            && |t.weights| == t.length && |t.ids| == t.length
            && (forall i, j :: 0 <= i < j < t.length ==> t.ids[i] < t.ids[j])
            && ColumnsAtOffsets(roles, t.columns)
            && RowsCovered(roles, t.length)
  {
    var d := ImportSteps(domain, x, y, metas, weights, firstId);
    AssembledLayout(Roles(x, y, metas), d, weights, firstId);
  }

  /** The table put together from laid-out roles whose columns match the domain's variables. */
  lemma AssembledLayout(roles: seq<Option<Coo>>, d: Schema.Domain, weights: Option<seq<real>>, firstId: int)
    requires |roles| == 3 && AllAligned(roles)
    requires var joined := Joined(RoleFrames(roles, 3));
             |joined.columns| == |AllColumns(d)| && Weights(weights, joined.nRows).Ok?
    ensures var joined := Joined(RoleFrames(roles, 3));
            var t := Table(d, false, joined.nRows, Schema.Names(AllColumns(d)), joined.columns,
                           Weights(weights, joined.nRows).value, Ids(firstId, joined.nRows));
            Valid(t)
            && |t.weights| == t.length && |t.ids| == t.length
            && (forall i, j :: 0 <= i < j < t.length ==> t.ids[i] < t.ids[j])
            && ColumnsAtOffsets(roles, t.columns)
            && RowsCovered(roles, t.length)
  {
    var joined := Joined(RoleFrames(roles, 3));
    var t := Table(d, false, joined.nRows, Schema.Names(AllColumns(d)), joined.columns,
                   Weights(weights, joined.nRows).value, Ids(firstId, joined.nRows));
    JoinedShape(roles, 3);
    JoinedColumns(roles);
    var all := AllColumns(d);
    forall v | v in all
      ensures v.name in t.names
    {
      var i :| 0 <= i < |all| && all[i] == v;
      assert t.names[i] == v.name;
    }
  }

  /**
   * The steps a successful import goes through: the domain is the given or the
   * inferred one, all its variables are primitive, some role is present, and the
   * joined frame has one column per name and rows matching the weights.
   */
  lemma ImportSteps(domain: Option<Schema.Domain>, x: Option<Coo>, y: Option<ClassInput>, metas: Option<Coo>,
                    weights: Option<seq<real>>, firstId: int) returns (d: Schema.Domain)
    requires AllAligned(Roles(x, y, metas))
    requires ImportSpec(domain, x, y, metas, weights, firstId).Ok?
    ensures domain.Some? || InferDomain(x, y, metas).Ok?
    ensures d == ImportDomain(domain, x, y, metas)
    ensures Schema.AllPrimitive(AllColumns(d))
    ensures var joined := Joined(RoleFrames(Roles(x, y, metas), 3));
            |joined.columns| == |AllColumns(d)|
            && Weights(weights, joined.nRows).Ok?
            && ImportSpec(domain, x, y, metas, weights, firstId)
               == Ok(Table(d, false, joined.nRows, Schema.Names(AllColumns(d)), joined.columns,
                           Weights(weights, joined.nRows).value, Ids(firstId, joined.nRows)))
  {
    d := ImportDomain(domain, x, y, metas);
  }

  /** In distinct names, the first position of the name found at `p` is `p`. */
  lemma FirstNameOfDistinct(names: seq<string>, p: nat)
    requires DistinctNames(names) && p < |names|
    ensures FirstName(names, names[p]) == Some(p)
  {
    var r := FirstName(names, names[p]);
    assert r.Some?;
  }

  /** The variables of one role (0: attributes, 1: class variables, 2: metas) and its offset in the columns. */
  function RoleVariables(d: Schema.Domain, role: nat): seq<Schema.Variable>
    requires role < 3
  {
    if role == 0 then d.attributes else if role == 1 then d.classVars else d.metas
  }

  function RoleOffset(d: Schema.Domain, role: nat): nat
    requires role < 3
  {
    if role == 0 then 0 else if role == 1 then |d.attributes| else |d.attributes| + |d.classVars|
  }

  /** The `i`-th variable of a role is the variable at the role's offset plus `i`. */
  lemma RoleSlice(d: Schema.Domain, role: nat, i: nat)
    requires role < 3 && i < |RoleVariables(d, role)|
    ensures Selected(d, role == 0, role == 1, role == 2) == RoleVariables(d, role)
    ensures RoleOffset(d, role) + i < |AllColumns(d)|
    ensures AllColumns(d)[RoleOffset(d, role) + i] == RoleVariables(d, role)[i]
  {
  }

  /** With distinct names, looking up the name at position `p` finds column `p`. */
  lemma ColumnAtDistinctName(t: Table, p: nat)
    requires |t.names| == |t.columns| && DistinctNames(t.names) && p < |t.names|
    ensures Column(t, t.names[p]) == t.columns[p]
  {
    FirstNameOfDistinct(t.names, p);
  }

  /**
   * Exporting one role of a table with distinct column names, whose columns at
   * the role's offset are the frame columns of `m`, gives back `m`'s triplets.
   */
  lemma ExportRole(t: Table, role: nat, m: Coo, e: Entry)
    requires Valid(t) && role < 3 && WellShaped(m)
    requires t.names == Schema.Names(AllColumns(t.domain)) && DistinctNames(t.names)
    requires |RoleVariables(t.domain, role)| == m.nCols
    requires forall j :: 0 <= j < m.nCols ==>
               (RoleOffset(t.domain, role) + j < |t.columns|
                && t.columns[RoleOffset(t.domain, role) + j] == FrameColumn(m, j))
    ensures var ex := ExportSpec(t, role == 0, role == 1, role == 2);
            Aligned(ex) && ex.nCols == m.nCols && multiset(Entries(ex))[e] == multiset(Entries(m))[e]
  {
    ExportHoldsSelectedEntries(t, role == 0, role == 1, role == 2, e);
    var cols := Selected(t.domain, role == 0, role == 1, role == 2);
    var ex := ExportSpec(t, role == 0, role == 1, role == 2);
    if e.col < m.nCols {
      var s := Stored(e.row, e.value);
      SelectedColumnIsFrame(t, role, m, e.col);
      assert multiset(Entries(ex))[e] == multiset(FrameColumn(m, e.col))[s];
      FrameColumnCounts(m, e.col, s);
      assert e == Entry(s.row, e.col, s.value);
    } else {
      assert |cols| == m.nCols;
      NoEntryBeyondWidth(m, e);
    }
  }

  /** The `j`-th exported column of the role, looked up by its variable's name, is frame column `j` of `m`. */
  lemma SelectedColumnIsFrame(t: Table, role: nat, m: Coo, j: nat)
    requires Valid(t) && role < 3 && Aligned(m)
    requires t.names == Schema.Names(AllColumns(t.domain)) && DistinctNames(t.names)
    requires |RoleVariables(t.domain, role)| == m.nCols && j < m.nCols
    requires RoleOffset(t.domain, role) + j < |t.columns|
    requires t.columns[RoleOffset(t.domain, role) + j] == FrameColumn(m, j)
    ensures var cols := Selected(t.domain, role == 0, role == 1, role == 2);
            j < |cols| && cols[j].name in t.names && Column(t, cols[j].name) == FrameColumn(m, j)
  {
    var off := RoleOffset(t.domain, role);
    var cols := Selected(t.domain, role == 0, role == 1, role == 2);
    RoleSlice(t.domain, role, j);
    assert t.names[off + j] == cols[j].name;
    ColumnAtDistinctName(t, off + j);
  }

  /** A well-shaped matrix holds no triplet in a column at or beyond its width. */
  lemma NoEntryBeyondWidth(m: Coo, e: Entry)
    requires WellShaped(m) && e.col >= m.nCols
    ensures multiset(Entries(m))[e] == 0
  {
    forall k | 0 <= k < |Entries(m)|
      ensures Entries(m)[k] != e
    {
      assert Entries(m)[k].col == m.colIdx[k] < m.nCols;
    }
    assert e !in Entries(m);
  }

  /**
   * Round trip: importing role matrices and exporting one role gives back that
   * role's matrix, triplet for triplet with multiplicities, when the domain's
   * roles are as wide as the matrices and its names are distinct (as inferred ones are).
   */
  lemma RoleRoundTrip(domain: Option<Schema.Domain>, x: Option<Coo>, y: Option<ClassInput>, metas: Option<Coo>,
                      weights: Option<seq<real>>, firstId: int, role: nat, e: Entry)
    requires AllAligned(Roles(x, y, metas)) && role < 3
    requires ImportSpec(domain, x, y, metas, weights, firstId).Ok?
    requires Roles(x, y, metas)[role].Some? && WellShaped(Roles(x, y, metas)[role].value)
    requires var d := ImportSpec(domain, x, y, metas, weights, firstId).value.domain;
             forall k :: 0 <= k < 3 ==> |RoleVariables(d, k)| == Width(Roles(x, y, metas)[k])
    requires DistinctNames(Schema.Names(AllColumns(ImportSpec(domain, x, y, metas, weights, firstId).value.domain)))
    ensures var t := ImportSpec(domain, x, y, metas, weights, firstId).value;
            var m := Roles(x, y, metas)[role].value;
            Valid(t)
            && var ex := ExportSpec(t, role == 0, role == 1, role == 2);
               Aligned(ex) && ex.nCols == m.nCols && multiset(Entries(ex))[e] == multiset(Entries(m))[e]
  {
    ImportLayout(domain, x, y, metas, weights, firstId);
    LaidOutRoleExports(ImportSpec(domain, x, y, metas, weights, firstId).value, Roles(x, y, metas), role, e);
  }

  /** Exporting a role of a table whose columns hold the role matrices at their running offsets. */
  lemma LaidOutRoleExports(t: Table, roles: seq<Option<Coo>>, role: nat, e: Entry)
    requires Valid(t) && |roles| == 3 && AllAligned(roles) && role < 3
    requires roles[role].Some? && WellShaped(roles[role].value)
    requires t.names == Schema.Names(AllColumns(t.domain)) && DistinctNames(t.names)
    requires forall k :: 0 <= k < 3 ==> |RoleVariables(t.domain, k)| == Width(roles[k])
    requires ColumnsAtOffsets(roles, t.columns)
    ensures var ex := ExportSpec(t, role == 0, role == 1, role == 2);
            Aligned(ex) && ex.nCols == roles[role].value.nCols
            && multiset(Entries(ex))[e] == multiset(Entries(roles[role].value))[e]
  {
    var m := roles[role].value;
    assert |RoleVariables(t.domain, 0)| == Width(roles[0]) && |RoleVariables(t.domain, 1)| == Width(roles[1]);
    assert WidthBefore(roles, 1) == Width(roles[0]);
    assert WidthBefore(roles, 2) == Width(roles[0]) + Width(roles[1]);
    assert RoleOffset(t.domain, role) == WidthBefore(roles, role);
    assert RoleAtOffset(roles, t.columns, role);
    ExportRole(t, role, m, e);
  }

  /** An inferred domain always has roles as wide as the matrices. */
  lemma InferredWidths(x: Option<Coo>, y: Option<ClassInput>, metas: Option<Coo>)
    requires InferDomain(x, y, metas).Ok? && !(y.Some? && y.value.OtherRank?)
    ensures var d := InferDomain(x, y, metas).value;
            forall k :: 0 <= k < 3 ==> |RoleVariables(d, k)| == Width(Roles(x, y, metas)[k])
  {
  }

  /** An inferred domain, with a two-dimensional or absent class input, lets any non-empty import succeed. */
  lemma InferredImportSucceeds(x: Option<Coo>, y: Option<ClassInput>, metas: Option<Coo>, firstId: int)
    requires AllAligned(Roles(x, y, metas))
    requires !(y.Some? && y.value.OtherRank?)
    requires x.Some? || y.Some? || metas.Some?
    ensures InferDomain(x, y, metas).Ok?
    ensures ImportSpec(None, x, y, metas, None, firstId).Ok?
  {
    var d := InferDomain(x, y, metas).value;
    var roles := Roles(x, y, metas);
    InferredWidths(x, y, metas);
    JoinedWidth(roles, 3);
    assert |Joined(RoleFrames(roles, 3)).columns| == |AllColumns(d)| by {
      assert WidthBefore(roles, 1) == Width(roles[0]);
      assert WidthBefore(roles, 2) == Width(roles[0]) + Width(roles[1]);
      assert WidthBefore(roles, 3) == Width(roles[0]) + Width(roles[1]) + Width(roles[2]);
      assert |AllColumns(d)| == |RoleVariables(d, 0)| + |RoleVariables(d, 1)| + |RoleVariables(d, 2)|;
    }
    assert Schema.AllPrimitive(AllColumns(d));
    assert RoleFrames(roles, 3) != [] by {
      var k := if x.Some? then 0 else if y.Some? then 1 else 2;
      assert roles[k].Some?;
      SomeRoleFrames(roles, 3);
    }
  }

  /** Some present role among the first `n` gives at least one frame. */
  lemma {:induction false} SomeRoleFrames(roles: seq<Option<Coo>>, n: nat)
    requires n <= |roles| && AllAligned(roles)
    requires exists k :: 0 <= k < n && roles[k].Some?
    ensures RoleFrames(roles, n) != []
    decreases n
  {
    if !roles[n - 1].Some? {
      SomeRoleFrames(roles, n - 1);
    }
  }

  /** With no domain given, any import of well-shaped matrices exports each role back unchanged. */
  lemma InferredRoundTrip(x: Option<Coo>, y: Option<ClassInput>, metas: Option<Coo>, firstId: int, role: nat, e: Entry)
    requires AllAligned(Roles(x, y, metas)) && role < 3
    requires !(y.Some? && y.value.OtherRank?)
    requires Roles(x, y, metas)[role].Some? && WellShaped(Roles(x, y, metas)[role].value)
    ensures ImportSpec(None, x, y, metas, None, firstId).Ok?
    ensures var t := ImportSpec(None, x, y, metas, None, firstId).value;
            var m := Roles(x, y, metas)[role].value;
            Valid(t)
            && var ex := ExportSpec(t, role == 0, role == 1, role == 2);
               Aligned(ex) && ex.nCols == m.nCols && multiset(Entries(ex))[e] == multiset(Entries(m))[e]
  {
    InferredImportSucceeds(x, y, metas, firstId);
    InferredWidths(x, y, metas);
    InferredNamesDistinct(x, y, metas);
    RoleRoundTrip(None, x, y, metas, None, firstId, role, e);
  }

  /** A string variable anywhere in the domain makes the import fail with ValueError. */
  lemma ImportRejectsStringVariables(d: Schema.Domain, x: Option<Coo>, y: Option<ClassInput>, metas: Option<Coo>,
                                     weights: Option<seq<real>>, firstId: int)
    requires AllAligned(Roles(x, y, metas))
    requires exists v :: v in AllColumns(d) && v.kind.StringKind?
    ensures ImportSpec(Some(d), x, y, metas, weights, firstId) == Err(ValueError)
  {
    var v :| v in AllColumns(d) && v.kind.StringKind?;
    var i :| 0 <= i < |AllColumns(d)| && AllColumns(d)[i] == v;
    assert !Schema.IsPrimitive(AllColumns(d)[i]);
  }

  /**
   * A class input whose rank is not two fails: with ValueError, or with IndexError
   * already while inferring the domain when its rank is below two.
   */
  lemma ImportRejectsOtherRank(domain: Option<Schema.Domain>, x: Option<Coo>, shape: seq<nat>, metas: Option<Coo>,
                               weights: Option<seq<real>>, firstId: int)
    requires AllAligned(Roles(x, Some(OtherRank(shape)), metas))
    ensures var r := ImportSpec(domain, x, Some(OtherRank(shape)), metas, weights, firstId);
            r == if domain.None? && |shape| < 2 then Err(IndexError) else Err(ValueError)
  {
  }

  /** With no matrix at all there is nothing to concatenate: ValueError. */
  lemma ImportNeedsAMatrix(domain: Option<Schema.Domain>, weights: Option<seq<real>>, firstId: int)
    ensures ImportSpec(domain, None, None, None, weights, firstId) == Err(ValueError)
  {
    assert RoleFrames(Roles(None, None, None), 3) == [];
  }

  /** A domain with more or fewer variables than the matrices have columns fails with ValueError. */
  lemma ImportRejectsWidthMismatch(d: Schema.Domain, x: Option<Coo>, y: Option<ClassInput>, metas: Option<Coo>,
                                   weights: Option<seq<real>>, firstId: int)
    requires AllAligned(Roles(x, y, metas))
    requires |AllColumns(d)| != WidthBefore(Roles(x, y, metas), 3)
    ensures ImportSpec(Some(d), x, y, metas, weights, firstId).Err?
  {
    JoinedShape(Roles(x, y, metas), 3);
  }

  // ---------------------------------------------------------------- `weights or 1`

  /**
   * `set_weights(weights or 1)` as written: truth-testing a sparse matrix raises
   * ValueError unless it is 1 x 1, and a 1 x 1 matrix is true when its entry is non-zero.
   */
  function WeightsAsWritten(weights: Option<seq<real>>, n: nat): (r: Result<seq<real>, ImportError>)
    ensures weights.Some? && |weights.value| != 1 ==> r == Err(ValueError)
    ensures weights.None? ==> r == Weights(None, n)
  {
    match weights
    case None => Weights(None, n)
    case Some(w) =>
      if |w| != 1 then Err(ValueError)
      else if w[0] == 0.0 then Weights(None, n)
      else Weights(weights, n)
  }

  /** Per-row weights for two or more rows are refused as written, and kept by `Weights`. */
  lemma WeightsAsWrittenRejectsRowWeights(w: seq<real>)
    requires |w| >= 2
    ensures WeightsAsWritten(Some(w), |w|) == Err(ValueError)
    ensures Weights(Some(w), |w|) == Ok(w)
  {
  }

  /** The smallest input that shows it: weights 1 and 2 for a two-row matrix. */
  lemma WeightsAsWrittenCounterexample()
    ensures WeightsAsWritten(Some([1.0, 2.0]), 2) == Err(ValueError)
    ensures var x := Coo(2, 1, [5.0], [0], [0]);
            ImportSpec(None, Some(x), None, None, Some([1.0, 2.0]), 0).Ok?
            && ImportSpec(None, Some(x), None, None, Some([1.0, 2.0]), 0).value.weights == [1.0, 2.0]
  {
    var x := Coo(2, 1, [5.0], [0], [0]);
    InferredImportSucceeds(Some(x), None, None, 0);
    ImportLayout(None, Some(x), None, None, None, 0);
    var roles := Roles(Some(x), None, None);
    JoinedShape(roles, 3);
    var t := ImportSpec(None, Some(x), None, None, None, 0).value;
    assert t.length == 2;
  }

  // ---------------------------------------------------------------- the `Y` property

  /** A coordinate matrix with the given triplets. */
  function FromEntries(nRows: nat, nCols: nat, es: seq<Entry>): (r: Coo)
    ensures Aligned(r) && Entries(r) == es
  {
    Coo(nRows, nCols, seq(|es|, k requires 0 <= k < |es| => es[k].value), seq(|es|, k requires 0 <= k < |es| => es[k].row),
        seq(|es|, k requires 0 <= k < |es| => es[k].col))
  }

  /** `getcol(j).tocoo()`: column `j` as an `nRows x 1` matrix. */
  function GetCol(m: Coo, j: nat): Coo
    requires Aligned(m)
  {
    FromEntries(m.nRows, 1, Tagged(InColumn(Entries(m), j), 0))
  }

  /** Selecting the only column loses nothing: it has the same shape and the same triplets. */
  lemma GetColOfOneColumn(m: Coo, e: Entry)
    requires Aligned(m) && m.nCols == 1
    requires forall k :: 0 <= k < |m.colIdx| ==> m.colIdx[k] < m.nCols
    ensures GetCol(m, 0).nRows == m.nRows && GetCol(m, 0).nCols == 1
    ensures multiset(Entries(GetCol(m, 0)))[e] == multiset(Entries(m))[e]
  {
    var es := Entries(m);
    forall k | 0 <= k < |es|
      ensures es[k].col == 0
    {
    }
    TaggedCounts(InColumn(es, 0), 0, e);
    InColumnCounts(es, 0, Stored(e.row, e.value));
  }

  /** The column of every built triplet is one of the first `n` columns. */
  lemma {:induction false} BuiltColumnsInRange(cs: seq<seq<Stored>>, n: nat)
    requires n <= |cs|
    ensures forall k :: 0 <= k < |ColsOf(cs, n)| ==> ColsOf(cs, n)[k] < n
    decreases n
  {
    if n > 0 {
      BuiltColumnsInRange(cs, n - 1);
      var init, last := ColsOf(cs, n - 1), Repeat(n - 1, |cs[n - 1]|);
      assert ColsOf(cs, n) == init + last;
      forall k | 0 <= k < |init + last|
        ensures (init + last)[k] < n
      {
        if k < |init| {
          assert (init + last)[k] == init[k];
        } else {
          assert (init + last)[k] == last[k - |init|];
        }
      }
    }
  }

  /** The `Y` property: the class columns as a coordinate matrix, one column selected when there is one. */
  method ClassValues(t: Table) returns (m: Coo)
    requires Valid(t)
    ensures var ex := ExportSpec(t, false, true, false);
            m == if ex.nCols == 1 then GetCol(ex, 0) else ex
  {
    var result := ToCoo(t, false, true, false);
    ExportHoldsSelectedEntries(t, false, true, false, Entry(0, 0, 0.0));
    if result.nCols == 1 {
      m := GetCol(result, 0);
    } else {
      m := result;
    }
  }

  /** `Y` holds the same triplets as the export of the class columns. */
  lemma ClassValuesKeepEntries(t: Table, e: Entry)
    requires Valid(t)
    ensures var ex := ExportSpec(t, false, true, false);
            Aligned(ex)
            && var m := if ex.nCols == 1 then GetCol(ex, 0) else ex;
               m.nCols == ex.nCols && m.nRows == ex.nRows && multiset(Entries(m))[e] == multiset(Entries(ex))[e]
  {
    var ex := ExportSpec(t, false, true, false);
    ExportHoldsSelectedEntries(t, false, true, false, e);
    if ex.nCols == 1 {
      var cs := SelectedColumns(t, Selected(t.domain, false, true, false));
      BuiltColumnsInRange(cs, |cs|);
      GetColOfOneColumn(ex, e);
    }
  }
}
