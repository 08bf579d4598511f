/**
 * The tables of Orange/tests/sql/test_filter.py and the rows each filter is
 * expected to keep there, stated as lemmas about the RowFilters model.
 */
module RowFilterExamples {
  import opened Wrappers
  import opened RowFilters
  import Schema
  import Text

  function N(x: real): Cell { Some(Num(x)) }
  function S(s: string): Cell { Some(Str(s)) }

  const Col0 := Schema.Variable("col0", Schema.Continuous, None)
  const Col1 := Schema.Variable("col1", Schema.Continuous, None)
  const Col2 := Schema.Variable("col2", Schema.Continuous, None)
  const Col3 := Schema.Variable("col3", Schema.Continuous, None)

  /** Four continuous attributes and a discrete class, as in the `IsDefined` and `HasClass` tests. */
  const OneClass := Schema.Domain([Col0, Col1, Col2, Col3], [Schema.Variable("col4", Schema.Discrete(["f", "m"]), None)], [])

  const D1 := Row([N(1.0), N(2.0), N(3.0), None, S("m")], [])
  const D2 := Row([N(2.0), N(3.0), N(1.0), N(4.0), S("f")], [])
  const D3 := Row([None, None, None, None, None], [])
  const D4 := Row([N(7.0), None, N(3.0), None, S("f")], [])

  /** The one-row result of filtering `x`: the row when the filter keeps it, nothing otherwise. */
  function Kept(d: Schema.Domain, f: Filter, x: Row): seq<Row> {
    if Keeps(d, f, x) then [x] else []
  }

  /** Filtering a row in front of others: the row, when kept, then the filtered rest. */
  lemma SelectCons(d: Schema.Domain, f: Filter, x: Row, rest: seq<Row>)
    ensures Select(d, f, [x] + rest) == Kept(d, f, x) + Select(d, f, rest)
  {
    assert ([x] + rest)[1..] == rest;
  }

  lemma SelectFour(d: Schema.Domain, f: Filter, a: Row, b: Row, c: Row, e: Row)
    ensures Select(d, f, [a, b, c, e]) == Kept(d, f, a) + (Kept(d, f, b) + (Kept(d, f, c) + Kept(d, f, e)))
  {
    assert Select(d, f, [e]) == Kept(d, f, e) by {
      SelectCons(d, f, e, []);
      assert [e] == [e] + [];
      assert Kept(d, f, e) + [] == Kept(d, f, e);
    }
    assert Select(d, f, [c, e]) == Kept(d, f, c) + Kept(d, f, e) by {
      SelectCons(d, f, c, [e]);
      assert [c, e] == [c] + [e];
    }
    assert Select(d, f, [b, c, e]) == Kept(d, f, b) + (Kept(d, f, c) + Kept(d, f, e)) by {
      SelectCons(d, f, b, [c, e]);
      assert [b, c, e] == [b] + [c, e];
    }
    SelectCons(d, f, a, [b, c, e]);
    assert [a, b, c, e] == [a] + [b, c, e];
  }

  lemma IsDefinedOnAllColumns()
    ensures Select(OneClass, IsDefined(None, false), [D1, D2, D3, D4]) == [D2]
    ensures Select(OneClass, IsDefined(None, true), [D1, D2, D3, D4]) == [D1, D3, D4]
  {
    SelectFour(OneClass, IsDefined(None, false), D1, D2, D3, D4);
    SelectFour(OneClass, IsDefined(None, true), D1, D2, D3, D4);
    assert D1.values[3].None? && D3.values[0].None? && D4.values[1].None?;
  }

  lemma IsDefinedOnSelectedColumns()
    ensures Select(OneClass, IsDefined(Some([0]), false), [D1, D2, D3, D4]) == [D1, D2, D4]
    ensures Select(OneClass, IsDefined(Some([4]), true), [D1, D2, D3, D4]) == [D3]
  {
    SelectFour(OneClass, IsDefined(Some([0]), false), D1, D2, D3, D4);
    SelectFour(OneClass, IsDefined(Some([4]), true), D1, D2, D3, D4);
    assert CellAt(D1, [0][0]).Some? && CellAt(D2, [0][0]).Some? && CellAt(D3, [0][0]).None? && CellAt(D4, [0][0]).Some?;
    assert CellAt(D1, [4][0]).Some? && CellAt(D2, [4][0]).Some? && CellAt(D3, [4][0]).None? && CellAt(D4, [4][0]).Some?;
  }

  /** A filter of one condition keeps exactly the rows that pass that condition. */
  lemma KeepsOneCondition(d: Schema.Domain, c: Condition, row: Row)
    ensures Keeps(d, Values([c], true, false), row) == Passes(row, c)
  {
    assert [c][0] == c;
  }

  const H3 := Row([N(5.0), None, None, None, None], [])

  lemma HasClassExamples()
    ensures Select(OneClass, HasClass(false), [D1, D2, H3, D4]) == [D1, D2, D4]
    ensures Select(OneClass, HasClass(true), [D1, D2, H3, D4]) == [H3]
  {
    SelectFour(OneClass, HasClass(false), D1, D2, H3, D4);
    SelectFour(OneClass, HasClass(true), D1, D2, H3, D4);
    assert H3.values[4].None?;
  }

  /** Three continuous attributes and two discrete classes, as in the `SameValue` and `Values` tests. */
  const TwoClasses := Schema.Domain([Col0, Col1, Col2],
                                    [Schema.Variable("col3", Schema.Discrete(["a", "b"]), None),
                                     Schema.Variable("col4", Schema.Discrete(["f", "m"]), None)], [])

  const S1 := Row([N(1.0), N(2.0), N(3.0), S("a"), S("m")], [])
  const S2 := Row([N(2.0), None, N(1.0), S("a"), S("f")], [])
  const S3 := Row([None, N(3.0), N(1.0), S("b"), None], [])
  const S4 := Row([N(2.0), N(2.0), N(3.0), S("b"), S("f")], [])

  lemma SameValueExamples()
    ensures Select(TwoClasses, SameValue(0, N(1.0), false), [S1, S2, S3, S4]) == [S1]
    ensures Select(TwoClasses, SameValue(1, N(2.0), false), [S1, S2, S3, S4]) == [S1, S4]
    ensures Select(TwoClasses, SameValue(1, None, false), [S1, S2, S3, S4]) == [S2]
    ensures Select(TwoClasses, SameValue(0, N(1.0), true), [S1, S2, S3, S4]) == [S2, S3, S4]
    ensures Select(TwoClasses, SameValue(3, S("a"), false), [S1, S2, S3, S4]) == [S1, S2]
    ensures Select(TwoClasses, SameValue(4, None, false), [S1, S2, S3, S4]) == [S3]
    ensures Select(TwoClasses, SameValue(4, S("m"), false), [S1, S2, S3, S4]) == [S1]
    ensures Select(TwoClasses, SameValue(3, S("a"), true), [S1, S2, S3, S4]) == [S3, S4]
  {
    SelectFour(TwoClasses, SameValue(0, N(1.0), false), S1, S2, S3, S4);
    SelectFour(TwoClasses, SameValue(1, N(2.0), false), S1, S2, S3, S4);
    SelectFour(TwoClasses, SameValue(1, None, false), S1, S2, S3, S4);
    SelectFour(TwoClasses, SameValue(0, N(1.0), true), S1, S2, S3, S4);
    SelectFour(TwoClasses, SameValue(3, S("a"), false), S1, S2, S3, S4);
    SelectFour(TwoClasses, SameValue(4, None, false), S1, S2, S3, S4);
    SelectFour(TwoClasses, SameValue(4, S("m"), false), S1, S2, S3, S4);
    SelectFour(TwoClasses, SameValue(3, S("a"), true), S1, S2, S3, S4);
  }

  lemma ValuesDiscrete()
    ensures Select(TwoClasses, Values([FilterDiscrete(3, Some([Str("a")]))], true, false), [S1, S2, S3, S4]) == [S1, S2]
  {
    var c := FilterDiscrete(3, Some([Str("a")]));
    SelectFour(TwoClasses, Values([c], true, false), S1, S2, S3, S4);
    KeepsOneCondition(TwoClasses, c, S1);
    KeepsOneCondition(TwoClasses, c, S2);
    KeepsOneCondition(TwoClasses, c, S3);
    KeepsOneCondition(TwoClasses, c, S4);
  }

  lemma ValuesDiscreteSeveral()
    ensures Select(TwoClasses, Values([FilterDiscrete(3, Some([Str("a"), Str("b")]))], true, false), [S1, S2, S3, S4]) == [S1, S2, S3, S4]
  {
    var c := FilterDiscrete(3, Some([Str("a"), Str("b")]));
    SelectFour(TwoClasses, Values([c], true, false), S1, S2, S3, S4);
    KeepsOneCondition(TwoClasses, c, S1);
    KeepsOneCondition(TwoClasses, c, S2);
    KeepsOneCondition(TwoClasses, c, S3);
    KeepsOneCondition(TwoClasses, c, S4);
  }

  lemma ValuesDiscreteAny()
    ensures Select(TwoClasses, Values([FilterDiscrete(3, None)], true, false), [S1, S2, S3, S4]) == [S1, S2, S3, S4]
  {
    var c := FilterDiscrete(3, None);
    SelectFour(TwoClasses, Values([c], true, false), S1, S2, S3, S4);
    KeepsOneCondition(TwoClasses, c, S1);
    KeepsOneCondition(TwoClasses, c, S2);
    KeepsOneCondition(TwoClasses, c, S3);
    KeepsOneCondition(TwoClasses, c, S4);
  }

  lemma ValuesEqual()
    ensures Select(TwoClasses, Values([FilterContinuous(0, NumOp.Equal, 1.0, 0.0)], true, false), [S1, S2, S3, S4]) == [S1]
  {
    var c := FilterContinuous(0, NumOp.Equal, 1.0, 0.0);
    SelectFour(TwoClasses, Values([c], true, false), S1, S2, S3, S4);
    KeepsOneCondition(TwoClasses, c, S1);
    KeepsOneCondition(TwoClasses, c, S2);
    KeepsOneCondition(TwoClasses, c, S3);
    KeepsOneCondition(TwoClasses, c, S4);
  }

  lemma ValuesNotEqual()
    ensures Select(TwoClasses, Values([FilterContinuous(0, NumOp.NotEqual, 1.0, 0.0)], true, false), [S1, S2, S3, S4]) == [S2, S3, S4]
  {
    var c := FilterContinuous(0, NumOp.NotEqual, 1.0, 0.0);
    SelectFour(TwoClasses, Values([c], true, false), S1, S2, S3, S4);
    KeepsOneCondition(TwoClasses, c, S1);
    KeepsOneCondition(TwoClasses, c, S2);
    KeepsOneCondition(TwoClasses, c, S3);
    KeepsOneCondition(TwoClasses, c, S4);
  }

  lemma ValuesLess()
    ensures Select(TwoClasses, Values([FilterContinuous(0, NumOp.Less, 2.0, 0.0)], true, false), [S1, S2, S3, S4]) == [S1]
  {
    var c := FilterContinuous(0, NumOp.Less, 2.0, 0.0);
    SelectFour(TwoClasses, Values([c], true, false), S1, S2, S3, S4);
    KeepsOneCondition(TwoClasses, c, S1);
    KeepsOneCondition(TwoClasses, c, S2);
    KeepsOneCondition(TwoClasses, c, S3);
    KeepsOneCondition(TwoClasses, c, S4);
  }

  lemma ValuesLessEqual()
    ensures Select(TwoClasses, Values([FilterContinuous(0, NumOp.LessEqual, 2.0, 0.0)], true, false), [S1, S2, S3, S4]) == [S1, S2, S4]
  {
    var c := FilterContinuous(0, NumOp.LessEqual, 2.0, 0.0);
    SelectFour(TwoClasses, Values([c], true, false), S1, S2, S3, S4);
    KeepsOneCondition(TwoClasses, c, S1);
    KeepsOneCondition(TwoClasses, c, S2);
    KeepsOneCondition(TwoClasses, c, S3);
    KeepsOneCondition(TwoClasses, c, S4);
  }

  lemma ValuesGreater()
    ensures Select(TwoClasses, Values([FilterContinuous(0, NumOp.Greater, 1.0, 0.0)], true, false), [S1, S2, S3, S4]) == [S2, S4]
  {
    var c := FilterContinuous(0, NumOp.Greater, 1.0, 0.0);
    SelectFour(TwoClasses, Values([c], true, false), S1, S2, S3, S4);
    KeepsOneCondition(TwoClasses, c, S1);
    KeepsOneCondition(TwoClasses, c, S2);
    KeepsOneCondition(TwoClasses, c, S3);
    KeepsOneCondition(TwoClasses, c, S4);
  }

  lemma ValuesGreaterEqual()
    ensures Select(TwoClasses, Values([FilterContinuous(0, NumOp.GreaterEqual, 1.0, 0.0)], true, false), [S1, S2, S3, S4]) == [S1, S2, S4]
  {
    var c := FilterContinuous(0, NumOp.GreaterEqual, 1.0, 0.0);
    SelectFour(TwoClasses, Values([c], true, false), S1, S2, S3, S4);
    KeepsOneCondition(TwoClasses, c, S1);
    KeepsOneCondition(TwoClasses, c, S2);
    KeepsOneCondition(TwoClasses, c, S3);
    KeepsOneCondition(TwoClasses, c, S4);
  }

  lemma ValuesBetween()
    ensures Select(TwoClasses, Values([FilterContinuous(0, NumOp.Between, 1.0, 2.0)], true, false), [S1, S2, S3, S4]) == [S1, S2, S4]
  {
    var c := FilterContinuous(0, NumOp.Between, 1.0, 2.0);
    SelectFour(TwoClasses, Values([c], true, false), S1, S2, S3, S4);
    KeepsOneCondition(TwoClasses, c, S1);
    KeepsOneCondition(TwoClasses, c, S2);
    KeepsOneCondition(TwoClasses, c, S3);
    KeepsOneCondition(TwoClasses, c, S4);
  }

  lemma ValuesOutside()
    ensures Select(TwoClasses, Values([FilterContinuous(0, NumOp.Outside, 2.0, 3.0)], true, false), [S1, S2, S3, S4]) == [S1]
  {
    var c := FilterContinuous(0, NumOp.Outside, 2.0, 3.0);
    SelectFour(TwoClasses, Values([c], true, false), S1, S2, S3, S4);
    KeepsOneCondition(TwoClasses, c, S1);
    KeepsOneCondition(TwoClasses, c, S2);
    KeepsOneCondition(TwoClasses, c, S3);
    KeepsOneCondition(TwoClasses, c, S4);
  }

  lemma ValuesDefined()
    ensures Select(TwoClasses, Values([FilterContinuous(1, NumOp.Defined, 0.0, 0.0)], true, false), [S1, S2, S3, S4]) == [S1, S3, S4]
  {
    var c := FilterContinuous(1, NumOp.Defined, 0.0, 0.0);
    SelectFour(TwoClasses, Values([c], true, false), S1, S2, S3, S4);
    KeepsOneCondition(TwoClasses, c, S1);
    KeepsOneCondition(TwoClasses, c, S2);
    KeepsOneCondition(TwoClasses, c, S3);
    KeepsOneCondition(TwoClasses, c, S4);
  }

  /** One string meta, as in the `FilterString` tests; a sample of its words and a missing value. */
  const Words := Schema.Domain([], [], [Schema.Variable("col0", Schema.StringKind, None)])

  function W(s: string): Row { Row([], [S(s)]) }
  const Missing := Row([], [None])

  const BlockA := [W("Lorem"), W("in"), W("Donec"), W("et")]
  const BlockB := [W("amet,"), W("vulputate"), W("lacus"), Missing]

  lemma LowerWords()
    ensures Text.Lower("Lorem") == "lorem" && Text.Lower("in") == "in" && Text.Lower("Donec") == "donec"
    ensures Text.Lower("et") == "et" && Text.Lower("amet,") == "amet," && Text.Lower("vulputate") == "vulputate"
    ensures Text.Lower("lacus") == "lacus" && Text.Lower("In") == "in" && Text.Lower("donec") == "donec"
    ensures Text.Lower("Et") == "et" && Text.Lower("D") == "d" && Text.Lower("S") == "s"
    ensures Text.Lower("eT") == "et"
    ensures LowerAll(["Et", "In"]) == ["et", "in"] && LowerAll(["donec"]) == ["donec"]
  {
    assert Text.Lower("eT") == "et";
    assert Text.Lower("Lorem") == "lorem";
    assert Text.Lower("Donec") == "donec";
    assert Text.Lower("In") == "in";
    assert Text.Lower("Et") == "et";
    assert Text.Lower("D") == "d";
    assert Text.Lower("S") == "s";
  }

  lemma StringDefinedRows()
    ensures Passes(W("Lorem"), FilterString(-1, TextOp.Defined, "", "", true)) && Passes(W("in"), FilterString(-1, TextOp.Defined, "", "", true)) && Passes(W("Donec"), FilterString(-1, TextOp.Defined, "", "", true)) && Passes(W("et"), FilterString(-1, TextOp.Defined, "", "", true))
    ensures Passes(W("amet,"), FilterString(-1, TextOp.Defined, "", "", true)) && Passes(W("vulputate"), FilterString(-1, TextOp.Defined, "", "", true)) && Passes(W("lacus"), FilterString(-1, TextOp.Defined, "", "", true)) && !Passes(Missing, FilterString(-1, TextOp.Defined, "", "", true))
  {
  }

  lemma StringDefined()
    ensures Select(Words, Values([FilterString(-1, TextOp.Defined, "", "", true)], true, false), BlockA + BlockB)
            == [W("Lorem"), W("in"), W("Donec"), W("et"), W("amet,"), W("vulputate"), W("lacus")]
  {
    var c := FilterString(-1, TextOp.Defined, "", "", true);
    var f := Values([c], true, false);
    SelectAppend(Words, f, BlockA, BlockB);
    SelectFour(Words, f, W("Lorem"), W("in"), W("Donec"), W("et"));
    SelectFour(Words, f, W("amet,"), W("vulputate"), W("lacus"), Missing);
    KeepsOneCondition(Words, c, W("Lorem"));
    KeepsOneCondition(Words, c, W("in"));
    KeepsOneCondition(Words, c, W("Donec"));
    KeepsOneCondition(Words, c, W("et"));
    KeepsOneCondition(Words, c, W("amet,"));
    KeepsOneCondition(Words, c, W("vulputate"));
    KeepsOneCondition(Words, c, W("lacus"));
    KeepsOneCondition(Words, c, Missing);
    StringDefinedRows();
  }

  lemma StringEqualRows()
    ensures !Passes(W("Lorem"), FilterString(-1, TextOp.Equal, "in", "", true)) && Passes(W("in"), FilterString(-1, TextOp.Equal, "in", "", true)) && !Passes(W("Donec"), FilterString(-1, TextOp.Equal, "in", "", true)) && !Passes(W("et"), FilterString(-1, TextOp.Equal, "in", "", true))
    ensures !Passes(W("amet,"), FilterString(-1, TextOp.Equal, "in", "", true)) && !Passes(W("vulputate"), FilterString(-1, TextOp.Equal, "in", "", true)) && !Passes(W("lacus"), FilterString(-1, TextOp.Equal, "in", "", true)) && !Passes(Missing, FilterString(-1, TextOp.Equal, "in", "", true))
  {
  }

  lemma StringEqual()
    ensures Select(Words, Values([FilterString(-1, TextOp.Equal, "in", "", true)], true, false), BlockA + BlockB)
            == [W("in")]
  {
    var c := FilterString(-1, TextOp.Equal, "in", "", true);
    var f := Values([c], true, false);
    SelectAppend(Words, f, BlockA, BlockB);
    SelectFour(Words, f, W("Lorem"), W("in"), W("Donec"), W("et"));
    SelectFour(Words, f, W("amet,"), W("vulputate"), W("lacus"), Missing);
    KeepsOneCondition(Words, c, W("Lorem"));
    KeepsOneCondition(Words, c, W("in"));
    KeepsOneCondition(Words, c, W("Donec"));
    KeepsOneCondition(Words, c, W("et"));
    KeepsOneCondition(Words, c, W("amet,"));
    KeepsOneCondition(Words, c, W("vulputate"));
    KeepsOneCondition(Words, c, W("lacus"));
    KeepsOneCondition(Words, c, Missing);
    StringEqualRows();
  }

  lemma StringEqualFoldedLiteralRows()
    ensures !Passes(W("Lorem"), FilterString(-1, TextOp.Equal, "In", "", false)) && Passes(W("in"), FilterString(-1, TextOp.Equal, "In", "", false)) && !Passes(W("Donec"), FilterString(-1, TextOp.Equal, "In", "", false)) && !Passes(W("et"), FilterString(-1, TextOp.Equal, "In", "", false))
    ensures !Passes(W("amet,"), FilterString(-1, TextOp.Equal, "In", "", false)) && !Passes(W("vulputate"), FilterString(-1, TextOp.Equal, "In", "", false)) && !Passes(W("lacus"), FilterString(-1, TextOp.Equal, "In", "", false)) && !Passes(Missing, FilterString(-1, TextOp.Equal, "In", "", false))
  {
    LowerWords();
  }

  lemma StringEqualFoldedLiteral()
    ensures Select(Words, Values([FilterString(-1, TextOp.Equal, "In", "", false)], true, false), BlockA + BlockB)
            == [W("in")]
  {
    var c := FilterString(-1, TextOp.Equal, "In", "", false);
    var f := Values([c], true, false);
    SelectAppend(Words, f, BlockA, BlockB);
    SelectFour(Words, f, W("Lorem"), W("in"), W("Donec"), W("et"));
    SelectFour(Words, f, W("amet,"), W("vulputate"), W("lacus"), Missing);
    KeepsOneCondition(Words, c, W("Lorem"));
    KeepsOneCondition(Words, c, W("in"));
    KeepsOneCondition(Words, c, W("Donec"));
    KeepsOneCondition(Words, c, W("et"));
    KeepsOneCondition(Words, c, W("amet,"));
    KeepsOneCondition(Words, c, W("vulputate"));
    KeepsOneCondition(Words, c, W("lacus"));
    KeepsOneCondition(Words, c, Missing);
    StringEqualFoldedLiteralRows();
  }

  lemma StringEqualFoldedDataRows()
    ensures !Passes(W("Lorem"), FilterString(-1, TextOp.Equal, "donec", "", false)) && !Passes(W("in"), FilterString(-1, TextOp.Equal, "donec", "", false)) && Passes(W("Donec"), FilterString(-1, TextOp.Equal, "donec", "", false)) && !Passes(W("et"), FilterString(-1, TextOp.Equal, "donec", "", false))
    ensures !Passes(W("amet,"), FilterString(-1, TextOp.Equal, "donec", "", false)) && !Passes(W("vulputate"), FilterString(-1, TextOp.Equal, "donec", "", false)) && !Passes(W("lacus"), FilterString(-1, TextOp.Equal, "donec", "", false)) && !Passes(Missing, FilterString(-1, TextOp.Equal, "donec", "", false))
  {
    LowerWords();
  }

  lemma StringEqualFoldedData()
    ensures Select(Words, Values([FilterString(-1, TextOp.Equal, "donec", "", false)], true, false), BlockA + BlockB)
            == [W("Donec")]
  {
    var c := FilterString(-1, TextOp.Equal, "donec", "", false);
    var f := Values([c], true, false);
    SelectAppend(Words, f, BlockA, BlockB);
    SelectFour(Words, f, W("Lorem"), W("in"), W("Donec"), W("et"));
    SelectFour(Words, f, W("amet,"), W("vulputate"), W("lacus"), Missing);
    KeepsOneCondition(Words, c, W("Lorem"));
    KeepsOneCondition(Words, c, W("in"));
    KeepsOneCondition(Words, c, W("Donec"));
    KeepsOneCondition(Words, c, W("et"));
    KeepsOneCondition(Words, c, W("amet,"));
    KeepsOneCondition(Words, c, W("vulputate"));
    KeepsOneCondition(Words, c, W("lacus"));
    KeepsOneCondition(Words, c, Missing);
    StringEqualFoldedDataRows();
  }

  lemma StringNotEqualRows()
    ensures Passes(W("Lorem"), FilterString(-1, TextOp.NotEqual, "in", "", true)) && !Passes(W("in"), FilterString(-1, TextOp.NotEqual, "in", "", true)) && Passes(W("Donec"), FilterString(-1, TextOp.NotEqual, "in", "", true)) && Passes(W("et"), FilterString(-1, TextOp.NotEqual, "in", "", true))
    ensures Passes(W("amet,"), FilterString(-1, TextOp.NotEqual, "in", "", true)) && Passes(W("vulputate"), FilterString(-1, TextOp.NotEqual, "in", "", true)) && Passes(W("lacus"), FilterString(-1, TextOp.NotEqual, "in", "", true)) && Passes(Missing, FilterString(-1, TextOp.NotEqual, "in", "", true))
  {
  }

  lemma StringNotEqual()
    ensures Select(Words, Values([FilterString(-1, TextOp.NotEqual, "in", "", true)], true, false), BlockA + BlockB)
            == [W("Lorem"), W("Donec"), W("et"), W("amet,"), W("vulputate"), W("lacus"), Missing]
  {
    var c := FilterString(-1, TextOp.NotEqual, "in", "", true);
    var f := Values([c], true, false);
    SelectAppend(Words, f, BlockA, BlockB);
    SelectFour(Words, f, W("Lorem"), W("in"), W("Donec"), W("et"));
    SelectFour(Words, f, W("amet,"), W("vulputate"), W("lacus"), Missing);
    KeepsOneCondition(Words, c, W("Lorem"));
    KeepsOneCondition(Words, c, W("in"));
    KeepsOneCondition(Words, c, W("Donec"));
    KeepsOneCondition(Words, c, W("et"));
    KeepsOneCondition(Words, c, W("amet,"));
    KeepsOneCondition(Words, c, W("vulputate"));
    KeepsOneCondition(Words, c, W("lacus"));
    KeepsOneCondition(Words, c, Missing);
    StringNotEqualRows();
  }

  lemma StringLessRows()
    ensures !Passes(W("Lorem"), FilterString(-1, TextOp.Less, "A", "", true)) && !Passes(W("in"), FilterString(-1, TextOp.Less, "A", "", true)) && !Passes(W("Donec"), FilterString(-1, TextOp.Less, "A", "", true)) && !Passes(W("et"), FilterString(-1, TextOp.Less, "A", "", true))
    ensures !Passes(W("amet,"), FilterString(-1, TextOp.Less, "A", "", true)) && !Passes(W("vulputate"), FilterString(-1, TextOp.Less, "A", "", true)) && !Passes(W("lacus"), FilterString(-1, TextOp.Less, "A", "", true)) && !Passes(Missing, FilterString(-1, TextOp.Less, "A", "", true))
  {
  }

  lemma StringLess()
    ensures Select(Words, Values([FilterString(-1, TextOp.Less, "A", "", true)], true, false), BlockA + BlockB)
            == []
  {
    var c := FilterString(-1, TextOp.Less, "A", "", true);
    var f := Values([c], true, false);
    SelectAppend(Words, f, BlockA, BlockB);
    SelectFour(Words, f, W("Lorem"), W("in"), W("Donec"), W("et"));
    SelectFour(Words, f, W("amet,"), W("vulputate"), W("lacus"), Missing);
    KeepsOneCondition(Words, c, W("Lorem"));
    KeepsOneCondition(Words, c, W("in"));
    KeepsOneCondition(Words, c, W("Donec"));
    KeepsOneCondition(Words, c, W("et"));
    KeepsOneCondition(Words, c, W("amet,"));
    KeepsOneCondition(Words, c, W("vulputate"));
    KeepsOneCondition(Words, c, W("lacus"));
    KeepsOneCondition(Words, c, Missing);
    StringLessRows();
  }

  lemma StringLessFoldedRows()
    ensures !Passes(W("Lorem"), FilterString(-1, TextOp.Less, "In", "", false)) && !Passes(W("in"), FilterString(-1, TextOp.Less, "In", "", false)) && Passes(W("Donec"), FilterString(-1, TextOp.Less, "In", "", false)) && Passes(W("et"), FilterString(-1, TextOp.Less, "In", "", false))
    ensures Passes(W("amet,"), FilterString(-1, TextOp.Less, "In", "", false)) && !Passes(W("vulputate"), FilterString(-1, TextOp.Less, "In", "", false)) && !Passes(W("lacus"), FilterString(-1, TextOp.Less, "In", "", false)) && !Passes(Missing, FilterString(-1, TextOp.Less, "In", "", false))
  {
    LowerWords();
  }

  lemma StringLessFolded()
    ensures Select(Words, Values([FilterString(-1, TextOp.Less, "In", "", false)], true, false), BlockA + BlockB)
            == [W("Donec"), W("et"), W("amet,")]
  {
    var c := FilterString(-1, TextOp.Less, "In", "", false);
    var f := Values([c], true, false);
    SelectAppend(Words, f, BlockA, BlockB);
    SelectFour(Words, f, W("Lorem"), W("in"), W("Donec"), W("et"));
    SelectFour(Words, f, W("amet,"), W("vulputate"), W("lacus"), Missing);
    KeepsOneCondition(Words, c, W("Lorem"));
    KeepsOneCondition(Words, c, W("in"));
    KeepsOneCondition(Words, c, W("Donec"));
    KeepsOneCondition(Words, c, W("et"));
    KeepsOneCondition(Words, c, W("amet,"));
    KeepsOneCondition(Words, c, W("vulputate"));
    KeepsOneCondition(Words, c, W("lacus"));
    KeepsOneCondition(Words, c, Missing);
    StringLessFoldedRows();
  }

  lemma StringGreaterRows()
    ensures !Passes(W("Lorem"), FilterString(-1, TextOp.Greater, "volutpat", "", true)) && !Passes(W("in"), FilterString(-1, TextOp.Greater, "volutpat", "", true)) && !Passes(W("Donec"), FilterString(-1, TextOp.Greater, "volutpat", "", true)) && !Passes(W("et"), FilterString(-1, TextOp.Greater, "volutpat", "", true))
    ensures !Passes(W("amet,"), FilterString(-1, TextOp.Greater, "volutpat", "", true)) && Passes(W("vulputate"), FilterString(-1, TextOp.Greater, "volutpat", "", true)) && !Passes(W("lacus"), FilterString(-1, TextOp.Greater, "volutpat", "", true)) && !Passes(Missing, FilterString(-1, TextOp.Greater, "volutpat", "", true))
  {
  }

  lemma StringGreater()
    ensures Select(Words, Values([FilterString(-1, TextOp.Greater, "volutpat", "", true)], true, false), BlockA + BlockB)
            == [W("vulputate")]
  {
    var c := FilterString(-1, TextOp.Greater, "volutpat", "", true);
    var f := Values([c], true, false);
    SelectAppend(Words, f, BlockA, BlockB);
    SelectFour(Words, f, W("Lorem"), W("in"), W("Donec"), W("et"));
    SelectFour(Words, f, W("amet,"), W("vulputate"), W("lacus"), Missing);
    KeepsOneCondition(Words, c, W("Lorem"));
    KeepsOneCondition(Words, c, W("in"));
    KeepsOneCondition(Words, c, W("Donec"));
    KeepsOneCondition(Words, c, W("et"));
    KeepsOneCondition(Words, c, W("amet,"));
    KeepsOneCondition(Words, c, W("vulputate"));
    KeepsOneCondition(Words, c, W("lacus"));
    KeepsOneCondition(Words, c, Missing);
    StringGreaterRows();
  }

  lemma StringBetweenRows()
    ensures !Passes(W("Lorem"), FilterString(-1, TextOp.Between, "a", "c", true)) && !Passes(W("in"), FilterString(-1, TextOp.Between, "a", "c", true)) && !Passes(W("Donec"), FilterString(-1, TextOp.Between, "a", "c", true)) && !Passes(W("et"), FilterString(-1, TextOp.Between, "a", "c", true))
    ensures Passes(W("amet,"), FilterString(-1, TextOp.Between, "a", "c", true)) && !Passes(W("vulputate"), FilterString(-1, TextOp.Between, "a", "c", true)) && !Passes(W("lacus"), FilterString(-1, TextOp.Between, "a", "c", true)) && !Passes(Missing, FilterString(-1, TextOp.Between, "a", "c", true))
  {
  }

  lemma StringBetween()
    ensures Select(Words, Values([FilterString(-1, TextOp.Between, "a", "c", true)], true, false), BlockA + BlockB)
            == [W("amet,")]
  {
    var c := FilterString(-1, TextOp.Between, "a", "c", true);
    var f := Values([c], true, false);
    SelectAppend(Words, f, BlockA, BlockB);
    SelectFour(Words, f, W("Lorem"), W("in"), W("Donec"), W("et"));
    SelectFour(Words, f, W("amet,"), W("vulputate"), W("lacus"), Missing);
    KeepsOneCondition(Words, c, W("Lorem"));
    KeepsOneCondition(Words, c, W("in"));
    KeepsOneCondition(Words, c, W("Donec"));
    KeepsOneCondition(Words, c, W("et"));
    KeepsOneCondition(Words, c, W("amet,"));
    KeepsOneCondition(Words, c, W("vulputate"));
    KeepsOneCondition(Words, c, W("lacus"));
    KeepsOneCondition(Words, c, Missing);
    StringBetweenRows();
  }

  lemma StringContainsText0()
    ensures !Text.Contains("Lorem", "et")
  {
    assert "m"[1..] == "";
    Text.MismatchNotPrefix("em", "et", 1);
    assert "em"[1..] == "m";
    Text.MismatchNotPrefix("rem", "et", 0);
    assert "rem"[1..] == "em";
    Text.MismatchNotPrefix("orem", "et", 0);
    assert "orem"[1..] == "rem";
    Text.MismatchNotPrefix("Lorem", "et", 0);
    assert "Lorem"[1..] == "orem";
  }

  lemma StringContainsText1()
    ensures !Text.Contains("in", "et")
  {
    assert "n"[1..] == "";
    Text.MismatchNotPrefix("in", "et", 0);
    assert "in"[1..] == "n";
  }

  lemma StringContainsText2()
    ensures !Text.Contains("Donec", "et")
  {
    assert "c"[1..] == "";
    Text.MismatchNotPrefix("ec", "et", 1);
    assert "ec"[1..] == "c";
    Text.MismatchNotPrefix("nec", "et", 0);
    assert "nec"[1..] == "ec";
    Text.MismatchNotPrefix("onec", "et", 0);
    assert "onec"[1..] == "nec";
    Text.MismatchNotPrefix("Donec", "et", 0);
    assert "Donec"[1..] == "onec";
  }

  lemma StringContainsText3()
    ensures !Text.Contains("vulputate", "et")
  {
    assert "e"[1..] == "";
    Text.MismatchNotPrefix("te", "et", 0);
    assert "te"[1..] == "e";
    Text.MismatchNotPrefix("ate", "et", 0);
    assert "ate"[1..] == "te";
    Text.MismatchNotPrefix("tate", "et", 0);
    assert "tate"[1..] == "ate";
    Text.MismatchNotPrefix("utate", "et", 0);
    assert "utate"[1..] == "tate";
    Text.MismatchNotPrefix("putate", "et", 0);
    assert "putate"[1..] == "utate";
    Text.MismatchNotPrefix("lputate", "et", 0);
    assert "lputate"[1..] == "putate";
    Text.MismatchNotPrefix("ulputate", "et", 0);
    assert "ulputate"[1..] == "lputate";
    Text.MismatchNotPrefix("vulputate", "et", 0);
    assert "vulputate"[1..] == "ulputate";
  }

  lemma StringContainsText4()
    ensures !Text.Contains("lacus", "et")
  {
    assert "s"[1..] == "";
    Text.MismatchNotPrefix("us", "et", 0);
    assert "us"[1..] == "s";
    Text.MismatchNotPrefix("cus", "et", 0);
    assert "cus"[1..] == "us";
    Text.MismatchNotPrefix("acus", "et", 0);
    assert "acus"[1..] == "cus";
    Text.MismatchNotPrefix("lacus", "et", 0);
    assert "lacus"[1..] == "acus";
  }

  lemma EtOccurs()
    ensures Text.Contains("et", "et") && Text.Contains("amet,", "et")
  {
    assert Text.StartsWith("et", "et");
    assert "amet,"[1..] == "met,";
    assert "met,"[1..] == "et,";
    assert Text.StartsWith("et,", "et");
  }

  /** A string condition on the meta column of a one-word row compares that word. */
  lemma WordPasses(w: string, op: TextOp, a: string, b: string, cs: bool)
    ensures Passes(W(w), FilterString(-1, op, a, b, cs)) == TextPasses(op, Some(Str(w)), a, b, cs)
  {
  }

  lemma StringContainsRows()
    ensures !Passes(W("Lorem"), FilterString(-1, TextOp.Contains, "et", "", true)) && !Passes(W("in"), FilterString(-1, TextOp.Contains, "et", "", true)) && !Passes(W("Donec"), FilterString(-1, TextOp.Contains, "et", "", true)) && Passes(W("et"), FilterString(-1, TextOp.Contains, "et", "", true))
    ensures Passes(W("amet,"), FilterString(-1, TextOp.Contains, "et", "", true)) && !Passes(W("vulputate"), FilterString(-1, TextOp.Contains, "et", "", true)) && !Passes(W("lacus"), FilterString(-1, TextOp.Contains, "et", "", true)) && !Passes(Missing, FilterString(-1, TextOp.Contains, "et", "", true))
  {
    assert !Passes(W("Lorem"), FilterString(-1, TextOp.Contains, "et", "", true)) by {
      StringContainsText0();
      WordPasses("Lorem", TextOp.Contains, "et", "", true);
    }
    assert !Passes(W("in"), FilterString(-1, TextOp.Contains, "et", "", true)) by {
      StringContainsText1();
      WordPasses("in", TextOp.Contains, "et", "", true);
    }
    assert !Passes(W("Donec"), FilterString(-1, TextOp.Contains, "et", "", true)) by {
      StringContainsText2();
      WordPasses("Donec", TextOp.Contains, "et", "", true);
    }
    assert Passes(W("et"), FilterString(-1, TextOp.Contains, "et", "", true)) by {
      EtOccurs();
      WordPasses("et", TextOp.Contains, "et", "", true);
    }
    assert Passes(W("amet,"), FilterString(-1, TextOp.Contains, "et", "", true)) by {
      EtOccurs();
      WordPasses("amet,", TextOp.Contains, "et", "", true);
    }
    assert !Passes(W("vulputate"), FilterString(-1, TextOp.Contains, "et", "", true)) by {
      StringContainsText3();
      WordPasses("vulputate", TextOp.Contains, "et", "", true);
    }
    assert !Passes(W("lacus"), FilterString(-1, TextOp.Contains, "et", "", true)) by {
      StringContainsText4();
      WordPasses("lacus", TextOp.Contains, "et", "", true);
    }
  }


  lemma StringContains()
    ensures Select(Words, Values([FilterString(-1, TextOp.Contains, "et", "", true)], true, false), BlockA + BlockB)
            == [W("et"), W("amet,")]
  {
    var c := FilterString(-1, TextOp.Contains, "et", "", true);
    var f := Values([c], true, false);
    SelectAppend(Words, f, BlockA, BlockB);
    SelectFour(Words, f, W("Lorem"), W("in"), W("Donec"), W("et"));
    SelectFour(Words, f, W("amet,"), W("vulputate"), W("lacus"), Missing);
    KeepsOneCondition(Words, c, W("Lorem"));
    KeepsOneCondition(Words, c, W("in"));
    KeepsOneCondition(Words, c, W("Donec"));
    KeepsOneCondition(Words, c, W("et"));
    KeepsOneCondition(Words, c, W("amet,"));
    KeepsOneCondition(Words, c, W("vulputate"));
    KeepsOneCondition(Words, c, W("lacus"));
    KeepsOneCondition(Words, c, Missing);
    StringContainsRows();
  }

  lemma StringContainsFoldedText0()
    ensures !Text.Contains("lorem", "et")
  {
    assert "m"[1..] == "";
    Text.MismatchNotPrefix("em", "et", 1);
    assert "em"[1..] == "m";
    Text.MismatchNotPrefix("rem", "et", 0);
    assert "rem"[1..] == "em";
    Text.MismatchNotPrefix("orem", "et", 0);
    assert "orem"[1..] == "rem";
    Text.MismatchNotPrefix("lorem", "et", 0);
    assert "lorem"[1..] == "orem";
  }

  lemma StringContainsFoldedText1()
    ensures !Text.Contains("in", "et")
  {
    assert "n"[1..] == "";
    Text.MismatchNotPrefix("in", "et", 0);
    assert "in"[1..] == "n";
  }

  lemma StringContainsFoldedText2()
    ensures !Text.Contains("donec", "et")
  {
    assert "c"[1..] == "";
    Text.MismatchNotPrefix("ec", "et", 1);
    assert "ec"[1..] == "c";
    Text.MismatchNotPrefix("nec", "et", 0);
    assert "nec"[1..] == "ec";
    Text.MismatchNotPrefix("onec", "et", 0);
    assert "onec"[1..] == "nec";
    Text.MismatchNotPrefix("donec", "et", 0);
    assert "donec"[1..] == "onec";
  }

  lemma StringContainsFoldedText3()
    ensures !Text.Contains("vulputate", "et")
  {
    assert "e"[1..] == "";
    Text.MismatchNotPrefix("te", "et", 0);
    assert "te"[1..] == "e";
    Text.MismatchNotPrefix("ate", "et", 0);
    assert "ate"[1..] == "te";
    Text.MismatchNotPrefix("tate", "et", 0);
    assert "tate"[1..] == "ate";
    Text.MismatchNotPrefix("utate", "et", 0);
    assert "utate"[1..] == "tate";
    Text.MismatchNotPrefix("putate", "et", 0);
    assert "putate"[1..] == "utate";
    Text.MismatchNotPrefix("lputate", "et", 0);
    assert "lputate"[1..] == "putate";
    Text.MismatchNotPrefix("ulputate", "et", 0);
    assert "ulputate"[1..] == "lputate";
    Text.MismatchNotPrefix("vulputate", "et", 0);
    assert "vulputate"[1..] == "ulputate";
  }

  lemma StringContainsFoldedText4()
    ensures !Text.Contains("lacus", "et")
  {
    assert "s"[1..] == "";
    Text.MismatchNotPrefix("us", "et", 0);
    assert "us"[1..] == "s";
    Text.MismatchNotPrefix("cus", "et", 0);
    assert "cus"[1..] == "us";
    Text.MismatchNotPrefix("acus", "et", 0);
    assert "acus"[1..] == "cus";
    Text.MismatchNotPrefix("lacus", "et", 0);
    assert "lacus"[1..] == "acus";
  }

  /** A case-insensitive `Contains "eT"` on a word tests its lower-case form for "et". */
  lemma FoldedContains(w: string, lw: string)
    requires Text.Lower(w) == lw
    ensures Passes(W(w), FilterString(-1, TextOp.Contains, "eT", "", false)) == Text.Contains(lw, "et")
  {
    assert Text.Lower("eT") == "et";
  }

  lemma StringContainsFoldedRows()
    ensures !Passes(W("Lorem"), FilterString(-1, TextOp.Contains, "eT", "", false)) && !Passes(W("in"), FilterString(-1, TextOp.Contains, "eT", "", false)) && !Passes(W("Donec"), FilterString(-1, TextOp.Contains, "eT", "", false)) && Passes(W("et"), FilterString(-1, TextOp.Contains, "eT", "", false))
    ensures Passes(W("amet,"), FilterString(-1, TextOp.Contains, "eT", "", false)) && !Passes(W("vulputate"), FilterString(-1, TextOp.Contains, "eT", "", false)) && !Passes(W("lacus"), FilterString(-1, TextOp.Contains, "eT", "", false)) && !Passes(Missing, FilterString(-1, TextOp.Contains, "eT", "", false))
  {
    LowerWords();
    assert !Passes(W("Lorem"), FilterString(-1, TextOp.Contains, "eT", "", false)) by {
      FoldedContains("Lorem", "lorem");
      StringContainsFoldedText0();
    }
    assert !Passes(W("in"), FilterString(-1, TextOp.Contains, "eT", "", false)) by {
      FoldedContains("in", "in");
      StringContainsFoldedText1();
    }
    assert !Passes(W("Donec"), FilterString(-1, TextOp.Contains, "eT", "", false)) by {
      FoldedContains("Donec", "donec");
      StringContainsFoldedText2();
    }
    assert Passes(W("et"), FilterString(-1, TextOp.Contains, "eT", "", false)) by {
      FoldedContains("et", "et");
      EtOccurs();
    }
    assert Passes(W("amet,"), FilterString(-1, TextOp.Contains, "eT", "", false)) by {
      FoldedContains("amet,", "amet,");
      EtOccurs();
    }
    assert !Passes(W("vulputate"), FilterString(-1, TextOp.Contains, "eT", "", false)) by {
      FoldedContains("vulputate", "vulputate");
      StringContainsFoldedText3();
    }
    assert !Passes(W("lacus"), FilterString(-1, TextOp.Contains, "eT", "", false)) by {
      FoldedContains("lacus", "lacus");
      StringContainsFoldedText4();
    }
  }

  lemma StringContainsFolded()
    ensures Select(Words, Values([FilterString(-1, TextOp.Contains, "eT", "", false)], true, false), BlockA + BlockB)
            == [W("et"), W("amet,")]
  {
    var c := FilterString(-1, TextOp.Contains, "eT", "", false);
    var f := Values([c], true, false);
    SelectAppend(Words, f, BlockA, BlockB);
    SelectFour(Words, f, W("Lorem"), W("in"), W("Donec"), W("et"));
    SelectFour(Words, f, W("amet,"), W("vulputate"), W("lacus"), Missing);
    KeepsOneCondition(Words, c, W("Lorem"));
    KeepsOneCondition(Words, c, W("in"));
    KeepsOneCondition(Words, c, W("Donec"));
    KeepsOneCondition(Words, c, W("et"));
    KeepsOneCondition(Words, c, W("amet,"));
    KeepsOneCondition(Words, c, W("vulputate"));
    KeepsOneCondition(Words, c, W("lacus"));
    KeepsOneCondition(Words, c, Missing);
    StringContainsFoldedRows();
  }

  lemma StringOutsideRows()
    ensures Passes(W("Lorem"), FilterString(-1, TextOp.Outside, "am", "di", true)) && Passes(W("in"), FilterString(-1, TextOp.Outside, "am", "di", true)) && Passes(W("Donec"), FilterString(-1, TextOp.Outside, "am", "di", true)) && Passes(W("et"), FilterString(-1, TextOp.Outside, "am", "di", true))
    ensures !Passes(W("amet,"), FilterString(-1, TextOp.Outside, "am", "di", true)) && Passes(W("vulputate"), FilterString(-1, TextOp.Outside, "am", "di", true)) && Passes(W("lacus"), FilterString(-1, TextOp.Outside, "am", "di", true)) && !Passes(Missing, FilterString(-1, TextOp.Outside, "am", "di", true))
  {
  }

  lemma StringOutside()
    ensures Select(Words, Values([FilterString(-1, TextOp.Outside, "am", "di", true)], true, false), BlockA + BlockB)
            == [W("Lorem"), W("in"), W("Donec"), W("et"), W("vulputate"), W("lacus")]
  {
    var c := FilterString(-1, TextOp.Outside, "am", "di", true);
    var f := Values([c], true, false);
    SelectAppend(Words, f, BlockA, BlockB);
    SelectFour(Words, f, W("Lorem"), W("in"), W("Donec"), W("et"));
    SelectFour(Words, f, W("amet,"), W("vulputate"), W("lacus"), Missing);
    KeepsOneCondition(Words, c, W("Lorem"));
    KeepsOneCondition(Words, c, W("in"));
    KeepsOneCondition(Words, c, W("Donec"));
    KeepsOneCondition(Words, c, W("et"));
    KeepsOneCondition(Words, c, W("amet,"));
    KeepsOneCondition(Words, c, W("vulputate"));
    KeepsOneCondition(Words, c, W("lacus"));
    KeepsOneCondition(Words, c, Missing);
    StringOutsideRows();
  }

  lemma StringStartsWithRows()
    ensures !Passes(W("Lorem"), FilterString(-1, TextOp.StartsWith, "D", "", true)) && !Passes(W("in"), FilterString(-1, TextOp.StartsWith, "D", "", true)) && Passes(W("Donec"), FilterString(-1, TextOp.StartsWith, "D", "", true)) && !Passes(W("et"), FilterString(-1, TextOp.StartsWith, "D", "", true))
    ensures !Passes(W("amet,"), FilterString(-1, TextOp.StartsWith, "D", "", true)) && !Passes(W("vulputate"), FilterString(-1, TextOp.StartsWith, "D", "", true)) && !Passes(W("lacus"), FilterString(-1, TextOp.StartsWith, "D", "", true)) && !Passes(Missing, FilterString(-1, TextOp.StartsWith, "D", "", true))
  {
    Text.MismatchNotPrefix("Lorem", "D", 0);
    Text.MismatchNotPrefix("in", "D", 0);
    Text.MismatchNotPrefix("et", "D", 0);
    Text.MismatchNotPrefix("amet,", "D", 0);
    Text.MismatchNotPrefix("vulputate", "D", 0);
    Text.MismatchNotPrefix("lacus", "D", 0);
  }

  lemma StringStartsWith()
    ensures Select(Words, Values([FilterString(-1, TextOp.StartsWith, "D", "", true)], true, false), BlockA + BlockB)
            == [W("Donec")]
  {
    var c := FilterString(-1, TextOp.StartsWith, "D", "", true);
    var f := Values([c], true, false);
    SelectAppend(Words, f, BlockA, BlockB);
    SelectFour(Words, f, W("Lorem"), W("in"), W("Donec"), W("et"));
    SelectFour(Words, f, W("amet,"), W("vulputate"), W("lacus"), Missing);
    KeepsOneCondition(Words, c, W("Lorem"));
    KeepsOneCondition(Words, c, W("in"));
    KeepsOneCondition(Words, c, W("Donec"));
    KeepsOneCondition(Words, c, W("et"));
    KeepsOneCondition(Words, c, W("amet,"));
    KeepsOneCondition(Words, c, W("vulputate"));
    KeepsOneCondition(Words, c, W("lacus"));
    KeepsOneCondition(Words, c, Missing);
    StringStartsWithRows();
  }

  lemma StringStartsWithFoldedRows()
    ensures !Passes(W("Lorem"), FilterString(-1, TextOp.StartsWith, "D", "", false)) && !Passes(W("in"), FilterString(-1, TextOp.StartsWith, "D", "", false)) && Passes(W("Donec"), FilterString(-1, TextOp.StartsWith, "D", "", false)) && !Passes(W("et"), FilterString(-1, TextOp.StartsWith, "D", "", false))
    ensures !Passes(W("amet,"), FilterString(-1, TextOp.StartsWith, "D", "", false)) && !Passes(W("vulputate"), FilterString(-1, TextOp.StartsWith, "D", "", false)) && !Passes(W("lacus"), FilterString(-1, TextOp.StartsWith, "D", "", false)) && !Passes(Missing, FilterString(-1, TextOp.StartsWith, "D", "", false))
  {
    LowerWords();
    Text.MismatchNotPrefix("lorem", "d", 0);
    Text.MismatchNotPrefix("in", "d", 0);
    Text.MismatchNotPrefix("et", "d", 0);
    Text.MismatchNotPrefix("amet,", "d", 0);
    Text.MismatchNotPrefix("vulputate", "d", 0);
    Text.MismatchNotPrefix("lacus", "d", 0);
  }

  lemma StringStartsWithFolded()
    ensures Select(Words, Values([FilterString(-1, TextOp.StartsWith, "D", "", false)], true, false), BlockA + BlockB)
            == [W("Donec")]
  {
    var c := FilterString(-1, TextOp.StartsWith, "D", "", false);
    var f := Values([c], true, false);
    SelectAppend(Words, f, BlockA, BlockB);
    SelectFour(Words, f, W("Lorem"), W("in"), W("Donec"), W("et"));
    SelectFour(Words, f, W("amet,"), W("vulputate"), W("lacus"), Missing);
    KeepsOneCondition(Words, c, W("Lorem"));
    KeepsOneCondition(Words, c, W("in"));
    KeepsOneCondition(Words, c, W("Donec"));
    KeepsOneCondition(Words, c, W("et"));
    KeepsOneCondition(Words, c, W("amet,"));
    KeepsOneCondition(Words, c, W("vulputate"));
    KeepsOneCondition(Words, c, W("lacus"));
    KeepsOneCondition(Words, c, Missing);
    StringStartsWithFoldedRows();
  }

  lemma StringEndsWithRows()
    ensures !Passes(W("Lorem"), FilterString(-1, TextOp.EndsWith, "s", "", true)) && !Passes(W("in"), FilterString(-1, TextOp.EndsWith, "s", "", true)) && !Passes(W("Donec"), FilterString(-1, TextOp.EndsWith, "s", "", true)) && !Passes(W("et"), FilterString(-1, TextOp.EndsWith, "s", "", true))
    ensures !Passes(W("amet,"), FilterString(-1, TextOp.EndsWith, "s", "", true)) && !Passes(W("vulputate"), FilterString(-1, TextOp.EndsWith, "s", "", true)) && Passes(W("lacus"), FilterString(-1, TextOp.EndsWith, "s", "", true)) && !Passes(Missing, FilterString(-1, TextOp.EndsWith, "s", "", true))
  {
    assert "Lorem"[4..] == "m";
    assert "in"[1..] == "n";
    assert "Donec"[4..] == "c";
    assert "et"[1..] == "t";
    assert "amet,"[4..] == ",";
    assert "vulputate"[8..] == "e";
    assert "lacus"[4..] == "s";
  }

  lemma StringEndsWith()
    ensures Select(Words, Values([FilterString(-1, TextOp.EndsWith, "s", "", true)], true, false), BlockA + BlockB)
            == [W("lacus")]
  {
    var c := FilterString(-1, TextOp.EndsWith, "s", "", true);
    var f := Values([c], true, false);
    SelectAppend(Words, f, BlockA, BlockB);
    SelectFour(Words, f, W("Lorem"), W("in"), W("Donec"), W("et"));
    SelectFour(Words, f, W("amet,"), W("vulputate"), W("lacus"), Missing);
    KeepsOneCondition(Words, c, W("Lorem"));
    KeepsOneCondition(Words, c, W("in"));
    KeepsOneCondition(Words, c, W("Donec"));
    KeepsOneCondition(Words, c, W("et"));
    KeepsOneCondition(Words, c, W("amet,"));
    KeepsOneCondition(Words, c, W("vulputate"));
    KeepsOneCondition(Words, c, W("lacus"));
    KeepsOneCondition(Words, c, Missing);
    StringEndsWithRows();
  }

  lemma StringEndsWithFoldedRows()
    ensures !Passes(W("Lorem"), FilterString(-1, TextOp.EndsWith, "S", "", false)) && !Passes(W("in"), FilterString(-1, TextOp.EndsWith, "S", "", false)) && !Passes(W("Donec"), FilterString(-1, TextOp.EndsWith, "S", "", false)) && !Passes(W("et"), FilterString(-1, TextOp.EndsWith, "S", "", false))
    ensures !Passes(W("amet,"), FilterString(-1, TextOp.EndsWith, "S", "", false)) && !Passes(W("vulputate"), FilterString(-1, TextOp.EndsWith, "S", "", false)) && Passes(W("lacus"), FilterString(-1, TextOp.EndsWith, "S", "", false)) && !Passes(Missing, FilterString(-1, TextOp.EndsWith, "S", "", false))
  {
    LowerWords();
    assert "lorem"[4..] == "m";
    assert "in"[1..] == "n";
    assert "donec"[4..] == "c";
    assert "et"[1..] == "t";
    assert "amet,"[4..] == ",";
    assert "vulputate"[8..] == "e";
    assert "lacus"[4..] == "s";
  }

  lemma StringEndsWithFolded()
    ensures Select(Words, Values([FilterString(-1, TextOp.EndsWith, "S", "", false)], true, false), BlockA + BlockB)
            == [W("lacus")]
  {
    var c := FilterString(-1, TextOp.EndsWith, "S", "", false);
    var f := Values([c], true, false);
    SelectAppend(Words, f, BlockA, BlockB);
    SelectFour(Words, f, W("Lorem"), W("in"), W("Donec"), W("et"));
    SelectFour(Words, f, W("amet,"), W("vulputate"), W("lacus"), Missing);
    KeepsOneCondition(Words, c, W("Lorem"));
    KeepsOneCondition(Words, c, W("in"));
    KeepsOneCondition(Words, c, W("Donec"));
    KeepsOneCondition(Words, c, W("et"));
    KeepsOneCondition(Words, c, W("amet,"));
    KeepsOneCondition(Words, c, W("vulputate"));
    KeepsOneCondition(Words, c, W("lacus"));
    KeepsOneCondition(Words, c, Missing);
    StringEndsWithFoldedRows();
  }

  lemma StringListRows()
    ensures !Passes(W("Lorem"), FilterStringList(-1, ["et", "in"], true)) && Passes(W("in"), FilterStringList(-1, ["et", "in"], true)) && !Passes(W("Donec"), FilterStringList(-1, ["et", "in"], true)) && Passes(W("et"), FilterStringList(-1, ["et", "in"], true))
    ensures !Passes(W("amet,"), FilterStringList(-1, ["et", "in"], true)) && !Passes(W("vulputate"), FilterStringList(-1, ["et", "in"], true)) && !Passes(W("lacus"), FilterStringList(-1, ["et", "in"], true)) && !Passes(Missing, FilterStringList(-1, ["et", "in"], true))
  {
  }

  lemma StringList()
    ensures Select(Words, Values([FilterStringList(-1, ["et", "in"], true)], true, false), BlockA + BlockB)
            == [W("in"), W("et")]
  {
    var c := FilterStringList(-1, ["et", "in"], true);
    var f := Values([c], true, false);
    SelectAppend(Words, f, BlockA, BlockB);
    SelectFour(Words, f, W("Lorem"), W("in"), W("Donec"), W("et"));
    SelectFour(Words, f, W("amet,"), W("vulputate"), W("lacus"), Missing);
    KeepsOneCondition(Words, c, W("Lorem"));
    KeepsOneCondition(Words, c, W("in"));
    KeepsOneCondition(Words, c, W("Donec"));
    KeepsOneCondition(Words, c, W("et"));
    KeepsOneCondition(Words, c, W("amet,"));
    KeepsOneCondition(Words, c, W("vulputate"));
    KeepsOneCondition(Words, c, W("lacus"));
    KeepsOneCondition(Words, c, Missing);
    StringListRows();
  }

  lemma StringListFoldedLiteralsRows()
    ensures !Passes(W("Lorem"), FilterStringList(-1, ["Et", "In"], false)) && Passes(W("in"), FilterStringList(-1, ["Et", "In"], false)) && !Passes(W("Donec"), FilterStringList(-1, ["Et", "In"], false)) && Passes(W("et"), FilterStringList(-1, ["Et", "In"], false))
    ensures !Passes(W("amet,"), FilterStringList(-1, ["Et", "In"], false)) && !Passes(W("vulputate"), FilterStringList(-1, ["Et", "In"], false)) && !Passes(W("lacus"), FilterStringList(-1, ["Et", "In"], false)) && !Passes(Missing, FilterStringList(-1, ["Et", "In"], false))
  {
    LowerWords();
  }

  lemma StringListFoldedLiterals()
    ensures Select(Words, Values([FilterStringList(-1, ["Et", "In"], false)], true, false), BlockA + BlockB)
            == [W("in"), W("et")]
  {
    var c := FilterStringList(-1, ["Et", "In"], false);
    var f := Values([c], true, false);
    SelectAppend(Words, f, BlockA, BlockB);
    SelectFour(Words, f, W("Lorem"), W("in"), W("Donec"), W("et"));
    SelectFour(Words, f, W("amet,"), W("vulputate"), W("lacus"), Missing);
    KeepsOneCondition(Words, c, W("Lorem"));
    KeepsOneCondition(Words, c, W("in"));
    KeepsOneCondition(Words, c, W("Donec"));
    KeepsOneCondition(Words, c, W("et"));
    KeepsOneCondition(Words, c, W("amet,"));
    KeepsOneCondition(Words, c, W("vulputate"));
    KeepsOneCondition(Words, c, W("lacus"));
    KeepsOneCondition(Words, c, Missing);
    StringListFoldedLiteralsRows();
  }

  lemma StringListFoldedDataRows()
    ensures !Passes(W("Lorem"), FilterStringList(-1, ["donec"], false)) && !Passes(W("in"), FilterStringList(-1, ["donec"], false)) && Passes(W("Donec"), FilterStringList(-1, ["donec"], false)) && !Passes(W("et"), FilterStringList(-1, ["donec"], false))
    ensures !Passes(W("amet,"), FilterStringList(-1, ["donec"], false)) && !Passes(W("vulputate"), FilterStringList(-1, ["donec"], false)) && !Passes(W("lacus"), FilterStringList(-1, ["donec"], false)) && !Passes(Missing, FilterStringList(-1, ["donec"], false))
  {
    LowerWords();
  }

  lemma StringListFoldedData()
    ensures Select(Words, Values([FilterStringList(-1, ["donec"], false)], true, false), BlockA + BlockB)
            == [W("Donec")]
  {
    var c := FilterStringList(-1, ["donec"], false);
    var f := Values([c], true, false);
    SelectAppend(Words, f, BlockA, BlockB);
    SelectFour(Words, f, W("Lorem"), W("in"), W("Donec"), W("et"));
    SelectFour(Words, f, W("amet,"), W("vulputate"), W("lacus"), Missing);
    KeepsOneCondition(Words, c, W("Lorem"));
    KeepsOneCondition(Words, c, W("in"));
    KeepsOneCondition(Words, c, W("Donec"));
    KeepsOneCondition(Words, c, W("et"));
    KeepsOneCondition(Words, c, W("amet,"));
    KeepsOneCondition(Words, c, W("vulputate"));
    KeepsOneCondition(Words, c, W("lacus"));
    KeepsOneCondition(Words, c, Missing);
    StringListFoldedDataRows();
  }

  /** The missing strings kept by `NotEqual` read back as empty strings. */
  lemma NotEqualShowsMissingAsEmpty()
    ensures Shown(CellAt(Missing, -1)) == ""
  {
  }
}
