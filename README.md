# Orange3 core, modelled in Dafny

This project models six parts of the Orange data-mining library and proves
properties of each:

- **Sparse tables** (`Orange/data/table/impl.py`), module `SparseTables` in `sparse_table.dfy`.
  - Export: a sparse table's role columns (attributes, class variables, metas) become one coordinate (COO) matrix.
  - Import: per-role coordinate matrices become a table.
    The domain is inferred when none is given ("Feature i", "Target i", "Meta i").
    The columns are laid side by side, and weights and row ids are attached.
  - The `Y` property and the density flags.
- **Domains** (`Orange/tests/test_domain.py`), module `Schema` in `domain.dfy`, with examples in `domain_examples.dfy`.
  - A reference model of `Domain`: construction and its type checks, lookup by variable, name or index, `index`, `in`, iteration, slicing, `str`, discrete/continuous queries, row conversion, and domain-to-domain conversion.
  - `Orange/data/domain.py` is not part of this model. The domain is specified by what its tests pin down. The test cases are proved as lemmas, except those listed under "Left out".
- **Row filters** (`Orange/tests/sql/test_filter.py`), module `RowFilters` in `filter.dfy`, with examples in `filter_examples.dfy`.
  - The filters `IsDefined`, `HasClass`, `SameValue` and `Values`, with discrete, continuous, string and string-list conditions, negation, and case folding.
  - The algebra of selection: order, negation, idempotence and fusion.
  - The test cases are proved as lemmas about the reference model. The string-filter cases use an excerpt of the test table (see "Left out").
- **Learners and models** (`Orange/base.py`), module `Learners` in `base.dfy`.
  - `Learner.__call__`: the adequacy check, the preprocessing fold, the multiclass check, and fitting through storage or arrays.
  - The scikit-learn wrapper: parameter filtering, the multinomial check, and the sample-weight decision.
  - `Model.__call__`: the `ret` checks, dispatch on the shape of the prediction, argmax of probabilities, and one-hot filling of probabilities.
- **The range slider** (`Orange/widgets/rangeslider.py`), module `RangeSliders` in `rangeslider.dfy`.
  - A Qt slider with two handles.
  - Its fields are updated in place by the constructor, the mouse events and the setters.
  - The signals it emits are kept as a log.
- **The map widget** (`Orange/widgets/visualize/owmap.py`), module `Maps` in `owmap.dfy`.
  - The stateful `LeafletMap`: data and attributes, rectangle selection with union of masks, marker opacity, and the marker redraw decision.
  - Legend labels.
  - Latitude/longitude detection by name.
  - The domain built for training a model.

Shared modules:

- `wrappers.dfy` (`Wrappers`): `Option` and `Result`.
- `text.dfy` (`Text`): the Python `str` operations the core uses:
  - ASCII case mapping;
  - prefix, suffix and substring tests;
  - code-point order;
  - `join`;
  - `str(n)`.

Python errors are values: `Result`/`Option` carry `KeyError`, `ValueError`,
`TypeError`, `IndexError` and `AssertionError` where the source raises them.

## Model

| member | source | states |
|---|---|---|
| SparseTables.RoleDensity | Orange/data/table/impl.py:57-64 | a sparse table reports SPARSE for every role, and only a sparse table does |
| SparseTables.FirstName | Orange/data/table/impl.py:143-146 | `self[name]` finds the first column of that name; no position is found exactly when the name is absent |
| SparseTables.Selected | Orange/data/table/impl.py:143-146 | the exported variables come from the domain, and there are as many as the selected roles hold |
| SparseTables.ToCoo | Orange/data/table/impl.py:137-169 | the loop over the selected columns builds exactly the export specification: data, row and column arrays, column by column |
| SparseTables.BuiltCounts | Orange/data/table/impl.py:158-169 | each stored entry `(r, v)` of column `i` occurs as triplet `(r, i, v)` exactly as often as it is stored, and no other triplet occurs |
| SparseTables.ExportHoldsSelectedEntries | Orange/data/table/impl.py:137-169 | the export has one column per selected variable and `1` row for a series, `len` otherwise; its triplets are the stored entries of the selected columns, with multiplicity |
| SparseTables.ExportCount | Orange/data/table/impl.py:158-169 | the number of triplets is the total number of stored entries of the selected columns |
| SparseTables.InColumnCounts | Orange/data/table/impl.py:206-213 | column `j` of the frame holds each triplet `(r, j, v)` as `(r, v)`, as often as it occurs |
| SparseTables.SingleColumnAgrees | Orange/data/table/impl.py:203-212 | for a one-column matrix, the whole-series branch selects the same entries as the column branch |
| SparseTables.CooToFrame | Orange/data/table/impl.py:177-214 | the conversion builds rows `0..nRows`, labels `start..start+nCols`, and each column from its triplets |
| SparseTables.FrameColumnCounts | Orange/data/table/impl.py:177-214 | whichever branch built it, column `j` of the frame holds exactly the triplets of column `j` |
| SparseTables.InferDomain | Orange/data/table/impl.py:223-229 | the inferred domain has continuous "Feature i", "Target i" and "Meta i" variables, one per matrix column; a class input of rank below two raises IndexError |
| SparseTables.InferredNamesDistinct | Orange/data/table/impl.py:223-229 | all inferred variable names are different |
| SparseTables.ColumnNames | Orange/data/table/impl.py:251-255 | the names are those of attributes, class variables and metas in order; any string variable raises ValueError |
| SparseTables.CollectNames | Orange/data/table/impl.py:251-255 | the name-collecting loop returns exactly `ColumnNames` |
| SparseTables.Weights | Orange/data/table/impl.py:274 | no weights gives weight 1 per row; given weights are kept, and must have one entry per row or ValueError is raised |
| SparseTables.Ids | Orange/data/table/impl.py:272 | one id per row, strictly increasing |
| SparseTables.LayOut | Orange/data/table/impl.py:257-266 | the loop over X, Y and metas skips absent roles and converts each present one at its running column offset |
| SparseTables.FromSparseNumpy | Orange/data/table/impl.py:216-275 | the import returns exactly the outcome of the import specification, errors included |
| SparseTables.JoinedShape | Orange/data/table/impl.py:257-271 | after concatenation, the widths add up, the labels run `0, 1, ...` without gaps, and the row count is the longest present role's |
| SparseTables.JoinedColumn | Orange/data/table/impl.py:257-271 | column `j` of role `k` sits at that role's offset plus `j` |
| SparseTables.ImportLayout | Orange/data/table/impl.py:216-275 | a successful import has the given or inferred domain, a column named after each variable in role order, one weight and one increasing id per row, and each role's columns at its offset |
| SparseTables.ExportRole | Orange/data/table/impl.py:137-169 | exporting one role of a table whose columns at that role's offset came from `m` gives back `m`'s triplets |
| SparseTables.RoleRoundTrip | Orange/data/table/impl.py:137-275 | importing role matrices and exporting one role gives back that role's matrix, triplet for triplet for matrices holding each (row, column) pair at most once, when the domain's role widths match and its names are distinct |
| SparseTables.InferredImportSucceeds | Orange/data/table/impl.py:216-275 | with no domain and a 2-D or absent class input, any import of at least one matrix succeeds |
| SparseTables.InferredRoundTrip | Orange/data/table/impl.py:137-275 | with no domain given, export after import returns each role's matrix unchanged |
| SparseTables.ImportRejectsStringVariables | Orange/data/table/impl.py:251-255 | a string variable anywhere in the domain makes the import fail with ValueError |
| SparseTables.ImportRejectsOtherRank | Orange/data/table/impl.py:223-247 | a class input not of rank two fails: IndexError while inferring when the rank is below two, ValueError otherwise |
| SparseTables.ImportNeedsAMatrix | Orange/data/table/impl.py:257-268 | with no matrix at all there is nothing to concatenate, and the import fails with ValueError |
| SparseTables.ImportRejectsWidthMismatch | Orange/data/table/impl.py:271 | a domain with more or fewer variables than the matrices have columns fails |
| SparseTables.WeightsAsWritten | Orange/data/table/impl.py:274 | `weights or 1` as written: truth-testing a weights matrix of more or fewer than one element raises ValueError |
| SparseTables.WeightsAsWrittenRejectsRowWeights | Orange/data/table/impl.py:274 | per-row weights for two or more rows are refused as written and kept by `Weights` |
| SparseTables.WeightsAsWrittenCounterexample | Orange/data/table/impl.py:274 | weights `[1, 2]` for a two-row matrix fail as written; the corrected import keeps them |
| SparseTables.GetColOfOneColumn | Orange/data/table/impl.py:171-175 | selecting the only column keeps the shape and every triplet |
| SparseTables.ClassValues | Orange/data/table/impl.py:171-175 | `Y` is the class export, reduced to its column by `getcol(0)` when there is exactly one |
| SparseTables.ClassValuesKeepEntries | Orange/data/table/impl.py:171-175 | `Y` has the class export's shape and triplets |
| Schema.ClassVar | Orange/tests/test_domain.py:61-126 | `class_var` is present exactly when there is one class variable, and is that variable |
| Schema.Make | Orange/tests/test_domain.py:61-153 | a domain is built exactly when no attribute or class variable is a string variable, otherwise TypeError; `variables` are the attributes then the class variables, and the metas are kept |
| Schema.Lookup | Orange/tests/test_domain.py:155-167 | `domain[key]` resolves a variable of the domain, or by name a variable of the domain with that name, the first such among `variables` and otherwise the first among the metas, or by index `variables[i]` / `metas[-1-i]`; anything else is a KeyError |
| Schema.Index | Orange/tests/test_domain.py:169-184 | `index(key)` is a valid position, and a key that does not resolve is a ValueError |
| Schema.IndexAgreesWithLookup | Orange/tests/test_domain.py:169-208 | a key has an index exactly when `domain[key]` resolves, and the variable at that index is the one it resolves to |
| Schema.Iterate | Orange/tests/test_domain.py:223-231 | iteration yields one variable per attribute and class variable, each the one at that index; never the metas |
| Schema.Slice | Orange/tests/test_domain.py:186-190 | `domain[lo:hi]` holds `variables[a + k]` for each `k` below `b - a` (none when `b < a`), where `a` and `b` are the bounds read as Python does: negative from the end, then clamped to `0..len`; for non-negative bounds this is `variables[lo:min(hi, len)]` |
| Schema.Position | Orange/tests/test_domain.py:186-190 | a slice bound within `0..len`: a non-negative bound capped at `len`, a negative one counted from the end and floored at 0 |
| Schema.Render | Orange/tests/test_domain.py:233-250 | `str(domain)` opens with `[`, and ends with `]` without metas and with `}` with metas |
| Schema.RenderDependsOnNames | Orange/tests/test_domain.py:233-250 | only the names of the variables, role by role, decide `str(domain)` |
| Schema.RenderBracesMeanMetas | Orange/tests/test_domain.py:233-250 | when no attribute or class name holds `{`, the rendering holds `{` exactly when there are metas |
| Schema.HasDiscreteAttributes | Orange/tests/test_domain.py:252-269 | true exactly when an attribute, or with `include_class` a class variable, is discrete |
| Schema.HasContinuousAttributes | Orange/tests/test_domain.py:270-287 | true exactly when an attribute, or with `include_class` a class variable, is continuous |
| Schema.ResolveAll | Orange/tests/test_domain.py:106-117 | each key resolves against the source, in order; the first key that does not resolve raises KeyError |
| Schema.MakeFromSource | Orange/tests/test_domain.py:106-140 | a domain built from a source holds, role by role, the variables its attribute, class and meta keys resolve to (the class argument keeps its shape); a key that does not resolve gives KeyError; otherwise the result is built exactly when no resolved attribute or class variable is a string variable, and is TypeError otherwise |
| Schema.ResolveArg | Orange/tests/test_domain.py:112-117 | the class argument resolves key by key into an argument of the same shape, or KeyError when a key does not resolve |
| Schema.ToVal | Orange/tests/test_domain.py:308-329 | a discrete label becomes its position in the value list, and an unknown label is a ValueError; a number for a primitive variable is kept as it is; a string for a continuous or time variable is a ValueError; a string for a string variable is kept |
| Schema.ConvertAll | Orange/tests/test_domain.py:308-329 | converting a list of cells succeeds exactly when each cell converts, and keeps every converted value in order |
| Schema.Convert | Orange/tests/test_domain.py:308-342 | a row must hold the variables, or the variables and the metas, else ValueError; the values land in their roles and missing metas are unknown |
| Schema.SourceOf | Orange/tests/test_domain.py:288-306 | a variable of the source is read from the index it has there; any other is computed by its transformation, or has no source |
| Schema.GetConversion | Orange/tests/test_domain.py:288-306 | the conversion remembers its source and has one column source per target variable in each role |
| Schema.SourceOfOwnColumn | Orange/tests/test_domain.py:288-306 | when all columns of a domain are distinct, each is read from its own index |
| Schema.SourcesOfColumns | Orange/tests/test_domain.py:288-306 | a target made of source columns reads each from its index in the source |
| Schema.ConversionToPrefix | Orange/tests/test_domain.py:383-401 | converting to a prefix of the attributes with all class variables and metas reads attribute `i` from `i`, class `i` from `\|attrs\|+i`, and meta `j` from `-1-j` |
| SchemaExamples.InitRoles | Orange/tests/test_domain.py:61-104 | the constructor cases give the expected variables, attributes, class variable(s) and metas |
| SchemaExamples.InitFromSource | Orange/tests/test_domain.py:106-126 | keys given by name and index are resolved in the source, and metas are kept |
| SchemaExamples.WrongVarTypes | Orange/tests/test_domain.py:128-140 | a string variable among attributes or class variables raises TypeError |
| SchemaExamples.GetItem | Orange/tests/test_domain.py:155-167 | each listed key resolves to its variable |
| SchemaExamples.IndexOf | Orange/tests/test_domain.py:169-184 | each listed key has its index, and keys out of range or unknown raise ValueError |
| SchemaExamples.ContainsAndIterate | Orange/tests/test_domain.py:210-231 | membership holds exactly for the listed keys; iteration yields the variables only |
| SchemaExamples.Slices | Orange/tests/test_domain.py:186-190 | `d[:2]`, `d[1:3]`, `d[2:]` are the expected variables |
| SchemaExamples.SlicesFromTheEnd | Orange/tests/test_domain.py:186-190 | `d[-1:]`, `d[:-2]`, `d[-10:10]` and `d[3:1]` follow Python's reading of the bounds |
| SchemaExamples.RenderingWithoutMetas | Orange/tests/test_domain.py:233-250 | `str` of domains without metas gives the listed texts |
| SchemaExamples.RenderingTwoNames | Orange/tests/test_domain.py:233-250 | `[Gender, income]` and `[Gender, income \| AGE]` |
| SchemaExamples.RenderingOneMeta | Orange/tests/test_domain.py:233-250 | `[Gender \| AGE, income] {SSN}` |
| SchemaExamples.RenderingTwoMetas | Orange/tests/test_domain.py:233-250 | `[Gender \| AGE, income] {SSN, race}` |
| SchemaExamples.RenderingMetasOnly | Orange/tests/test_domain.py:233-250 | `[] {SSN, race}` |
| SchemaExamples.DiscreteAndContinuous | Orange/tests/test_domain.py:252-287 | the discrete and continuous queries give the listed answers, with and without class variables |
| SchemaExamples.ConversionDToE | Orange/tests/test_domain.py:288-306 | the conversion between the test's domains d and e has the listed column sources |
| SchemaExamples.ConversionDToF | Orange/tests/test_domain.py:288-306 | the same, from d to f |
| SchemaExamples.ConversionFToG | Orange/tests/test_domain.py:288-306 | the same, from f to g |
| SchemaExamples.ConversionGToH | Orange/tests/test_domain.py:288-306 | the same, from g to h |
| SchemaExamples.RowConversion | Orange/tests/test_domain.py:308-329 | the listed rows convert to the listed values, with unknown metas when metas are not given |
| SchemaExamples.RowConversionSize | Orange/tests/test_domain.py:331-342 | rows of the wrong lengths 2, 4 and 7, and 3 and 5 with no metas, raise ValueError |
| SchemaExamples.Equality | Orange/tests/test_domain.py:359-381 | domains are equal exactly when their roles hold the same variables |
| RowFilters.CellAt | Orange/tests/sql/test_filter.py:41-48 | column `c` is variable `c` when non-negative and meta `-1-c` when negative |
| RowFilters.MakeValues | Orange/tests/sql/test_filter.py:231-234 | a `Values` filter without conditions raises ValueError; otherwise it keeps its conditions and flags |
| RowFilters.Select | Orange/tests/sql/test_filter.py:33-48 | filtering never adds rows |
| RowFilters.SelectKeepsExactly | Orange/tests/sql/test_filter.py:33-111 | a row is in the result exactly when it is an input row the filter keeps |
| RowFilters.Apply | Orange/tests/sql/test_filter.py:33-48 | filtering keeps the domain and the shape of the rows |
| RowFilters.Negated | Orange/tests/sql/test_filter.py:49-64 | `negate=True` flips the flag and leaves the acceptance test unchanged |
| RowFilters.SelectAppend | Orange/tests/sql/test_filter.py:33-48 | filtering distributes over concatenation, so kept rows stay in their original order |
| RowFilters.SelectSingle | Orange/tests/sql/test_filter.py:33-48 | a single row is kept or dropped as the filter decides |
| RowFilters.NegationPartitions | Orange/tests/sql/test_filter.py:49-64 | a filter and its negation split the rows: multisets add up to the input |
| RowFilters.SelectIdempotent | Orange/tests/sql/test_filter.py:33-48 | filtering twice with the same filter changes nothing more |
| RowFilters.SelectFuse | Orange/tests/sql/test_filter.py:235-379 | filtering by `f` and then `g` is filtering by any filter that keeps exactly what both keep |
| RowFilters.ConjunctionComposes | Orange/tests/sql/test_filter.py:235-379 | a conjunction of two condition lists acts as the two lists applied one after the other |
| RowFilters.BetweenIsTwoBounds | Orange/tests/sql/test_filter.py:343-354 | `Between(lo, hi)` is `>= lo` and `<= hi` |
| RowFilters.OutsideComplementsBetween | Orange/tests/sql/test_filter.py:355-366 | `Outside` keeps exactly the defined cells that `Between` rejects |
| RowFilters.CaseInsensitiveIgnoresDataCase | Orange/tests/sql/test_filter.py:429-438 | lower-casing stored strings does not change a case-insensitive condition |
| RowFilters.CaseInsensitiveIgnoresLiteralCase | Orange/tests/sql/test_filter.py:419-428 | lower-casing the literals does not change a case-insensitive condition |
| RowFilters.CaseFoldingOnLowerCase | Orange/tests/sql/test_filter.py:410-438 | without upper-case letters anywhere, case folding changes nothing |
| RowFilters.MissingStringPassesOnlyNotEqual | Orange/tests/sql/test_filter.py:439-448 | a missing string is kept by a string condition exactly when the operator is NotEqual, and never by a string list |
| RowFilters.Shown | Orange/tests/sql/test_filter.py:439-448 | a missing string reads back as the empty string |
| RowFilterExamples.IsDefinedOnAllColumns | Orange/tests/sql/test_filter.py:33-40 | `IsDefined()` keeps exactly the rows of the test table whose variables are all defined |
| RowFilterExamples.IsDefinedOnSelectedColumns | Orange/tests/sql/test_filter.py:41-48 | `IsDefined(columns=[0])` keeps exactly the rows defined in column 0 |
| RowFilterExamples.HasClassExamples | Orange/tests/sql/test_filter.py:95-111 | `HasClass` keeps the rows with a class value, and its negation keeps the rest |
| RowFilterExamples.SameValueExamples | Orange/tests/sql/test_filter.py:131-211 | `SameValue` on continuous and discrete columns, with unknowns and negation, keeps the listed rows |
| RowFilterExamples.ValuesDiscrete | Orange/tests/sql/test_filter.py:235-246 | a discrete condition with one value keeps the listed rows |
| RowFilterExamples.ValuesDiscreteSeveral | Orange/tests/sql/test_filter.py:247-258 | a discrete condition with several values keeps the listed rows |
| RowFilterExamples.ValuesDiscreteAny | Orange/tests/sql/test_filter.py:259-270 | a discrete condition with `None` keeps every defined row |
| RowFilterExamples.ValuesEqual | Orange/tests/sql/test_filter.py:271-282 | continuous `Equal` keeps the listed rows |
| RowFilterExamples.ValuesNotEqual | Orange/tests/sql/test_filter.py:283-294 | continuous `NotEqual` keeps the listed rows |
| RowFilterExamples.ValuesLess | Orange/tests/sql/test_filter.py:295-306 | continuous `Less` keeps the listed rows |
| RowFilterExamples.ValuesLessEqual | Orange/tests/sql/test_filter.py:307-318 | continuous `LessEqual` keeps the listed rows |
| RowFilterExamples.ValuesGreater | Orange/tests/sql/test_filter.py:319-330 | continuous `Greater` keeps the listed rows |
| RowFilterExamples.ValuesGreaterEqual | Orange/tests/sql/test_filter.py:331-342 | continuous `GreaterEqual` keeps the listed rows |
| RowFilterExamples.ValuesBetween | Orange/tests/sql/test_filter.py:343-354 | continuous `Between` keeps the listed rows |
| RowFilterExamples.ValuesOutside | Orange/tests/sql/test_filter.py:355-366 | continuous `Outside` keeps the listed rows |
| RowFilterExamples.ValuesDefined | Orange/tests/sql/test_filter.py:367-379 | continuous `IsDefined` keeps the listed rows |
| RowFilterExamples.StringDefined | Orange/tests/sql/test_filter.py:401-409 | string `IsDefined` keeps the rows whose string is defined |
| RowFilterExamples.StringEqual | Orange/tests/sql/test_filter.py:410-418 | string `Equal` keeps the rows equal to the literal |
| RowFilterExamples.StringEqualFoldedLiteral | Orange/tests/sql/test_filter.py:419-428 | case-insensitive `Equal` with an upper-case literal keeps the same rows |
| RowFilterExamples.StringEqualFoldedData | Orange/tests/sql/test_filter.py:429-438 | case-insensitive `Equal` on upper-case data keeps the same rows |
| RowFilterExamples.StringNotEqual | Orange/tests/sql/test_filter.py:439-448 | string `NotEqual` keeps the listed rows, missing values included |
| RowFilterExamples.NotEqualShowsMissingAsEmpty | Orange/tests/sql/test_filter.py:439-448 | the kept strings read back as the test expects, with missing values as empty strings |
| RowFilterExamples.StringLess | Orange/tests/sql/test_filter.py:471-479 | string `Less` keeps the rows before the literal in code-point order |
| RowFilterExamples.StringLessFolded | Orange/tests/sql/test_filter.py:480-489 | case-insensitive `Less` compares after folding |
| RowFilterExamples.StringGreater | Orange/tests/sql/test_filter.py:529-537 | string `Greater` keeps the rows after the literal |
| RowFilterExamples.StringBetween | Orange/tests/sql/test_filter.py:587-597 | string `Between` keeps the rows between the literals |
| RowFilterExamples.StringContains | Orange/tests/sql/test_filter.py:618-628 | `Contains` keeps the rows holding the literal |
| RowFilterExamples.StringContainsFolded | Orange/tests/sql/test_filter.py:629-638 | case-insensitive `Contains` keeps the same rows for an upper-case literal |
| RowFilterExamples.StringOutside | Orange/tests/sql/test_filter.py:649-657 | string `Outside` keeps the rows outside the literals |
| RowFilterExamples.StringStartsWith | Orange/tests/sql/test_filter.py:670-680 | `StartsWith` keeps the rows with the prefix |
| RowFilterExamples.StringStartsWithFolded | Orange/tests/sql/test_filter.py:681-693 | case-insensitive `StartsWith` keeps the same rows |
| RowFilterExamples.StringEndsWith | Orange/tests/sql/test_filter.py:694-704 | `EndsWith` keeps the rows with the suffix |
| RowFilterExamples.StringEndsWithFolded | Orange/tests/sql/test_filter.py:705-717 | case-insensitive `EndsWith` keeps the same rows |
| RowFilterExamples.StringList | Orange/tests/sql/test_filter.py:718-727 | a string list keeps the rows equal to one of its strings |
| RowFilterExamples.StringListFoldedLiterals | Orange/tests/sql/test_filter.py:728-737 | case-insensitive matching against upper-case literals |
| RowFilterExamples.StringListFoldedData | Orange/tests/sql/test_filter.py:738-747 | case-insensitive matching against upper-case data |
| Learners.FoldAppend | Orange/base.py:59-65 | preprocessing with `a + b` is preprocessing with `a`, then with `b` |
| Learners.GetSklParams | Orange/base.py:214-224 | the result holds exactly the given keys that are constructor arguments after `self`, with their values; no wrapped class is TypeError, a constructor without arguments is IndexError, and one not starting with `self` fails the assertion |
| Learners.GetSklParamsIdempotent | Orange/base.py:207-224 | filtering parameters again keeps them all |
| Learners.SampleWeights | Orange/base.py:242-262 | weights are passed exactly when given, supported and not all equal; an empty weight vector raises IndexError |
| Learners.Model.Init | Orange/base.py:81-86 | a model without a domain raises ValueError; otherwise it has that domain |
| Learners.Model.Predict | Orange/base.py:103-165 | `Model.__call__` returns exactly what the call specification gives for the prediction |
| Learners.Learner.constructor | Orange/base.py:24-27 | no preprocessors given means the class defaults |
| Learners.Learner.SetParams | Orange/base.py:207-212 | the `params` setter stores the filtered parameters or reports the error and keeps the old ones |
| Learners.Learner.Preprocess | Orange/base.py:226-234 | the preprocessors are applied in order (lines 59-65); a scikit-learn wrapper then refuses discrete attributes with more than two values |
| Learners.Learner.Call | Orange/base.py:36-57 | inadequate data is ValueError; several class variables without multiclass support are TypeError; otherwise the learner remembers the preprocessed domain and returns a fresh model with both domains, fitted through storage or arrays |
| Learners.CheckRet | Orange/base.py:104-107 | the call fails with ValueError exactly when `ret` is not 0..2 or probabilities are asked of a continuous class |
| Learners.Parse | Orange/base.py:129-138 | a tuple is value and probabilities; a lone array must have the rank of a value or of probabilities, else TypeError |
| Learners.ArgmaxRow | Orange/base.py:140-142 | `np.argmax` is the first position of the largest element |
| Learners.Argmax | Orange/base.py:140-142 | the value is the per-row argmax of the probabilities; an empty row raises ValueError |
| Learners.OneHotRow | Orange/base.py:149-151 | the one-hot row of `v` has 1 at position `v` and 0 elsewhere |
| Learners.OneHot | Orange/base.py:149-151 | one one-hot row per value, as wide as the largest value plus one |
| Learners.ArgmaxOfOneHotRow | Orange/base.py:140-151 | the argmax of a one-hot row is the encoded index |
| Learners.OneHotEncodesIndices | Orange/base.py:140-151 | every whole non-negative value fits the one-hot width, and argmax of its row gives it back |
| Learners.PartlyFilled | Orange/base.py:144-149 | the multi-target probabilities have one entry per row |
| Learners.FillOneHot | Orange/base.py:144-149 | the loop fills target by target the one-hot rows of width `max_card`; a target beyond the value's columns raises IndexError |
| Learners.MaxCard | Orange/base.py:144-149 | `max_card` is the largest number of values among the discrete class variables: at least each one's count and equal to one of them, and 0 when none is discrete |
| Learners.ParseCompletable | Orange/base.py:129-151 | a successful parse gives halves of the shape the completion step expects |
| Learners.CallChecksRetFirst | Orange/base.py:104-107 | an invalid `ret` fails with ValueError whatever the predictor returned |
| Learners.CallRejectsOtherRanks | Orange/base.py:129-138 | an array of any other rank fails with TypeError |
| Learners.CallReturnsWhatRetAsks | Orange/base.py:140-164 | a successful call returns a value, probabilities or both, exactly as `ret` asks |
| Learners.CallKeepsGivenHalves | Orange/base.py:129-164 | what the predictor returned as a tuple is passed through unchanged |
| Learners.CallDerivesValueByArgmax | Orange/base.py:140-164 | given only probabilities, the value is the per-row argmax, and the probabilities are kept |
| Learners.CallArgmaxOfEmptyRow | Orange/base.py:140-142 | probabilities with an empty row cannot be reduced: ValueError |
| Learners.CallDerivesProbsByOneHot | Orange/base.py:143-155 | given only a value, the probabilities are its one-hot encoding, and each row's argmax gives the value back |
| Learners.CallDerivesMultiTargetProbs | Orange/base.py:143-155 | given only a multi-target value, probability `[r][i]` is the one-hot row of `value[r][i]` over `max_card` columns |
| RangeSliders.HandleMove | Orange/widgets/rangeslider.py:130-160 | the dragged handle follows the pointer within the range; the other is pushed to keep one step between them where the range allows, and is left alone otherwise |
| RangeSliders.GrooveMove | Orange/widgets/rangeslider.py:130-160 | dragging the groove shifts both ends by the pointer offset, each clamped to the range; the span never grows |
| RangeSliders.GrooveMoveKeepsWidth | Orange/widgets/rangeslider.py:130-160 | a groove drag that stays in range keeps the span |
| RangeSliders.GrooveMoveCanCross | Orange/widgets/rangeslider.py:130-160 | clamping the two ends separately can cross them: a zero-width range at 5 dragged down by 10 ends at (0, -5) |
| RangeSliders.ClampValues | Orange/widgets/rangeslider.py:189-193 | the lower value is kept when at least the minimum and raised to the minimum otherwise; the upper value is kept when at most the maximum and lowered to the maximum otherwise; nothing else is clamped (a lower value above the maximum stays) |
| RangeSliders.SetValuesInRange | Orange/widgets/rangeslider.py:189-193 | values already in range are kept as given |
| RangeSliders.RangeSlider.constructor | Orange/widgets/rangeslider.py:23-39 | the keyword arguments set range, values and positions; missing values default to the range bounds, missing positions to the values; the maximum is the given one or the larger of the minimum and 99, and the minimum is the given one (0 when absent), lowered to a given smaller maximum; no press is in progress and tracking is on |
| RangeSliders.RangeSlider.Values | Orange/widgets/rangeslider.py:186-187 | `values()` is the pair of stored values |
| RangeSliders.RangeSlider.SetValues | Orange/widgets/rangeslider.py:189-193 | values are clamped to the range, positions follow them, and `valuesChanged` is emitted once |
| RangeSliders.RangeSlider.MousePress | Orange/widgets/rangeslider.py:98-128 | a left press on the lower handle, else on the upper handle, activates it; elsewhere it grabs the groove at the pointer's value; any other button changes nothing |
| RangeSliders.RangeSlider.MouseMove | Orange/widgets/rangeslider.py:130-160 | with a press in progress, positions move as a groove or a handle drag; with tracking, the values follow and both signals are emitted; without a press nothing changes |
| RangeSliders.RangeSlider.MouseRelease | Orange/widgets/rangeslider.py:93-96 | the press ends; without tracking, the values take the one-sided clamps of the positions, the positions follow the new values and `valuesChanged` is emitted; with tracking nothing else changes |
| RangeSliders.RangeSlider.SetMinimumValue | Orange/widgets/rangeslider.py:198-201 | only the lower value changes: the upper value, both positions, the range, the drag state (`tracking`, `pressedControl`, `activeSlider`, `clickOffset`, `sliderDown`) and the emitted signals stay as they were |
| RangeSliders.RangeSlider.SetMaximumValue | Orange/widgets/rangeslider.py:205-208 | only the upper value changes: the lower value, both positions, the range, the drag state and the emitted signals stay as they were |
| RangeSliders.RangeSlider.SetMinimumPositionAsWritten | Orange/widgets/rangeslider.py:212-215 | as written: the position is stored, then calling the signal object raises TypeError and nothing is emitted; the other position, both values, the range and the drag state stay as they were |
| RangeSliders.RangeSlider.SetMinimumPosition | Orange/widgets/rangeslider.py:212-215 | the lower position is stored and `slidersMoved` is emitted with both positions; the other position, both values, the range and the drag state stay as they were |
| RangeSliders.RangeSlider.SetMaximumPositionAsWritten | Orange/widgets/rangeslider.py:220-223 | as written: the position is stored, then TypeError and nothing is emitted; the other position, both values, the range and the drag state stay as they were |
| RangeSliders.RangeSlider.SetMaximumPosition | Orange/widgets/rangeslider.py:220-223 | the upper position is stored and `slidersMoved` is emitted with both positions; the other position, both values, the range and the drag state stay as they were |
| RangeSliders.DragHandle | Orange/widgets/rangeslider.py:130-160 | dragging a handle within the range leaves the positions ordered, and with tracking the values equal the positions |
| Maps.ColumnView | Orange/widgets/visualize/owmap.py:94-95 | a column view has one value per row |
| Maps.InBox | Orange/widgets/visualize/owmap.py:96-97 | the mask has one entry per point |
| Maps.TrueIndices | Orange/widgets/visualize/owmap.py:101 | `nonzero()[0]` lists, in increasing order, exactly the positions whose mask entry is true |
| Maps.TrueIndicesMembership | Orange/widgets/visualize/owmap.py:101 | a position is listed exactly when the mask is true there |
| Maps.Union | Orange/widgets/visualize/owmap.py:98-99 | `\|=` succeeds exactly when the previous mask has the same length or length one (broadcast), else ValueError; the result is the elementwise or |
| Maps.UnionKeepsBoth | Orange/widgets/visualize/owmap.py:98-101 | the selected indices after a union are those selected before plus those in the new rectangle |
| Maps.Visible | Orange/widgets/visualize/owmap.py:326-329 | the visible points are, in increasing order, exactly the points inside the drawn bounds |
| Maps.Opacity | Orange/widgets/visualize/owmap.py:222-223 | `255 * p // 100`: the floor of the quotient, within 0..255 for a percentage |
| Maps.OpacityMonotone | Orange/widgets/visualize/owmap.py:222-223 | a larger percentage never gives a lower opacity; 1% is 2 and 100% is 255 |
| Maps.LeafletMap.constructor | Orange/widgets/visualize/owmap.py:30-58 | no data, no attributes, no selection, opacity 255, nothing drawn |
| Maps.LeafletMap.SetData | Orange/widgets/visualize/owmap.py:63-74 | the data is stored and the attributes reset; they are looked up only for non-empty data and two truthy keys, and a failed lookup is a KeyError |
| Maps.LeafletMap.SelectedArea | Orange/widgets/visualize/owmap.py:90-103 | a degenerate rectangle clears the selection and emits an empty list; otherwise the new mask, or its union with the stored one, is stored and its true indices emitted; a rectangle with area but no data, or without both attributes, fails before anything changes; a failed union raises ValueError before anything changes |
| Maps.LeafletMap.SetMarkerOpacity | Orange/widgets/visualize/owmap.py:222-225 | only the opacity changes, to `Opacity(percent)` |
| Maps.LeafletMap.RedrawMarkers | Orange/widgets/visualize/owmap.py:317-350 | a redraw is skipped exactly without bounds or without both attributes; otherwise it remembers the bounds, finds the visible points, and uses the JavaScript markers, with the shape legend, for at most 500 points |
| Maps.Shorten | Orange/widgets/visualize/owmap.py:133-134 | a label over 12 characters becomes its first 6, '…', and its last 5 |
| Maps.LegendValues | Orange/widgets/visualize/owmap.py:125-135 | labels stay as they are unless one is over 10 characters; then each time label has every space replaced by `<br>`, continuous ones are in scientific notation, and each discrete one is `Shorten` of its label |
| Maps.LegendBreaksTimeLabel | Orange/widgets/visualize/owmap.py:129-130 | a date and a time joined by one space become two legend lines joined by `<br>` |
| Maps.LegendShortensDiscreteLabel | Orange/widgets/visualize/owmap.py:133-134 | a 19-character label keeps its first six and last five characters around '…' |
| Text.ReplaceCharSingle | Orange/widgets/visualize/owmap.py:130 | `replace` on one character gives the replacement for the searched character and the character otherwise |
| Text.ReplaceCharAppend | Orange/widgets/visualize/owmap.py:130 | `replace` distributes over concatenation |
| Maps.FirstMatching | Orange/widgets/visualize/owmap.py:637-649 | the first variable whose name starts with a spelling of one of the names |
| Maps.FindLatLonAsWritten | Orange/widgets/visualize/owmap.py:637-649 | as written: latitude and longitude are the first variables of any type with a matching name |
| Maps.ContinuousOf | Orange/widgets/visualize/owmap.py:628 | exactly the continuous variables |
| Maps.ContinuousOfSingle | Orange/widgets/visualize/owmap.py:628 | one variable is kept exactly when continuous |
| Maps.ContinuousOfAppend | Orange/widgets/visualize/owmap.py:628 | filtering a concatenation concatenates the filtered parts, so the order is kept |
| Maps.ContinuousOfCounts | Orange/widgets/visualize/owmap.py:628 | each continuous variable is kept as often as it occurs, and nothing else is kept |
| Maps.ComboIndicesAsWritten | Orange/widgets/visualize/owmap.py:651-654 | as written: the combo indices are the positions of the found variables among the continuous ones, and `list.index` raises ValueError when one is not continuous |
| Maps.ComboIndicesRejectDiscreteLatitude | Orange/widgets/visualize/owmap.py:637-654 | a discrete "lat" and a continuous "lon" make the widget raise ValueError as written |
| Maps.FindLatLon | Orange/widgets/visualize/owmap.py:637-649 | corrected: the first continuous variables with a matching name, or none exactly when no continuous variable matches |
| Maps.ComboIndices | Orange/widgets/visualize/owmap.py:651-654 | corrected: both indices exist exactly when both variables are found, and each points to its variable among the continuous ones |
| Maps.Spellings | Orange/widgets/visualize/owmap.py:638-647 | each name as given, capitalized, and upper-cased |
| Maps.SpellingsOfLatNames | Orange/widgets/visualize/owmap.py:638-642 | the latitude spellings are the six listed strings |
| Maps.LatitudeByShortPrefix | Orange/widgets/visualize/owmap.py:638-642 | a name is a latitude name exactly when it starts with "lat", "Lat" or "LAT" |
| Maps.SpellingsOfLonNames | Orange/widgets/visualize/owmap.py:643-647 | the longitude spellings are the nine listed strings |
| Maps.LongitudeByShortPrefix | Orange/widgets/visualize/owmap.py:643-647 | a name is a longitude name exactly when it starts with "lon", "Lon" or "LON" |
| Maps.TrainingDomain | Orange/widgets/visualize/owmap.py:677-688 | without data, a learner or three chosen attributes there is nothing to train; otherwise a domain of latitude and longitude with the class is built exactly when all three names exist and are not string variables, else KeyError or TypeError |

## Left out

- Row ids: `_new_id` draws from a global counter. The model takes the first id as the parameter `firstId`.
- `_any_to_coo` is taken to preserve shape. scipy's reshaping of 1-D input is not modelled.
- The entry order inside a pandas sparse column, and pandas' `BlockIndex`, are not modelled. Columns are compared as multisets of stored entries.
- The density ratio of pandas' sparse frames is not modelled. Only the DENSE/SPARSE flags are.
- SparseTables.Weights: `set_weights` (not part of this model) is assumed to refuse weights of the wrong length with ValueError.
- The weights column: the weights are kept as a separate field instead of an extra column appended to `columns`.
- `Orange/data/util.py` is not part of this model. The width of `one_hot` is taken to be one more than the largest value.
  - Learners.OneHotRow gives a zero row for a value that is not an index below the width.
- Learners.FillOneHot: every target's block is taken to have width `max_card`. In the source, `one_hot(value[:, i])` has width `max(value[:, i]) + 1`.
  - When that width is 1 (every value of the target is 0), numpy broadcasts the block, and every probability of the row becomes 1. The model gives `[1, 0, …]`, so Learners.CallDerivesMultiTargetProbs differs from the source there.
  - Any other width that differs from `max_card` is a broadcasting ValueError in the source, which the model does not raise.
- `Model.__call__`'s conversion of its input (an instance, a list or an array, into a table) is not modelled. Neither are `predict`, `predict_storage` and `used_vals`.
  - The predictor's output is an input of the model.
- A learner used as a model is not modelled.
- Learners.Model.Init: only a missing domain raises ValueError. An empty `Domain` would also be false in Python if `Domain` defines `__len__`; `Orange/data/domain.py` is not part of this model, so that case is not modelled.
- scikit-learn fitting and `inspect` introspection are not modelled. A wrapped class is given as the argument lists of its `__init__` and `fit`.
  - Learners.SupportsWeights looks for `sample_weight` in the argument list of `fit`. The source searches `co_varnames`, which also holds the local variables of `fit`.
- The SQL back end of the filters is not modelled. `Orange/data/filter.py` is not part of this model.
  - The filters are modelled on in-memory rows, by what the tests check.
  - Case folding covers ASCII letters only.
  - A number stored as text is not compared as a number.
- String `Between` and `Outside` use closed bounds. The tests' expected rows never touch a bound, so the data do not decide this; the tests' own comprehensions write strict comparisons (test_filter.py:603 `'i' < row[0].lower() <= 'o'`, :653 `not 'am' < row[0] < 'di'`, :665 `not 'd' < row[0].lower() < 'k'`), which point to an open interval for `Outside`, and the closed bounds are a choice against that hint.
- Qt painting, style hit-testing and pixel-to-value conversion are not modelled. Which handle is under the pointer, and the pointer's value, are inputs.
  - `QAbstractSlider`'s `triggerAction`, repeat actions and `setSliderDown` side effects are not modelled either.
- Qt signals are not modelled. They are recorded in an `emitted` log.
- RangeSliders.RangeSlider.constructor: the order in which Qt applies the keyword properties is assumed to be the order of the keyword arguments.
- JavaScript, Leaflet and HTML of the map are not modelled. Neither are map projections, the overlay image, palettes, `fit_to_bounds`, `evalJS`, jittering, heat maps and `set_model`.
  - The `'{:.4e}'` rendering of continuous legend labels is an input.
- The call to the learner in `train_model` and its error reporting are not modelled. Only the training domain is.
- numpy broadcasting beyond a length-one previous mask is not modelled: any other length mismatch is ValueError.
- SparseTables.InColumnCounts, SparseTables.RoleRoundTrip, SparseTables.ClassValuesKeepEntries: the imported matrices are taken to hold each (row, column) pair at most once. The model keeps repeated pairs as separate entries. In the source, `SparseSeries.from_coo(..., dense_index=True)` reindexes on those pairs and scipy's `getcol` sums duplicates, so for such input these contracts describe the model only.
- Schema.ToVal: only discrete labels and plain numbers are backed by the tests. The parsing of strings for continuous and time variables, the rounding of numbers for discrete variables and the missing-value strings (`?`, `""`) are not modelled.
- Schema.Lookup: the precedence of `variables` over metas for a name held by both is what the model does. The tests do not decide it.
- Arguments that are not variables or keys are outside the model's types: the TypeErrors of `test_wrong_types` (lists, bare strings without a source, other objects) and of a list key in `d[[2]]`, `d.index([2])`, `{} in d` and `[] in d` have no lemma.
- `test_preprocessor_chaining` needs `Continuize` and `Impute`, which are not part of this model.
- The string-filter lemmas are stated on an eight-word excerpt of the test table, not on the whole table.
- NaN and floating-point rounding are not modelled. Numbers are exact reals.
- Pickling, timing and `filter_visible` tests are not modelled: the model keeps no pickled state, timing is not observable in it, and variable visibility flags are not modelled.

## Findings

| source | as written | input that shows it | evidently intended | confidence | as-written member | corrected member |
|---|---|---|---|---|---|---|
| Orange/data/table/impl.py:274 | `set_weights(weights or 1)` truth-tests the weights matrix | weights `[1, 2]` for a two-row matrix: the truth value of an array of more than one element is ambiguous, and ValueError is raised | use the weights when given, 1 per row otherwise | not executed | SparseTables.WeightsAsWritten | SparseTables.Weights |
| Orange/widgets/rangeslider.py:214, 222 | `self.slidersMoved(...)` calls the bound signal instead of emitting it | any call of `setMinimumPosition` or `setMaximumPosition`: a bound signal is not callable, and TypeError is raised | `self.slidersMoved.emit(...)` | not executed | RangeSliders.RangeSlider.SetMinimumPositionAsWritten | RangeSliders.RangeSlider.SetMinimumPosition |
| Orange/widgets/visualize/owmap.py:637-654 | the latitude/longitude search accepts variables of any type, then takes `index` in the continuous variables | a discrete variable "lat" with a continuous "lon": `continuous_vars.index(lat)` raises ValueError | search only the continuous variables | not executed | Maps.ComboIndicesAsWritten | Maps.ComboIndices |
