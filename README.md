# Veusz dataset transforms and CSV import, in Dafny

This project models two parts of Veusz, the Python plotting package:

- **The dataset transform plugin** (`veusz/plugins/transformplugin.py`).
  - A global registry maps a transform name to its factory, user name, category and description.
  - A factory binds the five-slot dataset array `dss` (x, y, label, size, color). It returns a closure that rewrites one or more one-dimensional datasets in place.
  - The closures change a dataset's `data` array and its optional symmetric (`serr`), positive (`perr`) and negative (`nerr`) error arrays.
- **The CSV importer's name and type inference** (`document/readcsv.py`).
  - A grid of string tokens is read line by line, or column by column when reading in rows.
  - A token that does not convert to the column's type is a directive, which names and types the column.
  - `+`, `-` and `+-` directives attach error columns to the nearest earlier base column.
  - Converted values are appended to per-name lists.
  - `setData` hands the base names, with their error lists, to the document and returns them sorted.

Files:

- `numeric.dfy`
  - Module `Base`: `Option`, `Min`.
  - Module `Numeric`: the value type `Num` (a finite real, +inf, -inf or NaN) with numpy's elementwise arithmetic, `maximum`, `minimum` and `clip`.
- `pyslice.dfy`: Python's extended slice `s[start:stop:step]`.
- `series.dfy` (module `DatasetValues`): the value each transform leaves in a dataset, as functions of the old values, with the lemmas that state what the source promises of them.
- `transform_plugin.dfy` (module `TransformPlugin`):
  - the class `Dataset`, whose fields the transform methods update in place;
  - `dsCodeToIdx`;
  - one method per helper and per closure, each proved to leave the value that `DatasetValues` gives.
- `transform_registry.dfy`: the registry as a class over a `map`.
- `csv_text.dfy` (module `CsvText`): Python's `strip()`, `split()`, `"%i"` and string ordering for `sort()`.
- `readcsv.dfy` (module `ReadCSV`):
  - `_FileReaderRows` and `_FileReaderCols` as classes;
  - the reader as a class `ReadCSV` whose methods update its fields;
  - the functions `Token`, `Tokens` and `ReadLines` that specify its loops.

The X and Y variants of each transform are the same methods with the target `X` or `Y`. The lemma `WrappersAgree` proves these address the same slot as the codes `'x'` and `'y'`.

An operation that raises in the source returns an error value in the model:

- `Status` for the transforms:
  - `UnknownCode` is the `ValueError` of `dsCodeToIdx`;
  - `NoDataset` is the `AttributeError` on an empty slot;
  - `DivisionByZero` is `1./0`;
  - `ZeroStep` is the `ValueError` of a zero slice step.
- `Lookup.KeyError` and `ok == false` for the importer.

Where the code and its documentation disagree, the model follows the code:

- In `_multiplyDatasetDataset` and `_divideDatasetDataset`, the branch meant for "only d1 has errors" tests d2's arrays, which are all absent there. It therefore does nothing: d1's errors keep their old length (`OnlyFirstErrorsKept`).
- When only d2 has errors, `_divideDatasetDataset` writes every present d2 array into `serr` in turn, so the last one present wins. `perr` and `nerr` stay absent (`DivideBy`).
- With a dataset operand, `_subfrom` rewrites the operand `val`, not the slot's dataset (`SubFrom`).
- When an error directive finds no base column, the prefix and suffix end up twice around the generated name (`ErrorResolve`).
- The backward scan of `_getNameAndColType` indexes the `colnames` dict directly, so an unnamed earlier column raises `KeyError`. The model returns `KeyError(c)`, and `readData` stops there with the state reached so far.

## Model

| member | source | states |
|---|---|---|
| TransformRegistry.Name | veusz/plugins/transformplugin.py:120-142 | the name a built-in factory is registered under: the operation's name, followed by X or Y for the variant bound to that slot |
| TransformRegistry.Registry.constructor | veusz/plugins/transformplugin.py:35 | the registry starts empty |
| TransformRegistry.Registry.Register | veusz/plugins/transformplugin.py:37-45 | registering stores the tuple (factory, username, category, description) under the name, replacing any earlier entry; a lookup of the name then yields the new tuple and every other name yields what it did before |
| TransformRegistry.Registry.Get | veusz/plugins/transformplugin.py:35-45 | a lookup finds a tuple exactly when the name is registered, and then it is the registered tuple |
| TransformRegistry.VariantNamesDistinct | veusz/plugins/transformplugin.py:120-142 | the generic, X and Y registrations of one operation have three distinct names, so none replaces another |
| TransformPlugin.DsCodeToIdx | veusz/plugins/transformplugin.py:50-64 | an index is returned exactly when the argument is a string whose lower case is a key of the dictionary {x: 0, y: 1, l: 2, label: 2, s: 3, size: 3, c: 4, color: 4}, and it is that key's value; otherwise ValueError |
| TransformPlugin.Lower | veusz/plugins/transformplugin.py:62 | lower() keeps the length of the code |
| TransformPlugin.LowerOfUpper | veusz/plugins/transformplugin.py:62 | lower-casing an upper-cased code is lower-casing the code |
| TransformPlugin.LowerOfLower | veusz/plugins/transformplugin.py:62 | lower() is idempotent |
| TransformPlugin.AnyCase | veusz/plugins/transformplugin.py:50-64 | every spelling of a code, in any mix of cases, resolves exactly as its lower case does |
| TransformPlugin.DsCodeCaseInsensitive | veusz/plugins/transformplugin.py:50-64 | the all-capitals spelling of any code resolves exactly as the code does |
| TransformPlugin.DottedCapitalI | veusz/plugins/transformplugin.py:62 | under Python 2.7, a code spelled with U+0130 for i, which unicode.lower() maps to i, is recognised: s\u0130ze gives 3 |
| TransformPlugin.Resolve | veusz/plugins/transformplugin.py:123-142 | the slot a closure works on is below 5: the code's slot for the generic closure, 0 for the X variant and 1 for the Y variant |
| TransformPlugin.WrappersAgree | veusz/plugins/transformplugin.py:132-142 | the X and Y variants address the same slot as the generic closure given 'x'/'X' or 'y'/'Y' |
| TransformPlugin.TargetOf | veusz/plugins/transformplugin.py:124-125 | the dataset a closure rewrites is one of the five slots |
| TransformPlugin.Dataset.constructor | veusz/plugins/transformplugin.py:83-118 | a dataset holds the given data and error arrays |
| TransformPlugin.AddSubDataset | veusz/plugins/transformplugin.py:83-118 | d1 ends holding AddSub of the old d1 and d2; this holds even when d1 and d2 are the same dataset |
| TransformPlugin.CumSumDataset | veusz/plugins/transformplugin.py:146-163 | the dataset ends holding CumSum of its old value |
| TransformPlugin.SubFn | veusz/plugins/transformplugin.py:219-223 | the dataset ends holding SubtractReduction of its old value |
| TransformPlugin.MultiplyDatasetScalar | veusz/plugins/transformplugin.py:320-327 | the dataset ends holding Scale of its old value by the factor |
| TransformPlugin.MultiplyDatasetDataset | veusz/plugins/transformplugin.py:329-372 | d1 ends holding Multiply of the old d1 and d2, the branch that does nothing included |
| TransformPlugin.DivideDatasetDataset | veusz/plugins/transformplugin.py:401-448 | d1 ends holding DivideBy of the old d1 and d2, the serr overwrites included |
| TransformPlugin.DivFn | veusz/plugins/transformplugin.py:475-485 | the dataset ends holding DivideByReduction of its old value |
| TransformPlugin.ApplyFnDataset | veusz/plugins/transformplugin.py:601-616 | the dataset ends holding ApplyFn of its old value |
| TransformPlugin.ClipDataset | veusz/plugins/transformplugin.py:804-819 | the dataset ends holding ClipSeries of its old value |
| TransformPlugin.AddOrSub | veusz/plugins/transformplugin.py:120-217 | an unknown code or an empty slot is reported and changes nothing; otherwise the slot's dataset gets AddSub with a dataset operand, or data plus/minus the scalar; every other dataset is unchanged |
| TransformPlugin.CumSumTransform | veusz/plugins/transformplugin.py:165-193 | the code's outcome is reported; on success only the target changes, to CumSum of its old value |
| TransformPlugin.SubReduction | veusz/plugins/transformplugin.py:227-285 | the code's outcome is reported; on success only the target changes, to SubtractReduction of its old value |
| TransformPlugin.SubFrom | veusz/plugins/transformplugin.py:287-317 | with a dataset operand, the operand becomes AddSub(operand, target, subtract) and the slots are untouched; with a scalar, the target's data becomes val - data; nothing else changes |
| TransformPlugin.Mul | veusz/plugins/transformplugin.py:374-398 | the code's outcome is reported; on success only the target changes, to Multiply by a dataset or Scale by a scalar |
| TransformPlugin.Div | veusz/plugins/transformplugin.py:450-473 | an unknown code is reported first; then a zero scalar raises ZeroDivisionError, even for an empty slot, because 1./val is evaluated before the dataset is used; then an empty slot is reported. Only on success does the target change, to DivideBy, or to Scale by 1/val; nothing else changes |
| TransformPlugin.DivReduction | veusz/plugins/transformplugin.py:489-570 | the code's outcome is reported; on success only the target changes, to DivideByReduction of its old value |
| TransformPlugin.NormRangeTransform | veusz/plugins/transformplugin.py:572-598 | the code's outcome is reported; on success only the target changes, to NormRange of its old value |
| TransformPlugin.Apply | veusz/plugins/transformplugin.py:620-800 | the code's outcome is reported; on success only the target changes, to ApplyFn with the given function |
| TransformPlugin.ClipTransform | veusz/plugins/transformplugin.py:821-846 | the code's outcome is reported; on success only the target changes, to ClipSeries with the given bounds |
| TransformPlugin.Rotate | veusz/plugins/transformplugin.py:849-865 | with x and y present, both get the rotated coordinates with every error array cleared, y last when they are the same dataset; an empty slot changes nothing |
| TransformPlugin.Translate | veusz/plugins/transformplugin.py:867-877 | x's data is shifted by dx and y's by dy, twice when x and y are the same dataset; an empty x slot changes nothing; no error array changes |
| TransformPlugin.OccurrencesStep | veusz/plugins/transformplugin.py:883-884 | counting the slots that hold a dataset advances by one slot at a time |
| TransformPlugin.SliceDataset | veusz/plugins/transformplugin.py:885-887 | data and every error array present get the same slice; absent arrays stay absent |
| TransformPlugin.SliceSlots | veusz/plugins/transformplugin.py:883-889 | each dataset is sliced once per slot it occupies; empty slots are skipped |
| TransformPlugin.Thin | veusz/plugins/transformplugin.py:879-890 | every present array of every present dataset becomes its [start::step] slice; a zero step raises and changes nothing |
| TransformPlugin.IndexRange | veusz/plugins/transformplugin.py:892-906 | every present array of every present dataset becomes its [start:end:step] slice; a zero step raises and changes nothing |
| DatasetValues.SquaredError | veusz/plugins/transformplugin.py:106-115 | the symmetrised squared error is as long as serr, or as long as perr when serr is absent |
| DatasetValues.AddSubData | veusz/plugins/transformplugin.py:83-90 | the data is cut to min(len d1, len d2), and element i is d1[i] + d2[i] (or d1[i] - d2[i]) |
| DatasetValues.AddSubErrors | veusz/plugins/transformplugin.py:93-118 | only d2 has errors: d2's present arrays are copied, cut to minlen. d2 has none: d1's errors are untouched. Both have errors: perr and nerr are cleared, and when both datasets are consistent (each error array as long as its data) serr has length minlen |
| DatasetValues.AddThenSub | veusz/plugins/transformplugin.py:83-90 | adding then subtracting the same finite dataset gives d1's data back, cut to the shared length |
| DatasetValues.ScaleShape | veusz/plugins/transformplugin.py:320-327 | the data and every present error array are multiplied elementwise by the factor; absent arrays stay absent and lengths are kept |
| DatasetValues.ScaleBackArr | veusz/plugins/transformplugin.py:459 | multiplying a finite array by c and then by 1/c gives it back |
| DatasetValues.ScaleThenDivide | veusz/plugins/transformplugin.py:459 | dividing by a non-zero scalar, which multiplies by 1./val, undoes multiplying by it |
| DatasetValues.FracSquared | veusz/plugins/transformplugin.py:356-365 | the fractional squared error is as long as the data |
| DatasetValues.CombinedFraction | veusz/plugins/transformplugin.py:367-368 | the combined fractional error is as long as the shared length |
| DatasetValues.MultiplyShape | veusz/plugins/transformplugin.py:329-372 | the data is cut to minlen and is d1[i]*d2[i]. Only d2 has errors: serr, perr and nerr are present exactly where d2 has them, and each is d2's array cut to minlen and scaled by abs(d1), entry by entry. Both have errors: serr has length minlen, perr and nerr are cleared |
| DatasetValues.DivideShape | veusz/plugins/transformplugin.py:401-448 | the data is cut to minlen and is d1[i]/d2[i]. When d2 has errors, serr has length minlen and perr and nerr are absent afterwards |
| DatasetValues.OnlyFirstErrorsKept | veusz/plugins/transformplugin.py:345-352 | when only d1 has errors and d2 is shorter, multiply and divide keep d1's error arrays as they were, now longer than the data |
| DatasetValues.Least | veusz/plugins/transformplugin.py:581 | N.min of the finite values is one of them and at most every one |
| DatasetValues.Greatest | veusz/plugins/transformplugin.py:582 | N.max of the finite values is one of them and at least every one |
| DatasetValues.ReductionsWithoutFiniteValues | veusz/plugins/transformplugin.py:219-223 | with no finite value, _subfn, _divfn and NormRange leave the dataset unchanged |
| DatasetValues.FiniteValuesMember | veusz/plugins/transformplugin.py:221 | every finite entry of the data is among the values that data[isfinite(data)] selects |
| DatasetValues.NormRangeAt | veusz/plugins/transformplugin.py:576-583 | a finite entry is normalised into [0, 1] |
| DatasetValues.NormRangeUnit | veusz/plugins/transformplugin.py:572-584 | when the finite values are not all equal, every finite entry ends in [0, 1], the length is kept, and the error arrays are untouched |
| DatasetValues.Running | veusz/plugins/transformplugin.py:152 | numpy.cumsum keeps the length |
| DatasetValues.Reverse | veusz/plugins/transformplugin.py:149 | v[::-1] keeps the length |
| DatasetValues.Finites | veusz/plugins/transformplugin.py:147-154 | the cumulative sums as an array keep the length |
| DatasetValues.CalcCum | veusz/plugins/transformplugin.py:147-154 | calccum keeps the length |
| DatasetValues.Quadrature | veusz/plugins/transformplugin.py:158-163 | sqrt(calccum(err**2)) keeps the length |
| DatasetValues.SumAppend | veusz/plugins/transformplugin.py:151-152 | the zeroed sum of an array with one more entry adds that entry, or 0 when it is not finite |
| DatasetValues.RunningAt | veusz/plugins/transformplugin.py:152 | entry i of the running sum is the start plus the zeroed sum of the prefix up to i |
| DatasetValues.ReverseAt | veusz/plugins/transformplugin.py:149 | entry i of v[::-1] is entry n-1-i of v |
| DatasetValues.SumReverse | veusz/plugins/transformplugin.py:149-154 | reversing does not change the zeroed sum |
| DatasetValues.CalcCumAt | veusz/plugins/transformplugin.py:147-154 | entry i is the sum of the prefix 0..i, or of the suffix i..n-1 when reversed, with non-finite entries counted as 0 |
| DatasetValues.RunningNonNegative | veusz/plugins/transformplugin.py:152 | a running sum of non-negative terms from a non-negative start is never negative |
| DatasetValues.SquaresNonNegative | veusz/plugins/transformplugin.py:163 | nerr**2 is non-negative wherever it is finite |
| DatasetValues.CumSumData | veusz/plugins/transformplugin.py:146-163 | the cumulative sum keeps every length and every array's presence, and data[i] is the prefix (suffix when reversed) sum, with non-finite entries counted as 0 |
| DatasetValues.AccumulatedSquares | veusz/plugins/transformplugin.py:163 | calccum(nerr**2) is finite and non-negative |
| DatasetValues.CumSumNegativeError | veusz/plugins/transformplugin.py:162-163 | nerr, when present, is finite and non-positive after the cumulative sum |
| DatasetValues.SumNonNegative | veusz/plugins/transformplugin.py:152 | a zeroed sum of non-negative terms is non-negative |
| DatasetValues.ApplyFnShape | veusz/plugins/transformplugin.py:601-616 | serr is cleared, data becomes fun(data), perr (nerr) is present exactly when serr or perr (nerr) was, and each bound is fun(bound) - fun(data) |
| DatasetValues.ApplyIdentitySplitsError | veusz/plugins/transformplugin.py:601-616 | the identity function turns a symmetric error into the pair (+serr, -serr) and keeps the data |
| DatasetValues.ClipShape | veusz/plugins/transformplugin.py:804-819 | every non-NaN value ends in [minv, maxv] and values already there are unchanged; serr is cleared; perr (nerr) is present exactly when serr or perr (nerr) was |
| DatasetValues.ClipIdempotent | veusz/plugins/transformplugin.py:804-819 | clipping the data twice to one range is clipping it once |
| DatasetValues.Rotated | veusz/plugins/transformplugin.py:854-859 | the rotated x and y arrays are as long as the inputs |
| DatasetValues.RotateByZero | veusz/plugins/transformplugin.py:854-861 | a rotation by angle zero leaves finite coordinates in place |
| DatasetValues.SliceTimesConsistent | veusz/plugins/transformplugin.py:883-889 | slicing keeps every error array as long as the data, however many slots hold the dataset |
| PySlice.Bounds | veusz/plugins/transformplugin.py:887 | the normalised start and stop of a slice lie within the sequence (from -1 for a negative step) |
| PySlice.WalkAt | veusz/plugins/transformplugin.py:887 | element k of a slice is s[first + k*step]; each index taken lies before stop, and the next would not |
| PySlice.SliceContiguous | veusz/plugins/transformplugin.py:903 | s[start:stop] with the default step is the contiguous subsequence |
| PySlice.WalkSameLength | veusz/plugins/transformplugin.py:885-887 | walks over sequences of one length take as many elements |
| PySlice.SliceSameLength | veusz/plugins/transformplugin.py:885-887 | one slice of arrays of one length gives arrays of one length |
| PySlice.ThinElements | veusz/plugins/transformplugin.py:887 | s[start::step] is every step-th element from start, up to the end |
| Numeric.Map1 | veusz/plugins/transformplugin.py:609 | a ufunc keeps the length and applies elementwise |
| Numeric.Map2 | veusz/plugins/transformplugin.py:86-88 | a binary ufunc on arrays of one length applies elementwise |
| Numeric.Take | veusz/plugins/transformplugin.py:84-88 | a[:n] has length min(len a, n) and keeps its elements |
| Numeric.FiniteValues | veusz/plugins/transformplugin.py:221 | data[isfinite(data)] is no longer than data |
| Numeric.FiniteValuesEmpty | veusz/plugins/transformplugin.py:221-222 | the finite values are empty exactly when no entry is finite |
| CsvText.StripLeftSpec | document/readcsv.py:114 | removing leading whitespace keeps a suffix, removes only whitespace, and leaves a non-space first character or nothing |
| CsvText.StripRightSpec | document/readcsv.py:114 | removing trailing whitespace keeps a prefix, removes only whitespace, and leaves a non-space last character or nothing |
| CsvText.StripEnds | document/readcsv.py:114 | neither end of a stripped string is whitespace |
| CsvText.StripFixed | document/readcsv.py:114 | a string whose two ends are not whitespace is unchanged by strip() |
| CsvText.StripIdempotent | document/readcsv.py:201 | stripping twice is stripping once |
| CsvText.StripRemovesOnlySpace | document/readcsv.py:201 | strip() removes whitespace only, from the two ends |
| CsvText.WordSpec | document/readcsv.py:114 | the first word is a non-space prefix followed by whitespace or the end |
| CsvText.WordsSpec | document/readcsv.py:114 | every word of split() is non-empty and holds no whitespace |
| CsvText.WordOfWord | document/readcsv.py:114 | a string without whitespace is its own first word |
| CsvText.StrippedHasWords | document/readcsv.py:114-116 | a string that is not blank once stripped has a non-empty first and last word, so s[0] and s[-1] exist |
| CsvText.WordBeforeSpace | document/readcsv.py:114 | the first word of `a + rest` is a when rest starts with whitespace |
| CsvText.WordsOfSpacedWord | document/readcsv.py:114 | " b" splits into the single word b |
| CsvText.TwoWords | document/readcsv.py:114-116 | "a b" strips to itself and splits into a and b |
| CsvText.TwoWordsSplit | document/readcsv.py:114 | "a b" splits into exactly [a, b] |
| CsvText.OneWord | document/readcsv.py:114-116 | a single word strips and splits to itself |
| CsvText.Decimal | document/readcsv.py:107 | "%i" of a number is a non-empty string of digits |
| CsvText.DecimalRoundTrip | document/readcsv.py:107 | the digits of n read back as n |
| CsvText.DecimalInjective | document/readcsv.py:107 | different numbers get different digits |
| CsvText.LexTotal | document/readcsv.py:246 | any two names are ordered one way or the other |
| CsvText.LexTransitive | document/readcsv.py:246 | the order of names is transitive |
| CsvText.LexAntisymmetric | document/readcsv.py:246 | names ordered both ways are equal |
| CsvText.LexReflexive | document/readcsv.py:246 | every name is ordered with itself |
| CsvText.Insert | document/readcsv.py:246 | inserting adds exactly the one name, at the front or after the first element |
| CsvText.Sort | document/readcsv.py:246 | sort() gives a permutation of the names |
| CsvText.InsertSorted | document/readcsv.py:246 | inserting into a sorted list keeps it sorted |
| CsvText.SortSorted | document/readcsv.py:246 | sort() gives an ascending list |
| CsvText.SortedPairs | document/readcsv.py:246 | in a sorted list every earlier name is ordered before every later one |
| ReadCSV.GeneratedNameParts | document/readcsv.py:101-109 | _generateName(c) is prefix + 'row'/'col' + the digits of c+1 + suffix, and those digits read back as c+1 |
| ReadCSV.GenerateNameInjective | document/readcsv.py:101-109 | different columns get different generated names |
| ReadCSV.TypeOfWord | document/readcsv.py:131-136 | (string) or (text) gives string, (date) or (time) gives date, anything else float |
| ReadCSV.ScanBase | document/readcsv.py:118-127 | the backward scan stops at an earlier column that is named with a base name, or at one that has no name |
| ReadCSV.ScanBaseNearest | document/readcsv.py:118-127 | the scan stops at the nearest such column, and finds none exactly when every earlier column is named and none is a base |
| ReadCSV.Resolve | document/readcsv.py:111-137 | a resolved directive has a real type and a non-empty name |
| ReadCSV.NameAndColTypeOfWords | document/readcsv.py:113-115 | the directive is resolved on the first and last word of the stripped token |
| ReadCSV.DirectiveNamesColumn | document/readcsv.py:111-137 | "name type" names the column prefix + name + suffix, typed by its last word |
| ReadCSV.SingleWordDirective | document/readcsv.py:111-137 | a one-word directive is typed by that same word: float unless it is itself a type name |
| ReadCSV.ErrorResolve | document/readcsv.py:117-137 | '+', '-' or '+-' takes the nearest base column's type and the name base + suffix. An unnamed column on the way is KeyError. With no base, the prefix and suffix are applied twice around the generated name |
| ReadCSV.ErrorDirective | document/readcsv.py:111-137 | "+- type" is resolved as ErrorResolve describes |
| ReadCSV.Pad | document/readcsv.py:141-142 | padding keeps the old entries, fills with '' and reaches the column |
| ReadCSV.NamedEffect | document/readcsv.py:139-147 | _setNameAndType pads coltypes with '' up to the column, sets coltypes, colnames and nametypes, and creates an empty list only for a new name; no list is ever cleared |
| ReadCSV.NamedWellFormed | document/readcsv.py:139-147 | registering a non-empty name with a type keeps the tables consistent: every named column is typed and has a list |
| ReadCSV.EffectiveType | document/readcsv.py:183-186 | a column is converted with a real type, float when it is unset |
| ReadCSV.DirectiveToken | document/readcsv.py:197-206 | the except branch keeps the tables consistent and changes nothing when it raises KeyError |
| ReadCSV.Appended | document/readcsv.py:208-217 | appending a converted value keeps the tables consistent |
| ReadCSV.Token | document/readcsv.py:181-217 | one token keeps the tables consistent, and a KeyError leaves the state as it was |
| ReadCSV.BlankTokenSkipped | document/readcsv.py:197-203 | a token that fails conversion and is blank once stripped changes nothing |
| ReadCSV.UnnamedColumnReadsFloat | document/readcsv.py:183-184 | an unnamed column is tried as float |
| ReadCSV.ValueAppended | document/readcsv.py:208-217 | an unnamed column is first named by _generateName and typed float; the value is appended to that column's list, and no other list changes |
| ReadCSV.FailedConversionIsDirective | document/readcsv.py:197-206 | any failed conversion of a non-blank token, on any line, renames and retypes the column, or raises KeyError with no change |
| ReadCSV.Tokens | document/readcsv.py:181-217 | the tokens of a line keep the tables consistent |
| ReadCSV.ReadLines | document/readcsv.py:174-217 | reading the lines keeps the tables consistent |
| ReadCSV.TokensStep | document/readcsv.py:181 | the line advances one token at a time and stops at a KeyError |
| ReadCSV.ReadLinesStep | document/readcsv.py:174-181 | the reading advances one line at a time and stops at a KeyError |
| ReadCSV.FirstReadTyped | document/readcsv.py:149-217 | after a first read every name with values has a type, as setData needs |
| ReadCSV.MaxLength | document/readcsv.py:52-54 | maxlength is the length of the longest row, 0 for no rows |
| ReadCSV.TransposeTwice | document/readcsv.py:42-73 | reading a rectangular grid in columns twice gives the grid back |
| ReadCSV.RowsReader.constructor | document/readcsv.py:48-56 | the reader keeps every row in order, with the longest row's length, and starts at column 0 |
| ReadCSV.RowsReader.Next | document/readcsv.py:58-73 | exactly maxlength columns come out and then StopIteration; column k has one entry per row, row[k] or '' for a short row |
| ReadCSV.ColsReader.constructor | document/readcsv.py:35-36 | the reader hands out the tokeniser's lines from the first |
| ReadCSV.ColsReader.Next | document/readcsv.py:38-40 | the lines come out in order, then StopIteration |
| ReadCSV.DistinctCount | document/readcsv.py:232 | each name is appended to dsnames at most once |
| ReadCSV.SetDataStart | document/readcsv.py:222-223 | before the loop no name has been handed over |
| ReadCSV.SetDataSkip | document/readcsv.py:226-228 | a name ending in '+' or '-' is skipped and nothing is handed over |
| ReadCSV.SetDataAdd | document/readcsv.py:232-244 | a base name is listed and handed over with its dataset |
| ReadCSV.SetDataEnd | document/readcsv.py:219-247 | at the end every base name is listed once and handed over, and every other document entry is kept |
| ReadCSV.ReadCSV.constructor | document/readcsv.py:78-99 | a new reader has no values and empty column tables |
| ReadCSV.ReadCSV.GetNameAndColType | document/readcsv.py:111-137 | the backward while loop answers what NameAndColType specifies, KeyError included |
| ReadCSV.ReadCSV.SetNameAndType | document/readcsv.py:139-147 | the padding loop and the updates leave exactly the state Named gives |
| ReadCSV.ReadCSV.ProcessToken | document/readcsv.py:181-217 | one iteration of the inner loop leaves the state Token gives and keeps the tables consistent |
| ReadCSV.ReadCSV.ReadLine | document/readcsv.py:181-217 | the inner for loop leaves the state Tokens gives, stopping at a KeyError |
| ReadCSV.ReadCSV.ReadData | document/readcsv.py:149-217 | the column tables are reset, the earlier lists are kept, and the while loop leaves the state ReadLines gives over the lines (the columns when reading in rows) |
| ReadCSV.ReadCSV.SetData | document/readcsv.py:219-247 | returns every base name exactly once, sorted. Each base name is handed to the document with its '+-', '+' and '-' lists when present, as a text dataset when string-typed. Other document entries are kept |

## Left out

- File opening and the CSV tokeniser (`UnicodeCSVReader`) are not modelled. The input is the grid of tokens, a `seq<seq<string>>`.
- Floating point is exact real arithmetic: no rounding, overflow or signed zero. +inf, -inf and NaN are kept, with numpy's rules for them in `+`, `-`, `*`, `/`, `maximum`, `minimum` and `clip`.
- Foreign numerics are parameters of the operations: `sqrt`; the reductions `N.min`, `N.max`, `N.mean`, `N.std` and `N.sum` given to `_subfn` and `_divfn`; the functions `log10`, `log`, `exp`, `**` and the user's `fn` given to `_applyFn`; `cos` and `sin` of the rotation angle; `float()` and `dateStringToDate`.
- Arrays of different lengths combined elementwise are excluded by preconditions (`Symmetrisable`, `Fractional`, `AtLeast`, `AddSubDefined`, `MulDivDefined`, `Consistent`, `ClipDefined`, and the equal x and y lengths of `Rotate`). This also excludes numpy broadcasting of a length-1 array against a longer one, which the source accepts without error; those inputs are not modelled.
- When both datasets have errors and one of them has no serr and only one of perr and nerr, the source squares None and raises TypeError (transformplugin.py:112, 116, 359, 364, 436, 441). `Symmetrisable` and `Fractional`, and through them `AddSubDefined` and `MulDivDefined`, exclude these inputs, so this TypeError is not modelled as an outcome. Nor is the partial update it leaves in Add and Sub, where d1.data has already been replaced (lines 88-90) when the error is raised.
- `veusz/threed/funcs.py` is not part of this model.
- Qt translation `_()`, the category label strings and the text of the descriptions are not modelled.
- `document.setData` and the `Dataset`/`DatasetText` constructors are modelled as entries of a map.
- `linkedfile` is not modelled.
- Array identity is not modelled. The source keeps numpy arrays, which are shared buffers, and some transforms write into them in place (`data[:] = `, `*=`). The model holds arrays as values, so an array shared between two datasets, or between a dataset and another holder, is not tracked. Whole datasets may still alias: a dataset in several slots is sliced once per slot.
- SetData: the source takes names from a dict in its own iteration order. The model picks them in any order, and the result is the same for every order.
- SetData: the source raises `IndexError` on an empty name and `KeyError` on a base name with no type. The model requires neither to happen. After a read that starts from a fresh reader neither can (`FirstReadTyped`).
- DsCodeToIdx: lower() follows unicode.lower() of Python 2.7 for the characters whose lower case is an ASCII letter (A-Z, U+0130, U+212A) and leaves every other character as it is. Other characters are lowered to non-ASCII characters in Python, so whether a code is recognised is the same either way, but the lowered text itself is not modelled. A byte-string code, whose lower() changes only A-Z, is not modelled separately. Under Python 3, which the module's `__future__` imports also allow, str.lower() maps U+0130 to "i" followed by U+0307, so a code spelled with U+0130 is not recognised there; the model, and `DottedCapitalI`, follow Python 2.7.
- Rotate: the angle is given as its cosine and sine. When the x and y slots hold one dataset, only its final value (the y coordinates) is stated.
- Translate: `+=` works on numpy arrays; the model assigns the shifted data.
- AddOrSub, SubFrom, Mul, Div: a scalar operand is a `Num`, not an arbitrary Python object or numpy array.
- Div: `1./val` is `DivisionByZero` for val == 0, which is what a Python float raises; a numpy scalar would give inf instead.
- Thin, IndexRange: `start` is an integer; `None` and non-integer start values are not modelled.
- The while/else of `_getNameAndColType` is modelled on the map `colnames`. The `KeyError` it raises for an unnamed earlier column is an error outcome that stops `readData`, instead of a precondition.
