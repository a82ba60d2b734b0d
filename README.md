# Raster manipulation utilities — a Dafny model

This project models the logic of three small batch raster tools written in Python 2:

- `replacePixelValue.py` — the conditional pixel-value remapping engine.
  - `getFunction` compiles an operator string such as `">+<="` and a threshold string
    such as `"5+10"` into one pixel predicate. The predicate is the conjunction
    (`combine`/`combine2`) of the comparisons that `zip` pairs.
  - `main` compiles the rule list `zip(operators, invals, outvals)` and chooses the
    condition source (the band's own data, one fixed band of the input or of a calc map,
    or band b of the calc map). It then walks the bands 1..N: unselected bands are
    copied, and each selected band has its rules applied in order by masked in-place
    assignment (`indata[bools] = outvalue`).
  - The script's command line splits the comma lists and parses the numbers.
- `difference.py` — the band-difference stack: output band 1 is zeros, output band b is
  input band b minus input band b − 1. The script also checks the argument count.
- `clipRasterNonzero.py` — the path and command text of the clip tool:
  - the shapefile path derived from the clip path, and the `.lyr` layer name;
  - the `gdal_polygonize.py` command;
  - the `-cwhere` attribute filter;
  - the choice between the two `gdalwarp` templates.

Modules:

- `Text` and `Paths` model the Python 2 string and `posixpath` functions the tools use
  (`strip`, `lower`, `split`, `join`, `replace`, `format`, `int`, `basename`,
  `dirname`, `splitext`, `os.path.join`). Strings are Python 2 byte strings, so only
  ASCII whitespace and A–Z are special.
- `Raster` holds the band value (`rows`, `cols`, pixels flattened row by row), the
  error kinds and the `Result` type.
- `Predicates` models the operator compiler. A compiled closure is a `Pred` value
  interpreted by `Eval`.
- `ReplacePixelValue` models `main` twice:
  - as functions on values (`ReplacePixelValues`, `Outputs`, `BandOutput`,
    `RunAliased`, `RunFixed`);
  - as imperative methods over `array<int>`: `Replace`, `RunBands`, `ProcessBand`,
    `AssignMasked`. Each method is proved equal to its function.

  In the default mode the methods pass the very array they rewrite as the condition
  array, as the program does.
- `Difference` models the band loop as a method, proved equal to `DifferenceStack`.
- `ClipRaster` models the commands. The templates are piece lists whose rendering is
  proved equal to `str.format` on their text.
- `Scenarios` works through concrete runs.

Behaviour of the code that is easy to misread, which the model keeps:

- Own-data mode aliases the condition to the working array. The condition array
  `origdata` is the working array itself (`replacePixelValue.py:149`, `:153`,
  `:158`, `:167`). A later rule therefore tests the values earlier rules wrote. With
  rules `(> 5 → 99)` then `(< 10 → 1)`, pixel 7 ends as 99; a condition read before
  any rule ran would give 1.
  See `Scenarios.AliasingChangesOutcome` and the Findings below.
- An empty rule list leaves `outdata`'s placeholder `0` for a selected band, not the
  band itself (`replacePixelValue.py:124`, `:140`). From the command line the lists
  are never empty (`ReplacePixelValue.CommandLineNoPlaceholder`).
- `int()` on `--inband` and `--calcband` skips whitespace after the sign (`"- 5"` is −5),
  while `float()` on thresholds and output values does not (`Text.IntSpaceAfterSign`).
- Operator text is not whitespace-insensitive per sub-token. Only the whole string is
  stripped, so `"> + <"` yields the sub-token `"> "`, which is rejected
  (`Scenarios.SpacedOperatorRejected`).
- Operator sub-tokens without a threshold are dropped by `zip` unchecked, even
  unrecognised ones (`Scenarios.UnpairedOperatorIgnored`). Only operators that have a
  threshold are checked.

## Model

| member | source | states |
|---|---|---|
| Predicates.Combine2 | replacePixelValue.py:24-25 | the combined predicate holds at a pixel exactly when both predicates do |
| Predicates.Combine | replacePixelValue.py:27-28 | the reduce over one or more predicates holds exactly when every one of them holds; a single predicate is returned unchanged |
| Predicates.OperatorTokens | replacePixelValue.py:32-33 | the operator sub-tokens are the stripped, lower-cased string cut at every `+`: at least one, none holding `+`, and joined with `+` they give that string back |
| Predicates.ValueTokens | replacePixelValue.py:35-36 | the threshold sub-tokens are the stripped, lower-cased string cut at every `+`: at least one, none holding `+`, and joined with `+` they give that string back |
| Predicates.ParseOp | replacePixelValue.py:46-71 | a recognised sub-token is one of the two spellings of the comparison it yields (`>`, `<`, `<=`/`=<`, `>=`/`=>`, `=`/`==`, `!=`/`=!`); a rejected one is no spelling of any comparison |
| Predicates.ParseNumbers | replacePixelValue.py:36 | the list comprehension succeeds iff every token parses; it then yields one value per token, in order; otherwise it fails with the first token that does not parse |
| Predicates.Comparisons | replacePixelValue.py:38-73 | over the pairs `zip` forms (the shorter length), succeeds iff every paired operator is recognised; it then yields one comparison per pair, in order; otherwise it fails on the first unrecognised paired operator |
| Predicates.PairCount | replacePixelValue.py:33-38 | `split` always yields a sub-token, so `zip` forms at least one pair and never more than either list has |
| Predicates.GetFunction | replacePixelValue.py:30-77 | a failure is either the first threshold that does not parse, or, when all parse, the first paired operator that is not recognised |
| Predicates.GetFunctionSucceeds | replacePixelValue.py:30-77 | compiling succeeds exactly when every threshold sub-token parses and every operator sub-token that has a threshold is recognised; unpaired operators are never checked |
| Predicates.GetFunctionValueErrorFirst | replacePixelValue.py:35-41 | thresholds are parsed before any operator is examined: a bad threshold gives its own error whatever the operators are |
| Predicates.GetFunctionEval | replacePixelValue.py:38-75 | the compiled predicate holds at a pixel iff every paired comparison `pixel op_i value_i` holds (an AND over the pairs) |
| ReplacePixelValue.Collect | replacePixelValue.py:85-88 | a list of compile results succeeds iff each does; it then yields their values in order, otherwise the first failure's error |
| ReplacePixelValue.CompileRules | replacePixelValue.py:83-88 | the rules are the triples `zip` forms (the shortest of the three lists); success iff every pair compiles; rule i is compiled pair i with output value i; otherwise the first failing pair's error |
| ReplacePixelValue.PixelAliased | replacePixelValue.py:140-167 | with the working array as condition, a pixel ends as its own value or as the output value of one of the rules |
| ReplacePixelValue.PixelFixed | replacePixelValue.py:156-167 | with a fixed condition, a pixel ends as its own value or as the output value of one of the rules |
| ReplacePixelValue.RunAliased | replacePixelValue.py:140-167 | the aliased rule loop keeps the band's length |
| ReplacePixelValue.RunFixed | replacePixelValue.py:156-167 | the rule loop over a fixed condition keeps the band's length |
| ReplacePixelValue.RunAliasedPixel | replacePixelValue.py:149-167 | with the working array as its own condition, each pixel ends as its own value carried through the rules in order, each rule testing what the previous ones left |
| ReplacePixelValue.RunFixedPixel | replacePixelValue.py:156-167 | with a condition array nothing rewrites, each pixel's result depends only on its condition value and its own value |
| ReplacePixelValue.PixelFixedNoMatch | replacePixelValue.py:164-167 | with a fixed condition, a pixel whose condition value no rule matches keeps its value |
| ReplacePixelValue.PixelFixedLastMatch | replacePixelValue.py:140-167 | with a fixed condition, the last rule matching the condition value decides the pixel, whatever the pixel's own value |
| ReplacePixelValue.OneRuleAliasIsHarmless | replacePixelValue.py:149-167 | with one rule, the aliased and the fixed condition give the same pixel |
| ReplacePixelValue.ConditionSource | replacePixelValue.py:98-121 | a non-zero calcband selects that band of the calc map, or of the input without one, and fails exactly when that band is missing; without it the calc map's bands are the condition, and with neither the band's own data |
| ReplacePixelValue.ConditionSourceWellFormed | replacePixelValue.py:98-121 | a successfully chosen condition source consists of well-formed bands |
| ReplacePixelValue.OutputsPerBand | replacePixelValue.py:124-170 | the run holds one entry per band, in band order, each the output of its band; it fails exactly when some band does |
| ReplacePixelValue.OutputsFirstError | replacePixelValue.py:127-170 | the first failing band ends the run with its error |
| ReplacePixelValue.ConditionBand | replacePixelValue.py:156-161 | the condition for band b: none in own-data mode, the fixed band when one was chosen, calc-map band b otherwise, failing exactly when the calc map has no band b |
| ReplacePixelValue.BandOutput | replacePixelValue.py:127-170 | an unselected band is copied; a selected band with no rules keeps the placeholder; a selected band with rules fails with `MissingBand` exactly when its condition band is missing, with `ShapeMismatch` exactly when that band has another shape, and otherwise succeeds with a band of its own shape and length |
| ReplacePixelValue.Outputs | replacePixelValue.py:124-170 | a successful run over the first n bands has one entry per band |
| ReplacePixelValue.ReplacePixelValues | replacePixelValue.py:83-170 | a rule compile error is returned as it is; a raster without bands fails with `NoBands`; a successful run has one entry per input band |
| ReplacePixelValue.ReplaceSucceeds | replacePixelValue.py:83-170 | a run succeeds exactly when the rules compile, the raster has a band, the condition source can be read and every selected band (when there are rules) has a condition band of its own shape |
| ReplacePixelValue.OutputsSucceed | replacePixelValue.py:124-170 | the band loop over all bands succeeds exactly when every selected band (when there are rules) has a condition band of its own shape |
| ReplacePixelValue.ProcessedStep | replacePixelValue.py:140-170 | the first i+1 rules are rule i applied to the result of the first i; its mask comes from the fixed condition band or, without one, from that result itself |
| ReplacePixelValue.AssignMasked | replacePixelValue.py:167 | masked pixels of the array take the value in place; the others keep theirs |
| ReplacePixelValue.ProcessBand | replacePixelValue.py:140-170 | the imperative rule loop of one selected band. It reads the band at rule 0, re-resolves the condition per rule (the working array itself, or calc-map band b read afresh) and assigns through each mask in place. It returns exactly `BandOutput`, including the placeholder for no rules and the missing-band and shape errors |
| ReplacePixelValue.ReadCondition | replacePixelValue.py:98-121 | with a non-zero calcband, reads that one band of the calc map (or of the input) as the fixed condition array, failing when the band is missing; otherwise reads nothing and reports whether a calc map is used |
| ReplacePixelValue.Replace | replacePixelValue.py:83-170 | the imperative `main`. It compiles the rules, fails on a raster without bands, chooses the condition source and runs the band loop. Its result is exactly `ReplacePixelValues` |
| ReplacePixelValue.RunBands | replacePixelValue.py:124-170 | the imperative band loop copies unselected bands and rewrites selected ones. Its result is exactly `Outputs` over all bands, the first failing band ending it |
| ReplacePixelValue.ReplaceOutput | replacePixelValue.py:83-170 | a successful run compiled its rules, chose its condition source and holds one entry per input band, entry b−1 being band b's output |
| ReplacePixelValue.ReplaceBands | replacePixelValue.py:124-138 | a successful run has one entry per band. An unselected band is copied unchanged. A selected band keeps the placeholder `0` when the rule list is empty, and otherwise holds a band of its own shape |
| ReplacePixelValue.OwnDataPixel | replacePixelValue.py:145-167 | in the own-data mode a selected pixel ends as its own value carried through the rules in order (aliasing) |
| ReplacePixelValue.ConditionBandPixel | replacePixelValue.py:156-167 | with a condition band, a pixel keeps its value when no rule matches its condition pixel, and otherwise takes the last matching rule's value |
| ReplacePixelValue.CopiedConditionPixel | replacePixelValue.py:149 | when the rules test a copy of the band as read, the last rule matching the pixel's original value decides it; a value no rule matches is kept |
| ReplacePixelValue.OwnDataPixels | replacePixelValue.py:117-121 | without a calc map and with no (or a zero) calcband, every selected pixel of a successful run is its own value carried through the rules (aliased) |
| ReplacePixelValue.FixedConditionPixels | replacePixelValue.py:101-116 | with a non-zero calcband, the named band (of the calc map if given, else of the input) exists and decides every selected pixel: last matching rule, or unchanged |
| ReplacePixelValue.CalcMapPixels | replacePixelValue.py:106-108 | with a calc map and no calcband, calc-map band b exists in a successful run and decides the pixels of band b: last matching rule, or unchanged |
| ReplacePixelValue.Range1 | replacePixelValue.py:196 | `range(1, n+1)` holds 1..n in order |
| ReplacePixelValue.IntResult | replacePixelValue.py:198 | `int()` on one token: the parsed value, or the token as a `BadNumber` error |
| ReplacePixelValue.ParseInts | replacePixelValue.py:198 | the list comprehension over `int()` succeeds iff every token parses; it then yields one value per token, in order; otherwise it fails with the first token that does not parse |
| ReplacePixelValue.CommandLine | replacePixelValue.py:188-203 | formatting succeeds iff the output values parse with `float()` and the given band numbers and a given calcband parse with `int()`; a failure is a `BadNumber`. On success the operators and thresholds are the comma splits, the output values the parsed split, each list non-empty; without `--inband` the bands are 1..N, otherwise one `int()` value per token in order; the calcband is absent or its `int()` value |
| ReplacePixelValue.CommandLineNoPlaceholder | replacePixelValue.py:188-207 | from the command line no band of a successful run is left as the placeholder; without `--inband` every band is selected |
| Difference.Zeros | difference.py:49 | a band of the input band's shape holding only zeros |
| Difference.Minus | difference.py:56 | a band of the current band's shape whose pixels added to the last band's give the current band's |
| Difference.DifferenceStack | difference.py:37-61 | succeeds exactly when there is a band, otherwise `NoBands`; one output band per input band, the first zeros and output k the input k minus input k−1 |
| Difference.Difference | difference.py:37-61 | the imperative band loop returns exactly the difference stack. Band 1 becomes zeros; band b becomes input b minus the raw input b−1 (never a previous difference). No bands is an error, since the data type is never set |
| Difference.DifferenceStackShape | difference.py:39-58 | one output band per input band, each of its input band's shape |
| Difference.Telescoping | difference.py:52-58 | summing output bands 1..k at a pixel gives input band k minus input band 1 |
| Difference.Reconstruct | difference.py:47-58 | the first input band and the stack give back every input band |
| Difference.CommandLine | difference.py:72-80 | succeeds iff there are exactly 2 or 3 arguments, taken as input, output and optional description; any other count is the usage error |
| Text.Strip | replacePixelValue.py:32 | the result is no longer than the text and starts and ends with no whitespace |
| Text.StripSlice | replacePixelValue.py:35 | strip keeps one contiguous slice and drops only whitespace on either side of it |
| Text.Split | replacePixelValue.py:33 | split yields at least one part, no part holds the separator, and joining the parts with it gives the text back |
| Text.SplitJoin | replacePixelValue.py:188-190 | splitting the join of separator-free parts gives the parts back |
| Text.ReplaceAll | clipRasterNonzero.py:50 | a text in which the pattern does not occur (in particular one shorter than it) is unchanged, and a replacement of the pattern's length keeps the text's length |
| Text.ReplaceAllJoin | clipRasterNonzero.py:50 | for a pattern that cannot overlap itself, replacing is splitting at the pattern and joining with the replacement: the occurrences change and nothing else does |
| Text.ReplaceAllAcross | clipRasterNonzero.py:50 | for a pattern that cannot overlap itself, an occurrence is always replaced, whatever precedes it, and the text after it is scanned on its own |
| Text.ParseInt | replacePixelValue.py:36 | `float()` on integer text succeeds exactly on surrounding whitespace, an optional sign immediately followed by digits, and at least one digit; the value is the digits' number, negated after `-` |
| Text.ParseIntToString | replacePixelValue.py:190 | `float(str(n)) == n` for an integer n |
| Text.IntOf | replacePixelValue.py:201 | `int()` succeeds exactly on surrounding whitespace and digits, optionally preceded by a sign that whitespace may follow; wherever the stricter float-style parse succeeds it agrees with it |
| Text.IntSpaceAfterSign | replacePixelValue.py:198 | a sign, whitespace, then digits is accepted by `int()` as the signed number, and rejected by the float-style parse when the whitespace is not empty |
| Text.IntOfToString | replacePixelValue.py:201 | `int(str(n)) == n` |
| Text.FormatPlain | clipRasterNonzero.py:51 | text without braces passes through `format` unchanged |
| Text.FormatField | clipRasterNonzero.py:75 | a field `{d}` formats to argument d |
| Text.Format | clipRasterNonzero.py:51 | a text without an opening brace is returned unchanged |
| Paths.RFind | clipRasterNonzero.py:49 | the index of the last occurrence, or −1 when there is none |
| Paths.Basename | clipRasterNonzero.py:49 | the basename holds no `/`, ends the path, and is the whole path or is preceded by a `/` |
| Paths.Dirname | clipRasterNonzero.py:48 | the dirname is a prefix of the path that, with the `/` run between them, is followed by the basename; trailing `/`s are dropped unless the dirname is nothing but `/`s |
| Paths.Stem | clipRasterNonzero.py:49 | the root is a prefix of the name. It is shorter exactly when the last `.` lies in the last component after a non-dot there, and is then cut at that `.` |
| Paths.PathJoin | clipRasterNonzero.py:49 | an absolute second part replaces the first; otherwise the parts are concatenated, with a `/` inserted only when the first is non-empty and does not end in one |
| Paths.JoinSplit | clipRasterNonzero.py:48-49 | joining a `/`-free name onto a dirname and splitting again gives back the name and the dirname |
| ClipRaster.RenderIsFormat | clipRasterNonzero.py:23-25 | filling a template's pieces is what `str.format` does to the template's text |
| ClipRaster.ShapefileName | clipRasterNonzero.py:49 | the derived file name holds no `/`, is not absolute and ends in `.shp` |
| ClipRaster.Shapefile | clipRasterNonzero.py:29-71 | a `.shp` clip path is used as it is. Otherwise the shapefile is in the output's directory and is named after the clip file's root plus `.shp`. Either way it ends in `.shp` |
| ClipRaster.Layer | clipRasterNonzero.py:50 | the layer path has the shapefile path's length and, for a shapefile path, ends in `.lyr`: the trailing `.shp` is always among the occurrences replaced |
| ClipRaster.FormatJoin | clipRasterNonzero.py:80 | joining brace-free attributes with `' OR {0}='` and then formatting equals joining with the separator already filled with the field |
| ClipRaster.JoinComparisons | clipRasterNonzero.py:78-83 | joining the quoted comparisons `F='a'` with ` OR ` equals quoting the attributes joined with the filled separator |
| ClipRaster.WhereClause | clipRasterNonzero.py:78-83 | the filter is `-cwhere "F='a0' OR … OR F='an'"`: one comparison per attribute, in order, single-quoted values, double-quoted whole |
| ClipRaster.SingleAttribute | clipRasterNonzero.py:78-82 | one attribute gives exactly `-cwhere "F='a'"` |
| ClipRaster.WhereClauseIsFormat | clipRasterNonzero.py:78-83 | the filter is the program's two `format` calls and its `join`, concatenated as written |
| ClipRaster.PolyStatement | clipRasterNonzero.py:51 | the polygonize command holds temp.tif, the band, the shapefile, the layer and the field, in that order, in the template's text |
| ClipRaster.PolyStatementIsFormat | clipRasterNonzero.py:23 | the polygonize command is POLY_CMD_TEMP formatted with its five arguments |
| ClipRaster.ClipStatement | clipRasterNonzero.py:74-84 | without attributes, the first template holds source, output, shapefile and nodata; with attributes, the second template holds the filter between the shapefile and the crop option |
| ClipRaster.ClipStatementIsFormat | clipRasterNonzero.py:24-25 | the clip command is CLIP_CMD_TEMP1 or CLIP_CMD_TEMP2 formatted with its arguments |
| ClipRaster.NodataAlwaysPassed | clipRasterNonzero.py:87 | the clean-up never takes effect: the command always ends `-crop_to_cutline -dstnodata <nodata> -of ENVI`, with `None` when no value was given |
| ClipRaster.CleanedDropsNodata | clipRasterNonzero.py:86-87 | with the clean-up kept, a run without nodata has no nodata clause after the crop option; with a value, the command is unchanged |
| ClipRaster.Commands | clipRasterNonzero.py:29-89 | one command, or two exactly when the clip path is not a shapefile; the last is always the clip command on the derived shapefile |
| ClipRaster.CommandsOrder | clipRasterNonzero.py:29-89 | a `.shp` clip path runs only the clip command on that path; otherwise the polygonize command for the derived shapefile and layer runs first, then the clip command on that shapefile |
| Scenarios.AliasingChangesOutcome | replacePixelValue.py:149-167 | rules (> 5 → 99), (< 10 → 1) turn pixel 7 into 99 aliased, but into 1 with a fixed condition of 7 |
| Scenarios.TwoRules | replacePixelValue.py:83-170 | band `[1,2,11,12]` with rules (> 10 → 999), (<= 1 → 0) becomes `[0,2,999,999]`; an unselected band is copied |
| Scenarios.Interval | replacePixelValue.py:30-77 | `">+<"` with `"5+10"` compiles to the open interval (5, 10) |
| Scenarios.AliasSpelling | replacePixelValue.py:54 | `=<` and `<=` compile to the same comparison |
| Scenarios.SpacedOperatorRejected | replacePixelValue.py:32-33 | `"> + <"` fails on the unstripped sub-token `"> "` |
| Scenarios.UnpairedOperatorIgnored | replacePixelValue.py:38 | `">+~"` with one threshold compiles to `> 5`; the unpaired `~` is never checked |
| Scenarios.ThresholdCheckedFirst | replacePixelValue.py:35-41 | with a bad threshold and a bad operator the error is the threshold's |
| Scenarios.UnknownSymbol | replacePixelValue.py:70-71 | an unknown operator symbol is rejected |
| Scenarios.DifferenceExample | difference.py:39-58 | bands 5 7 / 6 4 / 9 9 give 0 0 / 1 −3 / 3 5 |
| Scenarios.NoBandsFail | difference.py:47-61 | a raster without bands fails in both tools |
| Scenarios.LayerExample | clipRasterNonzero.py:50 | the layer of `out/x.shp` is `out/x.lyr` |

## Left out

- Raster I/O is not modelled: GDAL opening, `GetRasterBand`, `ReadAsArray` beyond
  reading a band's pixels, writing rasters, projections and geotransforms. A band
  number GDAL cannot serve becomes the `MissingBand` error. A mask shape numpy cannot
  index with becomes `ShapeMismatch`.
- The mask GeoTIFF `temp.tif` that the clip tool writes from the clip raster is not
  modelled, nor the commented-out OGR code.
- Running the commands (`os.system`), the printed progress messages and the metadata
  file (`createMetadata`) are not modelled. `Commands` lists the commands in the order
  they run.
- `docopt` option parsing is not modelled. Its guarantees (present positional
  arguments, `--inband` as a list) are the inputs of the `CommandLine` functions.
- Text.ParseInt: models `float()` on decimal integer text only. Decimal points,
  exponents, `inf` and `nan`, which `float()` also accepts, are rejected, so fractional
  thresholds and output values are not modelled.
- Predicates.ParseNumbers: the thresholds are integers, so the comparisons are exact;
  float rounding, NaN comparisons and the float-to-band-type cast of `outvalue` on
  assignment are not modelled.
- Difference.Difference: pixels are unbounded integers. Unsigned wrap-around of
  `curr - last` on integer bands and the float64 type of `np.zeros` are not modelled.
- Difference.Difference: requires every band to have one shape, as GDAL bands of one
  raster do.
- ReplacePixelValue.Replace: `outdata` holds band values, snapshots of the working
  array after each rule, instead of references to numpy arrays.
- Text.Format: only positional fields `{0}`..`{9}` are modelled, which is all the
  templates use. Escaped braces, named fields and format specs are not modelled.
- Text.Format: keeps as literal text what `str.format` rejects: a field naming a missing
  argument (IndexError, so with no arguments any text comes back unchanged) and a lone
  `{` or `}` (ValueError). The program never reaches these cases, because every template
  is given all its arguments and the attributes are required to be brace-free.
- ClipRaster.WhereClause: requires the attributes to hold no braces. The program
  calls `format` on the joined attributes, so a brace in an attribute would itself be
  read as a field; that is not modelled. The same requirement is on every member that
  builds the filter or the clip command.
- ClipRaster.RenderIsFormat: the templates are written as literal texts between
  numbered fields. Their text equals the program's template strings by construction,
  not by a separate proof.
- Text.Lower: non-ASCII bytes are not modelled; Python 2 byte strings only change A–Z.
- ClipRaster.CommandsOrder: states the commands as the program builds them, with the
  ineffective nodata clean-up. The cleaned command is `CleanedClipStatement`.

## Findings

| source | as written | input that shows it | evidently intended | confidence | as-written member | corrected member |
|---|---|---|---|---|---|---|
| clipRasterNonzero.py:87 | `clip_statement.replace(' -dstnodata None', '')` builds a new string and discards it | no `--nodata`: the command still ends `-dstnodata None -of ENVI` | assign the result back to `clip_statement`, so the clause is removed | not executed; high (the comment above the line says the clause is to be deleted) | ClipRaster.NodataAlwaysPassed | ClipRaster.CleanedDropsNodata |
| replacePixelValue.py:149 | `origdata = indata` aliases the working array, so later rules test values earlier rules wrote | rules (> 5 → 99), (< 10 → 1) on pixel 7 give 99 | `origdata` a copy of the band as read, giving 1 | not executed; medium (the name `origdata`, the data as originally read, points to a copy of the band) | Scenarios.AliasingChangesOutcome | ReplacePixelValue.CopiedConditionPixel |

The main model (`ReplacePixelValues`, `Commands`) follows the program as written. The
corrected definitions `CopiedConditionOutput` and `CleanedClipStatement` are stated and
proved beside it.
