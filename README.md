# plot.py, modelled in Dafny

`python/plot.py` is a plotting script for lab measurements. It has readers for the
instrument export formats (XRD, the optics-lab spectrometer, UV-Vis, QCM averages,
FTIR and CL-SEM), a cut-off pass in `plot_OpticsLab`, the baseline-corrected peak
area `sum_remove_baseline`, and a five-point smoother written inline in the main
block. This project models those four pieces over exact `real`s.

- **Files.** A file is the sequence of its lines, as `readline` and `readlines`
  hand them out.
- **Number parsing.** Python's `float()` is the parameter `parse: string -> Option<real>`.
  `None` stands for the text it rejects.
- **Exceptions.** Every exception the code can raise is an explicit error value:
  `ReadError` for the readers, `IndexError` for the baseline sum and the smoother.

Modules, one per file:

- `Results`: `Option` and `Result`.
- `PyLists`: the IndexError of an out-of-range list index, and the running total that `total += num` builds, shared by the baseline sum and the smoother.
- `PyStrings`: Python's `str.split(sep)`, which keeps empty fields, and `str.split()`,
  which collapses runs of Python whitespace. Also the file-name extension taken by
  `split(".")[-1]`, and `str.replace` on one character.
- `Readers`: the common loop of every reader, `ReadTable`. It is proved equal to the
  specification function `Table`, whose outcome is characterised by `TableOutcome`
  and `TableEntries`.
- `Instruments`: one specification function, one method and one meaning lemma per
  reader.
- `OpticsLabClamp`: the in-place cut-off and negative-value pass on an `array<real>`.
- `Baseline`: `sum_remove_baseline`, with Python's negative indices and clipped slices.
- `Smoothing`: the smoother exactly as written, plus a centred variant (see Findings).

A moving average might be expected to keep a monotone signal monotone. This one does
not, because its last value is the third from the end:
`Smoothing.MonotonicityNotPreserved` exhibits a strictly increasing input whose
smoothed output decreases at the end.

## Model

| member | source | states |
|---|---|---|
| PyStrings.Split | python/plot.py:52 | `line.split(sep)` gives at least one field and no field contains the separator |
| PyStrings.JoinSplit | python/plot.py:52 | joining the fields of `split(sep)` with `sep` gives the line back |
| PyStrings.SplitJoin | python/plot.py:52 | splitting separator-free fields joined by `sep` gives back exactly those fields, empty ones included |
| PyStrings.ExtensionOf | python/plot.py:42-45 | the extension `split(".")[-1]` of `base + "." + ext` is `ext` whenever `ext` has no dot |
| PyStrings.SplitWhitespace | python/plot.py:148 | `split()` yields only non-empty words free of whitespace, and at least one word when the line starts with a non-space |
| PyStrings.SplitWhitespaceJoin | python/plot.py:148 | `split()` of words joined by single spaces gives the words back |
| PyStrings.SplitWhitespaceSkip | python/plot.py:148 | leading whitespace of any kind and length gives no field |
| PyStrings.SplitWhitespaceWordGap | python/plot.py:148 | a word followed by any non-empty run of whitespace is the first field, and the run collapses |
| PyStrings.SplitWhitespacePair | python/plot.py:148-151 | a line of two words with any whitespace before, between and after them, newline included, splits into exactly those two words |
| PyStrings.ReplaceChar | python/plot.py:147 | `replace(",", ".")` changes every ',' to '.' and keeps every other character and the length |
| PyStrings.ReplaceCharRemoves | python/plot.py:147 | after the replacement no ',' is left, and a line that had a ',' now has a '.' |
| Readers.HeaderSkipped | python/plot.py:141-143 | skipping `count` header lines leaves the following lines in order, or none on a shorter file |
| Readers.ParseFields | python/plot.py:53-54 | the leading `width` fields of a line convert exactly when each exists and parses; otherwise the error names the first field that fails, in Python's evaluation order |
| Readers.Kept | python/plot.py:149 | no more lines are read than are given, and every line read has the required word count |
| Readers.KeptOne | python/plot.py:146-151 | a single line is read exactly when it has the required word count |
| Readers.KeptConcat | python/plot.py:146-151 | the lines read from two stretches of a file are those read from each, in order, and nothing else, so there is one entry per line that passes the filter |
| Readers.KeptIncludes | python/plot.py:146-151 | every line with the required word count is read, in file order, right after the lines read before it |
| Readers.KeptAll | python/plot.py:51 | readers without the two-word filter process every data line |
| Readers.Table | python/plot.py:51-56 | there is one column per field read, each as long as the number of lines read |
| Readers.ReadTable | python/plot.py:51-56 | the append loop over the lines computes `Table` |
| Readers.TableOutcome | python/plot.py:51-56 | the read succeeds exactly when every processed line converts; a failure is raised by the first line that does not |
| Readers.TableEntries | python/plot.py:53-54 | entry `i` of column `c` is field `c` of the `i`-th processed line, converted |
| Readers.CommaRewriteTable | python/plot.py:145-147 | reading with comma decimals is the same as reading the file after every ',' has been rewritten to '.' |
| Instruments.PairsFromTable | python/plot.py:51-56 | any two-column read gives equal-length x and y from fields 0 and 1 in file order, or fails at the first bad line |
| Instruments.ReadXrd | python/plot.py:34-56 | read_XRD computes `XrdColumns` |
| Instruments.XrdRead | python/plot.py:42-54 | `.txt` skips two lines and splits on ','; `.xy` skips one and splits on ' '; any other name fails with the unbound separator exactly when a data line exists, and otherwise returns two empty lists |
| Instruments.ReadOpticsLab | python/plot.py:78-94 | read_OpticsLab computes `OpticsLabColumns` |
| Instruments.OpticsLabRead | python/plot.py:85-92 | 14 header lines are skipped and every later line gives its tab-separated fields 0 and 1 |
| Instruments.ReadUVVis | python/plot.py:134-165 | read_UVVis computes `UVVisColumns`; it warns exactly when the first data line has neither ',' nor '.' |
| Instruments.UVVisRead | python/plot.py:141-164 | without data lines the read raises; otherwise only two-word lines are read, so x and y are equally long and no longer than the data |
| Instruments.UVVisCommaFile | python/plot.py:145-151 | a comma-decimal UV-Vis file reads exactly like the same file written with periods |
| Instruments.ReadQcmAverage | python/plot.py:193-214 | read_QCM_average computes `QcmAverageColumns` |
| Instruments.QcmAverageRead | python/plot.py:203-213 | one header line is skipped, and the seven lists hold tab-separated fields 0 to 6 of every later line |
| Instruments.ReadFtir | python/plot.py:216-245 | read_FTIR computes `FtirColumns`; it warns exactly when the first line has neither ',' nor '.' |
| Instruments.FtirRead | python/plot.py:226-244 | an empty file raises; otherwise every line, from the first, gives whitespace-split fields 0 and 1 |
| Instruments.FtirCommaFile | python/plot.py:228-233 | a comma-decimal FTIR file reads exactly like the same file written with periods |
| Instruments.ReadClsem | python/plot.py:271-288 | read_CLSEM computes `ClsemColumns` |
| Instruments.ClsemRead | python/plot.py:282-287 | one header line is skipped, and every later line gives its comma-separated fields 0 and 1 |
| OpticsLabClamp.Clamped | python/plot.py:116-125 | negative values become exactly 0; with a cut-off, non-negative values above it become exactly the cut-off; with a non-negative cut-off the value lands in [0, cut-off] and in-range values are kept; without one, only negative values change |
| OpticsLabClamp.ClampedIdempotent | python/plot.py:116-121 | with a non-negative cut-off a second pass changes nothing |
| OpticsLabClamp.NegativeCutoff | python/plot.py:116-121 | with a negative cut-off, negative values become 0 and all others become the cut-off |
| OpticsLabClamp.ClampInPlace | python/plot.py:116-125 | the in-place loop replaces every element by its clamped original value and keeps the range bounds |
| Baseline.Position | python/plot.py:297 | a valid Python index, negative or not, denotes the element it wraps to |
| Baseline.SumRemoveBaseline | python/plot.py:290-307 | the loop and final subtraction compute `BaselineCorrected`, including the IndexError cases |
| Baseline.BaselineFails | python/plot.py:297 | the call raises exactly when `start` or `stop` is outside `-len .. len-1` |
| Baseline.BaselineClosedForm | python/plot.py:297-304 | for `0 <= start <= stop < len`, the result is the sum of `list[start:stop]` minus the endpoint mean times `stop - start` |
| PyLists.SumConstant | python/plot.py:298-299 | a run of `k` copies of `c` sums to `k * c` |
| PyLists.SumShift | python/plot.py:298-299 | raising every element by `d` raises the sum by `d` per element |
| Baseline.FlatSignal | python/plot.py:297-304 | a signal constant over `start..stop` gives 0 |
| Baseline.OffsetIgnored | python/plot.py:297-304 | adding a constant to the whole signal leaves the corrected sum unchanged |
| Smoothing.Smoothed | python/plot.py:322-328 | the smoothed series is as long as the input, and each element follows the window its position dictates |
| Smoothing.Smooth | python/plot.py:322-328 | the append loop builds `Smoothed(a)`; a series shorter than four elements raises IndexError at the first missing index |
| Smoothing.ShortSeriesIndex | python/plot.py:323-324 | the first index read past the end of a short series lies between its length and 3 |
| Smoothing.SmoothedWithin | python/plot.py:322-328 | every smoothed value lies within any bounds that hold for the whole input |
| Smoothing.ConstantUnchanged | python/plot.py:322-328 | a constant input is returned unchanged |
| Smoothing.SmoothedShift | python/plot.py:322-328 | lifting the input by `d` lifts every smoothed value by `d` |
| Smoothing.MonotonicityNotPreserved | python/plot.py:324-328 | the strictly increasing input 0, 1, 2, 3 smooths to a series that is not increasing |
| Smoothing.AsWrittenEndsAsymmetric | python/plot.py:324-328 | element 1 as written ignores element 2, so its value differs from its mirror's and from the mean of elements 0..2; the last element differs from the last input |
| Smoothing.HalfWidth | python/plot.py:322-328 | the centred window at every position fits inside the series |
| Smoothing.CenteredIsWindowMean | python/plot.py:324-328 | each element of the corrected smoother is the mean of the window of width 1, 3 or 5 centred on it |
| Smoothing.CenteredCommutesWithReverse | python/plot.py:324-328 | the corrected smoother commutes with reversing the series |

## Left out

- Opening files, `readline` and `readlines`, are not modelled. A file is given as its list of lines. Universal-newline translation is not modelled either.
- Python's `float()` is not modelled. The readers take it as the `parse` parameter, so accepted spellings and IEEE rounding are out of scope. All arithmetic is on exact reals, with no rounding or overflow.
- `print` calls are not modelled; none of them changes a result. The only one modelled is the UV-Vis/FTIR notice that '.' is assumed, which appears as the `warned` output of `ReadUVVis` and `ReadFtir`. The diagnostic prints of `sum_remove_baseline` are dropped.
- matplotlib is not modelled: `rcParams`, colormaps, markers and every `plot_*` drawing call.
- The normalisations to the maximum and to percentages are not modelled (lines 66, 105, 109, 256, 260). They are display transforms on floats.
- The branch choice at line 104 is not modelled. `"trans" or ...` is always true, so the first branch always runs and the later ones are dead. That branch rescales `y` to percent of its maximum before the cut-off pass; the rescaling is left out (see above), and the rest of the branch only sets labels and limits. `ClampInPlace` therefore acts on the array as it stands after that rescaling.
- The main block's hard-coded paths and its slicing to indices 137..1557 are left out. Only the smoother is lifted out, into `Smoothing.Smooth`.
- The unused scipy imports are left out. They are foreign code.
- `Smoothing.Smooth` works on a `seq<real>`, as the script's list of appended values does. The numpy conversion after the loop is not modelled.

## Findings

| source | as written | input that shows it | evidently intended | confidence | as-written member | corrected member |
|---|---|---|---|---|---|---|
| python/plot.py:324-328 | element 1 averages elements 0, 1 and 3; the last element copies the third value from the end | `[0, 0, 5, 0]`: element 1 is 0, not the centred mean 5/3; `[0, 5, 0, 0]`: the last element is 5, not 0 | centred windows that shrink at the ends: element 1 averages elements 0..2 and the last value is kept, mirroring the first | medium, not executed | Smoothing.AsWrittenEndsAsymmetric | Smoothing.CenteredIsWindowMean |
