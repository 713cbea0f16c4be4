# Nozzle-swap G-code merger, modelled in Dafny

A model of the merger in `merge_gcode_nozzle_swap.py`. The merger joins two
G-code files that were sliced for two different nozzles (0.4 mm and 0.25 mm).
The output starts with the first file's layers, then has a scripted
nozzle-change block, then continues with the second file's layers. There are
three parts:

- **Segmenter** (`parse_gcode_layers`, module `Segmenter`): one pass over the
  lines of a file. It sorts them into setup lines and layer blocks. A line
  that starts with `;LAYER:` (`GcodeLines.IsMarker`) opens a layer. The
  pass is the method `ParseLayers`, a loop over three local lists. It is
  proved to compute `Segment`, a fold over the lines (`Step`, `Scan`,
  `Finish`). The lemmas state what `Segment` returns in closed form.
- **Merger** (`merge_gcode`, module `Merger`): the output is the setup of the
  first file, its first `splice` layers, the eleven-line nozzle-change block
  `Transition(reheatTemp)`, the setup of the second file, and its layers from
  `splice` on. `MergeGcode` builds the output by successive appends and is
  proved equal to `Merged`. The temperature is printed the way Python's
  `str(int)` prints it (module `Decimal`).
- **Splice planner** (module `SplicePlanner`): the index computation and
  range check that `main` runs before merging. `Pipeline.Run` models the rest
  of `main`: segment both files, plan, stop on a bad index, merge, and report
  the layer counts.

Lines are strings that include their terminator. A file is a `seq<string>`.

### Where the code departs from a natural reading

A natural reading of the segmenter is that it is lossless: setup followed by
all layers should give the file back. The code does not do this.
Line 14 tests whether any layer has been *finished*, not whether a marker
has been seen. So the lines between the first and the second `;LAYER:`
marker are added to the setup, and the first layer holds only its marker
line. The model follows the code:

- `SegmentSplit` gives the exact shape of the result.
- `SegmentLosslessIff` shows that the input is given back exactly when no
  line sits between the first two markers.
- `SegmentReordersFirstLayer` is a three-line input where the input is not
  given back.

## Model

| member | source | states |
|---|---|---|
| `Segmenter.ParseLayers` | merge_gcode_nozzle_swap.py:4-20 | The loop returns exactly `Segment(lines)`. It returns one layer per `;LAYER:` line. Every layer is a block (its marker line followed by non-marker lines), and the setup has no marker line. |
| `Segmenter.Step` | merge_gcode_nozzle_swap.py:10-17 | One iteration of the loop adds zero or one finished layers and leaves the layers already finished unchanged, as a prefix of the new ones. |
| `Segmenter.StepShape` | merge_gcode_nozzle_swap.py:10-17 | A layer is finished only at a marker line and only when the current layer is not empty, and it is pushed as it is. A marker line always opens a new current layer holding just itself. Once a layer has been finished, the setup no longer changes. |
| `Segmenter.StepKeepsLines` | merge_gcode_nozzle_swap.py:10-17 | One iteration loses no line: setup, finished layers and current layer together hold the old lines plus the line read, as multisets. |
| `Segmenter.ScanLayersNonEmpty` | merge_gcode_nozzle_swap.py:11-12 | Starting from layers that are all non-empty, any number of iterations finishes only non-empty layers. |
| `Segmenter.Finish` | merge_gcode_nozzle_swap.py:18-19 | After the loop the setup is unchanged and the finished layers are kept as a prefix. One more layer is added exactly when the current layer is not empty, and the flattened layers gain exactly the current layer's lines. |
| `Segmenter.Segment` | merge_gcode_nozzle_swap.py:4-20 | `parse_gcode_layers` as a value: `Scan` folds `Step` over the lines (the `for line in file` loop of lines 9-17) and `Finish` adds the final push. No layer it returns is empty. |
| `Segmenter.ScanBeforeLayers` | merge_gcode_nozzle_swap.py:14-15 | While no layer has been finished, every non-marker line is appended to the setup and nothing else changes. |
| `Segmenter.ScanInLayers` | merge_gcode_nozzle_swap.py:10-17 | Once a layer has been finished, the setup no longer changes. Finished layers stay as they are. Each later marker adds exactly one layer. Finished layers plus the current layer are the old ones followed by the new lines, and every layer stays a block. |
| `Segmenter.SegmentSplit` | merge_gcode_nozzle_swap.py:10-19 | Split the input as `pre + [m] + mid + rest`, where `m` is the first marker and `rest` starts at the second marker. Then the setup is `pre + mid`. The first layer is `[m]`. The layers flattened are `[m] + rest`. There are `1 + markers(rest)` layers, and all of them are blocks. |
| `Segmenter.SplitAtMarkers` | merge_gcode_nozzle_swap.py:10-17 | Every input with a marker line can be split into the four parts that `SegmentSplit` expects. |
| `Segmenter.SegmentNoMarkers` | merge_gcode_nozzle_swap.py:14-19 | A file without a `;LAYER:` line is all setup and has no layers. |
| `Segmenter.SegmentNoLayersIff` | merge_gcode_nozzle_swap.py:10-19 | There are no layers exactly when the file has no `;LAYER:` line. |
| `Segmenter.SegmentLayerCount` | merge_gcode_nozzle_swap.py:10-19 | The number of layers equals the number of `;LAYER:` lines. The first marker pushes nothing, each later marker pushes one layer, and the end of input pushes the last. |
| `Segmenter.SegmentBlocks` | merge_gcode_nozzle_swap.py:10-17 | Every layer starts with a marker line and holds exactly one. The setup holds none. |
| `Segmenter.SegmentKeepsEveryLine` | merge_gcode_nozzle_swap.py:9-19 | Every input line lands exactly once, either in the setup or in a layer. This holds as multisets and as counts. |
| `Segmenter.SegmentLosslessIff` | merge_gcode_nozzle_swap.py:14-17 | Setup followed by the layers equals the input exactly when no line lies between the first and the second marker. |
| `Segmenter.SegmentReordersFirstLayer` | merge_gcode_nozzle_swap.py:14-17 | For `;LAYER:0`, `G1 X1`, `;LAYER:1`, the setup is `[G1 X1]` and the layers are `[;LAYER:0]` and `[;LAYER:1]`. The body line is moved ahead of its own marker. |
| `GcodeLines.Take` | merge_gcode_nozzle_swap.py:30 | `layers[:t]` for `t >= 0`: a prefix of the layers, `t` long, or all of them when there are fewer. |
| `GcodeLines.Drop` | merge_gcode_nozzle_swap.py:49 | `layers[t:]` for `t >= 0`: what `Take` leaves, in order. |
| `GcodeLines.IsMarker` | merge_gcode_nozzle_swap.py:10 | `line.startswith(";LAYER:")`: a marker line is at least as long as `;LAYER:` and begins with it. |
| `GcodeLines.Flatten` | merge_gcode_nozzle_swap.py:30 | The nested comprehension over layers. A single layer flattens to its own lines, and the result is never shorter than the first layer. The laws used for the merge are `FlattenAppend` and `FlattenSplit`. |
| `GcodeLines.FlattenAppend` | merge_gcode_nozzle_swap.py:30 | Flattening two lists of layers one after the other gives the two flattenings concatenated. |
| `GcodeLines.FlattenSplit` | merge_gcode_nozzle_swap.py:30-49 | `layers[:t]` flattened, followed by `layers[t:]` flattened, is the whole list flattened. |
| `GcodeLines.FlattenBlocksMarkers` | merge_gcode_nozzle_swap.py:30 | Flattening a list of layer blocks yields one marker line per block. |
| `Merger.Transition` | merge_gcode_nozzle_swap.py:33-43 | The block is 11 strings. The first starts with an empty line, the last ends with `"\n\n"`, and the eighth is the reheat command. |
| `Merger.FixedLinesArePlain` | merge_gcode_nozzle_swap.py:33-43 | Each of the ten fixed strings ends with a newline and is not a layer marker. The banner starts with a newline, and the closing line ends with two. |
| `Merger.TransitionLinesArePlain` | merge_gcode_nozzle_swap.py:33-43 | Every string of the block ends with a newline, and the block holds no layer marker. |
| `Merger.TransitionFixedLines` | merge_gcode_nozzle_swap.py:33-43 | Every string but the eighth is the same whatever the temperature. |
| `Decimal.DecimalRoundTrip` | merge_gcode_nozzle_swap.py:40 | The decimal text of the temperature can be read back to the same integer. |
| `Decimal.DecimalString` | merge_gcode_nozzle_swap.py:40 | `str(reheat_temp)`: for a non-negative number, all digits; for a negative one, `-` followed by digits, so `-` occurs only at the front and exactly when the number is negative. It starts with `0` only for zero, which gives the one-character string `0`; a negative number has no `0` after its sign, so there are no leading zeros. |
| `Merger.ReheatLine` | merge_gcode_nozzle_swap.py:40 | The reheat command ends with a newline and is not a layer marker, whatever the temperature. |
| `Merger.UpToSpaceAt` | merge_gcode_nozzle_swap.py:40 | Reading from a position up to the next space gives exactly the text before that space. This is how the temperature is read back from the reheat command. |
| `Merger.ReheatLineDeterminesTemp` | merge_gcode_nozzle_swap.py:40 | Two reheat commands are equal only when their temperatures are equal. |
| `Merger.TransitionDeterminesTemp` | merge_gcode_nozzle_swap.py:33-43 | Different reheat temperatures give different nozzle-change blocks. |
| `Merger.MergeGcode` | merge_gcode_nozzle_swap.py:23-51 | The successive appends produce `setupA + layersA[:splice] flattened + Transition(temp) + setupB + layersB[splice:] flattened`. The inputs are values and are not changed. |
| `Merger.Merged` | merge_gcode_nozzle_swap.py:23-51 | The output's marker lines are those of the two setups and of the layers taken from each file. The nozzle-change block adds none. |
| `Merger.MergedContributions` | merge_gcode_nozzle_swap.py:23-51 | For a splice index within both files, the output is `setupA`, then `layersA[:splice]` flattened, then the block, then `setupB`, then `layersB[splice:]` flattened. The first of these layer parts is a prefix of the first file's layer lines and holds `splice` markers. The second is what follows `layersB[:splice]` in the second file's layer lines and holds `layersB - splice` markers. |
| `Merger.MergedMarkerCount` | merge_gcode_nozzle_swap.py:23-51 | If the setups have no markers and the layers are blocks, the output holds exactly `splice + (layersB - splice)` marker lines. These are the two counts that the success message reports. |
| `Merger.MergedBoundaries` | merge_gcode_nozzle_swap.py:29-49 | At splice 0, only the second file's layers follow the block. When the first file is not the longer one, splicing at its length puts every layer of the first file before the block. |
| `Merger.MergedPastSecondFile` | merge_gcode_nozzle_swap.py:29-49 | Splicing at or past the second file's layer count leaves all of that file's layers out: the output ends with its setup. |
| `SplicePlanner.Plan` | merge_gcode_nozzle_swap.py:70-76 | With no requested index, the index is `min(A, B) // 2`, which is always accepted. A requested index is accepted exactly when `0 <= t <= min(A, B)` and is then used unchanged. A rejection carries the index and the bound. An accepted index never exceeds either layer count. |
| `SplicePlanner.Min` | merge_gcode_nozzle_swap.py:70 | `min(a, b)`: at most each argument, and equal to one of them. |
| `Pipeline.Run` | merge_gcode_nozzle_swap.py:66-85 | The run fails exactly when a requested index lies outside `0 ..= min` of the two files' marker counts, and a failure produces no output. On success, the output is the merge of the two segmented files at the planned index. The counts reported are `splice` and `markers(B) - splice`, and together they equal the number of layer markers in the output. |

## Left out

- Opening, reading and writing files (lines 8-9 and 82-83) are not modelled. Each input file is its list of lines, and the output is the list of lines that would be written. Text-mode newline translation and the file's character encoding (including that of `°`) are not modelled either.
- Argument parsing with `argparse` (lines 54-63) is replaced by the parameters of `Pipeline.Run`. The `print` calls at lines 75 and 85 are left out. Their data is kept: the error value `OutOfRange(index, total)` and the two counts in `Report`.
- `GcodeLines.Take`, `GcodeLines.Drop`, `Merger.MergeGcode`: the splice index is a `nat`. Python's slicing from the end for a negative index is not modelled. `main` never passes a negative index, because the range check rejects it first.
- `Merger.MergeGcode`: the nozzle-change block is appended with one append of `Transition(reheatTemp)`. The source makes eleven `append` calls. The resulting list is the same.
- `Merger.Transition`: nothing is claimed about whether the temperature's digits appear in other lines. The fixed lines already contain digits such as `0` and `20`.
