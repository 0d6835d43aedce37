# latex-gen core, modelled in Dafny

This project models the integer- and string-level logic of the latex-gen
scripts and of the MaskGAN custom word loader, and proves properties of it.
It covers six pieces:

- **Word-vocabulary loader** (`maskgan/data/custom_loader.py`). The
  tokeniser turns every newline into `<eos>` and splits on whitespace. The
  vocabulary orders words by falling frequency, with ties broken by the
  word. Text files become id lists, and words outside the vocabulary are
  dropped.
- **LaTeX writer and formula buffers** (`latex_gen/utils/tex_util.py` and
  the older `utils/tex_util.py`). `write_tex` is modelled as the sequence of
  strings it writes, in order. The temporary names of `tex_to_img` are
  modelled too. `TeX` and `AutoTeX` are classes whose methods update the
  formula list. `AutoTeX` records every callback call in a call log and
  keeps ghost fields for the formulas added and the batches released.
- **Chunking and naming** (`latex_gen/postprocessing/tex_to_img.py`). The
  chunking loop hands out one job per chunk, with its path in order. The
  `which` search runs over the `PATH` entries with an executable check.
  `main` returns before reading anything when a tool is missing.
- **Batch navigation** (`latex_gen/preprocessing/tex_viz.py`). The viewer
  loop is driven by a finite sequence of key codes. It renders each batch
  the first time it is shown, and it moves the batch index with wrap-around
  on `d` and `a`.
- **Plot planning** (`latex_gen/postprocessing/results_viz.py`). The model
  covers the x values from `get_x`, the `get_minmax` defaults, the optional
  `last`-mode outlier filtering, the axis limits, the single-figure merge
  and the `[::k]` subsampling. The result is the list of panels that would
  be drawn, or the error the script would raise.
- **Mask filtering** (`latex_gen/utils/vis_util.py`). `filter_outliers` is
  modelled in its three modes. The outlier test is a function parameter
  that returns one boolean per observation.

The shared modules are:

- `Wrappers`: `Option` and `Result`.
- `Seqs`: concatenation, first-occurrence de-duplication, ceiling division
  and `s[::k]`.
- `PyStr`: Python's `str.split()`, `split(sep)`, `strip`, `str(int)` and
  string order.
- `PyPath`: `posixpath.join`, `split` and `splitext`.

Every raised exception that the model keeps is an error value: an `Err`, or in
`TexViz` a `StepResult.DivZero` or `Ending.ZeroDivision` case. Files,
the environment, executables and key presses are parameters:

- a file's text is its decoded string before newline translation, which
  `DecodeNewlines` then applies as text mode does;
- `PATH` is an optional string;
- the executable check is a `string -> bool` function;
- key presses are a sequence of integers.

## Model

| member | source | states |
|---|---|---|
| CustomLoader.DecodeNewlines | maskgan/data/custom_loader.py:39-40 | text mode leaves no carriage return in what it reads, and text without one is read unchanged |
| CustomLoader.ReplaceNewlinesConcat | maskgan/data/custom_loader.py:40 | `replace("\n", " <eos> ")` distributes over concatenation |
| CustomLoader.ReplaceNewlinesResult | maskgan/data/custom_loader.py:40 | after the replacement no newline is left, and text without newlines is unchanged |
| CustomLoader.ReadWordsWellFormed | maskgan/data/custom_loader.py:40 | every token is non-empty and contains no whitespace |
| CustomLoader.ReadWordsAtNewline | maskgan/data/custom_loader.py:40 | a newline splits the token list in two, with a standalone `<eos>` token between the halves |
| CustomLoader.ReadWordsLine | maskgan/data/custom_loader.py:40 | text without newlines is tokenised exactly as `str.split()` splits it |
| CustomLoader.RankIrreflexive | maskgan/data/custom_loader.py:47 | the sort key (-count, word) never ranks a word before itself |
| CustomLoader.RankAsymmetric | maskgan/data/custom_loader.py:47 | two words are never ranked before each other |
| CustomLoader.RankTransitive | maskgan/data/custom_loader.py:47 | the ranking is transitive |
| CustomLoader.RankTotal | maskgan/data/custom_loader.py:47 | any two distinct words are ranked one way or the other |
| CustomLoader.InsertProperties | maskgan/data/custom_loader.py:47 | inserting into a sorted list keeps it sorted and adds the word once |
| CustomLoader.SortByRankProperties | maskgan/data/custom_loader.py:47 | the sort is a permutation of its input, sorted by (-count, word) |
| CustomLoader.VocabWordsProperties | maskgan/data/custom_loader.py:46-49 | the vocabulary lists every distinct training word exactly once, sorted by (-count, word) |
| CustomLoader.IndexOf | maskgan/data/custom_loader.py:50 | the index of the first occurrence of a word |
| CustomLoader.IdTableOfDistinct | maskgan/data/custom_loader.py:50 | `dict(zip(words, range(len(words))))` on distinct words maps the i-th word to i, with one key per word |
| CustomLoader.WordToId | maskgan/data/custom_loader.py:46-50 | the table's keys are exactly the training words |
| CustomLoader.WordToIdBijection | maskgan/data/custom_loader.py:46-50 | the table maps the n distinct words one to one onto 0..n-1, the i-th ranked word to i |
| CustomLoader.WordToIdOrder | maskgan/data/custom_loader.py:47-50 | a smaller id exactly when the word is more frequent, or equally frequent and lexicographically smaller |
| CustomLoader.BuildVocabOf | maskgan/data/custom_loader.py:43-55 | an empty training file fails the unpacking and a file without `<eos>` fails the lookup; otherwise the table is the ranked word table, its keys are the training words and the `<eos>` index is the id of `<eos>` |
| CustomLoader.BuildVocabWithNewline | maskgan/data/custom_loader.py:43-55 | a training file with a newline always yields a vocabulary |
| CustomLoader.WordIds | maskgan/data/custom_loader.py:58-60 | the id list is no longer than the token list and holds only ids of the table |
| CustomLoader.WordIdsConcat | maskgan/data/custom_loader.py:60 | the comprehension works token by token: it distributes over concatenation |
| CustomLoader.WordIdsSingle | maskgan/data/custom_loader.py:60 | one token gives its id when it is in the table, and nothing otherwise |
| CustomLoader.WordIdsAllKnown | maskgan/data/custom_loader.py:60 | when every token is in the table, the id list has one id per token, in order |
| CustomLoader.WordIdsBelowSize | maskgan/data/custom_loader.py:58-60 | every id is below the vocabulary size |
| CustomLoader.CustomRawData | maskgan/data/custom_loader.py:63-80 | both vocabulary errors propagate; otherwise `vocabulary` is the table size and the `<eos>` id is below it; the training ids have one id per training token, and the validation and test ids are no longer than their token lists; all ids are below `vocabulary`; each of the three id lists is its file's tokens converted with the training table |
| TexUtil.WriteTex | latex_gen/utils/tex_util.py:9-25 | the writes form the document of the formulas, and a single string is written as a one-element list |
| TexUtil.DocumentLayout | latex_gen/utils/tex_util.py:14-25 | one formula gives `$f$` between the header and the footer; any other count gives one `equation` line per formula, in order; zero formulas give only the header and the footer |
| TexUtil.DocumentRoundTrip | latex_gen/utils/tex_util.py:14-25 | the formulas can be read back from the document written for them |
| TexUtil.TexToImgJob | latex_gen/utils/tex_util.py:63-76 | the temp files are `base.tex`, `base.dvi` and `base.png`, and the `.tex` file holds the formulas |
| TexUtil.TeX.constructor | latex_gen/utils/tex_util.py:109-121 | the buffer starts with what `add` makes of the argument |
| TexUtil.TeX.Add | latex_gen/utils/tex_util.py:123-128 | `None` is ignored, a list extends the buffer, anything else is appended, and what was there stays in order |
| TexUtil.TeX.ToTex | latex_gen/utils/tex_util.py:130-133 | no file when the buffer is empty, otherwise the document of the buffer |
| TexUtil.AutoTeX.constructor | latex_gen/utils/tex_util.py:137-154 | needs `length >= 1`; starts with an empty buffer, an empty call log and the given callbacks |
| TexUtil.AutoTeX.Release | latex_gen/utils/tex_util.py:156-166 | an empty buffer calls nothing; otherwise explicit callbacks replace the stored ones, each callback is called with the buffer in order, and the buffer is emptied; the call log stays every released batch handed to the callbacks in force at its release |
| TexUtil.AutoTeX.CallEach | latex_gen/utils/tex_util.py:164-165 | the callback loop: the log grows by one call per callback, in order, each with the batch |
| TexUtil.AutoTeX.AddOne | latex_gen/utils/tex_util.py:168-175 | appends one formula, and releases the buffer exactly when it reaches `length` |
| TexUtil.AutoTeX.Add | latex_gen/utils/tex_util.py:177-182 | adds one formula or each of a list; the new batches, each of exactly `length` formulas, followed by the buffer, are the old buffer followed by the new formulas; each new batch goes to `args` when given and to the stored callbacks otherwise, and the call log grows by exactly those calls; with no batch released the callbacks and the log are unchanged |
| TexUtil.AutoTeX.AddEach | latex_gen/utils/tex_util.py:181-182 | the loop of `add`: every formula added in order, with the callbacks and the log unchanged until a batch is released and the given callbacks in force after |
| TexUtil.AutoTeX.ToTex | latex_gen/utils/tex_util.py:130-133 | inherited `to_tex`: no file when the buffer is empty, otherwise the document of the buffer |
| TexUtilDraft.WriteTex | utils/tex_util.py:9-19 | the writes form the draft document, and a single string is written as a one-element list |
| TexUtilDraft.DocumentLayout | utils/tex_util.py:14-19 | header, then one `$f$` line per formula in order whatever their count, then the footer; zero formulas give only the header and the footer |
| TexUtilDraft.DocumentRoundTrip | utils/tex_util.py:14-19 | the formulas can be read back from the draft document |
| TexUtilDraft.TexToImgJob | utils/tex_util.py:47-60 | the temp files are `base.tex`, `base.dvi` and `base.png`, and the `.tex` file holds the formulas |
| PyPath.RFind | latex_gen/utils/tex_util.py:69-70 | the last position of a character, or -1 when it does not occur |
| PyPath.Basename | latex_gen/utils/tex_util.py:69 | the file name has no `/` and ends the path; it is the whole path when there is no `/` and otherwise starts right after the last `/` |
| PyPath.SplitExt | latex_gen/utils/tex_util.py:70 | root and extension concatenate to the name, and the extension is empty or one dot followed by no dot or `/`; it is non-empty exactly when the last `.` follows the last `/` with a non-dot character between them, and then it starts at that last `.` |
| PyPath.SplitExtLeadingDots | latex_gen/utils/tex_util.py:70 | a name of leading dots and a dot-free part has no extension (`.png` stays whole) |
| PyPath.DirnameEmpty | latex_gen/postprocessing/tex_to_img.py:25-26 | the directory part is empty exactly when the program name has no `/` |
| PyPath.TempBase | latex_gen/utils/tex_util.py:69-70 | the stem taken from the output file name contains no `/` |
| PyPath.TempNames | latex_gen/utils/tex_util.py:69-73 | the three temp names are distinct and contain no `/` |
| PyPath.BasenameOf | latex_gen/utils/tex_util.py:69 | the file name of `dir/name` is `name` |
| PyPath.SplitExtOf | latex_gen/utils/tex_util.py:70 | the root of `name.ext` is `name` |
| PyPath.TempNamesOf | latex_gen/utils/tex_util.py:69-73 | `dir/name.ext` gives `name.tex`, `name.dvi` and `name.png` |
| PyPath.TempNamesNoExtension | utils/tex_util.py:53-57 | a file name without an extension is used whole |
| PyStr.SplitWhitespaceWords | maskgan/data/custom_loader.py:40 | `str.split()` gives non-empty words without whitespace |
| PyStr.SplitAtSpace | maskgan/data/custom_loader.py:40 | a whitespace character separates the words before it from the words after it |
| PyStr.SplitWord | maskgan/data/custom_loader.py:40 | a non-empty string without whitespace is one word |
| PyStr.SplitOnJoin | latex_gen/postprocessing/tex_to_img.py:30 | `split(sep)` gives pieces that rejoin to the string and contain no separator |
| PyStr.LStrip | latex_gen/postprocessing/tex_to_img.py:31 | removes exactly the leading run of the character |
| PyStr.RStrip | latex_gen/postprocessing/tex_to_img.py:31 | removes exactly the trailing run of the character |
| PyStr.Strip | latex_gen/postprocessing/tex_to_img.py:31 | the stripped entry neither starts nor ends with the character |
| PyStr.ParseNatToString | latex_gen/postprocessing/tex_to_img.py:57 | `str(i)` reads back as i |
| PyStr.NatToStringInjective | latex_gen/postprocessing/tex_to_img.py:57 | different numbers give different decimal strings |
| PyStr.LexLessIrreflexive | maskgan/data/custom_loader.py:47 | string order never puts a string before itself |
| PyStr.LexLessTransitive | maskgan/data/custom_loader.py:47 | string order is transitive |
| PyStr.LexLessTotal | maskgan/data/custom_loader.py:47 | of two different strings one is smaller |
| Seqs.DedupProperties | maskgan/data/custom_loader.py:46 | the Counter's keys are the distinct words, each once |
| Seqs.StrideLength | latex_gen/postprocessing/tex_to_img.py:69 | `s[::k]` has ceil(len(s) / k) elements |
| Seqs.StrideAt | latex_gen/postprocessing/results_viz.py:77-78 | element i of `s[::k]` is `s[i*k]` |
| Seqs.CeilDivUnique | latex_gen/preprocessing/tex_viz.py:26 | `math.ceil(n / k)` is the one c with (c - 1) * k < n <= c * k |
| TexToImg.SliceFor | latex_gen/postprocessing/tex_to_img.py:53-62 | chunk size 1 for `single`, 15 for `combine`, and a failed assertion for any other mode |
| TexToImg.GenerateFilepathInjective | latex_gen/postprocessing/tex_to_img.py:56-58 | equal output paths come from equal chunk numbers |
| TexToImg.GenerateFilepathDistinct | latex_gen/postprocessing/tex_to_img.py:56-58 | different chunks get different output paths |
| TexToImg.ChunkAtSize | latex_gen/postprocessing/tex_to_img.py:70-73 | chunk i is non-empty and at most `slice` long, and exactly `slice` long unless it is the last |
| TexToImg.PlanChunks | latex_gen/postprocessing/tex_to_img.py:64-78 | the loop makes one job per chunk: `lines[i*slice : min(i*slice+slice, n)]`, written to the i-th path; the chunks concatenate back to `lines` |
| TexToImg.PlannedJobs | latex_gen/postprocessing/tex_to_img.py:64-78 | ceil(n / slice) jobs; every chunk is non-empty, every chunk but the last is full, and the output paths are distinct |
| TexToImg.Candidates | latex_gen/postprocessing/tex_to_img.py:30-32 | one candidate per `PATH` entry: the quote-stripped entry joined with the program name |
| TexToImg.SearchPath | latex_gen/postprocessing/tex_to_img.py:30-36 | the search loop returns the first executable candidate, or `None` |
| TexToImg.Which | latex_gen/postprocessing/tex_to_img.py:21-36 | a name with a directory is checked by itself; a bare name is searched along `PATH`, and an unset `PATH` raises |
| TexToImg.FirstExecutableNone | latex_gen/postprocessing/tex_to_img.py:30-36 | `None` exactly when no candidate is executable |
| TexToImg.FirstExecutableFirst | latex_gen/postprocessing/tex_to_img.py:30-34 | the first executable candidate is the one returned |
| TexToImg.Run | latex_gen/postprocessing/tex_to_img.py:39-78 | the outcome of `main`; when it renders, the chunks it renders concatenate to the input lines |
| TexToImg.MainWithoutPath | latex_gen/postprocessing/tex_to_img.py:30-41 | with `PATH` unset, the tool check raises |
| TexToImg.MainToolsFound | latex_gen/postprocessing/tex_to_img.py:41-62 | once both tools are found, the mode alone decides between the assertion failure and the chunk plan |
| TexToImg.MainRendered | latex_gen/postprocessing/tex_to_img.py:41-78 | with `PATH` set, `main` renders exactly when both tools are found along it and the mode is valid, and with a valid mode it does not raise |
| TexToImg.MainInvalidMode | latex_gen/postprocessing/tex_to_img.py:41-54 | the mode assertion fails exactly when both tools are found and the mode is neither `single` nor `combine` |
| TexViz.NumBatchesCount | latex_gen/preprocessing/tex_viz.py:26 | the batch count is ceil(n / num_display), and it is 0 exactly when there is no data |
| TexViz.BatchBounds | latex_gen/preprocessing/tex_viz.py:33-34 | batch b starts before its end, ends at most at n, and holds num_display lines unless it is the last |
| TexViz.BatchSlice | latex_gen/preprocessing/tex_viz.py:33-35 | the slice bounds are valid and select batch b |
| TexViz.Step | latex_gen/preprocessing/tex_viz.py:41-48 | `q` stops; `d`/`a` divide by zero exactly when there are no batches; a move stays in [0, num_batches); any other key leaves the index alone |
| TexViz.RenderIfNew | latex_gen/preprocessing/tex_viz.py:32-36 | renders a batch and records it only when it is not yet in `processed` |
| TexViz.View | latex_gen/preprocessing/tex_viz.py:26-48 | zero `num_display` divides by zero; otherwise the renders are the visited batches in first-visit order, each once, and the run ends as the key sequence dictates |
| TexViz.VisitsInRange | latex_gen/preprocessing/tex_viz.py:42-45 | every visited index is in [0, num_batches) |
| TexViz.ModSucc | latex_gen/preprocessing/tex_viz.py:43 | stepping forward after wrapping is stepping forward, modulo the count |
| TexViz.NextThenPrev | latex_gen/preprocessing/tex_viz.py:42-45 | `d` then `a` returns to the same batch |
| TexViz.PrevThenNext | latex_gen/preprocessing/tex_viz.py:42-45 | `a` then `d` returns to the same batch |
| TexViz.OutcomeAppend | latex_gen/preprocessing/tex_viz.py:41-48 | one key more continues the run from where it stood |
| TexViz.NextPresses | latex_gen/preprocessing/tex_viz.py:42-43 | m presses of `d` move m batches forward, modulo the count |
| TexViz.FullCycle | latex_gen/preprocessing/tex_viz.py:42-43 | num_batches presses of `d` return to the starting batch |
| TexViz.EmptyInput | latex_gen/preprocessing/tex_viz.py:26-45 | with empty input the count is 0, and `d` or `a` divides by zero after batch 0 was shown |
| ResultsViz.Arange | latex_gen/postprocessing/results_viz.py:15 | step 0 is an error; otherwise element i is start + i * step |
| ResultsViz.ArangeInRange | latex_gen/postprocessing/results_viz.py:15 | for a positive step every value is below `stop`, and the next one would not be |
| ResultsViz.GetXProgression | latex_gen/postprocessing/results_viz.py:14-15 | for step >= 1, `get_x(n, step)` is step, 2*step, ..., n*step |
| ResultsViz.GetXZeroStep | latex_gen/postprocessing/results_viz.py:14-15 | a checkpoint interval of 0 makes `get_x` raise |
| ResultsViz.GetXNegativeStep | latex_gen/postprocessing/results_viz.py:14-15 | for a negative step `get_x(n, step)` has fewer than n values |
| ResultsViz.GetMinmax | latex_gen/postprocessing/results_viz.py:18-22 | one result per pair, in order: the default exactly where the value is `None`, the value elsewhere |
| ResultsViz.MinmaxProperties | latex_gen/postprocessing/results_viz.py:18-22 | the list `get_minmax` builds keeps count and order and takes the default exactly at `None` |
| ResultsViz.SeriesMin | latex_gen/postprocessing/results_viz.py:54-58 | `min` of a non-empty series is an element no larger than any other |
| ResultsViz.SeriesMax | latex_gen/postprocessing/results_viz.py:54-58 | `max` of a non-empty series is an element no smaller than any other |
| ResultsViz.MergeBounds | latex_gen/postprocessing/results_viz.py:70-73 | the merged limits contain every point inside either panel's limits, each limit being one of the two |
| ResultsViz.SliceStepAt | latex_gen/postprocessing/results_viz.py:77-78 | `s[::k]` has ceil(n / abs(k)) elements, the i-th from index i*k, counted from the back when k < 0 |
| ResultsViz.PointsOfKeep | latex_gen/postprocessing/results_viz.py:51-52 | a shared mask keeps x and y paired |
| ResultsViz.PointsOfSlice | latex_gen/postprocessing/results_viz.py:77-96 | the same stride on x and y keeps them paired |
| ResultsViz.LoadSeriesSteps | latex_gen/postprocessing/results_viz.py:47-48 | with interval c >= 1 the k-th loss is paired with k * c; training uses c = 1, so its x values are 1..n |
| ResultsViz.FilterSeriesPaired | latex_gen/postprocessing/results_viz.py:51-52 | `last`-mode filtering of equal-length x and y keeps them paired and no longer; other lengths fail the boolean index |
| ResultsViz.AxisBoundsOfData | latex_gen/postprocessing/results_viz.py:54-65 | with no limits given, the limits are the data's minima and maxima and contain every point |
| ResultsViz.CurvePoints | latex_gen/postprocessing/results_viz.py:77-96 | a zero step raises; otherwise a paired series gives ceil(n / abs(k)) plotted points, each a point of the series |
| ResultsViz.CurveWithin | latex_gen/postprocessing/results_viz.py:77-96 | every plotted x is an x of the series and every plotted y one of its losses |
| ResultsViz.LayoutShape | latex_gen/postprocessing/results_viz.py:69-99 | single mode gives one panel with merged limits and both curves; otherwise a training panel and a validation panel |
| ResultsViz.PlotZeroCheckpoint | latex_gen/postprocessing/results_viz.py:48 | a checkpoint interval of 0 makes `main` raise |
| ResultsViz.PlotCurvesFromData | latex_gen/postprocessing/results_viz.py:47-99 | with a positive interval, the figure plots the training curve, then the validation curve; each of their points is a (step, loss) pair of the input |
| ResultsViz.PlotDefaultLimitsContain | latex_gen/postprocessing/results_viz.py:54-99 | with no limits given, every plotted point lies inside its panel's limits |
| ResultsViz.PlotSingleMergesSplit | latex_gen/postprocessing/results_viz.py:69-99 | single mode draws the split mode's curves in one panel; its limits are the merge of the two panels' limits, and one mode succeeds exactly when the other does |
| ResultsViz.PlotSucceeds | latex_gen/postprocessing/results_viz.py:47-99 | without filtering and with a positive interval, `main` draws its figure exactly when both series are non-empty and both steps are non-zero |
| ResultsViz.PlotEmptySeries | latex_gen/postprocessing/results_viz.py:54-65 | an empty loss series makes `min` raise |
| VisUtil.KeptFrom | latex_gen/utils/vis_util.py:47 | the kept indices lie in range |
| VisUtil.KeptFromSorted | latex_gen/utils/vis_util.py:47 | the kept indices increase strictly |
| VisUtil.KeptFromMembers | latex_gen/utils/vis_util.py:47 | an index is kept exactly when its mask entry is false |
| VisUtil.KeptCount | latex_gen/utils/vis_util.py:47 | there are as many kept indices as false mask entries |
| VisUtil.KeepFromAt | latex_gen/utils/vis_util.py:47 | the filtered array is the elements at the kept indices |
| VisUtil.KeepProperties | latex_gen/utils/vis_util.py:47 | `point[~mask]` keeps, in order, exactly the elements whose mask entry is false; its length is the number of false entries |
| VisUtil.KeepNothingMasked | latex_gen/utils/vis_util.py:47 | an all-false mask keeps the whole array |
| VisUtil.ApplyToAll | latex_gen/utils/vis_util.py:74-79 | one mask on every array succeeds exactly when every array has the mask's length, and filters each array by it |
| VisUtil.FilterOutliers | latex_gen/utils/vis_util.py:50-82 | one output array per input array; `ValueError` exactly for a mode other than `all`, `first` and `last`; `IndexError` exactly for `first` or `last` with no arrays |
| VisUtil.FilterAllOwnMask | latex_gen/utils/vis_util.py:44-73 | in mode `all` each array keeps, in order, the elements its own mask marks false |
| VisUtil.FilterFirstMask | latex_gen/utils/vis_util.py:74-76 | in mode `first` the first array's mask filters every array; equal-length inputs stay equal-length and index-aligned |
| VisUtil.FilterLastMask | latex_gen/utils/vis_util.py:77-79 | in mode `last` the last array's mask filters every array; equal-length inputs stay equal-length and index-aligned |
| VisUtil.FilterSharedMaskMismatch | latex_gen/utils/vis_util.py:74-79 | in `first` or `last` mode, arrays of different lengths fail the boolean index |

## Left out

- The `latex` and `dvipng` subprocess calls, `chdir`, `copy` and the `rm`/`xargs` cleanup in both `tex_util.py` files are external effects. `TexToImgJob` stops at the names and the `.tex` contents.
- `os.path.abspath` in `tex_to_img` and `tex_to_img.py` depends on the working directory (`tex_viz.py` passes its `tmp_dir` on as given, and its image path becomes absolute only inside `tex_to_img`). Paths are taken already absolute and normalised (no trailing `/`, no empty, `.` or `..` segments), as `abspath` returns them; the model does not perform `normpath`, so on a path of another shape its temp names and joined paths differ from the program's.
- File reading and text encodings: a file is its decoded text, and text mode's newline translation is modelled by `DecodeNewlines`.
- `ptb_loader._read_words` is not part of this model. `_read_words` is modelled by its fallback branch at line 40. `custom_iterator` and the rest of the file after line 80 are left out too.
- The `print` calls in every script and `tqdm` progress bars are output only.
- OpenCV's `imread`, `imshow` and `waitKey` are left out. Key presses are an input sequence, and `View` ends with `KeysExhausted` when the keys run out, where the program would wait for more.
- `argparse` in every script is left out. Options are given as parameters.
- The modified z-score in `is_outlier` (float median, MAD and the 0.6745 factor) is left out. It is an arbitrary mask function, required to give one boolean per observation (`MasksFit`); `thresh` goes with it.
- float32 loss values and matplotlib are left out. Losses are exact reals, and a figure is a list of panels with their limits and curves.
- `ResultsViz.Arange` uses integer arithmetic; numpy's float length computation for huge arguments is left out.
- `VisUtil.FilterOutliers` returns a list of arrays where the source returns a lazy generator. Errors from indexing therefore appear when the result is built, not when it is consumed.
- `ResultsViz.PlotResults` keeps the user-given limits as reals where argparse gives ints, and it models `plt.plot`'s check on the lengths of x and y as `ShapeMismatch`.
- `AutoTeX`: `super().__init__(self, text=None)` at latex_gen/utils/tex_util.py:154 raises `TypeError`. Even with that fixed, `TeX.__init__` would call the overridden `add` with `None` and iterate it. Lines 175, 179 and 182 forward the callbacks as one tuple, so the check at line 162 always replaces the stored callbacks. The model follows the documented behaviour instead: an explicit constructor, and callbacks forwarded unpacked.
- `TexUtil.AutoTeX.constructor`: the `assert length >= 1` at line 151 is a precondition, not an error result.
- `tex_to_dvi` in `utils/tex_util.py:22-27` uses an undefined `stderr` (a `NameError`). It is subprocess code and is left out.
- `TexViz.View`: a negative `num_display` (Python's ceil of a negative quotient, and its slices) is not modelled. `num_display` is a natural number.
- `latex_gen/postprocessing/sample.py`, `latex_gen/preprocessing/combine_text.py`, `latex_gen/preprocessing/tex_crawling.py`, `utils/others_util.py` and `postprocessing/results_viz.py` have no logic to model beyond file and process plumbing.
- `TexToImg.Which`: the executable check `os.path.isfile` plus `os.access` is a parameter.
