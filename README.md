# imageShrink core, modelled in Dafny

imageShrink is a small JavaFX utility. It takes file paths on its command line and asks for a reduction factor (2, 4, 8 or 16). It writes a nearest-neighbour reduced copy of every JPEG, PNG or BMP file next to the original, under the name `<stem>_smaller.<ext>`, and then shows a report. This project models the logic inside `Main.start` and `Main.createShrunkenImage`:

- **FileTypes** (`file_types.dfy`): the file-type gate and the destination name. A path is accepted only when its last `.` is at an index above 0 and the lower-cased text after it is `jpg`, `jpeg`, `png` or `bmp`. The destination is the text before that `.`, then `_smaller.`, then the extension with its casing kept. The arguments are full paths and the gate looks at the whole path, so only a path that itself starts with its only `.` is refused for that reason: a hidden file such as `/d/.png` is accepted and written to `/d/_smaller.png`.
- **Downscaler** (`downscaler.dfy`): the output size, which is the ceiling of each side divided by the factor. It also holds the sampling loop, which walks the input with stride `f` and fills a `TYPE_INT_RGB` buffer (an `array2`) through the `outputX`/`outputY` counters. Last, it holds the per-file outcome pair that `createShrunkenImage` returns.
- **Sorting** (`sorting.dfy`): `imageList.sort(Comparator.comparing(String::toLowerCase))`. It is modelled as a stable insertion sort on the lower-cased key, compared the way `String.compareTo` compares.
- **Batch** (`batch.dfy`): the body of `start()`. It keeps the arguments that are files and takes the two early exits ("no files found", and no factor chosen). It then runs the aggregation loop with its two counters and two texts, and assembles the report step by step.
- **Scenarios** (`scenarios.dfy`): one whole run worked through to its exact report text.
- **Strings** and **Wrappers**: `lastIndexOf`, ASCII `toLowerCase`, the decimal rendering of a count, and `Option`.

The image codec, the filesystem and `File.getName` are inputs of the model:

- `CreateShrunkenImage` receives the decoded grid (`None` when `ImageIO.read` failed) and whether `ImageIO.write` succeeded. It returns the write request it would hand to the encoder: the path, the format `"jpg"` and the pixels.
- `Start`/`Run` receive three functions: `isFile` (the `new File(p).isFile()` test), `codecOk` (whether reading and writing a path succeeded when it was tried) and `name` (the display name).
- The reduction factor is a natural number. 0 means the dialog gave no answer.

Pixels are 32-bit `0xAARRGGBB` values read as unsigned. Storing one in the `TYPE_INT_RGB` output keeps only its colour (`OpaqueRgb`). A cell of the output therefore equals the input pixel at `f` times its coordinates, with the alpha cleared.

The input grid is never changed. `Downscale` has no `modifies` clause, so Dafny proves it writes only the array it allocates.

## Model

| member | source | states |
|---|---|---|
| `Strings.LastIndexOf` | src/com/github/jodama/imageshrink/Main.java:210 | The result is -1 exactly when the character is absent. Otherwise it is an index holding the character, with no occurrence after it. |
| `Strings.LastIndexOfSplit` | src/com/github/jodama/imageshrink/Main.java:217-218 | In `a + "." + b`, where `b` has no `.`, the last `.` is at the index just after `a`. |
| `Strings.ToLower` | src/com/github/jodama/imageshrink/Main.java:73 | Defines ASCII lower-casing, the `toLowerCase` of the gate and of the sort key; it keeps the length. |
| `Strings.ToLowerLowers` | src/com/github/jodama/imageshrink/Main.java:73 | Lower-casing leaves no ASCII capital, turns each capital into its small letter, keeps every other character, and is idempotent. |
| `Strings.ParseNatToString` | src/com/github/jodama/imageshrink/Main.java:91 | A count's decimal text in the report reads back as the count. |
| `Strings.NatToStringInjective` | src/com/github/jodama/imageshrink/Main.java:98 | Different counts give different texts in the report. |
| `FileTypes.IsKnownType` | src/com/github/jodama/imageshrink/Main.java:210-213 | Defines the gate as the code writes it: the last `.` is above index 0 and the lower-cased text after it is jpg, jpeg, png or bmp. An accepted path has a `.` in it. |
| `FileTypes.KnownTypeIff` | src/com/github/jodama/imageshrink/Main.java:210-213 | Take `stem + "." + ext` with no `.` in `ext`. The gate accepts it if and only if the stem is non-empty and the lower-cased `ext` is one of jpg, jpeg, png, bmp. |
| `FileTypes.NoDotRefused` | src/com/github/jodama/imageshrink/Main.java:210 | A name without `.` is refused. |
| `FileTypes.LeadingDotRefused` | src/com/github/jodama/imageshrink/Main.java:210 | A path whose only `.` is its first character (`.png`, as a bare name) is refused. The gate tests the whole path, so this is not a rule about hidden files in a directory. |
| `FileTypes.AcceptedExamples` | src/com/github/jodama/imageshrink/Main.java:210-213 | `photo.PNG` and `a.b.Jpeg` are accepted: case is ignored and the last `.` decides. |
| `FileTypes.LeadingDotExample` | src/com/github/jodama/imageshrink/Main.java:210 | `.png` is refused. |
| `FileTypes.UnsupportedExample` | src/com/github/jodama/imageshrink/Main.java:210-213 | `notes.txt` is refused. |
| `FileTypes.InnerExtensionExample` | src/com/github/jodama/imageshrink/Main.java:210-213 | `photo.png.gz` is refused: only the last extension counts. |
| `FileTypes.HiddenFileInDirectoryExample` | src/com/github/jodama/imageshrink/Main.java:210-213 | The full path `/d/.png` of a hidden file is accepted, because its last `.` is not the first character of the path. |
| `FileTypes.HiddenFileDestinationExample` | src/com/github/jodama/imageshrink/Main.java:217-218 | `/d/.png` is written as `/d/_smaller.png`. |
| `FileTypes.NameSplits` | src/com/github/jodama/imageshrink/Main.java:217-218 | A name with a `.` is its stem, a `.`, and an extension that has no `.`. |
| `FileTypes.SplitParts` | src/com/github/jodama/imageshrink/Main.java:217-218 | The stem and the extension of `stem + "." + ext` are recovered exactly. |
| `FileTypes.SmallerPath` | src/com/github/jodama/imageshrink/Main.java:217-218 | The destination's stem is the source stem plus `_smaller`. Its extension is the source extension, with the same case. |
| `FileTypes.WithoutSmallerInverts` | src/com/github/jodama/imageshrink/Main.java:217-218 | Removing `_smaller` from before the last `.` of the destination gives back the source path. |
| `FileTypes.SmallerPathKnownType` | src/com/github/jodama/imageshrink/Main.java:210-218 | The destination of an accepted file would itself pass the gate. |
| `FileTypes.SmallerPathExample` | src/com/github/jodama/imageshrink/Main.java:217-218 | `photo.PNG` is written as `photo_smaller.PNG`. |
| `Downscaler.OpaqueRgbChannels` | src/com/github/jodama/imageshrink/Main.java:223-228 | A pixel stored in the RGB output keeps its red, green and blue channels and loses its alpha. |
| `Downscaler.CeilDiv` | src/com/github/jodama/imageshrink/Main.java:221-222 | The output side `r` is the ceiling of `n / f`: `n <= r*f < n + f`. |
| `Downscaler.CeilDivBounds` | src/com/github/jodama/imageshrink/Main.java:221-222 | An input side of at least 1 gives an output side between 1 and the input side. |
| `Downscaler.StrideSteps` | src/com/github/jodama/imageshrink/Main.java:226-227 | Step `k` of a stride-`f` loop below `n` is taken if and only if `k` is below the output side. So the counters stay in bounds and reach the side exactly. |
| `Downscaler.CellsExactlyOnce` | src/com/github/jodama/imageshrink/Main.java:224-233 | The loop's column-by-column visiting order lists every output cell exactly once, and no other cell. |
| `Downscaler.Downscale` | src/com/github/jodama/imageshrink/Main.java:221-233 | The output is `ceil(W/f)` by `ceil(H/f)`. Each cell `(ox, oy)` holds the input pixel `(ox*f, oy*f)` without alpha, and that pixel is in bounds. The cells written are exactly the visiting order, so each is written once. |
| `Downscaler.SampleColumn` | src/com/github/jodama/imageshrink/Main.java:227-231 | The inner loop fills column `outputX` from every `f`-th row of input column `outputX*f` and leaves the other columns unchanged. |
| `Downscaler.UnknownTypeNotRead` | src/com/github/jodama/imageshrink/Main.java:210-241 | A refused file fails whatever the codec would do: its outcome does not depend on the codec. |
| `Downscaler.CreateShrunkenImage` | src/com/github/jodama/imageshrink/Main.java:207-242 | Success holds exactly when the type is accepted, decoding succeeded and the encoder succeeded; the line is a newline and the display name either way. An encoder request is made exactly when the type is accepted and decoding succeeded. The request goes to the `_smaller` path, uses format `"jpg"`, and carries the sampled image. |
| `Sorting.LexLe` | src/com/github/jodama/imageshrink/Main.java:73 | Defines `compareTo(a, b) <= 0`: `a` is a prefix of `b`, or `a` has the smaller character at the first index where the two differ. |
| `Sorting.LexLeRefl` | src/com/github/jodama/imageshrink/Main.java:73 | The string order is reflexive. |
| `Sorting.LexLeTotal` | src/com/github/jodama/imageshrink/Main.java:73 | Any two strings are comparable. |
| `Sorting.LexLeTrans` | src/com/github/jodama/imageshrink/Main.java:73 | The string order is transitive. |
| `Sorting.LexLeAntisym` | src/com/github/jodama/imageshrink/Main.java:73 | The string order is antisymmetric. |
| `Sorting.Key` | src/com/github/jodama/imageshrink/Main.java:73 | Defines the sort key of a path, its lower-cased text: as long as the path and already lower-case. |
| `Sorting.SortByLowerKey` | src/com/github/jodama/imageshrink/Main.java:73 | Defines the processing order as a stable insertion sort on `Key`; as many paths come out as went in. Its order properties are the lemmas below. |
| `Sorting.SortSorted` | src/com/github/jodama/imageshrink/Main.java:73 | The processing order is sorted by the lower-cased path. |
| `Sorting.SortPermutes` | src/com/github/jodama/imageshrink/Main.java:73 | The processing order is a permutation of the file list. |
| `Sorting.SortStable` | src/com/github/jodama/imageshrink/Main.java:73 | Paths with the same lower-cased text keep their input order. |
| `Sorting.SortExample` | src/com/github/jodama/imageshrink/Main.java:73 | `B.jpg, a.png, C.bmp` is processed as `a.png, B.jpg, C.bmp`. |
| `Batch.Files` | src/com/github/jodama/imageshrink/Main.java:51-55 | Defines the kept list as the file arguments in argument order: never longer than the arguments, and every entry a file. |
| `Batch.FilesAreTheFiles` | src/com/github/jodama/imageshrink/Main.java:51-55 | Each path occurs in the kept list exactly as often as in the arguments when it is a file, and not at all otherwise; so repeated file arguments are all kept. |
| `Batch.CollectFiles` | src/com/github/jodama/imageshrink/Main.java:51-55 | The filtering loop yields the file arguments in order. |
| `Batch.SuccessesAndFailuresPartition` | src/com/github/jodama/imageshrink/Main.java:76-85 | The success count plus the failure count is the number of files. Together the two lists are the input, file for file. Every listed success succeeded and every listed failure failed. |
| `Batch.ProcessOneMore` | src/com/github/jodama/imageshrink/Main.java:78-84 | One more file adds its line to exactly one of the two texts. |
| `Batch.ProcessNext` | src/com/github/jodama/imageshrink/Main.java:76-84 | The same step, stated for the next path of the list being processed. |
| `Batch.ShrinkAll` | src/com/github/jodama/imageshrink/Main.java:76-85 | After the loop, `countOfSuccesses` and `countOfFails` are the sizes of the success and failure lists. `alertText` and `failsText` are their lines, in processing order. |
| `Batch.FailureSummary` | src/com/github/jodama/imageshrink/Main.java:88-92 | Defines the failure block: unchanged when no file failed; otherwise it starts with the `Unable to shrink` heading and ends with the failure lines. |
| `Batch.SuccessHeader` | src/com/github/jodama/imageshrink/Main.java:95-98 | Defines the report header: it starts `Successfully shrunk ` and ends with the `):` after the factor. |
| `Batch.ReportText` | src/com/github/jodama/imageshrink/Main.java:88-101 | Defines the report: the fixed message when nothing was shrunk; otherwise the header and the success lines, then a text ending with the failure lines. |
| `Batch.FinaliseFails` | src/com/github/jodama/imageshrink/Main.java:88-92 | The failure block gets its `Unable to shrink N file(s):` heading only when some file failed, and is otherwise left as it is. |
| `Batch.FinaliseSuccesses` | src/com/github/jodama/imageshrink/Main.java:95-101 | With successes, the text is the header, the success lines, then the failure block. Without successes, it is the fixed unsupported-formats message. |
| `Batch.FinaliseReport` | src/com/github/jodama/imageshrink/Main.java:88-101 | The step-by-step finalisation produces the report text `ReportText`. |
| `Batch.ReportWithoutFailures` | src/com/github/jodama/imageshrink/Main.java:88-98 | With no failure, the report is the header followed only by the success lines. |
| `Batch.ReportWithoutSuccesses` | src/com/github/jodama/imageshrink/Main.java:99-101 | With no success, the report is the fixed message and the failure list is dropped. |
| `Batch.Run` | src/com/github/jodama/imageshrink/Main.java:51-70 | The run stops with "no files found" exactly when no argument is a file. It stops for lack of a factor exactly when there are files and the factor is 0. |
| `Batch.Start` | src/com/github/jodama/imageshrink/Main.java:40-105 | `start()` ends as `Run` describes: the same early exits, or the report on the sorted files. |
| `Batch.RunAccountsForEveryFile` | src/com/github/jodama/imageshrink/Main.java:73-85 | The processing order is sorted and a permutation of the files. The successes and failures together are those files, each counted once. |
| `Batch.NoSuccesses` | src/com/github/jodama/imageshrink/Main.java:76-85 | A list in which nothing can succeed records no success. |
| `Batch.RunWithoutSuccess` | src/com/github/jodama/imageshrink/Main.java:95-101 | If no argument has a supported type, the run shows the fixed message whatever the codec does. |
| `Scenarios.ScenarioOrder` | src/com/github/jodama/imageshrink/Main.java:73 | `photo.jpg, notes.txt, logo.png` is processed as `logo.png, notes.txt, photo.jpg`. |
| `Scenarios.ScenarioReport` | src/com/github/jodama/imageshrink/Main.java:40-101 | Those three files with factor 2 and a working codec give exactly `Successfully shrunk 2 files (by a factor of 2):\nlogo.png\nphoto.jpg\n\nUnable to shrink 1 file:\nnotes.txt`. The text file counts as a failure. |

## Left out

- The JavaFX dialogs (`showDialogue`, `getReduceByViaDialogue`, icons, stylesheets; Main.java:113-193) are user interface. The factor dialog's answer is the `reduceBy` parameter: 2, 4, 8 or 16, or 0 when there is no answer.
- `System.exit(0)` and `System.exit(1)` (Main.java:58-70) become the `NoFilesFound` and `NoFactorChosen` results. The console messages printed by `System.out.println` are not modelled.
- `new File(p).isFile()`, `ImageIO.read`, `ImageIO.write` and `File.getName()` are foreign I/O. They are parameters, as described above. The JPEG encoding itself is not modelled. The model records only that the encoder is always asked for format `"jpg"`, even for `.png` and `.bmp` destinations.
- The per-file outcome in `ShrinkAll` comes from the `codecOk` flag. It is not computed by running `Downscale` on pixel grids. The pixel work of one file is modelled separately, in `CreateShrunkenImage`.
- Exceptions other than a failed read or write are not modelled. The code catches only `IOException`. If `ImageIO.read` returns `null` for content it cannot decode, the code throws a `NullPointerException` that ends `start()`. A zero-sized `BufferedImage` would throw `IllegalArgumentException`. The model treats every codec failure as a per-file failure, and it handles empty grids without error.
- Downscaler.CeilDiv: the code computes `(int) Math.ceil(W / reductionFactor)` in `double`, and steps `inputX += reductionFactor` with a truncating compound assignment. For the whole factors the dialog offers, and image sides below 2^31, this is exact integer ceiling division. The model uses integer ceiling division and does not model `int` overflow of the loop counters. Non-integer factors are out of scope. The code does not clamp an output side to at least one pixel; for a whole factor and a non-empty image, `CeilDivBounds` shows that no clamp is needed.
- Downscaler.Downscale: the inner loop is split out as `SampleColumn`, which restarts `outputY` at 0 for each column just as the code resets it after each column.
- Sorting.SortSorted: `toLowerCase` is modelled for ASCII letters only, and characters compare by code point. Java lower-cases by Unicode rules, using the default locale, and compares UTF-16 code units. The order can therefore differ for non-ASCII paths. For the extension test, ASCII lower-casing gives the same answer, because no non-ASCII character lower-cases into the letters of `jpg`, `jpeg`, `png` or `bmp`.
- `List.sort` itself (TimSort) is not modelled step by step. The model uses the stable insertion sort, and proves its output sorted, a permutation and stable. Those three properties are also what `List.sort` promises.
