# resize_image.py in Dafny

A model of `resize_image.py`, a command-line script that shrinks images to
1024×1024. It reads its arguments in an unusual way. With exactly two
arguments, the first is a flag and the second is the input; there is no
output path then. With one argument, or with three or more, the first is
the input and the second, if any, is the output. So an explicit output path
is only read when three arguments are given, and `photo.png out.png`
resizes `out.png` into `out_1024x1024.png`.

The script works in three modes, chosen from the input:

- **Single file**: the text after the input's last dot is `png`, `jpg`,
  `jpeg`, `bmp`, `gif` or `tiff` (case-sensitive). `resize_image.py
  photo.png` resizes one image and saves it next to the input as
  `photo_1024x1024.png`. `resize_image.py photo.png out.png x` saves it as
  `out.png`.
- **Folder**: any other input that is not taken by `-f`. It runs
  `batch_resize`, which creates the output folder and resizes every entry
  whose lower-cased name ends in `.png`, `.jpg`, `.jpeg`, `.bmp` or `.gif`.
  It counts the successes and skips the failures. The output folder is the
  second argument when three or more are given, and `input/resized_1024` otherwise:
  `resize_image.py folder out` batch-resizes `out` into `out/resized_1024`.
- **`-f root`** (exactly these two arguments, with a root that does not
  pass the single-file test): every entry of `root` is an item folder. Each item gets
  `USD`, `2K` and `1k` sub-folders. Its image files move into `2K` and its
  `.usda`/`.usdc`/`.usdz` files into `USD`. These suffix tests are
  case-sensitive. Then `2K` is batch-resized into `1k`.

The file system is a class `FileSystem.FileSystem`. Its field `entries`
maps each path (a list of components) to a directory or a file. Three
methods update it in place:

- `MakeDirs` models `os.makedirs(exist_ok=True)`;
- `Move` models `shutil.move`;
- `ListDir` models `os.listdir`.

The empty path string names no entry: `os.listdir("")` raises and
`Image.open("")` fails, as they do on a real file system.

The imaging library (PIL's open, LANCZOS resize and save) is a fixed
oracle `imaging` on the file content and the output path. A resized file
is `Resized(content, 1024, 1024)`.

Exceptions that the script does not catch are `Outcome.Raised`. They
propagate to `CommandLine.Run`, which reports them as `Status.Uncaught`.

The modules follow the script's parts:

- `Paths`: `os.path.splitext`, `os.path.join`, and the default output name.
- `Extensions`: the three extension tests.
- `FileSystem`: the file-system primitives.
- `Resizer`: `resize_image` and `batch_resize`.
- `Reorganizer`: the `-f` loop.
- `CommandLine`: `main`.

## Model

| member | source | states |
|---|---|---|
| Paths.LastIndex | resize_image.py:41-42 | the index found is an occurrence of the character, with none after it; -1 exactly when the character is absent (`rfind`, which `splitext` uses) |
| Paths.SplitExt | resize_image.py:41-42 | root + extension is the path; the extension is empty or starts at the final component's last dot with no dot or separator after it; a dot preceded only by dots in the component starts no extension |
| Paths.DefaultOutputSplits | resize_image.py:40-43 | the default output path splits back into the input's root followed by `_1024x1024`, with the input's own extension |
| Paths.SplitExtFinalComponent | resize_image.py:41-42 | `splitext` of `dir/name` looks only at the final component |
| Paths.DefaultOutputSameDirectory | resize_image.py:40-43 | the default output lands in the input's directory; only the final component's name changes |
| Paths.DefaultOutputPath | resize_image.py:40-43 | the default output path is the input's length plus the suffix's, starts with the input's root and ends with the input's extension |
| Paths.DefaultOutputNoSeparator | resize_image.py:40-43 | the default output path never ends with a separator |
| Paths.JoinShape | resize_image.py:80-81 | `os.path.join(a, b)` ends with `b`; an absolute `b` is the whole result; otherwise an empty `a` gives `b` itself, and a non-empty `a` is followed by exactly one '/' before `b`: its own last character when it ends with one (the result is then exactly `a` then `b`), and an added one otherwise |
| Paths.JoinNameNoSeparator | resize_image.py:80-81 | `os.path.join(folder, name)` for a listed name never ends with a separator |
| Paths.KeyJoin | resize_image.py:80-81 | `os.path.join(folder, name)` for a listed name addresses the entry `name` of `folder` |
| Paths.Key | resize_image.py:26 | a path string resolves to components without separators; it is absolute exactly when the string starts with '/' |
| Extensions.Lower | resize_image.py:79 | `lower()` keeps the length, leaves no upper-case ASCII letter, turns each upper-case letter into the lower-case letter at the same place of the alphabet, and keeps every other character |
| Extensions.LastDotField | resize_image.py:126 | `split('.')[-1]` is a dot-free suffix of the argument, preceded by a dot unless it is the whole argument |
| Extensions.LastDotFieldUnique | resize_image.py:126 | those three facts determine the last dot-field |
| Extensions.SingleFileImageIff | resize_image.py:126 | the single-file test holds exactly when the argument is one of the six words, or ends with a dot followed by one of them |
| Extensions.ImageByCaseIsBatchImage | resize_image.py:135 | every name the `-f` mode moves into `2K` passes `batch_resize`'s case-insensitive filter of line 79 |
| Extensions.UpperCaseImageStaysAtItemRoot | resize_image.py:135 | `PHOTO.PNG` passes the batch filter but is not moved into `2K` |
| Extensions.ImageAndUsdExclusive | resize_image.py:135-138 | no name is both an image and a scene file, so the two `if`s never move the same entry twice |
| Extensions.TiffIsSingleFileOnly | resize_image.py:126 | `scan.tiff` takes the single-file branch but is not in the batch allow-list |
| Extensions.SuffixedNameLength | resize_image.py:135-138 | a name with an image or scene suffix has at least four characters (so it is never `2K`, `1k` or `USD`) |
| FileSystem.Children | resize_image.py:78 | the names in a folder are exactly the names whose path under the folder is an entry |
| FileSystem.MakeDirsResult | resize_image.py:131-133 | `makedirs` (also line 74) raises exactly for an empty path or a file on the way; otherwise every prefix is a directory, old entries are kept, and only directories on the path are added |
| FileSystem.Relocate | resize_image.py:136-138 | a move keeps everything outside both subtrees; each path under the source reappears under the target and nothing else is there |
| FileSystem.MoveFile | resize_image.py:136-138 | moving a file onto a free path with an existing directory succeeds, puts the file there and removes the source |
| FileSystem.MoveResult | resize_image.py:136-138 | `shutil.move` raises `NotFound` for a missing source and renames a directory onto itself in place; a move that succeeds had a source, an existing target directory, no namesake inside a target directory, no move into itself and no directory onto a file, and puts the source's entry at the target, removes the source, and changes nothing outside the two subtrees |
| FileSystem.FileSystem.MakeDirs | resize_image.py:131-133 | the new state and the raised error are those of `MakeDirsResult`; a failed call changes nothing |
| FileSystem.FileSystem.Move | resize_image.py:136-138 | the new state and the raised error are those of `MoveResult`; a failed call changes nothing |
| FileSystem.FileSystem.ListDir | resize_image.py:129 | raises exactly when the path is not a directory (the empty path included), with `NotFound` for a missing path and `NotADirectory` for a file; otherwise returns each name in the folder exactly once (the same call serves lines 78, 134 and 140) |
| Resizer.ResizeImage | resize_image.py:12-58 | returns True exactly when neither the input string nor the output string (default: `DefaultOutputPath`) ends with '/', the input is a file the library can resize for the output path, and that path is not a directory and has an existing parent; only then is the resized file written there |
| Resizer.ResizeFailures | resize_image.py:24-58 | `resize_image` returns False for a missing, empty or directory input path and for an output path that is empty, a directory, or inside a missing folder |
| Resizer.SeparatorFailures | resize_image.py:24-58 | an input or an explicit output ending with '/' makes `resize_image` return False on every tree; with the derived output only the input's trailing '/' matters |
| Resizer.SlashedOutputFails | resize_image.py:46 | "out.png/" resolves to the same entry as "out.png", yet saving to it fails on every tree |
| Resizer.BatchOutputFolder | resize_image.py:70-71 | `batch_resize` writes into the output folder given, or else into the entry `resized_1024` of the input folder |
| Resizer.BatchWritesAt | resize_image.py:78-85 | the writes put the resized copy at `out/n` exactly for the listed, allow-listed, resizable names and write nothing else |
| Resizer.BatchWritesInsert | resize_image.py:78-85 | handling one more name adds at most that name's file |
| Resizer.BatchWritesElsewhere | resize_image.py:78-85 | earlier turns never touch the source, the target or the output folder of a later name |
| Resizer.BatchStepDecides | resize_image.py:79-84 | each turn succeeds or fails as it would on the tree the loop started from, so the result does not depend on listing order |
| Resizer.BatchStepWrites | resize_image.py:84 | a successful turn extends the state by exactly its own file |
| Resizer.BatchStepCounts | resize_image.py:84-85 | `processed` grows by one exactly on a successful turn |
| Resizer.ProcessedBound | resize_image.py:77-88 | processed ≤ allow-listed entries ≤ entries |
| Resizer.ResizeEntry | resize_image.py:78-85 | one turn of the listing loop succeeds exactly for an allow-listed name whose file the library can resize into the output folder; only then is that one resized file written |
| Resizer.ResizeEach | resize_image.py:77-85 | after the loop, the state is the old one plus the writes for the listed names, and `processed` counts the resizable ones |
| Resizer.BatchResize | resize_image.py:61-90 | raises unchanged if the output folder cannot be created; raises if the input is not a folder; otherwise returns True with the resized copies written and their count |
| Reorganizer.SortFolder | resize_image.py:135-138 | `2K` exactly for case-sensitive image names, `USD` exactly for scene names, none otherwise |
| Reorganizer.SortEntriesAfterRaise | resize_image.py:134-138 | once a move raises, the rest of the pass changes nothing |
| Reorganizer.SortEntries | resize_image.py:134-138 | a pass that starts after an exception does nothing, and a pass that ends without one started without one |
| Reorganizer.SortItem | resize_image.py:130-138 | the state after one item's `makedirs` calls and moves is the trace of those primitives over the listing `os.listdir` returned; the raised error is the trace's |
| Reorganizer.Prepare | resize_image.py:131-133 | the three `makedirs` calls, stopping at the first that raises |
| Reorganizer.SortListed | resize_image.py:134-138 | the moves of the listed names, in listing order, stopping at the first that raises |
| Reorganizer.SortFile | resize_image.py:134-138 | one turn of the inner loop: the new state and the raised error are those of the move, if any, that the entry's suffix selects |
| Reorganizer.MoveInto | resize_image.py:136-138 | `move(join(item, file), join(item, folder, file))` has exactly the effect of moving the entry `item/file` to `item/folder/file`, with its error if it raises |
| Reorganizer.SortEntryStep | resize_image.py:134-138 | each move keeps the account: moved names leave nothing behind; other names and everything outside the item are unchanged |
| Reorganizer.SortEntriesAccount | resize_image.py:134-138 | a pass that raised nothing accounts for every listed name |
| Reorganizer.SortPassSortsItem | resize_image.py:134-138 | after a complete pass, no image or scene file is left at the item root; other entries stay where they were; nothing outside the item changed |
| Reorganizer.SortPassIdle | resize_image.py:134-138 | a second pass over a sorted item moves nothing |
| Reorganizer.SecondTurnIdle | resize_image.py:131-138 | after a completed turn, handling the item again makes the three folders and then moves nothing: the pass over its new listing leaves the tree as the `makedirs` calls left it |
| Reorganizer.MoveIntoFolder | resize_image.py:136-138 | a successful move into a sub-folder changes only the moved entry's and that folder's subtrees, and empties the entry's place |
| Reorganizer.MoveIntoDest | resize_image.py:136-138 | moving the entry `n` of an item into its sub-folder `d` changes nothing below the item except the entry itself and `d/n` |
| Reorganizer.MoveIntoFreshFolder | resize_image.py:136-138 | moving into a sub-folder with no entry of that name succeeds and puts the entry there unchanged |
| Reorganizer.Destination | resize_image.py:136-138 | the destination is `item/2K/n` exactly for image names and `item/USD/n` exactly for scene names |
| Reorganizer.PlaceStep | resize_image.py:134-138 | one more move into a fresh destination raises nothing and keeps the placement account |
| Reorganizer.PlacedPrefix | resize_image.py:134-138 | the placement account after each prefix of the listing |
| Reorganizer.SortPassPlaces | resize_image.py:134-138 | with free destinations the pass raises nothing; every image file is then in `2K` and every scene file in `USD`, each with its original content |
| Reorganizer.MakeDirsKept | resize_image.py:131-133 | creating folders inside an item keeps what lies outside the item |
| Reorganizer.PrepareItemKept | resize_image.py:131-133 | after the three `makedirs` calls, the item and its `USD`, `2K` and `1k` folders are directories, and nothing outside the item changed |
| Reorganizer.PrepareFileItem | resize_image.py:129-131 | an item that is a regular file makes the first `makedirs` raise |
| Reorganizer.PrepareTouches | resize_image.py:131-133 | the three `makedirs` calls change nothing below the item except its `USD`, `2K` and `1k` folders themselves |
| Reorganizer.ItemSortedKept | resize_image.py:129-139 | handling one item keeps an earlier item sorted |
| Reorganizer.KeptOutsideTrans | resize_image.py:130-139 | keeping what lies outside an item composes over the steps of a turn |
| Reorganizer.BatchResizeKept | resize_image.py:139 | the resize of `2K` into `1k` changes nothing outside the item |
| Reorganizer.BatchResizeKeepsSorted | resize_image.py:139 | that resize adds nothing to the item root that the `-f` mode would move |
| Reorganizer.SortItemAccount | resize_image.py:129-138 | whatever order the listing came in, a file item raises; a turn that raises nothing leaves the item sorted and nothing outside it changed |
| Reorganizer.DestAccount | resize_image.py:134-138 | a pass that raised nothing leaves every entry of `2K` and `USD` as it was, except those sharing a name with a listed entry the pass moved into that folder |
| Reorganizer.PassKeepsFolders | resize_image.py:131-138 | after the `makedirs` calls and moves of a turn, the item's `USD`, `2K` and `1k` are directories, and inside `2K` and `USD` everything is as before except where an entry of the item root was moved |
| Reorganizer.PassFacts | resize_image.py:131-138 | once the moves raise nothing, the `makedirs` calls raised nothing; the item root is sorted, entries that are not moved and everything inside `1k` are as before, and nothing outside the item changed |
| Reorganizer.PassPlaces | resize_image.py:131-138 | when no destination folder holds a namesake, the moves raise nothing and put every image file of the item root in `2K` and every scene file in `USD`, each with its original content |
| Reorganizer.ResizeFacts | resize_image.py:139 | a batch resize of `2K` into `1k` that raises nothing changes nothing outside the item and nothing below it outside `1k`, keeps the item sorted, and adds to `1k` only 1024x1024 copies of allow-listed names |
| Reorganizer.ResizeKeepsFolder | resize_image.py:139 | the batch resize of `2K` into `1k` leaves `1k` a directory and removes no entry |
| Reorganizer.FoldersCompose | resize_image.py:131-139 | a turn leaves the three folders in place: `1k` keeps every entry it had, and `2K` and `USD` keep theirs except where a moved entry lands |
| Reorganizer.ItemTurnAccount | resize_image.py:129-139 | a turn on a file item raises; a turn that raises nothing keeps everything outside the item and keeps the promises of `TurnDone`: item sorted, unmoved entries unchanged, moved entries at their destinations when those were free, the `USD`, `2K` and `1k` folders present, `1k` keeping what it held and gaining only resized images, and `2K` and `USD` keeping what they held except where a moved entry lands |
| Reorganizer.ItemTurnCompletes | resize_image.py:129-139 | a turn whose `makedirs` calls succeed, on an item with free destination folders, raises nothing |
| Reorganizer.ReorganizeStep | resize_image.py:128-139 | one more completed turn keeps the loop's account: nothing outside the root changed, earlier items keep their promises, later items are untouched |
| Reorganizer.LoopTurn | resize_image.py:128-139 | a turn on the next entry raises if that entry was a file, and a turn that completes extends the loop's account by that entry |
| Reorganizer.LoopAccountComplete | resize_image.py:128-139 | once the loop has gone through the whole listing of the root, every entry of the root was a folder and keeps the promises of `TurnDone` |
| Reorganizer.HandleItem | resize_image.py:129-139 | one turn of the `-f` loop: the new state and the raised exception are exactly those of `ItemTurn` (the three `makedirs` calls, the moves over the listing `os.listdir` returned, and the batch resize of `2K` into `1k`); a completed turn sets `success` to True |
| Reorganizer.ResizeItem | resize_image.py:139 | the batch resize of `2K` into `1k`: the new state is exactly `ThenBatchResize`'s (the `1k` folder, then the 1024x1024 copies of the allow-listed entries of `2K`), it raises exactly when that does, and otherwise returns True |
| Reorganizer.Reorganize | resize_image.py:128-139 | a root that is not a folder raises, with nothing changed; a file entry raises; an empty root gives False, with nothing changed; on completion `success` is True exactly when the root had entries, nothing outside the root changed, and every item keeps the promises of `TurnDone`: sorted, its `USD`, `2K` and `1k` folders present with what they held, images and scene files in their folders when those were free, `1k` gaining only resized images |
| CommandLine.UsageIff | resize_image.py:104-113 | the usage exit happens exactly with no argument or with `-h` first |
| CommandLine.ReadArguments | resize_image.py:115-121 | with exactly two arguments the first is the flag and the second the input, with no output; otherwise the input is the first, the output is the second exactly when there are three or more, and the flag is empty |
| CommandLine.Dispatch | resize_image.py:104-128 | usage exactly with no argument or `-h` first; single-file mode only for an input that passes the dot-field test; `-f` mode only for `-f root`; the folder branch otherwise, with the input and output `ReadArguments` gives |
| CommandLine.SingleFileIff | resize_image.py:115-127 | single-file mode is taken exactly when the input's last dot-field is one of the six words; with exactly two arguments the input is the second one |
| CommandLine.FoldersIff | resize_image.py:115-128 | `-f` mode is taken exactly for `-f root` where the root does not look like an image name |
| CommandLine.UsageExampleResizesSecondFile | resize_image.py:104-127 | the usage line's own example treats `image_2048.png` as a flag and writes `image_1024_1024x1024.png` from `image_1024.png` |
| CommandLine.ExampleOutputName | resize_image.py:40-43 | the default output name of `image_1024.png` is `image_1024_1024x1024.png` |
| CommandLine.PlainSplit | resize_image.py:41-42 | a stem with no dot or separator, then a dot and a plain suffix, splits at that dot |
| CommandLine.SingleFileBeforeFlag | resize_image.py:126-128 | `-f shots.png` resizes one file; the single-file test comes before the flag |
| CommandLine.BareExtensionIsSingleFile | resize_image.py:126 | a bare `png` is taken as an image file name |
| CommandLine.UpperCaseSingleFileIsFolder | resize_image.py:126 | `photo.PNG` goes to the folder branch |
| CommandLine.SlashedOutputExits | resize_image.py:115-127 | `in.png out.png/ x` takes the single-file branch with the output `out.png/`, and that resize fails on every tree, so `main` exits 1 |
| CommandLine.FlagIgnoredWithThreeArguments | resize_image.py:115-121 | with three arguments after the script name, `-f` is read as the input folder |
| CommandLine.RunFolders | resize_image.py:128-147 | the `-f` branch ends uncaught for a non-folder root or a file item, exits 1 for an empty root with nothing changed, and on completion leaves nothing outside the root changed and every item keeping the promises of `TurnDone`, its `USD`, `2K` and `1k` folders present with what they held included |
| CommandLine.RunFolder | resize_image.py:140-147 | the folder branch ends uncaught for a non-folder, exits 1 with nothing changed for an empty folder, and otherwise gives `batch_resize`'s effect and completes, or ends uncaught when the output folder cannot be created |
| CommandLine.Run | resize_image.py:92-147 | `main`: usage exits 1; single-file mode completes exactly when `resize_image` succeeds (a trailing '/' on the input or output string included), with its write, and otherwise exits 1 with nothing changed; the two folder modes behave as `RunFolders` and `RunFolder` state, a completed `-f` run leaving every item sorted with its three folders in place |

## Left out

- Image decoding, LANCZOS resampling and encoding: these are the opaque oracle `imaging` and a `Resized` content tag, with no pixels modelled.
- The 2048×2048 warning (lines 32-34) and every `print`: console output only, with no effect on results.
- `lower()` lower-cases ASCII letters only: there is no Unicode case mapping.
- Path strings: `.` and `..` components, symbolic links and permissions are not resolved. A trailing '/' is dropped when a string is resolved to an entry; `resize_image` tests it on the string itself and fails, as opening or saving a file through it does. `makedirs`, `listdir` and `move` do not test it: the script passes them a string ending with '/' only when the user's argument ends with one, and those calls then work on the directory the string names. A save that raises `PermissionError` or leaves a truncated file is modelled as a save that writes nothing.
- Listing order: the model does not fix the order of `os.listdir`. The batch results are proved independent of that order. The `-f` pass is stated over whatever order was returned.
- Concurrency with other processes changing the folders is not modelled.
- Exit status: an exception that reaches the top ends the interpreter with status 1 and a traceback. The model reports it as `Status.Uncaught` and does not model the traceback.
- Reorganizer.Reorganize: it does not state the final tree in closed form. It states a frame around the root and, for every item, the promises of `TurnDone`, which include the three folders and what they held. Where a moved entry lands is stated only when its destination folder held no namesake; otherwise `shutil.move` may overwrite a file there or move the entry into a folder of that name. When the loop raises, it states nothing about the state left behind, and it does not say which item raised first, because that depends on the listing order.
- CommandLine.RunFolders: when the `-f` branch completes, it states that each item's `1k` folder gained only 1024x1024 copies of allow-listed names, not which of them were written. Which were written is stated exactly per turn by `Reorganizer.ResizeItem` and `Reorganizer.HandleItem`.
- FileSystem.MoveResult: a directory moved into a missing folder raises, where `shutil.move` would copy it there and create the missing parents. The script's moves always go into a folder it has just created, so this case never arises.
- The `sys.argv[3]` read at line 118 can never run, because that branch requires exactly three entries. The model reads `None` there.
