/** `main`: the reading of `sys.argv`, the choice between the single-file,
    `-f` and folder modes, and the exit status. */
module CommandLine {
  import opened Wrappers
  import opened Paths
  import opened Extensions
  import opened FileSystem
  import opened Resizer
  import opened Reorganizer

  /** How the script ends: normally (status 0), through `sys.exit(code)`, or
      with an exception no handler catches (status 1 and a traceback). */
  datatype Status = Completed | Exited(code: int) | Uncaught(error: OsError)

  /** The three values `main` reads from `sys.argv`. */
  datatype Arguments = Arguments(flag: string, input: string, output: Option<string>)

  /** The branch `main` takes, decided from the arguments alone; the folder
      branch still has to look at the folder before it resizes anything. */
  datatype Branch =
    | Usage
    | SingleFile(input: string, output: Option<string>)
    | Folders(root: string)
    | Folder(input: string, output: Option<string>)

  /** The flag, input and output `main` reads: with exactly two arguments the
      first one is the flag and there is no output (the source's guard for a
      third argument can never hold there); otherwise the first is the input
      and the second, if any, the output. */
  function ReadArguments(argv: seq<string>): (r: Arguments)
    requires |argv| >= 2
    ensures r.input == if |argv| == 3 then argv[2] else argv[1]
    ensures r.output.Some? <==> |argv| > 3
    ensures r.output.Some? ==> r.output.value == argv[2]
    ensures r.flag == if |argv| == 3 then argv[1] else ""
  {
    if |argv| == 3 then Arguments(argv[1], argv[2], None)
    else Arguments("", argv[1], if |argv| > 2 then Some(argv[2]) else None)
  }

  /** The decision `main` makes before touching the file system. */
  function Dispatch(argv: seq<string>): (r: Branch)
    ensures r.Usage? <==> |argv| < 2 || argv[1] == "-h"
    ensures r.SingleFile? ==>
      && IsSingleFileImage(r.input)
      && r.input == ReadArguments(argv).input
      && r.output == ReadArguments(argv).output
    ensures r.Folders? ==> |argv| == 3 && argv[1] == "-f" && r.root == argv[2] && !IsSingleFileImage(r.root)
    ensures r.Folder? ==>
      && !IsSingleFileImage(r.input)
      && !(|argv| == 3 && argv[1] == "-f")
      && r.input == ReadArguments(argv).input
      && r.output == ReadArguments(argv).output
  {
    if |argv| < 2 || argv[1] == "-h" then Usage
    else
      var args := ReadArguments(argv);
      if IsSingleFileImage(args.input) then SingleFile(args.input, args.output)
      else if args.flag == "-f" then Folders(args.input)
      else Folder(args.input, args.output)
  }

  /** The usage text and exit 1 come exactly when no argument, or `-h` first, is given. */
  lemma UsageIff(argv: seq<string>)
    ensures Dispatch(argv).Usage? <==> |argv| < 2 || argv[1] == "-h"
  {
  }

  /** The single-file mode is taken exactly when the input's text after its
      last dot is one of the six words; with exactly two arguments the input
      is the second one. */
  lemma SingleFileIff(argv: seq<string>)
    ensures Dispatch(argv).SingleFile? <==>
      |argv| >= 2 && argv[1] != "-h" && IsSingleFileImage(if |argv| == 3 then argv[2] else argv[1])
  {
  }

  /** The `-f` mode is taken exactly for `-f <root>` with a root that does not
      look like an image file name. */
  lemma FoldersIff(argv: seq<string>)
    ensures Dispatch(argv).Folders? <==> |argv| == 3 && argv[1] == "-f" && !IsSingleFileImage(argv[2])
  {
  }

  /** The usage line's own example, `image_2048.png image_1024.png`, reads
      the first name as a flag: it resizes `image_1024.png` into
      `image_1024_1024x1024.png`, and `image_2048.png` is never opened. */
  lemma UsageExampleResizesSecondFile()
    ensures Dispatch(["resize_image.py", "image_2048.png", "image_1024.png"]) == SingleFile("image_1024.png", None)
    ensures OutputPathFor("image_1024.png", None) == "image_1024_1024x1024.png"
  {
    var argv := ["resize_image.py", "image_2048.png", "image_1024.png"];
    assert |argv| == 3 && argv[1] != "-h";
    assert ReadArguments(argv) == Arguments("image_2048.png", "image_1024.png", None);
    LastDotFieldJoin("image_1024", "png");
    assert "image_1024" + ['.'] + "png" == "image_1024.png";
    assert "png" == SingleFileExtensions[0];
    ExampleOutputName();
  }

  /** The default output name of the example's second file. */
  lemma ExampleOutputName()
    ensures DefaultOutputPath("image_1024.png") == "image_1024_1024x1024.png"
  {
    var stem, ext := "image_1024", "png";
    PlainOutputName(stem, ext);
    ExampleSpelling();
  }

  /** The example's names, spelled out. */
  lemma ExampleSpelling()
    ensures "image_1024" + ['.'] + "png" == "image_1024.png"
    ensures "image_1024" + ResizedSuffix + ['.'] + "png" == "image_1024_1024x1024.png"
  {
  }

  /** The default output name of `stem.ext`, for a plain stem and suffix, is
      `stem_1024x1024.ext`. */
  lemma PlainOutputName(stem: string, ext: string)
    requires stem != [] && '.' !in stem && '/' !in stem
    requires '.' !in ext && '/' !in ext
    ensures DefaultOutputPath(stem + ['.'] + ext) == stem + ResizedSuffix + ['.'] + ext
  {
    PlainSplit(stem, ext);
  }

  /** A file name made of a stem with no dot or separator, a dot, and a
      suffix with neither splits at that dot. */
  lemma PlainSplit(stem: string, ext: string)
    requires stem != [] && '.' !in stem && '/' !in stem
    requires '.' !in ext && '/' !in ext
    ensures SplitExt(stem + ['.'] + ext) == (stem, ['.'] + ext)
  {
    var name := stem + ['.'] + ext;
    LastIndexJoin(stem, ext, '.');
    assert '/' !in name by {
      assert forall i :: 0 <= i < |name| ==> name[i] in stem || name[i] == '.' || name[i] in ext;
    }
    assert name[0] == stem[0] != '.';
    assert HasStemBefore(name, |stem|);
    assert name[..|stem|] == stem && name[|stem|..] == ['.'] + ext;
  }

  /** An image-looking input wins over `-f`: `-f shots.png` resizes one file. */
  lemma SingleFileBeforeFlag()
    ensures Dispatch(["resize_image.py", "-f", "shots.png"]) == SingleFile("shots.png", None)
  {
    var argv := ["resize_image.py", "-f", "shots.png"];
    assert |argv| == 3 && argv[1] != "-h";
    assert ReadArguments(argv) == Arguments("-f", "shots.png", None);
    LastDotFieldJoin("shots", "png");
    assert "shots" + ['.'] + "png" == "shots.png";
    assert "png" == SingleFileExtensions[0];
  }

  /** A bare extension word is taken as an image file name. */
  lemma BareExtensionIsSingleFile()
    ensures Dispatch(["resize_image.py", "png"]) == SingleFile("png", None)
  {
    var argv := ["resize_image.py", "png"];
    assert |argv| == 2 && argv[1] != "-h";
    assert ReadArguments(argv) == Arguments("", "png", None);
    LastDotFieldUnique("png", "png");
    assert "png" == SingleFileExtensions[0];
  }

  /** The single-file test is case-sensitive: `photo.PNG` is not an image
      name, so it goes to the folder branch (and fails there unless it is a
      non-empty folder). */
  lemma UpperCaseSingleFileIsFolder()
    ensures Dispatch(["resize_image.py", "photo.PNG"]) == Folder("photo.PNG", None)
  {
    var argv := ["resize_image.py", "photo.PNG"];
    assert |argv| == 2 && argv[1] != "-h";
    assert ReadArguments(argv) == Arguments("", "photo.PNG", None);
    LastDotFieldJoin("photo", "PNG");
    assert "photo" + ['.'] + "PNG" == "photo.PNG";
    assert forall k :: 0 <= k < |SingleFileExtensions| ==> SingleFileExtensions[k][0] != 'P';
  }

  /** An explicit output ending with '/' is read as given, and the resize
      into it fails on every tree, so `in.png out.png/ x` exits with status 1
      (by `Run`) even where `in.png out.png x` completes. */
  lemma SlashedOutputExits(t: Tree, imaging: (Content, Path) -> bool)
    ensures Dispatch(["resize_image.py", "in.png", "out.png/", "x"]) == SingleFile("in.png", Some("out.png/"))
    ensures !ResizeSucceeds(t, "in.png", OutputPathFor("in.png", Some("out.png/")), imaging)
  {
    var argv := ["resize_image.py", "in.png", "out.png/", "x"];
    assert |argv| == 4 && argv[1] != "-h";
    assert ReadArguments(argv) == Arguments("", "in.png", Some("out.png/"));
    LastDotFieldJoin("in", "png");
    assert "in" + ['.'] + "png" == "in.png";
    assert "png" == SingleFileExtensions[0];
    SlashedOutputFails(t, imaging);
  }

  /** With three or more arguments the flag is ignored: `-f a b` treats `-f`
      as the input. */
  lemma FlagIgnoredWithThreeArguments(a: string, b: string)
    ensures Dispatch(["resize_image.py", "-f", a, b]) == Folder("-f", Some(a))
  {
    var argv := ["resize_image.py", "-f", a, b];
    assert |argv| == 4 && argv[1] == "-f" && argv[2] == a;
    assert ReadArguments(argv) == Arguments("", "-f", Some(a));
    LastDotFieldUnique("-f", "-f");
    assert "-f" !in SingleFileExtensions;
  }

  /** `main` on the argument vector `argv`, from the usage check to the exit
      status. */
  method Run(fs: FileSystem, argv: seq<string>) returns (status: Status)
    modifies fs
    ensures Dispatch(argv).Usage? ==> status == Exited(1) && fs.entries == old(fs.entries)
    ensures Dispatch(argv).SingleFile? ==>
      var b := Dispatch(argv);
      var src, dst := Key(b.input), Key(OutputPathFor(b.input, b.output));
      && (if ResizeSucceeds(old(fs.entries), b.input, OutputPathFor(b.input, b.output), fs.imaging)
          then status == Completed && fs.entries == old(fs.entries)[dst := ResizedFile(old(fs.entries), src, DefaultSize)]
          else status == Exited(1) && fs.entries == old(fs.entries))
    ensures Dispatch(argv).Folders? ==> FoldersOutcome(old(fs.entries), fs.entries, Key(Dispatch(argv).root), status)
    ensures Dispatch(argv).Folder? ==>
      var b := Dispatch(argv);
      FolderOutcome(old(fs.entries), fs.entries, Key(b.input), Key(BatchOutputFolder(b.input, b.output)), fs.imaging, status)
  {
    var branch := Dispatch(argv);
    match branch
    case Usage =>
      return Exited(1);
    case SingleFile(input, output) =>
      var success := ResizeImage(fs, input, output, DefaultSize);
      return if success then Completed else Exited(1);
    case Folders(root) =>
      status := RunFolders(fs, root);
    case Folder(input, output) =>
      status := RunFolder(fs, input, output);
  }

  /** What the `-f` branch promises: a root that is not a folder, or a file
      among its entries, ends in an uncaught exception; an empty root exits
      with status 1 and changes nothing; a normal end means the root had
      entries, nothing outside the root changed, and every entry kept the
      promises of a completed turn (`TurnDone`): it is sorted, its moved
      entries sit in the `2K` or `USD` folder, and its `1k` folder gained
      only 1024x1024 copies of images. */
  ghost predicate FoldersOutcome(t: Tree, t': Tree, root: Path, status: Status) {
    && (status.Exited? ==> status.code == 1 && t' == t)
    && (!IsDir(t, root) ==> status.Uncaught? && t' == t)
    && ((exists f :: f in Children(t, root) && IsFile(t, root + [f])) ==> status.Uncaught?)
    && (IsDir(t, root) && Children(t, root) == {} ==> status == Exited(1) && t' == t)
    && (status == Completed ==>
          && Children(t, root) != {}
          && KeptOutside(t, t', root)
          && forall f :: f in Children(t, root) ==> TurnDone(t, t', root + [f]))
  }

  /** What the plain folder branch promises: a missing folder is an uncaught
      exception, an empty one exits with status 1, and otherwise the result is
      that of `batch_resize`, which raises only when it cannot create the
      output folder and else writes the resized copies. */
  ghost predicate FolderOutcome(t: Tree, t': Tree, inDir: Path, outDir: Path,
                                imaging: (Content, Path) -> bool, status: Status) {
    && (!IsDir(t, inDir) ==> status.Uncaught? && t' == t)
    && (IsDir(t, inDir) && Children(t, inDir) == {} ==> status == Exited(1) && t' == t)
    && (IsDir(t, inDir) && Children(t, inDir) != {} ==>
          var made := MakeDirsResult(t, outDir);
          && (made.Raised? ==> status.Uncaught? && t' == t)
          && (made.Done? ==>
                status == Completed
                && t' == made.value + BatchWrites(made.value, inDir, outDir, Children(made.value, inDir), imaging)))
  }

  /** The `-f` branch of `main`. */
  method RunFolders(fs: FileSystem, root: string) returns (status: Status)
    modifies fs
    ensures FoldersOutcome(old(fs.entries), fs.entries, Key(root), status)
  {
    var r := Reorganize(fs, root);
    match r
    case Raised(e) =>
      return Uncaught(e);
    case Done(success) =>
      return if success then Completed else Exited(1);
  }

  /** The plain folder branch of `main`: list the folder, then resize it if
      the listing is not empty. */
  method RunFolder(fs: FileSystem, input: string, output: Option<string>) returns (status: Status)
    modifies fs
    ensures FolderOutcome(old(fs.entries), fs.entries, Key(input), Key(BatchOutputFolder(input, output)), fs.imaging, status)
  {
    var inDir := Key(input);
    var listing := fs.ListDir(inDir);
    if listing.Raised? {
      return Uncaught(listing.error);
    }
    if |listing.value| == 0 {
      assert Children(fs.entries, inDir) == {};
      return Exited(1);
    }
    assert listing.value[0] in Children(fs.entries, inDir);
    var r, _ := BatchResize(fs, input, output);
    match r
    case Raised(e) =>
      return Uncaught(e);
    case Done(success) =>
      return if success then Completed else Exited(1);
  }
}
