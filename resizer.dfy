/** `resize_image` and `batch_resize`: one image resized through the imaging
    library, and every allow-listed entry of a folder resized into another. */
module Resizer {
  import opened Wrappers
  import opened Paths
  import opened Extensions
  import opened FileSystem

  /** The only size the script ever asks for: `resize_image`'s default. */
  const DefaultSize: (nat, nat) := (1024, 1024)

  /** The folder `batch_resize` writes to when no output folder is given. */
  const DefaultFolderName: string := "resized_1024"

  /** The path `resize_image` saves to. */
  function OutputPathFor(inputPath: string, outputPath: Option<string>): string {
    outputPath.GetOr(DefaultOutputPath(inputPath))
  }

  /** The folder `batch_resize` writes to: the one given, or else the entry
      `resized_1024` of the input folder. */
  function BatchOutputFolder(inputFolder: string, outputFolder: Option<string>): (r: string)
    ensures outputFolder.Some? ==> r == outputFolder.value
    ensures outputFolder.None? ==> Key(r) == Key(inputFolder) + [DefaultFolderName]
  {
    match outputFolder
    case Some(folder) => folder
    case None =>
      assert IsName(DefaultFolderName) by {
        assert '/' !in DefaultFolderName;
      }
      KeyJoin(inputFolder, DefaultFolderName);
      Join(inputFolder, DefaultFolderName)
  }

  /** `resize_image` returns True: `Image.open` finds a file at `src`, the
      library decodes, resizes and encodes it for `dst`, and `save` can open
      `dst` for writing (it is not a directory, and its directory exists). */
  predicate CanResize(t: Tree, src: Path, dst: Path, imaging: (Content, Path) -> bool) {
    IsFile(t, src) && !IsDir(t, dst) && ParentIsDir(t, dst) && imaging(t[src].content, dst)
  }

  /** `resize_image(input_path, output_path)` returns True: `CanResize` holds
      for the keys the two strings resolve to, and neither string ends with a
      separator. `Image.open("in.png/")` fails with NotADirectoryError when
      `in.png` is a file, and `save("out.png/")` finds no extension in the
      string to choose a format from, so both are caught and give False. */
  predicate ResizeSucceeds(t: Tree, inputPath: string, outputPath: string, imaging: (Content, Path) -> bool) {
    && !EndsWithSeparator(inputPath)
    && !EndsWithSeparator(outputPath)
    && CanResize(t, Key(inputPath), Key(outputPath), imaging)
  }

  /** The failures a trailing separator causes: an input or an explicit output
      ending with '/' makes `resize_image` return False whatever the tree and
      the library do, although "out.png/" resolves to the same key as
      "out.png". A derived output never ends with '/'. */
  lemma SeparatorFailures(t: Tree, inputPath: string, outputPath: Option<string>, imaging: (Content, Path) -> bool)
    ensures EndsWithSeparator(inputPath) ==>
      !ResizeSucceeds(t, inputPath, OutputPathFor(inputPath, outputPath), imaging)
    ensures outputPath.Some? && EndsWithSeparator(outputPath.value) ==>
      !ResizeSucceeds(t, inputPath, OutputPathFor(inputPath, outputPath), imaging)
    ensures outputPath.None? ==>
      (ResizeSucceeds(t, inputPath, OutputPathFor(inputPath, outputPath), imaging) <==>
       !EndsWithSeparator(inputPath) && CanResize(t, Key(inputPath), Key(DefaultOutputPath(inputPath)), imaging))
  {
    DefaultOutputNoSeparator(inputPath);
  }

  /** The output "out.png/" resolves to the key of "out.png", yet a resize
      into it fails on every tree. */
  lemma SlashedOutputFails(t: Tree, imaging: (Content, Path) -> bool)
    ensures Key("out.png/") == Key("out.png") == ["out.png"]
    ensures !ResizeSucceeds(t, "in.png", OutputPathFor("in.png", Some("out.png/")), imaging)
  {
    assert "out.png/"[..7] == "out.png";
    assert LastIndex("out.png", '/') == -1;
  }

  /** The failures `resize_image` turns into False: `Image.open` of a missing
      path or of a directory, and `save` to a directory, to the empty path, or
      into a folder that does not exist. */
  lemma ResizeFailures(t: Tree, src: Path, dst: Path, imaging: (Content, Path) -> bool)
    ensures src == [] || src !in t || t[src].Dir? ==> !CanResize(t, src, dst, imaging)
    ensures dst == [] || IsDir(t, dst) ==> !CanResize(t, src, dst, imaging)
    ensures |dst| > 1 && dst[..|dst| - 1] !in t ==> !CanResize(t, src, dst, imaging)
  {
  }

  /** The file a successful resize of `src` writes. */
  function ResizedFile(t: Tree, src: Path, size: (nat, nat)): Node
    requires IsFile(t, src)
  {
    File(Resized(t[src].content, size.0, size.1))
  }

  /** `resize_image(input_path, output_path, target_size)`. It never raises: a
      missing input (FileNotFoundError) and every other failure return False
      and leave the file system as it was; on success exactly one file, at the
      output path, is written. The default output path is the same whatever
      the target size. */
  method ResizeImage(fs: FileSystem, inputPath: string, outputPath: Option<string>, size: (nat, nat))
    returns (success: bool)
    modifies fs
    ensures var src, dst := Key(inputPath), Key(OutputPathFor(inputPath, outputPath));
      && (success <==> ResizeSucceeds(old(fs.entries), inputPath, OutputPathFor(inputPath, outputPath), fs.imaging))
      && fs.entries == if success then old(fs.entries)[dst := ResizedFile(old(fs.entries), src, size)]
                       else old(fs.entries)
  {
    var src := Key(inputPath);
    if EndsWithSeparator(inputPath) || !IsFile(fs.entries, src) {
      return false;
    }
    var content := fs.entries[src].content;
    var outputFile := OutputPathFor(inputPath, outputPath);
    var dst := Key(outputFile);
    if EndsWithSeparator(outputFile) || !fs.imaging(content, dst) || IsDir(fs.entries, dst) || !ParentIsDir(fs.entries, dst) {
      return false;
    }
    fs.entries := fs.entries[dst := File(Resized(content, size.0, size.1))];
    return true;
  }

  /** The names of a listing, as a set. */
  function Elements(names: seq<Name>): set<Name> {
    set n | n in names
  }

  /** The names of a listing with one more name at its end. */
  lemma ElementsSnoc(names: seq<Name>)
    requires names != []
    ensures Elements(names) == Elements(names[..|names| - 1]) + {names[|names| - 1]}
  {
    assert names == names[..|names| - 1] + [names[|names| - 1]];
  }

  /** The names `batch_resize`'s allow-list selects. */
  function Selected(names: set<Name>): set<Name> {
    set n | n in names && IsBatchImage(n)
  }

  /** Whether `batch_resize` resizes the listed name `n` of `inDir` into
      `outDir`, judged on the tree its loop starts from. */
  predicate ResizesEntry(t: Tree, inDir: Path, outDir: Path, n: Name, imaging: (Content, Path) -> bool) {
    IsBatchImage(n) && CanResize(t, inDir + [n], outDir + [n], imaging)
  }

  /** The names among `names` that `batch_resize` resizes successfully. */
  function Resizable(t: Tree, inDir: Path, outDir: Path, names: set<Name>, imaging: (Content, Path) -> bool): set<Name> {
    set n | n in names && ResizesEntry(t, inDir, outDir, n, imaging)
  }

  /** The files `batch_resize` writes over the names `names`: one per
      resizable name, in `outDir` under the same name. */
  function BatchWrites(t: Tree, inDir: Path, outDir: Path, names: set<Name>, imaging: (Content, Path) -> bool): map<Path, Node> {
    assert forall n1, n2 :: outDir + [n1] == outDir + [n2] ==> n1 == n2 by {
      forall n1, n2 | outDir + [n1] == outDir + [n2]
        ensures n1 == n2
      {
        assert (outDir + [n1])[|outDir|] == n1;
      }
    }
    map n | n in Resizable(t, inDir, outDir, names, imaging) :: outDir + [n] := ResizedFile(t, inDir + [n], DefaultSize)
  }

  /** What `BatchWrites` holds: the resized file at `outDir/n` exactly for the
      resizable names `n`, and nothing anywhere else. */
  lemma {:induction false} BatchWritesAt(t: Tree, inDir: Path, outDir: Path, names: set<Name>, imaging: (Content, Path) -> bool)
    ensures var w := BatchWrites(t, inDir, outDir, names, imaging);
      && (forall n :: outDir + [n] in w <==> n in names && ResizesEntry(t, inDir, outDir, n, imaging))
      && (forall n :: outDir + [n] in w ==> w[outDir + [n]] == ResizedFile(t, inDir + [n], DefaultSize))
      && (forall k :: k in w ==> |k| == |outDir| + 1 && outDir <= k && k[|outDir|] in names)
  {
    var w := BatchWrites(t, inDir, outDir, names, imaging);
    forall n | outDir + [n] in w
      ensures n in names && ResizesEntry(t, inDir, outDir, n, imaging)
      ensures w[outDir + [n]] == ResizedFile(t, inDir + [n], DefaultSize)
    {
      var m :| m in Resizable(t, inDir, outDir, names, imaging) && outDir + [m] == outDir + [n];
      assert (outDir + [m])[|outDir|] == m && (outDir + [n])[|outDir|] == n;
    }
    forall n | n in names && ResizesEntry(t, inDir, outDir, n, imaging)
      ensures outDir + [n] in w
    {
      assert n in Resizable(t, inDir, outDir, names, imaging);
    }
  }

  /** One more name adds at most its own file to the writes. */
  lemma {:induction false} BatchWritesInsert(t: Tree, inDir: Path, outDir: Path, names: set<Name>, n: Name, imaging: (Content, Path) -> bool)
    ensures BatchWrites(t, inDir, outDir, names + {n}, imaging) ==
      if ResizesEntry(t, inDir, outDir, n, imaging)
      then BatchWrites(t, inDir, outDir, names, imaging)[outDir + [n] := ResizedFile(t, inDir + [n], DefaultSize)]
      else BatchWrites(t, inDir, outDir, names, imaging)
  {
    BatchWritesAt(t, inDir, outDir, names, imaging);
    BatchWritesAt(t, inDir, outDir, names + {n}, imaging);
    WritesInsert(BatchWrites(t, inDir, outDir, names, imaging), BatchWrites(t, inDir, outDir, names + {n}, imaging),
                 t, inDir, outDir, names, n, imaging);
  }

  /** What `BatchWritesAt` states about a map of writes over `names`. */
  ghost predicate WritesOver(w: map<Path, Node>, t: Tree, inDir: Path, outDir: Path, names: set<Name>, imaging: (Content, Path) -> bool) {
    && (forall m :: outDir + [m] in w <==> m in names && ResizesEntry(t, inDir, outDir, m, imaging))
    && (forall m :: outDir + [m] in w ==> w[outDir + [m]] == ResizedFile(t, inDir + [m], DefaultSize))
    && (forall k :: k in w ==> |k| == |outDir| + 1 && outDir <= k && k[|outDir|] in names)
  }

  /** Two maps of writes, over `names` and over one more name, differ by at
      most that name's file. */
  lemma {:induction false} WritesInsert(w: map<Path, Node>, w': map<Path, Node>, t: Tree, inDir: Path, outDir: Path,
                                        names: set<Name>, n: Name, imaging: (Content, Path) -> bool)
    requires WritesOver(w, t, inDir, outDir, names, imaging)
    requires WritesOver(w', t, inDir, outDir, names + {n}, imaging)
    ensures w' == if ResizesEntry(t, inDir, outDir, n, imaging)
      then w[outDir + [n] := ResizedFile(t, inDir + [n], DefaultSize)]
      else w
  {
    var expected := if ResizesEntry(t, inDir, outDir, n, imaging)
      then w[outDir + [n] := ResizedFile(t, inDir + [n], DefaultSize)]
      else w;
    forall k | k in w' || k in expected
      ensures k in w' <==> k in expected
      ensures k in w' ==> w'[k] == expected[k]
    {
      ChildOf(outDir, k);
    }
    assert w' == expected;
  }

  /** An entry one level below `dir` is `dir` followed by its last component. */
  lemma ChildOf(dir: Path, k: Path)
    requires |k| == |dir| + 1 && dir <= k
    ensures k == dir + [k[|dir|]]
  {
  }

  /** The writes for the names already handled leave untouched the entries a
      new name's turn looks at: its source, its target and the output folder. */
  lemma {:induction false} BatchWritesElsewhere(t1: Tree, inDir: Path, outDir: Path, done: set<Name>, n: Name, imaging: (Content, Path) -> bool)
    requires n !in done
    ensures var before := t1 + BatchWrites(t1, inDir, outDir, done, imaging);
      SameAt(t1, before, inDir + [n]) && SameAt(t1, before, outDir + [n]) && SameAt(t1, before, outDir)
  {
    BatchWritesAt(t1, inDir, outDir, done, imaging);
    assert (outDir + [n])[|outDir|] == n;
  }

  /** One turn of `batch_resize`'s loop, judged on the tree the earlier turns
      left, decides as it would on the tree the loop started from. */
  lemma {:induction false} BatchStepDecides(t1: Tree, inDir: Path, outDir: Path, done: set<Name>, n: Name, imaging: (Content, Path) -> bool)
    requires n !in done
    ensures var before := t1 + BatchWrites(t1, inDir, outDir, done, imaging);
      ResizesEntry(t1, inDir, outDir, n, imaging) <==> IsBatchImage(n) && CanResize(before, inDir + [n], outDir + [n], imaging)
  {
    BatchWritesElsewhere(t1, inDir, outDir, done, n, imaging);
    var dst := outDir + [n];
    assert dst[..|dst| - 1] == outDir;
  }

  /** A successful turn extends the writes by exactly its own file. */
  lemma {:induction false} BatchStepWrites(t1: Tree, inDir: Path, outDir: Path, done: set<Name>, n: Name, imaging: (Content, Path) -> bool)
    requires n !in done
    ensures var before := t1 + BatchWrites(t1, inDir, outDir, done, imaging);
      t1 + BatchWrites(t1, inDir, outDir, done + {n}, imaging) ==
        if ResizesEntry(t1, inDir, outDir, n, imaging)
        then before[outDir + [n] := ResizedFile(before, inDir + [n], DefaultSize)]
        else before
  {
    BatchWritesElsewhere(t1, inDir, outDir, done, n, imaging);
    BatchWritesInsert(t1, inDir, outDir, done, n, imaging);
    if ResizesEntry(t1, inDir, outDir, n, imaging) {
      var w := BatchWrites(t1, inDir, outDir, done, imaging);
      var v := ResizedFile(t1, inDir + [n], DefaultSize);
      assert ResizedFile(t1 + w, inDir + [n], DefaultSize) == v;
      UnionUpdate(t1, w, outDir + [n], v);
    }
  }

  /** A successful turn adds one to the count of resized entries. */
  lemma {:induction false} BatchStepCounts(t1: Tree, inDir: Path, outDir: Path, done: set<Name>, n: Name, imaging: (Content, Path) -> bool)
    requires n !in done
    ensures |Resizable(t1, inDir, outDir, done + {n}, imaging)| ==
      |Resizable(t1, inDir, outDir, done, imaging)| + (if ResizesEntry(t1, inDir, outDir, n, imaging) then 1 else 0)
  {
    var r, r' := Resizable(t1, inDir, outDir, done, imaging), Resizable(t1, inDir, outDir, done + {n}, imaging);
    if ResizesEntry(t1, inDir, outDir, n, imaging) {
      assert r' == r + {n};
    } else {
      assert r' == r;
    }
  }

  /** Updating the right operand of a map union updates the union. */
  lemma UnionUpdate<K, V>(a: map<K, V>, b: map<K, V>, k: K, v: V)
    ensures a + b[k := v] == (a + b)[k := v]
  {
  }

  /** `processed` never exceeds the number of allow-listed entries, which
      never exceeds the number of entries. */
  lemma ProcessedBound(t: Tree, inDir: Path, outDir: Path, names: set<Name>, imaging: (Content, Path) -> bool)
    ensures |Resizable(t, inDir, outDir, names, imaging)| <= |Selected(names)| <= |names|
  {
    SubsetCardinality(Resizable(t, inDir, outDir, names, imaging), Selected(names));
    SubsetCardinality(Selected(names), names);
  }

  lemma {:induction false} SubsetCardinality<T>(a: set<T>, b: set<T>)
    requires a <= b
    ensures |a| <= |b|
  {
    if a != {} {
      var x :| x in a;
      SubsetCardinality(a - {x}, b - {x});
    }
  }

  /** `batch_resize(input_folder, output_folder)`, as the loop the source runs.
      It creates the output folder (raising if that fails), lists the input
      folder (raising unless it is a directory), and resizes every
      allow-listed entry into the output folder under the same name, counting
      successes and never stopping at a failure. The resulting files and the
      count depend only on which names are listed, not on the listing's
      order; the function returns True whenever it returns. */
  method BatchResize(fs: FileSystem, inputFolder: string, outputFolder: Option<string>)
    returns (r: Outcome<bool>, processed: nat)
    modifies fs
    ensures var inDir, outDir := Key(inputFolder), Key(BatchOutputFolder(inputFolder, outputFolder));
      var made := MakeDirsResult(old(fs.entries), outDir);
      && (made.Raised? ==> r == Raised(made.error) && fs.entries == old(fs.entries))
      && (made.Done? && !IsDir(made.value, inDir) ==> r == Raised(ListDirError(made.value, inDir)) && fs.entries == made.value)
      && (made.Done? && IsDir(made.value, inDir) ==>
            var t1, listed := made.value, Children(made.value, inDir);
            && r == Done(true)
            && fs.entries == t1 + BatchWrites(t1, inDir, outDir, listed, fs.imaging)
            && processed == |Resizable(t1, inDir, outDir, listed, fs.imaging)|)
  {
    processed := 0;
    var outputPath := BatchOutputFolder(inputFolder, outputFolder);
    var inDir, outDir := Key(inputFolder), Key(outputPath);
    var made := fs.MakeDirs(outDir);
    if made.Raised? {
      return Raised(made.error), processed;
    }
    var listing := fs.ListDir(inDir);
    if listing.Raised? {
      return Raised(listing.error), processed;
    }
    var names := listing.value;
    ListedNames(names, fs.entries, inDir);
    processed := ResizeEach(fs, inputFolder, outputPath, names);
    return Done(true), processed;
  }

  /** A listing of a folder holds names, and exactly the folder's children. */
  lemma ListedNames(names: seq<Name>, t: Tree, p: Path)
    requires forall n :: n in names <==> n in Children(t, p)
    ensures forall n :: n in names ==> IsName(n)
    ensures Elements(names) == Children(t, p)
  {
  }

  /** The loop of `batch_resize` over a listing of the input folder: every
      allow-listed name is resized from the input folder into the output
      folder, failures are skipped, successes are counted. */
  method ResizeEach(fs: FileSystem, inputFolder: string, outputPath: string, names: seq<Name>)
    returns (processed: nat)
    requires NoDuplicates(names)
    requires forall n :: n in names ==> IsName(n)
    modifies fs
    ensures var inDir, outDir := Key(inputFolder), Key(outputPath);
      && fs.entries == old(fs.entries) + BatchWrites(old(fs.entries), inDir, outDir, Elements(names), fs.imaging)
      && processed == |Resizable(old(fs.entries), inDir, outDir, Elements(names), fs.imaging)|
  {
    processed := 0;
    var inDir, outDir := Key(inputFolder), Key(outputPath);
    ghost var t1 := fs.entries;
    for i := 0 to |names|
      invariant fs.entries == t1 + BatchWrites(t1, inDir, outDir, Elements(names[..i]), fs.imaging)
      invariant processed == |Resizable(t1, inDir, outDir, Elements(names[..i]), fs.imaging)|
    {
      var filename := names[i];
      NextName(names, i);
      ghost var before := fs.entries;
      var ok := ResizeEntry(fs, inputFolder, outputPath, filename);
      BatchStep(t1, inDir, outDir, Elements(names[..i]), filename, fs.imaging, before, fs.entries, ok);
      if ok {
        processed := processed + 1;
      }
    }
    assert names[..|names|] == names;
  }

  /** The names handled after one more turn over a listing without repeats. */
  lemma NextName(names: seq<Name>, i: nat)
    requires NoDuplicates(names) && i < |names|
    ensures Elements(names[..i + 1]) == Elements(names[..i]) + {names[i]}
    ensures names[i] !in Elements(names[..i])
  {
    assert names[..i + 1] == names[..i] + [names[i]];
    forall j | 0 <= j < i
      ensures names[j] != names[i]
    {
    }
  }

  /** One turn of `batch_resize`'s loop, from the state the earlier turns
      left, extends the writes and the count by exactly that name's share. */
  lemma {:induction false} BatchStep(t1: Tree, inDir: Path, outDir: Path, done: set<Name>, n: Name,
                                     imaging: (Content, Path) -> bool, before: Tree, after: Tree, ok: bool)
    requires n !in done
    requires before == t1 + BatchWrites(t1, inDir, outDir, done, imaging)
    requires ok <==> IsBatchImage(n) && CanResize(before, inDir + [n], outDir + [n], imaging)
    requires after == if ok then before[outDir + [n] := ResizedFile(before, inDir + [n], DefaultSize)] else before
    ensures after == t1 + BatchWrites(t1, inDir, outDir, done + {n}, imaging)
    ensures |Resizable(t1, inDir, outDir, done + {n}, imaging)| ==
      |Resizable(t1, inDir, outDir, done, imaging)| + (if ok then 1 else 0)
  {
    BatchStepDecides(t1, inDir, outDir, done, n, imaging);
    BatchStepWrites(t1, inDir, outDir, done, n, imaging);
    BatchStepCounts(t1, inDir, outDir, done, n, imaging);
  }

  /** One turn of `batch_resize`'s loop: an allow-listed entry is resized
      from the input folder into the output folder under the same name. */
  method ResizeEntry(fs: FileSystem, inputFolder: string, outputPath: string, filename: Name) returns (ok: bool)
    requires IsName(filename)
    modifies fs
    ensures var src, dst := Key(inputFolder) + [filename], Key(outputPath) + [filename];
      && (ok <==> IsBatchImage(filename) && CanResize(old(fs.entries), src, dst, fs.imaging))
      && fs.entries == if ok then old(fs.entries)[dst := ResizedFile(old(fs.entries), src, DefaultSize)]
                       else old(fs.entries)
  {
    ok := false;
    if IsBatchImage(filename) {
      var inputPath, outputFile := Join(inputFolder, filename), Join(outputPath, filename);
      EntryKeys(inputFolder, outputPath, filename);
      ok := ResizeImage(fs, inputPath, Some(outputFile), DefaultSize);
    }
  }

  /** The two paths of one turn of `batch_resize`, as keys. */
  lemma EntryKeys(inputFolder: string, outputPath: string, filename: Name)
    requires IsName(filename)
    ensures Key(Join(inputFolder, filename)) == Key(inputFolder) + [filename]
    ensures Key(OutputPathFor(Join(inputFolder, filename), Some(Join(outputPath, filename)))) == Key(outputPath) + [filename]
    ensures !EndsWithSeparator(Join(inputFolder, filename)) && !EndsWithSeparator(Join(outputPath, filename))
  {
    KeyJoin(inputFolder, filename);
    KeyJoin(outputPath, filename);
    JoinNameNoSeparator(inputFolder, filename);
    JoinNameNoSeparator(outputPath, filename);
  }
}
