/** The `-f` mode of `main`: every entry of a root folder is an item folder;
    each item gets `USD`, `2K` and `1k` sub-folders, its image files move into
    `2K`, its scene files into `USD`, and `2K` is batch-resized into `1k`. */
module Reorganizer {
  import opened Wrappers
  import opened Paths
  import opened Extensions
  import opened FileSystem
  import opened Resizer

  const UsdFolder: Name := "USD"
  const ImagesFolder: Name := "2K"
  const ResizedFolder: Name := "1k"

  /** The file system after a sequence of primitives, with the exception that
      stopped the sequence, if one did: nothing after an exception runs. */
  datatype Trace = Trace(tree: Tree, raised: Option<OsError>)

  /** `os.makedirs(p, exist_ok=True)` as the next step of a trace. */
  function ThenMakeDirs(s: Trace, p: Path): Trace {
    if s.raised.Some? then s
    else match MakeDirsResult(s.tree, p)
      case Raised(e) => Trace(s.tree, Some(e))
      case Done(t) => Trace(t, None)
  }

  /** `shutil.move(src, dst)` as the next step of a trace. */
  function ThenMove(s: Trace, src: Path, dst: Path): Trace {
    if s.raised.Some? then s
    else match MoveResult(s.tree, src, dst)
      case Raised(e) => Trace(s.tree, Some(e))
      case Done(t) => Trace(t, None)
  }

  /** The sub-folder of its item an entry named `n` is moved into: `2K` for a
      name with an image suffix, `USD` for one with a scene suffix (both
      tests case-sensitive), none otherwise. */
  function SortFolder(n: Name): (d: Option<Name>)
    ensures d == Some(ImagesFolder) <==> IsImageByCase(n)
    ensures d == Some(UsdFolder) <==> IsUsdAsset(n)
    ensures d == None <==> !IsImageByCase(n) && !IsUsdAsset(n)
  {
    ImageAndUsdExclusive(n);
    if IsImageByCase(n) then Some(ImagesFolder)
    else if IsUsdAsset(n) then Some(UsdFolder)
    else None
  }

  /** The three `makedirs` calls that open the handling of an item. */
  function PrepareItem(t: Tree, item: Path): Trace {
    var s1 := ThenMakeDirs(Trace(t, None), item + [UsdFolder]);
    var s2 := ThenMakeDirs(s1, item + [ImagesFolder]);
    ThenMakeDirs(s2, item + [ResizedFolder])
  }

  /** The move, if any, of the entry `n` of `item` into its sub-folder. */
  function SortEntry(s: Trace, item: Path, n: Name): Trace {
    match SortFolder(n)
      case None => s
      case Some(d) => ThenMove(s, item + [n], item + [d, n])
  }

  /** The moves of the entries `names` of `item`, in listing order. A pass
      that starts after an exception does nothing, and one that ends without
      an exception started without one. */
  function SortEntries(s: Trace, item: Path, names: seq<Name>): (r: Trace)
    ensures s.raised.Some? ==> r == s
    ensures r.raised.None? ==> s.raised.None?
    decreases |names|
  {
    if names == [] then s
    else SortEntry(SortEntries(s, item, names[..|names| - 1]), item, names[|names| - 1])
  }

  /** `batch_resize(join(item, "2K"), join(item, "1k"))` as the last step of
      a turn: `makedirs` of `1k`, `listdir` of `2K`, then the resized copy of
      every allow-listed entry of `2K` the library can resize. */
  function ThenBatchResize(s: Trace, item: Path, imaging: (Content, Path) -> bool): Trace {
    if s.raised.Some? then s
    else
      var inDir, outDir := item + [ImagesFolder], item + [ResizedFolder];
      match MakeDirsResult(s.tree, outDir)
        case Raised(e) => Trace(s.tree, Some(e))
        case Done(t1) =>
          if IsDir(t1, inDir) then Trace(t1 + BatchWrites(t1, inDir, outDir, Children(t1, inDir), imaging), None)
          else Trace(t1, Some(ListDirError(t1, inDir)))
  }

  /** One whole turn of the `-f` loop for `item`: the three `makedirs` calls,
      the moves over `listing` (the order `os.listdir(item)` returned), and
      the batch resize of `2K` into `1k`. */
  function ItemTurn(t: Tree, item: Path, listing: seq<Name>, imaging: (Content, Path) -> bool): Trace {
    ThenBatchResize(SortEntries(PrepareItem(t, item), item, listing), item, imaging)
  }

  /** `listing` is a possible result of `os.listdir(item)` once the three
      `makedirs` calls succeeded: each entry of the item exactly once. */
  ghost predicate ListingOf(t: Tree, item: Path, listing: seq<Name>) {
    var prep := PrepareItem(t, item);
    prep.raised.None? ==> NoDuplicates(listing) && Elements(listing) == Children(prep.tree, item)
  }

  /** Once a step has raised, the later moves change nothing. */
  lemma {:induction false} SortEntriesAfterRaise(s: Trace, item: Path, names: seq<Name>, k: nat)
    requires k <= |names| && SortEntries(s, item, names[..k]).raised.Some?
    ensures SortEntries(s, item, names) == SortEntries(s, item, names[..k])
    decreases |names|
  {
    if k < |names| {
      var init := names[..|names| - 1];
      assert init[..k] == names[..k];
      SortEntriesAfterRaise(s, item, init, k);
    } else {
      assert names[..k] == names;
    }
  }

  /** One item of the `-f` loop up to, not including, its batch resize: the
      three `makedirs` calls, then one pass over the item's listing that moves
      each image file into `2K` and each scene file into `USD`. An exception
      from any primitive ends the pass; `listing` is the order `os.listdir`
      happened to return. */
  method SortItem(fs: FileSystem, root: string, f: Name) returns (r: Outcome<()>, ghost listing: seq<Name>)
    requires IsName(f)
    modifies fs
    ensures var item := Key(root) + [f];
      var prep := PrepareItem(old(fs.entries), item);
      var s := SortEntries(prep, item, listing);
      && (prep.raised.None? ==> NoDuplicates(listing) && Elements(listing) == Children(prep.tree, item))
      && fs.entries == s.tree
      && r == (if s.raised.Some? then Raised(s.raised.value) else Done(()))
  {
    listing := [];
    var itemPath := Join(root, f);
    KeyJoin(root, f);
    var item := Key(itemPath);
    var made := Prepare(fs, itemPath);
    if made.Raised? {
      return made, listing;
    }
    assert (item + [ResizedFolder])[..|item|] == item;
    var entries := fs.ListDir(item);
    if entries.Raised? {
      assert false;
    }
    var names := entries.value;
    listing := names;
    assert Elements(names) == Children(fs.entries, item);
    r := SortListed(fs, itemPath, names);
  }

  /** The three `makedirs` calls that open an item: `USD`, `2K`, `1k`. */
  method Prepare(fs: FileSystem, itemPath: string) returns (r: Outcome<()>)
    modifies fs
    ensures var s := PrepareItem(old(fs.entries), Key(itemPath));
      && fs.entries == s.tree
      && r == (if s.raised.Some? then Raised(s.raised.value) else Done(()))
  {
    var item := Key(itemPath);
    KeyJoin(itemPath, UsdFolder);
    KeyJoin(itemPath, ImagesFolder);
    KeyJoin(itemPath, ResizedFolder);
    ghost var s := Trace(fs.entries, None);
    r := fs.MakeDirs(Key(Join(itemPath, UsdFolder)));
    s := ThenMakeDirs(s, item + [UsdFolder]);
    if r.Raised? {
      return;
    }
    assert s == Trace(fs.entries, None);
    r := fs.MakeDirs(Key(Join(itemPath, ImagesFolder)));
    s := ThenMakeDirs(s, item + [ImagesFolder]);
    if r.Raised? {
      return;
    }
    assert s == Trace(fs.entries, None);
    r := fs.MakeDirs(Key(Join(itemPath, ResizedFolder)));
    s := ThenMakeDirs(s, item + [ResizedFolder]);
    assert s == Trace(fs.entries, if r.Raised? then Some(r.error) else None);
  }

  /** The pass over an item's listing: each image file moves into `2K`, each
      scene file into `USD`, in listing order, until a move raises. */
  method SortListed(fs: FileSystem, itemPath: string, names: seq<Name>) returns (r: Outcome<()>)
    requires forall n :: n in names ==> IsName(n)
    modifies fs
    ensures var s := SortEntries(Trace(old(fs.entries), None), Key(itemPath), names);
      && fs.entries == s.tree
      && r == (if s.raised.Some? then Raised(s.raised.value) else Done(()))
  {
    var item := Key(itemPath);
    ghost var prepared := Trace(fs.entries, None);
    for i := 0 to |names|
      invariant SortEntries(prepared, item, names[..i]) == Trace(fs.entries, None)
    {
      var file := names[i];
      assert names[..i + 1][..i] == names[..i];
      var moved := SortFile(fs, itemPath, file);
      if moved.Raised? {
        SortEntriesAfterRaise(prepared, item, names, i + 1);
        return moved;
      }
    }
    assert names[..|names|] == names;
    return Done(());
  }

  /** One turn of the pass: the entry `file` of the item moves into `2K` if
      it is an image file, into `USD` if it is a scene file. */
  method SortFile(fs: FileSystem, itemPath: string, file: Name) returns (r: Outcome<()>)
    requires IsName(file)
    modifies fs
    ensures var s := SortEntry(Trace(old(fs.entries), None), Key(itemPath), file);
      && fs.entries == s.tree
      && r == (if s.raised.Some? then Raised(s.raised.value) else Done(()))
  {
    r := Done(());
    if IsImageByCase(file) {
      r := MoveInto(fs, itemPath, ImagesFolder, file);
      if r.Raised? {
        return;
      }
    }
    if IsUsdAsset(file) {
      ImageAndUsdExclusive(file);
      r := MoveInto(fs, itemPath, UsdFolder, file);
    }
  }

  /** `move(join(item, file), join(item, folder, file))`. */
  method MoveInto(fs: FileSystem, itemPath: string, folder: Name, file: Name) returns (r: Outcome<()>)
    requires IsName(folder) && IsName(file)
    modifies fs
    ensures var s := ThenMove(Trace(old(fs.entries), None), Key(itemPath) + [file], Key(itemPath) + [folder, file]);
      && fs.entries == s.tree
      && r == (if s.raised.Some? then Raised(s.raised.value) else Done(()))
  {
    var src, dst := Key(Join(itemPath, file)), Key(Join(Join(itemPath, folder), file));
    MoveKeys(itemPath, folder, file);
    r := fs.Move(src, dst);
  }

  /** The two paths of a move into a sub-folder, as keys. */
  lemma MoveKeys(itemPath: string, folder: Name, file: Name)
    requires IsName(folder) && IsName(file)
    ensures Key(Join(itemPath, file)) == Key(itemPath) + [file]
    ensures Key(Join(Join(itemPath, folder), file)) == Key(itemPath) + [folder, file]
  {
    KeyJoin(itemPath, file);
    var sub := Join(itemPath, folder);
    var k := Key(itemPath);
    KeyJoin(itemPath, folder);
    KeyJoin(sub, file);
    assert Key(sub) + [file] == k + [folder] + [file];
    assert k + [folder] + [file] == k + [folder, file];
  }

  /** No entry directly inside `item` is one the `-f` mode would move. */
  ghost predicate ItemSorted(t: Tree, item: Path) {
    forall n :: IsName(n) && item + [n] in t ==> SortFolder(n).None?
  }

  /** Every entry of `t` outside the subtree at `p` is still in `t'`, unchanged,
      and every entry `t'` gained outside that subtree lies above `p`. */
  ghost predicate KeptOutside(t: Tree, t': Tree, p: Path) {
    && (forall q :: q in t && !(p <= q) ==> q in t' && t'[q] == t[q])
    && (forall q :: q in t' && q !in t && !(p <= q) ==> q < p)
  }

  /** What a pass over the names `done` of `item` has left: nothing below a
      name of `done` that is moved, everything below the other names (other
      than the two destination folders) as it was, and nothing at or outside
      `item` changed. */
  ghost predicate SortedPart(t: Tree, t': Tree, item: Path, done: set<Name>) {
    && SameAt(t, t', item)
    && (forall q :: item < q && q[|item|] in done && SortFolder(q[|item|]).Some? ==> q !in t')
    && (forall q :: item < q && (q[|item|] !in done || SortFolder(q[|item|]).None?) && q[|item|] != ImagesFolder && q[|item|] != UsdFolder ==> SameAt(t, t', q))
    && KeptOutside(t, t', item)
  }

  /** A path is below the entry `n` of `item` exactly when it continues `item`
      with `n`. */
  lemma ChildPrefix(item: Path, n: Name, q: Path)
    ensures item + [n] <= q <==> item < q && q[|item|] == n
  {
    if item < q && q[|item|] == n {
      assert q[..|item| + 1] == item + [n];
    }
  }

  /** A successful move of the entry `n` of `item` into its sub-folder `d`
      changes nothing outside the subtrees of `n` and `d` (the item folder
      itself included), and leaves nothing below `n`. */
  lemma {:induction false} MoveIntoFolder(t: Tree, item: Path, n: Name, d: Name)
    requires n != d && MoveResult(t, item + [n], item + [d, n]).Done?
    ensures var t' := MoveResult(t, item + [n], item + [d, n]).value;
      && (forall q :: item < q && q[|item|] != n && q[|item|] != d ==> SameAt(t, t', q))
      && (forall q :: item < q && q[|item|] == n ==> q !in t')
      && (forall q :: !(item < q) ==> SameAt(t, t', q))
  {
    var src, dst := item + [n], item + [d, n];
    var target := MoveTarget(t, src, dst);
    assert target[..|item| + 1] == item + [d];
    assert MoveResult(t, src, dst).value == Relocate(t, src, target);
    RelocateIntoFolder(t, item, n, d, target);
  }

  /** Relocating the entry `n` of `item` to a path below its sibling `d`
      changes nothing outside the subtrees of `n` and `d`, and leaves nothing
      below `n`. */
  lemma {:induction false} RelocateIntoFolder(t: Tree, item: Path, n: Name, d: Name, target: Path)
    requires n != d && |target| > |item| && target[..|item| + 1] == item + [d]
    ensures var t' := Relocate(t, item + [n], target);
      && (forall q :: item < q && q[|item|] != n && q[|item|] != d ==> SameAt(t, t', q))
      && (forall q :: item < q && q[|item|] == n ==> q !in t')
      && (forall q :: !(item < q) ==> SameAt(t, t', q))
  {
    var src := item + [n];
    assert src[|item|] == n && target[|item|] == d;
    var t' := Relocate(t, src, target);
    forall q | item < q && q[|item|] != n && q[|item|] != d
      ensures SameAt(t, t', q)
    {
      ChildPrefix(item, n, q);
      ChildPrefix(item, d, q);
    }
    forall q | item < q && q[|item|] == n
      ensures q !in t'
    {
      ChildPrefix(item, n, q);
    }
  }

  /** One more entry handled keeps the pass's account. */
  lemma {:induction false} SortEntryStep(t: Tree, s: Trace, item: Path, done: set<Name>, n: Name)
    requires s.raised.None? && SortedPart(t, s.tree, item, done)
    requires SortEntry(s, item, n).raised.None?
    ensures SortedPart(t, SortEntry(s, item, n).tree, item, done + {n})
  {
    if d :| SortFolder(n) == Some(d) {
      SuffixedNameLength(n);
      var t1 := s.tree;
      MoveIntoFolder(t1, item, n, d);
      var t2 := MoveResult(t1, item + [n], item + [d, n]).value;
      assert SortEntry(s, item, n).tree == t2;
      SortedAfterMove(t, t1, t2, item, done, n, d);
    }
  }

  /** The account after the move of `n` into `d`, from the move's effect alone. */
  lemma {:induction false} SortedAfterMove(t: Tree, t1: Tree, t2: Tree, item: Path, done: set<Name>, n: Name, d: Name)
    requires SortedPart(t, t1, item, done) && SortFolder(n) == Some(d)
    requires forall q :: item < q && q[|item|] != n && q[|item|] != d ==> SameAt(t1, t2, q)
    requires forall q :: item < q && q[|item|] == n ==> q !in t2
    requires forall q :: !(item < q) ==> SameAt(t1, t2, q)
    ensures SortedPart(t, t2, item, done + {n})
  {
    SuffixedNameLength(n);
    forall q | item < q && q[|item|] in done + {n} && SortFolder(q[|item|]).Some?
      ensures q !in t2
    {
      if q[|item|] != n {
        SuffixedNameLength(q[|item|]);
        assert q !in t1 && SameAt(t1, t2, q);
      }
    }
    forall q | item < q && (q[|item|] !in done + {n} || SortFolder(q[|item|]).None?) && q[|item|] != ImagesFolder && q[|item|] != UsdFolder
      ensures SameAt(t, t2, q)
    {
      assert SameAt(t, t1, q);
    }
    assert SameAt(t1, t2, item);
    forall q | q in t && !(item <= q)
      ensures q in t2 && t2[q] == t[q]
    {
      assert SameAt(t1, t2, q);
    }
    forall q | q in t2 && q !in t && !(item <= q)
      ensures q < item
    {
      assert SameAt(t1, t2, q);
    }
  }

  /** The pass over a listing accounts for every listed name. */
  lemma {:induction false} SortEntriesAccount(t: Tree, item: Path, names: seq<Name>)
    requires SortEntries(Trace(t, None), item, names).raised.None?
    ensures SortedPart(t, SortEntries(Trace(t, None), item, names).tree, item, Elements(names))
    decreases |names|
  {
    if names != [] {
      var init, last := names[..|names| - 1], names[|names| - 1];
      SortEntriesAccount(t, item, init);
      var s := SortEntries(Trace(t, None), item, init);
      assert SortEntries(Trace(t, None), item, names) == SortEntry(s, item, last);
      SortEntryStep(t, s, item, Elements(init), last);
      ElementsSnoc(names);
    }
  }

  /** After a pass over the whole listing of `item` that raised nothing, no
      entry directly inside `item` has an image or scene suffix, the entries
      without one are where they were, and nothing outside `item` changed. */
  lemma {:induction false} SortPassSortsItem(t: Tree, item: Path, names: seq<Name>)
    requires Elements(names) == Children(t, item)
    requires SortEntries(Trace(t, None), item, names).raised.None?
    ensures var t' := SortEntries(Trace(t, None), item, names).tree;
      && ItemSorted(t', item)
      && KeptOutside(t, t', item)
      && (forall n :: IsName(n) && SortFolder(n).None? && n != ImagesFolder && n != UsdFolder ==> SameAt(t, t', item + [n]))
  {
    var t' := SortEntries(Trace(t, None), item, names).tree;
    SortEntriesAccount(t, item, names);
    forall n | IsName(n) && item + [n] in t'
      ensures SortFolder(n).None?
    {
      var q := item + [n];
      assert item < q && q[|item|] == n;
      if SortFolder(n).Some? {
        SuffixedNameLength(n);
      }
    }
    forall n | IsName(n) && SortFolder(n).None? && n != ImagesFolder && n != UsdFolder
      ensures SameAt(t, t', item + [n])
    {
      var q := item + [n];
      assert item < q && q[|item|] == n;
    }
  }

  /** A second pass over an item the first pass sorted moves nothing. */
  lemma {:induction false} SortPassIdle(t: Tree, item: Path, names: seq<Name>)
    requires ItemSorted(t, item)
    requires forall n :: n in names ==> n in Children(t, item)
    ensures SortEntries(Trace(t, None), item, names) == Trace(t, None)
    decreases |names|
  {
    if names != [] {
      var init := names[..|names| - 1];
      assert forall n :: n in init ==> n in names;
      SortPassIdle(t, item, init);
      assert names[|names| - 1] in names;
    }
  }

  /** Moving the entry `n` of `item` into a sub-folder `d` that holds nothing
      named `n` succeeds and puts the entry there, unchanged; everything
      outside the two subtrees involved stays as it was. */
  lemma {:induction false} MoveIntoFreshFolder(t: Tree, item: Path, n: Name, d: Name)
    requires n != d && item + [n] in t && IsDir(t, item + [d]) && item + [d, n] !in t
    ensures MoveResult(t, item + [n], item + [d, n]).Done?
    ensures var t' := MoveResult(t, item + [n], item + [d, n]).value;
      && item + [d, n] in t' && t'[item + [d, n]] == t[item + [n]]
      && (forall q :: !(item + [n] <= q) && !(item + [d, n] <= q) ==> SameAt(t, t', q))
  {
    var src, dst := item + [n], item + [d, n];
    assert src[|item|] == n && dst[|item|] == d;
    assert dst[..|dst| - 1] == item + [d];
    assert src[|src|..] == [] && dst + [] == dst;
    assert src <= src;
  }

  /** Where the `-f` mode moves the entry `n` of `item`: `item/2K/n` or `item/USD/n`. */
  function Destination(item: Path, n: Name): (p: Path)
    requires SortFolder(n).Some?
    ensures |p| == |item| + 2 && item < p && p[|item| + 1] == n
    ensures p[|item|] == ImagesFolder <==> IsImageByCase(n)
    ensures p[|item|] == UsdFolder <==> IsUsdAsset(n)
  {
    item + [SortFolder(n).value, n]
  }

  /** Neither destination folder of `item` already holds an entry named like
      one of `names` that moves there. */
  ghost predicate FreshDestinations(t: Tree, item: Path, names: set<Name>) {
    forall n :: n in names && SortFolder(n).Some? ==> Destination(item, n) !in t
  }

  /** What a pass into fresh destination folders has left: both folders
      still there, every moved name of `done` at its destination with the
      entry it had, and the names of `rest` and their destinations untouched. */
  ghost predicate PlacedPart(t: Tree, t': Tree, item: Path, done: set<Name>, rest: set<Name>) {
    && IsDir(t', item + [ImagesFolder]) && IsDir(t', item + [UsdFolder])
    && (forall n :: n in done && SortFolder(n).Some? ==>
          item + [n] in t && Destination(item, n) in t' && t'[Destination(item, n)] == t[item + [n]])
    && (forall n :: n in rest ==> SameAt(t, t', item + [n]))
    && (forall n :: n in rest && SortFolder(n).Some? ==> SameAt(t, t', Destination(item, n)))
  }

  /** Two paths that differ at some position lie in disjoint subtrees. */
  lemma Diverge(p: Path, q: Path, i: nat)
    requires i < |p| && i < |q| && p[i] != q[i]
    ensures !(p <= q) && !(q <= p)
  {
  }

  /** One more entry moved into a fresh destination keeps the account. */
  lemma {:induction false} PlaceStep(t: Tree, t1: Tree, item: Path, done: set<Name>, rest: set<Name>, n: Name)
    requires PlacedPart(t, t1, item, done, rest) && n in rest && n !in done
    requires item + [n] in t && (SortFolder(n).Some? ==> Destination(item, n) !in t)
    ensures SortEntry(Trace(t1, None), item, n).raised.None?
    ensures PlacedPart(t, SortEntry(Trace(t1, None), item, n).tree, item, done + {n}, rest - {n})
  {
    if d :| SortFolder(n) == Some(d) {
      SuffixedNameLength(n);
      var src, dst := item + [n], item + [d, n];
      assert dst == Destination(item, n);
      assert SameAt(t, t1, src) && SameAt(t, t1, dst);
      MoveIntoFreshFolder(t1, item, n, d);
      var t2 := MoveResult(t1, src, dst).value;
      assert forall q :: Apart(src, dst, q) ==> SameAt(t1, t2, q);
      PlacedAfterMove(t, t1, t2, item, done, rest, n, d);
    }
  }

  /** The account after the move of `n` into `d`, from the move's effect alone. */
  lemma {:induction false} PlacedAfterMove(t: Tree, t1: Tree, t2: Tree, item: Path, done: set<Name>, rest: set<Name>, n: Name, d: Name)
    requires PlacedPart(t, t1, item, done, rest) && n in rest && n !in done
    requires SortFolder(n) == Some(d)
    requires item + [n] in t && item + [d, n] in t2 && t2[item + [d, n]] == t[item + [n]]
    requires forall q :: Apart(item + [n], item + [d, n], q) ==> SameAt(t1, t2, q)
    ensures PlacedPart(t, t2, item, done + {n}, rest - {n})
  {
    forall m | m != n
      ensures Apart(item + [n], item + [d, n], item + [m])
      ensures SortFolder(m).Some? ==> Apart(item + [n], item + [d, n], Destination(item, m))
    {
      EntriesApart(item, n, d, m);
    }
    SuffixedNameLength(n);
    assert Destination(item, n) == item + [d, n];
  }

  /** `q` lies outside the subtrees at `src` and at `dst`. */
  predicate Apart(src: Path, dst: Path, q: Path) {
    !(src <= q) && !(dst <= q)
  }

  /** The entry `m` of an item, and its destination, lie outside the subtrees
      of another entry `n` and of `n`'s destination. */
  lemma EntriesApart(item: Path, n: Name, d: Name, m: Name)
    requires m != n && SortFolder(n) == Some(d)
    ensures Apart(item + [n], item + [d, n], item + [m])
    ensures SortFolder(m).Some? ==> Apart(item + [n], item + [d, n], Destination(item, m))
  {
    SuffixedNameLength(n);
    Diverge(item + [m], item + [n], |item|);
    if SortFolder(m).Some? {
      var q := Destination(item, m);
      Diverge(q, item + [n], |item|);
      if q[|item|] == d {
        Diverge(q, item + [d, n], |item| + 1);
      } else {
        Diverge(q, item + [d, n], |item|);
      }
    }
  }

  /** Moving the split point of a listing without duplicates past its `k`th
      name moves exactly that name from the rest to the part done. */
  lemma SplitAtName(names: seq<Name>, k: nat)
    requires 0 < k <= |names| && NoDuplicates(names)
    ensures names[k - 1] !in Elements(names[..k - 1]) && names[k - 1] in Elements(names[k - 1..])
    ensures Elements(names[..k]) == Elements(names[..k - 1]) + {names[k - 1]}
    ensures Elements(names[k..]) == Elements(names[k - 1..]) - {names[k - 1]}
  {
    var n := names[k - 1];
    assert n !in Elements(names[..k - 1]) by {
      forall j | 0 <= j < k - 1 ensures names[j] != n { }
    }
    assert names[k - 1..] == [n] + names[k..];
    assert n !in Elements(names[k..]) by {
      forall j | k <= j < |names| ensures names[j] != n { }
    }
    ElementsSnoc(names[..k]);
    assert names[..k][..k - 1] == names[..k - 1];
  }

  /** The account after the first `k` names of a listing. */
  lemma {:induction false} PlacedPrefix(t: Tree, item: Path, names: seq<Name>, k: nat)
    requires k <= |names| && NoDuplicates(names)
    requires forall n :: n in names ==> item + [n] in t
    requires IsDir(t, item + [ImagesFolder]) && IsDir(t, item + [UsdFolder])
    requires FreshDestinations(t, item, Elements(names))
    ensures SortEntries(Trace(t, None), item, names[..k]).raised.None?
    ensures PlacedPart(t, SortEntries(Trace(t, None), item, names[..k]).tree, item, Elements(names[..k]), Elements(names[k..]))
  {
    if k == 0 {
      assert names[..0] == [] && names[0..] == names;
    } else {
      PlacedPrefix(t, item, names, k - 1);
      var n := names[k - 1];
      var s := SortEntries(Trace(t, None), item, names[..k - 1]);
      assert names[..k][..k - 1] == names[..k - 1];
      assert SortEntries(Trace(t, None), item, names[..k]) == SortEntry(s, item, n);
      SplitAtName(names, k);
      PlaceStep(t, s.tree, item, Elements(names[..k - 1]), Elements(names[k - 1..]), n);
    }
  }

  /** When neither destination folder holds an entry named like one that moves
      there, the pass raises nothing, and every image file of the item root
      is then in `2K`, every scene file in `USD`, each as it was. */
  lemma SortPassPlaces(t: Tree, item: Path, names: seq<Name>)
    requires NoDuplicates(names)
    requires forall n :: n in names ==> item + [n] in t
    requires IsDir(t, item + [ImagesFolder]) && IsDir(t, item + [UsdFolder])
    requires FreshDestinations(t, item, Elements(names))
    ensures SortEntries(Trace(t, None), item, names).raised.None?
    ensures var t' := SortEntries(Trace(t, None), item, names).tree;
      && IsDir(t', item + [ImagesFolder])
      && forall n :: n in names && SortFolder(n).Some? ==>
           Destination(item, n) in t' && t'[Destination(item, n)] == t[item + [n]]
  {
    PlacedPrefix(t, item, names, |names|);
    assert names[..|names|] == names;
  }

  /** Keeping what lies outside a subtree composes. */
  lemma KeptOutsideTrans(t1: Tree, t2: Tree, t3: Tree, p: Path)
    requires KeptOutside(t1, t2, p) && KeptOutside(t2, t3, p)
    ensures KeptOutside(t1, t3, p)
  {
  }

  /** Creating the folders down to a path inside the subtree at `p` keeps what
      lies outside that subtree. */
  lemma {:induction false} MakeDirsKept(t: Tree, dir: Path, p: Path)
    requires p <= dir && MakeDirsResult(t, dir).Done?
    ensures KeptOutside(t, MakeDirsResult(t, dir).value, p)
  {
    var t' := MakeDirsResult(t, dir).value;
    forall q | q in t' && q !in t && |q| >= |p|
      ensures p <= q
    {
      assert q[..|p|] == dir[..|p|];
    }
  }

  /** The three folders of a prepared item exist, and preparing an item keeps
      everything outside it. */
  lemma {:induction false} PrepareItemKept(t: Tree, item: Path)
    requires item != [] && PrepareItem(t, item).raised.None?
    ensures var t' := PrepareItem(t, item).tree;
      && KeptOutside(t, t', item)
      && IsDir(t', item) && IsDir(t', item + [UsdFolder]) && IsDir(t', item + [ImagesFolder]) && IsDir(t', item + [ResizedFolder])
  {
    var s1 := ThenMakeDirs(Trace(t, None), item + [UsdFolder]);
    var s2 := ThenMakeDirs(s1, item + [ImagesFolder]);
    var s3 := ThenMakeDirs(s2, item + [ResizedFolder]);
    MakeFolderKept(Trace(t, None), item, UsdFolder);
    MakeFolderKept(s1, item, ImagesFolder);
    MakeFolderKept(s2, item, ResizedFolder);
    KeptOutsideTrans(t, s1.tree, s2.tree, item);
    KeptOutsideTrans(t, s2.tree, s3.tree, item);
  }

  /** Creating the folder `f` inside `item` keeps what lies outside `item`
      and every entry already there, and leaves `item` and `item/f` folders. */
  lemma {:induction false} MakeFolderKept(s: Trace, item: Path, f: Name)
    requires item != [] && s.raised.None? && ThenMakeDirs(s, item + [f]).raised.None?
    ensures var t' := ThenMakeDirs(s, item + [f]).tree;
      && KeptOutside(s.tree, t', item)
      && (forall q :: q in s.tree ==> q in t' && t'[q] == s.tree[q])
      && IsDir(t', item) && IsDir(t', item + [f])
  {
    var p := item + [f];
    MakeDirsKept(s.tree, p, item);
    assert p[..|item|] == item;
    assert p[..|item| + 1] == p;
  }

  /** An item that is a regular file stops the `-f` mode: its first `makedirs`
      raises. */
  lemma PrepareFileItem(t: Tree, item: Path)
    requires item != [] && IsFile(t, item)
    ensures PrepareItem(t, item).raised == Some(NotADirectory)
  {
    var p := item + [UsdFolder];
    assert 1 <= |item| < |p| && IsFile(t, p[..|item|]) by {
      assert p[..|item|] == item;
    }
  }

  /** What happens to one item keeps a sorted other item sorted. */
  lemma {:induction false} ItemSortedKept(t: Tree, t': Tree, p: Path, item: Path)
    requires ItemSorted(t, item) && KeptOutside(t, t', p)
    requires |p| <= |item| && !(p <= item)
    ensures ItemSorted(t', item)
  {
    forall n | IsName(n) && item + [n] in t'
      ensures item + [n] in t
    {
      var q := item + [n];
      assert q[..|p|] == item[..|p|];
    }
  }

  /** The batch resize of `2K` into `1k` keeps everything outside the item. */
  lemma {:induction false} BatchResizeKept(t: Tree, item: Path, inDir: Path, listed: set<Name>, imaging: (Content, Path) -> bool)
    requires MakeDirsResult(t, item + [ResizedFolder]).Done?
    ensures var t1 := MakeDirsResult(t, item + [ResizedFolder]).value;
      KeptOutside(t, t1 + BatchWrites(t1, inDir, item + [ResizedFolder], listed, imaging), item)
  {
    var outDir := item + [ResizedFolder];
    var t1 := MakeDirsResult(t, outDir).value;
    var w := BatchWrites(t1, inDir, outDir, listed, imaging);
    MakeDirsKept(t, outDir, item);
    BatchWritesAt(t1, inDir, outDir, listed, imaging);
    WritesBelowKept(t1, w, item, outDir);
    KeptOutsideTrans(t, t1, t1 + w, item);
  }

  /** Writing entries below `outDir`, itself inside `item`, keeps what lies
      outside `item`. */
  lemma {:induction false} WritesBelowKept(t: Tree, w: Tree, item: Path, outDir: Path)
    requires item <= outDir && forall k :: k in w ==> outDir <= k
    ensures KeptOutside(t, t + w, item)
  {
    forall k | k in w
      ensures item <= k
    {
      assert k[..|item|] == outDir[..|item|];
    }
  }

  /** The batch resize of `2K` into `1k` adds no entry to the item root that
      the `-f` mode would move. */
  lemma {:induction false} BatchResizeKeepsSorted(t: Tree, item: Path, inDir: Path, listed: set<Name>, imaging: (Content, Path) -> bool)
    requires MakeDirsResult(t, item + [ResizedFolder]).Done? && ItemSorted(t, item)
    ensures var t1 := MakeDirsResult(t, item + [ResizedFolder]).value;
      ItemSorted(t1 + BatchWrites(t1, inDir, item + [ResizedFolder], listed, imaging), item)
  {
    var outDir := item + [ResizedFolder];
    var t1 := MakeDirsResult(t, outDir).value;
    var w := BatchWrites(t1, inDir, outDir, listed, imaging);
    BatchWritesAt(t1, inDir, outDir, listed, imaging);
    forall n | IsName(n) && item + [n] in t1 + w
      ensures SortFolder(n).None?
    {
      var q := item + [n];
      assert q !in w;
      if q !in t {
        assert q <= outDir && |q| == |outDir|;
        assert q == outDir;
        assert n == q[|item|] == ResizedFolder;
        if SortFolder(n).Some? {
          SuffixedNameLength(n);
        }
      }
    }
  }

  /** What `SortItem` leaves, whatever order the listing came in: an item
      that is a regular file raises; otherwise, if nothing raised, the item
      root is sorted and nothing outside the item changed. */
  lemma {:induction false} SortItemAccount(t: Tree, item: Path, listing: seq<Name>)
    requires item != []
    requires PrepareItem(t, item).raised.None? ==> Elements(listing) == Children(PrepareItem(t, item).tree, item)
    ensures var s := SortEntries(PrepareItem(t, item), item, listing);
      && (IsFile(t, item) ==> s.raised.Some?)
      && (s.raised.None? ==> ItemSorted(s.tree, item) && KeptOutside(t, s.tree, item))
  {
    var prep := PrepareItem(t, item);
    if prep.raised.None? {
      PrepareItemKept(t, item);
      if SortEntries(prep, item, listing).raised.None? {
        SortPassSortsItem(prep.tree, item, listing);
        KeptOutsideTrans(t, prep.tree, SortEntries(prep, item, listing).tree, item);
      }
    }
    if IsFile(t, item) {
      PrepareFileItem(t, item);
    }
  }

  /** Names the `-f` mode neither moves nor creates at an item root. */
  predicate Unmoved(n: Name) {
    SortFolder(n).None? && n != ImagesFolder && n != UsdFolder && n != ResizedFolder
  }

  /** No image or scene file at the item root has a namesake in the folder it
      would move into. */
  ghost predicate FreshFolders(t: Tree, item: Path) {
    forall n :: IsName(n) && item + [n] in t && SortFolder(n).Some? ==> Destination(item, n) !in t
  }

  /** Every image or scene file at the item root in `t` is in `t'` at its
      destination, as it was. */
  ghost predicate Placed(t: Tree, t': Tree, item: Path) {
    forall n :: IsName(n) && item + [n] in t && SortFolder(n).Some? ==>
      Destination(item, n) in t' && t'[Destination(item, n)] == t[item + [n]]
  }

  /** A file written by a resize to the default 1024×1024. */
  predicate IsDefaultResize(node: Node) {
    node.File? && node.content.Resized? && node.content.width == DefaultSize.0 && node.content.height == DefaultSize.1
  }

  /** Every entry of `item/1k` that is new or changed is a 1024×1024 resize
      written under an allow-listed name. */
  ghost predicate ResizedBelow(t: Tree, t': Tree, item: Path) {
    forall n :: item + [ResizedFolder, n] in t' && !SameAt(t, t', item + [ResizedFolder, n]) ==>
      IsBatchImage(n) && IsDefaultResize(t'[item + [ResizedFolder, n]])
  }

  /** The path `q`, two or more levels below `item`, lies under the place
      in the sub-folder `q[|item|]` where the entry `q[|item| + 1]` of the
      item root in `t` is moved. */
  ghost predicate MovedInto(t: Tree, item: Path, q: Path)
    requires |q| > |item| + 1
  {
    item + [q[|item| + 1]] in t && SortFolder(q[|item| + 1]) == Some(q[|item|])
  }

  /** The item's `USD`, `2K` and `1k` folders exist in `t'`; nothing that was
      inside `1k` is gone; and inside `2K` and `USD` everything is as it was
      except where an entry of the item root was moved. */
  ghost predicate FoldersKept(t: Tree, t': Tree, item: Path) {
    && IsDir(t', item + [UsdFolder]) && IsDir(t', item + [ImagesFolder]) && IsDir(t', item + [ResizedFolder])
    && (forall q :: item < q && |q| > |item| + 1 && q[|item|] == ResizedFolder && q in t ==> q in t')
    && (forall q :: item < q && |q| > |item| + 1 && (q[|item|] == ImagesFolder || q[|item|] == UsdFolder) && !MovedInto(t, item, q) ==>
          SameAt(t, t', q))
  }

  /** What a completed turn leaves of an item, against the tree before it:
      nothing to move at the item root; every other entry below the item
      where it was; with free destination folders, every image file in `2K`
      and every scene file in `USD`, as it was; the three folders in place
      with what they held; and in `1k` only resized copies of allow-listed
      names. */
  ghost predicate TurnDone(t: Tree, t': Tree, item: Path) {
    && ItemSorted(t', item)
    && (forall q :: item < q && Unmoved(q[|item|]) ==> SameAt(t, t', q))
    && (FreshFolders(t, item) ==> Placed(t, t', item))
    && FoldersKept(t, t', item)
    && ResizedBelow(t, t', item)
  }

  /** Nothing at or below `p` differs. */
  ghost predicate SubtreeSame(t: Tree, t': Tree, p: Path) {
    forall q :: p <= q ==> SameAt(t, t', q)
  }

  /** `makedirs(item/x)` changes nothing below `item` except `item/x` itself. */
  lemma {:induction false} MakeFolderTouches(t: Tree, item: Path, x: Name)
    requires MakeDirsResult(t, item + [x]).Done?
    ensures var t' := MakeDirsResult(t, item + [x]).value;
      forall q :: item < q && (|q| > |item| + 1 || q[|item|] != x) ==> SameAt(t, t', q)
  {
    var p := item + [x];
    var t' := MakeDirsResult(t, p).value;
    forall q | item < q && (|q| > |item| + 1 || q[|item|] != x)
      ensures SameAt(t, t', q)
    {
    }
  }

  /** Handling an item again after a completed turn moves nothing: the
      `makedirs` calls keep it sorted, and the pass over its listing is then
      the identity. */
  lemma {:induction false} SecondTurnIdle(t: Tree, item: Path, listing: seq<Name>)
    requires item != [] && ItemSorted(t, item) && ListingOf(t, item, listing)
    requires PrepareItem(t, item).raised.None?
    ensures SortEntries(PrepareItem(t, item), item, listing) == PrepareItem(t, item)
  {
    var prep := PrepareItem(t, item);
    PrepareTouches(t, item);
    forall n | IsName(n) && SortFolder(n).Some?
      ensures item + [n] !in prep.tree
    {
      SuffixedNameLength(n);
      assert SameAt(t, prep.tree, item + [n]);
    }
    assert prep == Trace(prep.tree, None);
    SortPassIdle(prep.tree, item, listing);
  }

  /** The three `makedirs` calls of a turn change nothing below the item
      except its `USD`, `2K` and `1k` folders themselves. */
  lemma {:induction false} PrepareTouches(t: Tree, item: Path)
    requires PrepareItem(t, item).raised.None?
    ensures forall q :: item < q && (|q| > |item| + 1 || (q[|item|] != UsdFolder && q[|item|] != ImagesFolder && q[|item|] != ResizedFolder)) ==>
      SameAt(t, PrepareItem(t, item).tree, q)
  {
    var s1 := ThenMakeDirs(Trace(t, None), item + [UsdFolder]);
    var s2 := ThenMakeDirs(s1, item + [ImagesFolder]);
    MakeFolderTouches(t, item + [], UsdFolder);
    assert item + [] == item;
    MakeFolderTouches(s1.tree, item, ImagesFolder);
    MakeFolderTouches(s2.tree, item, ResizedFolder);
  }

  /** The moves of a turn that raised nothing, against the tree the turn
      started from: the item root is sorted, every entry the pass does not
      move is where it was, `1k` is untouched below, nothing outside the item
      changed. */
  lemma {:induction false} PassFacts(t: Tree, item: Path, listing: seq<Name>)
    requires item != [] && ListingOf(t, item, listing)
    requires SortEntries(PrepareItem(t, item), item, listing).raised.None?
    ensures PrepareItem(t, item).raised.None?
    ensures var t' := SortEntries(PrepareItem(t, item), item, listing).tree;
      && KeptOutside(t, t', item) && ItemSorted(t', item)
      && (forall q :: item < q && Unmoved(q[|item|]) ==> SameAt(t, t', q))
      && (forall q :: item < q && q[|item|] == ResizedFolder && |q| > |item| + 1 ==> SameAt(t, t', q))
  {
    var prep := PrepareItem(t, item);
    var t' := SortEntries(prep, item, listing).tree;
    assert prep == Trace(prep.tree, None);
    PrepareItemKept(t, item);
    PrepareTouches(t, item);
    SortEntriesAccount(prep.tree, item, listing);
    SortPassSortsItem(prep.tree, item, listing);
    KeptOutsideTrans(t, prep.tree, t', item);
    if SortFolder(ResizedFolder).Some? {
      SuffixedNameLength(ResizedFolder);
    }
    forall q | item < q && (Unmoved(q[|item|]) || (q[|item|] == ResizedFolder && |q| > |item| + 1))
      ensures SameAt(t, t', q)
    {
      assert SameAt(t, prep.tree, q);
      assert SameAt(prep.tree, t', q);
    }
  }

  /** With free destination folders, the moves of a turn whose `makedirs`
      calls succeeded raise nothing and put every image and scene file of the
      item root at its destination, as it was; `2K` is then a folder. */
  lemma {:induction false} PassPlaces(t: Tree, item: Path, listing: seq<Name>)
    requires item != [] && ListingOf(t, item, listing)
    requires PrepareItem(t, item).raised.None? && FreshFolders(t, item)
    ensures var s := SortEntries(PrepareItem(t, item), item, listing);
      s.raised.None? && Placed(t, s.tree, item) && IsDir(s.tree, item + [ImagesFolder])
  {
    var prep := PrepareItem(t, item);
    assert prep == Trace(prep.tree, None);
    PrepareItemKept(t, item);
    PrepareTouches(t, item);
    forall n | n in Elements(listing) && SortFolder(n).Some?
      ensures Destination(item, n) !in prep.tree
    {
      SuffixedNameLength(n);
      assert SameAt(t, prep.tree, item + [n]);
      assert SameAt(t, prep.tree, Destination(item, n));
    }
    SortPassPlaces(prep.tree, item, listing);
    var t' := SortEntries(prep, item, listing).tree;
    forall n | IsName(n) && item + [n] in t && SortFolder(n).Some?
      ensures Destination(item, n) in t' && t'[Destination(item, n)] == t[item + [n]]
    {
      SuffixedNameLength(n);
      assert SameAt(t, prep.tree, item + [n]);
      assert n in Children(prep.tree, item);
      assert n in listing;
    }
  }

  /** The batch resize that ends a turn, when it raises nothing: it changes
      nothing outside the item and nothing below the item outside `1k`, keeps
      a sorted item root sorted, and writes into `1k` only resized copies of
      allow-listed names. */
  lemma {:induction false} ResizeFacts(t: Tree, item: Path, imaging: (Content, Path) -> bool)
    requires ThenBatchResize(Trace(t, None), item, imaging).raised.None?
    ensures var t' := ThenBatchResize(Trace(t, None), item, imaging).tree;
      && KeptOutside(t, t', item)
      && (ItemSorted(t, item) ==> ItemSorted(t', item))
      && (forall q :: item < q && q[|item|] != ResizedFolder ==> SameAt(t, t', q))
      && ResizedBelow(t, t', item)
  {
    var inDir, outDir := item + [ImagesFolder], item + [ResizedFolder];
    var t1 := MakeDirsResult(t, outDir).value;
    var listed := Children(t1, inDir);
    var w := BatchWrites(t1, inDir, outDir, listed, imaging);
    assert ThenBatchResize(Trace(t, None), item, imaging).tree == t1 + w;
    BatchResizeKept(t, item, inDir, listed, imaging);
    if ItemSorted(t, item) {
      BatchResizeKeepsSorted(t, item, inDir, listed, imaging);
    }
    MakeFolderTouches(t, item, ResizedFolder);
    ResizeWrites(t1, item, listed, imaging);
    OverlayBelow(t, t1, w, item);
  }

  /** The writes of the batch resize at the end of a turn are resized copies
      of allow-listed names, directly inside `1k`. */
  lemma {:induction false} ResizeWrites(t1: Tree, item: Path, listed: set<Name>, imaging: (Content, Path) -> bool)
    ensures var w := BatchWrites(t1, item + [ImagesFolder], item + [ResizedFolder], listed, imaging);
      && (forall k :: k in w ==> item < k && k[|item|] == ResizedFolder && |k| == |item| + 2)
      && (forall n :: item + [ResizedFolder, n] in w ==> IsBatchImage(n) && IsDefaultResize(w[item + [ResizedFolder, n]]))
  {
    var inDir, outDir := item + [ImagesFolder], item + [ResizedFolder];
    BatchWritesAt(t1, inDir, outDir, listed, imaging);
    WritesInside(t1, BatchWrites(t1, inDir, outDir, listed, imaging), item, inDir, listed, imaging);
  }

  /** Writes at `item/1k/n` for resizable names `n`, as `BatchWritesAt`
      describes them, seen from `item`. */
  lemma {:induction false} WritesInside(t1: Tree, w: Tree, item: Path, inDir: Path, listed: set<Name>, imaging: (Content, Path) -> bool)
    requires forall n :: item + [ResizedFolder] + [n] in w ==>
      && n in listed && ResizesEntry(t1, inDir, item + [ResizedFolder], n, imaging)
      && w[item + [ResizedFolder] + [n]] == ResizedFile(t1, inDir + [n], DefaultSize)
    requires forall k :: k in w ==> |k| == |item| + 2 && item + [ResizedFolder] <= k
    ensures forall k :: k in w ==> item < k && k[|item|] == ResizedFolder && |k| == |item| + 2
    ensures forall n :: item + [ResizedFolder, n] in w ==> IsBatchImage(n) && IsDefaultResize(w[item + [ResizedFolder, n]])
  {
    var outDir := item + [ResizedFolder];
    forall k | k in w
      ensures item < k && k[|item|] == ResizedFolder
    {
      assert k[..|outDir|] == outDir;
    }
    forall n | item + [ResizedFolder, n] in w
      ensures IsBatchImage(n) && IsDefaultResize(w[item + [ResizedFolder, n]])
    {
      assert item + [ResizedFolder, n] == outDir + [n];
    }
  }

  /** `makedirs(item/1k)` followed by writes directly inside `1k` changes
      nothing below the item outside `1k`, and in `1k` only what was written. */
  lemma {:induction false} OverlayBelow(t: Tree, t1: Tree, w: Tree, item: Path)
    requires forall q :: item < q && (|q| > |item| + 1 || q[|item|] != ResizedFolder) ==> SameAt(t, t1, q)
    requires forall k :: k in w ==> item < k && k[|item|] == ResizedFolder && |k| == |item| + 2
    requires forall n :: item + [ResizedFolder, n] in w ==> IsBatchImage(n) && IsDefaultResize(w[item + [ResizedFolder, n]])
    ensures forall q :: item < q && q[|item|] != ResizedFolder ==> SameAt(t, t1 + w, q)
    ensures ResizedBelow(t, t1 + w, item)
  {
    var t' := t1 + w;
    forall n | item + [ResizedFolder, n] in t' && !SameAt(t, t', item + [ResizedFolder, n])
      ensures IsBatchImage(n) && IsDefaultResize(t'[item + [ResizedFolder, n]])
    {
      var q := item + [ResizedFolder, n];
      assert item < q && |q| > |item| + 1;
    }
  }

  /** What the moves of a pass leave of the `2K` and `USD` subtrees: nothing
      changed except below the place an entry of `done` with that folder as
      its destination went. */
  ghost predicate DestKept(t: Tree, t': Tree, item: Path, done: set<Name>) {
    forall q ::
      && item < q
      && (q[|item|] == ImagesFolder || q[|item|] == UsdFolder)
      && !(|q| > |item| + 1 && q[|item| + 1] in done && SortFolder(q[|item| + 1]) == Some(q[|item|]))
      ==> SameAt(t, t', q)
  }

  /** A successful move of the entry `n` of `item` into its sub-folder `d`
      changes nothing below the item except below `n` and below `d/n`. */
  lemma {:induction false} MoveIntoDest(t: Tree, item: Path, n: Name, d: Name)
    requires n != d && MoveResult(t, item + [n], item + [d, n]).Done?
    ensures var t' := MoveResult(t, item + [n], item + [d, n]).value;
      forall q :: item < q && q[|item|] != n && !(|q| > |item| + 1 && q[|item|] == d && q[|item| + 1] == n) ==> SameAt(t, t', q)
  {
    var src, dst := item + [n], item + [d, n];
    var target := MoveTarget(t, src, dst);
    assert target[..|item| + 2] == dst;
    assert MoveResult(t, src, dst).value == Relocate(t, src, target);
    var t' := Relocate(t, src, target);
    forall q | item < q && q[|item|] != n && !(|q| > |item| + 1 && q[|item|] == d && q[|item| + 1] == n)
      ensures SameAt(t, t', q)
    {
      ChildPrefix(item, n, q);
    }
  }

  /** One more entry handled keeps the account of the destination folders. */
  lemma {:induction false} DestStep(t: Tree, s: Trace, item: Path, done: set<Name>, n: Name)
    requires s.raised.None? && DestKept(t, s.tree, item, done)
    requires SortEntry(s, item, n).raised.None?
    ensures DestKept(t, SortEntry(s, item, n).tree, item, done + {n})
  {
    var t2 := SortEntry(s, item, n).tree;
    if d :| SortFolder(n) == Some(d) {
      SuffixedNameLength(n);
      MoveIntoDest(s.tree, item, n, d);
      assert t2 == MoveResult(s.tree, item + [n], item + [d, n]).value;
    }
    forall q | item < q && (q[|item|] == ImagesFolder || q[|item|] == UsdFolder) &&
      !(|q| > |item| + 1 && q[|item| + 1] in done + {n} && SortFolder(q[|item| + 1]) == Some(q[|item|]))
      ensures SameAt(t, t2, q)
    {
      assert SameAt(t, s.tree, q);
      if SortFolder(n).Some? {
        assert q[|item|] != n;
      }
    }
  }

  /** The pass over a listing keeps the account of the destination folders. */
  lemma {:induction false} DestAccount(t: Tree, item: Path, names: seq<Name>)
    requires SortEntries(Trace(t, None), item, names).raised.None?
    ensures DestKept(t, SortEntries(Trace(t, None), item, names).tree, item, Elements(names))
    decreases |names|
  {
    if names != [] {
      var init, last := names[..|names| - 1], names[|names| - 1];
      DestAccount(t, item, init);
      var s := SortEntries(Trace(t, None), item, init);
      assert SortEntries(Trace(t, None), item, names) == SortEntry(s, item, last);
      DestStep(t, s, item, Elements(init), last);
      ElementsSnoc(names);
    }
  }

  /** The moves of a turn that raised nothing leave the item's three folders
      in place and, inside `2K` and `USD`, everything as it was except where
      an entry of the item root was moved. */
  lemma {:induction false} PassKeepsFolders(t: Tree, item: Path, listing: seq<Name>)
    requires item != [] && ListingOf(t, item, listing)
    requires SortEntries(PrepareItem(t, item), item, listing).raised.None?
    ensures var p := SortEntries(PrepareItem(t, item), item, listing).tree;
      && IsDir(p, item + [UsdFolder]) && IsDir(p, item + [ImagesFolder]) && IsDir(p, item + [ResizedFolder])
      && forall q :: item < q && |q| > |item| + 1 && (q[|item|] == ImagesFolder || q[|item|] == UsdFolder) && !MovedInto(t, item, q) ==>
           SameAt(t, p, q)
  {
    var prep := PrepareItem(t, item);
    var p := SortEntries(prep, item, listing).tree;
    assert prep == Trace(prep.tree, None);
    PrepareItemKept(t, item);
    PrepareTouches(t, item);
    SortEntriesAccount(prep.tree, item, listing);
    DestAccount(prep.tree, item, listing);
    if SortFolder(ResizedFolder).Some? {
      SuffixedNameLength(ResizedFolder);
    }
    assert SameAt(prep.tree, p, item + [UsdFolder]) && SameAt(prep.tree, p, item + [ImagesFolder]);
    assert SameAt(prep.tree, p, item + [ResizedFolder]);
    forall q | item < q && |q| > |item| + 1 && (q[|item|] == ImagesFolder || q[|item|] == UsdFolder) && !MovedInto(t, item, q)
      ensures SameAt(t, p, q)
    {
      assert SameAt(t, prep.tree, q) && SameAt(prep.tree, p, q);
    }
  }

  /** The batch resize that ends a turn keeps every entry and leaves `1k` a
      folder. */
  lemma {:induction false} ResizeKeepsFolder(t: Tree, item: Path, imaging: (Content, Path) -> bool)
    requires ThenBatchResize(Trace(t, None), item, imaging).raised.None?
    ensures var t' := ThenBatchResize(Trace(t, None), item, imaging).tree;
      && IsDir(t', item + [ResizedFolder])
      && forall q :: q in t ==> q in t'
  {
    var inDir, outDir := item + [ImagesFolder], item + [ResizedFolder];
    var made := MakeDirsResult(t, outDir);
    var t1 := made.value;
    assert IsDir(t1, inDir);
    var listed := Children(t1, inDir);
    var w := BatchWrites(t1, inDir, outDir, listed, imaging);
    assert ThenBatchResize(Trace(t, None), item, imaging).tree == t1 + w;
    assert IsDir(t1, outDir) by {
      assert outDir[..|outDir|] == outDir;
    }
    ResizeWrites(t1, item, listed, imaging);
    assert outDir !in w;
  }

  /** The folder account of a whole turn, from that of its moves and of its
      batch resize. */
  lemma {:induction false} FoldersCompose(t: Tree, p: Tree, t': Tree, item: Path)
    requires IsDir(p, item + [UsdFolder]) && IsDir(p, item + [ImagesFolder])
    requires forall q :: item < q && q[|item|] == ResizedFolder && |q| > |item| + 1 ==> SameAt(t, p, q)
    requires forall q :: item < q && |q| > |item| + 1 && (q[|item|] == ImagesFolder || q[|item|] == UsdFolder) && !MovedInto(t, item, q) ==>
      SameAt(t, p, q)
    requires forall q :: item < q && q[|item|] != ResizedFolder ==> SameAt(p, t', q)
    requires IsDir(t', item + [ResizedFolder]) && forall q :: q in p ==> q in t'
    ensures FoldersKept(t, t', item)
  {
    assert SameAt(p, t', item + [UsdFolder]) && SameAt(p, t', item + [ImagesFolder]);
    forall q | item < q && |q| > |item| + 1 && q[|item|] == ResizedFolder && q in t
      ensures q in t'
    {
      assert SameAt(t, p, q);
    }
    forall q | item < q && |q| > |item| + 1 && (q[|item|] == ImagesFolder || q[|item|] == UsdFolder) && !MovedInto(t, item, q)
      ensures SameAt(t, t', q)
    {
      assert SameAt(t, p, q) && SameAt(p, t', q);
    }
  }

  /** A turn composed of the moves and the batch resize keeps the promises of
      both. */
  lemma {:induction false} TurnCompose(t: Tree, p: Tree, t': Tree, item: Path)
    requires KeptOutside(t, p, item) && KeptOutside(p, t', item) && ItemSorted(t', item)
    requires forall q :: item < q && Unmoved(q[|item|]) ==> SameAt(t, p, q)
    requires forall q :: item < q && q[|item|] == ResizedFolder && |q| > |item| + 1 ==> SameAt(t, p, q)
    requires forall q :: item < q && q[|item|] != ResizedFolder ==> SameAt(p, t', q)
    requires FreshFolders(t, item) ==> Placed(t, p, item)
    requires ResizedBelow(p, t', item)
    requires FoldersKept(t, t', item)
    ensures KeptOutside(t, t', item) && TurnDone(t, t', item)
  {
    KeptOutsideTrans(t, p, t', item);
    if FreshFolders(t, item) {
      forall n | IsName(n) && item + [n] in t && SortFolder(n).Some?
        ensures Destination(item, n) in t' && t'[Destination(item, n)] == t[item + [n]]
      {
        assert SameAt(p, t', Destination(item, n));
      }
    }
    forall n | item + [ResizedFolder, n] in t' && !SameAt(t, t', item + [ResizedFolder, n])
      ensures IsBatchImage(n) && IsDefaultResize(t'[item + [ResizedFolder, n]])
    {
      var q := item + [ResizedFolder, n];
      assert item < q && q[|item|] == ResizedFolder && |q| > |item| + 1;
    }
  }

  /** What one whole turn of the `-f` loop leaves, whatever order its listing
      came in: an item that is a regular file raises; a turn that raises
      nothing changes nothing outside the item and keeps the promises of
      `TurnDone`. */
  lemma {:induction false} ItemTurnAccount(t: Tree, item: Path, listing: seq<Name>, imaging: (Content, Path) -> bool)
    requires item != [] && ListingOf(t, item, listing)
    ensures var s := ItemTurn(t, item, listing, imaging);
      && (IsFile(t, item) ==> s.raised.Some?)
      && (s.raised.None? ==> KeptOutside(t, s.tree, item) && TurnDone(t, s.tree, item))
  {
    var pass := SortEntries(PrepareItem(t, item), item, listing);
    SortItemAccount(t, item, listing);
    if pass.raised.None? {
      assert pass == Trace(pass.tree, None);
      TurnAfterPass(t, item, listing, imaging, pass.tree);
    }
  }

  /** The account of a turn whose moves raised nothing and left `p`. */
  lemma {:induction false} TurnAfterPass(t: Tree, item: Path, listing: seq<Name>, imaging: (Content, Path) -> bool, p: Tree)
    requires item != [] && ListingOf(t, item, listing)
    requires SortEntries(PrepareItem(t, item), item, listing) == Trace(p, None)
    ensures var s := ThenBatchResize(Trace(p, None), item, imaging);
      s.raised.None? ==> KeptOutside(t, s.tree, item) && TurnDone(t, s.tree, item)
  {
    var s := ThenBatchResize(Trace(p, None), item, imaging);
    if s.raised.None? {
      PassFacts(t, item, listing);
      if FreshFolders(t, item) {
        PassPlaces(t, item, listing);
      }
      ResizeFacts(p, item, imaging);
      PassKeepsFolders(t, item, listing);
      ResizeKeepsFolder(p, item, imaging);
      FoldersCompose(t, p, s.tree, item);
      TurnCompose(t, p, s.tree, item);
    }
  }

  /** A turn whose three `makedirs` calls succeed, on an item whose
      destination folders hold no namesake of an entry to move, raises
      nothing. */
  lemma {:induction false} ItemTurnCompletes(t: Tree, item: Path, listing: seq<Name>, imaging: (Content, Path) -> bool)
    requires item != [] && ListingOf(t, item, listing)
    requires PrepareItem(t, item).raised.None? && FreshFolders(t, item)
    ensures ItemTurn(t, item, listing, imaging).raised.None?
  {
    var prep := PrepareItem(t, item);
    var s2 := ThenMakeDirs(ThenMakeDirs(Trace(t, None), item + [UsdFolder]), item + [ImagesFolder]);
    var out := item + [ResizedFolder];
    assert MakeDirsResult(s2.tree, out).Done? && prep.tree == MakeDirsResult(s2.tree, out).value;
    PassPlaces(t, item, listing);
    assert prep == Trace(prep.tree, None);
    SortEntriesAccount(prep.tree, item, listing);
    var p := SortEntries(prep, item, listing).tree;
    if SortFolder(ResizedFolder).Some? {
      SuffixedNameLength(ResizedFolder);
    }
    assert item < out && out[|item|] == ResizedFolder;
    assert SameAt(prep.tree, p, out);
    OutPathFree(prep.tree, p, item);
    assert MakeDirsResult(p, out).Done?;
  }

  /** A pass that keeps the item, its `1k` folder and everything outside the
      item leaves no file on the way to `1k`, if there was none before. */
  lemma {:induction false} OutPathFree(t: Tree, p: Tree, item: Path)
    requires item != []
    requires forall i :: 1 <= i <= |item| + 1 ==> IsDir(t, (item + [ResizedFolder])[..i])
    requires KeptOutside(t, p, item) && SameAt(t, p, item) && SameAt(t, p, item + [ResizedFolder])
    ensures forall i :: 1 <= i <= |item| + 1 ==> !IsFile(p, (item + [ResizedFolder])[..i])
  {
    var out := item + [ResizedFolder];
    forall i | 1 <= i <= |out|
      ensures !IsFile(p, out[..i])
    {
      assert IsDir(t, out[..i]);
      if i < |item| {
        assert out[..i] == item[..i];
        assert !(item <= out[..i]);
      } else if i == |item| {
        assert out[..i] == item;
      } else {
        assert out[..i] == out;
      }
    }
  }

  /** The frame of a turn on one item leaves every sibling's subtree alone. */
  lemma {:induction false} SiblingSame(t: Tree, t': Tree, p: Path, x: Path)
    requires KeptOutside(t, t', p) && |p| == |x| && p != x
    ensures SubtreeSame(t, t', x)
  {
    forall q | x <= q
      ensures SameAt(t, t', q)
    {
      assert q[..|p|] == x;
    }
  }

  /** A turn's frame around an item inside `root` is a frame around `root`. */
  lemma {:induction false} KeptOutsideWiden(t: Tree, t': Tree, item: Path, root: Path)
    requires root <= item && KeptOutside(t, t', item)
    ensures KeptOutside(t, t', root)
  {
    forall q | q in t' && q !in t && !(root <= q)
      ensures q < root
    {
      assert q < item;
      PrefixesOrdered(q, root, item);
    }
  }

  /** A turn's promises about an item survive what happens to other subtrees,
      and can be restated against an earlier tree with the same subtree. */
  lemma {:induction false} TurnDoneMoved(t0: Tree, t1: Tree, t2: Tree, t3: Tree, x: Path)
    requires SubtreeSame(t0, t1, x) && TurnDone(t1, t2, x) && SubtreeSame(t2, t3, x)
    ensures TurnDone(t0, t3, x)
  {
    forall n | IsName(n) && x + [n] in t3
      ensures SortFolder(n).None?
    {
      assert SameAt(t2, t3, x + [n]);
    }
    forall q | x < q && Unmoved(q[|x|])
      ensures SameAt(t0, t3, q)
    {
      assert SameAt(t0, t1, q) && SameAt(t1, t2, q) && SameAt(t2, t3, q);
    }
    if FreshFolders(t0, x) {
      forall n | IsName(n) && x + [n] in t1 && SortFolder(n).Some?
        ensures Destination(x, n) !in t1
      {
        assert SameAt(t0, t1, x + [n]) && SameAt(t0, t1, Destination(x, n));
      }
      forall n | IsName(n) && x + [n] in t0 && SortFolder(n).Some?
        ensures Destination(x, n) in t3 && t3[Destination(x, n)] == t0[x + [n]]
      {
        assert SameAt(t0, t1, x + [n]) && SameAt(t2, t3, Destination(x, n));
      }
    }
    forall n | x + [ResizedFolder, n] in t3 && !SameAt(t0, t3, x + [ResizedFolder, n])
      ensures IsBatchImage(n) && IsDefaultResize(t3[x + [ResizedFolder, n]])
    {
      var q := x + [ResizedFolder, n];
      assert SameAt(t0, t1, q) && SameAt(t2, t3, q);
    }
    FoldersKeptMoved(t0, t1, t2, t3, x);
  }

  /** `FoldersKept` survives what happens to other subtrees, and can be
      restated against an earlier tree with the same subtree. */
  lemma {:induction false} FoldersKeptMoved(t0: Tree, t1: Tree, t2: Tree, t3: Tree, x: Path)
    requires SubtreeSame(t0, t1, x) && FoldersKept(t1, t2, x) && SubtreeSame(t2, t3, x)
    ensures FoldersKept(t0, t3, x)
  {
    assert SameAt(t2, t3, x + [UsdFolder]) && SameAt(t2, t3, x + [ImagesFolder]) && SameAt(t2, t3, x + [ResizedFolder]);
    forall q | x < q && |q| > |x| + 1 && q[|x|] == ResizedFolder && q in t0
      ensures q in t3
    {
      assert SameAt(t0, t1, q) && SameAt(t2, t3, q);
    }
    forall q | x < q && |q| > |x| + 1 && (q[|x|] == ImagesFolder || q[|x|] == UsdFolder) && !MovedInto(t0, x, q)
      ensures SameAt(t0, t3, q)
    {
      assert SameAt(t0, t1, x + [q[|x| + 1]]);
      assert SameAt(t0, t1, q) && SameAt(t1, t2, q) && SameAt(t2, t3, q);
    }
  }

  /** Nothing at or below `p` differing composes. */
  lemma SubtreeSameTrans(t1: Tree, t2: Tree, t3: Tree, p: Path)
    requires SubtreeSame(t1, t2, p) && SubtreeSame(t2, t3, p)
    ensures SubtreeSame(t1, t3, p)
  {
    forall q | p <= q
      ensures SameAt(t1, t3, q)
    {
      assert SameAt(t1, t2, q) && SameAt(t2, t3, q);
    }
  }

  /** One turn of the `-f` loop keeps the loop's account: the root's frame,
      the promises about the items done, and the untouched later items. */
  lemma {:induction false} ReorganizeStep(t0: Tree, t1: Tree, t2: Tree, root: Path, folders: seq<Name>, i: nat)
    requires i < |folders| && NoDuplicates(folders)
    requires KeptOutside(t0, t1, root)
    requires forall j :: 0 <= j < i ==> TurnDone(t0, t1, root + [folders[j]])
    requires forall j :: i <= j < |folders| ==> SubtreeSame(t0, t1, root + [folders[j]])
    requires KeptOutside(t1, t2, root + [folders[i]]) && TurnDone(t1, t2, root + [folders[i]])
    ensures KeptOutside(t0, t2, root)
    ensures forall j :: 0 <= j < i + 1 ==> TurnDone(t0, t2, root + [folders[j]])
    ensures forall j :: i + 1 <= j < |folders| ==> SubtreeSame(t0, t2, root + [folders[j]])
  {
    var item := root + [folders[i]];
    KeptOutsideWiden(t1, t2, item, root);
    KeptOutsideTrans(t0, t1, t2, root);
    forall j | 0 <= j < |folders| && j != i
      ensures SubtreeSame(t1, t2, root + [folders[j]])
    {
      Diverge(item, root + [folders[j]], |root|);
      SiblingSame(t1, t2, item, root + [folders[j]]);
    }
    forall j | 0 <= j < i
      ensures TurnDone(t0, t2, root + [folders[j]])
    {
      var x := root + [folders[j]];
      assert SubtreeSame(t0, t0, x);
      TurnDoneMoved(t0, t0, t1, t2, x);
    }
    assert SubtreeSame(t2, t2, item);
    TurnDoneMoved(t0, t1, t2, t2, item);
    forall j | i + 1 <= j < |folders|
      ensures SubtreeSame(t0, t2, root + [folders[j]])
    {
      SubtreeSameTrans(t0, t1, t2, root + [folders[j]]);
    }
  }

  /** The account the `-f` loop keeps after handling the first `i` entries
      of the root listing `folders`. */
  ghost predicate LoopAccount(t0: Tree, t: Tree, root: Path, folders: seq<Name>, i: nat)
    requires i <= |folders|
  {
    && KeptOutside(t0, t, root)
    && (forall j :: 0 <= j < i ==> TurnDone(t0, t, root + [folders[j]]) && !IsFile(t0, root + [folders[j]]))
    && (forall j :: i <= j < |folders| ==> SubtreeSame(t0, t, root + [folders[j]]))
  }

  /** The account after the whole listing speaks of every entry of the root. */
  lemma LoopAccountComplete(t0: Tree, t: Tree, root: Path, folders: seq<Name>)
    requires LoopAccount(t0, t, root, folders, |folders|)
    requires forall n :: n in folders <==> n in Children(t0, root)
    ensures forall f :: f in Children(t0, root) ==> TurnDone(t0, t, root + [f]) && !IsFile(t0, root + [f])
  {
    forall f | f in Children(t0, root)
      ensures TurnDone(t0, t, root + [f]) && !IsFile(t0, root + [f])
    {
      var j :| 0 <= j < |folders| && folders[j] == f;
    }
  }

  /** A turn of the `-f` loop on the entry `folders[i]` raises when that entry
      was a regular file, and one that completes extends the loop's account
      by that entry. */
  lemma {:induction false} LoopTurn(t0: Tree, t: Tree, root: Path, folders: seq<Name>, i: nat, listing: seq<Name>, imaging: (Content, Path) -> bool)
    requires i < |folders| && NoDuplicates(folders)
    requires LoopAccount(t0, t, root, folders, i)
    requires ListingOf(t, root + [folders[i]], listing)
    ensures var s := ItemTurn(t, root + [folders[i]], listing, imaging);
      && (IsFile(t0, root + [folders[i]]) ==> s.raised.Some?)
      && (s.raised.None? ==> LoopAccount(t0, s.tree, root, folders, i + 1))
  {
    var item := root + [folders[i]];
    var s := ItemTurn(t, item, listing, imaging);
    ItemTurnAccount(t, item, listing, imaging);
    assert SubtreeSame(t0, t, item);
    assert SameAt(t0, t, item);
    if s.raised.None? {
      ReorganizeStep(t0, t, s.tree, root, folders, i);
      assert !IsFile(t0, item);
    }
  }

  /** One turn of the `-f` loop: the three `makedirs` calls, the moves over
      the listing `os.listdir` returned (`listing`), then the batch resize of
      `2K` into `1k`; the new state and the raised exception are those of
      `ItemTurn`, and a turn that completes sets `success` to True. */
  method HandleItem(fs: FileSystem, root: string, f: Name) returns (r: Outcome<bool>, ghost listing: seq<Name>)
    requires IsName(f)
    modifies fs
    ensures var item := Key(root) + [f];
      var s := ItemTurn(old(fs.entries), item, listing, fs.imaging);
      && ListingOf(old(fs.entries), item, listing)
      && fs.entries == s.tree
      && r == (if s.raised.Some? then Raised(s.raised.value) else Done(true))
  {
    var sorted;
    sorted, listing := SortItem(fs, root, f);
    if sorted.Raised? {
      return Raised(sorted.error), listing;
    }
    var itemPath := Join(root, f);
    KeyJoin(root, f);
    r := ResizeItem(fs, itemPath);
  }

  /** The batch resize that ends a turn of the `-f` loop: the item's `2K`
      folder into its `1k` folder. The new state and the raised exception are
      those of `ThenBatchResize`; when it returns, it returns True. */
  method ResizeItem(fs: FileSystem, itemPath: string) returns (r: Outcome<bool>)
    modifies fs
    ensures var s := ThenBatchResize(Trace(old(fs.entries), None), Key(itemPath), fs.imaging);
      && fs.entries == s.tree
      && r == (if s.raised.Some? then Raised(s.raised.value) else Done(true))
  {
    ghost var t, item := fs.entries, Key(itemPath);
    var images, resized := Join(itemPath, ImagesFolder), Join(itemPath, ResizedFolder);
    KeyJoin(itemPath, ImagesFolder);
    KeyJoin(itemPath, ResizedFolder);
    assert BatchOutputFolder(images, Some(resized)) == resized;
    var processed;
    r, processed := BatchResize(fs, images, Some(resized));
    BatchResizeIsTrace(t, item, fs.imaging, fs.entries, r);
  }

  /** What `batch_resize(join(item, "2K"), join(item, "1k"))` promises is
      the step `ThenBatchResize` of a trace that had not raised. */
  lemma {:induction false} BatchResizeIsTrace(t: Tree, item: Path, imaging: (Content, Path) -> bool, t': Tree, r: Outcome<bool>)
    requires var inDir, outDir := item + [ImagesFolder], item + [ResizedFolder];
      var made := MakeDirsResult(t, outDir);
      && (made.Raised? ==> r == Raised(made.error) && t' == t)
      && (made.Done? && !IsDir(made.value, inDir) ==> r == Raised(ListDirError(made.value, inDir)) && t' == made.value)
      && (made.Done? && IsDir(made.value, inDir) ==>
            r == Done(true) && t' == made.value + BatchWrites(made.value, inDir, outDir, Children(made.value, inDir), imaging))
    ensures var s := ThenBatchResize(Trace(t, None), item, imaging);
      && t' == s.tree
      && r == (if s.raised.Some? then Raised(s.raised.value) else Done(true))
  {
  }

  /** The `-f` branch of `main`: every entry of the root folder is handled as
      an item, in listing order, until an exception escapes. It raises when
      the root is not a directory (nothing changed) and when some entry of
      the root is a regular file. When it completes, nothing outside the root
      changed, every item keeps the promises of `TurnDone`, and the value
      `success` ends with is True exactly when the root had an entry: an
      empty root leaves it False and changes nothing. */
  method Reorganize(fs: FileSystem, root: string) returns (r: Outcome<bool>)
    modifies fs
    ensures !IsDir(old(fs.entries), Key(root)) ==> r.Raised? && fs.entries == old(fs.entries)
    ensures r.Done? ==> (r.value <==> Children(old(fs.entries), Key(root)) != {})
    ensures r.Done? ==> KeptOutside(old(fs.entries), fs.entries, Key(root))
    ensures r.Done? ==> forall f :: f in Children(old(fs.entries), Key(root)) ==> TurnDone(old(fs.entries), fs.entries, Key(root) + [f])
    ensures (exists f :: f in Children(old(fs.entries), Key(root)) && IsFile(old(fs.entries), Key(root) + [f])) ==> r.Raised?
    ensures IsDir(old(fs.entries), Key(root)) && Children(old(fs.entries), Key(root)) == {} ==>
      r == Done(false) && fs.entries == old(fs.entries)
  {
    var rootKey := Key(root);
    var listing := fs.ListDir(rootKey);
    if listing.Raised? {
      return Raised(listing.error);
    }
    var folders := listing.value;
    assert folders != [] ==> folders[0] in Children(fs.entries, rootKey);
    ghost var t0 := fs.entries;
    var success := false;
    for i := 0 to |folders|
      invariant success <==> i > 0
      invariant i == 0 ==> fs.entries == t0
      invariant LoopAccount(t0, fs.entries, rootKey, folders, i)
    {
      var f := folders[i];
      assert f in folders;
      ghost var before := fs.entries;
      var handled;
      ghost var itemListing;
      handled, itemListing := HandleItem(fs, root, f);
      LoopTurn(t0, before, rootKey, folders, i, itemListing, fs.imaging);
      if handled.Raised? {
        return Raised(handled.error);
      }
      success := handled.value;
    }
    LoopAccountComplete(t0, fs.entries, rootKey, folders);
    return Done(success);
  }
}
