/** The part of the operating system the script touches, as an abstract
    directory map: `os.listdir`, `os.makedirs(..., exist_ok=True)` and
    `shutil.move`. Each primitive is a function from the old map to an outcome,
    and a method of `FileSystem` that applies it in place. */
module FileSystem {
  import opened Paths

  /** What a file holds: an image as it was found, or the output of a resize
      of some content to a width and a height. */
  datatype Content = Original(id: nat) | Resized(source: Content, width: nat, height: nat)

  datatype Node = File(content: Content) | Dir

  /** Every existing path with what is there. */
  type Tree = map<Path, Node>

  /** The exceptions the primitives raise; none of them is caught by the script. */
  datatype OsError = NotFound | NotADirectory | FileExists | DestinationExists | MoveIntoItself

  datatype Outcome<+T> = Done(value: T) | Raised(error: OsError)

  /** A directory at `p`. The empty path (the string `""`) names nothing the
      operating system can open or list, whatever the map holds there. */
  predicate IsDir(t: Tree, p: Path) {
    p != [] && p in t && t[p].Dir?
  }

  /** A regular file at `p`; never at the empty path. */
  predicate IsFile(t: Tree, p: Path) {
    p != [] && p in t && t[p].File?
  }

  /** `p` and `t'` agree with `t` at `q`: same presence, same node. */
  predicate SameAt(t: Tree, t': Tree, q: Path) {
    (q in t <==> q in t') && (q in t ==> t[q] == t'[q])
  }

  /** The directory that holds `q` exists; a one-component path lives in the
      working directory (or is the file-system root), which always exists. */
  predicate ParentIsDir(t: Tree, q: Path) {
    |q| == 1 || (|q| > 1 && IsDir(t, q[..|q| - 1]))
  }

  predicate NoDuplicates(names: seq<Name>) {
    forall i, j :: 0 <= i < j < |names| ==> names[i] != names[j]
  }

  /** The names of the entries directly inside `p`. A path whose last
      component is not a name is not one the operating system could hold, and
      is never listed. */
  function Children(t: Tree, p: Path): (names: set<Name>)
    ensures forall n :: n in names <==> IsName(n) && p + [n] in t
  {
    var names := set q | q in t && |q| == |p| + 1 && p <= q && IsName(q[|p|]) :: q[|p|];
    forall n | IsName(n) && p + [n] in t
      ensures n in names
    {
      var q := p + [n];
      assert |q| == |p| + 1 && p <= q && q[|p|] == n;
    }
    forall n | n in names
      ensures p + [n] in t
    {
      var q :| q in t && |q| == |p| + 1 && p <= q && q[|p|] == n;
      assert q == p + [n];
    }
    names
  }

  /** The non-empty prefixes of `p`: the directories `os.makedirs(p)` ensures. */
  function Prefixes(p: Path): set<Path> {
    set i | 1 <= i <= |p| :: p[..i]
  }

  /** `os.makedirs(p, exist_ok=True)`: creates every missing directory on the
      way to `p`. It raises on the empty path, when a proper prefix is a file
      (NotADirectoryError) and when `p` itself is a file (FileExistsError). */
  function MakeDirsResult(t: Tree, p: Path): (r: Outcome<Tree>)
    ensures r.Raised? <==> p == [] || exists i :: 1 <= i <= |p| && IsFile(t, p[..i])
    ensures r.Done? ==> forall i :: 1 <= i <= |p| ==> IsDir(r.value, p[..i])
    ensures r.Done? ==> forall q :: q in t ==> q in r.value && r.value[q] == t[q]
    ensures r.Done? ==> forall q :: q in r.value && q !in t ==> q <= p && |q| > 0 && r.value[q] == Dir
  {
    if p == [] then Raised(NotFound)
    else if exists i :: 1 <= i < |p| && IsFile(t, p[..i]) then Raised(NotADirectory)
    else if IsFile(t, p) then
      assert p[..|p|] == p;
      Raised(FileExists)
    else
      var t' := t + map q | q in Prefixes(p) && q !in t :: Dir;
      assert forall i :: 1 <= i <= |p| ==> p[..i] in Prefixes(p);
      assert !exists i :: 1 <= i <= |p| && IsFile(t, p[..i]) by {
        forall i | 1 <= i <= |p| ensures !IsFile(t, p[..i]) {
          if i == |p| { assert p[..i] == p; }
        }
      }
      Done(t')
  }

  /** Moves the subtree at `src` to `dst`: whatever was at or below `dst`
      is replaced, every path below `src` reappears below `dst`. */
  function Relocate(t: Tree, src: Path, dst: Path): (t': Tree)
    ensures forall q :: !(src <= q) && !(dst <= q) ==> SameAt(t, t', q)
    ensures forall q :: src <= q && q in t ==> dst + q[|src|..] in t' && t'[dst + q[|src|..]] == t[q]
    ensures forall q :: dst <= q && q in t' ==> src + q[|dst|..] in t && t[src + q[|dst|..]] == t'[q]
    ensures !(dst <= src) && !(src <= dst) ==> forall q :: src <= q ==> q !in t'
  {
    var kept := map q | q in t && !(src <= q) && !(dst <= q) :: t[q];
    var moved := MovedPart(t, src, dst);
    forall q | q in moved && src <= q
      ensures dst <= src || src <= dst
    {
      PrefixesOrdered(src, dst, q);
    }
    kept + moved
  }

  /** The entries below `src`, re-rooted at `dst`. */
  function MovedPart(t: Tree, src: Path, dst: Path): (m: Tree)
    ensures forall k :: k in m ==> dst <= k && src + k[|dst|..] in t && m[k] == t[src + k[|dst|..]]
    ensures forall q :: src <= q && q in t ==> dst + q[|src|..] in m && m[dst + q[|src|..]] == t[q]
  {
    var targets := set q | q in t && src <= q :: dst + q[|src|..];
    var m := map k | k in targets && |dst| <= |k| && src + k[|dst|..] in t :: t[src + k[|dst|..]];
    forall q | src <= q && q in t
      ensures dst + q[|src|..] in m && m[dst + q[|src|..]] == t[q]
    {
      var k := dst + q[|src|..];
      assert k in targets && k[|dst|..] == q[|src|..];
      assert src + k[|dst|..] == q;
    }
    m
  }

  /** Two prefixes of the same path are ordered by length. */
  lemma PrefixesOrdered(a: Path, b: Path, q: Path)
    requires a <= q && b <= q
    ensures a <= b || b <= a
  {
    if |a| <= |b| {
      assert a == q[..|a|] == b[..|a|];
    } else {
      assert b == q[..|b|] == a[..|b|];
    }
  }

  /** The exception `os.listdir(p)` raises when `p` is not a directory:
      FileNotFoundError for a missing path (or `""`), NotADirectoryError for
      a file. */
  function ListDirError(t: Tree, p: Path): OsError {
    if p == [] || p !in t then NotFound else NotADirectory
  }

  /** `shutil.move(src, dst)`: into `dst` when `dst` is a directory, onto `dst`
      otherwise; a file at the target is replaced, a directory is moved with
      everything below it. Raises when the source is missing, when the target
      inside a directory already exists, when a directory would move into
      itself, when the target's directory is missing, and when a directory
      would replace a file. A directory moved onto itself is renamed in
      place, which changes nothing. The missing-directory error is that of a
      file source; `shutil.move` would copy a directory source there and
      create the missing parents, but the script's moves always go into a
      folder it has just created, so that case never arises. */
  function MoveResult(t: Tree, src: Path, dst: Path): (r: Outcome<Tree>)
    ensures src == [] || src !in t ==> r == Raised(NotFound)
    ensures src != [] && IsDir(t, dst) && src == dst ==> r == Done(t)
    ensures r.Done? && !(IsDir(t, dst) && src == dst) ==>
      var target := MoveTarget(t, src, dst);
      && src in t
      && ParentIsDir(t, target)
      && (IsDir(t, dst) ==> target !in t)
      && (src <= target ==> t[src].File? && src == target)
      && !(t[src].Dir? && IsFile(t, target))
      && target in r.value && r.value[target] == t[src]
      && (!(target <= src) ==> src !in r.value)
      && forall q :: !(src <= q) && !(target <= q) ==> SameAt(t, r.value, q)
  {
    if src == [] || src !in t then Raised(NotFound)
    else if IsDir(t, dst) && src == dst then Done(t)
    else
      var target := MoveTarget(t, src, dst);
      if IsDir(t, dst) && target in t then Raised(DestinationExists)
      else if src <= target && (t[src].Dir? || src != target) then Raised(MoveIntoItself)
      else if !ParentIsDir(t, target) then Raised(NotFound)
      else if t[src].Dir? && IsFile(t, target) then Raised(NotADirectory)
      else
        var t' := Relocate(t, src, target);
        assert target + src[|src|..] == target;
        Done(t')
  }

  /** Where `shutil.move(src, dst)` puts `src`: inside `dst` under its own
      name when `dst` is a directory, else at `dst`. */
  function MoveTarget(t: Tree, src: Path, dst: Path): Path
    requires src != []
  {
    if IsDir(t, dst) then dst + [src[|src| - 1]] else dst
  }

  /** A move of a file onto a path that is not a directory puts that file
      there and removes it from where it was; nothing else changes apart from
      what was below the target. */
  lemma MoveFile(t: Tree, src: Path, dst: Path)
    requires IsFile(t, src) && !(dst in t && t[dst].Dir?) && ParentIsDir(t, dst)
    requires !(src <= dst) && !(dst <= src)
    ensures MoveResult(t, src, dst).Done?
    ensures var t' := MoveResult(t, src, dst).value;
      dst in t' && t'[dst] == t[src] && src !in t'
  {
    assert !IsDir(t, dst) && MoveTarget(t, src, dst) == dst;
    assert MoveResult(t, src, dst) == Done(Relocate(t, src, dst));
  }

  /** The whole file system as the script sees it, updated in place by the
      primitives; `imaging` says whether the imaging library decodes a content,
      resizes it and encodes it for a given output path. */
  class FileSystem {
    var entries: Tree
    const imaging: (Content, Path) -> bool

    constructor (entries0: Tree, imaging0: (Content, Path) -> bool)
      ensures entries == entries0 && imaging == imaging0
    {
      entries := entries0;
      imaging := imaging0;
    }

    /** `os.makedirs(p, exist_ok=True)`. */
    method MakeDirs(p: Path) returns (r: Outcome<()>)
      modifies this
      ensures var m := MakeDirsResult(old(entries), p);
        && r == (if m.Raised? then Raised(m.error) else Done(()))
        && entries == (if m.Raised? then old(entries) else m.value)
    {
      var m := MakeDirsResult(entries, p);
      if m.Raised? {
        return Raised(m.error);
      }
      entries := m.value;
      return Done(());
    }

    /** `shutil.move(src, dst)`. */
    method Move(src: Path, dst: Path) returns (r: Outcome<()>)
      modifies this
      ensures var m := MoveResult(old(entries), src, dst);
        && r == (if m.Raised? then Raised(m.error) else Done(()))
        && entries == (if m.Raised? then old(entries) else m.value)
    {
      var m := MoveResult(entries, src, dst);
      if m.Raised? {
        return Raised(m.error);
      }
      entries := m.value;
      return Done(());
    }

    /** `os.listdir(p)`: every name directly inside `p` exactly once, in an
        order the model does not fix. Raises unless `p` is a directory. */
    method ListDir(p: Path) returns (r: Outcome<seq<Name>>)
      ensures r.Raised? <==> !IsDir(entries, p)
      ensures r.Raised? ==> r.error == ListDirError(entries, p)
      ensures r.Done? ==> NoDuplicates(r.value)
      ensures r.Done? ==> forall n :: n in r.value <==> n in Children(entries, p)
    {
      if p == [] || p !in entries {
        return Raised(NotFound);
      }
      if entries[p].File? {
        return Raised(NotADirectory);
      }
      var rest := Children(entries, p);
      var names: seq<Name> := [];
      while rest != {}
        invariant NoDuplicates(names)
        invariant forall n :: n in names ==> n !in rest
        invariant forall n :: n in names || n in rest <==> n in Children(entries, p)
        decreases |rest|
      {
        var n :| n in rest;
        names := names + [n];
        rest := rest - {n};
      }
      return Done(names);
    }
  }
}
