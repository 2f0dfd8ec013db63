/** The three extension tests of the script: the case-insensitive allow-list
    of `batch_resize`, the case-sensitive suffix tests of the `-f` moves, and
    the case-sensitive "text after the last dot" test of `main`. */
module Extensions {
  import opened Paths

  /** The `extensions` tuple of `batch_resize` and of `main`. */
  const ImageSuffixes: seq<string> := [".png", ".jpg", ".jpeg", ".bmp", ".gif"]

  /** The scene-description files the `-f` mode moves into `USD`. */
  const UsdSuffixes: seq<string> := [".usda", ".usdc", ".usdz"]

  /** The words `main` accepts after the last dot of a single-file argument. */
  const SingleFileExtensions: seq<string> := ["png", "jpg", "jpeg", "bmp", "gif", "tiff"]

  /** `s.endswith(suffix)`. */
  predicate EndsWith(s: string, suffix: string) {
    |suffix| <= |s| && s[|s| - |suffix|..] == suffix
  }

  /** `s.endswith(suffixes)` for a tuple of suffixes. */
  predicate EndsWithAny(s: string, suffixes: seq<string>) {
    exists k :: 0 <= k < |suffixes| && EndsWith(s, suffixes[k])
  }

  /** Lower-casing of one character (ASCII letters only). */
  function LowerChar(c: char): char {
    if 'A' <= c <= 'Z' then (c as int + 32) as char else c
  }

  /** `s.lower()`, restricted to ASCII letters: the result has no upper-case
      letter left, each upper-case letter became the lower-case letter at the
      same place of the alphabet, and every other character is kept. */
  function Lower(s: string): (r: string)
    ensures |r| == |s|
    ensures forall i :: 0 <= i < |r| ==> !('A' <= r[i] <= 'Z')
    ensures forall i :: 0 <= i < |s| && 'A' <= s[i] <= 'Z' ==>
      'a' <= r[i] <= 'z' && r[i] as int - 'a' as int == s[i] as int - 'A' as int
    ensures forall i :: 0 <= i < |s| && !('A' <= s[i] <= 'Z') ==> r[i] == s[i]
  {
    seq(|s|, i requires 0 <= i < |s| => LowerChar(s[i]))
  }

  /** The entry filter of `batch_resize`: `filename.lower().endswith(extensions)`. */
  predicate IsBatchImage(name: string) {
    EndsWithAny(Lower(name), ImageSuffixes)
  }

  /** The test that moves an entry into `2K`: `file.endswith(extensions)`, case-sensitive. */
  predicate IsImageByCase(name: string) {
    EndsWithAny(name, ImageSuffixes)
  }

  /** The test that moves an entry into `USD`. */
  predicate IsUsdAsset(name: string) {
    EndsWithAny(name, UsdSuffixes)
  }

  /** `s.split('.')[-1]`: the text after the last '.', or all of `s` without one. */
  function LastDotField(s: string): (r: string)
    ensures '.' !in r
    ensures EndsWith(s, r)
    ensures |r| == |s| || s[|s| - |r| - 1] == '.'
  {
    s[LastIndex(s, '.') + 1..]
  }

  /** `main`'s single-file test: the last dot-field is one of the six words. */
  predicate IsSingleFileImage(arg: string) {
    LastDotField(arg) in SingleFileExtensions
  }

  /** The last field is determined by the three facts `LastDotField` promises. */
  lemma LastDotFieldUnique(s: string, r: string)
    requires '.' !in r && EndsWith(s, r)
    requires |r| == |s| || s[|s| - |r| - 1] == '.'
    ensures LastDotField(s) == r
  {
  }

  /** The last field of `stem.word`, for a word without a dot, is that word. */
  lemma LastDotFieldJoin(stem: string, word: string)
    requires '.' !in word
    ensures LastDotField(stem + ['.'] + word) == word
  {
    LastIndexJoin(stem, word, '.');
    assert (stem + ['.'] + word)[|stem| + 1..] == word;
  }

  /** The single-file test, stated without `split`: the argument is one of the
      six words itself, or ends with a dot followed by one of them. A bare
      "png" passes; "photo.PNG" does not. */
  lemma SingleFileImageIff(arg: string)
    ensures IsSingleFileImage(arg) <==>
      exists e :: e in SingleFileExtensions && (arg == e || EndsWith(arg, "." + e))
  {
    if IsSingleFileImage(arg) {
      SingleFileImageHasWord(arg);
    }
    if e :| e in SingleFileExtensions && (arg == e || EndsWith(arg, "." + e)) {
      WordMakesSingleFileImage(arg, e);
    }
  }

  lemma {:induction false} SingleFileImageHasWord(arg: string)
    requires IsSingleFileImage(arg)
    ensures arg == LastDotField(arg) || EndsWith(arg, "." + LastDotField(arg))
  {
    var f := LastDotField(arg);
    if |f| < |arg| {
      assert arg[|arg| - |f| - 1..] == "." + f;
    }
  }

  lemma {:induction false} WordMakesSingleFileImage(arg: string, e: string)
    requires e in SingleFileExtensions
    requires arg == e || EndsWith(arg, "." + e)
    ensures IsSingleFileImage(arg)
  {
    assert '.' !in e;
    if arg != e {
      assert arg[|arg| - |e|..] == ("." + e)[1..];
      assert arg[|arg| - |e| - 1] == ("." + e)[0];
    }
    LastDotFieldUnique(arg, e);
  }

  /** Lower-casing commutes with taking a suffix. */
  lemma LowerSuffix(s: string, i: nat)
    requires i <= |s|
    ensures Lower(s)[i..] == Lower(s[i..])
  {
  }

  /** Every entry the `-f` mode moves into `2K` is one `batch_resize` then
      selects: the allow-list is all lower case, so lower-casing keeps the match. */
  lemma {:induction false} ImageByCaseIsBatchImage(name: string)
    requires IsImageByCase(name)
    ensures IsBatchImage(name)
  {
    var k :| 0 <= k < |ImageSuffixes| && EndsWith(name, ImageSuffixes[k]);
    var e := ImageSuffixes[k];
    LowerSuffix(name, |name| - |e|);
    ImageSuffixLower(k);
    assert Lower(name)[|name| - |e|..] == e;
  }

  /** Every batch suffix is written in lower case. */
  lemma ImageSuffixLower(k: nat)
    requires k < |ImageSuffixes|
    ensures Lower(ImageSuffixes[k]) == ImageSuffixes[k]
  {
    LowerOfLowerCase(ImageSuffixes[k]);
  }

  /** The converse fails: an upper-case image name is resized by `batch_resize`
      but is never moved into `2K` by the `-f` mode, so it stays at the item root. */
  lemma UpperCaseImageStaysAtItemRoot()
    ensures IsBatchImage("PHOTO.PNG") && !IsImageByCase("PHOTO.PNG")
  {
    assert Lower("PHOTO.PNG") == "photo.png";
    assert EndsWith(Lower("PHOTO.PNG"), ImageSuffixes[0]);
    forall k | 0 <= k < |ImageSuffixes|
      ensures !EndsWith("PHOTO.PNG", ImageSuffixes[k])
    {
      var e := ImageSuffixes[k];
      assert "PHOTO.PNG"[|"PHOTO.PNG"| - 1] == 'G';
      assert |e| <= 9 && e[|e| - 1] != 'G';
    }
  }

  /** No name is both an image and a scene file, so the two `if`s of the `-f`
      loop never both move the same entry. */
  lemma {:induction false} ImageAndUsdExclusive(name: string)
    ensures !(IsImageByCase(name) && IsUsdAsset(name))
  {
    forall k, j | 0 <= k < |ImageSuffixes| && 0 <= j < |UsdSuffixes|
      ensures !(EndsWith(name, ImageSuffixes[k]) && EndsWith(name, UsdSuffixes[j]))
    {
      var e, u := ImageSuffixes[k], UsdSuffixes[j];
      assert e[|e| - 1] != u[|u| - 1];
      if EndsWith(name, e) {
        assert name[|name| - 1] == e[|e| - 1];
      }
    }
  }

  /** "tiff" is accepted by `main`'s single-file test but not by the batch allow-list. */
  lemma TiffIsSingleFileOnly()
    ensures IsSingleFileImage("scan.tiff") && !IsBatchImage("scan.tiff")
  {
    LastDotFieldJoin("scan", "tiff");
    assert "scan" + ['.'] + "tiff" == "scan.tiff";
    assert "tiff" == SingleFileExtensions[5];
    LowerOfLowerCase("scan.tiff");
    NotImageSuffix("scan.tiff");
  }

  /** A name without upper-case letters is its own lower-case form. */
  lemma LowerOfLowerCase(s: string)
    requires forall i :: 0 <= i < |s| ==> !('A' <= s[i] <= 'Z')
    ensures Lower(s) == s
  {
  }

  /** `scan.tiff` ends with none of the batch suffixes. */
  lemma NotImageSuffix(name: string)
    requires name == "scan.tiff"
    ensures !EndsWithAny(name, ImageSuffixes)
  {
    forall k | 0 <= k < |ImageSuffixes|
      ensures !EndsWith(name, ImageSuffixes[k])
    {
      var e := ImageSuffixes[k];
      assert name[4] == '.' && name[5] == 't';
      assert e[0] == '.' && (|e| == 4 || e[1] != 't');
    }
  }

  /** A name with an image or scene suffix has at least four characters. */
  lemma {:induction false} SuffixedNameLength(name: string)
    requires IsImageByCase(name) || IsUsdAsset(name)
    ensures |name| >= 4
  {
    var suffixes := if IsImageByCase(name) then ImageSuffixes else UsdSuffixes;
    assert forall k :: 0 <= k < |suffixes| ==> |suffixes[k]| >= 4;
    assert EndsWithAny(name, suffixes);
  }

}
