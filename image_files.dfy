// The directory filter of the image cropper: which names of a directory
// listing are treated as images, and in which order they are visited.

module ImageFiles {

  /** The suffixes accepted as image files, compared after lower-casing. */
  const SupportedFormats: seq<string> := [".png", ".jpg", ".jpeg", ".bmp", ".gif", ".tiff"]

  /** Lower-cases one character (ASCII letters only). */
  function LowerChar(c: char): (d: char)
    ensures 'A' <= c <= 'Z' ==> 'a' <= d <= 'z' && d as int - c as int == 32
    ensures !('A' <= c <= 'Z') ==> d == c
  {
    if 'A' <= c <= 'Z' then (c as int + 32) as char else c
  }

  /** The lower-cased form of a file name, character by character. */
  function Lower(s: string): (t: string)
    ensures |t| == |s|
    ensures forall i :: 0 <= i < |s| ==> t[i] == LowerChar(s[i])
  {
    seq(|s|, i requires 0 <= i < |s| => LowerChar(s[i]))
  }

  predicate EndsWith(s: string, suffix: string) {
    |suffix| <= |s| && s[|s| - |suffix|..] == suffix
  }

  /** `s` ends with at least one of `suffixes`, as a tuple argument to `endswith` does. */
  predicate EndsWithAny(s: string, suffixes: seq<string>): (b: bool)
    ensures b <==> exists k :: 0 <= k < |suffixes| && EndsWith(s, suffixes[k])
  {
    if suffixes == [] then false
    else
      assert forall k :: 0 < k < |suffixes| ==> suffixes[k] == suffixes[1..][k - 1];
      EndsWith(s, suffixes[0]) || EndsWithAny(s, suffixes[1..])
  }

  /** A name is kept exactly when its lower-cased form ends with one of the supported suffixes. */
  predicate IsSupported(name: string): (b: bool)
    ensures b <==> exists k :: 0 <= k < |SupportedFormats| && EndsWith(Lower(name), SupportedFormats[k])
  {
    EndsWithAny(Lower(name), SupportedFormats)
  }

  /**
   * The image files of a directory listing: the supported names, in listing
   * order, each as often as the listing holds it.
   */
  function GetImageFiles(listing: seq<string>): (files: seq<string>)
    ensures |files| <= |listing|
    ensures forall f :: f in files <==> f in listing && IsSupported(f)
  {
    if listing == [] then []
    else if IsSupported(listing[0]) then [listing[0]] + GetImageFiles(listing[1..])
    else GetImageFiles(listing[1..])
  }

  /** `sub` is `s` with some elements dropped and the rest kept in order. */
  ghost predicate IsSubsequence(sub: seq<string>, s: seq<string>)
    decreases |s|
  {
    if sub == [] then true
    else if s == [] then false
    else (sub[0] == s[0] && IsSubsequence(sub[1..], s[1..])) || IsSubsequence(sub, s[1..])
  }

  /** The kept names appear in the order the listing gives them. */
  lemma {:induction false} GetImageFilesKeepsOrder(listing: seq<string>)
    ensures IsSubsequence(GetImageFiles(listing), listing)
  {
    if listing != [] {
      GetImageFilesKeepsOrder(listing[1..]);
    }
  }

  /** Every supported name is kept as many times as the listing holds it, every other name never. */
  lemma {:induction false} GetImageFilesCount(listing: seq<string>, name: string)
    ensures multiset(GetImageFiles(listing))[name] ==
            if IsSupported(name) then multiset(listing)[name] else 0
  {
    if listing != [] {
      GetImageFilesCount(listing[1..], name);
      assert listing == [listing[0]] + listing[1..];
    }
  }

  /** Filtering an already filtered list changes nothing. */
  lemma {:induction false} GetImageFilesIdempotent(listing: seq<string>)
    ensures GetImageFiles(GetImageFiles(listing)) == GetImageFiles(listing)
  {
    if listing != [] {
      GetImageFilesIdempotent(listing[1..]);
    }
  }

  /** An upper-case suffix is accepted. */
  lemma UpperCaseSuffixAccepted()
    ensures IsSupported("Photo.JPEG")
  {
    assert Lower("Photo.JPEG") == "photo.jpeg";
    assert EndsWith("photo.jpeg", ".jpeg");
  }

  /** A name with another extension is refused. */
  lemma TextFileRefused()
    ensures !IsSupported("notes.txt")
  {
    assert Lower("notes.txt") == "notes.txt";
    assert "notes.txt"[5..] == ".txt";
    assert "notes.txt"[4..] == "s.txt";
  }

  /** A truncated extension is refused: ".tif" is not ".tiff". */
  lemma TruncatedSuffixRefused()
    ensures !IsSupported("scan.tif")
  {
    assert Lower("scan.tif") == "scan.tif";
    assert "scan.tif"[4..] == ".tif";
    assert "scan.tif"[3..] == "n.tif";
  }

  /** A directory with two images and one text file yields the two images, in listing order. */
  lemma TwoImagesAndAText()
    ensures GetImageFiles(["a.png", "notes.txt", "B.JPG"]) == ["a.png", "B.JPG"]
  {
    assert Lower("a.png") == "a.png";
    assert EndsWith("a.png", ".png");
    assert Lower("B.JPG") == "b.jpg";
    assert EndsWith("b.jpg", ".jpg");
    TextFileRefused();
  }
}
