/**
 * Which directory entries are media, and which media are images.
 *
 * The script tests names with the case-insensitive patterns
 * `\.(jpg|jpeg|png|mp4|mov|avi|mkv)$` (media) and `\.(jpg|jpeg|png)$`
 * (image). `EndsWithExtension` is that pattern read literally; `IsMedia` and
 * `IsImage` decide it from the text after the last dot, and the lemmas show
 * the two readings agree.
 */
module MediaNames {
  import opened Wrappers

  datatype MediaKind = Image | Video

  const ImageExtensions: set<string> := {"jpg", "jpeg", "png"}
  const VideoExtensions: set<string> := {"mp4", "mov", "avi", "mkv"}
  const MediaExtensions: set<string> := ImageExtensions + VideoExtensions

  /** Case folding of a non-unicode `/i` pattern: only ASCII letters fold. */
  function LowerAscii(c: char): char {
    if 'A' <= c <= 'Z' then (c as int + 32) as char else c
  }

  function Lower(s: string): (r: string)
    ensures |r| == |s|
  {
    seq(|s|, k requires 0 <= k < |s| => LowerAscii(s[k]))
  }

  /** The pattern `\.ext$` with the `i` flag: a dot, then `ext` up to any letter case, at the end. */
  predicate EndsWithExtension(name: string, ext: string) {
    |ext| < |name| && name[|name| - |ext| - 1] == '.' && Lower(name[|name| - |ext|..]) == ext
  }

  /** The text after the last dot of `name`, or None when it has no dot. */
  function ExtensionOf(name: string): Option<string> {
    if name == [] then None
    else if name[|name| - 1] == '.' then Some([])
    else match ExtensionOf(name[..|name| - 1])
      case None => None
      case Some(t) => Some(t + [name[|name| - 1]])
  }

  /** `ExtensionOf` finds the last dot: what it returns follows a dot, ends the name and holds no dot. */
  lemma {:induction false} ExtensionOfIsAfterLastDot(name: string)
    ensures ExtensionOf(name).None? ==> '.' !in name
    ensures var r := ExtensionOf(name); r.Some? ==>
      && |r.value| < |name|
      && name[|name| - |r.value| - 1] == '.'
      && name[|name| - |r.value|..] == r.value
      && '.' !in r.value
  {
    if name != [] && name[|name| - 1] != '.' {
      var init := name[..|name| - 1];
      ExtensionOfIsAfterLastDot(init);
      assert name == init + [name[|name| - 1]];
    }
  }

  /** The media filter of the directory listing. */
  predicate IsMedia(name: string) {
    match ExtensionOf(name)
    case None => false
    case Some(ext) => Lower(ext) in MediaExtensions
  }

  /** The image test applied to each media name. */
  predicate IsImage(name: string) {
    match ExtensionOf(name)
    case None => false
    case Some(ext) => Lower(ext) in ImageExtensions
  }

  function KindOf(name: string): MediaKind {
    if IsImage(name) then Image else Video
  }

  lemma LowerKeepsDots(s: string)
    ensures forall k :: 0 <= k < |s| ==> (Lower(s)[k] == '.' <==> s[k] == '.')
  {
  }

  /**
   * For a dot-free extension, the literal pattern holds exactly when the
   * text after the last dot folds to that extension.
   */
  lemma {:induction false} PatternIsLastDotExtension(name: string, e: string)
    requires '.' !in e
    ensures EndsWithExtension(name, e) <==> (ExtensionOf(name).Some? && Lower(ExtensionOf(name).value) == e)
  {
    ExtensionOfIsAfterLastDot(name);
    if EndsWithExtension(name, e) {
      var t := name[|name| - |e|..];
      LowerKeepsDots(t);
      assert '.' !in t by {
        forall k | 0 <= k < |t| ensures t[k] != '.' {
          assert Lower(t)[k] == e[k];
        }
      }
      var p := |name| - |e| - 1;
      assert name[p] == '.';
      ExtensionOfIsAfterLastDot(name);
      var r := ExtensionOf(name);
      assert r.Some?;
      var u := r.value;
      assert |u| == |t|;
    }
  }

  /** `IsMedia` decides the media pattern: some media extension ends the name, in any letter case. */
  lemma IsMediaMatchesPattern(name: string)
    ensures IsMedia(name) <==> exists e :: e in MediaExtensions && EndsWithExtension(name, e)
  {
    forall e | e in MediaExtensions {
      PatternIsLastDotExtension(name, e);
    }
  }

  /** `IsImage` decides the image pattern: some image extension ends the name, in any letter case. */
  lemma IsImageMatchesPattern(name: string)
    ensures IsImage(name) <==> exists e :: e in ImageExtensions && EndsWithExtension(name, e)
  {
    forall e | e in ImageExtensions {
      PatternIsLastDotExtension(name, e);
    }
  }

  /** Every image passes the media filter; a media name that is no image ends in a video extension. */
  lemma ImageIsMedia(name: string)
    ensures IsImage(name) ==> IsMedia(name)
    ensures IsMedia(name) && !IsImage(name) <==> exists e :: e in VideoExtensions && EndsWithExtension(name, e)
  {
    forall e | e in VideoExtensions {
      PatternIsLastDotExtension(name, e);
    }
    if IsMedia(name) && !IsImage(name) {
      var e := Lower(ExtensionOf(name).value);
      assert e in VideoExtensions;
      assert EndsWithExtension(name, e);
    }
  }

  lemma LowerIdempotent(s: string)
    ensures Lower(Lower(s)) == Lower(s)
  {
  }

  /** Letter case never matters to the pattern. */
  lemma {:induction false} PatternIgnoresCase(name: string, e: string)
    ensures EndsWithExtension(Lower(name), e) <==> EndsWithExtension(name, e)
  {
    var ln := Lower(name);
    if |e| < |name| {
      var q := |name| - |e|;
      assert ln[q..] == Lower(name[q..]);
      LowerIdempotent(name[q..]);
      LowerKeepsDots(name);
    }
  }

  /** Lower-casing a name changes neither test. */
  lemma TestsIgnoreCase(name: string)
    ensures IsMedia(Lower(name)) == IsMedia(name)
    ensures IsImage(Lower(name)) == IsImage(name)
  {
    forall e {
      PatternIgnoresCase(name, e);
    }
    IsMediaMatchesPattern(name);
    IsMediaMatchesPattern(Lower(name));
    IsImageMatchesPattern(name);
    IsImageMatchesPattern(Lower(name));
  }

  /** The entries the script keeps from the listing, in listing order. */
  function MediaFiles(listing: seq<string>): (r: seq<string>)
    ensures |r| <= |listing|
    ensures forall k :: 0 <= k < |r| ==> IsMedia(r[k])
    ensures forall name :: name in listing && IsMedia(name) ==> name in r
    ensures forall name :: name in r ==> name in listing
  {
    if listing == [] then []
    else (if IsMedia(listing[0]) then [listing[0]] else []) + MediaFiles(listing[1..])
  }

  /** A single entry is kept exactly when it is a media name. */
  lemma MediaFilesOne(name: string)
    ensures MediaFiles([name]) == if IsMedia(name) then [name] else []
  {
    assert [name][1..] == [];
  }

  /**
   * The filter works entry by entry: filtering two listings one after the
   * other gives the two filtered lists one after the other. With
   * `MediaFilesOne` this fixes the order and the number of copies of every
   * kept name.
   */
  lemma {:induction false} MediaFilesAppend(a: seq<string>, b: seq<string>)
    ensures MediaFiles(a + b) == MediaFiles(a) + MediaFiles(b)
  {
    if a == [] {
      assert a + b == b;
    } else {
      assert (a + b)[0] == a[0];
      assert (a + b)[1..] == a[1..] + b;
      MediaFilesAppend(a[1..], b);
    }
  }

  lemma MediaFilesEmpty(listing: seq<string>)
    ensures MediaFiles(listing) == [] <==> forall k :: 0 <= k < |listing| ==> !IsMedia(listing[k])
  {
    if MediaFiles(listing) == [] {
      forall k | 0 <= k < |listing| ensures !IsMedia(listing[k]) {
        assert listing[k] in listing;
      }
    }
  }

  /** A name with no dot has no extension. */
  lemma {:induction false} ExtensionOfDotless(name: string)
    requires '.' !in name
    ensures ExtensionOf(name) == None
  {
    if name != [] {
      var init := name[..|name| - 1];
      assert forall c :: c in init ==> c in name;
      ExtensionOfDotless(init);
    }
  }

  /** The extension of `stem.ext` is `ext` whenever `ext` holds no dot, whatever the stem. */
  lemma {:induction false} ExtensionOfDotted(stem: string, ext: string)
    requires '.' !in ext
    ensures ExtensionOf(stem + "." + ext) == Some(ext)
  {
    if ext != [] {
      var init := ext[..|ext| - 1];
      assert forall c :: c in init ==> c in ext;
      ExtensionOfDotted(stem, init);
      assert (stem + "." + ext)[..|stem + "." + ext| - 1] == stem + "." + init;
      assert init + [ext[|ext| - 1]] == ext;
    }
  }

  /** Letter case is ignored: upper- and mixed-case image extensions are images. */
  lemma SampleImageNames()
    ensures IsImage("photo.JPG") && IsMedia("photo.JPG")
    ensures IsImage("scan.Jpeg")
  {
    ExtensionOfDotted("photo", "JPG");
    assert "photo" + "." + "JPG" == "photo.JPG";
    assert Lower("JPG") == "jpg";
    ExtensionOfDotted("scan", "Jpeg");
    assert "scan" + "." + "Jpeg" == "scan.Jpeg";
    assert Lower("Jpeg") == "jpeg";
  }

  /** Only the last extension counts. */
  lemma SampleVideoNames()
    ensures IsMedia("clip.MkV") && !IsImage("clip.MkV")
    ensures IsMedia("a.png.mp4") && !IsImage("a.png.mp4")
  {
    ExtensionOfDotted("clip", "MkV");
    assert "clip" + "." + "MkV" == "clip.MkV";
    assert Lower("MkV") == "mkv";
    ExtensionOfDotted("a.png", "mp4");
    assert "a.png" + "." + "mp4" == "a.png.mp4";
    assert Lower("mp4") == "mp4";
  }

  /** A bare extension without a dot, a foreign extension, and a media extension that is not last. */
  lemma SampleOtherNames()
    ensures !IsMedia("jpg") && !IsMedia("notes.txt") && !IsMedia("movie.mp4.bak")
  {
    ExtensionOfDotless("jpg");
    ExtensionOfDotted("notes", "txt");
    assert "notes" + "." + "txt" == "notes.txt";
    assert Lower("txt") == "txt";
    ExtensionOfDotted("movie.mp4", "bak");
    assert "movie.mp4" + "." + "bak" == "movie.mp4.bak";
    assert Lower("bak") == "bak";
  }
}
