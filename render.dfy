/**
 * The final render and the script as a whole (index.js lines 22-35, 82-85
 * and 89-122).
 *
 * The final encoder call reads the surviving clips as inputs 0 .. N-1, in
 * order, and the looped music as input N. It maps the graph's `[video_out]`
 * label for video and input N for audio. `RenderCommand` keeps the parts of
 * that command line the script varies. The fixed encoder options are left
 * as they are.
 */
module Render {
  import opened Wrappers
  import opened Text
  import opened Config
  import opened MediaNames
  import opened Normalize
  import opened Xfade

  function Quoted(s: string): string {
    "\"" + s + "\""
  }

  /** The template literal of index.js line 89 for one clip. */
  function InputArg(file: string): string {
    "-i " + Quoted(file)
  }

  function InputArgs(files: seq<string>): seq<string> {
    seq(|files|, k requires 0 <= k < |files| => InputArg(files[k]))
  }

  /** `inputList`: one `-i "<clip>"` per clip, separated by single spaces. */
  function InputList(files: seq<string>): string {
    Join(InputArgs(files), ' ')
  }

  /** The words of the input list: `-i` and then the quoted path, clip after clip. */
  function InputWords(files: seq<string>): seq<string> {
    if files == [] then [] else InputWords(files[..|files| - 1]) + ["-i", Quoted(files[|files| - 1])]
  }

  /** Word 2k is the flag and word 2k+1 names clip k, so the k-th input read is clip k. */
  lemma {:induction false} InputWordsAt(files: seq<string>)
    ensures |InputWords(files)| == 2 * |files|
    ensures forall k :: 0 <= k < |files| ==>
      InputWords(files)[2 * k] == "-i" && InputWords(files)[2 * k + 1] == Quoted(files[k])
  {
    if files != [] {
      var init := files[..|files| - 1];
      InputWordsAt(init);
      forall k | 0 <= k < |files|
        ensures InputWords(files)[2 * k] == "-i" && InputWords(files)[2 * k + 1] == Quoted(files[k])
      {
        if k < |init| {
          assert init[k] == files[k];
        }
      }
    }
  }

  /** The input list is its words joined by single spaces. */
  lemma {:induction false} InputListIsJoinedWords(files: seq<string>)
    ensures InputList(files) == Join(InputWords(files), ' ')
  {
    if |files| == 1 {
      assert InputArgs(files) == [InputArg(files[0])];
      assert InputWords(files) == ["-i", Quoted(files[0])];
    } else if |files| > 1 {
      var init := files[..|files| - 1];
      var last := files[|files| - 1];
      InputListIsJoinedWords(init);
      assert InputArgs(files) == InputArgs(init) + [InputArg(last)];
      JoinAppend(InputArgs(init), [InputArg(last)], ' ');
      InputWordsAt(init);
      JoinAppend(InputWords(init), ["-i", Quoted(last)], ' ');
      assert Join(["-i", Quoted(last)], ' ') == InputArg(last);
    }
  }

  lemma {:induction false} InputWordsHaveNoSpace(files: seq<string>)
    requires forall k :: 0 <= k < |files| ==> ' ' !in files[k]
    ensures forall j :: 0 <= j < |InputWords(files)| ==> ' ' !in InputWords(files)[j]
  {
    if files != [] {
      var init := files[..|files| - 1];
      var last := files[|files| - 1];
      InputWordsHaveNoSpace(init);
      assert ' ' !in Quoted(last) by {
        assert ' ' !in last;
      }
      assert ' ' !in "-i";
    }
  }

  /**
   * Read at its spaces, the input list of space-free paths is `-i` and the
   * quoted path for every clip, in order.
   */
  lemma InputListWords(files: seq<string>)
    requires files != []
    requires forall k :: 0 <= k < |files| ==> ' ' !in files[k]
    ensures Split(InputList(files), ' ') == InputWords(files)
  {
    InputListIsJoinedWords(files);
    InputWordsHaveNoSpace(files);
    SplitJoin(InputWords(files), ' ');
  }

  /** Clip files are named without spaces, so the input list splits cleanly. */
  lemma ClipPathHasNoSpace(i: nat)
    ensures ' ' !in ClipPath(i)
  {
    var p := ClipPath(i);
    JoinedPaths("clip_" + Decimal(i) + ".mp4");
    DigitsAreNot(Decimal(i), ' ');
    assert p == "tmp/clip_" + Decimal(i) + ".mp4";
  }

  /**
   * The final call reads the surviving clips as its inputs, in their
   * original order: input k is the clip of the k-th successful encode.
   */
  lemma RenderInputsAreSurvivingClips(n: nat, encoded: nat -> bool)
    requires Survivors(n, encoded) != []
    ensures var clips := Survivors(n, encoded);
      var words := Split(InputList(clips), ' ');
      && |words| == 2 * |clips|
      && |SurvivingIndices(n, encoded)| == |clips|
      && forall k :: 0 <= k < |clips| ==>
           words[2 * k] == "-i" && words[2 * k + 1] == Quoted(ClipPath(SurvivingIndices(n, encoded)[k]))
  {
    var clips := Survivors(n, encoded);
    SurvivorsAreClipsOfSurvivingIndices(n, encoded);
    forall k | 0 <= k < |clips| ensures ' ' !in clips[k] {
      ClipPathHasNoSpace(SurvivingIndices(n, encoded)[k]);
    }
    InputListWords(clips);
    InputWordsAt(clips);
  }

  /** The parts of the final encoder call that the script computes. */
  datatype RenderCommand = RenderCommand(
    inputList: string,
    music: string,
    filterComplex: string,
    videoMap: string,
    audioMap: string,
    output: string)

  /** The command of index.js lines 110-114 for the surviving clips and the graph. */
  function RenderCommandFor(processedFiles: seq<string>, filterComplex: string): RenderCommand {
    RenderCommand(InputList(processedFiles), MusicFile, filterComplex,
                  "[video_out]", Decimal(|processedFiles|) + ":a", OutputFile)
  }

  /**
   * The audio map names the music. It reads input N, and N is the number of
   * `-i` inputs before the music, which is the number of surviving clips.
   */
  lemma AudioMapSelectsMusic(processedFiles: seq<string>, filterComplex: string)
    ensures var c := RenderCommandFor(processedFiles, filterComplex);
      var n := |Decimal(|processedFiles|)|;
      && n < |c.audioMap|
      && c.audioMap[n..] == ":a"
      && AllDigits(c.audioMap[..n])
      && ParseDecimal(c.audioMap[..n]) == |processedFiles|
      && ParseDecimal(c.audioMap[..n]) == |InputWords(processedFiles)| / 2
      && c.music == MusicFile
  {
    var c := RenderCommandFor(processedFiles, filterComplex);
    var d := Decimal(|processedFiles|);
    assert c.audioMap[..|d|] == d;
    ParseDecimalOfDecimal(|processedFiles|);
    InputWordsAt(processedFiles);
  }

  /** The video map is the label the format step writes, so the fades are what is encoded. */
  lemma VideoMapIsGraphOutput(processedFiles: seq<string>, mediaFiles: seq<string>)
    ensures var c := RenderCommandFor(processedFiles, FilterComplex(mediaFiles, |processedFiles|));
      var fc := c.filterComplex;
      && |c.videoMap| <= |fc|
      && fc[|fc| - |c.videoMap|..] == c.videoMap
  {
    FilterComplexEndsWithVideoOut(mediaFiles, |processedFiles|);
  }

  /** Why the script stops with exit status 1. */
  datatype Abort = MissingMusic | NoMediaFiles | NothingProcessed | RenderFailed

  /**
   * The whole script. `musicExists` is the existence test of the music
   * file, `listing` the media directory in collation order, `probe` and
   * `encoded` the duration query and the per-file encode results, and
   * `renders` whether the final encoder call succeeds. It returns the clip
   * requests issued, the final command if one was built, and the reason
   * for stopping, if any.
   */
  method MakeSlideshow(musicExists: bool, listing: seq<string>, probe: string -> Option<real>,
                       encoded: nat -> bool, renders: bool)
    returns (requests: seq<ClipRequest>, command: Option<RenderCommand>, failure: Option<Abort>)
    ensures !musicExists ==> requests == [] && command == None && failure == Some(MissingMusic)
    ensures musicExists && MediaFiles(listing) == [] ==>
      requests == [] && command == None && failure == Some(NoMediaFiles)
    ensures var mediaFiles := MediaFiles(listing);
      musicExists && mediaFiles != [] ==>
        && |requests| == |mediaFiles|
        && (forall i :: 0 <= i < |mediaFiles| ==> requests[i] == RequestFor(mediaFiles, i, probe))
    ensures var mediaFiles := MediaFiles(listing);
      var clips := Survivors(|mediaFiles|, encoded);
      musicExists && mediaFiles != [] && clips == [] ==>
        command == None && failure == Some(NothingProcessed)
    ensures var mediaFiles := MediaFiles(listing);
      var clips := Survivors(|mediaFiles|, encoded);
      musicExists && mediaFiles != [] && clips != [] ==>
        && command == Some(RenderCommandFor(clips, FilterComplex(mediaFiles, |clips|)))
        && failure == (if renders then None else Some(RenderFailed))
  {
    requests, command := [], None;
    if !musicExists {
      failure := Some(MissingMusic);
      return;
    }
    var mediaFiles := MediaFiles(listing);
    if |mediaFiles| < 1 {
      failure := Some(NoMediaFiles);
      return;
    }
    var processedFiles;
    requests, processedFiles := NormalizeAll(mediaFiles, probe, encoded);
    if |processedFiles| == 0 {
      failure := Some(NothingProcessed);
      return;
    }
    var filterComplex := BuildFilterComplex(|processedFiles|, mediaFiles);
    command := Some(RenderCommandFor(processedFiles, filterComplex));
    failure := if renders then None else Some(RenderFailed);
  }
}
