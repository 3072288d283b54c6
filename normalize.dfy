/**
 * The per-file normalisation pass (index.js lines 38-80): every media file,
 * in order, is turned into one encoder request for `tmp/clip_<index>.mp4`,
 * and the clip path is kept only when that encode succeeds.
 *
 * The external tools are parameters: `probe` is the duration query (None when
 * it fails) and `encoded(i)` is whether the encode of the i-th media file
 * succeeded.
 */
module Normalize {
  import opened Wrappers
  import opened Text
  import opened Config
  import opened MediaNames

  /** One encoder invocation: source, target clip, the kind that chose its options, and its `-t` length. */
  datatype ClipRequest = ClipRequest(source: string, target: string, kind: MediaKind, seconds: real)

  /** `path.join(MEDIA_DIR, file)` for a plain file name. */
  function SourcePath(file: string): string {
    PathJoin(MediaDir, file)
  }

  /** `path.join(TMP_DIR, 'clip_' + index + '.mp4')`. */
  function ClipPath(index: nat): string {
    PathJoin(TmpDir, "clip_" + Decimal(index) + ".mp4")
  }

  /** Different media positions never share a clip file. */
  lemma ClipPathInjective(i: nat, j: nat)
    requires ClipPath(i) == ClipPath(j)
    ensures i == j
  {
    JoinedPaths("clip_" + Decimal(i) + ".mp4");
    JoinedPaths("clip_" + Decimal(j) + ".mp4");
    var a, b := ClipPath(i), ClipPath(j);
    assert a[9..|a| - 4] == Decimal(i);
    assert b[9..|b| - 4] == Decimal(j);
    DecimalInjective(i, j);
  }

  /** `getVideoDuration`: the probed length, or the cut length when probing fails. */
  function ProbedSeconds(probed: Option<real>): (d: real)
    ensures probed.None? ==> d == CutVideoDuration as real
    ensures probed.Some? ==> d == probed.value
  {
    probed.GetOr(CutVideoDuration as real)
  }

  /**
   * The `-t` length of a clip: an image is held for its display time plus
   * the transition; a video keeps at most the cut length of its source.
   */
  function ClipSeconds(kind: MediaKind, probed: Option<real>): (d: real)
    ensures kind == Image ==> d == (ImageDuration + TransitionDuration) as real
    ensures kind == Video ==> d <= CutVideoDuration as real
    ensures kind == Video && probed.None? ==> d == CutVideoDuration as real
    ensures kind == Video && probed.Some? ==> (d == probed.value || d == CutVideoDuration as real)
    ensures kind == Video && probed.Some? && probed.value <= CutVideoDuration as real ==> d == probed.value
  {
    match kind
    case Image => (ImageDuration + TransitionDuration) as real
    case Video =>
      var s := ProbedSeconds(probed);
      if s < CutVideoDuration as real then s else CutVideoDuration as real
  }

  /** The request issued for the media file at `index`. */
  function RequestFor(mediaFiles: seq<string>, index: nat, probe: string -> Option<real>): ClipRequest
    requires index < |mediaFiles|
  {
    var file := mediaFiles[index];
    var kind := KindOf(file);
    ClipRequest(SourcePath(file), ClipPath(index), kind,
                ClipSeconds(kind, if kind == Image then None else probe(SourcePath(file))))
  }

  /** The original positions among the first `n` whose encode succeeded, in increasing order. */
  function SurvivingIndices(n: nat, encoded: nat -> bool): (r: seq<nat>)
    ensures |r| <= n
    ensures forall a, b :: 0 <= a < b < |r| ==> r[a] < r[b]
    ensures forall i: nat :: i in r <==> i < n && encoded(i)
  {
    if n == 0 then []
    else
      var earlier := SurvivingIndices(n - 1, encoded);
      assert forall a :: 0 <= a < |earlier| ==> earlier[a] < n - 1 by {
        forall a | 0 <= a < |earlier| ensures earlier[a] < n - 1 {
          assert earlier[a] in earlier;
        }
      }
      earlier + (if encoded(n - 1) then [n - 1] else [])
  }

  /** The list `processedFiles` holds after the first `n` media files. */
  function Survivors(n: nat, encoded: nat -> bool): seq<string> {
    if n == 0 then []
    else Survivors(n - 1, encoded) + (if encoded(n - 1) then [ClipPath(n - 1)] else [])
  }

  /** The surviving clips are the clip paths of the surviving indices, in the same order. */
  lemma {:induction false} SurvivorsAreClipsOfSurvivingIndices(n: nat, encoded: nat -> bool)
    ensures |Survivors(n, encoded)| == |SurvivingIndices(n, encoded)|
    ensures forall k :: 0 <= k < |Survivors(n, encoded)| ==>
      Survivors(n, encoded)[k] == ClipPath(SurvivingIndices(n, encoded)[k])
  {
    if n > 0 {
      SurvivorsAreClipsOfSurvivingIndices(n - 1, encoded);
    }
  }

  /** Every entry of `processedFiles` is the clip of a successful encode. */
  lemma SurvivorsComeFromSuccesses(n: nat, encoded: nat -> bool)
    ensures |Survivors(n, encoded)| <= n
    ensures forall clip :: clip in Survivors(n, encoded) ==>
      exists i: nat :: i < n && encoded(i) && clip == ClipPath(i)
  {
    SurvivorsAreClipsOfSurvivingIndices(n, encoded);
    var s, idx := Survivors(n, encoded), SurvivingIndices(n, encoded);
    forall clip | clip in s
      ensures exists i: nat :: i < n && encoded(i) && clip == ClipPath(i)
    {
      var k :| 0 <= k < |s| && s[k] == clip;
      var i := idx[k];
      assert i in idx;
      assert i < n && encoded(i) && clip == ClipPath(i);
    }
  }

  /** Every successful encode contributes its clip to `processedFiles`. */
  lemma EverySuccessSurvives(n: nat, encoded: nat -> bool)
    ensures forall i: nat :: i < n && encoded(i) ==> ClipPath(i) in Survivors(n, encoded)
  {
    SurvivorsAreClipsOfSurvivingIndices(n, encoded);
    var s, idx := Survivors(n, encoded), SurvivingIndices(n, encoded);
    forall i: nat | i < n && encoded(i) ensures ClipPath(i) in s {
      var k :| 0 <= k < |idx| && idx[k] == i;
      assert s[k] == ClipPath(i);
    }
  }

  /** No clip appears twice in `processedFiles`. */
  lemma SurvivorsAreDistinct(n: nat, encoded: nat -> bool)
    ensures forall a, b :: 0 <= a < b < |Survivors(n, encoded)| ==>
      Survivors(n, encoded)[a] != Survivors(n, encoded)[b]
  {
    SurvivorsAreClipsOfSurvivingIndices(n, encoded);
    var s, idx := Survivors(n, encoded), SurvivingIndices(n, encoded);
    forall a, b | 0 <= a < b < |s| ensures s[a] != s[b] {
      if s[a] == s[b] {
        ClipPathInjective(idx[a], idx[b]);
      }
    }
  }

  /** Nothing survives exactly when every encode failed. */
  lemma {:induction false} SurvivorsEmptyIffAllFailed(n: nat, encoded: nat -> bool)
    ensures Survivors(n, encoded) == [] <==> forall i: nat :: i < n ==> !encoded(i)
  {
    if n > 0 {
      SurvivorsEmptyIffAllFailed(n - 1, encoded);
    }
  }

  /** Five files, the third fails: four clips remain and the failed one is skipped. */
  lemma OneFailureOfFive()
    ensures Survivors(5, i => i != 2) == [ClipPath(0), ClipPath(1), ClipPath(3), ClipPath(4)]
  {
  }

  /**
   * The loop of index.js lines 54-80: one request per media file, and
   * `processedFiles` extended with the clip path whenever its encode succeeds.
   */
  method NormalizeAll(mediaFiles: seq<string>, probe: string -> Option<real>, encoded: nat -> bool)
    returns (requests: seq<ClipRequest>, processedFiles: seq<string>)
    ensures |requests| == |mediaFiles|
    ensures forall i :: 0 <= i < |mediaFiles| ==> requests[i] == RequestFor(mediaFiles, i, probe)
    ensures processedFiles == Survivors(|mediaFiles|, encoded)
  {
    requests, processedFiles := [], [];
    var index: nat := 0;
    while index < |mediaFiles|
      invariant index <= |mediaFiles|
      invariant |requests| == index
      invariant forall i :: 0 <= i < index ==> requests[i] == RequestFor(mediaFiles, i, probe)
      invariant processedFiles == Survivors(index, encoded)
    {
      var file := mediaFiles[index];
      var inputPath := SourcePath(file);
      var outputPath := ClipPath(index);
      var seconds: real;
      if IsImage(file) {
        seconds := (ImageDuration + TransitionDuration) as real;
      } else {
        var probed := ProbedSeconds(probe(inputPath));
        seconds := if probed < CutVideoDuration as real then probed else CutVideoDuration as real;
      }
      requests := requests + [ClipRequest(inputPath, outputPath, KindOf(file), seconds)];
      if encoded(index) {
        processedFiles := processedFiles + [outputPath];
      }
      index := index + 1;
    }
  }
}
