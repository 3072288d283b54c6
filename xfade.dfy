/**
 * The cross-fade filter graph (index.js lines 91-107).
 *
 * With N surviving clips the builder emits N-1 `xfade` steps. Step i
 * (1 <= i < N) fades the running output (`[0:v]`, then `[v1]`, `[v2]`, ...)
 * into input `[i:v]` and writes `[vi]`. A final step formats the last output
 * as `[video_out]`.
 *
 * The offset is kept exactly as the script keeps it. It starts at 0 and is
 * used before it is advanced, so step 1 fades at 0. After each step it grows
 * by the basis of `mediaFiles[i-1]` less the transition length. The basis is
 * 4 for an image name and 5 otherwise, and it is read from the original
 * media list, not from the surviving clips.
 */
module Xfade {
  import opened Text
  import opened Config
  import opened MediaNames

  /** A stream label of the graph: `[k:v]` for input k, `[vi]` for the output of step i. */
  datatype Label = Stream(input: nat) | Faded(step: nat)

  /** One `xfade` filter: the two labels it blends, where the blend starts, and the label it writes. */
  datatype XfadeStep = XfadeStep(first: Label, second: Label, offset: nat, output: Label)

  function LabelText(l: Label): string {
    match l
    case Stream(k) => "[" + Decimal(k) + ":v]"
    case Faded(i) => "[v" + Decimal(i) + "]"
  }

  /** Distinct labels are written differently, so the text never merges two streams. */
  lemma LabelTextInjective(a: Label, b: Label)
    requires LabelText(a) == LabelText(b)
    ensures a == b
  {
    var ta := LabelText(a);
    assert ta[1] == 'v' <==> a.Faded?;
    assert ta[1] == 'v' <==> b.Faded?;
    match a {
      case Stream(i) =>
        assert ta[1..|ta| - 3] == Decimal(i) == Decimal(b.input);
        DecimalInjective(i, b.input);
      case Faded(i) =>
        assert ta[2..|ta| - 1] == Decimal(i) == Decimal(b.step);
        DecimalInjective(i, b.step);
    }
  }

  /**
   * The seconds added to the offset after step k+1. The kind is taken from
   * `mediaFiles[k]`. Past the end of the list JavaScript reads `undefined`,
   * which the image test rejects, so the video basis applies.
   */
  function Basis(mediaFiles: seq<string>, k: nat): nat {
    if k < |mediaFiles| && IsImage(mediaFiles[k]) then ImageDuration else CutVideoDuration
  }

  /** The value of `offset` when step i is emitted. */
  function StepOffset(mediaFiles: seq<string>, i: nat): nat {
    if i <= 1 then 0 else StepOffset(mediaFiles, i - 1) + Basis(mediaFiles, i - 2) - TransitionDuration
  }

  /** The value of `lastOutput` when step i is emitted, and after the loop when i == N. */
  function PreviousOutput(i: nat): Label {
    if i <= 1 then Stream(0) else Faded(i - 1)
  }

  function StepAt(mediaFiles: seq<string>, i: nat): XfadeStep {
    XfadeStep(PreviousOutput(i), Stream(i), StepOffset(mediaFiles, i), Faded(i))
  }

  /** The steps emitted for `clips` surviving clips: steps 1 .. clips-1 in order. */
  function Plan(mediaFiles: seq<string>, clips: nat): seq<XfadeStep> {
    if clips <= 1 then [] else Plan(mediaFiles, clips - 1) + [StepAt(mediaFiles, clips - 1)]
  }

  /** The template literal of index.js line 102. */
  function StepText(lastOutput: string, nextInput: string, offset: nat, outputName: string): string {
    lastOutput + nextInput + "xfade=transition=fade:duration=" + Decimal(TransitionDuration)
      + ":offset=" + Decimal(offset) + outputName
  }

  /** The text of one step. */
  function StepTextOf(step: XfadeStep): string {
    StepText(LabelText(step.first), LabelText(step.second), step.offset, LabelText(step.output))
  }

  /** The text of every step, in order. */
  function RenderAll(steps: seq<XfadeStep>): seq<string> {
    seq(|steps|, k requires 0 <= k < |steps| => StepTextOf(steps[k]))
  }

  /** The format step: the running output converted to the output pixel format, labelled `[video_out]`. */
  function FormatStep(lastOutput: string): string {
    lastOutput + "format=yuv420p[video_out]"
  }

  /** `filterComplex` for `clips` surviving clips. */
  function FilterComplex(mediaFiles: seq<string>, clips: nat): string {
    Join(RenderAll(Plan(mediaFiles, clips)), ';') + ";" + FormatStep(LabelText(PreviousOutput(clips)))
  }

  /** What one pass of the builder loop does: it keeps the loop's invariant from step i to step i+1. */
  lemma NextStep(mediaFiles: seq<string>, i: nat, filterSteps: seq<string>, offset: nat, lastOutput: string)
    requires i >= 1
    requires filterSteps == RenderAll(Plan(mediaFiles, i))
    requires offset == StepOffset(mediaFiles, i)
    requires lastOutput == LabelText(PreviousOutput(i))
    ensures filterSteps + [StepText(lastOutput, LabelText(Stream(i)), offset, LabelText(Faded(i)))]
      == RenderAll(Plan(mediaFiles, i + 1))
    ensures offset + Basis(mediaFiles, i - 1) - TransitionDuration == StepOffset(mediaFiles, i + 1)
    ensures LabelText(Faded(i)) == LabelText(PreviousOutput(i + 1))
  {
    var p := Plan(mediaFiles, i + 1);
    assert p[..|p| - 1] == Plan(mediaFiles, i);
  }

  /** The loop of index.js lines 91-107. */
  method BuildFilterComplex(clips: nat, mediaFiles: seq<string>) returns (filterComplex: string)
    ensures filterComplex == FilterComplex(mediaFiles, clips)
  {
    var filterSteps: seq<string> := [];
    var offset: nat := 0;
    var lastOutput := "[0:v]";
    var i: nat := 1;
    assert lastOutput == LabelText(Stream(0));
    while i < clips
      invariant 1 <= i <= if clips == 0 then 1 else clips
      invariant filterSteps == RenderAll(Plan(mediaFiles, i))
      invariant offset == StepOffset(mediaFiles, i)
      invariant lastOutput == LabelText(PreviousOutput(i))
    {
      var duration := Basis(mediaFiles, i - 1);
      var nextInput := LabelText(Stream(i));
      var outputName := LabelText(Faded(i));
      NextStep(mediaFiles, i, filterSteps, offset, lastOutput);
      filterSteps := filterSteps + [StepText(lastOutput, nextInput, offset, outputName)];
      lastOutput := outputName;
      offset := offset + duration - TransitionDuration;
      i := i + 1;
    }
    filterComplex := Join(filterSteps, ';') + ";" + FormatStep(lastOutput);
    if clips == 0 {
      assert Plan(mediaFiles, i) == [] == Plan(mediaFiles, clips);
    } else {
      assert i == clips;
    }
  }

  /** One step per adjacent pair of surviving clips. */
  lemma {:induction false} PlanLength(mediaFiles: seq<string>, clips: nat)
    ensures |Plan(mediaFiles, clips)| == if clips == 0 then 0 else clips - 1
  {
    if clips > 1 {
      PlanLength(mediaFiles, clips - 1);
    }
  }

  /** Entry k of the plan is step k+1. */
  lemma {:induction false} PlanAt(mediaFiles: seq<string>, clips: nat, k: nat)
    requires k < |Plan(mediaFiles, clips)|
    ensures Plan(mediaFiles, clips)[k] == StepAt(mediaFiles, k + 1)
  {
    PlanLength(mediaFiles, clips);
    if k < clips - 2 {
      PlanLength(mediaFiles, clips - 1);
      PlanAt(mediaFiles, clips - 1, k);
    }
  }

  /**
   * The steps form one chain in clip order: step 1 reads `[0:v]`, every
   * later step reads the output of the step before it, step i blends in
   * `[i:v]` and writes `[vi]`, and the format step reads the last output
   * (`[0:v]` itself when there is a single clip).
   */
  lemma PlanIsChained(mediaFiles: seq<string>, clips: nat)
    ensures var p := Plan(mediaFiles, clips);
      && |p| == (if clips == 0 then 0 else clips - 1)
      && (|p| >= 1 ==> p[0].first == Stream(0))
      && (forall k :: 1 <= k < |p| ==> p[k].first == p[k - 1].output)
      && (forall k :: 0 <= k < |p| ==> p[k].second == Stream(k + 1) && p[k].output == Faded(k + 1))
      && PreviousOutput(clips) == (if |p| == 0 then Stream(0) else p[|p| - 1].output)
  {
    var p := Plan(mediaFiles, clips);
    PlanLength(mediaFiles, clips);
    forall k | 0 <= k < |p| ensures p[k] == StepAt(mediaFiles, k + 1) {
      PlanAt(mediaFiles, clips, k);
    }
  }

  /**
   * No reordering: the output of step j+1 is read by step j+2 and by no
   * other step, and every input stream is blended in by exactly one step.
   */
  lemma EachLabelReadOnce(mediaFiles: seq<string>, clips: nat)
    ensures var p := Plan(mediaFiles, clips);
      && (forall j, k :: 0 <= j < |p| && 0 <= k < |p| && p[k].first == p[j].output ==> k == j + 1)
      && (forall j, k :: 0 <= j < |p| && 0 <= k < |p| && p[k].second == p[j].second ==> k == j)
      && (forall j, k :: 0 <= j < |p| && 0 <= k < |p| ==> p[k].second != p[j].output)
  {
    var p := Plan(mediaFiles, clips);
    PlanIsChained(mediaFiles, clips);
    forall j, k | 0 <= j < |p| && 0 <= k < |p|
      ensures p[k].first == p[j].output ==> k == j + 1
      ensures p[k].second == p[j].second ==> k == j
      ensures p[k].second != p[j].output
    {
      if k >= 1 {
        assert p[k].first == p[k - 1].output;
      }
    }
  }

  /**
   * The offset recurrence: the first step fades at 0, and each step's offset
   * is the previous one plus the basis of the ORIGINAL media file at the
   * previous position, less the transition length.
   */
  lemma PlanOffsets(mediaFiles: seq<string>, clips: nat)
    ensures var p := Plan(mediaFiles, clips);
      && (|p| >= 1 ==> p[0].offset == 0)
      && (forall k :: 0 <= k < |p| - 1 ==>
            p[k + 1].offset == p[k].offset + Basis(mediaFiles, k) - TransitionDuration)
  {
    var p := Plan(mediaFiles, clips);
    if |p| >= 1 {
      PlanAt(mediaFiles, clips, 0);
    }
    forall k | 0 <= k < |p| - 1
      ensures p[k + 1].offset == p[k].offset + Basis(mediaFiles, k) - TransitionDuration
    {
      PlanAt(mediaFiles, clips, k);
      PlanAt(mediaFiles, clips, k + 1);
    }
  }

  /** How many of the first m positions of the media list name an image. */
  function ImagesAmongFirst(mediaFiles: seq<string>, m: nat): nat {
    |set k | 0 <= k < |mediaFiles| && IsImage(mediaFiles[k]) && k < m|
  }

  /** Widening the window by one position counts that position when it names an image. */
  lemma ImagesAmongFirstStep(mediaFiles: seq<string>, m: nat)
    ensures ImagesAmongFirst(mediaFiles, m + 1)
      == ImagesAmongFirst(mediaFiles, m) + (if m < |mediaFiles| && IsImage(mediaFiles[m]) then 1 else 0)
  {
    var before := set k | 0 <= k < |mediaFiles| && IsImage(mediaFiles[k]) && k < m;
    var after := set k | 0 <= k < |mediaFiles| && IsImage(mediaFiles[k]) && k < m + 1;
    if m < |mediaFiles| && IsImage(mediaFiles[m]) {
      assert after == before + {m};
    } else {
      assert after == before;
    }
  }

  /**
   * Closed form of the offset: every earlier position adds 4 seconds, less
   * one for each image among the first i-1 ORIGINAL names.
   */
  lemma {:induction false} StepOffsetClosedForm(mediaFiles: seq<string>, i: nat)
    requires i >= 1
    ensures StepOffset(mediaFiles, i)
      == (CutVideoDuration - TransitionDuration) * (i - 1)
       - (CutVideoDuration - ImageDuration) * ImagesAmongFirst(mediaFiles, i - 1)
  {
    if i == 1 {
      assert ImagesAmongFirst(mediaFiles, 0) == 0 by {
        assert (set k | 0 <= k < |mediaFiles| && IsImage(mediaFiles[k]) && k < 0) == {};
      }
    } else {
      StepOffsetClosedForm(mediaFiles, i - 1);
      ImagesAmongFirstStep(mediaFiles, i - 2);
    }
  }

  /**
   * Each step adds between 3 and 4 seconds, so the offsets of steps i <= j
   * differ by at least 3(j-i) and at most 4(j-i).
   */
  lemma {:induction false} OffsetsGrow(mediaFiles: seq<string>, i: nat, j: nat)
    requires 1 <= i <= j
    ensures StepOffset(mediaFiles, i) + (ImageDuration - TransitionDuration) * (j - i)
         <= StepOffset(mediaFiles, j)
         <= StepOffset(mediaFiles, i) + (CutVideoDuration - TransitionDuration) * (j - i)
  {
    if i < j {
      OffsetsGrow(mediaFiles, i, j - 1);
    }
  }

  /** The offsets of the emitted steps are strictly increasing. */
  lemma PlanOffsetsIncrease(mediaFiles: seq<string>, clips: nat)
    ensures var p := Plan(mediaFiles, clips);
      forall a, b :: 0 <= a < b < |p| ==> p[a].offset < p[b].offset
  {
    var p := Plan(mediaFiles, clips);
    forall a, b | 0 <= a < b < |p| ensures p[a].offset < p[b].offset {
      PlanAt(mediaFiles, clips, a);
      PlanAt(mediaFiles, clips, b);
      OffsetsGrow(mediaFiles, a + 1, b + 1);
    }
  }

  lemma NoSemicolonInLabel(l: Label)
    ensures ';' !in LabelText(l)
  {
    match l
    case Stream(k) => DigitsAreNot(Decimal(k), ';');
    case Faded(i) => DigitsAreNot(Decimal(i), ';');
  }

  lemma NoSemicolonInStep(step: XfadeStep)
    ensures ';' !in StepTextOf(step)
  {
    NoSemicolonInLabel(step.first);
    NoSemicolonInLabel(step.second);
    NoSemicolonInLabel(step.output);
    DigitsAreNot(Decimal(TransitionDuration), ';');
    DigitsAreNot(Decimal(step.offset), ';');
  }

  lemma NoSemicolonInSteps(steps: seq<XfadeStep>)
    ensures forall k :: 0 <= k < |steps| ==> ';' !in RenderAll(steps)[k]
  {
    forall k | 0 <= k < |steps| ensures ';' !in RenderAll(steps)[k] {
      NoSemicolonInStep(steps[k]);
    }
  }

  lemma NoSemicolonInFormatStep(lastOutput: string)
    requires ';' !in lastOutput
    ensures ';' !in FormatStep(lastOutput)
  {
    assert FormatStep(lastOutput)[|lastOutput|..] == "format=yuv420p[video_out]";
  }

  /** The graph ends by writing the `[video_out]` label. */
  lemma FilterComplexEndsWithVideoOut(mediaFiles: seq<string>, clips: nat)
    ensures var fc := FilterComplex(mediaFiles, clips);
      11 <= |fc| && fc[|fc| - 11..] == "[video_out]"
  {
    var last := LabelText(PreviousOutput(clips));
    var t := FormatStep(last);
    SuffixOfAppend(last, "format=yuv420p[video_out]", 11);
    assert "format=yuv420p[video_out]"[14..] == "[video_out]";
    SuffixOfAppend(Join(RenderAll(Plan(mediaFiles, clips)), ';') + ";", t, 11);
  }

  /**
   * Read back at its `;` separators, `filterComplex` is the emitted steps
   * followed by the format step. With a single clip there are no steps and
   * the string starts with a stray `;`, which reads as one empty piece.
   */
  lemma FilterComplexPieces(mediaFiles: seq<string>, clips: nat)
    ensures Split(FilterComplex(mediaFiles, clips), ';')
      == (if clips >= 2 then RenderAll(Plan(mediaFiles, clips)) else [""])
       + [FormatStep(LabelText(PreviousOutput(clips)))]
  {
    var p := Plan(mediaFiles, clips);
    var texts := RenderAll(p);
    var lastLabel := LabelText(PreviousOutput(clips));
    NoSemicolonInLabel(PreviousOutput(clips));
    NoSemicolonInFormatStep(lastLabel);
    PlanLength(mediaFiles, clips);
    NoSemicolonInSteps(p);
    SplitJoinThen(texts, FormatStep(lastLabel), ';');
  }

  /** How labels are written: input streams as `[k:v]`, step outputs as `[vi]`. */
  lemma LabelSamples()
    ensures LabelText(Stream(0)) == "[0:v]"
    ensures LabelText(Stream(12)) == "[12:v]"
    ensures LabelText(Faded(3)) == "[v3]"
  {
    assert Decimal(12) == Decimal(1) + [DigitChar(2)];
  }

  /**
   * A single clip: no cross-fade. The text is a stray `;` and then the format
   * step applied to input `[0:v]` itself.
   */
  lemma SingleClipGraph(mediaFiles: seq<string>)
    ensures Plan(mediaFiles, 1) == []
    ensures FilterComplex(mediaFiles, 1) == ";" + FormatStep("[0:v]")
  {
    assert RenderAll([]) == [];
    assert LabelText(PreviousOutput(1)) == "[0:v]";
  }

  /** Two images: one fade of `[0:v]` into `[1:v]` at offset 0, then the format step on `[v1]`. */
  lemma TwoImagesGraph()
    ensures FilterComplex(["a.jpg", "b.jpg"], 2)
      == StepText("[0:v]", "[1:v]", 0, "[v1]") + ";" + FormatStep("[v1]")
  {
    var step := XfadeStep(Stream(0), Stream(1), 0, Faded(1));
    assert Plan(["a.jpg", "b.jpg"], 2) == [step];
    assert LabelText(Stream(0)) == "[0:v]";
    assert LabelText(Stream(1)) == "[1:v]";
    assert LabelText(Faded(1)) == "[v1]";
    assert RenderAll([step]) == [StepTextOf(step)] by {
      assert RenderAll([step])[0] == StepTextOf(step);
    }
  }

  /** Image, video, image, video: the fades start at 0, 3 and 7. */
  lemma MixedFourClipPlan()
    ensures Plan(["a.jpg", "b.mp4", "c.png", "d.mov"], 4) == [
      XfadeStep(Stream(0), Stream(1), 0, Faded(1)),
      XfadeStep(Faded(1), Stream(2), 3, Faded(2)),
      XfadeStep(Faded(2), Stream(3), 7, Faded(3))]
  {
    var names := ["a.jpg", "b.mp4", "c.png", "d.mov"];
    ExtensionOfDotted("a", "jpg");
    assert "a" + "." + "jpg" == names[0];
    ExtensionOfDotted("b", "mp4");
    assert "b" + "." + "mp4" == names[1];
    assert Lower("jpg") == "jpg" && Lower("mp4") == "mp4";
    assert Basis(names, 0) == 4 && Basis(names, 1) == 5;
  }

  /**
   * After a failed item the kinds misalign. The video `v.mp4` fails, so the
   * three surviving clips are all images. The second fade is still advanced
   * by the video basis of `v.mp4` (offset 4), not by an image basis (offset 3).
   */
  lemma MisalignedBasisAfterFailure()
    ensures Plan(["v.mp4", "a.jpg", "b.jpg", "c.jpg"], 3)[1].offset == 4
    ensures Plan(["a.jpg", "b.jpg", "c.jpg"], 3)[1].offset == 3
  {
    ExtensionOfDotted("v", "mp4");
    assert "v" + "." + "mp4" == "v.mp4";
    ExtensionOfDotted("a", "jpg");
    assert "a" + "." + "jpg" == "a.jpg";
    assert Lower("jpg") == "jpg" && Lower("mp4") == "mp4";
    PlanAt(["v.mp4", "a.jpg", "b.jpg", "c.jpg"], 3, 1);
    PlanAt(["a.jpg", "b.jpg", "c.jpg"], 3, 1);
  }
}
