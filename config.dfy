/**
 * The fixed configuration of the slideshow script: directories, file names
 * and the three timing constants (whole seconds).
 */
module Config {

  const MediaDir: string := "./media"
  const TmpDir: string := "./tmp"
  const OutputDir: string := "./output"
  /** `path.join(OUTPUT_DIR, 'slideshow.mp4')`. */
  const OutputFile: string := PathJoin(OutputDir, "slideshow.mp4")
  const MusicFile: string := "./music.mp3"

  /** How long an image is shown before the next transition starts. */
  const ImageDuration: nat := 4
  /** The longest stretch of a source video that is kept. */
  const CutVideoDuration: nat := 5
  /** The length of every cross-fade. */
  const TransitionDuration: nat := 1

  /**
   * `path.join(dir, name)` for a directory and a plain file name: the
   * result is normalised, so a leading `./` of the directory is dropped.
   */
  function PathJoin(dir: string, name: string): string {
    (if |dir| >= 2 && dir[..2] == "./" then dir[2..] else dir) + "/" + name
  }

  /** The directories are written relative to the working directory, so the joined paths start with the bare directory name. */
  lemma JoinedPaths(name: string)
    ensures PathJoin(MediaDir, name) == "media/" + name
    ensures PathJoin(TmpDir, name) == "tmp/" + name
    ensures OutputFile == "output/slideshow.mp4"
  {
  }
}
