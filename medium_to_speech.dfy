/**
 * `class MediumToSpeech`: reads a post from Medium or a file, saves each
 * line as `file_NN.mp3` with synthesis failures suppressed, and plays the
 * `*.mp3` files of its temporary directory.
 */
module MediumClass {
  import opened Py
  import opened Chunking
  import opened Names
  import opened Sorting
  import opened WorkDir
  import opened Pipeline

  /** Zero-padded names, failures suppressed, empty lines skipped. */
  const MediumPolicy := Policy((k: nat) => FileName(Padded, k), true, true)

  const PlayerMessage :=
    "Ensure that mpg123/vlc is installed in your system\n"
    + "Run 'sudo apt install --install-recommends mpg123' or\n"
    + "Run 'sudo apt install --install-recommends vlc' "

  class MediumToSpeech {
    const mediumUrl: string
    const filename: string
    const tmpDir: Directory

    constructor (mediumUrl: string, filename: string, tmpDir: Directory)
      ensures this.mediumUrl == mediumUrl && this.filename == filename && this.tmpDir == tmpDir
    {
      this.mediumUrl := mediumUrl;
      this.filename := filename;
      this.tmpDir := tmpDir;
    }

    /**
     * `markdown_to_text(md_text)`: a falsy `md_text` is replaced by what
     * `read_markdown()` returns; the text is then decoded, converted and
     * split into its non-empty lines.
     */
    function MarkdownToText(mdText: Object, env: Env): (r: Result<seq<string>>)
      ensures Truthy(mdText) ==> r == MdToText(mdText, env)
      ensures !Truthy(mdText) ==> r == ReadAndConvert(mediumUrl, filename, env)
      ensures r.Ok? ==> forall i :: 0 <= i < |r.value| ==> r.value[i] != "" && '\n' !in r.value[i]
    {
      if Truthy(mdText) then MdToText(mdText, env)
      else ReadAndConvert(mediumUrl, filename, env)
    }

    /** `clean_up_files(file_format)`. */
    method CleanUpFiles(fileFormat: string)
      modifies tmpDir
      ensures tmpDir.files == Cleaned(old(tmpDir.files), fileFormat)
      ensures tmpDir.log == old(tmpDir.log) + Unlinks(SortedOf(Matching(old(tmpDir.files), fileFormat)))
    {
      tmpDir.CleanUp(fileFormat);
    }

    /**
     * `text_to_speech(cleanup)`: the post is read and converted first, so a
     * failure there leaves the directory untouched; then the old `*mp3`
     * files are removed when `cleanup` is set, and every chunk is saved
     * under zero-padded names. Suppression means the call never fails
     * because of synthesis.
     */
    method TextToSpeech(env: Env, cleanup: bool) returns (r: Result<()>)
      modifies tmpDir
      ensures var lines := MarkdownToText(PyNone, env);
        lines.Raised? ==> r == Raised(lines.error) && unchanged(tmpDir)
      ensures var lines := MarkdownToText(PyNone, env);
        lines.Ok? ==>
          && r == Ok(())
          && (var start := if cleanup then Cleaned(old(tmpDir.files), "mp3") else old(tmpDir.files);
              tmpDir.files == SaveChunks(Batch(start, false), Chunks(StripAll(lines.value), DefaultCharLength), env.tts, MediumPolicy).files)
          && tmpDir.log == old(tmpDir.log) + if cleanup then Unlinks(SortedOf(Matching(old(tmpDir.files), "mp3"))) else []
    {
      var lines := MarkdownToText(PyNone, env);
      if lines.Raised? {
        return Raised(lines.error);
      }
      var chunks := SplitsWords(PyList(lines.value), DefaultCharLength).value.value;
      if cleanup {
        tmpDir.CleanUp("mp3");
      }
      var failed := tmpDir.Synthesize(chunks, env.tts, MediumPolicy);
      r := Ok(());
    }

    /**
     * `play_it(play_with, speed, cleanup)`: an empty `play_with` raises before
     * anything is listed; otherwise every `*.mp3` file is played once, in
     * sorted order, and with `cleanup` the `*mp3` files are removed after.
     */
    method PlayIt(playWith: string, cleanup: bool) returns (r: Result<()>)
      modifies tmpDir
      ensures playWith == "" ==> r == Raised(RuntimeError(PlayerMessage)) && unchanged(tmpDir)
      ensures playWith != "" ==>
        && r == Ok(())
        && tmpDir.files == (if cleanup then Cleaned(old(tmpDir.files), "mp3") else old(tmpDir.files))
        && tmpDir.log == old(tmpDir.log) + Plays(SortedOf(Matching(old(tmpDir.files), ".mp3")))
             + if cleanup then Unlinks(SortedOf(Matching(old(tmpDir.files), "mp3"))) else []
    {
      if playWith == "" {
        return Raised(RuntimeError(PlayerMessage));
      }
      tmpDir.PlayAll(".mp3", false);
      if cleanup {
        tmpDir.CleanUp("mp3");
      }
      r := Ok(());
    }
  }

  /**
   * A run with `cleanup` leaves no `*mp3` file but those it saved: each is
   * `file_NN.mp3` for a position NN from 01 to 99.
   */
  lemma CleanRunNames(files: map<string, Audio>, lines: seq<string>, tts: string -> Option<Audio>)
    ensures var r := SaveChunks(Batch(Cleaned(files, "mp3"), false), Chunks(StripAll(lines), DefaultCharLength), tts, MediumPolicy);
      forall x :: x in r.files && EndsWith(x, "mp3") ==> x in Slots(MediumPolicy.name, 1, DefaultCharLength + 1) && |x| == 11
  {
    var chunks := Chunks(StripAll(lines), DefaultCharLength);
    PreCleanLeavesOnlyRun(files, chunks, tts, MediumPolicy, DefaultCharLength);
    forall k: nat | 1 <= k < DefaultCharLength + 1
      ensures |MediumPolicy.name(k)| == 11
    {
      PaddedLength(k);
    }
  }

  /** Zero-padded names are distinct for distinct positions. */
  lemma MediumNamesInjective()
    ensures Injective(MediumPolicy.name)
  {
    SchemeInjective(Padded, MediumPolicy.name);
  }

  /**
   * An empty line is skipped but counted: `["x", "", "y"]` is saved as
   * `file_01.mp3` and `file_03.mp3`, and nothing is saved as `file_02.mp3`.
   */
  lemma MediumSkipsEmpty(x: string, y: string, tts: string -> Option<Audio>)
    requires x != "" && y != "" && tts(x).Some? && tts(y).Some?
    ensures SaveLines(Batch(map[], false), [x, "", y], 1, tts, MediumPolicy)
      == Batch(map["file_01.mp3" := tts(x).value, "file_03.mp3" := tts(y).value], false)
  {
    SkippedLineCounted(x, y, tts, MediumPolicy);
    PaddedNames(1, 3);
  }

  /**
   * A later chunk's line overwrites the file an earlier chunk saved at the
   * same position.
   */
  lemma MediumLastChunkWins(files: map<string, Audio>, cs: seq<seq<string>>, c: seq<string>, j: nat, tts: string -> Option<Audio>)
    requires j < |c| && c[j] != "" && tts(c[j]).Some?
    ensures var r := SaveChunks(Batch(files, false), cs + [c], tts, MediumPolicy);
      FileName(Padded, j + 1) in r.files && r.files[FileName(Padded, j + 1)] == tts(c[j]).value
  {
    MediumNamesInjective();
    SuppressNeverFails(Batch(files, false), cs, tts, MediumPolicy);
    LastChunkWins(Batch(files, false), cs, c, j, tts, MediumPolicy);
  }

  /** Suppression: `text_to_speech` saves every line it can and never stops early. */
  lemma MediumNeverFails(files: map<string, Audio>, chunks: seq<seq<string>>, tts: string -> Option<Audio>)
    ensures !SaveChunks(Batch(files, false), chunks, tts, MediumPolicy).failed
  {
    SuppressNeverFails(Batch(files, false), chunks, tts, MediumPolicy);
  }

  /** Files are played in the order of their positions, because the names are padded. */
  lemma MediumPlayOrder(j: nat, k: nat)
    requires 1 <= j < k <= DefaultCharLength
    ensures SortedOf({FileName(Padded, j), FileName(Padded, k)}) == [FileName(Padded, j), FileName(Padded, k)]
  {
    PaddedOrder(j, k);
    SortedOfPair(FileName(Padded, j), FileName(Padded, k));
  }
}
