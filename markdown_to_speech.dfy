/**
 * `class MarkdownToSpeech`: the earlier class. It always cleans the
 * temporary directory before synthesis, saves lines as `<k>.mp3`, lets a
 * synthesis failure propagate, and looks the player up with `which`.
 */
module MarkdownClass {
  import opened Py
  import opened Chunking
  import opened Names
  import opened Sorting
  import opened WorkDir
  import opened Pipeline

  const PlayerMessage := "Ensure that mpg123 is installed in your system\nRun 'sudo apt install mpg123'"

  /** The lines converted from what `src` holds, or the error reading it raised. */
  function Converted(env: Env, src: Source): Result<seq<string>>
  {
    match Fetch(env, src)
    case Raised(e) => Raised(e)
    case Ok(o) => MdToText(o, env)
  }

  class MarkdownToSpeech {
    const mediumUrl: string
    const filename: string
    const tmpDir: Directory

    constructor (mediumUrl: string, filename: string, tmpDir: Directory)
      ensures this.mediumUrl == mediumUrl && this.filename == filename && this.tmpDir == tmpDir
    {
      this.mediumUrl := mediumUrl;
      this.filename := filename;
      this.tmpDir := tmpDir;
    }

    /**
     * `markdown_to_text()`: the URL is preferred to the filename, neither
     * raises before anything is converted, and the result has no empty line.
     */
    function MarkdownToText(env: Env): (r: Result<seq<string>>)
      ensures mediumUrl == "" && filename == "" ==> r == Raised(RuntimeError(NoSourceMessage))
      ensures mediumUrl != "" ==> r == Converted(env, Medium(mediumUrl))
      ensures mediumUrl == "" && filename != "" ==> r == Converted(env, File(filename))
      ensures r.Ok? ==> forall i :: 0 <= i < |r.value| ==> r.value[i] != "" && '\n' !in r.value[i]
    {
      ReadAndConvert(mediumUrl, filename, env)
    }

    /** `clean_up_files(file_format)`. */
    method CleanUpFiles(fileFormat: string)
      modifies tmpDir
      ensures tmpDir.files == Cleaned(old(tmpDir.files), fileFormat)
      ensures tmpDir.log == old(tmpDir.log) + Unlinks(SortedOf(Matching(old(tmpDir.files), fileFormat)))
    {
      tmpDir.CleanUp(fileFormat);
    }

    /**
     * `text_to_speech()`: after a successful conversion every `*mp3` file is
     * removed, whatever the arguments, and then the chunks are saved under
     * `<k>.mp3`; the first synthesis failure ends the call with an error.
     */
    method TextToSpeech(env: Env) returns (r: Result<()>)
      modifies tmpDir
      ensures var lines := MarkdownToText(env);
        lines.Raised? ==> r == Raised(lines.error) && unchanged(tmpDir)
      ensures var lines := MarkdownToText(env);
        lines.Ok? ==>
          && (var res := SaveChunks(Batch(Cleaned(old(tmpDir.files), "mp3"), false),
                                    Chunks(StripAll(lines.value), DefaultCharLength), env.tts, UnpaddedMp3Policy);
              && tmpDir.files == res.files
              && (r.Raised? <==> res.failed))
          && (r.Raised? ==> r.error == SynthesisError)
          && tmpDir.log == old(tmpDir.log) + Unlinks(SortedOf(Matching(old(tmpDir.files), "mp3")))
    {
      var lines := MarkdownToText(env);
      if lines.Raised? {
        return Raised(lines.error);
      }
      var chunks := SplitsWords(PyList(lines.value), DefaultCharLength).value.value;
      tmpDir.CleanUp("mp3");
      var failed := tmpDir.Synthesize(chunks, env.tts, UnpaddedMp3Policy);
      r := if failed then Raised(SynthesisError) else Ok(());
    }

    /**
     * `play_it(play_with)`: without a player on the path it raises before
     * listing anything; otherwise it plays every `*.mp3` file in sorted
     * order and then always removes the `*mp3` files.
     */
    method PlayIt(playWith: string, env: Env) returns (r: Result<()>)
      modifies tmpDir
      ensures var found := env.which(playWith);
        (found.None? || found.value == "") ==> r == Raised(RuntimeError(PlayerMessage)) && unchanged(tmpDir)
      ensures var found := env.which(playWith);
        (found.Some? && found.value != "") ==>
          && r == Ok(())
          && tmpDir.files == Cleaned(old(tmpDir.files), "mp3")
          && tmpDir.log == old(tmpDir.log) + Plays(SortedOf(Matching(old(tmpDir.files), ".mp3")))
               + Unlinks(SortedOf(Matching(old(tmpDir.files), "mp3")))
    {
      var found := env.which(playWith);
      if found.None? || found.value == "" {
        return Raised(RuntimeError(PlayerMessage));
      }
      tmpDir.PlayAll(".mp3", false);
      tmpDir.CleanUp("mp3");
      r := Ok(());
    }
  }

  /**
   * The whole run fails exactly when some non-empty line cannot be
   * synthesised; the lines before the first such line of its chunk are
   * still saved.
   */
  lemma MarkdownFails(files: map<string, Audio>, chunks: seq<seq<string>>, tts: string -> Option<Audio>)
    ensures SaveChunks(Batch(files, false), chunks, tts, UnpaddedMp3Policy).failed <==>
      exists i, j :: 0 <= i < |chunks| && 0 <= j < |chunks[i]| && chunks[i][j] != "" && tts(chunks[i][j]).None?
  {
    SaveChunksFails(Batch(files, false), chunks, tts, UnpaddedMp3Policy);
    assert forall line :: Stops(UnpaddedMp3Policy, tts, line) <==> line != "" && tts(line).None?;
  }

  /** Empty lines never make the run fail, whatever the synthesiser does with them. */
  lemma MarkdownEmptyLinesHarmless(files: map<string, Audio>, lines: seq<string>, tts: string -> Option<Audio>)
    requires forall i :: 0 <= i < |lines| ==> lines[i] == "" || tts(lines[i]).Some?
    ensures !SaveLines(Batch(files, false), lines, 1, tts, UnpaddedMp3Policy).failed
  {
    SaveLinesFails(Batch(files, false), lines, 1, tts, UnpaddedMp3Policy);
  }

  /**
   * Without suppression the overwrite still happens: once the earlier
   * chunks ran through, a later chunk's line at position `j + 1` replaces
   * the earlier `<j + 1>.mp3`, provided no non-empty line before it fails.
   */
  lemma MarkdownLastChunkWins(files: map<string, Audio>, cs: seq<seq<string>>, c: seq<string>, j: nat, tts: string -> Option<Audio>)
    requires !SaveChunks(Batch(files, false), cs, tts, UnpaddedMp3Policy).failed
    requires j < |c| && forall i :: 0 <= i < j ==> c[i] == "" || tts(c[i]).Some?
    requires c[j] != "" && tts(c[j]).Some?
    ensures var r := SaveChunks(Batch(files, false), cs + [c], tts, UnpaddedMp3Policy);
      FileName(Unpadded("mp3"), j + 1) in r.files && r.files[FileName(Unpadded("mp3"), j + 1)] == tts(c[j]).value
  {
    SchemeInjective(Unpadded("mp3"), UnpaddedMp3Policy.name);
    LastChunkWins(Batch(files, false), cs, c, j, tts, UnpaddedMp3Policy);
  }

  /** Without padding, the file saved for position 10 is played before the one for position 2. */
  lemma MarkdownPlayOrder(ten: nat, two: nat)
    requires ten == 10 && two == 2
    ensures SortedOf({UnpaddedMp3Policy.name(ten), UnpaddedMp3Policy.name(two)})
      == [UnpaddedMp3Policy.name(ten), UnpaddedMp3Policy.name(two)]
  {
    UnpaddedOrder(ten, two);
    SortedOfPair(FileName(Unpadded("mp3"), ten), FileName(Unpadded("mp3"), two));
  }

  /** After `text_to_speech` the only `*mp3` files are the `<k>.mp3` it saved, for k from 1 to 99. */
  lemma MarkdownRunNames(files: map<string, Audio>, lines: seq<string>, tts: string -> Option<Audio>)
    ensures var r := SaveChunks(Batch(Cleaned(files, "mp3"), false), Chunks(StripAll(lines), DefaultCharLength), tts, UnpaddedMp3Policy);
      forall x :: x in r.files && EndsWith(x, "mp3") ==> x in Slots(UnpaddedMp3Policy.name, 1, DefaultCharLength + 1)
  {
    PreCleanLeavesOnlyRun(files, Chunks(StripAll(lines), DefaultCharLength), tts, UnpaddedMp3Policy, DefaultCharLength);
  }
}
