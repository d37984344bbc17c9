/**
 * The module-level functions of the `medium_speech` package:
 * `text_to_speech` into a given directory without any clean-up, and
 * `play_it`, which can delete each file straight after playing it.
 */
module Package {
  import opened Py
  import opened Lines
  import opened Chunking
  import opened Names
  import opened Sorting
  import opened WorkDir
  import opened Pipeline

  /**
   * `text_to_speech(text_from_markdown, tmp_dir)`: a value that is not a
   * list is ignored; a list is chunked and saved under `<k>.mp3`, on top of
   * whatever the directory holds, and the first synthesis failure raises.
   */
  method TextToSpeech(dir: Directory, text: Object, tts: string -> Option<Audio>) returns (r: Result<()>)
    modifies dir
    ensures !text.PyList? ==> r == Ok(()) && unchanged(dir)
    ensures text.PyList? ==>
      && (var res := SaveChunks(Batch(old(dir.files), false), Chunks(StripAll(text.items), DefaultCharLength), tts, UnpaddedMp3Policy);
          && dir.files == res.files
          && (r == if res.failed then Raised(SynthesisError) else Ok(())))
      && dir.log == old(dir.log)
  {
    if !text.PyList? {
      return Ok(());
    }
    var chunks := SplitsWords(text, DefaultCharLength).value.value;
    var failed := dir.Synthesize(chunks, tts, UnpaddedMp3Policy);
    r := if failed then Raised(SynthesisError) else Ok(());
  }

  /**
   * `play_it(play_with, tmp_dir, file_format, delete_file)`: a player that
   * `which` cannot find raises `CalledProcessError` before the directory is
   * listed; otherwise each name matching `*<file_format>` is played in
   * sorted order and, with `delete_file`, unlinked right after.
   */
  method PlayIt(dir: Directory, playWith: string, fileFormat: string, deleteFile: bool, which: string -> Option<string>)
    returns (r: Result<()>)
    modifies dir
    ensures which(playWith).None? ==> r == Raised(CalledProcessError) && unchanged(dir)
    ensures which(playWith).Some? ==>
      && r == Ok(())
      && (var names := SortedOf(Matching(old(dir.files), fileFormat));
          dir.log == old(dir.log) + if deleteFile then PlayThenUnlink(names) else Plays(names))
      && dir.files == if deleteFile then Cleaned(old(dir.files), fileFormat) else old(dir.files)
  {
    if which(playWith).None? {
      return Raised(CalledProcessError);
    }
    dir.PlayAll(fileFormat, deleteFile);
    r := Ok(());
  }

  /**
   * Without a clean-up, files of an earlier, longer run survive: a name
   * beyond the positions of this run keeps its old contents.
   */
  lemma StaleFilesSurvive(files: map<string, Audio>, items: seq<string>, tts: string -> Option<Audio>, k: nat)
    requires DefaultCharLength < k
    requires UnpaddedMp3Policy.name(k) in files
    ensures var res := SaveChunks(Batch(files, false), Chunks(StripAll(items), DefaultCharLength), tts, UnpaddedMp3Policy);
      UnpaddedMp3Policy.name(k) in res.files
      && res.files[UnpaddedMp3Policy.name(k)] == files[UnpaddedMp3Policy.name(k)]
  {
    var chunks := Chunks(StripAll(items), DefaultCharLength);
    SaveChunksFrame(Batch(files, false), chunks, tts, UnpaddedMp3Policy, DefaultCharLength);
    SchemeInjective(Unpadded("mp3"), UnpaddedMp3Policy.name);
    NotInSlots(UnpaddedMp3Policy.name, k, 1, DefaultCharLength + 1);
  }

  /**
   * With `delete_file` nothing matching the glob is left, and every file
   * that was played was also unlinked straight after.
   */
  lemma PlayThenDelete(files: map<string, Audio>, fileFormat: string, i: nat)
    requires i < |Matching(files, fileFormat)|
    ensures Matching(Cleaned(files, fileFormat), fileFormat) == {}
    ensures var names := SortedOf(Matching(files, fileFormat));
      PlayThenUnlink(names)[2 * i] == Play(names[i]) && PlayThenUnlink(names)[2 * i + 1] == Unlink(names[i])
  {
    PlayThenUnlinkAt(SortedOf(Matching(files, fileFormat)), i);
  }
}
