/**
 * The prototype script `main.py`: its line filter, the title dictionary,
 * one synthesis pass over a flat list of lines, and playback followed by
 * an `rm -rf` command for each file.
 */
module Prototype {
  import opened Py
  import opened Lines
  import opened Names
  import opened Sorting
  import opened WorkDir

  /** `[x.rstrip() for x in lines]`. */
  function RStripAll(lines: seq<string>): (r: seq<string>)
    ensures |r| == |lines|
    ensures forall i :: 0 <= i < |r| ==> r[i] == RStrip(lines[i])
  {
    if lines == [] then [] else [RStrip(lines[0])] + RStripAll(lines[1..])
  }

  /**
   * `read_from_file(filename)` on the text of the file: the lines, each
   * right-stripped, without those left empty.
   */
  function ReadFromFile(text: string): (r: seq<string>)
    ensures forall i :: 0 <= i < |r| ==> r[i] != "" && !IsSpace(r[i][|r[i]| - 1]) && '\n' !in r[i]
  {
    var pieces := Split(text, '\n');
    var stripped := RStripAll(pieces);
    var r := NonEmpty(stripped);
    assert forall i :: 0 <= i < |r| ==> r[i] in stripped;
    assert forall x :: x in stripped ==> exists i :: 0 <= i < |pieces| && x == RStrip(pieces[i]);
    assert forall i :: 0 <= i < |pieces| ==> '\n' !in pieces[i];
    r
  }

  lemma {:induction false} RStripAllAppend(a: seq<string>, b: seq<string>)
    ensures RStripAll(a + b) == RStripAll(a) + RStripAll(b)
  {
    if a == [] {
      assert a + b == b;
    } else {
      assert (a + b)[1..] == a[1..] + b;
      RStripAllAppend(a[1..], b);
    }
  }

  /** The filter works line by line: a newline separates the result for the text before it from the result for the text after it. */
  lemma ReadFromFileAround(a: string, b: string)
    ensures ReadFromFile(a + "\n" + b) == ReadFromFile(a) + ReadFromFile(b)
  {
    SplitAround(a, b, '\n');
    RStripAllAppend(Split(a, '\n'), Split(b, '\n'));
    NonEmptyAppend(RStripAll(Split(a, '\n')), RStripAll(Split(b, '\n')));
  }

  /** A single line is kept, right-stripped, unless it is blank. */
  lemma ReadFromFileSingle(w: string)
    requires '\n' !in w
    ensures ReadFromFile(w) == if AllSpace(w) then [] else [RStrip(w)]
  {
    SplitNoSep(w, '\n');
    assert RStripAll([w]) == [RStrip(w)];
    var r := RStrip(w);
    assert r == "" ==> w[|r|..] == w;
    assert r != "" ==> w[|r| - 1] == r[|r| - 1];
  }

  /** `pat` occurs in `s` from position `i` on. */
  predicate OccursAt(s: string, pat: string, i: int)
  {
    0 <= i <= |s| - |pat| && s[i..i + |pat|] == pat
  }

  /** Python's `pat in s` on strings. */
  predicate Contains(s: string, pat: string)
  {
    exists i :: 0 <= i <= |s| - |pat| && OccursAt(s, pat, i)
  }

  /**
   * `get_markdown_titles(lines)`: every line that holds `"# "` anywhere,
   * mapped to the empty string.
   */
  function GetMarkdownTitles(lines: seq<string>): (r: map<string, string>)
    ensures forall x :: x in r <==> x in lines && Contains(x, "# ")
    ensures forall x :: x in r ==> r[x] == ""
  {
    map x | x in lines && Contains(x, "# ") :: ""
  }

  /** A heading of any level is a title, and so is a line with `"# "` in the middle; `#` without a space is not. */
  lemma TitlesExample(h: string, mid: string, bare: string)
    requires h == "## Intro" && mid == "see # here" && bare == "#NoSpace"
    ensures GetMarkdownTitles([h, mid, bare]).Keys == {h, mid}
  {
    assert OccursAt(h, "# ", 1);
    assert OccursAt(mid, "# ", 4);
    forall i
      ensures !OccursAt(bare, "# ", i)
    {
      if 0 <= i <= |bare| - 2 {
        assert bare[i..i + 2][1] == bare[i + 1] && bare[i..i + 2][0] == bare[i];
      }
    }
  }

  /** `text_to_speech(words, tmp_dir, file_format)`: every line, empty or not, in one pass and without suppression. */
  function PrototypePolicy(fileFormat: string): Policy
  {
    Policy((k: nat) => FileName(Unpadded(fileFormat), k), false, false)
  }

  /**
   * The `i`-th line, counted from 1, is saved as `<i>.<file_format>`, so no
   * two lines share a file; the first failure raises and ends the loop.
   */
  method TextToSpeech(dir: Directory, words: seq<string>, tts: string -> Option<Audio>, fileFormat: string)
    returns (r: Result<()>)
    modifies dir
    ensures var res := SaveLines(Batch(old(dir.files), false), words, 1, tts, PrototypePolicy(fileFormat));
      && dir.files == res.files
      && r == if res.failed then Raised(SynthesisError) else Ok(())
    ensures dir.log == old(dir.log)
  {
    var failed := dir.Synthesize([words], tts, PrototypePolicy(fileFormat));
    assert [words][1..] == [];
    r := if failed then Raised(SynthesisError) else Ok(());
  }

  /** Every line before the first failure is saved under its own name. */
  lemma PrototypeWrites(files: map<string, Audio>, words: seq<string>, tts: string -> Option<Audio>, fileFormat: string, j: nat)
    requires j < |words| && tts(words[j]).Some?
    requires forall i :: 0 <= i < j ==> tts(words[i]).Some?
    ensures var res := SaveLines(Batch(files, false), words, 1, tts, PrototypePolicy(fileFormat));
      NatToString(j + 1) + "." + fileFormat in res.files
      && res.files[NatToString(j + 1) + "." + fileFormat] == tts(words[j]).value
  {
    SchemeInjective(Unpadded(fileFormat), PrototypePolicy(fileFormat).name);
    SaveLinesWrites(Batch(files, false), words, 1, tts, PrototypePolicy(fileFormat), j);
  }

  /** The position of the first name `ok` refuses, or `|names|` when it refuses none. */
  function FirstRefused(names: seq<string>, ok: string -> bool): (n: nat)
    ensures n <= |names|
    ensures forall i :: 0 <= i < n ==> ok(names[i])
    ensures n < |names| ==> !ok(names[n])
  {
    if names == [] || !ok(names[0]) then 0 else 1 + FirstRefused(names[1..], ok)
  }

  /** The first refused position is the one every earlier name passes and the name there fails. */
  lemma FirstRefusedAt(names: seq<string>, ok: string -> bool, i: nat)
    requires i <= |names|
    requires forall k :: 0 <= k < i ==> ok(names[k])
    requires i < |names| ==> !ok(names[i])
    ensures FirstRefused(names, ok) == i
  {
  }

  /**
   * `play_it(play_with, tmp_dir, file_format)`: `which` raises when the
   * player is missing; otherwise the names matching `*<file_format>` are
   * played in sorted order, each followed by
   * `subprocess.call(f"rm -rf {mp3_file}")`. That call runs no shell, so it
   * deletes nothing; `rmReturns(name)` tells whether it returns or raises
   * `OSError`, and the first raise ends the loop after that file was played.
   */
  method PlayIt(dir: Directory, playWith: string, fileFormat: string, which: string -> Option<string>, rmReturns: string -> bool)
    returns (r: Result<()>)
    modifies dir
    ensures which(playWith).None? ==> r == Raised(CalledProcessError) && unchanged(dir)
    ensures which(playWith).Some? ==> dir.files == old(dir.files)
    ensures which(playWith).Some? ==>
      var names := SortedOf(Matching(old(dir.files), fileFormat));
      var n := FirstRefused(names, rmReturns);
      r == if n < |names| then Raised(OSError) else Ok(())
    ensures which(playWith).Some? ==>
      var names := SortedOf(Matching(old(dir.files), fileFormat));
      var n := FirstRefused(names, rmReturns);
      dir.log == old(dir.log) + Plays(names[..if n < |names| then n + 1 else n])
  {
    if which(playWith).None? {
      return Raised(CalledProcessError);
    }
    var names := Sort(Matching(dir.files, fileFormat));
    r := PlayThenRm(dir, names, rmReturns);
  }

  /** The loop of `play_it` over the sorted names. */
  method PlayThenRm(dir: Directory, names: seq<string>, rmReturns: string -> bool) returns (r: Result<()>)
    modifies dir
    ensures var n := FirstRefused(names, rmReturns);
      && dir.files == old(dir.files)
      && (r == if n < |names| then Raised(OSError) else Ok(()))
      && dir.log == old(dir.log) + Plays(names[..if n < |names| then n + 1 else n])
  {
    var i := 0;
    while i < |names|
      invariant 0 <= i <= |names|
      invariant forall k :: 0 <= k < i ==> rmReturns(names[k])
      invariant dir.files == old(dir.files)
      invariant dir.log == old(dir.log) + Plays(names[..i])
    {
      StepPlays(names, i);
      dir.PlayOne(names[i]);
      if !rmReturns(names[i]) {
        FirstRefusedAt(names, rmReturns, i);
        return Raised(OSError);
      }
      i := i + 1;
    }
    FirstRefusedAt(names, rmReturns, i);
    assert names[..i] == names;
    r := Ok(());
  }
}
