/**
 * The temporary working directory shared by synthesis and playback: the
 * regular files it holds, the clean-up that unlinks every name a glob
 * matches, the nested loop that saves synthesised lines under positional
 * names, and playback in sorted-name order.
 */
module WorkDir {
  import opened Py
  import opened Names
  import opened Sorting

  /** The bytes `gTTS.save` writes. */
  type Audio = Bytes

  /** A call to the player, or an unlink, in the order they happen. */
  datatype Event = Play(name: string) | Unlink(name: string)

  /** `name.endswith(suffix)`: the names that `Path.glob("*" + suffix)` yields. */
  predicate EndsWith(name: string, suffix: string)
  {
    |suffix| <= |name| && name[|name| - |suffix|..] == suffix
  }

  function Matching(files: map<string, Audio>, suffix: string): (r: set<string>)
    ensures forall n :: n in r <==> n in files && EndsWith(n, suffix)
  {
    set n | n in files && EndsWith(n, suffix)
  }

  /** The directory once every name ending in `suffix` is unlinked. */
  function Cleaned(files: map<string, Audio>, suffix: string): (r: map<string, Audio>)
    ensures forall n :: n in r <==> n in files && !EndsWith(n, suffix)
    ensures forall n :: n in r ==> r[n] == files[n]
  {
    files - Matching(files, suffix)
  }

  /** Cleaning twice is cleaning once. */
  lemma CleanedIdempotent(files: map<string, Audio>, suffix: string)
    ensures Cleaned(Cleaned(files, suffix), suffix) == Cleaned(files, suffix)
  {
  }

  /**
   * The clean-up glob `*mp3` has no dot, the playback glob `*.mp3` has one:
   * everything played is cleaned up, but a name such as `talk_mp3` is only
   * cleaned up.
   */
  lemma GlobAsymmetry(files: map<string, Audio>)
    ensures Matching(files, ".mp3") <= Matching(files, "mp3")
  {
    forall n | n in Matching(files, ".mp3")
      ensures n in Matching(files, "mp3")
    {
      assert n[|n| - 3..] == n[|n| - 4..][1..];
    }
  }

  lemma GlobAsymmetryWitness(name: string)
    requires name == "talk_mp3"
    ensures EndsWith(name, "mp3") && !EndsWith(name, ".mp3")
  {
    assert name[|name| - 4..] == "_mp3";
  }

  function Plays(names: seq<string>): (r: seq<Event>)
    ensures |r| == |names|
    ensures forall i :: 0 <= i < |names| ==> r[i] == Play(names[i])
  {
    if names == [] then [] else Plays(names[..|names| - 1]) + [Play(names[|names| - 1])]
  }

  function Unlinks(names: seq<string>): (r: seq<Event>)
    ensures |r| == |names|
    ensures forall i :: 0 <= i < |names| ==> r[i] == Unlink(names[i])
  {
    if names == [] then [] else Unlinks(names[..|names| - 1]) + [Unlink(names[|names| - 1])]
  }

  /** Playing and unlinking each name in turn. */
  function PlayThenUnlink(names: seq<string>): (r: seq<Event>)
    ensures |r| == 2 * |names|
  {
    if names == [] then []
    else
      var last := names[|names| - 1];
      PlayThenUnlink(names[..|names| - 1]) + [Play(last), Unlink(last)]
  }

  /** Each name is played and then unlinked before the next one is touched. */
  lemma {:induction false} PlayThenUnlinkAt(names: seq<string>, i: nat)
    requires i < |names|
    ensures PlayThenUnlink(names)[2 * i] == Play(names[i])
    ensures PlayThenUnlink(names)[2 * i + 1] == Unlink(names[i])
    decreases |names|
  {
    var n := |names| - 1;
    if i < n {
      PlayThenUnlinkAt(names[..n], i);
    }
  }

  /** The names a sequence holds. */
  function Elements(names: seq<string>): (r: set<string>)
    ensures forall x :: x in r <==> x in names
  {
    if names == [] then {} else Elements(names[..|names| - 1]) + {names[|names| - 1]}
  }

  /** One more name handled by a loop over `names`. */
  lemma StepElements(names: seq<string>, i: nat)
    requires i < |names|
    ensures Elements(names[..i + 1]) == Elements(names[..i]) + {names[i]}
  {
    assert names[..i + 1][..i] == names[..i];
  }

  lemma StepPlays(names: seq<string>, i: nat)
    requires i < |names|
    ensures Plays(names[..i + 1]) == Plays(names[..i]) + [Play(names[i])]
  {
    assert names[..i + 1][..i] == names[..i];
  }

  lemma StepUnlinks(names: seq<string>, i: nat)
    requires i < |names|
    ensures Unlinks(names[..i + 1]) == Unlinks(names[..i]) + [Unlink(names[i])]
  {
    assert names[..i + 1][..i] == names[..i];
  }

  lemma StepPlayThenUnlink(names: seq<string>, i: nat)
    requires i < |names|
    ensures PlayThenUnlink(names[..i + 1]) == PlayThenUnlink(names[..i]) + [Play(names[i]), Unlink(names[i])]
  {
    assert names[..i + 1][..i] == names[..i];
  }

  /** What the playback loop logs for one name. */
  function Handled(name: string, unlinkEach: bool): (r: seq<Event>)
    ensures |r| == if unlinkEach then 2 else 1
    ensures r[0] == Play(name)
    ensures unlinkEach ==> r[1] == Unlink(name)
  {
    if unlinkEach then [Play(name), Unlink(name)] else [Play(name)]
  }

  /** What the playback loop logs for `names`. */
  function Played(names: seq<string>, unlinkEach: bool): seq<Event>
  {
    if unlinkEach then PlayThenUnlink(names) else Plays(names)
  }

  /** What the playback loop leaves of `files` after `names`. */
  function Kept(files: map<string, Audio>, names: seq<string>, unlinkEach: bool): map<string, Audio>
  {
    if unlinkEach then files - Elements(names) else files
  }

  lemma StepPlayed(names: seq<string>, i: nat, unlinkEach: bool)
    requires i < |names|
    ensures Played(names[..i + 1], unlinkEach) == Played(names[..i], unlinkEach) + Handled(names[i], unlinkEach)
  {
    if unlinkEach {
      StepPlayThenUnlink(names, i);
    } else {
      StepPlays(names, i);
    }
  }

  lemma StepKept(files: map<string, Audio>, names: seq<string>, i: nat, unlinkEach: bool)
    requires i < |names|
    ensures Kept(files, names[..i + 1], unlinkEach)
      == if unlinkEach then Kept(files, names[..i], unlinkEach) - {names[i]} else Kept(files, names[..i], unlinkEach)
  {
    if unlinkEach {
      StepElements(names, i);
      RemoveStep(files, Elements(names[..i]), names[i]);
    }
  }

  /** Regrouping an appended log. */
  lemma LogAssoc(a: seq<Event>, b: seq<Event>, c: seq<Event>)
    ensures (a + b) + c == a + (b + c)
  {
  }

  /** Removing one more name from a directory listing. */
  lemma RemoveStep(m: map<string, Audio>, gone: set<string>, x: string)
    ensures (m - gone) - {x} == m - (gone + {x})
  {
  }

  /**
   * How a synthesis loop names its files and treats its lines: the name
   * the line at each 1-based position is saved under, whether a failing
   * synthesis is suppressed (`with suppress(Exception)`) or propagates, and
   * whether empty lines are skipped (`if line:`).
   */
  datatype Policy = Policy(name: nat -> string, suppress: bool, skipEmpty: bool)

  /**
   * The policy of `MarkdownToSpeech.text_to_speech` and of the package's
   * `text_to_speech`: `<k>.mp3`, nothing suppressed, empty lines skipped.
   */
  const UnpaddedMp3Policy := Policy((k: nat) => FileName(Unpadded("mp3"), k), false, true)

  /** Different positions are saved under different names. */
  ghost predicate Injective(name: nat -> string)
  {
    forall m: nat, n: nat :: name(m) == name(n) ==> m == n
  }

  /** Both naming schemes are injective. */
  lemma SchemeInjective(naming: Naming, name: nat -> string)
    requires forall k: nat :: name(k) == FileName(naming, k)
    ensures Injective(name)
  {
    forall m: nat, n: nat | name(m) == name(n)
      ensures m == n
    {
      FileNameInjective(naming, m, n);
    }
  }

  /** The files after a synthesis loop, and whether an exception left it. */
  datatype Batch = Batch(files: map<string, Audio>, failed: bool)

  /** The line is handed to the synthesiser. */
  predicate Attempted(p: Policy, line: string)
  {
    !p.skipEmpty || line != ""
  }

  /** The line raises out of the loop: attempted, failing, not suppressed. */
  predicate Stops(p: Policy, tts: string -> Option<Audio>, line: string)
  {
    !p.suppress && Attempted(p, line) && tts(line).None?
  }

  /** The line at 1-based position `k` of its chunk. */
  function SaveLine(b: Batch, line: string, k: nat, tts: string -> Option<Audio>, p: Policy): (r: Batch)
    ensures b.files.Keys <= r.files.Keys <= b.files.Keys + {p.name(k)}
    ensures r.failed <==> b.failed || Stops(p, tts, line)
  {
    if !Attempted(p, line) then b
    else match tts(line)
      case Some(a) => Batch(b.files[p.name(k) := a], b.failed)
      case None => if p.suppress then b else Batch(b.files, true)
  }

  /** `for count, line in enumerate(words, 1)`, continued from position `k`. */
  function SaveLines(b: Batch, lines: seq<string>, k: nat, tts: string -> Option<Audio>, p: Policy): (r: Batch)
    ensures b.failed ==> r == b
    ensures b.files.Keys <= r.files.Keys
    decreases |lines|
  {
    if b.failed || lines == [] then b
    else SaveLines(SaveLine(b, lines[0], k, tts, p), lines[1..], k + 1, tts, p)
  }

  /** `for words in splitted_words`: every chunk counts its positions from 1 again. */
  function SaveChunks(b: Batch, chunks: seq<seq<string>>, tts: string -> Option<Audio>, p: Policy): (r: Batch)
    ensures b.files.Keys <= r.files.Keys
    ensures b.failed ==> r.failed
    decreases |chunks|
  {
    if chunks == [] then b
    else SaveChunks(SaveLines(b, chunks[0], 1, tts, p), chunks[1..], tts, p)
  }

  /** The names positions `lo` up to, not including, `hi` are saved under. */
  function Slots(name: nat -> string, lo: nat, hi: nat): set<string>
  {
    set j: nat | lo <= j < hi :: name(j)
  }

  lemma SlotsSplit(name: nat -> string, lo: nat, hi: nat)
    requires lo < hi
    ensures Slots(name, lo, hi) == {name(lo)} + Slots(name, lo + 1, hi)
  {
    assert name(lo) in Slots(name, lo, hi);
  }

  lemma SlotsMonotone(name: nat -> string, hi: nat, hi': nat)
    requires hi <= hi'
    ensures Slots(name, 1, hi) <= Slots(name, 1, hi')
  {
  }

  /** With an injective scheme, a position outside `lo` up to `hi` has a name no position inside shares. */
  lemma NotInSlots(name: nat -> string, k: nat, lo: nat, hi: nat)
    requires Injective(name) && (k < lo || hi <= k)
    ensures name(k) !in Slots(name, lo, hi)
  {
  }

  /**
   * A chunk adds files and overwrites files only under its own positional
   * names; it never deletes, and every other file keeps its contents.
   */
  lemma {:induction false} SaveLinesFrame(b: Batch, lines: seq<string>, k: nat, tts: string -> Option<Audio>, p: Policy)
    ensures var r := SaveLines(b, lines, k, tts, p);
      && b.files.Keys <= r.files.Keys <= b.files.Keys + Slots(p.name, k, k + |lines|)
      && forall n :: n in b.files && n !in Slots(p.name, k, k + |lines|) ==> r.files[n] == b.files[n]
    decreases |lines|
  {
    if !b.failed && lines != [] {
      var b' := SaveLine(b, lines[0], k, tts, p);
      SaveLinesFrame(b', lines[1..], k + 1, tts, p);
      SlotsSplit(p.name, k, k + |lines|);
    }
  }

  /** The same for all chunks, bounded by the longest chunk. */
  lemma {:induction false} SaveChunksFrame(b: Batch, chunks: seq<seq<string>>, tts: string -> Option<Audio>, p: Policy, n: nat)
    requires forall i :: 0 <= i < |chunks| ==> |chunks[i]| <= n
    ensures var r := SaveChunks(b, chunks, tts, p);
      && b.files.Keys <= r.files.Keys <= b.files.Keys + Slots(p.name, 1, n + 1)
      && forall x :: x in b.files && x !in Slots(p.name, 1, n + 1) ==> r.files[x] == b.files[x]
    decreases |chunks|
  {
    if chunks != [] {
      var b' := SaveLines(b, chunks[0], 1, tts, p);
      SaveLinesFrame(b, chunks[0], 1, tts, p);
      SlotsMonotone(p.name, 1 + |chunks[0]|, n + 1);
      SaveChunksFrame(b', chunks[1..], tts, p, n);
    }
  }

  /**
   * A line that is attempted and synthesised is saved under the name of its
   * position, unless an earlier line of the chunk raised out of the loop.
   */
  lemma {:induction false} SaveLinesWrites(b: Batch, lines: seq<string>, k: nat, tts: string -> Option<Audio>, p: Policy, j: nat)
    requires !b.failed && j < |lines|
    requires forall i :: 0 <= i < j ==> !Stops(p, tts, lines[i])
    requires Attempted(p, lines[j]) && tts(lines[j]).Some?
    requires Injective(p.name)
    ensures var r := SaveLines(b, lines, k, tts, p);
      p.name(k + j) in r.files && r.files[p.name(k + j)] == tts(lines[j]).value
    decreases |lines|
  {
    var b' := SaveLine(b, lines[0], k, tts, p);
    if j == 0 {
      assert b' == Batch(b.files[p.name(k) := tts(lines[0]).value], false);
      SaveLinesFrame(b', lines[1..], k + 1, tts, p);
      NotInSlots(p.name, k, k + 1, k + 1 + |lines[1..]|);
    } else {
      assert !Stops(p, tts, lines[0]);
      assert !b'.failed;
      SaveLinesWrites(b', lines[1..], k + 1, tts, p, j - 1);
      assert lines[1..][j - 1] == lines[j];
    }
  }

  /**
   * A line that is skipped or whose synthesis fails writes nothing: the file
   * under its position's name is whatever it was before the chunk.
   */
  lemma {:induction false} SaveLinesSkips(b: Batch, lines: seq<string>, k: nat, tts: string -> Option<Audio>, p: Policy, j: nat)
    requires j < |lines|
    requires !Attempted(p, lines[j]) || tts(lines[j]).None?
    requires Injective(p.name)
    ensures var n, r := p.name(k + j), SaveLines(b, lines, k, tts, p);
      && (n in r.files <==> n in b.files)
      && (n in b.files ==> r.files[n] == b.files[n])
    decreases |lines|
  {
    if !b.failed {
      var b' := SaveLine(b, lines[0], k, tts, p);
      if j == 0 {
        assert b'.files == b.files;
        SaveLinesFrame(b', lines[1..], k + 1, tts, p);
        NotInSlots(p.name, k, k + 1, k + 1 + |lines[1..]|);
      } else {
        SaveLineElsewhere(b, lines[0], k, tts, p, p.name(k + j));
        assert lines[1..][j - 1] == lines[j];
        SaveLinesSkips(b', lines[1..], k + 1, tts, p, j - 1);
      }
    }
  }

  /** One line touches no name but its own. */
  lemma SaveLineElsewhere(b: Batch, line: string, k: nat, tts: string -> Option<Audio>, p: Policy, n: string)
    requires n != p.name(k)
    ensures var r := SaveLine(b, line, k, tts, p);
      && (n in r.files <==> n in b.files)
      && (n in b.files ==> r.files[n] == b.files[n])
  {
  }

  /** With suppression no line ever raises out of the loop. */
  lemma {:induction false} SuppressNeverFails(b: Batch, chunks: seq<seq<string>>, tts: string -> Option<Audio>, p: Policy)
    requires p.suppress && !b.failed
    ensures !SaveChunks(b, chunks, tts, p).failed
    decreases |chunks|
  {
    if chunks != [] {
      SuppressNeverFailsLines(b, chunks[0], 1, tts, p);
      SuppressNeverFails(SaveLines(b, chunks[0], 1, tts, p), chunks[1..], tts, p);
    }
  }

  lemma {:induction false} SuppressNeverFailsLines(b: Batch, lines: seq<string>, k: nat, tts: string -> Option<Audio>, p: Policy)
    requires p.suppress && !b.failed
    ensures !SaveLines(b, lines, k, tts, p).failed
    decreases |lines|
  {
    if lines != [] {
      SuppressNeverFailsLines(SaveLine(b, lines[0], k, tts, p), lines[1..], k + 1, tts, p);
    }
  }

  /** Once an exception has left the loop, no later chunk is looked at. */
  lemma {:induction false} SaveChunksAfterFailure(b: Batch, chunks: seq<seq<string>>, tts: string -> Option<Audio>, p: Policy)
    requires b.failed
    ensures SaveChunks(b, chunks, tts, p) == b
    decreases |chunks|
  {
    if chunks != [] {
      SaveChunksAfterFailure(b, chunks[1..], tts, p);
    }
  }

  /** Adding a chunk at the end runs it on the files the earlier chunks left. */
  lemma {:induction false} SaveChunksAppend(b: Batch, cs: seq<seq<string>>, c: seq<string>, tts: string -> Option<Audio>, p: Policy)
    ensures SaveChunks(b, cs + [c], tts, p) == SaveLines(SaveChunks(b, cs, tts, p), c, 1, tts, p)
    decreases |cs|
  {
    if cs == [] {
      assert cs + [c] == [c];
    } else {
      assert (cs + [c])[1..] == cs[1..] + [c];
      SaveChunksAppend(SaveLines(b, cs[0], 1, tts, p), cs[1..], c, tts, p);
    }
  }

  /**
   * Positions restart in every chunk, so once the earlier chunks have run
   * without raising, a later chunk's line at position `j + 1` overwrites
   * what any earlier chunk saved there, unless a line before it raises.
   */
  lemma LastChunkWins(b: Batch, cs: seq<seq<string>>, c: seq<string>, j: nat, tts: string -> Option<Audio>, p: Policy)
    requires !SaveChunks(b, cs, tts, p).failed
    requires j < |c| && forall i :: 0 <= i < j ==> !Stops(p, tts, c[i])
    requires Attempted(p, c[j]) && tts(c[j]).Some?
    requires Injective(p.name)
    ensures var r := SaveChunks(b, cs + [c], tts, p);
      p.name(j + 1) in r.files && r.files[p.name(j + 1)] == tts(c[j]).value
  {
    SaveChunksAppend(b, cs, c, tts, p);
    SaveLinesWrites(SaveChunks(b, cs, tts, p), c, 1, tts, p, j);
  }

  /** Without suppression a chunk raises exactly when one of its lines does. */
  lemma {:induction false} SaveLinesFails(b: Batch, lines: seq<string>, k: nat, tts: string -> Option<Audio>, p: Policy)
    requires !b.failed
    ensures SaveLines(b, lines, k, tts, p).failed <==> exists j :: 0 <= j < |lines| && Stops(p, tts, lines[j])
    decreases |lines|
  {
    if lines != [] {
      var b' := SaveLine(b, lines[0], k, tts, p);
      if !b'.failed {
        SaveLinesFails(b', lines[1..], k + 1, tts, p);
        if exists j :: 0 <= j < |lines| && Stops(p, tts, lines[j]) {
          var j :| 0 <= j < |lines| && Stops(p, tts, lines[j]);
          assert lines[1..][j - 1] == lines[j];
        }
        if exists j :: 0 <= j < |lines[1..]| && Stops(p, tts, lines[1..][j]) {
          var j :| 0 <= j < |lines[1..]| && Stops(p, tts, lines[1..][j]);
          assert lines[j + 1] == lines[1..][j];
        }
      }
    }
  }

  /**
   * Without suppression the first failing line ends the loop: the lines
   * before it are saved and none after it is attempted.
   */
  lemma {:induction false} SaveLinesStopsAt(b: Batch, lines: seq<string>, k: nat, tts: string -> Option<Audio>, p: Policy, j: nat)
    requires !b.failed && j < |lines| && Stops(p, tts, lines[j])
    requires forall i :: 0 <= i < j ==> !Stops(p, tts, lines[i])
    ensures SaveLines(b, lines, k, tts, p) == Batch(SaveLines(b, lines[..j], k, tts, p).files, true)
    decreases j
  {
    var b' := SaveLine(b, lines[0], k, tts, p);
    if j > 0 {
      assert !Stops(p, tts, lines[0]);
      assert lines[..j][0] == lines[0];
      assert lines[..j][1..] == lines[1..][..j - 1];
      SaveLinesStopsAt(b', lines[1..], k + 1, tts, p, j - 1);
    }
  }

  /** Without suppression the whole run raises exactly when some line of some chunk does. */
  lemma {:induction false} SaveChunksFails(b: Batch, chunks: seq<seq<string>>, tts: string -> Option<Audio>, p: Policy)
    requires !b.failed
    ensures SaveChunks(b, chunks, tts, p).failed <==>
      exists i, j :: 0 <= i < |chunks| && 0 <= j < |chunks[i]| && Stops(p, tts, chunks[i][j])
    decreases |chunks|
  {
    if chunks != [] {
      var b' := SaveLines(b, chunks[0], 1, tts, p);
      SaveLinesFails(b, chunks[0], 1, tts, p);
      if b'.failed {
        SaveChunksAfterFailure(b', chunks[1..], tts, p);
        var j :| 0 <= j < |chunks[0]| && Stops(p, tts, chunks[0][j]);
        assert Stops(p, tts, chunks[0][j]);
      } else {
        SaveChunksFails(b', chunks[1..], tts, p);
        if exists i, j :: 0 <= i < |chunks| && 0 <= j < |chunks[i]| && Stops(p, tts, chunks[i][j]) {
          var i, j :| 0 <= i < |chunks| && 0 <= j < |chunks[i]| && Stops(p, tts, chunks[i][j]);
          assert i > 0;
          assert chunks[1..][i - 1] == chunks[i];
        }
        if exists i, j :: 0 <= i < |chunks[1..]| && 0 <= j < |chunks[1..][i]| && Stops(p, tts, chunks[1..][i][j]) {
          var i, j :| 0 <= i < |chunks[1..]| && 0 <= j < |chunks[1..][i]| && Stops(p, tts, chunks[1..][i][j]);
          assert chunks[i + 1] == chunks[1..][i];
        }
      }
    }
  }

  /**
   * After a clean-up of every name ending in `mp3`, each such name in the
   * directory was saved by this run, under one of its positional names.
   */
  lemma PreCleanLeavesOnlyRun(files: map<string, Audio>, chunks: seq<seq<string>>, tts: string -> Option<Audio>, p: Policy, n: nat)
    requires forall i :: 0 <= i < |chunks| ==> |chunks[i]| <= n
    ensures var r := SaveChunks(Batch(Cleaned(files, "mp3"), false), chunks, tts, p);
      forall x :: x in r.files && EndsWith(x, "mp3") ==> x in Slots(p.name, 1, n + 1)
  {
    SaveChunksFrame(Batch(Cleaned(files, "mp3"), false), chunks, tts, p, n);
  }

  /** An empty line is skipped but still counted: the third line is saved under the name of position 3. */
  lemma SkippedLineCounted(x: string, y: string, tts: string -> Option<Audio>, p: Policy)
    requires p.skipEmpty && x != "" && y != "" && tts(x).Some? && tts(y).Some?
    ensures SaveLines(Batch(map[], false), [x, "", y], 1, tts, p)
      == Batch(map[p.name(1) := tts(x).value, p.name(3) := tts(y).value], false)
  {
    var b1 := SaveLine(Batch(map[], false), x, 1, tts, p);
    var b2 := SaveLine(b1, "", 2, tts, p);
    assert [x, "", y][1..] == ["", y];
    assert ["", y][1..] == [y];
    assert SaveLines(b2, [y], 3, tts, p) == SaveLine(b2, y, 3, tts, p);
  }

  /** The directory `tmp_dir`: its regular files by name, and the calls made on them. */
  class Directory {
    var files: map<string, Audio>
    var log: seq<Event>

    constructor (files: map<string, Audio>)
      ensures this.files == files && log == []
    {
      this.files := files;
      log := [];
    }

    /**
     * `clean_up_files(file_format)`: unlinks, in sorted order, every name the
     * glob `*<suffix>` matched. `files - {n}` leaves a name that is already
     * gone alone, as `suppress(FileNotFoundError)` does.
     */
    method CleanUp(suffix: string)
      modifies this
      ensures files == Cleaned(old(files), suffix)
      ensures log == old(log) + Unlinks(SortedOf(Matching(old(files), suffix)))
    {
      var names := Sort(Matching(files, suffix));
      UnlinkAll(names);
    }

    /**
     * `mp3_file.unlink()` under `suppress(FileNotFoundError)`: a name that is
     * already gone stays gone.
     */
    method UnlinkOne(name: string)
      modifies this
      ensures files == old(files) - {name}
      ensures log == old(log) + [Unlink(name)]
    {
      files := files - {name};
      log := log + [Unlink(name)];
    }

    /** `for mp3_file in names: mp3_file.unlink()`. */
    method UnlinkAll(names: seq<string>)
      modifies this
      ensures files == old(files) - Elements(names)
      ensures log == old(log) + Unlinks(names)
    {
      var i := 0;
      while i < |names|
        invariant 0 <= i <= |names|
        invariant files == old(files) - Elements(names[..i])
        invariant log == old(log) + Unlinks(names[..i])
      {
        StepElements(names, i);
        StepUnlinks(names, i);
        RemoveStep(old(files), Elements(names[..i]), names[i]);
        LogAssoc(old(log), Unlinks(names[..i]), [Unlink(names[i])]);
        UnlinkOne(names[i]);
        i := i + 1;
      }
      assert names[..i] == names;
    }

    /**
     * The nested loop of `text_to_speech`: the outcome is `SaveChunks` on the
     * directory as it was, and `failed` tells whether an exception left it.
     */
    method Synthesize(chunks: seq<seq<string>>, tts: string -> Option<Audio>, p: Policy) returns (failed: bool)
      modifies this
      ensures Batch(files, failed) == SaveChunks(Batch(old(files), false), chunks, tts, p)
      ensures log == old(log)
    {
      ghost var goal := SaveChunks(Batch(files, false), chunks, tts, p);
      failed := false;
      var i := 0;
      while i < |chunks| && !failed
        invariant 0 <= i <= |chunks|
        invariant SaveChunks(Batch(files, failed), chunks[i..], tts, p) == goal
        invariant log == old(log)
      {
        assert chunks[i..][1..] == chunks[i + 1..];
        failed := SaveWords(chunks[i], tts, p);
        i := i + 1;
      }
      if failed {
        SaveChunksAfterFailure(Batch(files, failed), chunks[i..], tts, p);
      }
    }

    /**
     * The inner loop `for count, line in enumerate(words, 1)`: the outcome
     * is `SaveLines` from position 1 on the directory as it was.
     */
    method SaveWords(words: seq<string>, tts: string -> Option<Audio>, p: Policy) returns (failed: bool)
      modifies this
      ensures Batch(files, failed) == SaveLines(Batch(old(files), false), words, 1, tts, p)
      ensures log == old(log)
    {
      ghost var goal := SaveLines(Batch(files, false), words, 1, tts, p);
      failed := false;
      var j := 0;
      while j < |words| && !failed
        invariant 0 <= j <= |words|
        invariant SaveLines(Batch(files, failed), words[j..], j + 1, tts, p) == goal
        invariant log == old(log)
      {
        var line := words[j];
        assert words[j..][1..] == words[j + 1..];
        if Attempted(p, line) {
          match tts(line)
          case Some(a) =>
            files := files[p.name(j + 1) := a];
          case None =>
            if !p.suppress {
              failed := true;
            }
        }
        j := j + 1;
      }
    }

    /**
     * The playback loop: plays every name the glob `*<suffix>` matched, in
     * sorted order, each exactly once; with `unlinkEach` a file is unlinked
     * right after it was played.
     */
    method PlayAll(suffix: string, unlinkEach: bool)
      modifies this
      ensures var names := SortedOf(Matching(old(files), suffix));
        log == old(log) + if unlinkEach then PlayThenUnlink(names) else Plays(names)
      ensures files == if unlinkEach then Cleaned(old(files), suffix) else old(files)
    {
      var names := Sort(Matching(files, suffix));
      PlayEach(names, unlinkEach);
    }

    /** `subprocess.call(f"{play_with} {mp3_file}", shell=True)`, which leaves the file in place. */
    method PlayOne(name: string)
      modifies this
      ensures files == old(files)
      ensures log == old(log) + [Play(name)]
    {
      log := log + [Play(name)];
    }

    /** One pass of the loop body: play `name` and, with `unlinkEach`, unlink it straight after. */
    method PlayNext(name: string, unlinkEach: bool)
      modifies this
      ensures files == if unlinkEach then old(files) - {name} else old(files)
      ensures log == old(log) + Handled(name, unlinkEach)
    {
      // `if mp3_file.is_file()`: every entry of the model is a regular file.
      PlayOne(name);
      if unlinkEach {
        UnlinkOne(name);
        LogAssoc(old(log), [Play(name)], [Unlink(name)]);
      }
    }

    /** `for mp3_file in names`: play it, and with `unlinkEach` unlink it straight after. */
    method PlayEach(names: seq<string>, unlinkEach: bool)
      modifies this
      ensures log == old(log) + Played(names, unlinkEach)
      ensures files == Kept(old(files), names, unlinkEach)
    {
      var i := 0;
      while i < |names|
        invariant 0 <= i <= |names|
        invariant files == Kept(old(files), names[..i], unlinkEach)
        invariant log == old(log) + Played(names[..i], unlinkEach)
      {
        StepPlayed(names, i, unlinkEach);
        StepKept(old(files), names, i, unlinkEach);
        LogAssoc(old(log), Played(names[..i], unlinkEach), Handled(names[i], unlinkEach));
        PlayNext(names[i], unlinkEach);
        i := i + 1;
      }
      assert names[..i] == names;
    }
  }
}
