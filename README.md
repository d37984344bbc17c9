# medium-to-speech, modelled in Dafny

medium-to-speech reads a Medium post or a Markdown file and reads it aloud. It
works in six steps:

- It fetches the Markdown, from Docker's `mediumexporter` image or from a file.
- It converts the Markdown to plain text. A tree flattener (`unmark_element`)
  is patched into the Markdown library for this.
- It splits the text into non-empty lines, strips HTML tags from each line
  (`remove_tags`) and cuts the lines into chunks of 99.
- It saves each line as an MP3 file in a temporary directory, using gTTS.
- It plays the MP3 files in sorted-name order.
- It cleans the directory with a glob.

The repository has four versions of this pipeline, and the model covers all of
them:

- `class MediumToSpeech` (module `MediumClass`);
- `class MarkdownToSpeech` (module `MarkdownClass`);
- the module-level functions of the `medium_speech` package (module `Package`);
- the prototype script `main.py` (module `Prototype`).

`remove_tags`, `unmark_element` and `splits_words` are textually the same in
every version that defines them, so each has one shared definition. The shared modules are:

- `Markup`: the tag stripper, and the element tree with its flattener.
  - `RemoveTags` is the left-to-right scan that `re.sub(r"<[^>]+>", "", s)`
    performs.
  - `UnmarkElement` writes into a `Stream` object, as the original writes into
    one shared `StringIO`. It is proved equal to the recursive function
    `Flatten`.
- `Lines`: `str.split`, `str.join`, the filter `[x for x in ... if x]`, and
  `rstrip`/`lstrip`/`strip`.
- `Chunking`: `splits_words`. It is proved to be the unique order-preserving
  partition into slices of the bound.
- `Names`: `str(n)`, `zfill`, and the two file-naming schemes: `file_NN.mp3`
  and `<k>.<ext>`.
- `Sorting`: Python's string order and `sorted()` on a set of names.
- `WorkDir`: the temporary directory, as a `Directory` class.
  - Its `files` field is a map from names to audio.
  - Its `log` field records plays and unlinks in order.
  - It has the clean-up, synthesis and playback loops as methods.
  - The nested synthesis loop is specified by the functions `SaveLines` and
    `SaveChunks`. These are parameterised by a `Policy`, which holds the naming
    scheme, whether failures are suppressed, and whether empty lines are
    skipped.
- `Pipeline`: source selection, `bytes_to_str`, and the final line filter.

The model takes the outside world as parameters.

In the `Env` datatype:
- `read`: reading the post, through Docker or a file;
- `decode`: UTF-8 decoding;
- `convert`: Markdown conversion;
- `tts`: speech synthesis, as `string -> Option<Audio>`;
- `which`: executable lookup.

Separate parameters:
- `rmReturns`: whether main.py's `subprocess.call("rm -rf ...")` returns.

An empty string stands for `None` wherever the code only tests truthiness.

## Model

| member | source | states |
|---|---|---|
| Markup.RemoveTags | medium_speech/MediumToSpeech.py:125-135 | tag removal never lengthens the text |
| Markup.RemoveTagsChars | medium_speech/MediumToSpeech.py:134-135 | every character of the result occurs in the input |
| Markup.RemoveTagsKeepsPrefix | medium_speech/MediumToSpeech.py:134-135 | text before the first `<` is copied unchanged, and the rest is processed on its own |
| Markup.RemoveTagsNoOpen | medium_speech/MarkdownToSpeech.py:93-94 | a string without `<` is returned unchanged |
| Markup.RemoveTagsDropsTag | medium_speech/__init__.py:24-25 | `<t>` with a non-empty body free of `>` is deleted as a whole |
| Markup.RemoveTagsOpenClose | medium_speech/MediumToSpeech.py:134 | a `<` directly followed by `>` is kept and the scan resumes at the `>` |
| Markup.RemoveTagsKeepsEmptyBrackets | medium_speech/MediumToSpeech.py:134 | `<>` does not match `<[^>]+>`: both characters stay |
| Markup.RemoveTagsKeepsUnclosed | medium_speech/MediumToSpeech.py:134 | a `<` with no later `>` stays |
| Markup.RemoveTagsBold | medium_speech/MediumToSpeech.py:134-135 | text around a `<b>…</b>` pair loses exactly the two tags |
| Markup.RemoveTagsExample | tests/unit_tests.py:73-78 | `"Hello, <b>world</b>"` becomes `"Hello, world"` |
| Markup.RemoveTagsTagFree | medium_speech/MediumToSpeech.py:134-135 | no span matching `<[^>]+>` is left in the result |
| Markup.RemoveTagsOnTagFree | medium_speech/MediumToSpeech.py:134-135 | a string with no such span is unchanged |
| Markup.RemoveTagsIdempotent | medium_speech/MediumToSpeech.py:134-135 | stripping twice is stripping once |
| Markup.Flatten | medium_speech/MediumToSpeech.py:150-160 | the pre-order text of a node: it opens with the node's text and is at least as long as its text and tail together |
| Markup.FlattenAll | medium_speech/MediumToSpeech.py:156-157 | the children's texts in order: a non-empty run opens with its first node's text and holds at least that node's flattening |
| Markup.FlattenAllAppend | medium_speech/MediumToSpeech.py:156-157 | flattening a run of siblings distributes over concatenation of the run |
| Markup.FlattenAvoids | medium_speech/MediumToSpeech.py:150-160 | a character in no text or tail of the tree is not in its flattening |
| Markup.Stream.Write | medium_speech/MediumToSpeech.py:155 | `stream.write(s)` appends `s` |
| Markup.UnmarkElement | medium_speech/MediumToSpeech.py:150-160 | appends exactly the pre-order flattening (text, children in order, tail) to the shared stream and returns the stream's whole contents |
| Markup.Unmark | main.py:19-29 | with no stream given, returns exactly the flattening of the tree |
| Lines.Split | medium_speech/MediumToSpeech.py:232 | `split("\n")` gives at least one piece, none holding the separator |
| Lines.SplitJoin | medium_speech/MediumToSpeech.py:232 | joining the pieces back gives the text: splitting loses nothing |
| Lines.JoinSplit | medium_speech/MediumToSpeech.py:232 | splitting separator-free pieces joined by the separator gives back those pieces |
| Lines.SplitAround | medium_speech/MediumToSpeech.py:232 | a separator ends the pieces before it and starts the pieces after it |
| Lines.SplitConcat | medium_speech/MediumToSpeech.py:232 | the pieces, concatenated, are the text without its separators |
| Lines.NonEmpty | medium_speech/MediumToSpeech.py:232 | the filter `if x` keeps only non-empty elements drawn from the input |
| Lines.NonEmptyAppend | medium_speech/MarkdownToSpeech.py:181 | the filter keeps order: it distributes over concatenation |
| Lines.NonEmptyConcat | medium_speech/__init__.py:109 | dropping empty strings does not change the concatenation |
| Lines.PlainLines | medium_speech/MediumToSpeech.py:232 | no returned line is empty or holds `"\n"` |
| Lines.PlainLinesConcat | medium_speech/MediumToSpeech.py:232 | no character other than a newline is lost, and order is kept |
| Lines.PlainLinesAround | medium_speech/MarkdownToSpeech.py:181 | a newline separates the lines before it from the lines after it |
| Lines.PlainLinesOfJoin | medium_speech/__init__.py:109 | lines joined by newlines come back as exactly the non-empty ones, in order |
| Lines.PlainLinesSingle | medium_speech/MediumToSpeech.py:232 | a piece without a newline is kept if it is non-empty, even when it is all whitespace |
| Lines.RStrip | main.py:50 | `rstrip()`: a prefix of the input, with only whitespace cut off, not ending in whitespace |
| Lines.LStrip | medium_speech/__init__.py:69 | `lstrip()`: a suffix of the input, with only whitespace cut off, not starting with whitespace |
| Lines.Strip | medium_speech/__init__.py:69 | `strip()`: the input is whitespace, the result, then whitespace, and the result has no whitespace at either end |
| Chunking.Chunks | medium_speech/MediumToSpeech.py:197 | the slices concatenate to the input; each slice has 1 to k items and all but the last have exactly k; no slices iff no input |
| Chunking.ChunksCount | medium_speech/MediumToSpeech.py:197 | the number of slices is the length divided by k, rounded up |
| Chunking.ChunkingUnique | medium_speech/MarkdownToSpeech.py:156-158 | any partition into contiguous slices with those bounds is the one `Chunks` gives |
| Chunking.StripAll | medium_speech/MediumToSpeech.py:196 | the i-th element is the i-th input with its tags removed |
| Chunking.SplitsWords | medium_speech/MediumToSpeech.py:180-197 | non-list gives `None`; a zero bound raises `ValueError` (a `range` step of 0); a negative bound gives `[]`; a positive bound gives `Chunks` of the tag-stripped lines |
| Chunking.SplitsWordsEmpty | medium_speech/__init__.py:88-90 | `[]` gives `[]` |
| Chunking.SplitsWordsShort | medium_speech/__init__.py:88-90 | a list no longer than the bound is one chunk |
| Chunking.EmptyTag | medium_speech/__init__.py:24-25 | a line that is one whole tag strips to `""` |
| Chunking.StripDocstring | medium_speech/MediumToSpeech.py:191-196 | the docstring's lines strip to `["", "hello", "World", "!", ""]` |
| Chunking.SplitsWordsExample | medium_speech/MediumToSpeech.py:191-197 | the docstring example gives `[["", "hello", "World", "!", ""]]` |
| Names.NatToString | medium_speech/MediumToSpeech.py:261 | `str(n)`: one or more decimal digits, no leading zero, one digit iff n < 10 |
| Names.NatToStringValue | medium_speech/MediumToSpeech.py:261 | `int(str(n)) == n` |
| Names.NatToStringInjective | medium_speech/MarkdownToSpeech.py:203 | different numbers have different decimal forms |
| Names.FileName | medium_speech/MediumToSpeech.py:261 | `file_NN.mp3` starts with `file_`, ends with `.mp3` and has at least 11 characters; `<k>.<ext>` starts with a digit and ends with `.` and the extension |
| Names.ZFill | medium_speech/MediumToSpeech.py:261 | `zfill(w)`: pads with leading zeros to length w, keeping the text as a suffix |
| Names.PaddedInjective | medium_speech/MediumToSpeech.py:261 | padding to two places loses nothing |
| Names.FileNameInjective | medium_speech/MediumToSpeech.py:261 | both naming schemes give different positions different names |
| Names.PaddedDigits | medium_speech/MediumToSpeech.py:261 | below 100, the padded form is exactly two digits |
| Names.PaddedLength | medium_speech/MediumToSpeech.py:261 | for positions 1 to 99, `file_NN.mp3` has 11 characters |
| Names.PaddedForm | medium_speech/MediumToSpeech.py:261 | below 100, the padded name is `file_`, two digits, then `.mp3` |
| Names.PaddedOrder | medium_speech/MediumToSpeech.py:261 | padded names sort in position order |
| Names.PaddedNames | medium_speech/MediumToSpeech.py:261 | positions 1 and 3 are `file_01.mp3` and `file_03.mp3` |
| Names.UnpaddedOrder | medium_speech/MarkdownToSpeech.py:203 | `10.mp3` sorts before `2.mp3` |
| Sorting.Less | medium_speech/MediumToSpeech.py:239 | Python's `str <`: a proper prefix sorts first, and no name sorts before one of its own prefixes |
| Sorting.LessIrreflexive | medium_speech/MediumToSpeech.py:239 | no name sorts before itself |
| Sorting.LessAsymmetric | medium_speech/MediumToSpeech.py:239 | two names never sort before each other |
| Sorting.LessTransitive | medium_speech/MediumToSpeech.py:239 | string order is transitive |
| Sorting.LessTotal | medium_speech/MediumToSpeech.py:239 | any two different names are ordered |
| Sorting.LessCommonPrefix | medium_speech/MediumToSpeech.py:236-239 | the directory prefix of the paths does not change their order |
| Sorting.MinExists | medium_speech/MediumToSpeech.py:239 | a non-empty set of names has a smallest one |
| Sorting.SortedOf | medium_speech/MediumToSpeech.py:239 | `sorted()` of a set: strictly ascending, same length, exactly its elements |
| Sorting.SortedUnique | medium_speech/MediumToSpeech.py:239 | only one strictly ascending sequence holds a given set |
| Sorting.Sort | medium_speech/MediumToSpeech.py:239 | the selection loop returns the sorted names |
| Sorting.SortedOfPair | medium_speech/MediumToSpeech.py:293 | two names are played in their string order |
| WorkDir.Matching | medium_speech/MediumToSpeech.py:237 | for a `file_format` without glob wildcards, `glob("*" + suffix)` gives exactly the names ending in the suffix |
| WorkDir.Cleaned | medium_speech/MediumToSpeech.py:234-241 | after the clean-up, exactly the names not ending in the suffix remain, with their contents |
| WorkDir.CleanedIdempotent | medium_speech/MarkdownToSpeech.py:183-190 | cleaning twice is cleaning once |
| WorkDir.GlobAsymmetry | medium_speech/MediumToSpeech.py:237 | every file that playback's `*.mp3` finds, the clean-up's `*mp3` also finds |
| WorkDir.GlobAsymmetryWitness | medium_speech/MediumToSpeech.py:283 | `talk_mp3` is cleaned but never played |
| WorkDir.Plays | medium_speech/MediumToSpeech.py:293-301 | one play event per name, in order |
| WorkDir.Unlinks | medium_speech/MediumToSpeech.py:239-241 | one unlink event per name, in order |
| WorkDir.PlayThenUnlink | medium_speech/__init__.py:181-191 | two events per name |
| WorkDir.PlayThenUnlinkAt | medium_speech/__init__.py:181-191 | the i-th name is played and then unlinked, before the next name |
| WorkDir.Elements | medium_speech/MediumToSpeech.py:239 | the set of names a sequence holds |
| WorkDir.Handled | medium_speech/__init__.py:182-191 | one pass of the playback loop logs a play, then an unlink when deleting |
| WorkDir.SchemeInjective | medium_speech/__init__.py:165 | both naming schemes are injective |
| WorkDir.SaveLine | medium_speech/MediumToSpeech.py:257-261 | one line adds or replaces at most the file under its own position's name, deletes nothing, and raises exactly when it is attempted, fails and is not suppressed |
| WorkDir.SaveLines | medium_speech/MediumToSpeech.py:255-261 | the loop over one chunk never deletes a file and does nothing once an exception has left it |
| WorkDir.SaveChunks | medium_speech/MarkdownToSpeech.py:198-203 | the loop over all chunks never deletes a file, and an exception that has left it is not undone |
| WorkDir.SlotsSplit | medium_speech/MediumToSpeech.py:256 | the names for positions lo to hi are the name for lo plus those for lo+1 to hi |
| WorkDir.SlotsMonotone | medium_speech/MediumToSpeech.py:256 | more positions give more names |
| WorkDir.NotInSlots | medium_speech/MediumToSpeech.py:256 | with an injective scheme, a position outside a range has a name no position inside shares |
| WorkDir.SaveLinesFrame | medium_speech/MarkdownToSpeech.py:199-203 | a chunk never deletes a file and adds or overwrites only the names of its own positions; every other file keeps its contents |
| WorkDir.SaveChunksFrame | medium_speech/MediumToSpeech.py:255-261 | the whole loop writes only names of positions up to the longest chunk |
| WorkDir.SaveLinesWrites | medium_speech/MediumToSpeech.py:256-261 | a line reached before any raise, if attempted and synthesised, is saved under its position's name |
| WorkDir.SaveLinesSkips | medium_speech/MediumToSpeech.py:257-261 | a skipped or failed line writes nothing: the name of its position is present afterwards iff it was before, with the same contents |
| WorkDir.SaveLineElsewhere | medium_speech/MediumToSpeech.py:261 | saving one line touches no other name |
| WorkDir.SuppressNeverFails | medium_speech/MediumToSpeech.py:259-261 | with `suppress(Exception)` the loop never raises |
| WorkDir.SuppressNeverFailsLines | medium_speech/MediumToSpeech.py:259-261 | the same for one chunk |
| WorkDir.SaveChunksAfterFailure | medium_speech/MarkdownToSpeech.py:198-203 | after a raise no later chunk is looked at |
| WorkDir.SaveChunksAppend | medium_speech/MediumToSpeech.py:255 | a chunk at the end runs on the files the earlier chunks left |
| WorkDir.LastChunkWins | medium_speech/MarkdownToSpeech.py:198-203 | with or without suppression, once the earlier chunks ran without raising, a later chunk's line at position k, reached with no failure before it, overwrites the file an earlier chunk saved at k |
| WorkDir.SaveLinesFails | medium_speech/MarkdownToSpeech.py:199-203 | without suppression, a chunk raises iff one of its lines is attempted and fails |
| WorkDir.SaveLinesStopsAt | medium_speech/MarkdownToSpeech.py:199-203 | the first such line ends the chunk: exactly the lines before it are saved |
| WorkDir.SaveChunksFails | medium_speech/MarkdownToSpeech.py:198-203 | the whole run raises iff some line of some chunk is attempted and fails |
| WorkDir.PreCleanLeavesOnlyRun | medium_speech/MarkdownToSpeech.py:197-203 | after a pre-clean, every `*mp3` name left is the name of a position this run can reach |
| WorkDir.SkippedLineCounted | medium_speech/MediumToSpeech.py:256-257 | `[x, "", y]` is saved at positions 1 and 3: an empty line is skipped but counted |
| WorkDir.Directory.CleanUp | medium_speech/MediumToSpeech.py:234-241 | unlinks the names the glob matched, in sorted order; a missing name is no error |
| WorkDir.Directory.UnlinkOne | medium_speech/MediumToSpeech.py:240-241 | `unlink()` under `suppress(FileNotFoundError)` |
| WorkDir.Directory.UnlinkAll | medium_speech/MediumToSpeech.py:239-241 | the loop removes exactly the given names and logs one unlink each, in order |
| WorkDir.Directory.Synthesize | medium_speech/MediumToSpeech.py:255-261 | the nested loop leaves the files `SaveChunks` gives and reports whether an exception left it |
| WorkDir.Directory.SaveWords | medium_speech/MediumToSpeech.py:256-261 | the inner loop over one chunk leaves the files `SaveLines` gives from position 1 and reports whether an exception left it |
| WorkDir.Directory.PlayAll | medium_speech/MediumToSpeech.py:283-301 | each globbed name is played once, in sorted order; with per-file deletion, each is unlinked straight after |
| WorkDir.Directory.PlayOne | medium_speech/MediumToSpeech.py:296-301 | playing leaves the files in place and logs the play |
| WorkDir.Directory.PlayNext | medium_speech/__init__.py:182-191 | one pass of the playback loop |
| WorkDir.Directory.PlayEach | medium_speech/__init__.py:181-191 | the playback loop over the sorted names |
| Pipeline.SelectSource | medium_speech/MediumToSpeech.py:205-210 | the URL whenever set, the file only without a URL, `RuntimeError("URL or Filename cannot be None")` iff neither |
| Pipeline.ReadMarkdown | medium_speech/MediumToSpeech.py:199-211 | reads the selected source; with neither source set, raises before reading |
| Pipeline.BytesToStr | medium_speech/__init__.py:54-70 | `None` for anything but bytes; otherwise a decoding error, or the decoded text stripped at both ends |
| Pipeline.PlainText | medium_speech/MediumToSpeech.py:226-232 | converting `None` raises `AttributeError`; otherwise the non-empty lines of the converted text |
| Pipeline.MdToText | medium_speech/__init__.py:93-109 | errors of decoding or of no text; otherwise the filtered lines, none empty or holding a newline |
| Pipeline.ReadAndConvert | medium_speech/MarkdownToSpeech.py:169-181 | with neither a URL nor a filename the call raises `RuntimeError("URL or Filename cannot be None")`; every line it returns is non-empty and holds no newline |
| Pipeline.NoSourceRaises | medium_speech/MarkdownToSpeech.py:169-174 | with neither source, the result is the same error whatever the collaborators do |
| Pipeline.UrlWins | medium_speech/MediumToSpeech.py:205-208 | with a URL set, the filename does not matter |
| MediumClass.MediumToSpeech.MarkdownToText | medium_speech/MediumToSpeech.py:213-232 | a falsy argument is replaced by `read_markdown()`; the lines are non-empty and newline-free |
| MediumClass.MediumToSpeech.CleanUpFiles | medium_speech/MediumToSpeech.py:234-241 | removes exactly the names ending in the format, in sorted order |
| MediumClass.MediumToSpeech.TextToSpeech | medium_speech/MediumToSpeech.py:243-262 | a conversion error leaves the directory untouched; otherwise pre-clean only with `cleanup`, save padded names with failures suppressed, never raise |
| MediumClass.MediumToSpeech.PlayIt | medium_speech/MediumToSpeech.py:264-303 | empty `play_with` raises `RuntimeError` before listing; otherwise play each `*.mp3` once in sorted order, then clean `*mp3` only with `cleanup` |
| MediumClass.CleanRunNames | medium_speech/MediumToSpeech.py:253-261 | after a clean run, every `*mp3` file is `file_NN.mp3` for NN in 01..99 |
| MediumClass.MediumNamesInjective | medium_speech/MediumToSpeech.py:261 | padded names are distinct for distinct positions |
| MediumClass.MediumSkipsEmpty | medium_speech/MediumToSpeech.py:256-261 | `[x, "", y]` is saved as `file_01.mp3` and `file_03.mp3` |
| MediumClass.MediumLastChunkWins | medium_speech/MediumToSpeech.py:255-261 | a later chunk overwrites `file_NN.mp3`, with no condition on the earlier lines because nothing raises |
| MediumClass.MediumNeverFails | medium_speech/MediumToSpeech.py:259-261 | synthesis failures never escape |
| MediumClass.MediumPlayOrder | medium_speech/MediumToSpeech.py:293 | files are played in position order, because the names are padded |
| MarkdownClass.MarkdownToSpeech.MarkdownToText | medium_speech/MarkdownToSpeech.py:160-181 | the URL is preferred; neither raises before anything is converted; the lines are non-empty |
| MarkdownClass.MarkdownToSpeech.CleanUpFiles | medium_speech/MarkdownToSpeech.py:183-190 | removes exactly the names ending in the format, in sorted order |
| MarkdownClass.MarkdownToSpeech.TextToSpeech | medium_speech/MarkdownToSpeech.py:192-204 | a conversion error leaves the directory untouched; otherwise always pre-clean `*mp3`, then save `<k>.mp3` and raise iff some attempted line fails |
| MarkdownClass.MarkdownToSpeech.PlayIt | medium_speech/MarkdownToSpeech.py:206-232 | no player found raises `RuntimeError` before listing; otherwise play `*.mp3` in sorted order, then always clean `*mp3` |
| MarkdownClass.MarkdownFails | medium_speech/MarkdownToSpeech.py:198-203 | the run raises iff some non-empty line cannot be synthesised |
| MarkdownClass.MarkdownEmptyLinesHarmless | medium_speech/MarkdownToSpeech.py:200 | empty lines never make a chunk fail |
| MarkdownClass.MarkdownLastChunkWins | medium_speech/MarkdownToSpeech.py:198-203 | without suppression a later chunk's line still overwrites `<k>.mp3`, once the earlier chunks and the non-empty lines before it succeeded |
| MarkdownClass.MarkdownPlayOrder | medium_speech/MarkdownToSpeech.py:223 | `10.mp3` is played before `2.mp3` |
| MarkdownClass.MarkdownRunNames | medium_speech/MarkdownToSpeech.py:197-203 | afterwards every `*mp3` file is `<k>.mp3` for a k from 1 to 99 |
| Package.TextToSpeech | medium_speech/__init__.py:151-165 | non-list input changes nothing; otherwise save `<k>.mp3` on top of the old files, no pre-clean, raise iff a line fails |
| Package.PlayIt | medium_speech/__init__.py:168-191 | `which` failing raises `CalledProcessError` before listing; otherwise play each match in sorted order and, with `delete_file`, unlink it straight after |
| Package.StaleFilesSurvive | medium_speech/__init__.py:158-165 | with no clean-up, a file of a position beyond 99 survives unchanged |
| Package.PlayThenDelete | medium_speech/__init__.py:181-191 | nothing matching is left, and the i-th file is played and then unlinked |
| Prototype.RStripAll | main.py:50 | the i-th result is the i-th line right-stripped |
| Prototype.ReadFromFile | main.py:48-51 | no line is empty, ends in whitespace or holds a newline |
| Prototype.RStripAllAppend | main.py:50 | right-stripping distributes over concatenation |
| Prototype.ReadFromFileAround | main.py:48-51 | the filter works line by line, in order |
| Prototype.ReadFromFileSingle | main.py:50 | a line is kept right-stripped unless it is blank |
| Prototype.GetMarkdownTitles | main.py:54-55 | a line is a key iff it holds `"# "` anywhere; every value is `""` |
| Prototype.TitlesExample | main.py:55 | `## Intro` and `see # here` are titles, `#NoSpace` is not |
| Prototype.TextToSpeech | main.py:58-61 | every line, empty or not, is saved as `<i>.<format>` in one pass; the first failure raises |
| Prototype.PrototypeWrites | main.py:59-61 | each line before the first failure is saved under its own name |
| Prototype.FirstRefused | main.py:69-72 | the first position the `rm` call raises at |
| Prototype.FirstRefusedAt | main.py:69-72 | that position is the one every earlier name passes and the name there fails |
| Prototype.PlayIt | main.py:64-72 | `which` failing raises; otherwise matches are played in sorted order, each once, up to and including the first whose `rm` call raises `OSError`; no file is deleted |
| Prototype.PlayThenRm | main.py:69-72 | the loop over the sorted names |

## Left out

- Markdown conversion itself: `Markdown(output_format="plain")`, `convert`, patching `output_formats`, `stripTopLevelTags` and `tab_length`. This is a third-party parser and is the `convert` parameter. `Element` models the tree that the parser hands to `unmark_element`.
- UTF-8 decoding is the `decode` parameter.
- gTTS synthesis and `save` are the `tts` parameter, a fixed function of the line text: the same text always gets the same outcome. A one-off failure of a single call (a time-out, a refused request) for a text that succeeds elsewhere cannot be expressed, so failure lemmas such as `WorkDir.SaveChunksFails` are stated per line text. A save either writes the whole file or raises before writing. The partial file a failing save may leave is not modelled.
- Docker and HTTP are left out:
  - `pull_images`, `check_url_exist`, and the container run of `read_from_medium`, with its Docker check and its `save_to_file` branch, are the `read` parameter.
  - `check_url_exist` is tested without being called, so the check is always passed.
  - `read_from_file`'s `open`, including `FileNotFoundError`, is part of `read`.
- `which`: executable lookup is the `which` parameter. In the two classes, errors are suppressed and `None` is returned. In the package and main.py, the lookup raises `CalledProcessError`. In `MediumToSpeech.play_it` its result is used only in the player command.
- Player command strings, `speed` and `/dev/null` output redirection are left out. `if "cvlc":` is always true, so only a command string depends on it. Playback is an event in the log.
- The `shell=True` exit status of a player is ignored by the code too.
- `subprocess.call(f"rm -rf {mp3_file}")` in main.py runs without a shell. It deletes nothing. Whether it returns or raises `OSError` (raising meaning no program of that name exists) is the `rmReturns` parameter.
- `md_to_text` of main.py is a bare `convert` call. `read_from_medium` of main.py writes `medium.md`. Both are library and I/O calls only.
- Directories, `is_file()` and `IsADirectoryError` are left out. The directory holds regular files only, so `is_file()` always holds.
- The absolute path of a glob result is left out. Names are compared without the directory prefix, and `Sorting.LessCommonPrefix` shows that the prefix does not change the order.
- Logging and `coloredlogs` are left out: plumbing.
- The `print` in the package's `text_to_speech` is left out: output only.
- The line endings of `readlines()` in main.py are left out. A line is text between `\n` characters, and the `\n` itself is removed by `rstrip()`, as the model's `Split` already removes it.
- Chunking.SplitsWords: a zero or negative `char_length` follows the code. Zero raises `ValueError` from `range`, and a negative bound gives `[]`. After a negative bound the slice is never taken, so its meaning is not modelled.
- WorkDir.Matching: `file_format` is taken as a literal suffix. Glob wildcards inside it (`*`, `?`, `[...]`) and a `/` that would search a subdirectory are not interpreted, so `clean_up_files(file_format="?p3")` would delete `a.mp3` in the original but nothing in the model. Every call site in the code passes the plain default `mp3` or `.mp3`, where the two readings agree.
- Prototype.GetMarkdownTitles returns a `map`, so the first-occurrence key order of the Python `dict` is not kept. Nothing in the code reads that order.
- Sorting.Less compares code points, as Python's `str` order does. Locale collation is not involved.

