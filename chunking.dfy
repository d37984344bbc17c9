/**
 * The chunker `splits_words(words=None, char_length=99)`: tags are
 * stripped from every line, then the list is cut into consecutive slices
 * of `char_length` lines.
 */
module Chunking {
  import opened Py
  import opened Markup

  const DefaultCharLength := 99

  /** `[words[n : n + k] for n in range(0, len(words), k)]` for a positive `k`. */
  function Chunks<T>(words: seq<T>, k: nat): (r: seq<seq<T>>)
    requires k > 0
    ensures Concat(r) == words
    ensures forall i :: 0 <= i < |r| ==> 0 < |r[i]| <= k
    ensures forall i :: 0 <= i < |r| - 1 ==> |r[i]| == k
    ensures words == [] <==> r == []
    decreases |words|
  {
    if words == [] then []
    else if |words| <= k then
      assert Concat([words]) == words + Concat([]);
      [words]
    else
      var rest := Chunks(words[k..], k);
      assert words == words[..k] + words[k..];
      [words[..k]] + rest
  }

  /** The number of slices is the length divided by `k`, rounded up. */
  lemma {:induction false} ChunksCount<T>(words: seq<T>, k: nat)
    requires k > 0
    ensures var n := |Chunks(words, k)|; (n - 1) * k < |words| <= n * k
    decreases |words|
  {
    if |words| > k {
      var n := |Chunks(words[k..], k)|;
      ChunksCount(words[k..], k);
      MulSucc(n - 1, k);
      MulSucc(n, k);
    }
  }

  lemma MulSucc(n: int, k: int)
    ensures (n + 1) * k == n * k + k
  {
  }

  /** The slices are contiguous pieces of at most `k` items, all but the last full. */
  ghost predicate IsChunking<T>(r: seq<seq<T>>, words: seq<T>, k: nat)
  {
    && Concat(r) == words
    && (forall i :: 0 <= i < |r| ==> 0 < |r[i]| <= k)
    && (forall i :: 0 <= i < |r| - 1 ==> |r[i]| == k)
  }

  /**
   * Only one list of slices has those properties, so they define the result
   * of the comprehension independently of how it is computed.
   */
  lemma {:induction false} ChunkingUnique<T>(r: seq<seq<T>>, words: seq<T>, k: nat)
    requires k > 0 && IsChunking(r, words, k)
    ensures r == Chunks(words, k)
    decreases |words|
  {
    if r != [] {
      assert words == r[0] + Concat(r[1..]);
      if |r| == 1 {
        assert Concat(r[1..]) == [];
        assert r[0] == words;
        assert r == [r[0]];
      } else {
        assert Concat(r[1..]) == r[1] + Concat(r[2..]);
        assert |words| > k;
        assert r[0] == words[..k];
        assert Concat(r[1..]) == words[k..];
        assert IsChunking(r[1..], words[k..], k) by {
          forall i | 0 <= i < |r[1..]| ensures 0 < |r[1..][i]| <= k {
            assert r[1..][i] == r[i + 1];
          }
          forall i | 0 <= i < |r[1..]| - 1 ensures |r[1..][i]| == k {
            assert r[1..][i] == r[i + 1];
          }
        }
        ChunkingUnique(r[1..], words[k..], k);
        assert r == [r[0]] + r[1..];
      }
    }
  }

  /** `[remove_tags(i) for i in words]`. */
  function StripAll(words: seq<string>): (r: seq<string>)
    ensures |r| == |words|
    ensures forall i :: 0 <= i < |r| ==> r[i] == RemoveTags(words[i])
  {
    seq(|words|, i requires 0 <= i < |words| => RemoveTags(words[i]))
  }

  /**
   * `splits_words(words, char_length)`: `None` unless `words` is a list; a
   * zero `char_length` makes `range` raise `ValueError`, a negative one makes
   * the range, and so the result, empty.
   */
  function SplitsWords(words: Object, charLength: int): (r: Result<Option<seq<seq<string>>>>)
    ensures !words.PyList? ==> r == Ok(None)
    ensures words.PyList? && charLength == 0 ==> r == Raised(ValueError)
    ensures words.PyList? && charLength < 0 ==> r == Ok(Some([]))
    ensures words.PyList? && charLength > 0 ==>
      && r.Ok? && r.value.Some?
      && Concat(r.value.value) == StripAll(words.items)
      && (forall i :: 0 <= i < |r.value.value| ==> 0 < |r.value.value[i]| <= charLength)
      && (forall i :: 0 <= i < |r.value.value| - 1 ==> |r.value.value[i]| == charLength)
  {
    match words
    case PyList(items) =>
      if charLength == 0 then Raised(ValueError)
      else if charLength < 0 then Ok(Some([]))
      else Ok(Some(Chunks(StripAll(items), charLength)))
    case _ => Ok(None)
  }

  /** The empty list gives no chunks. */
  lemma SplitsWordsEmpty(charLength: int)
    requires charLength > 0
    ensures SplitsWords(PyList([]), charLength) == Ok(Some([]))
  {
  }

  /** A list no longer than the bound is one chunk. */
  lemma SplitsWordsShort(words: seq<string>, charLength: int)
    requires 0 < |words| <= charLength
    ensures SplitsWords(PyList(words), charLength) == Ok(Some([StripAll(words)]))
  {
  }

  lemma EmptyTag(w: string)
    requires 3 <= |w| && w[0] == '<' && w[|w| - 1] == '>' && '>' !in w[1..|w| - 1]
    ensures RemoveTags(w) == ""
  {
    var t := w[1..|w| - 1];
    Enclosed(w);
    RemoveTagsDropsTag(t, "");
  }

  /** A string of at least two characters is its first character, its middle and its last character. */
  lemma Enclosed(w: string)
    requires 2 <= |w|
    ensures w == [w[0]] + w[1..|w| - 1] + [w[|w| - 1]] + ""
  {
  }

  lemma StripDocstring(a: string, hello: string, world: string, bang: string, c: string)
    requires a == "<a>" && hello == "hello" && world == "World" && bang == "!" && c == "</a>"
    ensures StripAll([a, hello, world, bang, c]) == ["", hello, world, bang, ""]
  {
    var r := StripAll([a, hello, world, bang, c]);
    assert r[0] == "" by { EmptyTag(a); }
    assert r[1] == hello by { RemoveTagsNoOpen(hello); }
    assert r[2] == world by { RemoveTagsNoOpen(world); }
    assert r[3] == bang by { RemoveTagsNoOpen(bang); }
    assert r[4] == "" by { EmptyTag(c); }
  }

  /** The docstring example: `["<a>", "hello", "World", "!", "</a>"]` gives one chunk. */
  lemma SplitsWordsExample(a: string, hello: string, world: string, bang: string, c: string)
    requires a == "<a>" && hello == "hello" && world == "World" && bang == "!" && c == "</a>"
    ensures SplitsWords(PyList([a, hello, world, bang, c]), DefaultCharLength) == Ok(Some([["", hello, world, bang, ""]]))
  {
    StripDocstring(a, hello, world, bang, c);
    SplitsWordsShort([a, hello, world, bang, c], DefaultCharLength);
  }
}
