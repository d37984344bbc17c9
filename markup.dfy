/**
 * Markup removal: the tag stripper `remove_tags` (the substitution of the
 * regular expression `<[^>]+>` by the empty string) and the plain-text
 * serializer `unmark_element` that is patched into the Markdown library.
 */
module Markup {
  import opened Py

  /** The first index of `c` in `s`, or `None` when `c` does not occur. */
  function IndexOf(s: string, c: char): (r: Option<nat>)
    ensures r.None? <==> c !in s
    ensures r.Some? ==> r.value < |s| && s[r.value] == c && c !in s[..r.value]
  {
    if s == [] then None
    else if s[0] == c then Some(0)
    else match IndexOf(s[1..], c)
      case None => None
      case Some(j) =>
        assert s[1..][..j] == s[1..j + 1];
        assert s[..j + 1] == [s[0]] + s[1..j + 1];
        Some(j + 1)
  }

  /** The first occurrence is the one with no earlier occurrence. */
  lemma IndexOfFirst(s: string, c: char, k: nat)
    requires k < |s| && s[k] == c && c !in s[..k]
    ensures IndexOf(s, c) == Some(k)
  {
    assert s[k] in s;
  }

  /**
   * `remove_tags`, as the left-to-right scan that Python's `re.sub` performs:
   * at a `<`, the match is the span up to the first later `>`, provided at
   * least one character lies between them; otherwise the `<` is kept.
   */
  function RemoveTags(s: string): (r: string)
    ensures |r| <= |s|
    decreases |s|
  {
    if s == [] then ""
    else if s[0] == '<' then
      match IndexOf(s[1..], '>')
      case Some(j) => if 0 < j then RemoveTags(s[j + 2..]) else [s[0]] + RemoveTags(s[1..])
      case None => [s[0]] + RemoveTags(s[1..])
    else [s[0]] + RemoveTags(s[1..])
  }

  /** Every character of the result comes from the input. */
  lemma {:induction false} RemoveTagsChars(s: string, c: char)
    requires c in RemoveTags(s)
    ensures c in s
    decreases |s|
  {
    if s[0] == '<' && IndexOf(s[1..], '>').Some? && 0 < IndexOf(s[1..], '>').value {
      var j := IndexOf(s[1..], '>').value;
      RemoveTagsChars(s[j + 2..], c);
      var k :| 0 <= k < |s[j + 2..]| && s[j + 2..][k] == c;
      assert s[j + 2 + k] == c;
    } else if c != s[0] {
      RemoveTagsChars(s[1..], c);
    }
  }

  /** A head that is not `<` is kept, and the scan goes on after it. */
  lemma RemoveTagsCons(x: char, t: string)
    requires x != '<'
    ensures RemoveTags([x] + t) == [x] + RemoveTags(t)
  {
    assert ([x] + t)[1..] == t;
  }

  /** Characters before the first `<` are copied unchanged. */
  lemma {:induction false} RemoveTagsKeepsPrefix(a: string, b: string)
    requires '<' !in a
    ensures RemoveTags(a + b) == a + RemoveTags(b)
  {
    if a != [] {
      assert a == [a[0]] + a[1..];
      assert a + b == [a[0]] + (a[1..] + b);
      RemoveTagsCons(a[0], a[1..] + b);
      RemoveTagsKeepsPrefix(a[1..], b);
    } else {
      assert a + b == b;
    }
  }

  /** A string with no `<` is unchanged. */
  lemma RemoveTagsNoOpen(s: string)
    requires '<' !in s
    ensures RemoveTags(s) == s
  {
    RemoveTagsKeepsPrefix(s, "");
    assert s + "" == s;
  }

  /** A tag `<t>` with a non-empty body free of `>` is deleted as a whole. */
  lemma RemoveTagsDropsTag(t: string, b: string)
    requires t != "" && '>' !in t
    ensures RemoveTags("<" + t + ">" + b) == RemoveTags(b)
  {
    var s := "<" + t + ">" + b;
    assert s[1..] == t + ">" + b;
    assert s[1..][|t|] == '>';
    assert s[1..][..|t|] == t;
    IndexOfFirst(s[1..], '>', |t|);
    assert s[|t| + 2..] == b;
  }

  /** A `<` directly followed by `>` is kept, and the scan goes on at the `>`. */
  lemma RemoveTagsOpenClose(s: string)
    requires 1 < |s| && s[0] == '<' && s[1] == '>'
    ensures RemoveTags(s) == [s[0]] + RemoveTags(s[1..])
  {
    assert IndexOf(s[1..], '>') == Some(0);
  }

  /** `<>` is not a tag: both characters are kept. */
  lemma RemoveTagsKeepsEmptyBrackets(b: string)
    ensures RemoveTags("<>" + b) == "<>" + RemoveTags(b)
  {
    var s := "<>" + b;
    var t := s[1..];
    assert t == [s[1]] + b;
    RemoveTagsOpenClose(s);
    RemoveTagsCons(s[1], b);
    PairCons(s[0], s[1], RemoveTags(b));
  }

  lemma PairCons(x: char, y: char, t: string)
    ensures [x] + ([y] + t) == [x, y] + t
  {
  }

  /** A `<` with no `>` anywhere after it is kept. */
  lemma RemoveTagsKeepsUnclosed(b: string)
    requires '>' !in b
    ensures RemoveTags("<" + b) == "<" + RemoveTags(b)
  {
    assert ("<" + b)[1..] == b;
  }

  /** Text wrapped in `<b>` and `</b>` loses exactly the two tags. */
  lemma RemoveTagsBold(p: string, w: string)
    requires '<' !in p && '<' !in w
    ensures RemoveTags(p + "<b>" + w + "</b>") == p + w
  {
    var close := "<" + "/b" + ">" + "";
    assert "</b>" == close;
    assert p + "<b>" + w + "</b>" == p + ("<" + "b" + ">" + (w + close));
    RemoveTagsKeepsPrefix(p, "<" + "b" + ">" + (w + close));
    RemoveTagsDropsTag("b", w + close);
    RemoveTagsKeepsPrefix(w, close);
    RemoveTagsDropsTag("/b", "");
    assert w + "" == w;
  }

  /** The unit test's case: `"Hello, <b>world</b>"` becomes `"Hello, world"`. */
  lemma RemoveTagsExample(html: string)
    requires html == "Hello, <b>world</b>"
    ensures RemoveTags(html) == "Hello, world"
  {
    ExampleParts(html);
    RemoveTagsBold("Hello, ", "world");
  }

  lemma ExampleParts(html: string)
    requires html == "Hello, <b>world</b>"
    ensures html == "Hello, " + "<b>" + "world" + "</b>"
  {
  }

  /**
   * No span that the expression `<[^>]+>` would match is left: every `<` is
   * directly followed by `>` or has no `>` after it.
   */
  ghost predicate TagFree(r: string)
  {
    forall i :: 0 <= i < |r| && r[i] == '<' ==> (i + 1 < |r| && r[i + 1] == '>') || '>' !in r[i + 1..]
  }

  lemma TagFreeTail(r: string)
    requires r != [] && TagFree(r)
    ensures TagFree(r[1..])
  {
    forall i | 0 <= i < |r[1..]| && r[1..][i] == '<'
      ensures (i + 1 < |r[1..]| && r[1..][i + 1] == '>') || '>' !in r[1..][i + 1..]
    {
      assert r[1 + i] == '<';
      assert r[1..][i + 1..] == r[i + 2..];
    }
  }

  lemma TagFreeCons(x: char, t: string)
    requires TagFree(t)
    requires x != '<' || (t != [] && t[0] == '>') || '>' !in t
    ensures TagFree([x] + t)
  {
    var r := [x] + t;
    forall i | 0 <= i < |r| && r[i] == '<'
      ensures (i + 1 < |r| && r[i + 1] == '>') || '>' !in r[i + 1..]
    {
      if i == 0 {
        assert r[1..] == t;
      } else {
        assert r[i] == t[i - 1];
        assert r[i + 1..] == t[i..];
      }
    }
  }

  /** What `remove_tags` returns has no tag left in it. */
  lemma {:induction false} RemoveTagsTagFree(s: string)
    ensures TagFree(RemoveTags(s))
    decreases |s|
  {
    if s == [] {
    } else if s[0] == '<' {
      match IndexOf(s[1..], '>')
      case Some(j) =>
        if 0 < j {
          RemoveTagsTagFree(s[j + 2..]);
        } else {
          assert s[1] == '>';
          assert s[1..] == [s[1]] + s[2..];
          RemoveTagsCons('>', s[2..]);
          RemoveTagsTagFree(s[2..]);
          TagFreeCons('>', RemoveTags(s[2..]));
          TagFreeCons('<', RemoveTags(s[1..]));
        }
      case None =>
        RemoveTagsTagFree(s[1..]);
        if '>' in RemoveTags(s[1..]) {
          RemoveTagsChars(s[1..], '>');
        }
        TagFreeCons('<', RemoveTags(s[1..]));
    } else {
      RemoveTagsTagFree(s[1..]);
      TagFreeCons(s[0], RemoveTags(s[1..]));
    }
  }

  /** A string with no tag in it is unchanged. */
  lemma {:induction false} RemoveTagsOnTagFree(r: string)
    requires TagFree(r)
    ensures RemoveTags(r) == r
    decreases |r|
  {
    if r != [] {
      TagFreeTail(r);
      RemoveTagsOnTagFree(r[1..]);
      if r[0] == '<' {
        if |r| > 1 && r[1] == '>' {
          assert IndexOf(r[1..], '>') == Some(0);
        } else {
          assert '>' !in r[1..];
        }
      }
      assert r == [r[0]] + r[1..];
    }
  }

  /** Stripping tags twice is the same as stripping them once. */
  lemma RemoveTagsIdempotent(s: string)
    ensures RemoveTags(RemoveTags(s)) == RemoveTags(s)
  {
    RemoveTagsTagFree(s);
    RemoveTagsOnTagFree(RemoveTags(s));
  }

  /**
   * A node of the element tree that the Markdown library builds: its text,
   * its children in document order, and the text that follows it. An empty
   * string stands for `None`, which `if element.text:` treats alike.
   */
  datatype Element = Element(text: string, children: seq<Element>, tail: string)

  /** The pre-order text of a node: its text, its children's, then its tail. */
  function Flatten(e: Element): (r: string)
    ensures e.text <= r && |e.text| + |e.tail| <= |r|
  {
    e.text + FlattenAll(e.children) + e.tail
  }

  /** The texts of a run of sibling nodes, in order. */
  function FlattenAll(es: seq<Element>): (r: string)
    ensures es != [] ==> es[0].text <= r && |Flatten(es[0])| <= |r|
  {
    if es == [] then "" else Flatten(es[0]) + FlattenAll(es[1..])
  }

  /** Flattening a run of siblings distributes over splitting the run. */
  lemma {:induction false} FlattenAllAppend(a: seq<Element>, b: seq<Element>)
    ensures FlattenAll(a + b) == FlattenAll(a) + FlattenAll(b)
  {
    if a == [] {
      assert a + b == b;
    } else {
      assert (a + b)[0] == a[0];
      assert (a + b)[1..] == a[1..] + b;
      FlattenAllAppend(a[1..], b);
    }
  }

  /** One more sibling flattened by the loop over the children. */
  lemma FlattenAllStep(es: seq<Element>, i: nat)
    requires i < |es|
    ensures FlattenAll(es[..i + 1]) == FlattenAll(es[..i]) + Flatten(es[i])
  {
    FlattenAllAppend(es[..i], [es[i]]);
    assert es[..i + 1] == es[..i] + [es[i]];
    assert FlattenAll([es[i]]) == Flatten(es[i]);
  }

  lemma AppendAssoc(a: string, b: string, c: string)
    ensures (a + b) + c == a + (b + c)
  {
  }

  /** No text or tail anywhere in the tree contains `c`. */
  predicate Avoids(e: Element, c: char)
  {
    c !in e.text && c !in e.tail && AvoidsAll(e.children, c)
  }

  predicate AvoidsAll(es: seq<Element>, c: char)
  {
    es == [] || (Avoids(es[0], c) && AvoidsAll(es[1..], c))
  }

  /** A character found in no node's text does not appear in the flattening. */
  lemma {:induction false} FlattenAvoids(e: Element, c: char)
    requires Avoids(e, c)
    ensures c !in Flatten(e)
    decreases e, 1
  {
    FlattenAllAvoids(e.children, c);
  }

  lemma {:induction false} FlattenAllAvoids(es: seq<Element>, c: char)
    requires AvoidsAll(es, c)
    ensures c !in FlattenAll(es)
    decreases es, 0
  {
    if es != [] {
      FlattenAvoids(es[0], c);
      FlattenAllAvoids(es[1..], c);
    }
  }

  /** The `StringIO` into which `unmark_element` writes. */
  class Stream {
    var value: string

    constructor ()
      ensures value == ""
    {
      value := "";
    }

    method Write(s: string)
      modifies this
      ensures value == old(value) + s
    {
      value := value + s;
    }
  }

  /**
   * `unmark_element(element, stream)`: appends the pre-order text of the
   * tree to the shared stream and returns all that the stream holds.
   */
  method UnmarkElement(e: Element, stream: Stream) returns (v: string)
    modifies stream
    ensures stream.value == old(stream.value) + Flatten(e)
    ensures v == stream.value
    decreases e
  {
    if e.text != "" {
      stream.Write(e.text);
    }
    ghost var before := stream.value;
    assert before == old(stream.value) + e.text;
    for i := 0 to |e.children|
      invariant stream.value == before + FlattenAll(e.children[..i])
    {
      assert e.children[i] in e.children;
      ghost var mid := stream.value;
      var _ := UnmarkElement(e.children[i], stream);
      FlattenAllStep(e.children, i);
      AppendAssoc(before, FlattenAll(e.children[..i]), Flatten(e.children[i]));
    }
    assert e.children[..|e.children|] == e.children;
    if e.tail != "" {
      stream.Write(e.tail);
    } else {
      assert stream.value == stream.value + e.tail;
    }
    FlattenAppended(old(stream.value), e);
    v := stream.value;
  }

  /** Appending a node's flattening appends its text, its children's, then its tail. */
  lemma FlattenAppended(s: string, e: Element)
    ensures s + Flatten(e) == s + e.text + FlattenAll(e.children) + e.tail
  {
  }

  /** `unmark_element(element)` with no stream: a fresh `StringIO` is used. */
  method Unmark(e: Element) returns (v: string)
    ensures v == Flatten(e)
  {
    var stream := new Stream();
    v := UnmarkElement(e, stream);
  }
}
