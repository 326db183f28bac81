/**
 * The in-memory retriever: a list of documents and a case-insensitive
 * keyword filter over it.
 */
module Retriever {
  import opened Wrappers
  import opened Text
  import opened Slices

  /** The documents that contain `query`, ignoring case, in their original order. */
  function Matching(docs: seq<string>, query: string): (r: seq<string>)
    ensures |r| <= |docs|
    decreases |docs|
  {
    if docs == [] then []
    else
      var rest := Matching(docs[..|docs| - 1], query);
      var d := docs[|docs| - 1];
      if Contains(Lower(d), Lower(query)) then rest + [d] else rest
  }

  /** A document is in the filtered list exactly when it is one of the documents and contains the query. */
  lemma {:induction false} MatchingIff(docs: seq<string>, query: string, d: string)
    ensures d in Matching(docs, query) <==> d in docs && Contains(Lower(d), Lower(query))
    decreases |docs|
  {
    if docs != [] {
      var init := docs[..|docs| - 1];
      MatchingIff(init, query, d);
      assert docs == init + [docs[|docs| - 1]];
    }
  }

  /** The filter keeps the order: filtering a concatenation filters each part. */
  lemma {:induction false} MatchingAppend(a: seq<string>, b: seq<string>, query: string)
    ensures Matching(a + b, query) == Matching(a, query) + Matching(b, query)
    decreases |b|
  {
    if b == [] {
      assert a + b == a;
    } else {
      var init, last := b[..|b| - 1], b[|b| - 1];
      assert b == init + [last];
      assert a + b == (a + init) + [last];
      MatchingSnoc(a + init, last, query);
      MatchingSnoc(init, last, query);
      MatchingAppend(a, init, query);
      Associative(Matching(a, query), Matching(init, query), Kept(last, query));
    }
  }

  /** The one-document contribution to the filter. */
  function Kept(d: string, query: string): seq<string> {
    if Contains(Lower(d), Lower(query)) then [d] else []
  }

  lemma MatchingSnoc(docs: seq<string>, d: string, query: string)
    ensures Matching(docs + [d], query) == Matching(docs, query) + Kept(d, query)
  {
    assert (docs + [d])[..|docs|] == docs;
  }

  /** Every document matches the empty query. */
  lemma {:induction false} MatchingEmptyQuery(docs: seq<string>)
    ensures Matching(docs, "") == docs
    decreases |docs|
  {
    if docs != [] {
      MatchingEmptyQuery(docs[..|docs| - 1]);
      assert MatchesAt(Lower(docs[|docs| - 1]), 0, "", 0);
      assert docs[..|docs| - 1] + [docs[|docs| - 1]] == docs;
    }
  }

  class InMemoryRetriever {
    var docs: seq<string>

    /** `docs or []`: no list and an empty list both start empty. */
    constructor(docs: Option<seq<string>>)
      ensures this.docs == docs.GetOr([])
    {
      this.docs := if docs.Some? && docs.value != [] then docs.value else [];
    }

    /** `add`: the text goes at the end. */
    method Add(text: string)
      modifies this
      ensures docs == old(docs) + [text]
    {
      docs := docs + [text];
    }

    /** `get`: the matching documents, or all documents when none matches, cut to `topK`. */
    function Get(query: string, topK: int): (r: seq<string>)
      reads this
      ensures topK >= 0 ==> |r| <= topK
      ensures var source := if Matching(docs, query) != [] then Matching(docs, query) else docs;
        && |r| <= |source| && r == source[..|r|]
        && |r| == if topK >= 0 then (if topK <= |source| then topK else |source|)
                  else if -topK <= |source| then |source| + topK else 0
    {
      var matches := Matching(docs, query);
      if matches != [] then Head(matches, topK) else Head(docs, topK)
    }
  }

  /** When some document matches, everything returned matches, and the returned documents come first in filter order. */
  lemma GetMatches(t: InMemoryRetriever, query: string, topK: int, d: string)
    requires Matching(t.docs, query) != []
    ensures d in t.Get(query, topK) ==> d in t.docs && Contains(Lower(d), Lower(query))
  {
    var m := Matching(t.docs, query);
    var r := t.Get(query, topK);
    if d in r {
      assert d in m by {
        var k :| 0 <= k < |r| && r[k] == d;
        assert m[k] == d;
      }
      MatchingIff(t.docs, query, d);
    }
  }

  /** Nothing matches: the first `topK` documents come back. */
  lemma GetNoMatch(t: InMemoryRetriever, query: string, topK: int)
    requires forall k | 0 <= k < |t.docs| :: !Contains(Lower(t.docs[k]), Lower(query))
    ensures t.Get(query, topK) == Head(t.docs, topK)
  {
    var m := Matching(t.docs, query);
    if m != [] {
      MatchingIff(t.docs, query, m[0]);
    }
  }

  /** The empty query matches every document. */
  lemma GetEmptyQuery(t: InMemoryRetriever, topK: int)
    ensures t.Get("", topK) == Head(t.docs, topK)
  {
    MatchingEmptyQuery(t.docs);
  }

  /** A retriever built with no documents then given one finds it for any query. */
  method FreshRetrieverFindsAdded(text: string, query: string) returns (r: seq<string>)
    ensures r == [text]
  {
    var t := new InMemoryRetriever(None);
    t.Add(text);
    assert t.docs == [text];
    assert Matching(t.docs, query) == [] || Matching(t.docs, query) == [text];
    r := t.Get(query, 5);
  }
}
