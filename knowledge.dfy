/**
  The in-memory knowledge base and the substring search over it.

  In the application the knowledge base is a Python dict from PDF file name to
  extracted text; a dict iterates in insertion order and holds each key once,
  so it is modelled as a sequence of (name, text) entries with unique names.
 */
module Knowledge {
  import opened Text

  /** One stored document: its file name and the text extracted from it. */
  type Entry = (string, string)

  /** No file name is stored twice, as in a dict. */
  predicate UniqueKeys(kb: seq<Entry>) {
    forall i, j :: 0 <= i < j < |kb| ==> kb[i].0 != kb[j].0
  }

  /** The dict the sequence stands for: later entries overwrite earlier ones. */
  function AsMap(kb: seq<Entry>): map<string, string>
    decreases |kb|
  {
    if kb == [] then map[]
    else AsMap(kb[..|kb| - 1])[kb[|kb| - 1].0 := kb[|kb| - 1].1]
  }

  /** With unique names, looking an entry's name up in the dict gives its text. */
  lemma {:induction false} AsMapLookup(kb: seq<Entry>, e: Entry)
    requires UniqueKeys(kb) && e in kb
    ensures e.0 in AsMap(kb) && AsMap(kb)[e.0] == e.1
    decreases |kb|
  {
    var init, last := kb[..|kb| - 1], kb[|kb| - 1];
    assert kb == init + [last];
    if e != last {
      assert e in init;
      assert e.0 != last.0 by {
        var i :| 0 <= i < |init| && init[i] == e;
        assert kb[i] == e;
      }
      AsMapLookup(init, e);
    }
  }

  /** The test `query.lower() in content.lower()`: a case-insensitive occurrence
      of the query somewhere in the content. */
  predicate Matches(query: string, content: string)
    ensures Matches(query, content) <==> exists i :: OccursAt(Lower(query), Lower(content), i)
  {
    Contains(Lower(query), Lower(content))
  }

  /** The entries of `kb` that match `query`, in order. An entry is found exactly
      when it is stored and its text matches. */
  function Search(kb: seq<Entry>, query: string): (r: seq<Entry>)
    ensures forall e :: e in r <==> e in kb && Matches(query, e.1)
    ensures |r| <= |kb|
    decreases |kb|
  {
    if kb == [] then []
    else
      var init, last := kb[..|kb| - 1], kb[|kb| - 1];
      assert kb == init + [last];
      Search(init, query) + (if Matches(query, last.1) then [last] else [])
  }

  /** The positions in `kb` of the matching entries, in order. */
  ghost function Hits(kb: seq<Entry>, query: string): (h: seq<nat>)
    ensures forall k :: 0 <= k < |h| ==> h[k] < |kb|
    decreases |kb|
  {
    if kb == [] then []
    else Hits(kb[..|kb| - 1], query) + (if Matches(query, kb[|kb| - 1].1) then [|kb| - 1] else [])
  }

  /** Result `k` is the stored entry at position `Hits(kb, query)[k]`. */
  lemma {:induction false} SearchAtHits(kb: seq<Entry>, query: string)
    ensures |Search(kb, query)| == |Hits(kb, query)|
    ensures forall k :: 0 <= k < |Hits(kb, query)| ==> Search(kb, query)[k] == kb[Hits(kb, query)[k]]
    decreases |kb|
  {
    if kb != [] {
      var init := kb[..|kb| - 1];
      SearchAtHits(init, query);
    }
  }

  /** The positions rise strictly: results keep the stored order and never use a stored position twice. */
  lemma {:induction false} HitsIncreasing(kb: seq<Entry>, query: string)
    ensures forall a, b :: 0 <= a < b < |Hits(kb, query)| ==> Hits(kb, query)[a] < Hits(kb, query)[b]
    decreases |kb|
  {
    if kb != [] {
      HitsIncreasing(kb[..|kb| - 1], query);
    }
  }

  /** Every matching position is a hit and every hit matches. */
  lemma {:induction false} HitsExact(kb: seq<Entry>, query: string, i: nat)
    requires i < |kb|
    ensures i in Hits(kb, query) <==> Matches(query, kb[i].1)
    decreases |kb|
  {
    var init := kb[..|kb| - 1];
    if i < |init| {
      HitsExact(init, query, i);
    }
  }

  /** Searching a dict gives a list whose names are again unique. */
  lemma SearchUniqueKeys(kb: seq<Entry>, query: string)
    requires UniqueKeys(kb)
    ensures UniqueKeys(Search(kb, query))
  {
    SearchAtHits(kb, query);
    HitsIncreasing(kb, query);
  }

  /** Each result carries the text stored under its name, unchanged. */
  lemma SearchStoredContent(kb: seq<Entry>, query: string, e: Entry)
    requires UniqueKeys(kb) && e in Search(kb, query)
    ensures e.0 in AsMap(kb) && AsMap(kb)[e.0] == e.1
  {
    AsMapLookup(kb, e);
  }

  /** Position `i` holds the first stored entry that matches. */
  ghost predicate IsFirstMatch(kb: seq<Entry>, query: string, i: int) {
    0 <= i < |kb| && Matches(query, kb[i].1)
    && forall j :: 0 <= j < i ==> !Matches(query, kb[j].1)
  }

  /** The search finds nothing exactly when no stored text matches; otherwise the
      first result is the first matching entry. */
  lemma FirstResult(kb: seq<Entry>, query: string)
    // restated from SearchAtHits so that `Hits(kb, query)[0]` below is in range
    ensures |Search(kb, query)| == |Hits(kb, query)|
    ensures Search(kb, query) == [] <==> forall i :: 0 <= i < |kb| ==> !Matches(query, kb[i].1)
    ensures Search(kb, query) != [] ==>
      IsFirstMatch(kb, query, Hits(kb, query)[0]) && Search(kb, query)[0] == kb[Hits(kb, query)[0]]
  {
    SearchAtHits(kb, query);
    HitsIncreasing(kb, query);
    var h := Hits(kb, query);
    forall i | 0 <= i < |kb|
      ensures Matches(query, kb[i].1) <==> i in h
    {
      HitsExact(kb, query, i);
    }
  }

  /** `search_documents`: walk the entries in order and keep those whose
      lower-cased text contains the lower-cased query. */
  method SearchDocuments(kb: seq<Entry>, query: string) returns (results: seq<Entry>)
    ensures results == Search(kb, query)
    ensures forall e :: e in results <==> e in kb && Matches(query, e.1)
    ensures UniqueKeys(kb) ==> UniqueKeys(results)
    ensures kb == [] ==> results == []
  {
    results := [];
    for i := 0 to |kb|
      invariant results == Search(kb[..i], query)
    {
      assert kb[..i + 1][..i] == kb[..i];
      var (doc, content) := kb[i];
      if Contains(Lower(query), Lower(content)) {
        results := results + [(doc, content)];
      }
    }
    assert kb[..|kb|] == kb;
    if UniqueKeys(kb) {
      SearchUniqueKeys(kb, query);
    }
  }
}
