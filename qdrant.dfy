/**
 * The vector-store gateway (backend/src/services/qdrant.service.js): per-source collection
 * naming, chunk documents, the multi-source merge and collection deletion. Embedding,
 * persistence and similarity ranking belong to the store and enter as function parameters.
 */
module Qdrant {
  import opened Wrappers
  import opened Text
  import opened Json

  const CollectionPrefix := "content_"

  /** The collection that holds the chunks of one content source. */
  function CollectionName(contentId: string): (name: string)
    ensures |name| == |CollectionPrefix| + |contentId|
    ensures StartsWith(name, CollectionPrefix) && name[|CollectionPrefix|..] == contentId
  {
    CollectionPrefix + contentId
  }

  /** The content id a collection name was made from, if it was made by `CollectionName`. */
  function ContentIdOf(name: string): (id: Option<string>)
    ensures id.Some? <==> StartsWith(name, CollectionPrefix)
  {
    if StartsWith(name, CollectionPrefix) then Some(name[|CollectionPrefix|..]) else None
  }

  /** Every collection name leads back to its content id ... */
  lemma CollectionNameRoundTrip(contentId: string)
    ensures ContentIdOf(CollectionName(contentId)) == Some(contentId)
  {
  }

  /** ... so two sources never share a collection. */
  lemma CollectionNameInjective(a: string, b: string)
    requires CollectionName(a) == CollectionName(b)
    ensures a == b
  {
    CollectionNameRoundTrip(a);
    CollectionNameRoundTrip(b);
  }

  datatype Document = Document(pageContent: string, metadata: Obj)

  /** `{ contentId, chunkIndex: index, ...metadata }`: the caller's keys are spread last and win. */
  function ChunkMetadata(contentId: string, index: nat, metadata: Obj): (m: Obj)
    ensures m.Keys == metadata.Keys + {"contentId", "chunkIndex"}
    ensures forall k :: k in metadata ==> m[k] == metadata[k]
    ensures "contentId" !in metadata ==> m["contentId"] == JStr(contentId)
    ensures "chunkIndex" !in metadata ==> m["chunkIndex"] == JNum(index as real)
  {
    map["contentId" := JStr(contentId), "chunkIndex" := JNum(index as real)] + metadata
  }

  /** `textChunks.map((text, index) => ...)` in `addDocuments`. */
  function BuildDocuments(contentId: string, chunks: seq<string>, metadata: Obj): (docs: seq<Document>)
    ensures |docs| == |chunks|
    ensures forall i :: 0 <= i < |docs| ==>
      docs[i].pageContent == chunks[i] && docs[i].metadata == ChunkMetadata(contentId, i, metadata)
  {
    seq(|chunks|, i requires 0 <= i < |chunks| => Document(chunks[i], ChunkMetadata(contentId, i, metadata)))
  }

  /** Each document carries its own position as `chunkIndex`, unless the caller's metadata overrides it. */
  lemma ChunkIndexIsPosition(contentId: string, chunks: seq<string>, metadata: Obj, i: nat)
    requires i < |chunks| && "chunkIndex" !in metadata && "contentId" !in metadata
    ensures BuildDocuments(contentId, chunks, metadata)[i].metadata["chunkIndex"] == JNum(i as real)
    ensures BuildDocuments(contentId, chunks, metadata)[i].metadata["contentId"] == JStr(contentId)
  {
  }

  /** The store's write of a collection: `None` when it succeeded, else the message it threw. */
  type Upsert = (string, seq<Document>) -> Option<string>

  datatype Added = Added(collectionName: string, chunkCount: nat)

  const AddErrorPrefix := "Error adding documents to Qdrant: "

  /** `addDocuments(contentId, textChunks, metadata)` */
  function AddDocuments(contentId: string, chunks: seq<string>, metadata: Obj, upsert: Upsert): (r: Result<Added, string>)
    ensures r.Success? <==> upsert(CollectionName(contentId), BuildDocuments(contentId, chunks, metadata)).None?
    ensures r.Success? ==> r.value.collectionName == CollectionName(contentId) && r.value.chunkCount == |chunks|
    ensures r.Failure? ==> StartsWith(r.error, AddErrorPrefix)
  {
    var name := CollectionName(contentId);
    match upsert(name, BuildDocuments(contentId, chunks, metadata))
    case None => Success(Added(name, |chunks|))
    case Some(e) => Failure(AddErrorPrefix + e)
  }

  /** A retrieved chunk: its text, its similarity (higher is closer) and its stored metadata. */
  datatype Hit = Hit(content: string, score: real, metadata: Obj)

  /**
   * Similarity search on one collection: the store's whole ranking of the collection's
   * documents for a query, or the message it threw (for instance, no such collection).
   */
  type VectorStore = (string, string) -> Result<seq<(Document, real)>, string>

  const SearchErrorPrefix := "Error searching documents: "

  function HitOf(scored: (Document, real)): Hit {
    Hit(scored.0.pageContent, scored.1, scored.0.metadata)
  }

  /** `searchSimilar(contentId, query, limit)`: the best `limit` hits of one source. */
  function SearchSimilar(contentId: string, query: string, limit: nat, store: VectorStore): (r: Result<seq<Hit>, string>)
    ensures r.Success? <==> store(CollectionName(contentId), query).Success?
    ensures r.Success? ==> |r.value| <= limit
    ensures r.Success? ==> var ranked := store(CollectionName(contentId), query).value;
      && |r.value| == (if |ranked| < limit then |ranked| else limit)
      && forall i :: 0 <= i < |r.value| ==> r.value[i] == HitOf(ranked[i])
    ensures r.Failure? ==> StartsWith(r.error, SearchErrorPrefix)
  {
    match store(CollectionName(contentId), query)
    case Failure(e) => Failure(SearchErrorPrefix + e)
    case Success(ranked) =>
      var top := Take(ranked, limit);
      Success(seq(|top|, i requires 0 <= i < |top| => HitOf(top[i])))
  }

  /** What one source adds to the merged list: its hits, or nothing when its search threw. */
  function Contribution(contentId: string, query: string, limit: nat, store: VectorStore): (c: seq<Hit>)
    ensures |c| <= limit
  {
    match SearchSimilar(contentId, query, limit, store)
    case Success(hits) => hits
    case Failure(_) => []
  }

  /** `allResults` after the loop: the contributions of the sources, in the order of `contentIds`. */
  function Gathered(contentIds: seq<string>, query: string, limit: nat, store: VectorStore): seq<Hit> {
    if contentIds == [] then []
    else Gathered(contentIds[..|contentIds| - 1], query, limit, store)
         + Contribution(contentIds[|contentIds| - 1], query, limit, store)
  }

  /** Gathering is piecewise over the list of sources. */
  lemma {:induction false} GatheredAppend(a: seq<string>, b: seq<string>, query: string, limit: nat, store: VectorStore)
    ensures Gathered(a + b, query, limit, store) == Gathered(a, query, limit, store) + Gathered(b, query, limit, store)
    decreases |b|
  {
    if b == [] {
      assert a + b == a;
    } else {
      var b' := b[..|b| - 1];
      var c := Contribution(b[|b| - 1], query, limit, store);
      assert Gathered(a + b, query, limit, store) == Gathered(a + b', query, limit, store) + c by {
        assert (a + b)[..|a + b| - 1] == a + b';
        assert (a + b)[|a + b| - 1] == b[|b| - 1];
      }
      assert Gathered(b, query, limit, store) == Gathered(b', query, limit, store) + c;
      GatheredAppend(a, b', query, limit, store);
    }
  }

  lemma MulSucc(n: nat, m: nat)
    ensures (n + 1) * m == n * m + m
  {
  }

  /** Each source adds at most `limit` hits: the same `limit` bounds every per-source search. */
  lemma {:induction false} GatheredBound(contentIds: seq<string>, query: string, limit: nat, store: VectorStore)
    ensures |Gathered(contentIds, query, limit, store)| <= |contentIds| * limit
  {
    if contentIds != [] {
      var n := |contentIds| - 1;
      GatheredBound(contentIds[..n], query, limit, store);
      MulSucc(n, limit);
    }
  }

  /** Every gathered hit comes from a source whose search succeeded. */
  lemma {:induction false} GatheredFromSuccessfulSources(contentIds: seq<string>, query: string, limit: nat,
                                                         store: VectorStore, h: Hit)
    requires h in Gathered(contentIds, query, limit, store)
    ensures exists i :: 0 <= i < |contentIds| && SearchSimilar(contentIds[i], query, limit, store).Success?
                        && h in SearchSimilar(contentIds[i], query, limit, store).value
  {
    var n := |contentIds|;
    var init := contentIds[..n - 1];
    if h in Gathered(init, query, limit, store) {
      GatheredFromSuccessfulSources(init, query, limit, store, h);
      var i :| 0 <= i < |init| && SearchSimilar(init[i], query, limit, store).Success?
               && h in SearchSimilar(init[i], query, limit, store).value;
      assert contentIds[i] == init[i];
    } else {
      assert contentIds[n - 1] == contentIds[n - 1];
    }
  }

  /** Scores never increase along the sequence. */
  predicate SortedByScore(s: seq<Hit>) {
    forall i, j :: 0 <= i < j < |s| ==> s[i].score >= s[j].score
  }

  /** Puts `h` after every leading hit whose score is at least its own. */
  function Insert(h: Hit, s: seq<Hit>): seq<Hit> {
    if s == [] then [h]
    else if s[0].score >= h.score then [s[0]] + Insert(h, s[1..])
    else [h] + s
  }

  /**
   * `allResults.sort((a, b) => b.score - a.score)`: the platform's sort is stable, so this is the
   * stable sort by descending score, written as insertion of each hit after the ones before it.
   */
  function SortByScoreDesc(s: seq<Hit>): seq<Hit> {
    if s == [] then [] else Insert(s[|s| - 1], SortByScoreDesc(s[..|s| - 1]))
  }

  lemma {:induction false} InsertPermutes(h: Hit, s: seq<Hit>)
    ensures multiset(Insert(h, s)) == multiset(s) + multiset{h}
  {
    if s != [] && s[0].score >= h.score {
      InsertPermutes(h, s[1..]);
      assert s == [s[0]] + s[1..];
    }
  }

  lemma {:induction false} InsertFacts(h: Hit, s: seq<Hit>)
    requires SortedByScore(s)
    ensures multiset(Insert(h, s)) == multiset(s) + multiset{h}
    ensures SortedByScore(Insert(h, s))
  {
    InsertPermutes(h, s);
    if s != [] && s[0].score >= h.score {
      InsertFacts(h, s[1..]);
      var t := Insert(h, s[1..]);
      assert Insert(h, s) == [s[0]] + t;
      forall x | x in t ensures s[0].score >= x.score {
        assert x in multiset(t);
        assert x in multiset(s[1..]) + multiset{h};
      }
    }
  }

  /** The sort orders by score and is a permutation of its input. */
  lemma {:induction false} SortFacts(s: seq<Hit>)
    ensures SortedByScore(SortByScoreDesc(s))
    ensures multiset(SortByScoreDesc(s)) == multiset(s)
  {
    if s != [] {
      var init := s[..|s| - 1];
      SortFacts(init);
      InsertFacts(s[|s| - 1], SortByScoreDesc(init));
      assert s == init + [s[|s| - 1]];
    }
  }

  /** The hits that have score `v`, in their order. */
  function WithScore(s: seq<Hit>, v: real): seq<Hit> {
    if s == [] then [] else (if s[0].score == v then [s[0]] else []) + WithScore(s[1..], v)
  }

  lemma {:induction false} WithScoreAppend(a: seq<Hit>, b: seq<Hit>, v: real)
    ensures WithScore(a + b, v) == WithScore(a, v) + WithScore(b, v)
  {
    if a != [] {
      WithScoreAppend(a[1..], b, v);
      assert (a + b)[1..] == a[1..] + b;
    } else {
      assert a + b == b;
    }
  }

  lemma {:induction false} WithScoreNone(s: seq<Hit>, v: real)
    requires forall i :: 0 <= i < |s| ==> s[i].score < v
    ensures WithScore(s, v) == []
  {
    if s != [] {
      WithScoreNone(s[1..], v);
    }
  }

  lemma {:induction false} InsertWithScore(h: Hit, s: seq<Hit>, v: real)
    requires SortedByScore(s)
    ensures WithScore(Insert(h, s), v) == WithScore(s, v) + (if h.score == v then [h] else [])
  {
    var hv := if h.score == v then [h] else [];
    if s == [] {
      assert Insert(h, s) == [h];
      assert WithScore([h], v) == hv + WithScore([], v);
    } else if s[0].score >= h.score {
      var rest := s[1..];
      assert SortedByScore(rest) by {
        forall i, j | 0 <= i < j < |rest| ensures rest[i].score >= rest[j].score {
          assert rest[i] == s[i + 1] && rest[j] == s[j + 1];
        }
      }
      InsertWithScore(h, rest, v);
      var t := Insert(h, rest);
      var sv := if s[0].score == v then [s[0]] else [];
      assert Insert(h, s) == [s[0]] + t;
      assert ([s[0]] + t)[1..] == t;
      assert WithScore(Insert(h, s), v) == sv + WithScore(t, v);
      assert WithScore(s, v) == sv + WithScore(rest, v);
      assert sv + (WithScore(rest, v) + hv) == (sv + WithScore(rest, v)) + hv;
    } else {
      assert Insert(h, s) == [h] + s;
      assert ([h] + s)[1..] == s;
      assert WithScore(Insert(h, s), v) == hv + WithScore(s, v);
      if h.score == v {
        WithScoreNone(s, v);
      }
    }
  }

  /** The sort is stable: hits of equal score keep the relative order they had before it. */
  lemma {:induction false} SortStable(s: seq<Hit>, v: real)
    ensures WithScore(SortByScoreDesc(s), v) == WithScore(s, v)
  {
    if s != [] {
      var init := s[..|s| - 1];
      var last := s[|s| - 1];
      var sorted := SortByScoreDesc(init);
      var lv := if last.score == v then [last] else [];
      SortStable(init, v);
      SortFacts(init);
      InsertWithScore(last, sorted, v);
      assert SortByScoreDesc(s) == Insert(last, sorted);
      assert [last][1..] == [];
      assert WithScore([last], v) == lv;
      assert s == init + [last];
      WithScoreAppend(init, [last], v);
    }
  }

  /** A list that is already ranked comes out of the sort unchanged. */
  lemma {:induction false} SortOfSorted(s: seq<Hit>)
    requires SortedByScore(s)
    ensures SortByScoreDesc(s) == s
  {
    if s != [] {
      var init := s[..|s| - 1];
      var last := s[|s| - 1];
      SortOfSorted(init);
      InsertAtEnd(last, init);
      assert init + [last] == s;
    }
  }

  lemma {:induction false} InsertAtEnd(h: Hit, s: seq<Hit>)
    requires forall i :: 0 <= i < |s| ==> s[i].score >= h.score
    ensures Insert(h, s) == s + [h]
  {
    if s != [] {
      InsertAtEnd(h, s[1..]);
      assert s == [s[0]] + s[1..];
    }
  }

  /** The result of `searchMultipleSources`: the top `limit` of the stably sorted concatenation. */
  function MultiSourceSearch(contentIds: seq<string>, query: string, limit: nat, store: VectorStore): (r: seq<Hit>)
    ensures |r| <= limit
    ensures SortedByScore(r)
    ensures multiset(r) <= multiset(Gathered(contentIds, query, limit, store))
    ensures |r| == if |Gathered(contentIds, query, limit, store)| < limit then |Gathered(contentIds, query, limit, store)| else limit
    ensures forall x: Hit, y: Hit :: x in r && y in multiset(Gathered(contentIds, query, limit, store)) - multiset(r) ==>
      y.score <= x.score
  {
    var all := Gathered(contentIds, query, limit, store);
    var sorted := SortByScoreDesc(all);
    SortFacts(all);
    assert |sorted| == |all| by {
      assert |multiset(sorted)| == |multiset(all)|;
    }
    var r := Take(sorted, limit);
    TakeOfRankedIsTop(sorted, limit);
    r
  }

  /** A prefix of a ranked list scores at least as high as every hit left out of it. */
  lemma TakeOfRankedIsTop(sorted: seq<Hit>, n: nat)
    requires SortedByScore(sorted)
    ensures multiset(Take(sorted, n)) <= multiset(sorted)
    ensures forall x: Hit, y: Hit :: x in Take(sorted, n) && y in multiset(sorted) - multiset(Take(sorted, n)) ==>
      y.score <= x.score
  {
    var r := Take(sorted, n);
    var rest := sorted[|r|..];
    TakeSplitsMultiset(sorted, n);
    forall x: Hit, y: Hit | x in r && y in multiset(sorted) - multiset(r) ensures y.score <= x.score {
      assert y in rest;
      HeadBeatsTail(sorted, |r|, x, y);
    }
  }

  /** What `Take` leaves out is the multiset of the rest of the list. */
  lemma TakeSplitsMultiset(s: seq<Hit>, n: nat)
    ensures multiset(Take(s, n)) <= multiset(s)
    ensures multiset(s) - multiset(Take(s, n)) == multiset(s[|Take(s, n)|..])
  {
    var r := Take(s, n);
    assert s == r + s[|r|..];
    assert multiset(s) == multiset(r) + multiset(s[|r|..]);
  }

  /** In a ranking, a hit before position `m` scores at least as high as a hit from `m` on. */
  lemma HeadBeatsTail(sorted: seq<Hit>, m: nat, x: Hit, y: Hit)
    requires SortedByScore(sorted) && m <= |sorted|
    requires x in sorted[..m] && y in sorted[m..]
    ensures y.score <= x.score
  {
    var i :| 0 <= i < m && sorted[..m][i] == x;
    var k :| 0 <= k < |sorted| - m && sorted[m..][k] == y;
    assert sorted[i] == x && sorted[m + k] == y;
  }

  /** Every returned hit was returned by the search of one of the selected sources. */
  lemma HitsComeFromSuccessfulSources(contentIds: seq<string>, query: string, limit: nat, store: VectorStore, h: Hit)
    requires h in MultiSourceSearch(contentIds, query, limit, store)
    ensures exists i :: 0 <= i < |contentIds| && SearchSimilar(contentIds[i], query, limit, store).Success?
                        && h in SearchSimilar(contentIds[i], query, limit, store).value
  {
    var r := MultiSourceSearch(contentIds, query, limit, store);
    assert h in multiset(r);
    GatheredFromSuccessfulSources(contentIds, query, limit, store, h);
  }

  lemma GatheredSingle(x: string, query: string, limit: nat, store: VectorStore)
    ensures Gathered([x], query, limit, store) == Contribution(x, query, limit, store)
  {
    assert [x][..0] == [];
  }

  /** A source whose search throws contributes nothing to the gathered hits. */
  lemma GatheredSkipsFailing(before: seq<string>, x: string, after: seq<string>, query: string, limit: nat,
                             store: VectorStore)
    requires SearchSimilar(x, query, limit, store).Failure?
    ensures Gathered(before + [x] + after, query, limit, store) == Gathered(before + after, query, limit, store)
  {
    var gb := Gathered(before, query, limit, store);
    var ga := Gathered(after, query, limit, store);
    GatheredSingle(x, query, limit, store);
    GatheredAppend(before, [x], query, limit, store);
    assert Gathered(before + [x], query, limit, store) == gb + [];
    assert gb + [] == gb;
    GatheredAppend(before + [x], after, query, limit, store);
    GatheredAppend(before, after, query, limit, store);
  }

  /** A source whose search throws changes nothing: the merge is the merge of the other sources. */
  lemma FailingSourceIgnored(contentIds: seq<string>, k: nat, query: string, limit: nat, store: VectorStore)
    requires k < |contentIds| && SearchSimilar(contentIds[k], query, limit, store).Failure?
    ensures MultiSourceSearch(contentIds, query, limit, store)
         == MultiSourceSearch(contentIds[..k] + contentIds[k + 1..], query, limit, store)
  {
    assert contentIds == contentIds[..k] + [contentIds[k]] + contentIds[k + 1..];
    GatheredSkipsFailing(contentIds[..k], contentIds[k], contentIds[k + 1..], query, limit, store);
  }

  /** When every source fails, the merge is empty rather than an error. */
  lemma {:induction false} AllSourcesFailEmpty(contentIds: seq<string>, query: string, limit: nat, store: VectorStore)
    requires forall i :: 0 <= i < |contentIds| ==> SearchSimilar(contentIds[i], query, limit, store).Failure?
    ensures MultiSourceSearch(contentIds, query, limit, store) == []
  {
    var r := MultiSourceSearch(contentIds, query, limit, store);
    if r != [] {
      HitsComeFromSuccessfulSources(contentIds, query, limit, store, r[0]);
    }
  }

  /** `searchMultipleSources(contentIds, query, limit)`: one search per source, then merge, sort and cut. */
  method SearchMultipleSources(contentIds: seq<string>, query: string, store: VectorStore, limit: nat := 10)
    returns (results: seq<Hit>)
    ensures results == MultiSourceSearch(contentIds, query, limit, store)
  {
    var allResults: seq<Hit> := [];
    for k := 0 to |contentIds|
      invariant allResults == Gathered(contentIds[..k], query, limit, store)
    {
      match SearchSimilar(contentIds[k], query, limit, store) {
        case Success(hits) => allResults := allResults + hits;
        case Failure(_) =>
      }
      assert contentIds[..k + 1][..k] == contentIds[..k];
    }
    assert contentIds[..|contentIds|] == contentIds;
    allResults := SortByScoreDesc(allResults);
    results := Take(allResults, limit);
  }

  /** The response to the collection DELETE request: its `ok` flag, or a thrown fetch. */
  datatype DeleteResponse = Responded(ok: bool) | FetchThrew

  const QdrantUrl := "http://localhost:6333"

  /** The address `deleteCollection` sends its DELETE to. */
  function CollectionUrl(contentId: string): (url: string)
    ensures StartsWith(url, QdrantUrl + "/collections/")
    ensures url[|QdrantUrl + "/collections/"|..] == CollectionName(contentId)
  {
    QdrantUrl + "/collections/" + CollectionName(contentId)
  }

  /** `deleteCollection(contentId)`: never throws; true exactly when the store answered ok. */
  function DeleteCollection(contentId: string, send: string -> DeleteResponse): (deleted: bool)
    ensures deleted <==> send(CollectionUrl(contentId)) == Responded(true)
  {
    match send(CollectionUrl(contentId))
    case Responded(ok) => ok
    case FetchThrew => false
  }
}
