/**
 * The vector-store side of retrieval. The ChromaDB collection is an abstract
 * function from a query embedding and a result count to the store's parallel
 * answer lists (documents, metadatas, distances), nearest first.
 */
module VectorStore {
  import opened Wrappers
  import opened Text
  import opened KbParser

  /** The metadata stored with each embedding. */
  datatype Metadata = Metadata(qaId: nat, question: string, answer: string)

  /** One search hit. */
  datatype SearchResult = SearchResult(qaId: nat, text: string, question: string, answer: string, similarity: real)

  /** `collection.query(...)` for a single query embedding: the first list of each batch. */
  datatype QueryAnswer = QueryAnswer(documents: seq<string>, metadatas: seq<Metadata>, distances: seq<real>)

  /** The batch handed to `collection.add`. */
  datatype AddBatch = AddBatch(embeddings: seq<seq<real>>, ids: seq<string>, documents: seq<string>, metadatas: seq<Metadata>)

  /** The Python IndexError of a store answer whose lists are shorter than its document list. */
  datatype StoreError = ShortAnswer

  // ---------------------------------------------------------------- distance to similarity

  /**
   * The conversion of a cosine distance into a similarity: `1 - d/2` up to 2,
   * `1/(1+d)` above, clamped to [0,1] with `max(0.0, min(1.0, ...))`.
   */
  function DistanceToSimilarity(d: real): (r: real)
    ensures 0.0 <= r <= 1.0
  {
    var s := if d > 2.0 then 1.0 / (1.0 + d) else 1.0 - d / 2.0;
    var upper := if s < 1.0 then s else 1.0;
    if upper > 0.0 then upper else 0.0
  }

  /**
   * On [0,2] the clamp does nothing and the similarity is `1 - d/2`
   * (0 gives 1, 1 gives 0.5, 2 gives 0); above 2 it is `1/(1+d)`, strictly
   * between 0 and 1/3; a negative distance gives 1.
   */
  lemma SimilarityValues(d: real)
    ensures 0.0 <= d <= 2.0 ==> DistanceToSimilarity(d) == 1.0 - d / 2.0
    ensures d > 2.0 ==> DistanceToSimilarity(d) == 1.0 / (1.0 + d)
    ensures d > 2.0 ==> 0.0 < DistanceToSimilarity(d) < 1.0 / 3.0
    ensures d < 0.0 ==> DistanceToSimilarity(d) == 1.0
  {
    if d > 2.0 {
      assert 1.0 / (1.0 + d) < 1.0 / 3.0 by {
        assert (1.0 + d) * (1.0 / (1.0 + d)) == 1.0;
        assert 3.0 * (1.0 / 3.0) == 1.0;
      }
    }
  }

  /** The conversion never increases with the distance up to 2, nor above 2. */
  lemma SimilarityAntitone(d1: real, d2: real)
    requires d1 <= d2
    requires d2 <= 2.0 || d1 > 2.0
    ensures DistanceToSimilarity(d1) >= DistanceToSimilarity(d2)
  {
    if d1 > 2.0 {
      assert 1.0 / (1.0 + d1) >= 1.0 / (1.0 + d2) by {
        assert (1.0 + d1) * (1.0 / (1.0 + d1)) == 1.0;
        assert (1.0 + d2) * (1.0 / (1.0 + d2)) == 1.0;
      }
    }
  }

  /**
   * The conversion is not monotone across 2: distance 2 scores 0, any greater
   * distance scores more than 0.
   */
  lemma SimilarityJumpsAtTwo(d: real)
    requires d > 2.0
    ensures DistanceToSimilarity(2.0) == 0.0
    ensures DistanceToSimilarity(d) > DistanceToSimilarity(2.0)
  {
    SimilarityValues(d);
  }

  // ---------------------------------------------------------------- records and search

  /** The record id `f"qa_{id}"`. */
  function RecordId(qaId: nat): string {
    "qa_" + NatToString(qaId)
  }

  /** Distinct entry ids give distinct record ids. */
  lemma RecordIdInjective(a: nat, b: nat)
    ensures RecordId(a) == RecordId(b) ==> a == b
  {
    if RecordId(a) == RecordId(b) {
      assert NatToString(a) == RecordId(a)[3..];
      assert NatToString(b) == RecordId(b)[3..];
      NatToStringInjective(a, b);
    }
  }

  /**
   * `add_embeddings` without the reset: the batch given to the store, one record
   * per pair and in order.
   */
  method AddEmbeddings(embeddings: seq<seq<real>>, pairs: seq<QADict>) returns (batch: AddBatch)
    ensures batch.embeddings == embeddings
    ensures |batch.ids| == |batch.documents| == |batch.metadatas| == |pairs|
    ensures forall i :: 0 <= i < |pairs| ==>
      && batch.ids[i] == RecordId(pairs[i].id)
      && batch.documents[i] == pairs[i].fullText
      && batch.metadatas[i] == Metadata(pairs[i].id, pairs[i].question, pairs[i].answer)
    ensures (forall a, b :: 0 <= a < b < |pairs| ==> pairs[a].id != pairs[b].id) ==>
      forall a, b :: 0 <= a < b < |pairs| ==> batch.ids[a] != batch.ids[b]
  {
    var ids: seq<string> := [];
    var documents: seq<string> := [];
    var metadatas: seq<Metadata> := [];
    var i := 0;
    while i < |pairs|
      invariant 0 <= i <= |pairs|
      invariant |ids| == |documents| == |metadatas| == i
      invariant forall k :: 0 <= k < i ==>
        && ids[k] == RecordId(pairs[k].id)
        && documents[k] == pairs[k].fullText
        && metadatas[k] == Metadata(pairs[k].id, pairs[k].question, pairs[k].answer)
    {
      var qa := pairs[i];
      ids := ids + [RecordId(qa.id)];
      documents := documents + [qa.fullText];
      metadatas := metadatas + [Metadata(qa.id, qa.question, qa.answer)];
      i := i + 1;
    }
    batch := AddBatch(embeddings, ids, documents, metadatas);
    forall a, b | 0 <= a < b < |pairs| && ids[a] == ids[b] ensures pairs[a].id == pairs[b].id {
      RecordIdInjective(pairs[a].id, pairs[b].id);
    }
  }

  predicate WellFormed(answer: QueryAnswer) {
    |answer.metadatas| >= |answer.documents| && |answer.distances| >= |answer.documents|
  }

  /** The hits a well-formed answer converts to, one per document. */
  function Hits(answer: QueryAnswer): (hs: seq<SearchResult>)
    requires WellFormed(answer)
    ensures |hs| == |answer.documents|
  {
    seq(|answer.documents|, i requires 0 <= i < |answer.documents| =>
      SearchResult(answer.metadatas[i].qaId, answer.documents[i], answer.metadatas[i].question,
                   answer.metadatas[i].answer, DistanceToSimilarity(answer.distances[i])))
  }

  /**
   * `search`: one result per returned document, in store order, with `qa_id`,
   * `question` and `answer` from the metadata, the text from the document and the
   * converted distance as similarity.
   */
  method Search(collection: (seq<real>, nat) -> QueryAnswer, queryEmbedding: seq<real>, nResults: nat)
    returns (r: Result<seq<SearchResult>, StoreError>)
    ensures var answer := collection(queryEmbedding, nResults);
      && (r.Failure? <==> !WellFormed(answer))
      && (r.Success? ==>
        && r.value == Hits(answer)
        && |r.value| == |answer.documents|
        && (forall i :: 0 <= i < |r.value| ==>
          && r.value[i].qaId == answer.metadatas[i].qaId
          && r.value[i].question == answer.metadatas[i].question
          && r.value[i].answer == answer.metadatas[i].answer
          && r.value[i].text == answer.documents[i]
          && r.value[i].similarity == DistanceToSimilarity(answer.distances[i])
          && 0.0 <= r.value[i].similarity <= 1.0)
        && ((forall i, j :: 0 <= i < j < |r.value| ==> answer.distances[i] <= answer.distances[j] <= 2.0) ==>
          forall i, j :: 0 <= i < j < |r.value| ==> r.value[i].similarity >= r.value[j].similarity))
  {
    var answer := collection(queryEmbedding, nResults);
    var documents := answer.documents;
    var metadatas := answer.metadatas;
    var distances := answer.distances;
    var results: seq<SearchResult> := [];
    var i := 0;
    while i < |documents|
      invariant 0 <= i <= |documents|
      invariant i <= |metadatas| && i <= |distances|
      invariant |results| == i
      invariant forall k :: 0 <= k < i ==>
        && results[k].qaId == metadatas[k].qaId
        && results[k].question == metadatas[k].question
        && results[k].answer == metadatas[k].answer
        && results[k].text == documents[k]
        && results[k].similarity == DistanceToSimilarity(distances[k])
    {
      if i >= |metadatas| || i >= |distances| {
        return Failure(ShortAnswer);
      }
      var similarity := DistanceToSimilarity(distances[i]);
      results := results + [SearchResult(metadatas[i].qaId, documents[i], metadatas[i].question, metadatas[i].answer, similarity)];
      i := i + 1;
    }
    forall a, b | 0 <= a < b < |results| && (forall i, j :: 0 <= i < j < |results| ==> distances[i] <= distances[j] <= 2.0)
      ensures results[a].similarity >= results[b].similarity
    {
      SimilarityAntitone(distances[a], distances[b]);
    }
    assert results == Hits(answer);
    r := Success(results);
  }

  // ---------------------------------------------------------------- similar questions

  /** Result `i` of the answer is worth suggesting for the asked question. */
  predicate Suggestable(answer: QueryAnswer, i: nat, question: string, threshold: real)
    requires i < |answer.metadatas| && i < |answer.distances|
  {
    DistanceToSimilarity(answer.distances[i]) >= threshold
    && Lower(answer.metadatas[i].question) != Lower(question)
  }

  /** The positions below `n` of the suggestable results, in search order. */
  function SuggestableIndices(answer: QueryAnswer, n: nat, question: string, threshold: real): (r: seq<nat>)
    requires n <= |answer.metadatas| && n <= |answer.distances|
    ensures forall k :: 0 <= k < |r| ==> r[k] < n && Suggestable(answer, r[k], question, threshold)
    ensures forall a, b :: 0 <= a < b < |r| ==> r[a] < r[b]
    ensures forall i :: 0 <= i < n && Suggestable(answer, i, question, threshold) ==> i in r
  {
    if n == 0 then []
    else
      SuggestableIndices(answer, n - 1, question, threshold)
        + (if Suggestable(answer, n - 1, question, threshold) then [n - 1] else [])
  }

  /**
   * `find_similar_questions`: the questions of the five nearest results whose
   * similarity reaches the threshold and that differ from the asked question
   * ignoring case, in search order, at most three.
   */
  method FindSimilarQuestions(collection: (seq<real>, nat) -> QueryAnswer, question: string,
                              queryEmbedding: seq<real>, threshold: real)
    returns (r: Result<seq<string>, StoreError>)
    ensures var answer := collection(queryEmbedding, 5);
      && (r.Failure? <==> !WellFormed(answer))
      && (r.Success? ==>
        var idx := SuggestableIndices(answer, |answer.documents|, question, threshold);
        var m := if |idx| < 3 then |idx| else 3;
        && |r.value| == m
        && forall k :: 0 <= k < m ==> r.value[k] == answer.metadatas[idx[k]].question)
  {
    var results := Search(collection, queryEmbedding, 5);
    if results.Failure? {
      return Failure(results.error);
    }
    ghost var answer := collection(queryEmbedding, 5);
    var rs := results.value;
    var similar: seq<string> := [];
    var i := 0;
    while i < |rs|
      invariant 0 <= i <= |rs|
      invariant var idx := SuggestableIndices(answer, i, question, threshold);
        |similar| == |idx| && forall k :: 0 <= k < |idx| ==> similar[k] == answer.metadatas[idx[k]].question
    {
      if rs[i].similarity >= threshold && Lower(rs[i].question) != Lower(question) {
        similar := similar + [rs[i].question];
      }
      i := i + 1;
    }
    r := Success(if |similar| < 3 then similar else similar[..3]);
  }
}
