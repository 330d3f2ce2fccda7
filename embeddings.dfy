/**
 * In-memory vector similarity. Numbers are reals; the square root that the
 * vector norms use is a parameter, since the reals have no built-in one. The
 * embedding request to the model server is a parameter as well.
 */
module Embeddings {
  import opened Wrappers
  import opened Text
  import opened Ranking

  datatype EmbedError = EmptyText | RequestFailed

  // ---------------------------------------------------------------- cosine similarity

  function Dot(a: seq<real>, b: seq<real>): real
    requires |a| == |b|
    decreases |a|
  {
    if |a| == 0 then 0.0 else a[0] * b[0] + Dot(a[1..], b[1..])
  }

  /** `np.linalg.norm(v)`. */
  function Norm(v: seq<real>, sqrt: real -> real): real {
    sqrt(Dot(v, v))
  }

  /** `cosine_similarity`: 0.0 when either norm is zero, otherwise dot / (norm1 * norm2). */
  function Cosine(v1: seq<real>, v2: seq<real>, sqrt: real -> real): real
    requires |v1| == |v2|
  {
    var n1 := Norm(v1, sqrt);
    var n2 := Norm(v2, sqrt);
    if n1 == 0.0 || n2 == 0.0 then 0.0 else Dot(v1, v2) / (n1 * n2)
  }

  lemma {:induction false} DotSymmetric(a: seq<real>, b: seq<real>)
    requires |a| == |b|
    ensures Dot(a, b) == Dot(b, a)
    decreases |a|
  {
    if |a| > 0 {
      DotSymmetric(a[1..], b[1..]);
    }
  }

  predicate IsZero(v: seq<real>) {
    forall i :: 0 <= i < |v| ==> v[i] == 0.0
  }

  lemma {:induction false} DotZero(v: seq<real>, w: seq<real>)
    requires |v| == |w| && IsZero(v)
    ensures Dot(v, w) == 0.0
    decreases |v|
  {
    if |v| > 0 {
      DotZero(v[1..], w[1..]);
    }
  }

  /** The similarity is symmetric in its two vectors. */
  lemma CosineSymmetric(v1: seq<real>, v2: seq<real>, sqrt: real -> real)
    requires |v1| == |v2|
    ensures Cosine(v1, v2, sqrt) == Cosine(v2, v1, sqrt)
  {
    DotSymmetric(v1, v2);
  }

  /** A zero vector (for a root with sqrt(0) = 0) is dissimilar to everything: the guard returns 0. */
  lemma CosineZeroVector(v1: seq<real>, v2: seq<real>, sqrt: real -> real)
    requires |v1| == |v2| && sqrt(0.0) == 0.0
    requires IsZero(v1) || IsZero(v2)
    ensures Cosine(v1, v2, sqrt) == 0.0
  {
    if IsZero(v1) {
      DotZero(v1, v1);
    } else {
      DotZero(v2, v2);
    }
  }

  /** With an exact positive root of its (positive) squared norm, a vector is fully similar to itself. */
  lemma CosineSelf(v: seq<real>, sqrt: real -> real)
    requires Dot(v, v) > 0.0
    requires sqrt(Dot(v, v)) > 0.0 && sqrt(Dot(v, v)) * sqrt(Dot(v, v)) == Dot(v, v)
    ensures Cosine(v, v, sqrt) == 1.0
  {
    var x := Dot(v, v);
    assert x / x == 1.0;
  }

  // ---------------------------------------------------------------- top-k

  predicate Compatible(query: seq<real>, db: seq<seq<real>>) {
    forall i :: 0 <= i < |db| ==> |db[i]| == |query|
  }

  /** The similarity of the query with every vector of the base, in base order. */
  function Scores(query: seq<real>, db: seq<seq<real>>, sqrt: real -> real): (r: seq<real>)
    requires Compatible(query, db)
    ensures |r| == |db| && forall i :: 0 <= i < |db| ==> r[i] == Cosine(query, db[i], sqrt)
  {
    seq(|db|, i requires 0 <= i < |db| => Cosine(query, db[i], sqrt))
  }

  /** Python's stable sort by decreasing similarity, cut to `top_k`: base positions. */
  function MostSimilar(query: seq<real>, db: seq<seq<real>>, topK: nat, sqrt: real -> real): (r: seq<nat>)
    requires Compatible(query, db)
    ensures |r| == if topK < |db| then topK else |db|
    ensures InRange(Scores(query, db, sqrt), r) && Ranked(Scores(query, db, sqrt), r, true)
    ensures forall i :: 0 <= i < |db| && i !in r ==> forall k :: 0 <= k < |r| ==>
      Scores(query, db, sqrt)[i] <= Scores(query, db, sqrt)[r[k]]
  {
    var scores := Scores(query, db, sqrt);
    RankOrderSpec(scores, true);
    var order := RankOrder(scores, true);
    var r := if topK < |order| then order[..topK] else order;
    assert forall l :: 0 <= l < |r| ==> r[l] == order[l];
    forall i, k | 0 <= i < |db| && i !in r && 0 <= k < |r| ensures scores[i] <= scores[r[k]] {
      assert i in order;
      var q :| 0 <= q < |order| && order[q] == i;
      assert q >= |r|;
      assert Precedes(scores, order[k], order[q], true);
    }
    r
  }

  /** (index, similarity) for the base positions `MostSimilar` picks, in its order. */
  function TopPairs(query: seq<real>, db: seq<seq<real>>, topK: nat, sqrt: real -> real): (r: seq<(nat, real)>)
    requires Compatible(query, db)
    ensures |r| == |MostSimilar(query, db, topK, sqrt)|
  {
    var top := MostSimilar(query, db, topK, sqrt);
    seq(|top|, k requires 0 <= k < |top| => (top[k], Cosine(query, db[top[k]], sqrt)))
  }

  /**
   * The pairs are `top_k` of them (or the whole base), each holding its own
   * similarity, best first with ties in base order, and no vector left out scores
   * higher than one kept.
   */
  lemma TopPairsSpec(query: seq<real>, db: seq<seq<real>>, topK: nat, sqrt: real -> real)
    requires Compatible(query, db)
    ensures var r := TopPairs(query, db, topK, sqrt);
      && |r| == (if topK < |db| then topK else |db|)
      && (forall k :: 0 <= k < |r| ==> r[k].0 < |db| && r[k].1 == Cosine(query, db[r[k].0], sqrt))
      && (forall a, b :: 0 <= a < b < |r| ==>
            r[a].1 >= r[b].1 && r[a].0 != r[b].0 && (r[a].1 == r[b].1 ==> r[a].0 < r[b].0))
      && (forall k, i :: 0 <= k < |r| && 0 <= i < |db| && (forall l :: 0 <= l < |r| ==> r[l].0 != i) ==>
            Cosine(query, db[i], sqrt) <= r[k].1)
  {
    var scores := Scores(query, db, sqrt);
    var top := MostSimilar(query, db, topK, sqrt);
    var r := TopPairs(query, db, topK, sqrt);
    assert forall k :: 0 <= k < |r| ==> r[k] == (top[k], scores[top[k]]);
    forall a, b | 0 <= a < b < |r|
      ensures r[a].1 >= r[b].1 && r[a].0 != r[b].0 && (r[a].1 == r[b].1 ==> r[a].0 < r[b].0)
    {
      assert Precedes(scores, top[a], top[b], true);
    }
    forall k, i | 0 <= k < |r| && 0 <= i < |db| && (forall l :: 0 <= l < |r| ==> r[l].0 != i)
      ensures Cosine(query, db[i], sqrt) <= r[k].1
    {
      assert forall l :: 0 <= l < |r| ==> r[l].0 == top[l];
      assert i !in top;
    }
  }

  /**
   * `find_most_similar`: (index, similarity) for every vector of the base, sorted
   * with Python's stable sort by decreasing similarity, then cut to `top_k`; what
   * that list holds is `TopPairsSpec`.
   */
  method FindMostSimilar(query: seq<real>, db: seq<seq<real>>, topK: nat, sqrt: real -> real)
    returns (r: seq<(nat, real)>)
    requires Compatible(query, db)
    ensures r == TopPairs(query, db, topK, sqrt)
  {
    var similarities: seq<(nat, real)> := [];
    var i := 0;
    while i < |db|
      invariant 0 <= i <= |db|
      invariant |similarities| == i
      invariant forall k :: 0 <= k < i ==> similarities[k] == (k, Cosine(query, db[k], sqrt))
    {
      var similarity := Cosine(query, db[i], sqrt);
      similarities := similarities + [(i, similarity)];
      i := i + 1;
    }
    var top := MostSimilar(query, db, topK, sqrt);
    r := seq(|top|, k requires 0 <= k < |top| => similarities[top[k]]);
  }

  // ---------------------------------------------------------------- the embedding request

  /**
   * `create_embedding`: the text is stripped and rejected when nothing remains;
   * otherwise `request` (the POST to the model server) is asked with the stripped text.
   */
  function CreateEmbedding(text: string, request: string -> Result<seq<real>, EmbedError>): Result<seq<real>, EmbedError> {
    var stripped := Strip(text);
    if stripped == [] then Failure(EmptyText) else request(stripped)
  }

  /**
   * A text is rejected before any request exactly when it is all whitespace: then
   * the result does not depend on the request at all; otherwise it is the request's
   * answer for the stripped text.
   */
  lemma CreateEmbeddingGuard(text: string, request: string -> Result<seq<real>, EmbedError>,
                             other: string -> Result<seq<real>, EmbedError>)
    ensures AllSpace(text) ==>
      CreateEmbedding(text, request) == Failure(EmptyText) == CreateEmbedding(text, other)
    ensures !AllSpace(text) ==> Strip(text) != [] && CreateEmbedding(text, request) == request(Strip(text))
  {
    StripEmpty(text);
  }
}
