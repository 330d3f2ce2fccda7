/**
 * The hybrid retrieval service: it fuses the semantic hits of the vector store
 * with the keyword hits of the TF-IDF index, ranks them by a weighted score and
 * assembles the context handed to the language model.
 */
module HybridRag {
  import opened Wrappers
  import opened Text
  import opened Ranking
  import opened KbParser
  import Tfidf
  import VectorStore
  import Embeddings

  datatype MatchType = Semantic | Keyword | Both

  /** `HybridSearchResult` without its free-text explanation. */
  datatype HybridResult = HybridResult(
    qaPair: QAPair, semanticScore: real, keywordScore: real, combinedScore: real, matchType: MatchType)

  datatype SearchError =
    | EmbeddingFailed(embedError: Embeddings.EmbedError)
    | StoreFailed(storeError: VectorStore.StoreError)
    | LookupFailed(lookupError: LookupError)

  // ---------------------------------------------------------------- the weight check

  /** The constructor's assertion `abs(semantic_weight + keyword_weight - 1.0) < 0.01`. */
  predicate WeightsAccepted(semanticWeight: real, keywordWeight: real) {
    -0.01 < semanticWeight + keywordWeight - 1.0 < 0.01
  }

  /** The constructor's default weights. */
  const DefaultSemanticWeight: real := 0.6
  const DefaultKeywordWeight: real := 0.4

  /** The default weights pass the check. */
  lemma DefaultWeightsAccepted()
    ensures WeightsAccepted(DefaultSemanticWeight, DefaultKeywordWeight)
  {
  }

  /** With accepted non-negative weights and scores in [0,1], a weighted score stays below 1.01. */
  lemma AcceptedWeightsBound(ws: real, wk: real, s: real, k: real)
    requires WeightsAccepted(ws, wk) && ws >= 0.0 && wk >= 0.0
    requires 0.0 <= s <= 1.0 && 0.0 <= k <= 1.0
    ensures 0.0 <= s * ws + k * wk < 1.01
  {
    MulNonNegative(s, ws);
    MulNonNegative(k, wk);
    MulNonNegative(1.0 - s, ws);
    MulNonNegative(1.0 - k, wk);
  }

  lemma MulNonNegative(a: real, b: real)
    requires a >= 0.0 && b >= 0.0
    ensures a * b >= 0.0
  {
  }

  // ---------------------------------------------------------------- results_map

  /** `results_map`: its keys in insertion order and its records. */
  datatype Fusion = Fusion(order: seq<nat>, entries: map<nat, HybridResult>)

  /** Assignment `results_map[id] = h`: a new key goes last, an existing key keeps its place. */
  function Upsert(f: Fusion, id: nat, h: HybridResult): Fusion {
    Fusion(if id in f.entries then f.order else f.order + [id], f.entries[id := h])
  }

  function SemanticHit(p: QAPair, similarity: real, ws: real): HybridResult {
    HybridResult(p, similarity, 0.0, similarity * ws, Semantic)
  }

  function KeywordOnly(p: QAPair, k: real, wk: real): HybridResult {
    HybridResult(p, 0.0, k, k * wk, Keyword)
  }

  /** The in-place update of a record that the keyword search finds again. */
  function BothHit(h: HybridResult, k: real, ws: real, wk: real): HybridResult {
    h.(keywordScore := k, combinedScore := h.semanticScore * ws + k * wk, matchType := Both)
  }

  /** The semantic loop from position `i` on. */
  function SemanticFrom(pairs: seq<QAPair>, sem: seq<VectorStore.SearchResult>, i: nat, ws: real, f: Fusion)
    : Result<Fusion, LookupError>
    requires i <= |sem|
    decreases |sem| - i
  {
    if i == |sem| then Success(f)
    else
      match FindById(pairs, sem[i].qaId)
      case Failure(e) => Failure(e)
      case Success(p) => SemanticFrom(pairs, sem, i + 1, ws, Upsert(f, sem[i].qaId, SemanticHit(p, sem[i].similarity, ws)))
  }

  /** A loop that succeeds from `i` found the entry for `sem[i]`. */
  lemma SemanticFound(pairs: seq<QAPair>, sem: seq<VectorStore.SearchResult>, i: nat, ws: real, f: Fusion)
    requires i < |sem| && SemanticFrom(pairs, sem, i, ws, f).Success?
    ensures FindById(pairs, sem[i].qaId).Success?
  {
  }

  /** One step of the semantic loop for a hit whose id the parser knows. */
  lemma SemanticStep(pairs: seq<QAPair>, sem: seq<VectorStore.SearchResult>, i: nat, ws: real, f: Fusion, p: QAPair)
    requires i < |sem| && FindById(pairs, sem[i].qaId) == Success(p)
    ensures SemanticFrom(pairs, sem, i, ws, f)
         == SemanticFrom(pairs, sem, i + 1, ws, Upsert(f, sem[i].qaId, SemanticHit(p, sem[i].similarity, ws)))
  {
  }

  /** The keyword loop from position `i` on. */
  function KeywordFrom(pairs: seq<QAPair>, kw: seq<(nat, real)>, i: nat, ws: real, wk: real, f: Fusion)
    : Result<Fusion, LookupError>
    requires i <= |kw|
    decreases |kw| - i
  {
    if i == |kw| then Success(f)
    else
      match KeywordStep(pairs, kw[i], ws, wk, f)
      case Failure(e) => Failure(e)
      case Success(f') => KeywordFrom(pairs, kw, i + 1, ws, wk, f')
  }

  /** One step of the keyword loop: it stops at a failing step and goes on otherwise. */
  lemma KeywordFromStep(pairs: seq<QAPair>, kw: seq<(nat, real)>, i: nat, ws: real, wk: real, f: Fusion)
    requires i < |kw|
    ensures KeywordStep(pairs, kw[i], ws, wk, f).Failure? ==>
      KeywordFrom(pairs, kw, i, ws, wk, f) == Failure(KeywordStep(pairs, kw[i], ws, wk, f).error)
    ensures KeywordStep(pairs, kw[i], ws, wk, f).Success? ==>
      KeywordFrom(pairs, kw, i, ws, wk, f) == KeywordFrom(pairs, kw, i + 1, ws, wk, KeywordStep(pairs, kw[i], ws, wk, f).value)
  {
  }

  /** `results_map` after both loops, or the lookup error that stops them. */
  function Fuse(pairs: seq<QAPair>, sem: seq<VectorStore.SearchResult>, kw: seq<(nat, real)>, ws: real, wk: real)
    : Result<Fusion, LookupError>
  {
    match SemanticFrom(pairs, sem, 0, ws, Fusion([], map[]))
    case Failure(e) => Failure(e)
    case Success(f) => KeywordFrom(pairs, kw, 0, ws, wk, f)
  }

  ghost predicate Wf(f: Fusion) {
    Distinct(f.order) && forall id :: id in f.entries <==> id in f.order
  }

  /**
   * A record holds the parser's entry for its key, and its combined score is the
   * weighted sum of its two scores, the missing one being 0.
   */
  ghost predicate RecordOk(pairs: seq<QAPair>, ws: real, wk: real, id: nat, h: HybridResult) {
    && FindById(pairs, id) == Success(h.qaPair)
    && h.combinedScore == h.semanticScore * ws + h.keywordScore * wk
    && (h.matchType == Semantic ==> h.keywordScore == 0.0)
    && (h.matchType == Keyword ==> h.semanticScore == 0.0)
  }

  /** A semantic hit on the parser's entry for its id is a consistent record. */
  lemma SemanticHitOk(pairs: seq<QAPair>, ws: real, wk: real, id: nat, p: QAPair, similarity: real)
    requires FindById(pairs, id) == Success(p)
    ensures RecordOk(pairs, ws, wk, id, SemanticHit(p, similarity, ws))
  {
    assert 0.0 * wk == 0.0;
  }

  ghost predicate Consistent(f: Fusion, pairs: seq<QAPair>, ws: real, wk: real) {
    forall id :: id in f.entries ==> RecordOk(pairs, ws, wk, id, f.entries[id])
  }

  /** `list(results_map.values())`. */
  function Values(f: Fusion): (vs: seq<HybridResult>)
    requires Wf(f)
    ensures |vs| == |f.order|
  {
    seq(|f.order|, k requires 0 <= k < |f.order| => f.entries[f.order[k]])
  }

  lemma UpsertWf(f: Fusion, id: nat, h: HybridResult)
    requires Wf(f)
    ensures Wf(Upsert(f, id, h))
  {
    if id !in f.entries {
      var o := f.order + [id];
      forall a, b | 0 <= a < b < |o| ensures o[a] != o[b] {
        if b == |f.order| { assert o[a] == f.order[a]; }
      }
    }
  }

  lemma UpsertConsistent(f: Fusion, pairs: seq<QAPair>, ws: real, wk: real, id: nat, h: HybridResult)
    requires Consistent(f, pairs, ws, wk) && RecordOk(pairs, ws, wk, id, h)
    ensures Consistent(Upsert(f, id, h), pairs, ws, wk)
  {
  }

  /** The semantic loop keeps the map well-formed. */
  lemma {:induction false} SemanticFromWf(pairs: seq<QAPair>, sem: seq<VectorStore.SearchResult>, i: nat, ws: real, f: Fusion)
    requires i <= |sem| && Wf(f) && SemanticFrom(pairs, sem, i, ws, f).Success?
    ensures Wf(SemanticFrom(pairs, sem, i, ws, f).value)
    decreases |sem| - i
  {
    if i < |sem| {
      SemanticFound(pairs, sem, i, ws, f);
      var p := FindById(pairs, sem[i].qaId).value;
      var h := SemanticHit(p, sem[i].similarity, ws);
      var f' := Upsert(f, sem[i].qaId, h);
      UpsertWf(f, sem[i].qaId, h);
      SemanticStep(pairs, sem, i, ws, f, p);
      SemanticFromWf(pairs, sem, i + 1, ws, f');
    }
  }

  /** The semantic loop keeps every record consistent with the parser and the weights. */
  lemma {:induction false} SemanticFromConsistent(pairs: seq<QAPair>, sem: seq<VectorStore.SearchResult>, i: nat, ws: real, wk: real, f: Fusion)
    requires i <= |sem| && Consistent(f, pairs, ws, wk) && SemanticFrom(pairs, sem, i, ws, f).Success?
    ensures Consistent(SemanticFrom(pairs, sem, i, ws, f).value, pairs, ws, wk)
    decreases |sem| - i
  {
    if i < |sem| {
      SemanticFound(pairs, sem, i, ws, f);
      var p := FindById(pairs, sem[i].qaId).value;
      var h := SemanticHit(p, sem[i].similarity, ws);
      var f' := Upsert(f, sem[i].qaId, h);
      SemanticHitOk(pairs, ws, wk, sem[i].qaId, p, sem[i].similarity);
      UpsertConsistent(f, pairs, ws, wk, sem[i].qaId, h);
      SemanticStep(pairs, sem, i, ws, f, p);
      SemanticFromConsistent(pairs, sem, i + 1, ws, wk, f');
    }
  }

  lemma SemanticFromKeeps(pairs: seq<QAPair>, sem: seq<VectorStore.SearchResult>, i: nat, ws: real, wk: real, f: Fusion)
    requires i <= |sem| && Wf(f) && Consistent(f, pairs, ws, wk)
    requires SemanticFrom(pairs, sem, i, ws, f).Success?
    ensures Wf(SemanticFrom(pairs, sem, i, ws, f).value)
    ensures Consistent(SemanticFrom(pairs, sem, i, ws, f).value, pairs, ws, wk)
  {
    SemanticFromWf(pairs, sem, i, ws, f);
    SemanticFromConsistent(pairs, sem, i, ws, wk, f);
  }

  /** The keyword loop's step for one hit. */
  function KeywordStep(pairs: seq<QAPair>, hit: (nat, real), ws: real, wk: real, f: Fusion): Result<Fusion, LookupError> {
    var id := hit.0;
    if id in f.entries then Success(Upsert(f, id, BothHit(f.entries[id], hit.1, ws, wk)))
    else
      match FindById(pairs, id)
      case Failure(e) => Failure(e)
      case Success(p) => Success(Upsert(f, id, KeywordOnly(p, hit.1, wk)))
  }

  /** Updating a consistent record with a keyword score keeps it consistent. */
  lemma BothHitOk(pairs: seq<QAPair>, ws: real, wk: real, id: nat, h: HybridResult, k: real)
    requires RecordOk(pairs, ws, wk, id, h)
    ensures RecordOk(pairs, ws, wk, id, BothHit(h, k, ws, wk))
  {
  }

  /** A keyword-only record built on the parser's entry for its id is consistent. */
  lemma KeywordOnlyOk(pairs: seq<QAPair>, ws: real, wk: real, id: nat, p: QAPair, k: real)
    requires FindById(pairs, id) == Success(p)
    ensures RecordOk(pairs, ws, wk, id, KeywordOnly(p, k, wk))
  {
    assert 0.0 * ws == 0.0;
  }

  lemma KeywordStepKeeps(pairs: seq<QAPair>, hit: (nat, real), ws: real, wk: real, f: Fusion)
    requires Wf(f) && Consistent(f, pairs, ws, wk)
    requires KeywordStep(pairs, hit, ws, wk, f).Success?
    ensures Wf(KeywordStep(pairs, hit, ws, wk, f).value)
    ensures Consistent(KeywordStep(pairs, hit, ws, wk, f).value, pairs, ws, wk)
  {
    var id := hit.0;
    if id in f.entries {
      var h := BothHit(f.entries[id], hit.1, ws, wk);
      assert KeywordStep(pairs, hit, ws, wk, f) == Success(Upsert(f, id, h));
      assert RecordOk(pairs, ws, wk, id, h) by {
        assert RecordOk(pairs, ws, wk, id, f.entries[id]);
        BothHitOk(pairs, ws, wk, id, f.entries[id], hit.1);
      }
      UpsertWf(f, id, h);
      UpsertConsistent(f, pairs, ws, wk, id, h);
    } else {
      assert FindById(pairs, id).Success?;
      var p := FindById(pairs, id).value;
      var h := KeywordOnly(p, hit.1, wk);
      assert KeywordStep(pairs, hit, ws, wk, f) == Success(Upsert(f, id, h));
      KeywordOnlyOk(pairs, ws, wk, id, p, hit.1);
      UpsertWf(f, id, h);
      UpsertConsistent(f, pairs, ws, wk, id, h);
    }
  }

  lemma {:induction false} KeywordFromKeeps(pairs: seq<QAPair>, kw: seq<(nat, real)>, i: nat, ws: real, wk: real, f: Fusion)
    requires i <= |kw| && Wf(f) && Consistent(f, pairs, ws, wk)
    requires KeywordFrom(pairs, kw, i, ws, wk, f).Success?
    ensures Wf(KeywordFrom(pairs, kw, i, ws, wk, f).value)
    ensures Consistent(KeywordFrom(pairs, kw, i, ws, wk, f).value, pairs, ws, wk)
    decreases |kw| - i
  {
    if i < |kw| {
      KeywordStepKeeps(pairs, kw[i], ws, wk, f);
      KeywordFromKeeps(pairs, kw, i + 1, ws, wk, KeywordStep(pairs, kw[i], ws, wk, f).value);
    }
  }

  /**
   * The fused map is well formed and consistent: one record per key, each holding
   * the parser's entry for the key and combined = semantic * ws + keyword * wk, with
   * keyword 0 for a semantic-only record and semantic 0 for a keyword-only one.
   */
  lemma FuseConsistent(pairs: seq<QAPair>, sem: seq<VectorStore.SearchResult>, kw: seq<(nat, real)>, ws: real, wk: real)
    requires Fuse(pairs, sem, kw, ws, wk).Success?
    ensures Wf(Fuse(pairs, sem, kw, ws, wk).value)
    ensures Consistent(Fuse(pairs, sem, kw, ws, wk).value, pairs, ws, wk)
  {
    var f0 := Fusion([], map[]);
    SemanticFromKeeps(pairs, sem, 0, ws, wk, f0);
    KeywordFromKeeps(pairs, kw, 0, ws, wk, SemanticFrom(pairs, sem, 0, ws, f0).value);
  }

  // ---------------------------------------------------------------- what each record holds

  predicate InSemantic(sem: seq<VectorStore.SearchResult>, i: nat, id: nat) {
    exists j :: i <= j < |sem| && sem[j].qaId == id
  }

  predicate InKeyword(kw: seq<(nat, real)>, i: nat, id: nat) {
    exists j :: i <= j < |kw| && kw[j].0 == id
  }

  /** Semantic hit `j` is the last one for its id. */
  predicate LastSemantic(sem: seq<VectorStore.SearchResult>, j: nat) {
    j < |sem| && forall l :: j < l < |sem| ==> sem[l].qaId != sem[j].qaId
  }

  /** Keyword hit `j` is the only one for its id from position `i` on. */
  predicate OnlyKeyword(kw: seq<(nat, real)>, i: nat, j: nat) {
    i <= j < |kw| && forall l :: i <= l < |kw| && l != j ==> kw[l].0 != kw[j].0
  }

  lemma InSemanticStep(sem: seq<VectorStore.SearchResult>, i: nat, id: nat)
    requires i < |sem|
    ensures InSemantic(sem, i, id) <==> id == sem[i].qaId || InSemantic(sem, i + 1, id)
  {
    if InSemantic(sem, i, id) && id != sem[i].qaId {
      var j :| i <= j < |sem| && sem[j].qaId == id;
      assert i + 1 <= j;
    }
  }

  lemma InKeywordStep(kw: seq<(nat, real)>, i: nat, id: nat)
    requires i < |kw|
    ensures InKeyword(kw, i, id) <==> id == kw[i].0 || InKeyword(kw, i + 1, id)
  {
    if InKeyword(kw, i, id) && id != kw[i].0 {
      var j :| i <= j < |kw| && kw[j].0 == id;
      assert i + 1 <= j;
    }
  }

  /** The semantic loop adds one key per hit id and changes no record of another id. */
  lemma {:induction false} SemanticFromFrame(pairs: seq<QAPair>, sem: seq<VectorStore.SearchResult>, i: nat, ws: real, f: Fusion, id: nat)
    requires i <= |sem| && SemanticFrom(pairs, sem, i, ws, f).Success?
    ensures var g := SemanticFrom(pairs, sem, i, ws, f).value;
      && (id in g.entries <==> id in f.entries || InSemantic(sem, i, id))
      && (id in f.entries && !InSemantic(sem, i, id) ==> g.entries[id] == f.entries[id])
    decreases |sem| - i
  {
    if i < |sem| {
      var p := FindById(pairs, sem[i].qaId).value;
      var f' := Upsert(f, sem[i].qaId, SemanticHit(p, sem[i].similarity, ws));
      SemanticFromFrame(pairs, sem, i + 1, ws, f', id);
      InSemanticStep(sem, i, id);
    }
  }

  /** The record of a semantic id is the hit of its last occurrence. */
  lemma {:induction false} SemanticFromLast(pairs: seq<QAPair>, sem: seq<VectorStore.SearchResult>, i: nat, ws: real, f: Fusion, j: nat)
    requires i <= j && LastSemantic(sem, j) && SemanticFrom(pairs, sem, i, ws, f).Success?
    ensures var g := SemanticFrom(pairs, sem, i, ws, f).value;
      && FindById(pairs, sem[j].qaId).Success?
      && sem[j].qaId in g.entries
      && g.entries[sem[j].qaId] == SemanticHit(FindById(pairs, sem[j].qaId).value, sem[j].similarity, ws)
    decreases |sem| - i
  {
    var p := FindById(pairs, sem[i].qaId).value;
    var f' := Upsert(f, sem[i].qaId, SemanticHit(p, sem[i].similarity, ws));
    if i < j {
      SemanticFromLast(pairs, sem, i + 1, ws, f', j);
    } else {
      assert !InSemantic(sem, i + 1, sem[j].qaId);
      SemanticFromFrame(pairs, sem, i + 1, ws, f', sem[j].qaId);
    }
  }

  /** The keyword loop adds one key per new hit id and changes no record of another id. */
  lemma {:induction false} KeywordFromFrame(pairs: seq<QAPair>, kw: seq<(nat, real)>, i: nat, ws: real, wk: real, f: Fusion, id: nat)
    requires i <= |kw| && KeywordFrom(pairs, kw, i, ws, wk, f).Success?
    ensures var g := KeywordFrom(pairs, kw, i, ws, wk, f).value;
      && (id in g.entries <==> id in f.entries || InKeyword(kw, i, id))
      && (id in f.entries && !InKeyword(kw, i, id) ==> g.entries[id] == f.entries[id])
    decreases |kw| - i
  {
    if i < |kw| {
      var f' := KeywordStep(pairs, kw[i], ws, wk, f).value;
      KeywordFromFrame(pairs, kw, i + 1, ws, wk, f', id);
      InKeywordStep(kw, i, id);
    }
  }

  /**
   * A keyword id read once marks an existing record as found by both, or else
   * becomes a keyword-only record.
   */
  lemma {:induction false} KeywordFromOnly(pairs: seq<QAPair>, kw: seq<(nat, real)>, i: nat, ws: real, wk: real, f: Fusion, j: nat)
    requires OnlyKeyword(kw, i, j) && KeywordFrom(pairs, kw, i, ws, wk, f).Success?
    ensures var g := KeywordFrom(pairs, kw, i, ws, wk, f).value;
      && kw[j].0 in g.entries
      && (kw[j].0 in f.entries ==> g.entries[kw[j].0] == BothHit(f.entries[kw[j].0], kw[j].1, ws, wk))
      && (kw[j].0 !in f.entries ==>
            FindById(pairs, kw[j].0).Success?
            && g.entries[kw[j].0] == KeywordOnly(FindById(pairs, kw[j].0).value, kw[j].1, wk))
    decreases |kw| - i
  {
    var f' := KeywordStep(pairs, kw[i], ws, wk, f).value;
    if i < j {
      assert OnlyKeyword(kw, i + 1, j) && kw[j].0 != kw[i].0;
      KeywordFromOnly(pairs, kw, i + 1, ws, wk, f', j);
    } else {
      assert !InKeyword(kw, i + 1, kw[j].0);
      KeywordFromFrame(pairs, kw, i + 1, ws, wk, f', kw[j].0);
    }
  }

  // ---------------------------------------------------------------- the three kinds of record

  /** `results_map` holds exactly the ids that either search returned. */
  lemma FuseKeys(pairs: seq<QAPair>, sem: seq<VectorStore.SearchResult>, kw: seq<(nat, real)>, ws: real, wk: real, id: nat)
    requires Fuse(pairs, sem, kw, ws, wk).Success?
    ensures id in Fuse(pairs, sem, kw, ws, wk).value.entries <==> InSemantic(sem, 0, id) || InKeyword(kw, 0, id)
  {
    var f0 := Fusion([], map[]);
    var f := SemanticFrom(pairs, sem, 0, ws, f0).value;
    SemanticFromFrame(pairs, sem, 0, ws, f0, id);
    KeywordFromFrame(pairs, kw, 0, ws, wk, f, id);
  }

  /** An id only the semantic search returned: keyword score 0, combined = similarity * ws, "semantic". */
  lemma FuseSemanticOnly(pairs: seq<QAPair>, sem: seq<VectorStore.SearchResult>, kw: seq<(nat, real)>, ws: real, wk: real, j: nat)
    requires Fuse(pairs, sem, kw, ws, wk).Success?
    requires LastSemantic(sem, j) && !InKeyword(kw, 0, sem[j].qaId)
    ensures var g := Fuse(pairs, sem, kw, ws, wk).value;
      && sem[j].qaId in g.entries
      && g.entries[sem[j].qaId] == SemanticHit(g.entries[sem[j].qaId].qaPair, sem[j].similarity, ws)
  {
    var f0 := Fusion([], map[]);
    var f := SemanticFrom(pairs, sem, 0, ws, f0).value;
    var id := sem[j].qaId;
    SemanticFromLast(pairs, sem, 0, ws, f0, j);
    KeywordFromFrame(pairs, kw, 0, ws, wk, f, id);
  }

  /**
   * An id both searches returned: its semantic score stays, the keyword score is
   * set, combined = semantic * ws + keyword * wk, "both".
   */
  lemma FuseBoth(pairs: seq<QAPair>, sem: seq<VectorStore.SearchResult>, kw: seq<(nat, real)>, ws: real, wk: real, j: nat, l: nat)
    requires Fuse(pairs, sem, kw, ws, wk).Success?
    requires LastSemantic(sem, j) && OnlyKeyword(kw, 0, l) && sem[j].qaId == kw[l].0
    ensures var g := Fuse(pairs, sem, kw, ws, wk).value;
      && sem[j].qaId in g.entries
      && g.entries[sem[j].qaId] == BothHit(SemanticHit(g.entries[sem[j].qaId].qaPair, sem[j].similarity, ws), kw[l].1, ws, wk)
  {
    var f0 := Fusion([], map[]);
    var f := SemanticFrom(pairs, sem, 0, ws, f0).value;
    var id := sem[j].qaId;
    assert Fuse(pairs, sem, kw, ws, wk) == KeywordFrom(pairs, kw, 0, ws, wk, f);
    SemanticFromLast(pairs, sem, 0, ws, f0, j);
    var p := FindById(pairs, id).value;
    var h := SemanticHit(p, sem[j].similarity, ws);
    assert id in f.entries && f.entries[id] == h;
    var g := KeywordFrom(pairs, kw, 0, ws, wk, f).value;
    assert id in g.entries && g.entries[id] == BothHit(h, kw[l].1, ws, wk) by {
      KeywordFromOnly(pairs, kw, 0, ws, wk, f, l);
    }
  }

  /** A semantic record that the keyword search finds again. */
  lemma BothOfSemantic(p: QAPair, similarity: real, k: real, ws: real, wk: real)
    ensures BothHit(SemanticHit(p, similarity, ws), k, ws, wk)
         == HybridResult(p, similarity, k, similarity * ws + k * wk, Both)
  {
  }

  /** An id only the keyword search returned: semantic score 0, combined = keyword * wk, "keyword". */
  lemma FuseKeywordOnly(pairs: seq<QAPair>, sem: seq<VectorStore.SearchResult>, kw: seq<(nat, real)>, ws: real, wk: real, l: nat)
    requires Fuse(pairs, sem, kw, ws, wk).Success?
    requires OnlyKeyword(kw, 0, l) && !InSemantic(sem, 0, kw[l].0)
    ensures var g := Fuse(pairs, sem, kw, ws, wk).value;
      && kw[l].0 in g.entries
      && g.entries[kw[l].0] == KeywordOnly(g.entries[kw[l].0].qaPair, kw[l].1, wk)
  {
    var f0 := Fusion([], map[]);
    var f := SemanticFrom(pairs, sem, 0, ws, f0).value;
    SemanticFromFrame(pairs, sem, 0, ws, f0, kw[l].0);
    KeywordFromOnly(pairs, kw, 0, ws, wk, f, l);
  }

  // ---------------------------------------------------------------- failure and insertion order

  /** Some hit of either search carries an id the parser does not know. */
  predicate UnknownHit(pairs: seq<QAPair>, sem: seq<VectorStore.SearchResult>, kw: seq<(nat, real)>) {
    || (exists j :: 0 <= j < |sem| && FindById(pairs, sem[j].qaId).Failure?)
    || (exists l :: 0 <= l < |kw| && FindById(pairs, kw[l].0).Failure?)
  }

  lemma {:induction false} SemanticFromFails(pairs: seq<QAPair>, sem: seq<VectorStore.SearchResult>, i: nat, ws: real, f: Fusion)
    requires i <= |sem|
    ensures SemanticFrom(pairs, sem, i, ws, f).Failure? <==>
      exists j :: i <= j < |sem| && FindById(pairs, sem[j].qaId).Failure?
    decreases |sem| - i
  {
    if i < |sem| {
      match FindById(pairs, sem[i].qaId)
      case Failure(_) =>
        assert SemanticFrom(pairs, sem, i, ws, f).Failure?;
      case Success(p) =>
        var f' := Upsert(f, sem[i].qaId, SemanticHit(p, sem[i].similarity, ws));
        assert SemanticFrom(pairs, sem, i, ws, f) == SemanticFrom(pairs, sem, i + 1, ws, f');
        SemanticFromFails(pairs, sem, i + 1, ws, f');
        if SemanticFrom(pairs, sem, i + 1, ws, f').Failure? {
          var j :| i + 1 <= j < |sem| && FindById(pairs, sem[j].qaId).Failure?;
          assert i <= j;
        } else {
          forall j | i <= j < |sem| ensures FindById(pairs, sem[j].qaId).Success? {
            if j == i { assert FindById(pairs, sem[i].qaId) == Success(p); }
          }
        }
    }
  }

  /** Every key of the map is an id the parser knows. */
  ghost predicate Known(f: Fusion, pairs: seq<QAPair>) {
    forall id :: id in f.entries ==> FindById(pairs, id).Success?
  }

  lemma ConsistentKnown(f: Fusion, pairs: seq<QAPair>, ws: real, wk: real)
    requires Consistent(f, pairs, ws, wk)
    ensures Known(f, pairs)
  {
    forall id | id in f.entries ensures FindById(pairs, id).Success? {
      assert RecordOk(pairs, ws, wk, id, f.entries[id]);
    }
  }

  /** A keyword step that succeeds adds only known ids. */
  lemma KeywordStepKnown(pairs: seq<QAPair>, hit: (nat, real), ws: real, wk: real, f: Fusion)
    requires Known(f, pairs) && KeywordStep(pairs, hit, ws, wk, f).Success?
    ensures Known(KeywordStep(pairs, hit, ws, wk, f).value, pairs)
  {
    var g := KeywordStep(pairs, hit, ws, wk, f).value;
    assert hit.0 !in f.entries ==> FindById(pairs, hit.0).Success?;
    assert forall id :: id in g.entries ==> id in f.entries || id == hit.0;
  }

  lemma {:induction false} KeywordFromFails(pairs: seq<QAPair>, kw: seq<(nat, real)>, i: nat, ws: real, wk: real, f: Fusion)
    requires i <= |kw| && Known(f, pairs)
    ensures KeywordFrom(pairs, kw, i, ws, wk, f).Failure? <==>
      exists l :: i <= l < |kw| && FindById(pairs, kw[l].0).Failure?
    decreases |kw| - i
  {
    if i < |kw| {
      var id := kw[i].0;
      var step := KeywordStep(pairs, kw[i], ws, wk, f);
      KeywordFromStep(pairs, kw, i, ws, wk, f);
      if step.Success? {
        assert FindById(pairs, id).Success?;
        KeywordStepKnown(pairs, kw[i], ws, wk, f);
        KeywordFromFails(pairs, kw, i + 1, ws, wk, step.value);
        assert KeywordFrom(pairs, kw, i, ws, wk, f) == KeywordFrom(pairs, kw, i + 1, ws, wk, step.value);
        if exists l :: i <= l < |kw| && FindById(pairs, kw[l].0).Failure? {
          var l :| i <= l < |kw| && FindById(pairs, kw[l].0).Failure?;
          assert i + 1 <= l;
          assert KeywordFrom(pairs, kw, i + 1, ws, wk, step.value).Failure?;
        }
        if exists l :: i + 1 <= l < |kw| && FindById(pairs, kw[l].0).Failure? {
          var l :| i + 1 <= l < |kw| && FindById(pairs, kw[l].0).Failure?;
          assert i <= l;
        }
      } else {
        assert FindById(pairs, kw[i].0).Failure?;
        assert KeywordFrom(pairs, kw, i, ws, wk, f).Failure?;
      }
    }
  }

  /** The fusion fails exactly when one of the hits names an id the parser does not know. */
  lemma FuseFails(pairs: seq<QAPair>, sem: seq<VectorStore.SearchResult>, kw: seq<(nat, real)>, ws: real, wk: real)
    ensures Fuse(pairs, sem, kw, ws, wk).Failure? <==> UnknownHit(pairs, sem, kw)
  {
    var f0 := Fusion([], map[]);
    SemanticFromFails(pairs, sem, 0, ws, f0);
    if SemanticFrom(pairs, sem, 0, ws, f0).Success? {
      SemanticFromConsistent(pairs, sem, 0, ws, wk, f0);
      ConsistentKnown(SemanticFrom(pairs, sem, 0, ws, f0).value, pairs, ws, wk);
      KeywordFromFails(pairs, kw, 0, ws, wk, SemanticFrom(pairs, sem, 0, ws, f0).value);
    }
  }

  /** `o` extended by the ids of `ids` it does not hold yet, in order of first occurrence. */
  function AppendNew(o: seq<nat>, ids: seq<nat>): seq<nat>
    decreases |ids|
  {
    if |ids| == 0 then o else AppendNew(if ids[0] in o then o else o + [ids[0]], ids[1..])
  }

  lemma {:induction false} AppendNewConcat(o: seq<nat>, a: seq<nat>, b: seq<nat>)
    ensures AppendNew(AppendNew(o, a), b) == AppendNew(o, a + b)
    decreases |a|
  {
    if |a| > 0 {
      assert (a + b)[0] == a[0] && (a + b)[1..] == a[1..] + b;
      AppendNewConcat(if a[0] in o then o else o + [a[0]], a[1..], b);
    } else {
      assert a + b == b;
    }
  }

  function SemanticIds(sem: seq<VectorStore.SearchResult>): (ids: seq<nat>)
    ensures |ids| == |sem| && forall k :: 0 <= k < |sem| ==> ids[k] == sem[k].qaId
  {
    seq(|sem|, k requires 0 <= k < |sem| => sem[k].qaId)
  }

  function KeywordIds(kw: seq<(nat, real)>): (ids: seq<nat>)
    ensures |ids| == |kw| && forall k :: 0 <= k < |kw| ==> ids[k] == kw[k].0
  {
    seq(|kw|, k requires 0 <= k < |kw| => kw[k].0)
  }

  lemma {:induction false} SemanticFromOrder(pairs: seq<QAPair>, sem: seq<VectorStore.SearchResult>, i: nat, ws: real, f: Fusion)
    requires i <= |sem| && Wf(f)
    ensures SemanticFrom(pairs, sem, i, ws, f).Success? ==>
      SemanticFrom(pairs, sem, i, ws, f).value.order == AppendNew(f.order, SemanticIds(sem)[i..])
    decreases |sem| - i
  {
    if i < |sem| && FindById(pairs, sem[i].qaId).Success? {
      var p := FindById(pairs, sem[i].qaId).value;
      var h := SemanticHit(p, sem[i].similarity, ws);
      UpsertWf(f, sem[i].qaId, h);
      SemanticFromOrder(pairs, sem, i + 1, ws, Upsert(f, sem[i].qaId, h));
      assert SemanticIds(sem)[i..][1..] == SemanticIds(sem)[i + 1..];
    }
  }

  lemma {:induction false} KeywordFromOrder(pairs: seq<QAPair>, kw: seq<(nat, real)>, i: nat, ws: real, wk: real, f: Fusion)
    requires i <= |kw| && Wf(f) && KeywordFrom(pairs, kw, i, ws, wk, f).Success?
    ensures KeywordFrom(pairs, kw, i, ws, wk, f).value.order == AppendNew(f.order, KeywordIds(kw)[i..])
    decreases |kw| - i
  {
    if i < |kw| {
      var f' := KeywordStep(pairs, kw[i], ws, wk, f).value;
      if kw[i].0 in f.entries {
        UpsertWf(f, kw[i].0, BothHit(f.entries[kw[i].0], kw[i].1, ws, wk));
      } else {
        UpsertWf(f, kw[i].0, KeywordOnly(FindById(pairs, kw[i].0).value, kw[i].1, wk));
      }
      KeywordFromOrder(pairs, kw, i + 1, ws, wk, f');
      assert KeywordIds(kw)[i..][1..] == KeywordIds(kw)[i + 1..];
    }
  }

  /**
   * The insertion order of `results_map`: the ids of the semantic hits, then those
   * of the keyword hits, each kept at its first occurrence.
   */
  lemma FuseOrder(pairs: seq<QAPair>, sem: seq<VectorStore.SearchResult>, kw: seq<(nat, real)>, ws: real, wk: real)
    requires Fuse(pairs, sem, kw, ws, wk).Success?
    ensures Fuse(pairs, sem, kw, ws, wk).value.order == AppendNew([], SemanticIds(sem) + KeywordIds(kw))
  {
    var f0 := Fusion([], map[]);
    SemanticFromOrder(pairs, sem, 0, ws, f0);
    SemanticFromKeeps(pairs, sem, 0, ws, ws, f0);
    KeywordFromOrder(pairs, kw, 0, ws, wk, SemanticFrom(pairs, sem, 0, ws, f0).value);
    assert SemanticIds(sem)[0..] == SemanticIds(sem) && KeywordIds(kw)[0..] == KeywordIds(kw);
    AppendNewConcat([], SemanticIds(sem), KeywordIds(kw));
  }

  // ---------------------------------------------------------------- ranking

  function CombinedScores(vs: seq<HybridResult>): (keys: seq<real>)
    ensures |keys| == |vs| && forall k :: 0 <= k < |vs| ==> keys[k] == vs[k].combinedScore
  {
    seq(|vs|, k requires 0 <= k < |vs| => vs[k].combinedScore)
  }

  /**
   * The positions kept by `final_results.sort(key=combined_score, reverse=True)`
   * followed by `[:n_results]`: a stable sort, so equal scores stay in map order.
   */
  function TopPositions(vs: seq<HybridResult>, n: nat): (p: seq<nat>)
    ensures |p| == (if n < |vs| then n else |vs|)
    ensures InRange(CombinedScores(vs), p) && Ranked(CombinedScores(vs), p, true)
  {
    var o := RankOrder(CombinedScores(vs), true);
    RankOrderSpec(CombinedScores(vs), true);
    if n < |o| then o[..n] else o
  }

  function RankResults(vs: seq<HybridResult>, n: nat): (r: seq<HybridResult>)
    ensures |r| == |TopPositions(vs, n)|
    ensures forall k :: 0 <= k < |r| ==> r[k] == vs[TopPositions(vs, n)[k]]
  {
    var p := TopPositions(vs, n);
    seq(|p|, k requires 0 <= k < |p| => vs[p[k]])
  }

  /** A record left out scores no higher than any record kept. */
  lemma TopPositionsBest(vs: seq<HybridResult>, n: nat, i: nat)
    requires i < |vs| && i !in TopPositions(vs, n)
    ensures forall k :: 0 <= k < |TopPositions(vs, n)| ==> vs[i].combinedScore <= vs[TopPositions(vs, n)[k]].combinedScore
  {
    var keys := CombinedScores(vs);
    var o := RankOrder(keys, true);
    RankOrderSpec(keys, true);
    var p := TopPositions(vs, n);
    assert i in o;
    var q :| 0 <= q < |o| && o[q] == i;
    assert forall t :: 0 <= t < |p| ==> p[t] == o[t];
    assert q >= |p|;
    forall k | 0 <= k < |p| ensures keys[i] <= keys[p[k]] {
      assert Precedes(keys, o[k], o[q], true);
    }
  }

  /** The whole of `search` after the two index lookups: fuse, sort, cut. */
  function FuseAndRank(pairs: seq<QAPair>, sem: seq<VectorStore.SearchResult>, kw: seq<(nat, real)>, ws: real, wk: real, n: nat)
    : Result<seq<HybridResult>, LookupError>
  {
    match Fuse(pairs, sem, kw, ws, wk)
    case Failure(e) => Failure(e)
    case Success(f) =>
      FuseConsistent(pairs, sem, kw, ws, wk);
      Success(RankResults(Values(f), n))
  }

  /**
   * The results are records of the fused map, at most `n_results` of them and one
   * per question id, each carrying the parser's entry for its id.
   */
  lemma FuseAndRankRecords(pairs: seq<QAPair>, sem: seq<VectorStore.SearchResult>, kw: seq<(nat, real)>, ws: real, wk: real, n: nat)
    requires FuseAndRank(pairs, sem, kw, ws, wk, n).Success?
    ensures var f := Fuse(pairs, sem, kw, ws, wk).value;
      var r := FuseAndRank(pairs, sem, kw, ws, wk, n).value;
      && |r| == (if n < |f.order| then n else |f.order|)
      && (forall k :: 0 <= k < |r| ==> r[k].qaPair.id in f.entries && f.entries[r[k].qaPair.id] == r[k])
      && (forall k :: 0 <= k < |r| ==> FindById(pairs, r[k].qaPair.id) == Success(r[k].qaPair))
      && (forall a, b :: 0 <= a < b < |r| ==> r[a].qaPair.id != r[b].qaPair.id)
  {
    var f := Fuse(pairs, sem, kw, ws, wk).value;
    FuseConsistent(pairs, sem, kw, ws, wk);
    var vs := Values(f);
    var p := TopPositions(vs, n);
    var r := RankResults(vs, n);
    forall k | 0 <= k < |r| ensures r[k].qaPair.id == f.order[p[k]] && RecordOk(pairs, ws, wk, f.order[p[k]], r[k]) {
      assert r[k] == f.entries[f.order[p[k]]];
      assert RecordOk(pairs, ws, wk, f.order[p[k]], r[k]);
    }
    forall a, b | 0 <= a < b < |r| ensures r[a].qaPair.id != r[b].qaPair.id {
      assert Precedes(CombinedScores(vs), p[a], p[b], true);
      assert p[a] != p[b];
      if p[a] < p[b] {
        assert f.order[p[a]] != f.order[p[b]];
      } else {
        assert f.order[p[b]] != f.order[p[a]];
      }
    }
  }

  /** Every key holds a record for that question id. */
  ghost predicate KeyedById(f: Fusion) {
    Wf(f) && forall id :: id in f.entries ==> f.entries[id].qaPair.id == id
  }

  lemma FuseKeyed(pairs: seq<QAPair>, sem: seq<VectorStore.SearchResult>, kw: seq<(nat, real)>, ws: real, wk: real)
    requires Fuse(pairs, sem, kw, ws, wk).Success?
    ensures KeyedById(Fuse(pairs, sem, kw, ws, wk).value)
  {
    var f := Fuse(pairs, sem, kw, ws, wk).value;
    FuseConsistent(pairs, sem, kw, ws, wk);
    forall id | id in f.entries ensures f.entries[id].qaPair.id == id {
      assert RecordOk(pairs, ws, wk, id, f.entries[id]);
    }
  }

  /** Ranked records come best first, equal scores in insertion order. */
  lemma RankSorted(f: Fusion, n: nat)
    requires KeyedById(f)
    ensures var r := RankResults(Values(f), n);
      && (forall a, b :: 0 <= a < b < |r| ==> r[a].combinedScore >= r[b].combinedScore)
      && (forall a, b :: 0 <= a < b < |r| && r[a].combinedScore == r[b].combinedScore ==>
            exists pa, pb :: 0 <= pa < pb < |f.order| && f.order[pa] == r[a].qaPair.id && f.order[pb] == r[b].qaPair.id)
  {
    var vs := Values(f);
    var keys := CombinedScores(vs);
    var p := TopPositions(vs, n);
    var r := RankResults(vs, n);
    forall a, b | 0 <= a < b < |r| ensures r[a].combinedScore >= r[b].combinedScore
      && (r[a].combinedScore == r[b].combinedScore ==> p[a] < p[b])
    {
      assert Precedes(keys, p[a], p[b], true);
    }
    forall a, b | 0 <= a < b < |r| && r[a].combinedScore == r[b].combinedScore
      ensures exists pa, pb :: 0 <= pa < pb < |f.order| && f.order[pa] == r[a].qaPair.id && f.order[pb] == r[b].qaPair.id
    {
      assert r[a] == vs[p[a]] && r[b] == vs[p[b]];
    }
  }

  /** A record left out of the ranking scores no higher than any record kept. */
  lemma RankBest(f: Fusion, n: nat, id: nat)
    requires KeyedById(f) && id in f.entries
    requires forall k :: 0 <= k < |RankResults(Values(f), n)| ==> RankResults(Values(f), n)[k].qaPair.id != id
    ensures forall k :: 0 <= k < |RankResults(Values(f), n)| ==>
      f.entries[id].combinedScore <= RankResults(Values(f), n)[k].combinedScore
  {
    var vs := Values(f);
    var p := TopPositions(vs, n);
    var r := RankResults(vs, n);
    var i :| 0 <= i < |f.order| && f.order[i] == id;
    assert vs[i] == f.entries[id];
    TopPositionsBest(vs, n, i);
  }

  /**
   * The results come best first; equal scores keep the map's insertion order; and
   * no record left out scores higher than one kept.
   */
  lemma FuseAndRankOrder(pairs: seq<QAPair>, sem: seq<VectorStore.SearchResult>, kw: seq<(nat, real)>, ws: real, wk: real, n: nat)
    requires FuseAndRank(pairs, sem, kw, ws, wk, n).Success?
    ensures var f := Fuse(pairs, sem, kw, ws, wk).value;
      var r := FuseAndRank(pairs, sem, kw, ws, wk, n).value;
      && (forall a, b :: 0 <= a < b < |r| ==> r[a].combinedScore >= r[b].combinedScore)
      && (forall a, b :: 0 <= a < b < |r| && r[a].combinedScore == r[b].combinedScore ==>
            exists pa, pb :: 0 <= pa < pb < |f.order| && f.order[pa] == r[a].qaPair.id && f.order[pb] == r[b].qaPair.id)
      && (forall id :: id in f.entries && (forall k :: 0 <= k < |r| ==> r[k].qaPair.id != id) ==>
            forall k :: 0 <= k < |r| ==> f.entries[id].combinedScore <= r[k].combinedScore)
  {
    var f := Fuse(pairs, sem, kw, ws, wk).value;
    FuseKeyed(pairs, sem, kw, ws, wk);
    RankSorted(f, n);
    forall id | id in f.entries && (forall k :: 0 <= k < |RankResults(Values(f), n)| ==> RankResults(Values(f), n)[k].qaPair.id != id)
      ensures forall k :: 0 <= k < |RankResults(Values(f), n)| ==>
        f.entries[id].combinedScore <= RankResults(Values(f), n)[k].combinedScore
    {
      RankBest(f, n, id);
    }
  }

  // ---------------------------------------------------------------- search

  /** What `tfidf_service.search` returns for a similarity vector. */
  function KeywordHits(t: Tfidf.TfidfService, similarities: seq<real>, n: nat): seq<(nat, real)>
    reads t
    requires t.isFitted ==> |similarities| == |t.documents| <= |t.qaPairs|
  {
    if t.isFitted then Tfidf.SelectPositive(similarities, t.qaPairs, Tfidf.TopIndices(similarities, n)) else []
  }

  /**
   * `search` with the indexes' answers given: the embedding of the query, the
   * store's answer for it and the keyword hits, fused and ranked.
   */
  function HybridSearch(pairs: seq<QAPair>, ws: real, wk: real, query: string, n: nat,
                        request: string -> Result<seq<real>, Embeddings.EmbedError>,
                        collection: (seq<real>, nat) -> VectorStore.QueryAnswer,
                        keywordHits: seq<(nat, real)>): Result<seq<HybridResult>, SearchError>
  {
    match Embeddings.CreateEmbedding(query, request)
    case Failure(e) => Failure(EmbeddingFailed(e))
    case Success(embedding) =>
      var answer := collection(embedding, n);
      if !VectorStore.WellFormed(answer) then Failure(StoreFailed(VectorStore.ShortAnswer))
      else
        match FuseAndRank(pairs, VectorStore.Hits(answer), keywordHits, ws, wk, n)
        case Failure(e) => Failure(LookupFailed(e))
        case Success(rs) => Success(rs)
  }

  // ---------------------------------------------------------------- context for the language model

  const NoResults := "No relevant information found in the knowledge base."
  const BlockSeparator := "\n\n---\n\n"

  function Header(query: string): string {
    "Here are the most relevant Q&A pairs for the query '" + query + "':\n\n"
  }

  function QaText(h: HybridResult): string {
    "Q: " + h.qaPair.question + "\nA: " + h.qaPair.answer
  }

  function Blocks(results: seq<HybridResult>): (bs: seq<string>)
    ensures |bs| == |results| && forall k :: 0 <= k < |results| ==> bs[k] == QaText(results[k])
  {
    seq(|results|, k requires 0 <= k < |results| => QaText(results[k]))
  }

  /** The summed lengths of the parts, separators not counted. */
  function TotalLength(parts: seq<string>): nat {
    if |parts| == 0 then 0 else |parts[0]| + TotalLength(parts[1..])
  }

  /** The blocks the loop keeps: each while the running total stays within the budget, up to the first that does not fit. */
  function Fitting(blocks: seq<string>, budget: int): (r: seq<string>)
    ensures |r| <= |blocks|
    decreases |blocks|
  {
    if |blocks| == 0 || |blocks[0]| > budget then []
    else [blocks[0]] + Fitting(blocks[1..], budget - |blocks[0]|)
  }

  /** What `get_context_for_llm` returns for the ranked results. */
  function Context(query: string, results: seq<HybridResult>, maxLength: int): string {
    if |results| == 0 then NoResults
    else Header(query) + Join(Fitting(Blocks(results), maxLength), BlockSeparator)
  }

  /**
   * The kept blocks are a prefix of the blocks whose summed length is within the
   * budget, and the next block, if any, would exceed it.
   */
  lemma {:induction false} FittingSpec(blocks: seq<string>, budget: int)
    ensures var r := Fitting(blocks, budget);
      && r == blocks[..|r|]
      && (r != [] ==> TotalLength(r) <= budget)
      && (|r| < |blocks| ==> TotalLength(r) + |blocks[|r|]| > budget)
    decreases |blocks|
  {
    if |blocks| > 0 && |blocks[0]| <= budget {
      var rest := Fitting(blocks[1..], budget - |blocks[0]|);
      FittingSpec(blocks[1..], budget - |blocks[0]|);
      assert ([blocks[0]] + rest)[1..] == rest;
      if |rest| < |blocks| - 1 {
        assert blocks[1..][|rest|] == blocks[|rest| + 1];
      }
      assert blocks[..|rest| + 1] == [blocks[0]] + blocks[1..][..|rest|];
    }
  }

  /** One step of the loop: block `i` is kept when it fits in what is left of the budget. */
  lemma FittingStep(blocks: seq<string>, i: nat, budget: int)
    requires i < |blocks|
    ensures Fitting(blocks[i..], budget) ==
      if |blocks[i]| > budget then [] else [blocks[i]] + Fitting(blocks[i + 1..], budget - |blocks[i]|)
  {
    assert blocks[i..][0] == blocks[i];
    assert blocks[i..][1..] == blocks[i + 1..];
  }

  /**
   * With no results the context is the sentinel, otherwise it is the header
   * followed by the joined blocks the budget allows; when even the first block
   * does not fit, the header alone.
   */
  lemma ContextShape(query: string, results: seq<HybridResult>, maxLength: int)
    ensures |results| == 0 ==> Context(query, results, maxLength) == NoResults
    ensures |results| > 0 ==> Context(query, results, maxLength) != NoResults
    ensures |results| > 0 ==>
      var parts := Fitting(Blocks(results), maxLength);
      && Context(query, results, maxLength) == Header(query) + Join(parts, BlockSeparator)
      && parts == Blocks(results)[..|parts|]
      && (parts != [] ==> TotalLength(parts) <= maxLength)
    ensures |results| > 0 && |QaText(results[0])| > maxLength ==> Context(query, results, maxLength) == Header(query)
  {
    FittingSpec(Blocks(results), maxLength);
    if |results| > 0 {
      var c := Context(query, results, maxLength);
      assert |c| >= |Header(query)| > |NoResults|;
    }
    if |results| > 0 && |QaText(results[0])| > maxLength {
      assert Header(query) + [] == Header(query);
    }
  }

  /**
   * `get_context_for_llm`'s loop: blocks are added while the running total stays
   * within `maxLength`, the first that would exceed it ends the loop.
   */
  method AssembleContext(query: string, results: seq<HybridResult>, maxLength: int) returns (context: string)
    ensures context == Context(query, results, maxLength)
  {
    if |results| == 0 {
      return NoResults;
    }
    ghost var blocks := Blocks(results);
    var contextParts: seq<string> := [];
    var totalLength := 0;
    var i := 0;
    while i < |results|
      invariant 0 <= i <= |results|
      invariant Fitting(blocks, maxLength) == contextParts + Fitting(blocks[i..], maxLength - totalLength)
    {
      var qaText := QaText(results[i]);
      assert blocks[i] == qaText;
      FittingStep(blocks, i, maxLength - totalLength);
      if totalLength + |qaText| > maxLength {
        break;
      }
      contextParts := contextParts + [qaText];
      totalLength := totalLength + |qaText|;
      i := i + 1;
    }
    assert Fitting(blocks[i..], maxLength - totalLength) == [] by {
      if i == |results| {
        assert blocks[i..] == [];
      }
    }
    assert Fitting(blocks, maxLength) == contextParts + [] == contextParts;
    context := Header(query) + Join(contextParts, BlockSeparator);
  }

  // ---------------------------------------------------------------- explanation

  datatype TopResult = TopResult(question: string, score: real, matchType: MatchType)

  /** The dictionary `explain_results` returns. */
  datatype ResultsExplanation = ResultsExplanation(
    query: string, totalResults: nat, semanticOnly: nat, keywordOnly: nat, bothMatch: nat,
    topResult: Option<TopResult>, importantKeywords: seq<(string, real)>,
    semanticWeight: real, keywordWeight: real)

  /** The comprehension `[r for r in results if r.match_type == t]`. */
  function OfType(results: seq<HybridResult>, t: MatchType): (r: seq<HybridResult>)
    ensures forall k :: 0 <= k < |r| ==> r[k].matchType == t && r[k] in results
    ensures forall k :: 0 <= k < |results| && results[k].matchType == t ==> results[k] in r
    decreases |results|
  {
    if |results| == 0 then []
    else (if results[0].matchType == t then [results[0]] else []) + OfType(results[1..], t)
  }

  /** Every result has exactly one of the three match types. */
  lemma {:induction false} CountsAddUp(results: seq<HybridResult>)
    ensures |OfType(results, Semantic)| + |OfType(results, Keyword)| + |OfType(results, Both)| == |results|
    decreases |results|
  {
    if |results| > 0 {
      CountsAddUp(results[1..]);
    }
  }

  function Explain(query: string, results: seq<HybridResult>, important: seq<(string, real)>, ws: real, wk: real): (e: ResultsExplanation)
    ensures e.semanticOnly + e.keywordOnly + e.bothMatch == e.totalResults == |results|
    ensures e.topResult.None? <==> |results| == 0
    ensures |results| > 0 ==> e.topResult == Some(TopResult(results[0].qaPair.question, results[0].combinedScore, results[0].matchType))
  {
    CountsAddUp(results);
    ResultsExplanation(
      query, |results|, |OfType(results, Semantic)|, |OfType(results, Keyword)|, |OfType(results, Both)|,
      if |results| == 0 then None else Some(TopResult(results[0].qaPair.question, results[0].combinedScore, results[0].matchType)),
      important, ws, wk)
  }

  datatype ConfigError = WeightsDoNotSumToOne

  /** The constructor with its weight assertion; the services are built by the caller. */
  method NewService(parser: KnowledgeBaseParser, tfidf: Tfidf.TfidfService, semanticWeight: real, keywordWeight: real)
    returns (r: Result<HybridRagService, ConfigError>)
    ensures r.Failure? <==> !WeightsAccepted(semanticWeight, keywordWeight)
    ensures r.Success? ==>
      && r.value.parser == parser && r.value.tfidf == tfidf
      && r.value.semanticWeight == semanticWeight && r.value.keywordWeight == keywordWeight
  {
    if !WeightsAccepted(semanticWeight, keywordWeight) {
      return Failure(WeightsDoNotSumToOne);
    }
    var service := new HybridRagService(parser, tfidf, semanticWeight, keywordWeight);
    r := Success(service);
  }

  class HybridRagService {
    const parser: KnowledgeBaseParser
    const tfidf: Tfidf.TfidfService
    const semanticWeight: real
    const keywordWeight: real

    constructor (parser: KnowledgeBaseParser, tfidf: Tfidf.TfidfService, semanticWeight: real, keywordWeight: real)
      requires WeightsAccepted(semanticWeight, keywordWeight)
      ensures this.parser == parser && this.tfidf == tfidf
      ensures this.semanticWeight == semanticWeight && this.keywordWeight == keywordWeight
    {
      this.parser := parser;
      this.tfidf := tfidf;
      this.semanticWeight := semanticWeight;
      this.keywordWeight := keywordWeight;
    }

    /** The loop over the semantic results, upserting into an empty `results_map`. */
    method UpsertSemantic(semanticResults: seq<VectorStore.SearchResult>) returns (r: Result<Fusion, LookupError>)
      ensures r == SemanticFrom(parser.qaPairs, semanticResults, 0, semanticWeight, Fusion([], map[]))
    {
      var order: seq<nat> := [];
      var resultsMap: map<nat, HybridResult> := map[];
      var i := 0;
      while i < |semanticResults|
        invariant 0 <= i <= |semanticResults|
        invariant SemanticFrom(parser.qaPairs, semanticResults, i, semanticWeight, Fusion(order, resultsMap))
          == SemanticFrom(parser.qaPairs, semanticResults, 0, semanticWeight, Fusion([], map[]))
      {
        var result := semanticResults[i];
        var qaPair := parser.GetById(result.qaId);
        if qaPair.Failure? {
          return Failure(qaPair.error);
        }
        var hybrid := SemanticHit(qaPair.value, result.similarity, semanticWeight);
        ghost var next := Upsert(Fusion(order, resultsMap), result.qaId, hybrid);
        SemanticStep(parser.qaPairs, semanticResults, i, semanticWeight, Fusion(order, resultsMap), qaPair.value);
        if result.qaId !in resultsMap {
          order := order + [result.qaId];
        }
        resultsMap := resultsMap[result.qaId := hybrid];
        assert Fusion(order, resultsMap) == next;
        i := i + 1;
      }
      r := Success(Fusion(order, resultsMap));
    }

    /** The loop over the keyword results: update a record found again, add a new one otherwise. */
    method UpsertKeyword(keywordResults: seq<(nat, real)>, f: Fusion) returns (r: Result<Fusion, LookupError>)
      ensures r == KeywordFrom(parser.qaPairs, keywordResults, 0, semanticWeight, keywordWeight, f)
    {
      var order := f.order;
      var resultsMap := f.entries;
      var j := 0;
      while j < |keywordResults|
        invariant 0 <= j <= |keywordResults|
        invariant KeywordFrom(parser.qaPairs, keywordResults, j, semanticWeight, keywordWeight, Fusion(order, resultsMap))
          == KeywordFrom(parser.qaPairs, keywordResults, 0, semanticWeight, keywordWeight, f)
      {
        var (qaId, keywordScore) := keywordResults[j];
        ghost var step := KeywordStep(parser.qaPairs, keywordResults[j], semanticWeight, keywordWeight, Fusion(order, resultsMap));
        KeywordFromStep(parser.qaPairs, keywordResults, j, semanticWeight, keywordWeight, Fusion(order, resultsMap));
        if qaId in resultsMap {
          resultsMap := resultsMap[qaId := BothHit(resultsMap[qaId], keywordScore, semanticWeight, keywordWeight)];
          assert step == Success(Fusion(order, resultsMap));
        } else {
          var qaPair := parser.GetById(qaId);
          if qaPair.Failure? {
            return Failure(qaPair.error);
          }
          order := order + [qaId];
          resultsMap := resultsMap[qaId := KeywordOnly(qaPair.value, keywordScore, keywordWeight)];
          assert step == Success(Fusion(order, resultsMap));
        }
        j := j + 1;
      }
      r := Success(Fusion(order, resultsMap));
    }

    /** Steps 3 and 4 of `search`: both upsert loops, then the sort and the cut. */
    method Combine(semanticResults: seq<VectorStore.SearchResult>, keywordResults: seq<(nat, real)>, nResults: nat)
      returns (r: Result<seq<HybridResult>, LookupError>)
      ensures r == FuseAndRank(parser.qaPairs, semanticResults, keywordResults, semanticWeight, keywordWeight, nResults)
    {
      var semantic := UpsertSemantic(semanticResults);
      if semantic.Failure? {
        return Failure(semantic.error);
      }
      var fused := UpsertKeyword(keywordResults, semantic.value);
      if fused.Failure? {
        return Failure(fused.error);
      }
      FuseConsistent(parser.qaPairs, semanticResults, keywordResults, semanticWeight, keywordWeight);
      var finalResults := Values(fused.value);
      r := Success(RankResults(finalResults, nResults));
    }
  
    /** `search`: embed the query, ask both indexes for `nResults` hits, combine. */
    method Search(query: string, nResults: nat,
                  request: string -> Result<seq<real>, Embeddings.EmbedError>,
                  collection: (seq<real>, nat) -> VectorStore.QueryAnswer,
                  similarities: seq<real>)
      returns (r: Result<seq<HybridResult>, SearchError>)
      requires tfidf.isFitted ==> |similarities| == |tfidf.documents| <= |tfidf.qaPairs|
      ensures r == HybridSearch(parser.qaPairs, semanticWeight, keywordWeight, query, nResults, request, collection,
                                KeywordHits(tfidf, similarities, nResults))
      ensures AllSpace(query) ==> r == Failure(EmbeddingFailed(Embeddings.EmptyText))
      ensures r.Success? ==>
        && |r.value| <= nResults
        && (forall a, b :: 0 <= a < b < |r.value| ==> r.value[a].combinedScore >= r.value[b].combinedScore)
        && (forall a, b :: 0 <= a < b < |r.value| ==> r.value[a].qaPair.id != r.value[b].qaPair.id)
        && (forall k :: 0 <= k < |r.value| ==> FindById(parser.qaPairs, r.value[k].qaPair.id) == Success(r.value[k].qaPair))
    {
      Embeddings.CreateEmbeddingGuard(query, request, request);
      var embedding := Embeddings.CreateEmbedding(query, request);
      if embedding.Failure? {
        return Failure(EmbeddingFailed(embedding.error));
      }
      var semanticResults := VectorStore.Search(collection, embedding.value, nResults);
      if semanticResults.Failure? {
        assert semanticResults.error == VectorStore.ShortAnswer;
        return Failure(StoreFailed(semanticResults.error));
      }
      var keywordResults := tfidf.Search(query, nResults, similarities);
      var combined := Combine(semanticResults.value, keywordResults, nResults);
      if combined.Failure? {
        return Failure(LookupFailed(combined.error));
      }
      FuseAndRankRecords(parser.qaPairs, semanticResults.value, keywordResults, semanticWeight, keywordWeight, nResults);
      FuseAndRankOrder(parser.qaPairs, semanticResults.value, keywordResults, semanticWeight, keywordWeight, nResults);
      r := Success(combined.value);
    }

    /** `get_context_for_llm`: the context built from the six best results. */
    method GetContextForLlm(query: string, maxLength: int,
                            request: string -> Result<seq<real>, Embeddings.EmbedError>,
                            collection: (seq<real>, nat) -> VectorStore.QueryAnswer,
                            similarities: seq<real>)
      returns (r: Result<string, SearchError>)
      requires tfidf.isFitted ==> |similarities| == |tfidf.documents| <= |tfidf.qaPairs|
      ensures r == match HybridSearch(parser.qaPairs, semanticWeight, keywordWeight, query, 6, request, collection,
                                      KeywordHits(tfidf, similarities, 6))
        case Failure(e) => Failure(e)
        case Success(results) => Success(Context(query, results, maxLength))
    {
      var results := Search(query, 6, request, collection, similarities);
      if results.Failure? {
        return Failure(results.error);
      }
      var context := AssembleContext(query, results.value, maxLength);
      r := Success(context);
    }

    /**
     * `explain_results`: the counts by match type of the five best results, the
     * best one, and the query's important terms; `terms` and `queryWeights` are the
     * vocabulary and the query's TF-IDF weights.
     */
    method ExplainResults(query: string,
                          request: string -> Result<seq<real>, Embeddings.EmbedError>,
                          collection: (seq<real>, nat) -> VectorStore.QueryAnswer,
                          similarities: seq<real>, terms: seq<string>, queryWeights: seq<real>)
      returns (r: Result<ResultsExplanation, SearchError>)
      requires tfidf.isFitted ==> |similarities| == |tfidf.documents| <= |tfidf.qaPairs|
      requires |terms| == |queryWeights|
      ensures r == match HybridSearch(parser.qaPairs, semanticWeight, keywordWeight, query, 5, request, collection,
                                      KeywordHits(tfidf, similarities, 5))
        case Failure(e) => Failure(e)
        case Success(results) =>
          Success(Explain(query, results, tfidf.GetImportantTerms(terms, queryWeights, 5), semanticWeight, keywordWeight))
      ensures r.Success? ==> r.value.semanticOnly + r.value.keywordOnly + r.value.bothMatch == r.value.totalResults <= 5
    {
      var results := Search(query, 5, request, collection, similarities);
      if results.Failure? {
        return Failure(results.error);
      }
      var important := tfidf.GetImportantTerms(terms, queryWeights, 5);
      r := Success(Explain(query, results.value, important, semanticWeight, keywordWeight));
    }
  }
}
