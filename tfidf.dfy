/**
 * The lexical (TF-IDF) side of retrieval. The fitted scikit-learn vectorizer is
 * opaque here: what it computes for a query (a cosine similarity per document, or a
 * weight per vocabulary term) and whether fitting succeeds are inputs.
 */
module Tfidf {
  import opened Wrappers
  import opened Text
  import opened Ranking
  import opened KbParser

  // ---------------------------------------------------------------- preprocess_text

  /** The characters `[a-z0-9\s\-]` that the character filter keeps. */
  predicate Kept(c: char) {
    ('a' <= c <= 'z') || ('0' <= c <= '9') || IsSpace(c) || c == '-'
  }

  /** The characters a preprocessed text is made of, besides single spaces. */
  predicate LexChar(c: char) {
    ('a' <= c <= 'z') || ('0' <= c <= '9') || c == '-'
  }

  /** `re.sub(r'[^a-z0-9\s\-]', ' ', s)`. */
  function FilterChars(s: string): (r: string)
    ensures |r| == |s|
    ensures forall i :: 0 <= i < |s| ==> r[i] == if Kept(s[i]) then s[i] else ' '
  {
    seq(|s|, i requires 0 <= i < |s| => if Kept(s[i]) then s[i] else ' ')
  }

  /**
   * The replacement each lambda of the email and URL substitutions makes for one
   * character inside a match: `.replace('.', 'DOT').replace('@', 'AT')` for an
   * email, `.replace('/', 'SLASH').replace('.', 'DOT')` for a URL.
   */
  function RewriteChar(c: char, inMatch: bool, url: bool): string {
    if !inMatch then [c]
    else if c == '.' then "DOT"
    else if url && c == '/' then "SLASH"
    else if !url && c == '@' then "AT"
    else [c]
  }

  /**
   * One of the two `re.sub` rewrites; `inMatch[i]` says whether character `i` lies
   * inside a match of the email (or URL) pattern. Positions past the mask are outside.
   */
  function RewriteMatches(s: string, inMatch: seq<bool>, url: bool): string
    decreases |s|
  {
    if |s| == 0 then []
    else
      RewriteChar(s[0], |inMatch| > 0 && inMatch[0], url)
        + RewriteMatches(s[1..], if |inMatch| > 0 then inMatch[1..] else [], url)
  }

  /**
   * `preprocess_text` step by step as the source writes it: lowercase, rewrite
   * emails, rewrite URLs, filter the characters, collapse whitespace.
   */
  function PreprocessAsWritten(text: string, emailMatch: seq<bool>, urlMatch: seq<bool>): string {
    var lowered := Lower(text);
    var emails := RewriteMatches(lowered, emailMatch, false);
    var urls := RewriteMatches(emails, urlMatch, true);
    JoinWords(FilterChars(urls))
  }

  /** `preprocess_text` without the email and URL rewrites, which have no effect (see PreprocessRewriteErased). */
  function PreprocessText(text: string): string {
    JoinWords(FilterChars(Lower(text)))
  }

  lemma SplitFromCons(c: char, x: string, cur: string)
    ensures SplitFrom([c] + x, cur) ==
      if IsSpace(c) then (if cur == [] then [] else [cur]) + SplitFrom(x, [])
      else SplitFrom(x, cur + [c])
  {
    assert ([c] + x)[1..] == x;
  }

  lemma FilterConcat(a: string, b: string)
    ensures FilterChars(a + b) == FilterChars(a) + FilterChars(b)
  {
  }

  /** Filtering the marker words gives only whitespace: they are upper case. */
  lemma MarkerFiltered(c: char, inMatch: bool, url: bool)
    ensures var w := RewriteChar(c, inMatch, url);
      w == [c] || (|w| > 0 && AllSpace(FilterChars(w)) && !Kept(c))
  {
  }

  /** For `str.split()`, an email or URL rewrite followed by the filter is the same as the filter alone. */
  lemma {:induction false} RewriteErasedFrom(s: string, inMatch: seq<bool>, url: bool, cur: string)
    ensures SplitFrom(FilterChars(RewriteMatches(s, inMatch, url)), cur) == SplitFrom(FilterChars(s), cur)
    decreases |s|
  {
    if |s| > 0 {
      var c := s[0];
      var m := |inMatch| > 0 && inMatch[0];
      var mask' := if |inMatch| > 0 then inMatch[1..] else [];
      var w := RewriteChar(c, m, url);
      var rest := FilterChars(RewriteMatches(s[1..], mask', url));
      var rest0 := FilterChars(s[1..]);
      FilterConcat(w, RewriteMatches(s[1..], mask', url));
      assert s == [c] + s[1..];
      FilterConcat([c], s[1..]);
      var f := if Kept(c) then c else ' ';
      assert FilterChars([c]) == [f];
      SplitFromCons(f, rest0, cur);
      MarkerFiltered(c, m, url);
      if w == [c] {
        SplitFromCons(f, rest, cur);
        var cur' := if IsSpace(f) then [] else cur + [f];
        RewriteErasedFrom(s[1..], mask', url, cur');
      } else {
        SplitSpaceRun(FilterChars(w), rest, cur);
        SplitFromCons(' ', rest, cur);
        RewriteErasedFrom(s[1..], mask', url, []);
      }
    }
  }

  /**
   * The email and URL rewrites are erased by the character filter: whatever the two
   * patterns match, `preprocess_text` equals lowercase, filter, collapse whitespace.
   */
  lemma PreprocessRewriteErased(text: string, emailMatch: seq<bool>, urlMatch: seq<bool>)
    ensures PreprocessAsWritten(text, emailMatch, urlMatch) == PreprocessText(text)
  {
    var lowered := Lower(text);
    var emails := RewriteMatches(lowered, emailMatch, false);
    RewriteErasedFrom(emails, urlMatch, true, []);
    RewriteErasedFrom(lowered, emailMatch, false, []);
  }

  predicate LexWord(w: string) {
    forall i :: 0 <= i < |w| ==> LexChar(w[i])
  }

  lemma {:induction false} SplitFromLex(s: string, cur: string)
    requires forall i :: 0 <= i < |s| ==> LexChar(s[i]) || IsSpace(s[i])
    requires LexWord(cur)
    ensures forall k :: 0 <= k < |SplitFrom(s, cur)| ==> LexWord(SplitFrom(s, cur)[k])
    decreases |s|
  {
    if |s| > 0 {
      if IsSpace(s[0]) {
        SplitFromLex(s[1..], []);
      } else {
        SplitFromLex(s[1..], cur + [s[0]]);
      }
    }
  }

  lemma {:induction false} JoinLex(ws: seq<string>)
    requires forall k :: 0 <= k < |ws| ==> LexWord(ws[k])
    ensures forall i :: 0 <= i < |Join(ws, " ")| ==> LexChar(Join(ws, " ")[i]) || Join(ws, " ")[i] == ' '
    decreases |ws|
  {
    if |ws| >= 2 {
      JoinLex(ws[1..]);
      var t := Join(ws, " ");
      assert t == ws[0] + " " + Join(ws[1..], " ");
      forall i | 0 <= i < |t| ensures LexChar(t[i]) || t[i] == ' ' {
        if i > |ws[0]| { assert t[i] == Join(ws[1..], " ")[i - |ws[0]| - 1]; }
      }
    }
  }

  /**
   * A preprocessed text uses only `a-z`, `0-9`, `-` and single spaces, with no space
   * at either end.
   */
  lemma PreprocessShape(text: string)
    ensures var p := PreprocessText(text);
      && Tidy(p)
      && forall i :: 0 <= i < |p| ==> LexChar(p[i]) || p[i] == ' '
  {
    var f := FilterChars(Lower(text));
    SplitFromLex(f, []);
    JoinLex(Split(f));
    JoinWordsNormal(f);
  }

  /** `preprocess_text` is idempotent. */
  lemma PreprocessIdempotent(text: string)
    ensures PreprocessText(PreprocessText(text)) == PreprocessText(text)
  {
    var p := PreprocessText(text);
    PreprocessShape(text);
    assert Lower(p) == p;
    assert FilterChars(p) == p;
    JoinWordsNormal(FilterChars(Lower(text)));
  }

  // ---------------------------------------------------------------- top-n selection

  predicate IndicesIn(top: seq<nat>, n: nat) {
    forall k :: 0 <= k < |top| ==> top[k] < n
  }

  /** The candidate positions whose similarity is positive, in candidate order. */
  function KeepPositive(sims: seq<real>, top: seq<nat>): (r: seq<nat>)
    requires IndicesIn(top, |sims|)
    ensures |r| <= |top| && IndicesIn(r, |sims|)
    ensures forall k :: 0 <= k < |r| ==> sims[r[k]] > 0.0
    decreases |top|
  {
    if |top| == 0 then []
    else
      var n := |top| - 1;
      var i := top[n];
      KeepPositive(sims, top[..n]) + (if sims[i] > 0.0 then [i] else [])
  }

  /** Every kept position is a candidate. */
  lemma {:induction false} KeepPositiveSound(sims: seq<real>, top: seq<nat>)
    requires IndicesIn(top, |sims|)
    ensures forall k :: 0 <= k < |KeepPositive(sims, top)| ==> KeepPositive(sims, top)[k] in top
    decreases |top|
  {
    if |top| > 0 {
      var n := |top| - 1;
      var pre := top[..n];
      KeepPositiveSound(sims, pre);
      var r0 := KeepPositive(sims, pre);
      var r := KeepPositive(sims, top);
      assert r == r0 + (if sims[top[n]] > 0.0 then [top[n]] else []);
      forall k | 0 <= k < |r| ensures r[k] in top {
        if k < |r0| {
          var j :| 0 <= j < n && pre[j] == r0[k];
          assert top[j] == r[k];
        } else {
          assert r[k] == top[n];
        }
      }
    }
  }

  /** Every positive candidate is kept. */
  lemma {:induction false} KeepPositiveComplete(sims: seq<real>, top: seq<nat>)
    requires IndicesIn(top, |sims|)
    ensures forall j :: 0 <= j < |top| && sims[top[j]] > 0.0 ==> top[j] in KeepPositive(sims, top)
    decreases |top|
  {
    if |top| > 0 {
      var n := |top| - 1;
      var pre := top[..n];
      KeepPositiveComplete(sims, pre);
      var r0 := KeepPositive(sims, pre);
      var r := KeepPositive(sims, top);
      assert r == r0 + (if sims[top[n]] > 0.0 then [top[n]] else []);
      forall j | 0 <= j < |top| && sims[top[j]] > 0.0 ensures top[j] in r {
        if j < n {
          assert pre[j] == top[j];
          assert top[j] in r0;
        }
      }
    }
  }

  /** When every candidate is positive, all are kept. */
  lemma {:induction false} KeepPositiveAll(sims: seq<real>, top: seq<nat>)
    requires IndicesIn(top, |sims|)
    requires forall j :: 0 <= j < |top| ==> sims[top[j]] > 0.0
    ensures KeepPositive(sims, top) == top
    decreases |top|
  {
    if |top| > 0 {
      var n := |top| - 1;
      var pre := top[..n];
      assert forall j :: 0 <= j < n ==> pre[j] == top[j];
      KeepPositiveAll(sims, pre);
      assert top == pre + [top[n]];
    }
  }

  /** `x` is listed before `y` in `top`. */
  predicate Before(top: seq<nat>, x: nat, y: nat) {
    exists i, j :: 0 <= i < j < |top| && top[i] == x && top[j] == y
  }

  /** The kept positions come in the order the candidates list them. */
  lemma {:induction false} KeepPositiveOrder(sims: seq<real>, top: seq<nat>)
    requires IndicesIn(top, |sims|)
    ensures forall a, b {:trigger KeepPositive(sims, top)[a], KeepPositive(sims, top)[b]} ::
      0 <= a < b < |KeepPositive(sims, top)| ==> Before(top, KeepPositive(sims, top)[a], KeepPositive(sims, top)[b])
    decreases |top|
  {
    if |top| > 0 {
      var n := |top| - 1;
      var pre := top[..n];
      KeepPositiveOrder(sims, pre);
      KeepPositiveSound(sims, pre);
      var r0 := KeepPositive(sims, pre);
      var r := KeepPositive(sims, top);
      assert r == r0 + (if sims[top[n]] > 0.0 then [top[n]] else []);
      forall a, b | 0 <= a < b < |r| ensures Before(top, r[a], r[b]) {
        if b < |r0| {
          assert Before(pre, r0[a], r0[b]);
          var i, j :| 0 <= i < j < |pre| && pre[i] == r0[a] && pre[j] == r0[b];
          assert top[i] == r[a] && top[j] == r[b];
        } else {
          assert r0[a] in pre;
          var i :| 0 <= i < n && pre[i] == r0[a];
          assert top[i] == r[a] && top[n] == r[b];
        }
      }
    }
  }

  /** The loop of `search`: (qa_id, score) for each candidate position whose similarity is positive. */
  function SelectPositive(sims: seq<real>, pairs: seq<QADict>, top: seq<nat>): (r: seq<(nat, real)>)
    requires IndicesIn(top, |sims|) && IndicesIn(top, |pairs|)
  {
    var kept := KeepPositive(sims, top);
    KeepPositiveSound(sims, top);
    seq(|kept|, k requires 0 <= k < |kept| => (pairs[kept[k]].id, sims[kept[k]]))
  }

  /** One more candidate adds its pair exactly when its similarity is positive. */
  lemma SelectPositiveStep(sims: seq<real>, pairs: seq<QADict>, top: seq<nat>, k: nat)
    requires IndicesIn(top, |sims|) && IndicesIn(top, |pairs|) && k < |top|
    ensures SelectPositive(sims, pairs, top[..k + 1]) ==
      SelectPositive(sims, pairs, top[..k]) + (if sims[top[k]] > 0.0 then [(pairs[top[k]].id, sims[top[k]])] else [])
  {
    var pre := top[..k + 1];
    assert pre[..k] == top[..k];
    assert KeepPositive(sims, pre) == KeepPositive(sims, top[..k]) + (if sims[top[k]] > 0.0 then [top[k]] else []);
  }

  /** Keeping the positive candidates of a ranked list gives a ranked list. */
  lemma {:induction false} KeepPositiveRanked(sims: seq<real>, top: seq<nat>)
    requires IndicesIn(top, |sims|) && InRange(sims, top) && Ranked(sims, top, false)
    ensures InRange(sims, KeepPositive(sims, top)) && Ranked(sims, KeepPositive(sims, top), false)
    decreases |top|
  {
    if |top| > 0 {
      var n := |top| - 1;
      var pre := top[..n];
      assert forall k :: 0 <= k < n ==> pre[k] == top[k];
      KeepPositiveRanked(sims, pre);
      KeepPositiveSound(sims, pre);
      var r0 := KeepPositive(sims, pre);
      forall a | 0 <= a < |r0| ensures Precedes(sims, r0[a], top[n], false) {
        var j :| 0 <= j < n && pre[j] == r0[a];
      }
    }
  }

  /** `np.argsort(similarities)[::-1][:n_results]`. */
  function TopIndices(sims: seq<real>, n: nat): (r: seq<nat>)
    ensures |r| == if n < |sims| then n else |sims|
    ensures IndicesIn(r, |sims|) && InRange(sims, r) && Ranked(sims, r, false)
    ensures n >= |sims| ==> forall i :: 0 <= i < |sims| ==> i in r
    ensures forall i :: 0 <= i < |sims| && i !in r ==> forall k :: 0 <= k < |r| ==> sims[i] <= sims[r[k]]
  {
    RankOrderSpec(sims, false);
    var order := RankOrder(sims, false);
    var r := order[..if n < |sims| then n else |sims|];
    assert forall l :: 0 <= l < |r| ==> r[l] == order[l];
    assert n >= |sims| ==> r == order;
    forall i, k | 0 <= i < |sims| && i !in r && 0 <= k < |r| ensures sims[i] <= sims[r[k]] {
      assert i in order;
      var q :| 0 <= q < |order| && order[q] == i;
      assert q >= |r|;
      assert Precedes(sims, order[k], order[q], false);
    }
    r
  }

  predicate IdsDistinct(pairs: seq<QADict>) {
    forall a, b :: 0 <= a < b < |pairs| ==> pairs[a].id != pairs[b].id
  }

  /**
   * The selection keeps at most one pair per candidate, only positive scores, in
   * non-increasing score order; each pair is (qa_pairs[idx]['id'], similarity[idx])
   * of a candidate idx; and with distinct entry ids the qa_ids are distinct.
   */
  lemma SelectPositiveSpec(sims: seq<real>, pairs: seq<QADict>, top: seq<nat>)
    requires IndicesIn(top, |sims|) && IndicesIn(top, |pairs|)
    requires InRange(sims, top) && Ranked(sims, top, false)
    ensures var r := SelectPositive(sims, pairs, top);
      && |r| <= |top|
      && (forall k :: 0 <= k < |r| ==> r[k].1 > 0.0)
      && (forall k :: 0 <= k < |r| ==>
            exists i :: i in top && r[k] == (pairs[i].id, sims[i]))
      && (forall a, b :: 0 <= a < b < |r| ==> r[a].1 >= r[b].1)
      && (IdsDistinct(pairs) ==> forall a, b :: 0 <= a < b < |r| ==> r[a].0 != r[b].0)
  {
    var kept := KeepPositive(sims, top);
    var r := SelectPositive(sims, pairs, top);
    KeepPositiveRanked(sims, top);
    KeepPositiveSound(sims, top);
    forall k | 0 <= k < |r| ensures exists i :: i in top && r[k] == (pairs[i].id, sims[i]) {
      assert kept[k] in top;
    }
    forall a, b | 0 <= a < b < |r| ensures r[a].1 >= r[b].1 && kept[a] != kept[b] {
      assert Precedes(sims, kept[a], kept[b], false);
    }
    if IdsDistinct(pairs) {
      forall a, b | 0 <= a < b < |r| ensures r[a].0 != r[b].0 {
        assert kept[a] != kept[b];
        if kept[a] < kept[b] {
          assert pairs[kept[a]].id != pairs[kept[b]].id;
        } else {
          assert pairs[kept[b]].id != pairs[kept[a]].id;
        }
      }
    }
  }

  /** Every candidate with a positive similarity gives a result. */
  lemma SelectPositiveComplete(sims: seq<real>, pairs: seq<QADict>, top: seq<nat>)
    requires IndicesIn(top, |sims|) && IndicesIn(top, |pairs|)
    ensures forall j :: 0 <= j < |top| && sims[top[j]] > 0.0 ==>
      (pairs[top[j]].id, sims[top[j]]) in SelectPositive(sims, pairs, top)
  {
    var kept := KeepPositive(sims, top);
    var r := SelectPositive(sims, pairs, top);
    KeepPositiveComplete(sims, top);
    forall j | 0 <= j < |top| && sims[top[j]] > 0.0 ensures (pairs[top[j]].id, sims[top[j]]) in r {
      assert top[j] in kept;
      var k :| 0 <= k < |kept| && kept[k] == top[j];
      assert r[k] == (pairs[top[j]].id, sims[top[j]]);
    }
  }

  /**
   * Over the top `n` positions, a positive position missing from the results
   * scores no more than any result.
   */
  lemma SelectTopBest(sims: seq<real>, pairs: seq<QADict>, n: nat)
    requires |sims| <= |pairs|
    ensures var r := SelectPositive(sims, pairs, TopIndices(sims, n));
      forall i :: 0 <= i < |sims| && sims[i] > 0.0 ==>
        (pairs[i].id, sims[i]) in r || forall k :: 0 <= k < |r| ==> sims[i] <= r[k].1
  {
    var top := TopIndices(sims, n);
    var kept := KeepPositive(sims, top);
    var r := SelectPositive(sims, pairs, top);
    forall i | 0 <= i < |sims| && sims[i] > 0.0
      ensures (pairs[i].id, sims[i]) in r || forall k :: 0 <= k < |r| ==> sims[i] <= r[k].1
    {
      if i in top {
        var j :| 0 <= j < |top| && top[j] == i;
        SelectPositiveComplete(sims, pairs, top);
      } else {
        KeepPositiveSound(sims, top);
        forall k | 0 <= k < |r| ensures sims[i] <= r[k].1 {
          var j :| 0 <= j < |top| && top[j] == kept[k];
        }
      }
    }
  }

  /** When fewer than `n` results come back, every positive position is among them. */
  lemma SelectTopShort(sims: seq<real>, pairs: seq<QADict>, n: nat)
    requires |sims| <= |pairs|
    ensures var r := SelectPositive(sims, pairs, TopIndices(sims, n));
      |r| < n ==> forall i :: 0 <= i < |sims| && sims[i] > 0.0 ==> (pairs[i].id, sims[i]) in r
  {
    var top := TopIndices(sims, n);
    var kept := KeepPositive(sims, top);
    var r := SelectPositive(sims, pairs, top);
    if |r| < n {
      forall i | 0 <= i < |sims| && sims[i] > 0.0 ensures (pairs[i].id, sims[i]) in r {
        if i in top {
          var j :| 0 <= j < |top| && top[j] == i;
          SelectPositiveComplete(sims, pairs, top);
        } else {
          assert |top| == n;
          assert forall j :: 0 <= j < |top| ==> sims[i] <= sims[top[j]];
          KeepPositiveAll(sims, top);
          assert false;
        }
      }
    }
  }

  /**
   * What `search` returns over the top `n_results` positions: at most that many
   * pairs, all positive, best first, each (qa_id, similarity) of some position;
   * a positive position left out scores no more than any result; and a short
   * answer holds every positive position.
   */
  lemma SearchSelection(sims: seq<real>, pairs: seq<QADict>, n: nat, r: seq<(nat, real)>)
    requires |sims| <= |pairs| && r == SelectPositive(sims, pairs, TopIndices(sims, n))
    ensures |r| <= n
    ensures forall k :: 0 <= k < |r| ==> r[k].1 > 0.0
    ensures forall a, b :: 0 <= a < b < |r| ==> r[a].1 >= r[b].1
    ensures forall k :: 0 <= k < |r| ==>
      exists i :: 0 <= i < |sims| && i < |pairs| && r[k] == (pairs[i].id, sims[i])
    ensures forall i :: 0 <= i < |sims| && sims[i] > 0.0 ==>
      (pairs[i].id, sims[i]) in r || forall k :: 0 <= k < |r| ==> sims[i] <= r[k].1
    ensures |r| < n ==> forall i :: 0 <= i < |sims| && sims[i] > 0.0 ==> (pairs[i].id, sims[i]) in r
  {
    var top := TopIndices(sims, n);
    SelectPositiveSpec(sims, pairs, top);
    forall k | 0 <= k < |r| ensures exists i :: 0 <= i < |sims| && i < |pairs| && r[k] == (pairs[i].id, sims[i]) {
      var i :| i in top && r[k] == (pairs[i].id, sims[i]);
    }
    SelectTopBest(sims, pairs, n);
    SelectTopShort(sims, pairs, n);
  }

  // ---------------------------------------------------------------- important terms

  /** The positions of the positive weights, in vocabulary order (`np.where(scores > 0)`). */
  function PositiveIndices(weights: seq<real>, from: nat): (r: seq<nat>)
    requires from <= |weights|
    ensures forall k :: 0 <= k < |r| ==> from <= r[k] < |weights| && weights[r[k]] > 0.0
    ensures forall a, b :: 0 <= a < b < |r| ==> r[a] < r[b]
    ensures forall i :: from <= i < |weights| && weights[i] > 0.0 ==> i in r
    decreases |weights| - from
  {
    if from == |weights| then []
    else (if weights[from] > 0.0 then [from] else []) + PositiveIndices(weights, from + 1)
  }

  /** The weights of the positive positions, in vocabulary order. */
  function PositiveWeights(weights: seq<real>): (keys: seq<real>)
    ensures |keys| == |PositiveIndices(weights, 0)|
  {
    var pos := PositiveIndices(weights, 0);
    seq(|pos|, k requires 0 <= k < |pos| => weights[pos[k]])
  }

  /**
   * The vocabulary positions of the positive weights after
   * `term_scores.sort(key=score, reverse=True)`.
   */
  function TermOrder(weights: seq<real>): (r: seq<nat>)
    ensures InRange(weights, r)
  {
    var pos := PositiveIndices(weights, 0);
    var keys := PositiveWeights(weights);
    RankOrderSpec(keys, true);
    var order := RankOrder(keys, true);
    seq(|order|, k requires 0 <= k < |order| => pos[order[k]])
  }

  /** Every positive-weight position is sorted, and only those are. */
  lemma TermOrderComplete(weights: seq<real>)
    ensures var r := TermOrder(weights);
      && (forall k :: 0 <= k < |r| ==> weights[r[k]] > 0.0)
      && (forall i :: 0 <= i < |weights| && weights[i] > 0.0 ==> i in r)
  {
    var pos := PositiveIndices(weights, 0);
    var keys := PositiveWeights(weights);
    RankOrderSpec(keys, true);
    var order := RankOrder(keys, true);
    var r := TermOrder(weights);
    assert forall k :: 0 <= k < |r| ==> r[k] == pos[order[k]];
    forall i | 0 <= i < |weights| && weights[i] > 0.0 ensures i in r {
      TermOrderHas(weights, i);
    }
  }

  lemma TermOrderHas(weights: seq<real>, i: nat)
    requires i < |weights| && weights[i] > 0.0
    ensures i in TermOrder(weights)
  {
    var pos := PositiveIndices(weights, 0);
    var keys := PositiveWeights(weights);
    RankOrderSpec(keys, true);
    var order := RankOrder(keys, true);
    var r := TermOrder(weights);
    var p :| 0 <= p < |pos| && pos[p] == i;
    assert p < |keys| && p in order;
    var q :| 0 <= q < |order| && order[q] == p;
    assert r[q] == i;
  }

  /** The sort is by decreasing weight, equal weights in vocabulary order (it is stable). */
  lemma TermOrderRanked(weights: seq<real>)
    ensures Ranked(weights, TermOrder(weights), true)
  {
    var pos := PositiveIndices(weights, 0);
    var keys := PositiveWeights(weights);
    RankOrderSpec(keys, true);
    var order := RankOrder(keys, true);
    var r := TermOrder(weights);
    forall a, b | 0 <= a < b < |r| ensures Precedes(weights, r[a], r[b], true) {
      assert Precedes(keys, order[a], order[b], true);
      assert r[a] == pos[order[a]] && r[b] == pos[order[b]];
    }
  }

  /** `get_important_terms` once fitted: the first `topN` (term, weight) pairs of the sorted list. */
  function ImportantTerms(terms: seq<string>, weights: seq<real>, topN: nat): seq<(string, real)>
    requires |terms| == |weights|
  {
    var order := Take(TermOrder(weights), topN);
    seq(|order|, k requires 0 <= k < |order| => (terms[order[k]], weights[order[k]]))
  }

  /**
   * At most `topN` pairs, each a vocabulary term with its positive weight, sorted
   * non-increasing; with fewer than `topN` results, every positive-weight term is
   * among them.
   */
  lemma ImportantTermsSpec(terms: seq<string>, weights: seq<real>, topN: nat)
    requires |terms| == |weights|
    ensures var r := ImportantTerms(terms, weights, topN);
      var kept := Take(TermOrder(weights), topN);
      && |r| <= topN
      && (forall k :: 0 <= k < |r| ==> r[k] == (terms[kept[k]], weights[kept[k]]) && weights[kept[k]] > 0.0)
      && (forall a, b :: 0 <= a < b < |r| ==> r[a].1 >= r[b].1)
      && (|r| < topN ==> forall i :: 0 <= i < |weights| && weights[i] > 0.0 ==> i in kept)
  {
    var order := TermOrder(weights);
    var kept := Take(order, topN);
    var r := ImportantTerms(terms, weights, topN);
    TermOrderComplete(weights);
    TermOrderRanked(weights);
    assert forall t :: 0 <= t < |kept| ==> kept[t] == order[t];
    forall a, b | 0 <= a < b < |r| ensures r[a].1 >= r[b].1 {
      assert Precedes(weights, order[a], order[b], true);
    }
  }

  /** A positive-weight term that `[:top_n]` cuts off weighs no more than any kept one. */
  lemma ImportantTermsTop(terms: seq<string>, weights: seq<real>, topN: nat, i: nat)
    requires |terms| == |weights|
    requires i < |weights| && weights[i] > 0.0 && i !in Take(TermOrder(weights), topN)
    ensures forall k :: 0 <= k < |ImportantTerms(terms, weights, topN)| ==>
      weights[i] <= ImportantTerms(terms, weights, topN)[k].1
  {
    var order := TermOrder(weights);
    var kept := Take(order, topN);
    var r := ImportantTerms(terms, weights, topN);
    TermOrderHas(weights, i);
    TermOrderRanked(weights);
    var q :| 0 <= q < |order| && order[q] == i;
    assert forall t :: 0 <= t < |kept| ==> kept[t] == order[t];
    forall k | 0 <= k < |r| ensures weights[i] <= r[k].1 {
      assert Precedes(weights, order[k], order[q], true);
    }
  }

  // ---------------------------------------------------------------- the service

  /** The vectorizer settings; the fallback is used when the primary fit fails. */
  datatype VectorizerConfig = VectorizerConfig(
    ngramMin: nat, ngramMax: nat, englishStopWords: bool, maxFeatures: Option<nat>,
    maxDf: real, minDf: nat, sublinearTf: bool)

  const Primary := VectorizerConfig(1, 3, true, Some(1000), 0.8, 2, true)
  const Fallback := VectorizerConfig(1, 2, false, None, 1.0, 1, false)

  datatype FitError = EmptyVocabulary
  datatype ExplainError = InvalidResultIndex | IndexOutOfRange

  datatype SearchExplanation = SearchExplanation(
    matchingKeywords: set<string>,
    queryImportantTerms: seq<(string, real)>,
    resultImportantTerms: seq<(string, real)>,
    explanation: string)

  function Take<T>(s: seq<T>, n: nat): (r: seq<T>)
    ensures |r| == if n < |s| then n else |s|
    ensures r == s[..|r|]
  {
    if n < |s| then s[..n] else s
  }

  class TfidfService {
    var vectorizer: VectorizerConfig
    var documents: seq<string>
    var qaPairs: seq<QADict>
    var isFitted: bool

    constructor ()
      ensures vectorizer == Primary && documents == [] && qaPairs == [] && !isFitted
    {
      vectorizer := Primary;
      documents := [];
      qaPairs := [];
      isFitted := false;
    }

    /**
     * `fit`. `currentFits` and `fallbackFits` say whether the library's
     * `fit_transform` succeeds with the current settings and with the fallback ones;
     * when the fallback fails too, the error propagates and the service stays unfitted
     * (or keeps an earlier fit).
     */
    method Fit(docs: seq<string>, pairs: seq<QADict>, currentFits: bool, fallbackFits: bool)
      returns (r: Result<(), FitError>)
      modifies this
      ensures |documents| == |docs| && forall i :: 0 <= i < |docs| ==> documents[i] == PreprocessText(docs[i])
      ensures qaPairs == pairs
      ensures vectorizer == if currentFits then old(vectorizer) else Fallback
      ensures isFitted == (currentFits || fallbackFits || old(isFitted))
      ensures r.Success? <==> currentFits || fallbackFits
    {
      documents := seq(|docs|, i requires 0 <= i < |docs| => PreprocessText(docs[i]));
      qaPairs := pairs;
      if currentFits {
        isFitted := true;
        r := Success(());
      } else {
        vectorizer := Fallback;
        if fallbackFits {
          isFitted := true;
          r := Success(());
        } else {
          r := Failure(EmptyVocabulary);
        }
      }
    }

    /**
     * `search`: `similarities` is the cosine similarity the fitted vectorizer gives
     * the preprocessed query against each document.
     */
    method Search(query: string, nResults: nat, similarities: seq<real>) returns (results: seq<(nat, real)>)
      requires isFitted ==> |similarities| == |documents| <= |qaPairs|
      ensures !isFitted ==> results == []
      ensures isFitted ==> results == SelectPositive(similarities, qaPairs, TopIndices(similarities, nResults))
      ensures |results| <= nResults
      ensures forall k :: 0 <= k < |results| ==> results[k].1 > 0.0
      ensures forall a, b :: 0 <= a < b < |results| ==> results[a].1 >= results[b].1
      ensures forall k :: 0 <= k < |results| ==>
        exists i :: 0 <= i < |similarities| && i < |qaPairs| && results[k] == (qaPairs[i].id, similarities[i])
      ensures isFitted ==> forall i :: 0 <= i < |similarities| && similarities[i] > 0.0 ==>
        (qaPairs[i].id, similarities[i]) in results || forall k :: 0 <= k < |results| ==> similarities[i] <= results[k].1
      ensures isFitted && |results| < nResults ==>
        forall i :: 0 <= i < |similarities| && similarities[i] > 0.0 ==> (qaPairs[i].id, similarities[i]) in results
    {
      if !isFitted {
        return [];
      }
      var topIndices := TopIndices(similarities, nResults);
      results := [];
      var k := 0;
      while k < |topIndices|
        invariant 0 <= k <= |topIndices|
        invariant results == SelectPositive(similarities, qaPairs, topIndices[..k])
      {
        SelectPositiveStep(similarities, qaPairs, topIndices, k);
        var idx := topIndices[k];
        if similarities[idx] > 0.0 {
          results := results + [(qaPairs[idx].id, similarities[idx])];
        }
        k := k + 1;
      }
      assert topIndices[..|topIndices|] == topIndices;
      SearchSelection(similarities, qaPairs, nResults, results);
    }

    /** `get_important_terms`; `terms` and `weights` are the vocabulary and the text's TF-IDF weights. */
    function GetImportantTerms(terms: seq<string>, weights: seq<real>, topN: nat): seq<(string, real)>
      reads this
      requires |terms| == |weights|
    {
      if !isFitted then [] else ImportantTerms(terms, weights, topN)
    }

    /**
     * `explain_search`. A negative `resultIdx` counts from the end as in Python; one
     * below `-len(documents)` is the IndexError Python would raise.
     */
    method ExplainSearch(query: string, resultIdx: int, terms: seq<string>,
                         queryWeights: seq<real>, resultWeights: seq<real>)
      returns (r: Result<SearchExplanation, ExplainError>)
      requires |terms| == |queryWeights| == |resultWeights|
      ensures (!isFitted || resultIdx >= |documents|) ==> r == Failure(InvalidResultIndex)
      ensures isFitted && resultIdx < -|documents| ==> r == Failure(IndexOutOfRange)
      ensures isFitted && -|documents| <= resultIdx < |documents| ==> r.Success?
      ensures r.Success? ==>
        var doc := documents[if resultIdx < 0 then resultIdx + |documents| else resultIdx];
        && (forall w :: w in r.value.matchingKeywords <==> w in Split(PreprocessText(query)) && w in Split(doc))
        && r.value.queryImportantTerms == Take(ImportantTerms(terms, queryWeights, 10), 5)
        && r.value.resultImportantTerms == Take(ImportantTerms(terms, resultWeights, 10), 5)
        && r.value.explanation == "Matched " + NatToString(|r.value.matchingKeywords|) + " keywords"
    {
      if !isFitted || resultIdx >= |documents| {
        return Failure(InvalidResultIndex);
      }
      if resultIdx < -|documents| {
        return Failure(IndexOutOfRange);
      }
      var doc := documents[if resultIdx < 0 then resultIdx + |documents| else resultIdx];
      var queryTerms := set w | w in Split(PreprocessText(query));
      var resultTerms := set w | w in Split(doc);
      var matching := queryTerms * resultTerms;
      var importantQuery := GetImportantTerms(terms, queryWeights, 10);
      var importantResult := GetImportantTerms(terms, resultWeights, 10);
      r := Success(SearchExplanation(
        matching, Take(importantQuery, 5), Take(importantResult, 5),
        "Matched " + NatToString(|matching|) + " keywords"));
    }
  }

  /**
   * The matching keywords of an explanation for a fitted document are tokens of
   * the preprocessed form: non-empty words over `a-z`, `0-9` and `-`.
   */
  lemma MatchingKeywordsAreTokens(query: string, doc: string, w: string)
    requires w in Split(PreprocessText(query)) && w in Split(PreprocessText(doc))
    ensures |w| > 0 && LexWord(w)
  {
    var f := FilterChars(Lower(query));
    SplitFromLex(f, []);
    JoinLex(Split(f));
    PreprocessShape(query);
    var p := PreprocessText(query);
    SplitFromLex(p, []);
    SplitWords(p);
  }
}
