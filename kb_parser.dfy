/**
 * The knowledge-base parser: turns the raw text of the knowledge-base file into
 * question/answer entries. The file's contents are passed in as a string.
 */
module KbParser {
  import opened Wrappers
  import opened Text

  /** One question/answer entry; `id` is its position among all regex matches. */
  datatype QAPair = QAPair(question: string, answer: string, id: nat)

  /** The dictionary form of an entry that the indices are built from. */
  datatype QADict = QADict(id: nat, question: string, answer: string, fullText: string)

  datatype ParseError = NoPairsFound
  datatype LookupError = PairNotFound(id: int)

  // ---------------------------------------------------------------- entry rendering

  /** The composite text indexed by both searches. */
  function ToText(p: QAPair): string {
    "Question: " + p.question + "\nAnswer: " + p.answer
  }

  function ToDict(p: QAPair): (d: QADict)
    ensures d.id == p.id && d.question == p.question && d.answer == p.answer
    ensures d.fullText == ToText(QAPair(d.question, d.answer, d.id))
  {
    QADict(p.id, p.question, p.answer, ToText(p))
  }

  predicate NoNewline(t: string) {
    forall i :: 0 <= i < |t| ==> t[i] != '\n'
  }

  /**
   * For questions without a line break (every parsed question), the composite text
   * determines question and answer: the first line break ends the question.
   */
  lemma ToTextInjective(p: QAPair, p': QAPair)
    requires NoNewline(p.question) && NoNewline(p'.question)
    requires ToText(p) == ToText(p')
    ensures p.question == p'.question && p.answer == p'.answer
  {
    var t := ToText(p);
    var n, n' := |p.question|, |p'.question|;
    assert t[10 + n] == '\n' && t[10 + n'] == '\n';
    assert p.question == t[10..10 + n];
    assert p'.question == t[10..10 + n'];
    assert p.answer == t[10 + n + 9..];
    assert p'.answer == t[10 + n' + 9..];
  }

  // ---------------------------------------------------------------- _clean_text

  /** `_clean_text`: `' '.join(t.split())`, then `strip()`, then `re.sub(r'\s+', ' ', ...)`. */
  function CleanText(t: string): string {
    CollapseSpaces(Strip(JoinWords(t)))
  }

  /**
   * The cleaned text has no whitespace at either end, only single plain spaces
   * inside, keeps the words of the input in order, and cleaning twice changes nothing.
   */
  lemma CleanTextSpec(t: string)
    ensures CleanText(t) == JoinWords(t)
    ensures Tidy(CleanText(t))
    ensures Split(CleanText(t)) == Split(t)
    ensures CleanText(CleanText(t)) == CleanText(t)
  {
    JoinWordsNormal(t);
    var j := JoinWords(t);
    TrimTidy(j);
    CollapseSingleSpaced(j);
    JoinWordsNormal(j);
    TrimTidy(JoinWords(j));
    CollapseSingleSpaced(JoinWords(j));
  }

  lemma TidyNoNewline(t: string)
    requires Tidy(t)
    ensures NoNewline(t)
  {
    forall i | 0 <= i < |t| ensures t[i] != '\n' {
      if t[i] == '\n' { assert IsSpace(t[i]); }
    }
  }

  // ---------------------------------------------------------------- the regex scan
  //
  // re.findall(r'Q:\s*(.*?)\s*A:\s*(.*?)(?=Q:|$)', content, re.DOTALL). A match starts
  // at the leftmost "Q:" that has some "A:" at or after the whitespace that follows it.
  // The question group runs from there to the whitespace run before the first such
  // "A:"; the answer group starts after the whitespace that follows "A:" and runs to
  // the first "Q:" or end of input. `$` also matches just before a final line break.

  predicate QAt(s: string, i: nat) {
    i + 2 <= |s| && s[i] == 'Q' && s[i + 1] == ':'
  }

  predicate AAt(s: string, i: nat) {
    i + 2 <= |s| && s[i] == 'A' && s[i + 1] == ':'
  }

  /** Where `$` matches (no MULTILINE flag). */
  predicate AtEnd(s: string, p: nat) {
    p == |s| || (p + 1 == |s| && s[p] == '\n')
  }

  predicate SpacesBetween(s: string, lo: nat, hi: nat)
    requires lo <= hi <= |s|
  {
    forall j :: lo <= j < hi ==> IsSpace(s[j])
  }

  /** Greedy `\s*` from `p`. */
  function SkipSpaces(s: string, p: nat): (r: nat)
    requires p <= |s|
    ensures p <= r <= |s| && SpacesBetween(s, p, r)
    ensures r == |s| || !IsSpace(s[r])
    decreases |s| - p
  {
    if p < |s| && IsSpace(s[p]) then SkipSpaces(s, p + 1) else p
  }

  /** The first "A:" at or after `p`. */
  function FindA(s: string, p: nat): (r: Option<nat>)
    requires p <= |s|
    ensures r.Some? ==> p <= r.value && AAt(s, r.value)
    ensures r.Some? ==> forall j :: p <= j < r.value ==> !AAt(s, j)
    ensures r.None? ==> forall j :: p <= j ==> !AAt(s, j)
    decreases |s| - p
  {
    if p + 2 > |s| then None
    else if AAt(s, p) then Some(p)
    else FindA(s, p + 1)
  }

  /** Start of the whitespace run that ends at `a`, but not before `lo`: end of the lazy question group. */
  function RunStart(s: string, lo: nat, a: nat): (r: nat)
    requires lo <= a <= |s|
    ensures lo <= r <= a && SpacesBetween(s, r, a)
    ensures r == lo || !IsSpace(s[r - 1])
    decreases a
  {
    if a > lo && IsSpace(s[a - 1]) then RunStart(s, lo, a - 1) else a
  }

  /** End of the lazy answer group: the first "Q:" or `$` position at or after `p`. */
  function AnswerEnd(s: string, p: nat): (r: nat)
    requires p <= |s|
    ensures p <= r <= |s| && (QAt(s, r) || AtEnd(s, r))
    ensures forall j :: p <= j < r ==> !QAt(s, j) && !AtEnd(s, j)
    decreases |s| - p
  {
    if QAt(s, p) || AtEnd(s, p) then p else AnswerEnd(s, p + 1)
  }

  /** Positions of one match: "Q:" at `start`, question s[qStart..qEnd], "A:" at `aPos`, answer s[aStart..aEnd]. */
  datatype RawMatch = RawMatch(start: nat, qStart: nat, qEnd: nat, aPos: nat, aStart: nat, aEnd: nat)

  /** A match of the pattern can start at `i`. */
  predicate MatchStarts(s: string, i: nat) {
    QAt(s, i) && FindA(s, SkipSpaces(s, i + 2)).Some?
  }

  /** What the regex engine's match at `m.start` is, group by group. */
  predicate MatchSpec(s: string, m: RawMatch) {
    && m.start + 2 <= m.qStart <= m.qEnd <= m.aPos
    && m.aPos + 2 <= m.aStart <= m.aEnd <= |s|
    && QAt(s, m.start)
    && SpacesBetween(s, m.start + 2, m.qStart) && (m.qStart == |s| || !IsSpace(s[m.qStart]))
    && AAt(s, m.aPos) && (forall j :: m.qStart <= j < m.aPos ==> !AAt(s, j))
    && SpacesBetween(s, m.qEnd, m.aPos) && (m.qEnd == m.qStart || !IsSpace(s[m.qEnd - 1]))
    && SpacesBetween(s, m.aPos + 2, m.aStart) && (m.aStart == |s| || !IsSpace(s[m.aStart]))
    && (QAt(s, m.aEnd) || AtEnd(s, m.aEnd))
    && (forall j :: m.aStart <= j < m.aEnd ==> !QAt(s, j) && !AtEnd(s, j))
  }

  function MatchAt(s: string, i: nat): (m: RawMatch)
    requires MatchStarts(s, i)
    ensures m.start == i && MatchSpec(s, m)
  {
    var q0 := SkipSpaces(s, i + 2);
    var a := FindA(s, q0).value;
    var a0 := SkipSpaces(s, a + 2);
    RawMatch(i, q0, RunStart(s, q0, a), a, a0, AnswerEnd(s, a0))
  }

  /** The group bounds of `m` lie inside `s` and in order. */
  predicate Spans(s: string, m: RawMatch) {
    m.start < m.qStart <= m.qEnd <= m.aPos < m.aStart <= m.aEnd <= |s|
  }

  /** The matches `re.findall` reports when scanning from `pos`: non-overlapping, in order. */
  function Scan(s: string, pos: nat): (r: seq<RawMatch>)
    requires pos <= |s|
    ensures forall k :: 0 <= k < |r| ==> Spans(s, r[k]) && pos <= r[k].start
    ensures forall k :: 0 <= k < |r| - 1 ==> r[k].aEnd <= r[k + 1].start
    decreases |s| - pos
  {
    if pos + 2 > |s| then []
    else if MatchStarts(s, pos) then
      var m := MatchAt(s, pos);
      [m] + Scan(s, m.aEnd)
    else Scan(s, pos + 1)
  }

  /** Every reported match is the regex engine's match at its start position. */
  lemma {:induction false} ScanMatches(s: string, pos: nat)
    requires pos <= |s|
    ensures forall k :: 0 <= k < |Scan(s, pos)| ==> MatchSpec(s, Scan(s, pos)[k])
    decreases |s| - pos
  {
    if pos + 2 > |s| {
    } else if MatchStarts(s, pos) {
      var m := MatchAt(s, pos);
      ScanMatches(s, m.aEnd);
      assert Scan(s, pos) == [m] + Scan(s, m.aEnd);
    } else {
      ScanMatches(s, pos + 1);
    }
  }

  /** No match can start at `lo` or after it, up to `hi`. */
  predicate NoMatchStart(s: string, lo: nat, hi: nat)
    decreases hi - lo
  {
    lo >= hi || (!MatchStarts(s, lo) && NoMatchStart(s, lo + 1, hi))
  }

  /** `NoMatchStart(s, lo, hi)` says no match can start anywhere in [lo, hi). */
  lemma {:induction false} NoMatchStartMeans(s: string, lo: nat, hi: nat)
    ensures NoMatchStart(s, lo, hi) <==> forall j :: lo <= j < hi ==> !MatchStarts(s, j)
    decreases hi - lo
  {
    if lo < hi {
      NoMatchStartMeans(s, lo + 1, hi);
    }
  }

  /**
   * The scan skips nothing: no match can start before the first reported one,
   * between two reported ones, or after the last one.
   */
  lemma {:induction false} ScanLeftmost(s: string, pos: nat)
    requires pos <= |s|
    ensures var r := Scan(s, pos);
      && (|r| == 0 ==> NoMatchStart(s, pos, |s|))
      && (|r| > 0 ==> NoMatchStart(s, pos, r[0].start) && NoMatchStart(s, r[|r| - 1].aEnd, |s|))
      && (forall k :: 0 <= k < |r| - 1 ==> NoMatchStart(s, r[k].aEnd, r[k + 1].start))
    decreases |s| - pos
  {
    if pos + 2 > |s| {
      assert forall j :: pos <= j ==> !QAt(s, j);
      NoMatchStartMeans(s, pos, |s|);
    } else if MatchStarts(s, pos) {
      ScanLeftmostHit(s, pos);
    } else {
      ScanLeftmostMiss(s, pos);
    }
  }

  /** Where no match can start, the scan moves on by one position. */
  lemma {:induction false} ScanLeftmostMiss(s: string, pos: nat)
    requires pos + 2 <= |s| && !MatchStarts(s, pos)
    ensures var r := Scan(s, pos);
      && (|r| == 0 ==> NoMatchStart(s, pos, |s|))
      && (|r| > 0 ==> NoMatchStart(s, pos, r[0].start) && NoMatchStart(s, r[|r| - 1].aEnd, |s|))
      && (forall k :: 0 <= k < |r| - 1 ==> NoMatchStart(s, r[k].aEnd, r[k + 1].start))
    decreases |s| - pos, 0
  {
    var rest := Scan(s, pos + 1);
    assert Scan(s, pos) == rest;
    ScanLeftmost(s, pos + 1);
    var next := if |rest| == 0 then |s| else rest[0].start;
    assert NoMatchStart(s, pos + 1, next);
    assert NoMatchStart(s, pos, next);
  }

  lemma {:induction false} ScanLeftmostHit(s: string, pos: nat)
    requires pos + 2 <= |s| && MatchStarts(s, pos)
    ensures var r := Scan(s, pos);
      && |r| > 0 && r[0].start == pos
      && NoMatchStart(s, r[|r| - 1].aEnd, |s|)
      && (forall k :: 0 <= k < |r| - 1 ==> NoMatchStart(s, r[k].aEnd, r[k + 1].start))
    decreases |s| - pos, 0
  {
    var m := MatchAt(s, pos);
    var rest := Scan(s, m.aEnd);
    assert Scan(s, pos) == [m] + rest;
    ScanLeftmost(s, m.aEnd);
    GapsCons(s, m, rest);
  }

  /** Putting a match in front of a gap-free list whose first match it does not overlap. */
  lemma GapsCons(s: string, m: RawMatch, rest: seq<RawMatch>)
    requires |rest| > 0 ==> NoMatchStart(s, m.aEnd, rest[0].start)
    requires forall k :: 0 <= k < |rest| - 1 ==> NoMatchStart(s, rest[k].aEnd, rest[k + 1].start)
    ensures var r := [m] + rest;
      && r[|r| - 1] == (if |rest| > 0 then rest[|rest| - 1] else m)
      && forall k :: 0 <= k < |r| - 1 ==> NoMatchStart(s, r[k].aEnd, r[k + 1].start)
  {
    var r := [m] + rest;
    forall k | 0 <= k < |r| - 1 ensures NoMatchStart(s, r[k].aEnd, r[k + 1].start) {
      if k == 0 {
        assert r[0] == m && r[1] == rest[0];
      } else {
        assert r[k] == rest[k - 1] && r[k + 1] == rest[k];
      }
    }
  }

  /** The (question, answer) groups of every match, as `re.findall` returns them. */
  function FindAll(s: string): (r: seq<(string, string)>)
    ensures |r| == |Scan(s, 0)|
  {
    var ms := Scan(s, 0);
    seq(|ms|, k requires 0 <= k < |ms| => (s[ms[k].qStart..ms[k].qEnd], s[ms[k].aStart..ms[k].aEnd]))
  }

  /**
   * The question group contains no "A:" and does not end in whitespace; the answer
   * group contains no "Q:" (not even inside a word such as "FAQ:").
   */
  lemma FindAllGroups(s: string, k: nat)
    requires k < |FindAll(s)|
    ensures var (q, a) := FindAll(s)[k];
      && (forall j: nat :: !AAt(q, j))
      && (forall j: nat :: !QAt(a, j))
      && (|q| > 0 ==> !IsSpace(q[|q| - 1]) && !IsSpace(q[0]))
  {
    ScanMatches(s, 0);
    MatchGroups(s, Scan(s, 0)[k]);
  }

  /** The groups of one regex match. */
  lemma MatchGroups(s: string, m: RawMatch)
    requires MatchSpec(s, m)
    ensures var q := s[m.qStart..m.qEnd];
      var a := s[m.aStart..m.aEnd];
      && (forall j: nat :: !AAt(q, j))
      && (forall j: nat :: !QAt(a, j))
      && (|q| > 0 ==> !IsSpace(q[|q| - 1]) && !IsSpace(q[0]))
  {
    var q := s[m.qStart..m.qEnd];
    var a := s[m.aStart..m.aEnd];
    forall j: nat | j + 2 <= |q| ensures !AAt(q, j) {
      assert q[j] == s[m.qStart + j] && q[j + 1] == s[m.qStart + j + 1];
      assert !AAt(s, m.qStart + j);
    }
    forall j: nat | j + 2 <= |a| ensures !QAt(a, j) {
      assert a[j] == s[m.aStart + j] && a[j + 1] == s[m.aStart + j + 1];
      assert !QAt(s, m.aStart + j);
    }
  }

  // ---------------------------------------------------------------- building the entries

  /** The entry a match yields, if both cleaned groups are non-empty; `i` is the match's position. */
  function EntryOf(g: (string, string), i: nat): Option<QAPair> {
    var q := CleanText(g.0);
    var a := CleanText(g.1);
    if q != [] && a != [] then Some(QAPair(q, a, i)) else None
  }

  /** The entry each match yields, position by position. */
  function EntryOptions(groups: seq<(string, string)>): (r: seq<Option<QAPair>>)
    ensures |r| == |groups|
    ensures forall i :: 0 <= i < |r| ==> r[i].Some? ==> r[i].value.id == i
  {
    seq(|groups|, i requires 0 <= i < |groups| => EntryOf(groups[i], i))
  }

  /** The entries kept by the loop of `parse`, in match order. */
  function Survivors(opts: seq<Option<QAPair>>): seq<QAPair>
    decreases |opts|
  {
    if |opts| == 0 then []
    else
      var n := |opts| - 1;
      Survivors(opts[..n]) + (match opts[n] case Some(p) => [p] case None => [])
  }

  function BuildEntries(groups: seq<(string, string)>): seq<QAPair> {
    Survivors(EntryOptions(groups))
  }

  /** The entries `parse` stores for file contents `s`. */
  function Entries(s: string): seq<QAPair> {
    BuildEntries(FindAll(s))
  }

  predicate IdsIncreasing(ps: seq<QAPair>) {
    forall a, b :: 0 <= a < b < |ps| ==> ps[a].id < ps[b].id
  }

  predicate IdsArePositions(opts: seq<Option<QAPair>>) {
    forall i :: 0 <= i < |opts| ==> opts[i].Some? ==> opts[i].value.id == i
  }

  /**
   * The survivors are exactly the present entries, in position order; since each
   * entry's id is its position, ids are strictly increasing (so unique).
   */
  lemma {:induction false} SurvivorsSpec(opts: seq<Option<QAPair>>)
    requires IdsArePositions(opts)
    ensures var es := Survivors(opts);
      && IdsIncreasing(es)
      && (forall k :: 0 <= k < |es| ==> es[k].id < |opts| && opts[es[k].id] == Some(es[k]))
      && (forall i :: 0 <= i < |opts| && opts[i].Some? ==> exists k :: 0 <= k < |es| && es[k].id == i)
    decreases |opts|
  {
    if |opts| > 0 {
      var n := |opts| - 1;
      var pre := opts[..n];
      assert IdsArePositions(pre);
      SurvivorsSpec(pre);
      var tail: seq<QAPair> := match opts[n] case Some(p) => [p] case None => [];
      assert Survivors(opts) == Survivors(pre) + tail;
      SurvivorsStep(opts, pre, Survivors(pre), tail);
    }
  }

  /** One step of the loop of `parse`: the entry at the last position, if any, goes last. */
  lemma SurvivorsStep(opts: seq<Option<QAPair>>, pre: seq<Option<QAPair>>, es0: seq<QAPair>, tail: seq<QAPair>)
    requires |opts| > 0 && IdsArePositions(opts) && pre == opts[..|opts| - 1]
    requires tail == match opts[|opts| - 1] case Some(p) => [p] case None => []
    requires IdsIncreasing(es0)
    requires forall k :: 0 <= k < |es0| ==> es0[k].id < |pre| && pre[es0[k].id] == Some(es0[k])
    requires forall i :: 0 <= i < |pre| && pre[i].Some? ==> exists k :: 0 <= k < |es0| && es0[k].id == i
    ensures var es := es0 + tail;
      && IdsIncreasing(es)
      && (forall k :: 0 <= k < |es| ==> es[k].id < |opts| && opts[es[k].id] == Some(es[k]))
      && (forall i :: 0 <= i < |opts| && opts[i].Some? ==> exists k :: 0 <= k < |es| && es[k].id == i)
  {
    var n := |opts| - 1;
    var es := es0 + tail;
    forall k | 0 <= k < |es| ensures es[k].id < |opts| && opts[es[k].id] == Some(es[k]) {
      if k < |es0| { assert es[k] == es0[k] && pre[es0[k].id] == opts[es0[k].id]; }
    }
    forall i | 0 <= i < |opts| && opts[i].Some?
      ensures exists k :: 0 <= k < |es| && es[k].id == i
    {
      if i < n {
        assert pre[i] == opts[i];
        var k :| 0 <= k < |es0| && es0[k].id == i;
        assert es[k] == es0[k];
      } else {
        assert es[|es| - 1].id == i;
      }
    }
  }

  /**
   * Each entry of `parse` is the cleaned match at position `id`; every match whose
   * cleaned question and answer are both non-empty yields one, and no other does;
   * ids are strictly increasing (so unique) and may skip dropped positions.
   */
  lemma BuildEntriesSpec(groups: seq<(string, string)>)
    ensures var es := BuildEntries(groups);
      && IdsIncreasing(es)
      && (forall k :: 0 <= k < |es| ==> es[k].id < |groups| && EntryOf(groups[es[k].id], es[k].id) == Some(es[k]))
      && (forall i :: 0 <= i < |groups| && EntryOf(groups[i], i).Some? ==>
            exists k :: 0 <= k < |es| && es[k].id == i)
  {
    var opts := EntryOptions(groups);
    SurvivorsSpec(opts);
    assert forall i :: 0 <= i < |groups| ==> opts[i] == EntryOf(groups[i], i);
  }

  /** Every entry `parse` keeps has a non-empty, Tidy question and answer. */
  lemma EntriesClean(s: string, k: nat)
    requires k < |Entries(s)|
    ensures var e := Entries(s)[k];
      && e.question != [] && e.answer != [] && Tidy(e.question) && Tidy(e.answer)
      && e.id < |FindAll(s)|
      && e.question == CleanText(FindAll(s)[e.id].0) && e.answer == CleanText(FindAll(s)[e.id].1)
  {
    BuildEntriesSpec(FindAll(s));
    var e := Entries(s)[k];
    CleanTextSpec(FindAll(s)[e.id].0);
    CleanTextSpec(FindAll(s)[e.id].1);
  }

  // ---------------------------------------------------------------- keyword fallback

  predicate KeywordHit(p: QAPair, keyword: string) {
    Contains(Lower(p.question), Lower(keyword)) || Contains(Lower(p.answer), Lower(keyword))
  }

  /** The entries of `ps`, in order, whose lowercased question or answer contains the lowercased keyword. */
  function KeywordMatches(ps: seq<QAPair>, keyword: string): seq<QAPair>
    decreases |ps|
  {
    if |ps| == 0 then []
    else
      var n := |ps| - 1;
      KeywordMatches(ps[..n], keyword) + (if KeywordHit(ps[n], keyword) then [ps[n]] else [])
  }

  lemma {:induction false} KeywordMatchesSpec(ps: seq<QAPair>, keyword: string)
    ensures |KeywordMatches(ps, keyword)| <= |ps|
    ensures forall p :: p in KeywordMatches(ps, keyword) <==> p in ps && KeywordHit(p, keyword)
    decreases |ps|
  {
    if |ps| > 0 {
      var n := |ps| - 1;
      KeywordMatchesSpec(ps[..n], keyword);
      assert ps == ps[..n] + [ps[n]];
    }
  }

  /** The positions below `n` of the entries the keyword hits, in increasing order. */
  function HitPositions(ps: seq<QAPair>, keyword: string, n: nat): (r: seq<nat>)
    requires n <= |ps|
    ensures forall k :: 0 <= k < |r| ==> r[k] < n && KeywordHit(ps[r[k]], keyword)
    ensures forall a, b :: 0 <= a < b < |r| ==> r[a] < r[b]
    ensures forall j :: 0 <= j < n && KeywordHit(ps[j], keyword) ==> j in r
  {
    if n == 0 then []
    else HitPositions(ps, keyword, n - 1) + (if KeywordHit(ps[n - 1], keyword) then [n - 1] else [])
  }

  /** The matches among the first `n` entries are the entries at the hit positions, in that order. */
  lemma {:induction false} KeywordMatchesPrefix(ps: seq<QAPair>, keyword: string, n: nat)
    requires n <= |ps|
    ensures var r := KeywordMatches(ps[..n], keyword);
      var m := HitPositions(ps, keyword, n);
      |r| == |m| && forall k :: 0 <= k < |r| ==> r[k] == ps[m[k]]
  {
    if n > 0 {
      KeywordMatchesPrefix(ps, keyword, n - 1);
      assert ps[..n][..n - 1] == ps[..n - 1];
      assert ps[..n][n - 1] == ps[n - 1];
    }
  }

  /**
   * The matches keep the stored order: they are the entries at a strictly
   * increasing list of positions that holds every position the keyword hits.
   */
  lemma KeywordMatchesOrder(ps: seq<QAPair>, keyword: string)
    ensures var r := KeywordMatches(ps, keyword);
      var m := HitPositions(ps, keyword, |ps|);
      && |r| == |m|
      && (forall k :: 0 <= k < |r| ==> m[k] < |ps| && r[k] == ps[m[k]])
      && (forall a, b :: 0 <= a < b < |m| ==> m[a] < m[b])
      && (forall j :: 0 <= j < |ps| && KeywordHit(ps[j], keyword) ==> j in m)
  {
    KeywordMatchesPrefix(ps, keyword, |ps|);
    assert ps[..|ps|] == ps;
  }

  // ---------------------------------------------------------------- lookup by id

  /** The first entry of `ps` with this id, or the not-found error. */
  function FindById(ps: seq<QAPair>, id: int): (r: Result<QAPair, LookupError>)
    ensures r.Success? ==> r.value.id == id && r.value in ps
    ensures r.Failure? <==> forall k :: 0 <= k < |ps| ==> ps[k].id != id
    ensures r.Failure? ==> r.error == PairNotFound(id)
    decreases |ps|
  {
    if |ps| == 0 then Failure(PairNotFound(id))
    else if ps[0].id == id then Success(ps[0])
    else
      var r := FindById(ps[1..], id);
      assert forall k :: 1 <= k < |ps| ==> ps[k] == ps[1..][k - 1];
      r
  }

  /** A lookup stops at the first entry carrying the id. */
  lemma {:induction false} FindByIdFirst(ps: seq<QAPair>, id: int, k: nat)
    requires k < |ps| && ps[k].id == id
    requires forall j :: 0 <= j < k ==> ps[j].id != id
    ensures FindById(ps, id) == Success(ps[k])
    decreases k
  {
    if k > 0 {
      FindByIdFirst(ps[1..], id, k - 1);
    }
  }

  /** With strictly increasing ids, as parsing produces, the entry found is the only one with that id. */
  lemma FindByIdUnique(ps: seq<QAPair>, id: int, k: nat)
    requires IdsIncreasing(ps) && k < |ps| && ps[k].id == id
    ensures FindById(ps, id) == Success(ps[k])
  {
    FindByIdFirst(ps, id, k);
  }

  // ---------------------------------------------------------------- the parser object

  class KnowledgeBaseParser {
    var qaPairs: seq<QAPair>

    constructor ()
      ensures qaPairs == []
    {
      qaPairs := [];
    }

    /** `parse`, with the file's contents passed in. */
    method Parse(content: string) returns (r: Result<seq<QAPair>, ParseError>)
      modifies this
      ensures qaPairs == Entries(content)
      ensures r == if qaPairs == [] then Failure(NoPairsFound) else Success(qaPairs)
    {
      var matches := FindAll(content);
      ghost var opts := EntryOptions(matches);
      qaPairs := [];
      var i := 0;
      while i < |matches|
        invariant 0 <= i <= |matches|
        invariant qaPairs == Survivors(opts[..i])
      {
        assert opts[..i + 1][..i] == opts[..i];
        assert opts[i] == EntryOf(matches[i], i);
        var question := CleanText(matches[i].0);
        var answer := CleanText(matches[i].1);
        if question != [] && answer != [] {
          qaPairs := qaPairs + [QAPair(question, answer, i)];
        }
        i := i + 1;
      }
      assert opts[..|matches|] == opts;
      if qaPairs == [] {
        r := Failure(NoPairsFound);
      } else {
        r := Success(qaPairs);
      }
    }

    /** `get_by_id`: the first stored entry with this id, or the not-found error. */
    method GetById(id: int) returns (r: Result<QAPair, LookupError>)
      ensures r == FindById(qaPairs, id)
    {
      var i := 0;
      while i < |qaPairs|
        invariant 0 <= i <= |qaPairs|
        invariant forall k :: 0 <= k < i ==> qaPairs[k].id != id
      {
        if qaPairs[i].id == id {
          FindByIdFirst(qaPairs, id, i);
          return Success(qaPairs[i]);
        }
        i := i + 1;
      }
      return Failure(PairNotFound(id));
    }

    /** `search_by_keyword`: case-insensitive substring fallback search. */
    method SearchByKeyword(keyword: string) returns (results: seq<QAPair>)
      ensures results == KeywordMatches(qaPairs, keyword)
    {
      var keywordLower := Lower(keyword);
      results := [];
      var i := 0;
      while i < |qaPairs|
        invariant 0 <= i <= |qaPairs|
        invariant results == KeywordMatches(qaPairs[..i], keyword)
      {
        assert qaPairs[..i + 1][..i] == qaPairs[..i];
        var qa := qaPairs[i];
        if Contains(Lower(qa.question), keywordLower) || Contains(Lower(qa.answer), keywordLower) {
          results := results + [qa];
        }
        i := i + 1;
      }
      assert qaPairs[..|qaPairs|] == qaPairs;
    }
  }
}
