/**
 * The Python string primitives the retrieval core relies on: `str.isspace`,
 * `str.lower`, `str.split()`, `' '.join`, `str.strip`, `re.sub(r'\s+', ' ', ...)`,
 * the `in` substring test and `str(n)` for a non-negative integer.
 */
module Text {

  /** Python's whitespace set: what `str.isspace`, `str.split()` and the regex class `\s` use. */
  predicate IsSpace(c: char) {
    c == ' ' || ('\t' <= c <= '\r') || ('\U{1C}' <= c <= '\U{1F}')
    || c == '\U{85}' || c == '\U{A0}' || c == '\U{1680}'
    || ('\U{2000}' <= c <= '\U{200A}')
    || c == '\U{2028}' || c == '\U{2029}' || c == '\U{202F}' || c == '\U{205F}' || c == '\U{3000}'
  }

  predicate NoSpace(s: string) {
    forall i :: 0 <= i < |s| ==> !IsSpace(s[i])
  }

  /** A token of `str.split()`: non-empty and free of whitespace. */
  predicate IsWord(w: string) {
    |w| > 0 && NoSpace(w)
  }

  predicate AllWords(ws: seq<string>) {
    forall k :: 0 <= k < |ws| ==> IsWord(ws[k])
  }

  /**
   * The shape of `' '.join(s.split())`: no whitespace at either end, every
   * whitespace character is a plain space, and no two of them are adjacent.
   */
  predicate Tidy(t: string) {
    && (|t| > 0 ==> !IsSpace(t[0]) && !IsSpace(t[|t| - 1]))
    && SingleSpaced(t)
  }

  predicate SingleSpaced(t: string) {
    && (forall i :: 0 <= i < |t| && IsSpace(t[i]) ==> t[i] == ' ')
    && (forall i :: 0 <= i < |t| - 1 ==> !(IsSpace(t[i]) && IsSpace(t[i + 1])))
  }

  // ---------------------------------------------------------------- lower

  function LowerChar(c: char): char {
    if 'A' <= c <= 'Z' then (c as int + 32) as char else c
  }

  /** `str.lower`, restricted to the ASCII letters. */
  function Lower(s: string): (r: string)
    ensures |r| == |s|
    ensures forall i :: 0 <= i < |s| ==> r[i] == LowerChar(s[i])
  {
    seq(|s|, i requires 0 <= i < |s| => LowerChar(s[i]))
  }

  // ---------------------------------------------------------------- split / join

  /** `str.split()` with no separator, scanning left to right; `cur` is the word being read. */
  function SplitFrom(s: string, cur: string): seq<string>
    decreases |s|
  {
    if |s| == 0 then (if cur == [] then [] else [cur])
    else if IsSpace(s[0]) then (if cur == [] then [] else [cur]) + SplitFrom(s[1..], [])
    else SplitFrom(s[1..], cur + [s[0]])
  }

  function Split(s: string): seq<string> {
    SplitFrom(s, [])
  }

  /** `sep.join(ws)`. */
  function Join(ws: seq<string>, sep: string): string
    decreases |ws|
  {
    if |ws| == 0 then []
    else if |ws| == 1 then ws[0]
    else ws[0] + sep + Join(ws[1..], sep)
  }

  // ---------------------------------------------------------------- strip / re.sub

  function TrimLeft(s: string): (r: string)
    ensures |r| <= |s|
    decreases |s|
  {
    if |s| > 0 && IsSpace(s[0]) then TrimLeft(s[1..]) else s
  }

  function TrimRight(s: string): (r: string)
    ensures |r| <= |s|
    decreases |s|
  {
    if |s| > 0 && IsSpace(s[|s| - 1]) then TrimRight(s[..|s| - 1]) else s
  }

  /** `str.strip()`. */
  function Strip(s: string): string {
    TrimRight(TrimLeft(s))
  }

  /** `re.sub(r'\s+', ' ', s)`: every maximal run of whitespace becomes one space. */
  function CollapseSpaces(s: string): string
    decreases |s|
  {
    if |s| == 0 then []
    else if IsSpace(s[0]) then [' '] + CollapseSpaces(TrimLeft(s[1..]))
    else [s[0]] + CollapseSpaces(s[1..])
  }

  /** `' '.join(s.split())`, the normalisation both the parser and the lexical index use. */
  function JoinWords(s: string): string {
    Join(Split(s), " ")
  }

  // ---------------------------------------------------------------- substring and str(n)

  /** Python's `k in s` for strings. */
  function Contains(s: string, k: string): bool
    decreases |s|
  {
    k <= s || (|s| > 0 && Contains(s[1..], k))
  }

  function DigitChar(d: nat): char
    requires d < 10
  {
    ((('0' as int) + d) as char)
  }

  /** `str(n)` for a non-negative integer. */
  function NatToString(n: nat): string
    decreases n
  {
    if n < 10 then [DigitChar(n)] else NatToString(n / 10) + [DigitChar(n % 10)]
  }

  // ================================================================ lemmas

  lemma {:induction false} SplitFromWords(s: string, cur: string)
    requires NoSpace(cur)
    ensures AllWords(SplitFrom(s, cur))
    decreases |s|
  {
    if |s| == 0 {
    } else if IsSpace(s[0]) {
      SplitFromWords(s[1..], []);
    } else {
      SplitFromWords(s[1..], cur + [s[0]]);
    }
  }

  /** Every token `str.split()` yields is a non-empty run of non-whitespace characters. */
  lemma SplitWords(s: string)
    ensures AllWords(Split(s))
  {
    SplitFromWords(s, []);
  }

  lemma {:induction false} SplitFromAcrossWord(w: string, rest: string, cur: string)
    requires NoSpace(w)
    ensures SplitFrom(w + rest, cur) == SplitFrom(rest, cur + w)
    decreases |w|
  {
    if |w| == 0 {
      assert w + rest == rest;
      assert cur + w == cur;
    } else {
      assert (w + rest)[1..] == w[1..] + rest;
      assert cur + [w[0]] + w[1..] == cur + w;
      SplitFromAcrossWord(w[1..], rest, cur + [w[0]]);
    }
  }

  /** Splitting a single-space join of words gives back the words. */
  lemma {:induction false} SplitJoin(ws: seq<string>)
    requires AllWords(ws)
    ensures Split(Join(ws, " ")) == ws
    decreases |ws|
  {
    if |ws| == 0 {
    } else if |ws| == 1 {
      SplitFromAcrossWord(ws[0], [], []);
      assert ws[0] + [] == ws[0] && [] + ws[0] == ws[0];
    } else {
      var j := Join(ws[1..], " ");
      assert Join(ws, " ") == ws[0] + ([' '] + j);
      SplitFromAcrossWord(ws[0], [' '] + j, []);
      assert ([' '] + j)[1..] == j;
      assert [] + ws[0] == ws[0];
      assert SplitFrom([' '] + j, ws[0]) == [ws[0]] + SplitFrom(j, []);
      SplitJoin(ws[1..]);
      assert [ws[0]] + ws[1..] == ws;
    }
  }

  /** A join of words with one space between them and none at either end is Tidy. */
  lemma {:induction false} JoinTidy(ws: seq<string>)
    requires AllWords(ws)
    ensures Tidy(Join(ws, " "))
    ensures |ws| > 0 ==> |Join(ws, " ")| > 0
    decreases |ws|
  {
    if |ws| >= 2 {
      var w, j := ws[0], Join(ws[1..], " ");
      JoinTidy(ws[1..]);
      var t := w + " " + j;
      assert Join(ws, " ") == t;
      assert IsWord(w);
      forall i | 0 <= i < |t| && IsSpace(t[i]) ensures t[i] == ' ' {
        if i > |w| { assert t[i] == j[i - |w| - 1]; }
      }
      forall i | 0 <= i < |t| - 1 ensures !(IsSpace(t[i]) && IsSpace(t[i + 1])) {
        if i < |w| - 1 {
        } else if i == |w| - 1 {
        } else if i == |w| {
          assert t[i + 1] == j[0];
        } else {
          assert t[i] == j[i - |w| - 1] && t[i + 1] == j[i - |w|];
        }
      }
      assert t[|t| - 1] == j[|j| - 1];
    } else if |ws| == 1 {
      assert IsWord(ws[0]);
    }
  }

  lemma TrimTidy(t: string)
    requires Tidy(t)
    ensures Strip(t) == t
  {
  }

  lemma {:induction false} CollapseSingleSpaced(t: string)
    requires SingleSpaced(t)
    ensures CollapseSpaces(t) == t
    decreases |t|
  {
    if |t| == 0 {
    } else {
      assert SingleSpaced(t[1..]);
      if IsSpace(t[0]) {
        assert |t| > 1 ==> !IsSpace(t[1..][0]);
        assert TrimLeft(t[1..]) == t[1..];
      }
      CollapseSingleSpaced(t[1..]);
      assert [t[0]] + t[1..] == t;
    }
  }

  lemma {:induction false} NatToStringDigits(n: nat)
    ensures |NatToString(n)| > 0
    ensures forall i :: 0 <= i < |NatToString(n)| ==> '0' <= NatToString(n)[i] <= '9'
    ensures n >= 10 ==> |NatToString(n)| >= 2
    decreases n
  {
    if n >= 10 { NatToStringDigits(n / 10); }
  }

  /** `str(n)` is injective on non-negative integers. */
  lemma {:induction false} NatToStringInjective(m: nat, n: nat)
    ensures NatToString(m) == NatToString(n) ==> m == n
    decreases m
  {
    if NatToString(m) == NatToString(n) {
      NatToStringDigits(m);
      NatToStringDigits(n);
      if m >= 10 && n >= 10 {
        var sm, sn := NatToString(m), NatToString(n);
        assert sm[|sm| - 1] == DigitChar(m % 10) && sn[|sn| - 1] == DigitChar(n % 10);
        assert sm[..|sm| - 1] == NatToString(m / 10);
        assert sn[..|sn| - 1] == NatToString(n / 10);
        NatToStringInjective(m / 10, n / 10);
      }
    }
  }

  /** `k` occurs in `s` starting at index `i`. */
  predicate OccursAt(s: string, k: string, i: nat) {
    i + |k| <= |s| && s[i..i + |k|] == k
  }

  /** `k in s` holds exactly when `k` occurs in `s` at some position. */
  lemma {:induction false} ContainsIff(s: string, k: string)
    ensures Contains(s, k) <==> exists i: nat :: OccursAt(s, k, i)
    decreases |s|
  {
    if |s| > 0 {
      ContainsIff(s[1..], k);
    }
    if Contains(s, k) {
      if k <= s {
        assert OccursAt(s, k, 0);
      } else {
        var i: nat :| OccursAt(s[1..], k, i);
        assert s[i + 1..i + 1 + |k|] == s[1..][i..i + |k|];
        assert OccursAt(s, k, i + 1);
      }
    }
    if exists i: nat :: OccursAt(s, k, i) {
      var i: nat :| OccursAt(s, k, i);
      if i == 0 {
        assert s[..|k|] == k;
      } else {
        assert s[1..][i - 1..i - 1 + |k|] == s[i..i + |k|];
        assert OccursAt(s[1..], k, i - 1);
      }
    }
  }

  /** The normal form `' '.join(s.split())` is Tidy and is its own normal form. */
  lemma JoinWordsNormal(s: string)
    ensures Tidy(JoinWords(s))
    ensures JoinWords(JoinWords(s)) == JoinWords(s)
    ensures Split(JoinWords(s)) == Split(s)
  {
    SplitWords(s);
    JoinTidy(Split(s));
    SplitJoin(Split(s));
  }

  predicate AllSpace(s: string) {
    forall i :: 0 <= i < |s| ==> IsSpace(s[i])
  }

  /** For `str.split()`, a non-empty run of whitespace acts exactly like one space. */
  lemma {:induction false} SplitSpaceRun(run: string, rest: string, cur: string)
    requires |run| > 0 && AllSpace(run)
    ensures SplitFrom(run + rest, cur) == SplitFrom([' '] + rest, cur)
    decreases |run|
  {
    assert (run + rest)[1..] == run[1..] + rest;
    assert ([' '] + rest)[1..] == rest;
    if |run| > 1 {
      SplitSpaceRun(run[1..], rest, []);
      assert ([' '] + rest)[1..] == rest;
      assert SplitFrom([' '] + rest, []) == SplitFrom(rest, []);
    }
  }

  lemma {:induction false} TrimLeftShape(s: string)
    ensures TrimLeft(s) == [] <==> AllSpace(s)
    ensures TrimLeft(s) != [] ==> !IsSpace(TrimLeft(s)[0])
    decreases |s|
  {
    if |s| > 0 && IsSpace(s[0]) {
      TrimLeftShape(s[1..]);
      assert forall i :: 1 <= i < |s| ==> s[i] == s[1..][i - 1];
    }
  }

  lemma {:induction false} TrimRightKeeps(s: string)
    requires |s| > 0 && !IsSpace(s[0])
    ensures TrimRight(s) != []
    decreases |s|
  {
    if |s| > 1 && IsSpace(s[|s| - 1]) {
      TrimRightKeeps(s[..|s| - 1]);
    }
  }

  /** `str.strip()` leaves nothing exactly when the text is all whitespace. */
  lemma StripEmpty(s: string)
    ensures Strip(s) == [] <==> AllSpace(s)
  {
    TrimLeftShape(s);
    if TrimLeft(s) != [] {
      TrimRightKeeps(TrimLeft(s));
    }
  }
}
