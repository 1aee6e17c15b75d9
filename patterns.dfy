/**
 * The three regular expressions of the preprocessor, written out as
 * scanners with the leftmost-first semantics of Rust's `regex` crate:
 *
 *   directive   `\{:\s*(?<argv>.*?)\s*:\}`
 *   expression  `(?<pre>\{\{\s*)(?<expr>.*?)(?<post>\s*\}\})`
 *   comment     `\{#.*#\}`
 *
 * `.` matches every character except '\n' and `\s` is Unicode White_Space.
 * For the two lazy patterns the leading `\s*` takes every whitespace
 * character (line breaks included), then the lazy group ends at the nearest
 * closer, and the trailing `\s*` gives the group's trailing whitespace back;
 * the match exists only if the group so obtained holds no '\n'.  For the
 * greedy comment pattern the match ends at the last `#}` before the next
 * '\n'.
 */
module Patterns {
  import opened Wrappers
  import opened Text

  datatype Pattern = DirectiveRegex | ExpressionRegex | CommentRegex

  /**
   * A match of a pattern: the span `[start, end)` and the capture its
   * callers read (`argv`, `expr`; the whole match for comments).
   */
  datatype Match = Match(start: nat, end: nat, inner: string)

  function Opener(p: Pattern): (o: string)
    ensures |o| == 2 && o[0] == '{'
  {
    match p
    case DirectiveRegex => "{:"
    case ExpressionRegex => "{{"
    case CommentRegex => "{#"
  }

  function Closer(p: Pattern): (c: string)
    ensures |c| == 2
  {
    match p
    case DirectiveRegex => ":}"
    case ExpressionRegex => "}}"
    case CommentRegex => "#}"
  }

  /** The index of the first '\n' at or after `i`, or `|t|`: as far as `.*` can reach. */
  function LineEnd(t: string, i: nat): (e: nat)
    requires i <= |t|
    ensures i <= e <= |t| && (e < |t| ==> t[e] == '\n')
    ensures forall j :: i <= j < e ==> t[j] != '\n'
    decreases |t| - i
  {
    if i == |t| || t[i] == '\n' then i else LineEnd(t, i + 1)
  }

  /** The last occurrence of `pat` that lies inside `t[lo..hi]`. */
  function LastIn(t: string, pat: string, lo: nat, hi: nat): (r: Option<nat>)
    requires lo <= hi <= |t|
    ensures r.Some? ==> lo <= r.value && r.value + |pat| <= hi && OccursAt(t, pat, r.value)
    ensures r.Some? ==> forall j :: r.value < j && j + |pat| <= hi ==> !OccursAt(t, pat, j)
    ensures r.None? ==> forall j :: lo <= j && j + |pat| <= hi ==> !OccursAt(t, pat, j)
    decreases hi
  {
    if hi < lo + |pat| then None
    else if OccursAt(t, pat, hi - |pat|) then Some(hi - |pat|)
    else
      assert t[hi..hi] == [];
      LastIn(t, pat, lo, hi - 1)
  }

  /** No whitespace at either end: what the `\s*` on both sides of a lazy group leave it. */
  predicate Trimmed(s: string) {
    s == [] || (!IsWhitespace(s[0]) && !IsWhitespace(s[|s| - 1]))
  }

  /** `\{#.*#\}` at `i`, given the opener is there: up to the last `#}` of the line. */
  function CommentAt(t: string, i: nat): (m: Option<Match>)
    requires OccursAt(t, "{#", i)
    ensures m.Some? ==> m.value.start == i && i + 4 <= m.value.end <= |t| && OccursAt(t, "#}", m.value.end - 2)
    ensures m.Some? ==> m.value.inner == t[i..m.value.end] && '\n' !in m.value.inner
  {
    var e := LineEnd(t, i + 2);
    match LastIn(t, "#}", i + 2, e)
    case None => None
    case Some(r) =>
      assert forall j :: i <= j < r + 2 ==> t[j] != '\n' by {
        assert t[i..i + 2] == "{#" && t[r..r + 2] == "#}";
        forall j | i <= j < r + 2 ensures t[j] != '\n' {
          if j < i + 2 { assert t[j] == t[i..i + 2][j - i]; }
        }
      }
      Some(Match(i, r + 2, t[i..r + 2]))
  }

  /**
   * `\s*(.*?)\s*` followed by `closer`, at `i + 2`: the group is what lies
   * between the leading whitespace and the nearest closer, less its
   * trailing whitespace, and must not cross a line.
   */
  function LazyAt(t: string, i: nat, closer: string): (m: Option<Match>)
    requires i + 2 <= |t| && |closer| == 2
    ensures m.Some? ==> m.value.start == i && i + 4 <= m.value.end <= |t| && OccursAt(t, closer, m.value.end - 2)
    ensures m.Some? ==> '\n' !in m.value.inner && Trimmed(m.value.inner)
  {
    var lead := LeadingWhitespace(t[i + 2..]);
    var a := i + 2 + lead;
    match FindFrom(t, closer, a)
    case None => None
    case Some(r) =>
      var inner := TrimEnd(t[a..r]);
      if '\n' in inner then None
      else
        assert inner != [] ==> inner[0] == t[i + 2..][lead];
        Some(Match(i, r + 2, inner))
  }

  /** The match of `p` that starts at index `i` of `t`, if there is one. */
  function MatchAt(p: Pattern, t: string, i: nat): (m: Option<Match>)
    requires i <= |t|
    ensures m.Some? ==> m.value.start == i && i + 4 <= m.value.end <= |t|
  {
    if !OccursAt(t, Opener(p), i) then None
    else if p.CommentRegex? then CommentAt(t, i)
    else LazyAt(t, i, Closer(p))
  }

  /**
   * A match opens with the pattern's opener and closes with its closer; a
   * comment match captures the whole match, a lazy one its trimmed group,
   * and neither crosses a line.
   */
  lemma MatchAtShape(p: Pattern, t: string, i: nat, m: Match)
    requires i <= |t| && MatchAt(p, t, i) == Some(m)
    ensures OccursAt(t, Opener(p), i) && OccursAt(t, Closer(p), m.end - 2)
    ensures p.CommentRegex? ==> m.inner == t[i..m.end]
    ensures !p.CommentRegex? ==> Trimmed(m.inner)
    ensures '\n' !in m.inner
  {
    if p.CommentRegex? {
      CommentShape(t, i, m);
    } else {
      LazyShape(p, t, i, m);
    }
  }

  lemma CommentShape(t: string, i: nat, m: Match)
    requires i <= |t| && MatchAt(CommentRegex, t, i) == Some(m)
    ensures OccursAt(t, Opener(CommentRegex), i) && OccursAt(t, Closer(CommentRegex), m.end - 2)
    ensures m.inner == t[i..m.end] && '\n' !in m.inner
  {
    assert CommentAt(t, i) == Some(m);
  }

  lemma LazyShape(p: Pattern, t: string, i: nat, m: Match)
    requires !p.CommentRegex? && i <= |t| && MatchAt(p, t, i) == Some(m)
    ensures OccursAt(t, Opener(p), i) && OccursAt(t, Closer(p), m.end - 2)
    ensures Trimmed(m.inner) && '\n' !in m.inner
  {
    assert LazyAt(t, i, Closer(p)) == Some(m);
  }

  /**
   * `at` gives, for each index `k <= n` of a text of length `n`, the match
   * that starts there, if any.
   */
  predicate Anchored(at: nat -> Option<Match>, n: nat) {
    forall k :: 0 <= k <= n && at(k).Some? ==> at(k).value.start == k && k + 4 <= at(k).value.end <= n
  }

  /**
   * The search loop of `find_iter` / `captures_iter` from index `i`: the
   * leftmost match, then the search goes on from where that match ends.
   */
  function Scan(at: nat -> Option<Match>, n: nat, i: nat): (ms: seq<Match>)
    requires i <= n && Anchored(at, n)
    ensures forall k :: 0 <= k < |ms| ==> i <= ms[k].start && ms[k].start + 4 <= ms[k].end <= n
    decreases n - i
  {
    if i == n then []
    else match at(i)
      case Some(m) => [m] + Scan(at, n, m.end)
      case None => Scan(at, n, i + 1)
  }

  /** Where there is a match, the scan reports it and goes on from its end. */
  lemma ScanFound(at: nat -> Option<Match>, n: nat, i: nat, m: Match)
    requires i < n && Anchored(at, n) && at(i) == Some(m)
    ensures Scan(at, n, i) == [m] + Scan(at, n, m.end)
  {
  }

  /** Where there is none, the scan moves on by one character. */
  lemma ScanSkip(at: nat -> Option<Match>, n: nat, i: nat)
    requires i < n && Anchored(at, n) && at(i).None?
    ensures Scan(at, n, i) == Scan(at, n, i + 1)
  {
  }

  /** Every reported match is the match at its start. */
  lemma {:induction false} ScanMatches(at: nat -> Option<Match>, n: nat, i: nat, k: nat)
    requires i <= n && Anchored(at, n) && k < |Scan(at, n, i)|
    ensures at(Scan(at, n, i)[k].start) == Some(Scan(at, n, i)[k])
    decreases n - i
  {
    match at(i)
    case Some(m) =>
      ScanFound(at, n, i, m);
      if k > 0 {
        ScanMatches(at, n, m.end, k - 1);
      }
    case None =>
      ScanSkip(at, n, i);
      ScanMatches(at, n, i + 1, k);
  }

  /** Reported matches do not overlap: each starts at or after the end of the one before. */
  lemma {:induction false} ScanOrdered(at: nat -> Option<Match>, n: nat, i: nat, k: nat)
    requires i <= n && Anchored(at, n) && k + 1 < |Scan(at, n, i)|
    ensures Scan(at, n, i)[k].end <= Scan(at, n, i)[k + 1].start
    decreases n - i
  {
    match at(i)
    case Some(m) =>
      ScanFound(at, n, i, m);
      if k > 0 {
        ScanOrdered(at, n, m.end, k - 1);
      }
    case None =>
      ScanSkip(at, n, i);
      ScanOrdered(at, n, i + 1, k);
  }

  /** Index `j` starts or lies inside one of the matches `ms`. */
  ghost predicate Covered(ms: seq<Match>, j: nat) {
    exists k :: 0 <= k < |ms| && ms[k].start <= j < ms[k].end
  }

  /**
   * The scan misses nothing: every index at which there is a match starts
   * one of the reported matches or lies inside one of them.
   */
  lemma ScanCovers(at: nat -> Option<Match>, n: nat, i: nat, j: nat)
    requires i <= j < n && Anchored(at, n) && at(j).Some?
    ensures Covered(Scan(at, n, i), j)
  {
    var k := CoverIndex(at, n, i, j);
  }

  /** The position, among the reported matches, of the one that covers `j`. */
  lemma {:induction false} CoverIndex(at: nat -> Option<Match>, n: nat, i: nat, j: nat) returns (k: nat)
    requires i <= j < n && Anchored(at, n) && at(j).Some?
    ensures k < |Scan(at, n, i)| && Scan(at, n, i)[k].start <= j < Scan(at, n, i)[k].end
    decreases n - i
  {
    match at(i)
    case Some(m) =>
      ScanFound(at, n, i, m);
      if j < m.end {
        k := 0;
      } else {
        var r := CoverIndex(at, n, m.end, j);
        k := r + 1;
      }
    case None =>
      ScanSkip(at, n, i);
      k := CoverIndex(at, n, i + 1, j);
  }

  /** The match of `p` at each index of `t`. */
  function MatchesOf(p: Pattern, t: string): (at: nat -> Option<Match>)
    ensures Anchored(at, |t|)
  {
    (k: nat) => if k <= |t| then MatchAt(p, t, k) else None
  }

  /**
   * `find_iter` / `captures_iter` of `p` over `t`, from index `i`: the
   * leftmost match, then the search goes on from where that match ends.
   */
  function FindIter(p: Pattern, t: string, i: nat): (ms: seq<Match>)
    requires i <= |t|
    ensures forall k :: 0 <= k < |ms| ==> i <= ms[k].start && ms[k].start + 4 <= ms[k].end <= |t|
    decreases |t| - i
  {
    if i == |t| then []
    else match MatchAt(p, t, i)
      case Some(m) => [m] + FindIter(p, t, m.end)
      case None => FindIter(p, t, i + 1)
  }

  /** `FindIter` is the search loop over the pattern's matches at each index. */
  lemma {:induction false} FindIterIsScan(p: Pattern, t: string, i: nat)
    requires i <= |t|
    ensures FindIter(p, t, i) == Scan(MatchesOf(p, t), |t|, i)
    decreases |t| - i, 1
  {
    if i < |t| {
      match MatchAt(p, t, i)
      case Some(m) => FindIterFound(p, t, i, m);
      case None => FindIterSkip(p, t, i);
    }
  }

  /** Where the pattern matches, the scan reports that match and goes on from its end. */
  lemma {:induction false} FindIterFound(p: Pattern, t: string, i: nat, m: Match)
    requires i < |t| && MatchAt(p, t, i) == Some(m)
    ensures FindIter(p, t, i) == [m] + FindIter(p, t, m.end)
    ensures FindIter(p, t, i) == Scan(MatchesOf(p, t), |t|, i)
    decreases |t| - i, 0
  {
    ScanFound(MatchesOf(p, t), |t|, i, m);
    FindIterIsScan(p, t, m.end);
  }

  /** Where it does not, the scan moves on by one character. */
  lemma {:induction false} FindIterSkip(p: Pattern, t: string, i: nat)
    requires i < |t| && MatchAt(p, t, i).None?
    ensures FindIter(p, t, i) == FindIter(p, t, i + 1)
    ensures FindIter(p, t, i) == Scan(MatchesOf(p, t), |t|, i)
    decreases |t| - i, 0
  {
    ScanSkip(MatchesOf(p, t), |t|, i);
    FindIterIsScan(p, t, i + 1);
  }

  /** Every reported match is the pattern's match at its start. */
  lemma FindIterMatches(p: Pattern, t: string, i: nat, k: nat)
    requires i <= |t| && k < |FindIter(p, t, i)|
    ensures MatchAt(p, t, FindIter(p, t, i)[k].start) == Some(FindIter(p, t, i)[k])
  {
    FindIterIsScan(p, t, i);
    ScanMatches(MatchesOf(p, t), |t|, i, k);
  }

  /** Reported matches do not overlap. */
  lemma FindIterOrdered(p: Pattern, t: string, i: nat, k: nat)
    requires i <= |t| && k + 1 < |FindIter(p, t, i)|
    ensures FindIter(p, t, i)[k].end <= FindIter(p, t, i)[k + 1].start
  {
    FindIterIsScan(p, t, i);
    ScanOrdered(MatchesOf(p, t), |t|, i, k);
  }

  /** Every index at which the pattern matches is covered by a reported match. */
  lemma FindIterCovers(p: Pattern, t: string, i: nat, j: nat)
    requires i <= j < |t| && MatchAt(p, t, j).Some?
    ensures Covered(FindIter(p, t, i), j)
  {
    FindIterIsScan(p, t, i);
    ScanCovers(MatchesOf(p, t), |t|, i, j);
  }

  /** No match is reported exactly when the pattern matches nowhere from `i` on. */
  lemma FindIterEmptyIff(p: Pattern, t: string, i: nat)
    requires i <= |t|
    ensures FindIter(p, t, i) == [] <==> forall j :: i <= j <= |t| ==> MatchAt(p, t, j).None?
  {
    if FindIter(p, t, i) == [] {
      forall j | i <= j <= |t| ensures MatchAt(p, t, j).None? {
        if j < |t| && MatchAt(p, t, j).Some? {
          FindIterCovers(p, t, i, j);
        }
      }
    } else {
      FindIterMatches(p, t, i, 0);
    }
  }
}
