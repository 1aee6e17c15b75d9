/**
 * String helpers standing for the parts of Rust's `str` API that the
 * template pipeline uses: Unicode whitespace, `split_whitespace`, `lines`,
 * `starts_with`, `replace`, `replacen(_, _, 1)`, `join`, decimal formatting
 * and the byte-wise ordering of `str` (code-point order).
 */
module Text {
  import opened Wrappers

  /** Unicode White_Space: the class of `char::is_whitespace`, of `split_whitespace` and of the regex `\s`. */
  predicate IsWhitespace(c: char) {
    ('\t' <= c <= '\r') || c == ' ' || c == '\U{85}' || c == '\U{A0}' || c == '\U{1680}'
    || ('\U{2000}' <= c <= '\U{200A}') || c == '\U{2028}' || c == '\U{2029}'
    || c == '\U{202F}' || c == '\U{205F}' || c == '\U{3000}'
  }

  predicate NoWhitespace(s: string) {
    forall i :: 0 <= i < |s| ==> !IsWhitespace(s[i])
  }

  predicate AllWhitespace(s: string) {
    forall i :: 0 <= i < |s| ==> IsWhitespace(s[i])
  }

  /** A word of `split_whitespace`: a non-empty run without whitespace. */
  predicate IsWord(w: string) {
    w != [] && NoWhitespace(w)
  }

  /** Length of the whitespace run that starts `s`. */
  function LeadingWhitespace(s: string): (n: nat)
    ensures n <= |s| && AllWhitespace(s[..n])
    ensures n < |s| ==> !IsWhitespace(s[n])
  {
    if s == [] || !IsWhitespace(s[0]) then 0 else 1 + LeadingWhitespace(s[1..])
  }

  /** Length of the non-whitespace run that starts `s`. */
  function LeadingWord(s: string): (n: nat)
    ensures n <= |s| && NoWhitespace(s[..n])
    ensures n < |s| ==> IsWhitespace(s[n])
    ensures s != [] && !IsWhitespace(s[0]) ==> n > 0
  {
    if s == [] || IsWhitespace(s[0]) then 0 else 1 + LeadingWord(s[1..])
  }

  /** `s` with its trailing whitespace removed (`trim_end`). */
  function TrimEnd(s: string): (t: string)
    ensures t <= s && AllWhitespace(s[|t|..])
    ensures t != [] ==> !IsWhitespace(t[|t| - 1])
  {
    if s == [] || !IsWhitespace(s[|s| - 1]) then s
    else
      var t := TrimEnd(s[..|s| - 1]);
      assert s[|t|..] == s[..|s| - 1][|t|..] + [s[|s| - 1]];
      t
  }

  /** `str::split_whitespace`: the maximal whitespace-free runs, in order. */
  function Words(s: string): (ws: seq<string>)
    ensures forall i :: 0 <= i < |ws| ==> IsWord(ws[i])
    decreases |s|
  {
    var k := LeadingWhitespace(s);
    if k == |s| then []
    else
      var rest := s[k..];
      var n := LeadingWord(rest);
      [rest[..n]] + Words(rest[n..])
  }

  /** First index of `c` in `s`. */
  function IndexOfChar(s: string, c: char): (r: Option<nat>)
    ensures r.Some? ==> r.value < |s| && s[r.value] == c && c !in s[..r.value]
    ensures r.None? ==> c !in s
  {
    if s == [] then None
    else if s[0] == c then Some(0)
    else match IndexOfChar(s[1..], c)
      case None => None
      case Some(i) => assert s[1..][..i] == s[1..i + 1]; Some(i + 1)
  }

  /** A line of `str::lines` without its terminator: one trailing '\r' is dropped. */
  function StripCarriageReturn(l: string): string {
    if l != [] && l[|l| - 1] == '\r' then l[..|l| - 1] else l
  }

  /**
   * `str::lines`: split at every '\n', drop one '\r' before each '\n', and
   * yield no final empty line after a trailing '\n'.
   */
  function Lines(s: string): (ls: seq<string>)
    ensures forall i :: 0 <= i < |ls| ==> '\n' !in ls[i]
    decreases |s|
  {
    if s == [] then []
    else match IndexOfChar(s, '\n')
      case None => [s]
      case Some(i) =>
        assert '\n' !in StripCarriageReturn(s[..i]);
        [StripCarriageReturn(s[..i])] + Lines(s[i + 1..])
  }

  predicate IsQuote(c: char) {
    c == '"' || c == '\''
  }

  /** `starts_with("\"") || starts_with("'")` */
  predicate StartsWithQuote(s: string) {
    s != [] && IsQuote(s[0])
  }

  /** `ends_with("\"") || ends_with("'")` */
  predicate EndsWithQuote(s: string) {
    s != [] && IsQuote(s[|s| - 1])
  }

  /** `s.replace("\"", "").replace("'", "")` */
  function RemoveQuotes(s: string): (r: string)
    ensures forall i :: 0 <= i < |r| ==> !IsQuote(r[i])
    ensures |r| <= |s|
    ensures NoWhitespace(s) ==> NoWhitespace(r)
  {
    if s == [] then []
    else if IsQuote(s[0]) then RemoveQuotes(s[1..])
    else [s[0]] + RemoveQuotes(s[1..])
  }

  /** `pat` occurs in `s` at index `j`. */
  predicate OccursAt(s: string, pat: string, j: nat) {
    j + |pat| <= |s| && s[j..j + |pat|] == pat
  }

  /** First occurrence of `pat` in `s` at or after `i` (`str::find`). */
  function FindFrom(s: string, pat: string, i: nat): (r: Option<nat>)
    requires i <= |s|
    ensures r.Some? ==> i <= r.value && OccursAt(s, pat, r.value)
    ensures r.Some? ==> forall j :: i <= j < r.value ==> !OccursAt(s, pat, j)
    ensures r.None? ==> forall j :: i <= j <= |s| ==> !OccursAt(s, pat, j)
    decreases |s| - i
  {
    if OccursAt(s, pat, i) then Some(i)
    else if i == |s| then None
    else FindFrom(s, pat, i + 1)
  }

  /** `s.replacen(pat, v, 1)`: the first occurrence of `pat` replaced by `v`. */
  function ReplaceFirst(s: string, pat: string, v: string): (r: string)
    ensures FindFrom(s, pat, 0).None? ==> r == s
    ensures FindFrom(s, pat, 0).Some? ==>
      var i := FindFrom(s, pat, 0).value;
      r == s[..i] + v + s[i + |pat|..] && (forall j :: 0 <= j < i ==> !OccursAt(s, pat, j))
  {
    match FindFrom(s, pat, 0)
    case None => s
    case Some(i) => s[..i] + v + s[i + |pat|..]
  }

  /** `xs.join(sep)` */
  function Join(xs: seq<string>, sep: string): string {
    if xs == [] then []
    else if |xs| == 1 then xs[0]
    else xs[0] + sep + Join(xs[1..], sep)
  }

  /** `s.split(c)`: the pieces between the occurrences of `c`, at least one. */
  function Split(s: string, c: char): (ps: seq<string>)
    ensures |ps| >= 1 && forall k :: 0 <= k < |ps| ==> c !in ps[k]
    decreases |s|
  {
    match IndexOfChar(s, c)
    case None => [s]
    case Some(i) => [s[..i]] + Split(s[i + 1..], c)
  }

  /** Joining the pieces with `c` gives back the text. */
  lemma {:induction false} JoinSplit(s: string, c: char)
    ensures Join(Split(s, c), [c]) == s
    decreases |s|
  {
    match IndexOfChar(s, c)
    case None =>
    case Some(i) =>
      var rest := Split(s[i + 1..], c);
      JoinSplit(s[i + 1..], c);
      var ps := [s[..i]] + rest;
      assert ps[0] == s[..i] && ps[1..] == rest && |ps| > 1;
      assert Join(ps, [c]) == s[..i] + [c] + Join(rest, [c]);
      assert s == s[..i] + [c] + s[i + 1..];
  }

  /** Splitting pieces free of `c`, joined with `c`, gives back the pieces. */
  lemma {:induction false} SplitJoin(xs: seq<string>, c: char)
    requires xs != [] && forall k :: 0 <= k < |xs| ==> c !in xs[k]
    ensures Split(Join(xs, [c]), c) == xs
  {
    if |xs| > 1 {
      var rest := Join(xs[1..], [c]);
      var s := xs[0] + [c] + rest;
      assert s[|xs[0]|] == c && s[..|xs[0]|] == xs[0] && s[|xs[0]| + 1..] == rest;
      assert IndexOfChar(s, c) == Some(|xs[0]|) by {
        assert c in s[..|xs[0]| + 1] by { assert s[..|xs[0]| + 1][|xs[0]|] == c; }
      }
      SplitJoin(xs[1..], c);
    }
  }

  /** A lookup table: key and value pairs, searched in order. */
  type Table<V> = seq<(string, V)>

  /** The index of the first entry of `t` whose key is `key`. */
  function FindIndex<V>(t: Table<V>, key: string): (r: Option<nat>)
    ensures r.None? <==> forall i :: 0 <= i < |t| ==> t[i].0 != key
    ensures r.Some? ==> r.value < |t| && t[r.value].0 == key && forall j :: 0 <= j < r.value ==> t[j].0 != key
  {
    if t == [] then None
    else if t[0].0 == key then Some(0)
    else match FindIndex(t[1..], key)
      case None => None
      case Some(i) => Some(i + 1)
  }

  /** `iter().find(|x| x.0 == key).map(|x| x.1)`: the value of the first entry with that key. */
  function Find<V>(t: Table<V>, key: string): (r: Option<V>)
    ensures r.None? <==> forall i :: 0 <= i < |t| ==> t[i].0 != key
    ensures r.Some? ==> exists i :: 0 <= i < |t| && t[i] == (key, r.value) && forall j :: 0 <= j < i ==> t[j].0 != key
  {
    match FindIndex(t, key)
    case None => None
    case Some(i) => Some(t[i].1)
  }

  /** The search looks at the first entry, and past it only on a different key. */
  lemma FindUnfold<V>(t: Table<V>, key: string)
    requires t != []
    ensures Find(t, key) == if t[0].0 == key then Some(t[0].1) else Find(t[1..], key)
  {
    if t[0].0 != key && FindIndex(t[1..], key).Some? {
      assert t[1..][FindIndex(t[1..], key).value] == t[FindIndex(t[1..], key).value + 1];
    }
  }

  function DigitChar(d: nat): (c: char)
    requires d < 10
    ensures '0' <= c <= '9' && (c as int) - ('0' as int) == d
  {
    (('0' as int) + d) as char
  }

  /** The decimal rendering of `n` (`format!("{}", n)`). */
  function NatToString(n: nat): (s: string)
    ensures s != [] && forall i :: 0 <= i < |s| ==> '0' <= s[i] <= '9'
  {
    if n < 10 then [DigitChar(n)] else NatToString(n / 10) + [DigitChar(n % 10)]
  }

  /** Reads a string of decimal digits back as a number. */
  function ParseNat(s: string): nat
    requires forall i :: 0 <= i < |s| ==> '0' <= s[i] <= '9'
  {
    if s == [] then 0 else 10 * ParseNat(s[..|s| - 1]) + ((s[|s| - 1] as int) - ('0' as int))
  }

  /** Decimal rendering loses nothing: the number can be read back. */
  lemma {:induction false} ParseNatToString(n: nat)
    ensures ParseNat(NatToString(n)) == n
  {
    if n >= 10 {
      ParseNatToString(n / 10);
      var s := NatToString(n);
      assert s[..|s| - 1] == NatToString(n / 10);
    }
  }

  /** The order of Rust's `str`: lexicographic by code point, a proper prefix first. */
  predicate Less(a: string, b: string) {
    if a == [] then b != []
    else if b == [] then false
    else if a[0] != b[0] then a[0] < b[0]
    else Less(a[1..], b[1..])
  }

  lemma {:induction false} LessIrreflexive(a: string)
    ensures !Less(a, a)
  {
    if a != [] {
      LessIrreflexive(a[1..]);
    }
  }

  lemma {:induction false} LessTransitive(a: string, b: string, c: string)
    requires Less(a, b) && Less(b, c)
    ensures Less(a, c)
  {
    if a != [] && b != [] && c != [] && a[0] == b[0] && b[0] == c[0] {
      LessTransitive(a[1..], b[1..], c[1..]);
    }
  }

  lemma {:induction false} LessTotal(a: string, b: string)
    requires a != b
    ensures Less(a, b) || Less(b, a)
  {
    if a != [] && b != [] && a[0] == b[0] {
      assert a == [a[0]] + a[1..] && b == [b[0]] + b[1..];
      LessTotal(a[1..], b[1..]);
    }
  }

  lemma {:induction false} LessAsymmetric(a: string, b: string)
    requires Less(a, b)
    ensures !Less(b, a)
  {
    if a != [] && b != [] && a[0] == b[0] {
      LessAsymmetric(a[1..], b[1..]);
    }
  }

  /** `std::cmp::Ordering`. */
  datatype Ordering = LessThan | Equal | GreaterThan

  function Reverse(o: Ordering): Ordering {
    match o
    case LessThan => GreaterThan
    case Equal => Equal
    case GreaterThan => LessThan
  }

  /** `Ord for str`. */
  function CompareStrings(a: string, b: string): Ordering {
    if a == b then Equal else if Less(a, b) then LessThan else GreaterThan
  }

  /** The string order is a total order: equal only on equal strings, and antisymmetric. */
  lemma CompareStringsOrder(a: string, b: string)
    ensures CompareStrings(a, b) == Equal <==> a == b
    ensures CompareStrings(a, b) == Reverse(CompareStrings(b, a))
  {
    if a != b {
      LessTotal(a, b);
      if Less(a, b) {
        LessAsymmetric(a, b);
      } else {
        LessAsymmetric(b, a);
      }
    }
  }

  /** Strictly ascending: sorted and free of duplicates. */
  predicate StrictlyAscending(xs: seq<string>) {
    forall i, j :: 0 <= i < j < |xs| ==> Less(xs[i], xs[j])
  }

  /** Bytes `c` takes in UTF-8, the encoding of Rust's `str`. */
  function Utf8Width(c: char): (n: nat)
    ensures 1 <= n <= 4 && (n == 1 <==> c < '\U{80}')
  {
    if c < '\U{80}' then 1 else if c < '\U{800}' then 2 else if c < '\U{10000}' then 3 else 4
  }

  /** The UTF-8 length of `s`, i.e. Rust's `str::len`. */
  function ByteLen(s: string): nat {
    if s == [] then 0 else ByteLen(s[..|s| - 1]) + Utf8Width(s[|s| - 1])
  }
}
