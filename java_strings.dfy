/**
 * The Java string operations the request handler relies on, stated on `string`: Guava's
 * CharMatcher trims, String.trim, String.compareTo, startsWith/endsWith, the literal
 * search behind String.replace and String.split, and the ASCII part of toUpperCase.
 */
module JavaStrings {
  import opened Wrappers
  import opened Text

  // ----- Character classes -----

  /** CharMatcher.whitespace(): Guava's table of Unicode white space characters. */
  predicate IsWhitespace(c: char) {
    var x := c as int;
    (0x09 <= x <= 0x0D) || x == 0x20 || x == 0x85 || x == 0xA0 || x == 0x1680
    || (0x2000 <= x <= 0x200A) || x == 0x2028 || x == 0x2029 || x == 0x202F
    || x == 0x205F || x == 0x3000
  }

  /** The characters String.trim removes: every code up to and including the space. */
  predicate IsTrimmable(c: char) {
    c as int <= 0x20
  }

  predicate IsNewline(c: char) {
    c == '\n'
  }

  predicate IsQuote(c: char) {
    c == '\''
  }

  // ----- Trimming -----

  /** CharMatcher.trimTrailingFrom: drops the longest suffix made only of matching characters. */
  function TrimTrailing(s: string, strip: char -> bool): (r: string)
    ensures r <= s
    ensures r == [] || !strip(r[|r| - 1])
    ensures forall k | |r| <= k < |s| :: strip(s[k])
    decreases |s|
  {
    if s != [] && strip(s[|s| - 1]) then TrimTrailing(s[..|s| - 1], strip) else s
  }

  /** CharMatcher.trimLeadingFrom: drops the longest prefix made only of matching characters. */
  function TrimLeading(s: string, strip: char -> bool): (r: string)
    ensures |r| <= |s| && r == s[|s| - |r|..]
    ensures r == [] || !strip(r[0])
    ensures forall k | 0 <= k < |s| - |r| :: strip(s[k])
    decreases |s|
  {
    if s != [] && strip(s[0]) then TrimLeading(s[1..], strip) else s
  }

  /**
   * The three properties of TrimTrailing determine its result: any prefix that does not end
   * in a matching character and is followed only by matching ones is the trimmed text.
   */
  lemma TrimTrailingUnique(s: string, strip: char -> bool, p: string)
    requires p <= s
    requires p == [] || !strip(p[|p| - 1])
    requires forall k | |p| <= k < |s| :: strip(s[k])
    ensures TrimTrailing(s, strip) == p
  {
  }

  /** Trimming twice trims nothing more. */
  lemma TrimTrailingIdempotent(s: string, strip: char -> bool)
    ensures TrimTrailing(TrimTrailing(s, strip), strip) == TrimTrailing(s, strip)
  {
    var r := TrimTrailing(s, strip);
    TrimTrailingUnique(r, strip, r);
  }

  /** Appending only matching characters does not change the trimmed text. */
  lemma TrimTrailingAppend(s: string, strip: char -> bool, w: string)
    requires forall k | 0 <= k < |w| :: strip(w[k])
    ensures TrimTrailing(s + w, strip) == TrimTrailing(s, strip)
  {
    var r := TrimTrailing(s, strip);
    assert r <= s + w;
    forall k | |r| <= k < |s + w|
      ensures strip((s + w)[k])
    {
      if k >= |s| {
        assert (s + w)[k] == w[k - |s|];
      }
    }
    TrimTrailingUnique(s + w, strip, r);
  }

  /** The matching run at the end of s: what TrimTrailing removes. */
  function TrailingRun(s: string, strip: char -> bool): (r: string)
    ensures |r| <= |s|
  {
    s[|TrimTrailing(s, strip)|..]
  }

  /** A text splits into its trimmed part and its trailing run, which holds only matching characters. */
  lemma TrailingRunSplit(s: string, strip: char -> bool)
    ensures s == TrimTrailing(s, strip) + TrailingRun(s, strip)
    ensures forall k | 0 <= k < |TrailingRun(s, strip)| :: strip(TrailingRun(s, strip)[k])
  {
    var t := TrimTrailing(s, strip);
    assert s == s[..|t|] + s[|t|..];
    forall k | 0 <= k < |TrailingRun(s, strip)|
      ensures strip(TrailingRun(s, strip)[k])
    {
      assert TrailingRun(s, strip)[k] == s[|t| + k];
    }
  }

  /**
   * The trailing run of p + w, where w is made of matching characters and p does not end in
   * one, is w: the run never reaches back into p.
   */
  lemma TrailingRunOf(p: string, w: string, strip: char -> bool)
    requires p == [] || !strip(p[|p| - 1])
    requires forall k | 0 <= k < |w| :: strip(w[k])
    ensures TrimTrailing(p + w, strip) == p
    ensures TrailingRun(p + w, strip) == w
  {
    forall k | |p| <= k < |p + w|
      ensures strip((p + w)[k])
    {
      assert (p + w)[k] == w[k - |p|];
    }
    TrimTrailingUnique(p + w, strip, p);
    assert (p + w)[|p|..] == w;
  }

  /** CharMatcher.is('\'') trimmed from both ends, leading side first. */
  function TrimQuotes(t: string): string {
    TrimTrailing(TrimLeading(t, IsQuote), IsQuote)
  }

  /** TrimQuotes keeps a contiguous middle part of the token: only quotes are removed, from either end. */
  lemma TrimQuotesInfix(t: string)
    ensures var r, i := TrimQuotes(t), |t| - |TrimLeading(t, IsQuote)|;
      i + |r| <= |t| && r == t[i..i + |r|]
      && (forall k | 0 <= k < i :: t[k] == '\'')
      && (forall k | i + |r| <= k < |t| :: t[k] == '\'')
  {
    var l := TrimLeading(t, IsQuote);
    var r := TrimTrailing(l, IsQuote);
    var i := |t| - |l|;
    assert l == t[i..];
    assert r == l[..|r|];
    assert r == t[i..i + |r|];
    forall k | 0 <= k < i
      ensures t[k] == '\''
    {
      assert IsQuote(t[k]);
    }
    forall k | i + |r| <= k < |t|
      ensures t[k] == '\''
    {
      assert t[k] == l[k - i];
      assert IsQuote(l[k - i]);
    }
  }

  /** The part TrimQuotes keeps neither starts nor ends with a quote. */
  lemma TrimQuotesEnds(t: string)
    ensures var r := TrimQuotes(t); r == [] || (r[0] != '\'' && r[|r| - 1] != '\'')
  {
    var l := TrimLeading(t, IsQuote);
    var r := TrimTrailing(l, IsQuote);
    if r != [] {
      assert r[0] == l[0] && !IsQuote(l[0]);
      assert !IsQuote(r[|r| - 1]);
    }
  }

  /** String.trim: code points up to the space removed from both ends. */
  function JavaTrim(s: string): string {
    TrimTrailing(TrimLeading(s, IsTrimmable), IsTrimmable)
  }

  // ----- Prefixes, suffixes and case -----

  predicate StartsWith(s: string, prefix: string) {
    prefix <= s
  }

  predicate EndsWith(s: string, suffix: string) {
    |suffix| <= |s| && s[|s| - |suffix|..] == suffix
  }

  /** toUpperCase on the ASCII letters; every other character is kept. */
  function UpperAscii(c: char): (u: char)
    ensures 'a' <= c <= 'z' ==> 'A' <= u <= 'Z'
    ensures !('a' <= c <= 'z') ==> u == c
  {
    if 'a' <= c <= 'z' then (c as int - 32) as char else c
  }

  function ToUpperCase(s: string): (r: string)
    ensures |r| == |s|
    ensures forall k | 0 <= k < |s| :: r[k] == UpperAscii(s[k])
  {
    seq(|s|, k requires 0 <= k < |s| => UpperAscii(s[k]))
  }

  /** Equality when ASCII letters are compared without case, as a CASE_INSENSITIVE pattern compares them. */
  predicate EqualsIgnoreCase(s: string, word: string) {
    |s| == |word| && forall k | 0 <= k < |s| :: UpperAscii(s[k]) == UpperAscii(word[k])
  }

  // ----- Literal search -----

  /** pat occurs in s at index j. */
  predicate OccursAt(s: string, pat: string, j: int) {
    0 <= j && j + |pat| <= |s| && s[j..j + |pat|] == pat
  }

  /** String.indexOf(pat, from): the first occurrence at or after from. */
  function IndexOf(s: string, pat: string, from: nat): (r: Option<nat>)
    ensures r.Some? ==> from <= r.value && OccursAt(s, pat, r.value)
    ensures r.Some? ==> forall j | from <= j < r.value :: !OccursAt(s, pat, j)
    ensures r.None? ==> forall j | from <= j :: !OccursAt(s, pat, j)
    decreases |s| - from
  {
    if from + |pat| > |s| then None
    else if OccursAt(s, pat, from) then Some(from)
    else IndexOf(s, pat, from + 1)
  }

  /** String.lastIndexOf(pat): the last occurrence. */
  function LastIndexOf(s: string, pat: string): (r: Option<nat>)
    ensures r.Some? ==> OccursAt(s, pat, r.value)
    ensures r.Some? ==> forall j | r.value < j :: !OccursAt(s, pat, j)
    ensures r.None? ==> forall j :: !OccursAt(s, pat, j)
  {
    if |pat| > |s| then None else LastIndexOfBelow(s, pat, |s| - |pat|)
  }

  /** The last occurrence at or before the index hi, when there is none after hi. */
  function LastIndexOfBelow(s: string, pat: string, hi: nat): (r: Option<nat>)
    requires hi + |pat| <= |s|
    requires forall j | hi < j :: !OccursAt(s, pat, j)
    ensures r.Some? ==> r.value <= hi && OccursAt(s, pat, r.value)
    ensures r.Some? ==> forall j | r.value < j :: !OccursAt(s, pat, j)
    ensures r.None? ==> forall j :: !OccursAt(s, pat, j)
    decreases hi
  {
    if OccursAt(s, pat, hi) then Some(hi)
    else if hi == 0 then None
    else LastIndexOfBelow(s, pat, hi - 1)
  }

  /**
   * String.replace(pat, ""): every occurrence of pat removed, scanning left to right without
   * overlaps.
   */
  function RemoveAll(s: string, pat: string): (r: string)
    requires pat != []
    ensures |r| <= |s|
    decreases |s|
  {
    match IndexOf(s, pat, 0)
    case None => s
    case Some(i) => s[..i] + RemoveAll(s[i + |pat|..], pat)
  }

  /** A text that starts with pat loses that occurrence first. */
  lemma RemoveAllLeading(s: string, pat: string)
    requires pat != [] && StartsWith(s, pat)
    ensures RemoveAll(s, pat) == RemoveAll(s[|pat|..], pat)
  {
    assert OccursAt(s, pat, 0);
    assert IndexOf(s, pat, 0) == Some(0);
  }

  /** A text without pat is left as it is. */
  lemma RemoveAllAbsent(s: string, pat: string)
    requires pat != []
    requires forall j :: !OccursAt(s, pat, j)
    ensures RemoveAll(s, pat) == s
  {
  }

  /** The pieces between the occurrences of sep, scanning left to right; at least one piece. */
  function SplitPieces(s: string, sep: string): (r: seq<string>)
    requires sep != []
    ensures |r| >= 1
    decreases |s|
  {
    match IndexOf(s, sep, 0)
    case None => [s]
    case Some(i) => [s[..i]] + SplitPieces(s[i + |sep|..], sep)
  }

  /** Joining the pieces back with the separator gives the text again. */
  lemma {:induction false} SplitPiecesJoin(s: string, sep: string)
    requires sep != []
    ensures JoinWith(SplitPieces(s, sep), sep) == s
    decreases |s|
  {
    match IndexOf(s, sep, 0)
    case None =>
    case Some(i) =>
      var rest := s[i + |sep|..];
      var pieces := SplitPieces(rest, sep);
      assert SplitPieces(s, sep) == [s[..i]] + pieces;
      SplitPiecesJoin(rest, sep);
      RejoinAt(s, sep, i, pieces);
  }

  /** A text is its part before an occurrence of sep, sep, and the rest. */
  lemma RejoinAt(s: string, sep: string, i: nat, pieces: seq<string>)
    requires OccursAt(s, sep, i) && pieces != [] && JoinWith(pieces, sep) == s[i + |sep|..]
    ensures JoinWith([s[..i]] + pieces, sep) == s
  {
    JoinWithCons(s[..i], pieces, sep);
    SplitAt(s, sep, i);
  }

  /** An occurrence of sep cuts a text into the part before it, sep, and the rest. */
  lemma SplitAt(s: string, sep: string, i: nat)
    requires OccursAt(s, sep, i)
    ensures s[..i] + sep + s[i + |sep|..] == s
  {
    assert s == s[..i] + s[i..i + |sep|] + s[i + |sep|..];
  }

  /** No piece contains the separator. */
  lemma {:induction false} SplitPiecesFree(s: string, sep: string)
    requires sep != []
    ensures forall p, j | p in SplitPieces(s, sep) :: !OccursAt(p, sep, j)
    decreases |s|
  {
    match IndexOf(s, sep, 0)
    case None =>
    case Some(i) =>
      var rest := s[i + |sep|..];
      SplitPiecesFree(rest, sep);
      forall j | OccursAt(s[..i], sep, j)
        ensures false
      {
        assert s[..i][j..j + |sep|] == s[j..j + |sep|];
        assert OccursAt(s, sep, j);
      }
  }

  /** Drops the empty strings at the end of a list. */
  function DropTrailingEmpty(ps: seq<string>): (r: seq<string>)
    ensures r <= ps
    ensures r == [] || r[|r| - 1] != []
    ensures forall k | |r| <= k < |ps| :: ps[k] == []
    decreases |ps|
  {
    if ps != [] && ps[|ps| - 1] == [] then DropTrailingEmpty(ps[..|ps| - 1]) else ps
  }

  /**
   * String.split(sep) for a separator without regular-expression metacharacters: a text
   * without the separator is returned whole (even when empty); otherwise the pieces, with
   * the empty pieces at the end dropped.
   */
  function Split(s: string, sep: string): (r: seq<string>)
    requires sep != []
  {
    var pieces := SplitPieces(s, sep);
    if |pieces| == 1 then pieces else DropTrailingEmpty(pieces)
  }

  /** Split returns a prefix of the pieces, losing only empty ones, so rejoining recovers a prefix of s. */
  lemma SplitSpec(s: string, sep: string)
    requires sep != []
    ensures Split(s, sep) <= SplitPieces(s, sep)
    ensures forall k | |Split(s, sep)| <= k < |SplitPieces(s, sep)| :: SplitPieces(s, sep)[k] == []
    ensures (forall j :: !OccursAt(s, sep, j)) ==> Split(s, sep) == [s]
  {
  }

  // ----- Comparison -----

  /** String.compareTo: the first differing character decides, else the shorter text is smaller. */
  function CompareTo(a: string, b: string): int {
    if a == [] || b == [] then |a| - |b|
    else if a[0] != b[0] then a[0] as int - b[0] as int
    else CompareTo(a[1..], b[1..])
  }

  /** compareTo is antisymmetric. */
  lemma {:induction false} CompareToAntisymmetric(a: string, b: string)
    ensures CompareTo(a, b) == -CompareTo(b, a)
    decreases |a|
  {
    if a != [] && b != [] && a[0] == b[0] {
      CompareToAntisymmetric(a[1..], b[1..]);
    }
  }

  /** compareTo is zero exactly for equal texts. */
  lemma {:induction false} CompareToZero(a: string, b: string)
    ensures CompareTo(a, b) == 0 <==> a == b
    decreases |a|
  {
    if a != [] && b != [] && a[0] == b[0] {
      CompareToZero(a[1..], b[1..]);
      assert a == [a[0]] + a[1..] && b == [b[0]] + b[1..];
    }
  }

  /** "at most" under compareTo is transitive. */
  lemma {:induction false} CompareToTransitive(a: string, b: string, c: string)
    requires CompareTo(a, b) <= 0 && CompareTo(b, c) <= 0
    ensures CompareTo(a, c) <= 0
    decreases |a|
  {
    if a != [] && b != [] && c != [] && a[0] == b[0] && b[0] == c[0] {
      CompareToTransitive(a[1..], b[1..], c[1..]);
    }
  }
}
