/**
 * The request handler around the formatter (Main.java): trimming the incoming SQL, finishing
 * the formatted text with one newline, and the completion suggestions derived from a parse
 * error message or from the text of a statement that parsed.
 */
module RequestHelpers {
  import opened Wrappers
  import opened Text
  import opened Ast
  import opened Formatting
  import opened SqlFormatting
  import opened JavaStrings

  /** The tables the handler offers after FROM or JOIN. */
  const KnownTables: seq<string> := ["profiles", "events", "orders", "carts", "returns"]

  /** The columns offered after `events.`. */
  const EventColumns: seq<string> := ["id", "type", "event_time"]

  // ----- Incoming SQL and outgoing text -----

  predicate IsSemicolonOrWhitespace(c: char) {
    IsWhitespace(c) || c == ';'
  }

  /** stripSemicolon: trailing white space and semicolons removed, in any mix. */
  function StripSemicolon(sql: string): string {
    TrimTrailing(sql, IsSemicolonOrWhitespace)
  }

  /**
   * StripSemicolon removes exactly the longest trailing run of white space and semicolons:
   * it keeps a prefix, what it removes is all white space or ';', what it keeps does not end
   * in either, and a second application changes nothing.
   */
  lemma StripSemicolonSpec(sql: string)
    ensures StripSemicolon(sql) <= sql
    ensures forall k | |StripSemicolon(sql)| <= k < |sql| :: IsWhitespace(sql[k]) || sql[k] == ';'
    ensures var r := StripSemicolon(sql); r == [] || !(IsWhitespace(r[|r| - 1]) || r[|r| - 1] == ';')
    ensures StripSemicolon(StripSemicolon(sql)) == StripSemicolon(sql)
  {
    var r := StripSemicolon(sql);
    forall k | |r| <= k < |sql|
      ensures IsWhitespace(sql[k]) || sql[k] == ';'
    {
      assert IsSemicolonOrWhitespace(sql[k]);
    }
    if r != [] {
      assert !IsSemicolonOrWhitespace(r[|r| - 1]);
    }
    TrimTrailingIdempotent(sql, IsSemicolonOrWhitespace);
  }

  /** Any run of semicolons and white space after a statement is removed whole. */
  lemma StripSemicolonRun(body: string, run: string)
    requires body == [] || !(IsWhitespace(body[|body| - 1]) || body[|body| - 1] == ';')
    requires forall k | 0 <= k < |run| :: IsWhitespace(run[k]) || run[k] == ';'
    ensures StripSemicolon(body + run) == body
  {
    forall k | 0 <= k < |run|
      ensures IsSemicolonOrWhitespace(run[k])
    {
    }
    TrailingRunOf(body, run, IsSemicolonOrWhitespace);
  }

  /** The newline handling of formatSql: trailing newlines trimmed, then one appended. */
  function FinishOutput(formatted: string): string {
    TrimTrailing(formatted, IsNewline) + "\n"
  }

  /**
   * The finished text ends in exactly one newline; apart from it, it is the formatted text
   * without its trailing newlines; finishing it again changes nothing.
   */
  lemma FinishOutputOneNewline(formatted: string)
    ensures EndsWith(FinishOutput(formatted), "\n")
    ensures !EndsWith(FinishOutput(formatted), "\n\n")
    ensures var r := FinishOutput(formatted); r[..|r| - 1] <= formatted
    ensures var r := FinishOutput(formatted);
      forall k | |r| - 1 <= k < |formatted| :: formatted[k] == '\n'
    ensures FinishOutput(FinishOutput(formatted)) == FinishOutput(formatted)
  {
    var t := TrimTrailing(formatted, IsNewline);
    var r := FinishOutput(formatted);
    assert r[..|r| - 1] == t;
    forall k | |t| <= k < |formatted|
      ensures formatted[k] == '\n'
    {
      assert IsNewline(formatted[k]);
    }
    TrimTrailingAppend(t, IsNewline, "\n");
    TrimTrailingIdempotent(formatted, IsNewline);
  }

  /** formatSql of the handler: the formatter's text for a statement, finished with one newline. */
  function FormattedStatement(statement: Statement): (r: Result<string, FormatError>) {
    var text :- FormatSqlText(StatementRoot(statement));
    Success(FinishOutput(text))
  }

  /** The handler fails exactly when the formatter does, and its text ends in a single newline. */
  lemma FormattedStatementSpec(statement: Statement)
    ensures FormattedStatement(statement).Success? <==> FormatSqlText(StatementRoot(statement)).Success?
    ensures FormattedStatement(statement).Failure? ==>
      FormattedStatement(statement).error == FormatSqlText(StatementRoot(statement)).error
    ensures FormattedStatement(statement).Success? ==>
      EndsWith(FormattedStatement(statement).value, "\n")
      && !EndsWith(FormattedStatement(statement).value, "\n\n")
  {
    var text := FormatSqlText(StatementRoot(statement));
    if text.Success? {
      FinishOutputOneNewline(text.value);
    }
  }

  // ----- Ordering of the expected tokens -----

  predicate StartsWithAngle(t: string) {
    StartsWith(t, "<")
  }

  /** The comparator of both suggestion paths: `<...>` tokens first, then compareTo. */
  function CompareTokens(t1: string, t2: string): int {
    if StartsWithAngle(t1) && !StartsWithAngle(t2) then -1
    else if !StartsWithAngle(t1) && StartsWithAngle(t2) then 1
    else CompareTo(t1, t2)
  }

  predicate TokenLe(t1: string, t2: string) {
    CompareTokens(t1, t2) <= 0
  }

  /** The comparator orders every pair, and only equal tokens compare equal. */
  lemma TokenOrderTotal(a: string, b: string)
    ensures TokenLe(a, b) || TokenLe(b, a)
    ensures TokenLe(a, b) && TokenLe(b, a) ==> a == b
  {
    CompareToAntisymmetric(a, b);
    CompareToZero(a, b);
  }

  /** The comparator is transitive. */
  lemma TokenOrderTransitive(a: string, b: string, c: string)
    requires TokenLe(a, b) && TokenLe(b, c)
    ensures TokenLe(a, c)
  {
    if StartsWithAngle(a) == StartsWithAngle(b) && StartsWithAngle(b) == StartsWithAngle(c) {
      CompareToTransitive(a, b, c);
    }
  }

  predicate SortedTokens(ts: seq<string>) {
    forall i, j | 0 <= i < j < |ts| :: TokenLe(ts[i], ts[j])
  }

  /** One token put before the first token it does not follow. */
  function Insert(t: string, ts: seq<string>): (r: seq<string>)
    ensures multiset(r) == multiset(ts) + multiset{t}
    decreases |ts|
  {
    if ts == [] then [t]
    else if TokenLe(t, ts[0]) then [t] + ts
    else
      assert ts == [ts[0]] + ts[1..];
      [ts[0]] + Insert(t, ts[1..])
  }

  /** Inserting into a sorted list keeps it sorted. */
  lemma {:induction false} InsertSorted(t: string, ts: seq<string>)
    requires SortedTokens(ts)
    ensures SortedTokens(Insert(t, ts))
    decreases |ts|
  {
    if ts == [] {
    } else if TokenLe(t, ts[0]) {
      forall j | 1 <= j < |ts|
        ensures TokenLe(t, ts[j])
      {
        TokenOrderTransitive(t, ts[0], ts[j]);
      }
    } else {
      var rest := Insert(t, ts[1..]);
      InsertSorted(t, ts[1..]);
      TokenOrderTotal(t, ts[0]);
      forall j | 0 <= j < |rest|
        ensures TokenLe(ts[0], rest[j])
      {
        assert rest[j] in multiset(rest);
        if rest[j] != t {
          assert rest[j] in multiset(ts[1..]);
          var k :| 0 <= k < |ts| - 1 && ts[1..][k] == rest[j];
          assert ts[k + 1] == rest[j];
        }
      }
      assert Insert(t, ts) == [ts[0]] + rest;
    }
  }

  /** Stream.sorted with the token comparator: a sorted permutation of the tokens. */
  function SortTokens(ts: seq<string>): (r: seq<string>)
    ensures multiset(r) == multiset(ts)
    ensures SortedTokens(r)
    decreases |ts|
  {
    if ts == [] then []
    else
      var rest := SortTokens(ts[1..]);
      InsertSorted(ts[0], rest);
      assert ts == [ts[0]] + ts[1..];
      Insert(ts[0], rest)
  }

  /**
   * A sorted permutation is unique, so SortTokens gives the same list as the stable sort
   * of the library, whatever algorithm it uses.
   */
  lemma {:induction false} SortedUnique(a: seq<string>, b: seq<string>)
    requires SortedTokens(a) && SortedTokens(b) && multiset(a) == multiset(b)
    ensures a == b
    decreases |a|
  {
    assert |a| == |multiset(a)| == |multiset(b)| == |b|;
    if a != [] {
      assert a[0] in multiset(b) && b[0] in multiset(a);
      var i :| 0 <= i < |b| && b[i] == a[0];
      var j :| 0 <= j < |a| && a[j] == b[0];
      if i > 0 {
        assert TokenLe(b[0], b[i]);
      } else {
        CompareToZero(a[0], a[0]);
      }
      if j > 0 {
        assert TokenLe(a[0], a[j]);
      } else {
        CompareToZero(b[0], b[0]);
      }
      TokenOrderTotal(a[0], b[0]);
      assert a == [a[0]] + a[1..] && b == [b[0]] + b[1..];
      assert multiset(a) == multiset{a[0]} + multiset(a[1..]);
      assert multiset(b) == multiset{b[0]} + multiset(b[1..]);
      forall x
        ensures multiset(a[1..])[x] == multiset(b[1..])[x]
      {
        assert multiset(a)[x] == multiset(b)[x];
      }
      assert multiset(a[1..]) == multiset(b[1..]);
      assert SortedTokens(a[1..]) && SortedTokens(b[1..]);
      SortedUnique(a[1..], b[1..]);
    }
  }

  /**
   * In sorted order every `<...>` token comes before every other token, and within each
   * group the tokens follow compareTo.
   */
  lemma SortTokensGroups(ts: seq<string>)
    ensures var r := SortTokens(ts);
      forall i, j | 0 <= i < j < |r| :: StartsWithAngle(r[j]) ==> StartsWithAngle(r[i])
    ensures var r := SortTokens(ts);
      forall i, j | 0 <= i < j < |r| && StartsWithAngle(r[i]) == StartsWithAngle(r[j]) ::
        CompareTo(r[i], r[j]) <= 0
  {
    var r := SortTokens(ts);
    forall i, j | 0 <= i < j < |r|
      ensures StartsWithAngle(r[j]) ==> StartsWithAngle(r[i])
    {
      assert TokenLe(r[i], r[j]);
    }
  }

  // ----- Expansion and quote trimming -----

  /** Stream.flatMap that replaces every occurrence of target by the replacement tokens. */
  function Expand(ts: seq<string>, target: string, replacement: seq<string>): seq<string>
    decreases |ts|
  {
    if ts == [] then []
    else
      var last := ts[|ts| - 1];
      Expand(ts[..|ts| - 1], target, replacement) + (if last == target then replacement else [last])
  }

  /** Expansion works token by token, in place: it distributes over concatenation. */
  lemma {:induction false} ExpandAppend(a: seq<string>, b: seq<string>, target: string, replacement: seq<string>)
    ensures Expand(a + b, target, replacement) == Expand(a, target, replacement) + Expand(b, target, replacement)
    decreases |b|
  {
    if b != [] {
      var init := b[..|b| - 1];
      var tail := if b[|b| - 1] == target then replacement else [b[|b| - 1]];
      ExpandAppend(a, init, target, replacement);
      assert (a + b)[..|a + b| - 1] == a + init;
      assert (a + b)[|a + b| - 1] == b[|b| - 1];
      assert Expand(a + b, target, replacement) == Expand(a + init, target, replacement) + tail;
      assert Expand(b, target, replacement) == Expand(init, target, replacement) + tail;
      AppendAssoc(Expand(a, target, replacement), Expand(init, target, replacement), tail);
    } else {
      assert a + b == a;
    }
  }

  /**
   * The expanded list holds the tokens other than target, and the replacement tokens when
   * target occurs, and nothing else.
   */
  lemma {:induction false} ExpandMembers(ts: seq<string>, target: string, replacement: seq<string>, x: string)
    ensures x in Expand(ts, target, replacement) <==>
      (x in ts && x != target) || (target in ts && x in replacement)
    decreases |ts|
  {
    if ts != [] {
      var init := ts[..|ts| - 1];
      ExpandMembers(init, target, replacement, x);
      assert ts == init + [ts[|ts| - 1]];
    }
  }

  /** Without target the list is unchanged. */
  lemma {:induction false} ExpandAbsent(ts: seq<string>, target: string, replacement: seq<string>)
    requires target !in ts
    ensures Expand(ts, target, replacement) == ts
    decreases |ts|
  {
    if ts != [] {
      ExpandAbsent(ts[..|ts| - 1], target, replacement);
      assert ts == ts[..|ts| - 1] + [ts[|ts| - 1]];
    }
  }

  /** The map step of both paths: quotes trimmed from every token. */
  function TrimAll(ts: seq<string>): seq<string> {
    seq(|ts|, k requires 0 <= k < |ts| => TrimQuotes(ts[k]))
  }

  /** A token without quotes at its ends is left as it is. */
  lemma TrimQuotesUnquoted(t: string)
    requires t == [] || (t[0] != '\'' && t[|t| - 1] != '\'')
    ensures TrimQuotes(t) == t
  {
    TrimTrailingUnique(t, IsQuote, t);
  }

  /** Tokens without quotes at their ends are all left as they are. */
  lemma TrimAllUnquoted(ts: seq<string>)
    requires forall k | 0 <= k < |ts| :: ts[k] == [] || (ts[k][0] != '\'' && ts[k][|ts[k]| - 1] != '\'')
    ensures TrimAll(ts) == ts
  {
    forall k | 0 <= k < |ts|
      ensures TrimAll(ts)[k] == ts[k]
    {
      TrimQuotesUnquoted(ts[k]);
    }
  }

  // ----- Suggestions from a parse error -----

  /** suggestionsFromMismatchedInputError after the tokens are split out of the message. */
  function MismatchedSuggestions(tokens: seq<string>): seq<string> {
    TrimAll(Expand(SortTokens(tokens), "<query>", ["SELECT", "WITH"]))
  }

  /** Every expected token is offered without its quotes, and `<query>` as SELECT and WITH. */
  lemma MismatchedOffersEveryToken(tokens: seq<string>)
    ensures forall t | t in tokens && t != "<query>" :: TrimQuotes(t) in MismatchedSuggestions(tokens)
    ensures "<query>" in tokens ==>
      "SELECT" in MismatchedSuggestions(tokens) && "WITH" in MismatchedSuggestions(tokens)
  {
    var sorted := SortTokens(tokens);
    var expanded := Expand(sorted, "<query>", ["SELECT", "WITH"]);
    var r := MismatchedSuggestions(tokens);
    forall t | t in tokens && t != "<query>"
      ensures TrimQuotes(t) in r
    {
      assert t in multiset(sorted);
      ExpandMembers(sorted, "<query>", ["SELECT", "WITH"], t);
      var k :| 0 <= k < |expanded| && expanded[k] == t;
      assert r[k] == TrimQuotes(t);
    }
    if "<query>" in tokens {
      assert "<query>" in multiset(sorted);
      ExpandMembers(sorted, "<query>", ["SELECT", "WITH"], "SELECT");
      ExpandMembers(sorted, "<query>", ["SELECT", "WITH"], "WITH");
      var i :| 0 <= i < |expanded| && expanded[i] == "SELECT";
      var j :| 0 <= j < |expanded| && expanded[j] == "WITH";
      TrimQuotesUnquoted("SELECT");
      TrimQuotesUnquoted("WITH");
      assert r[i] == "SELECT" && r[j] == "WITH";
    }
  }

  /**
   * Nothing but the expected tokens and SELECT and WITH is offered, and no suggestion starts
   * or ends with a quote.
   */
  lemma MismatchedOffersNothingElse(tokens: seq<string>)
    ensures forall x | x in MismatchedSuggestions(tokens) ::
      x == "SELECT" || x == "WITH" || exists t | t in tokens && t != "<query>" :: x == TrimQuotes(t)
    ensures forall x | x in MismatchedSuggestions(tokens) :: x == [] || (x[0] != '\'' && x[|x| - 1] != '\'')
  {
    var sorted := SortTokens(tokens);
    var expanded := Expand(sorted, "<query>", ["SELECT", "WITH"]);
    var r := MismatchedSuggestions(tokens);
    TrimQuotesUnquoted("SELECT");
    TrimQuotesUnquoted("WITH");
    forall x | x in r
      ensures x == "SELECT" || x == "WITH" || exists t | t in tokens && t != "<query>" :: x == TrimQuotes(t)
      ensures x == [] || (x[0] != '\'' && x[|x| - 1] != '\'')
    {
      var k :| 0 <= k < |r| && r[k] == x;
      ExpandedTokenOrigin(tokens, expanded[k]);
      TrimQuotesEnds(expanded[k]);
    }
  }

  /** A token of the expanded list is SELECT, WITH, or an expected token other than `<query>`. */
  lemma ExpandedTokenOrigin(tokens: seq<string>, e: string)
    requires e in Expand(SortTokens(tokens), "<query>", ["SELECT", "WITH"])
    ensures e == "SELECT" || e == "WITH" || (e in tokens && e != "<query>")
    ensures TrimQuotes(e) == "SELECT" || TrimQuotes(e) == "WITH" || exists t | t in tokens && t != "<query>" :: TrimQuotes(e) == TrimQuotes(t)
  {
    var sorted := SortTokens(tokens);
    ExpandMembers(sorted, "<query>", ["SELECT", "WITH"], e);
    if e in sorted && e != "<query>" {
      assert e in multiset(sorted);
    } else {
      TrimQuotesUnquoted("SELECT");
      TrimQuotesUnquoted("WITH");
    }
  }

  /** The upper-cased, trimmed SQL ends in FROM or JOIN. */
  predicate AfterFromOrJoin(sql: string) {
    var u := ToUpperCase(JavaTrim(sql));
    EndsWith(u, "FROM") || EndsWith(u, "JOIN")
  }

  /**
   * suggestionsFromEofError after the tokens are split out of the message: sorted, quotes
   * trimmed, and `<identifier>` replaced by the known tables when the SQL ends in FROM or
   * JOIN (the condition does not depend on the token, so the flatMap keeps it as it is
   * otherwise).
   */
  function EofSuggestions(tokens: seq<string>, sql: string): seq<string> {
    Expand(TrimAll(SortTokens(tokens)), "<identifier>",
      if AfterFromOrJoin(sql) then KnownTables else ["<identifier>"])
  }

  /**
   * The `<identifier>` rule: after FROM or JOIN an expected identifier becomes every known
   * table and is not offered itself; elsewhere the suggestions are the sorted tokens without
   * their quotes, nothing added.
   */
  lemma EofIdentifierRule(tokens: seq<string>, sql: string)
    ensures AfterFromOrJoin(sql) && "<identifier>" in TrimAll(SortTokens(tokens)) ==>
      forall k | 0 <= k < |KnownTables| :: KnownTables[k] in EofSuggestions(tokens, sql)
    ensures AfterFromOrJoin(sql) ==> "<identifier>" !in EofSuggestions(tokens, sql)
    ensures !AfterFromOrJoin(sql) ==> EofSuggestions(tokens, sql) == TrimAll(SortTokens(tokens))
  {
    var trimmed := TrimAll(SortTokens(tokens));
    if AfterFromOrJoin(sql) {
      forall k | 0 <= k < |KnownTables|
        ensures "<identifier>" in trimmed ==> KnownTables[k] in EofSuggestions(tokens, sql)
      {
        ExpandMembers(trimmed, "<identifier>", KnownTables, KnownTables[k]);
      }
      ExpandMembers(trimmed, "<identifier>", KnownTables, "<identifier>");
    } else {
      ExpandIdentity(trimmed, "<identifier>");
    }
  }

  /** Replacing a token by itself changes nothing. */
  lemma {:induction false} ExpandIdentity(ts: seq<string>, target: string)
    ensures Expand(ts, target, [target]) == ts
    decreases |ts|
  {
    if ts != [] {
      ExpandIdentity(ts[..|ts| - 1], target);
      assert ts == ts[..|ts| - 1] + [ts[|ts| - 1]];
    }
  }

  /** The start of a message about input that ended early. */
  const EofPrefix := "mismatched input '<EOF>'. Expecting: "

  /** The start of a message about a mismatched token. */
  const MismatchedHead := "mismatched input '"

  /** The text between the offending token and the expected ones. */
  const ExpectingMark := "'. Expecting: "

  /** The characters `.` does not match in a Java regular expression. */
  predicate IsLineTerminator(c: char) {
    c == '\n' || c == '\r' || c as int == 0x85 || c as int == 0x2028 || c as int == 0x2029
  }

  predicate NoLineTerminator(s: string) {
    forall k | 0 <= k < |s| :: !IsLineTerminator(s[k])
  }

  /**
   * The message matches `^mismatched input '.*'\. Expecting: .+`: after the head, a line
   * without terminators holding the mark with at least one character after it.
   */
  predicate MatchesMismatched(message: string) {
    StartsWith(message, MismatchedHead)
    && var tail := message[|MismatchedHead|..];
    NoLineTerminator(tail) && tail != [] && LastIndexOf(tail[..|tail| - 1], ExpectingMark).Some?
  }

  /** An occurrence in a prefix is an occurrence in the whole text. */
  lemma OccursInPrefix(s: string, n: nat, pat: string, j: int)
    requires n <= |s| && OccursAt(s[..n], pat, j)
    ensures OccursAt(s, pat, j)
  {
    assert s[..n][j..j + |pat|] == s[j..j + |pat|];
  }

  /**
   * The expected tokens of a mismatched-input message: the greedy `.*` of replaceFirst
   * stops at the last mark, and the rest is split at ", ".
   */
  function MismatchedExpecting(message: string): seq<string>
    requires MatchesMismatched(message)
  {
    var tail := message[|MismatchedHead|..];
    OccursInPrefix(tail, |tail| - 1, ExpectingMark, LastIndexOf(tail[..|tail| - 1], ExpectingMark).value);
    var j := LastIndexOf(tail, ExpectingMark).value;
    Split(tail[j + |ExpectingMark|..], ", ")
  }

  /** The expected tokens of an end-of-input message: the prefix removed, the rest split at ", ". */
  function EofExpecting(message: string): seq<string> {
    Split(RemoveAll(message, EofPrefix), ", ")
  }

  /** suggestionsFromParsingException: the end-of-input path first, then the mismatched path, else none. */
  function ParsingExceptionSuggestions(message: string, sql: string): seq<string> {
    if StartsWith(message, EofPrefix) then EofSuggestions(EofExpecting(message), sql)
    else if MatchesMismatched(message) then MismatchedSuggestions(MismatchedExpecting(message))
    else []
  }

  /** A message of neither shape gives no suggestions. */
  lemma OtherMessagesSuggestNothing(message: string, sql: string)
    requires !StartsWith(message, EofPrefix) && !StartsWith(message, MismatchedHead)
    ensures ParsingExceptionSuggestions(message, sql) == []
  {
  }

  /** A text without the first character of pat does not contain pat. */
  lemma AbsentWithoutFirst(s: string, pat: string)
    requires pat != [] && pat[0] !in s
    ensures forall j :: !OccursAt(s, pat, j)
  {
  }

  /**
   * A mismatched-input message whose expected part does not contain the mark again yields
   * the suggestions of exactly that part, split at ", ".
   */
  lemma MismatchedMessage(offending: string, expected: string, sql: string)
    requires NoLineTerminator(offending) && NoLineTerminator(expected) && expected != []
    requires forall j :: !OccursAt(expected, ExpectingMark, j)
    requires !StartsWith(MismatchedHead + offending + ExpectingMark + expected, EofPrefix)
    ensures ParsingExceptionSuggestions(MismatchedHead + offending + ExpectingMark + expected, sql)
      == MismatchedSuggestions(Split(expected, ", "))
  {
    var message := MismatchedHead + offending + ExpectingMark + expected;
    var tail := offending + ExpectingMark + expected;
    assert message[|MismatchedHead|..] == tail by {
      assert message == MismatchedHead + tail;
    }
    MismatchedTail(offending, expected);
    assert MatchesMismatched(message);
    assert MismatchedExpecting(message) == Split(expected, ", ");
  }

  /**
   * What follows the head of such a message: one line, whose last mark (also before its last
   * character) is the one after the offending part, followed by the expected part.
   */
  lemma MismatchedTail(offending: string, expected: string)
    requires NoLineTerminator(offending) && NoLineTerminator(expected) && expected != []
    requires forall j :: !OccursAt(expected, ExpectingMark, j)
    ensures var tail := offending + ExpectingMark + expected;
      && NoLineTerminator(tail) && tail != []
      && LastIndexOf(tail[..|tail| - 1], ExpectingMark).Some?
      && LastIndexOf(tail, ExpectingMark) == Some(|offending|)
      && tail[|offending| + |ExpectingMark|..] == expected
  {
    var tail := offending + ExpectingMark + expected;
    var i := |offending|;
    MarkTailFree(offending, expected);
    LastMarkAt(offending, expected);
    assert OccursAt(tail[..|tail| - 1], ExpectingMark, i) by {
      assert tail[i..i + |ExpectingMark|] == ExpectingMark;
      assert tail[..|tail| - 1][i..i + |ExpectingMark|] == tail[i..i + |ExpectingMark|];
    }
    assert tail[i + |ExpectingMark|..] == expected;
  }


  /** The offending part, the mark and the expected part together hold no line terminator. */
  lemma MarkTailFree(offending: string, expected: string)
    requires NoLineTerminator(offending) && NoLineTerminator(expected)
    ensures NoLineTerminator(offending + ExpectingMark + expected)
  {
    var tail := offending + ExpectingMark + expected;
    var i := |offending|;
    forall k | 0 <= k < |tail|
      ensures !IsLineTerminator(tail[k])
    {
      if k < i {
        assert tail[k] == offending[k];
      } else if k < i + |ExpectingMark| {
        assert tail[k] == ExpectingMark[k - i];
      } else {
        assert tail[k] == expected[k - i - |ExpectingMark|];
      }
    }
  }

  /** The quote is the first character of the mark and occurs nowhere else in it. */
  lemma MarkQuoteFirst()
    ensures ExpectingMark[0] == '\''
    ensures forall p | 0 < p < |ExpectingMark| :: ExpectingMark[p] != '\''
  {
  }

  /**
   * The mark after the offending part is the last one when the expected part does not hold
   * it: a later occurrence would start inside the mark, which has no second quote, or inside
   * the expected part.
   */
  lemma LastMarkAt(offending: string, expected: string)
    requires forall j :: !OccursAt(expected, ExpectingMark, j)
    ensures LastIndexOf(offending + ExpectingMark + expected, ExpectingMark) == Some(|offending|)
  {
    var tail := offending + ExpectingMark + expected;
    var i := |offending|;
    assert tail[i..i + |ExpectingMark|] == ExpectingMark;
    assert OccursAt(tail, ExpectingMark, i);
    forall j | i < j && OccursAt(tail, ExpectingMark, j)
      ensures false
    {
      if j < i + |ExpectingMark| {
        MarkQuoteFirst();
      } else {
        OccursInSuffix(offending + ExpectingMark, expected, ExpectingMark, j);
      }
    }
  }

  /** An occurrence that starts after a prefix is an occurrence in the rest. */
  lemma OccursInSuffix(p: string, x: string, pat: string, j: int)
    ensures OccursAt(p + x, pat, j) && j >= |p| ==> OccursAt(x, pat, j - |p|)
  {
    if OccursAt(p + x, pat, j) && j >= |p| {
      assert (p + x)[j..j + |pat|] == x[j - |p|..j - |p| + |pat|];
    }
  }

  /** The end-of-input message naming one token without ", " or quotes at its ends yields that token. */
  lemma EofExpectingSingle(token: string)
    requires |token| < |EofPrefix| && ',' !in token
    ensures EofExpecting(EofPrefix + token) == [token]
  {
    var message := EofPrefix + token;
    assert StartsWith(message, EofPrefix);
    RemoveAllLeading(message, EofPrefix);
    assert message[|EofPrefix|..] == token;
    RemoveAllAbsent(token, EofPrefix);
    AbsentWithoutFirst(token, ", ");
    assert SplitPieces(token, ", ") == [token];
  }

  /**
   * The end-of-input message naming only `<identifier>`, after FROM or JOIN, suggests the
   * known tables.
   */
  lemma EofIdentifierMessage(sql: string)
    requires AfterFromOrJoin(sql)
    ensures ParsingExceptionSuggestions(EofPrefix + "<identifier>", sql) == KnownTables
  {
    var id := "<identifier>";
    EofDispatch(EofPrefix + id, sql);
    EofExpectingSingle(id);
    IdentifierTokenKept();
    assert Expand([id], id, KnownTables) == KnownTables by {
      assert [id][..0] == [];
    }
  }

  /** A message that starts with the end-of-input prefix takes the end-of-input path. */
  lemma EofDispatch(message: string, sql: string)
    requires StartsWith(message, EofPrefix)
    ensures ParsingExceptionSuggestions(message, sql) == EofSuggestions(EofExpecting(message), sql)
  {
  }

  /** The lone token `<identifier>` survives sorting and quote trimming. */
  lemma IdentifierTokenKept()
    ensures TrimAll(SortTokens(["<identifier>"])) == ["<identifier>"]
  {
    assert SortTokens(["<identifier>"]) == ["<identifier>"];
    TrimAllUnquoted(["<identifier>"]);
  }


  /** "select * from" ends in FROM once trimmed and upper-cased. */
  lemma SelectFromIsAfterFrom()
    ensures AfterFromOrJoin("select * from")
  {
    var s := "select * from";
    TrimLeadingKeeps(s, IsTrimmable);
    TrimTrailingUnique(s, IsTrimmable, s);
    var u := ToUpperCase(s);
    assert u[|u| - 4..] == "FROM";
  }

  /** A text that does not start with a matching character keeps its start. */
  lemma TrimLeadingKeeps(s: string, strip: char -> bool)
    requires s != [] && !strip(s[0])
    ensures TrimLeading(s, strip) == s
  {
  }

  // ----- Suggestions from a statement that parsed -----

  /** `\s` of a Java regular expression: space, tab, newline, vertical tab, form feed, return. */
  predicate IsRegexSpace(c: char) {
    c == ' ' || c == '\t' || c == '\n' || c as int == 0x0B || c as int == 0x0C || c == '\r'
  }

  /** `\w` of a Java regular expression: ASCII letters, digits and the underscore. */
  predicate IsWordChar(c: char) {
    ('a' <= c <= 'z') || ('A' <= c <= 'Z') || ('0' <= c <= '9') || c == '_'
  }

  predicate AllSpaces(s: string) {
    forall k | 0 <= k < |s| :: IsRegexSpace(s[k])
  }

  predicate AllWordChars(s: string) {
    forall k | 0 <= k < |s| :: IsWordChar(s[k])
  }

  predicate IsFromOrJoin(k: string) {
    EqualsIgnoreCase(k, "FROM") || EqualsIgnoreCase(k, "JOIN")
  }

  /**
   * The table group of `^.*\s(FROM|JOIN)\s+(?<table>\w+)$` matched case-insensitively: the
   * word at the end, the white space before it, the keyword before that, then one white
   * space character after a part without line terminators.
   */
  function FromJoinTable(sql: string): Option<string> {
    var before := TrimTrailing(sql, IsWordChar);
    var table := TrailingRun(sql, IsWordChar);
    var head := TrimTrailing(before, IsRegexSpace);
    var gap := TrailingRun(before, IsRegexSpace);
    if table != [] && gap != [] && |head| >= 5 && IsRegexSpace(head[|head| - 5])
      && IsFromOrJoin(head[|head| - 4..]) && NoLineTerminator(head[..|head| - 5])
    then Some(table)
    else None
  }

  /** Every text of the pattern's shape matches, with the word at its end as the table. */
  lemma FromJoinTableMatches(p: string, s: char, k: string, gap: string, table: string)
    requires NoLineTerminator(p) && IsRegexSpace(s) && IsFromOrJoin(k)
    requires gap != [] && AllSpaces(gap) && table != [] && AllWordChars(table)
    ensures FromJoinTable(p + [s] + k + gap + table) == Some(table)
  {
    var head := p + [s] + k;
    KeywordHead(p, s, k);
    assert (head + gap)[|head + gap| - 1] == gap[|gap| - 1];
    TrailingRunOf(head + gap, table, IsWordChar);
    TrailingRunOf(head, gap, IsRegexSpace);
  }

  /** The text up to FROM or JOIN ends in a keyword letter, with the keyword and the space before it in place. */
  lemma KeywordHead(p: string, s: char, k: string)
    requires IsFromOrJoin(k)
    ensures var head := p + [s] + k;
      && |head| == |p| + 5 && !IsRegexSpace(head[|head| - 1])
      && head[|head| - 5] == s && head[|head| - 4..] == k && head[..|head| - 5] == p
  {
    var head := p + [s] + k;
    assert UpperAscii(k[3]) == 'M' || UpperAscii(k[3]) == 'N';
    assert head[|head| - 1] == k[3];
    assert head[|head| - 4..] == k;
    assert head[..|head| - 5] == p;
  }

  /**
   * sql has the pattern's shape with the keyword's leading white space at index n and table
   * as its final word.
   */
  predicate FromJoinShape(sql: string, n: nat, table: string) {
    table != [] && AllWordChars(table) && EndsWith(sql, table) && n + 5 < |sql| - |table|
    && NoLineTerminator(sql[..n]) && IsRegexSpace(sql[n]) && IsFromOrJoin(sql[n + 1..n + 5])
    && AllSpaces(sql[n + 5..|sql| - |table|])
  }

  /** FromJoinTable returns table exactly when the text has the pattern's shape around it. */
  lemma FromJoinTableIff(sql: string, table: string)
    ensures FromJoinTable(sql) == Some(table) <==> exists n :: FromJoinShape(sql, n, table)
  {
    if FromJoinTable(sql) == Some(table) {
      FromJoinTableShape(sql, table);
    }
    if exists n: nat :: FromJoinShape(sql, n, table) {
      var n: nat :| FromJoinShape(sql, n, table);
      ShapeFromJoinTable(sql, n, table);
    }
  }

  /** Text of the shape is text the pattern matches, with that table. */
  lemma ShapeFromJoinTable(sql: string, n: nat, table: string)
    requires FromJoinShape(sql, n, table)
    ensures FromJoinTable(sql) == Some(table)
  {
    var p, k, gap := sql[..n], sql[n + 1..n + 5], sql[n + 5..|sql| - |table|];
    assert sql == p + [sql[n]] + k + gap + table;
    FromJoinTableMatches(p, sql[n], k, gap, table);
  }

  /** The table the pattern finds stands where the shape puts it. */
  lemma FromJoinTableShape(sql: string, table: string)
    requires FromJoinTable(sql) == Some(table)
    ensures FromJoinShape(sql, |TrimTrailing(TrimTrailing(sql, IsWordChar), IsRegexSpace)| - 5, table)
  {
    var before := TrimTrailing(sql, IsWordChar);
    var head := TrimTrailing(before, IsRegexSpace);
    var gap := TrailingRun(before, IsRegexSpace);
    TrailingRunSplit(sql, IsWordChar);
    TrailingRunSplit(before, IsRegexSpace);
    var n := |head| - 5;
    assert sql[..|sql| - |table|] == before;
    assert sql[|sql| - |table|..] == table;
    assert sql[..n] == head[..n];
    assert sql[n] == head[n];
    assert sql[n + 1..n + 5] == head[n + 1..];
    assert sql[n + 5..|sql| - |table|] == gap;
  }


  /**
   * The table group of `^.*\s+(?<table>\w+)\.(?<column>\w+)$`: the word before the final
   * dot, after white space, after a part without line terminators.
   */
  function ColumnTable(sql: string): Option<string> {
    var afterTable := TrimTrailing(sql, IsWordChar);
    var column := TrailingRun(sql, IsWordChar);
    if column == [] || afterTable == [] || afterTable[|afterTable| - 1] != '.' then None
    else
      var beforeDot := afterTable[..|afterTable| - 1];
      var table := TrailingRun(beforeDot, IsWordChar);
      var beforeTable := TrimTrailing(beforeDot, IsWordChar);
      var head := TrimTrailing(beforeTable, IsRegexSpace);
      if table != [] && TrailingRun(beforeTable, IsRegexSpace) != [] && NoLineTerminator(head)
      then Some(table)
      else None
  }

  /** Every text of the pattern's shape matches, with the word before the dot as the table. */
  lemma ColumnTableMatches(p: string, gap: string, table: string, column: string)
    requires NoLineTerminator(p) && gap != [] && AllSpaces(gap)
    requires table != [] && AllWordChars(table) && column != [] && AllWordChars(column)
    ensures ColumnTable(p + gap + table + "." + column) == Some(table)
  {
    var beforeDot := p + gap + table;
    assert TrimTrailing(beforeDot + "." + column, IsWordChar) == beforeDot + "."
        && TrailingRun(beforeDot + "." + column, IsWordChar) == column by {
      TrailingRunOf(beforeDot + ".", column, IsWordChar);
    }
    assert (beforeDot + ".")[..|beforeDot|] == beforeDot;
    assert TrimTrailing(beforeDot, IsWordChar) == p + gap && TrailingRun(beforeDot, IsWordChar) == table by {
      assert (p + gap)[|p + gap| - 1] == gap[|gap| - 1];
      TrailingRunOf(p + gap, table, IsWordChar);
    }
    var head := TrimTrailing(p, IsRegexSpace);
    assert TrimTrailing(p + gap, IsRegexSpace) == head && TrailingRun(p + gap, IsRegexSpace) != [] by {
      TrimTrailingAppend(p, IsRegexSpace, gap);
    }
    assert NoLineTerminator(head) by {
      forall k | 0 <= k < |head|
        ensures !IsLineTerminator(head[k])
      {
        assert head[k] == p[k];
      }
    }
  }


  /** Stream.filter(t -> t.startsWith(prefix)): the names starting with prefix, in order. */
  function PrefixFilter(names: seq<string>, prefix: string): (r: seq<string>)
    ensures |r| <= |names|
    ensures forall x :: x in r <==> x in names && StartsWith(x, prefix)
    decreases |names|
  {
    if names == [] then []
    else
      assert names == [names[0]] + names[1..];
      (if StartsWith(names[0], prefix) then [names[0]] else []) + PrefixFilter(names[1..], prefix)
  }

  /**
   * suggestionsFromStatement: after FROM or JOIN and a partial word, the known tables and
   * the statement's aliases that start with it; after `events.` and a partial word, the
   * columns of events; otherwise nothing. The aliases are what the statement's table visitor
   * collects.
   */
  function StatementSuggestions(sql: string, aliases: seq<string>): seq<string> {
    match FromJoinTable(sql)
    case Some(table) => PrefixFilter(KnownTables + aliases, table)
    case None =>
      match ColumnTable(sql)
      case Some(table) => if table == "events" then EventColumns else []
      case None => []
  }

  /** A partial table name after FROM or JOIN offers exactly the tables and aliases it starts. */
  lemma FromJoinSuggestions(p: string, s: char, k: string, gap: string, table: string, aliases: seq<string>)
    requires NoLineTerminator(p) && IsRegexSpace(s) && IsFromOrJoin(k)
    requires gap != [] && AllSpaces(gap) && table != [] && AllWordChars(table)
    ensures forall x :: x in StatementSuggestions(p + [s] + k + gap + table, aliases) <==>
      (x in KnownTables || x in aliases) && StartsWith(x, table)
  {
    FromJoinTableMatches(p, s, k, gap, table);
  }

  /** Filtering a list with one more name in front. */
  lemma PrefixFilterCons(name: string, names: seq<string>, prefix: string)
    ensures PrefixFilter([name] + names, prefix)
      == (if StartsWith(name, prefix) then [name] else []) + PrefixFilter(names, prefix)
  {
    assert ([name] + names)[1..] == names;
  }

  /** A text whose first character differs from the prefix's does not start with it. */
  lemma FirstCharDiffers(s: string, prefix: string)
    requires s != [] && prefix != [] && s[0] != prefix[0]
    ensures !StartsWith(s, prefix)
  {
  }

  /** Of the known tables only events starts with e. */
  lemma KnownTablesStartingWithE()
    ensures PrefixFilter(KnownTables, "e") == ["events"]
  {
    var e := "e";
    var none: seq<string> := [];
    FirstCharDiffers("returns", e);
    FirstCharDiffers("carts", e);
    FirstCharDiffers("orders", e);
    FirstCharDiffers("profiles", e);
    assert StartsWith("events", e);
    var r1 := PrefixFilter(["returns"], e);
    PrefixFilterCons("returns", [], e);
    assert ["returns"] + none == ["returns"];
    assert r1 == [];
    PrefixFilterCons("carts", ["returns"], e);
    assert ["carts"] + ["returns"] == ["carts", "returns"];
    var r2 := PrefixFilter(["carts", "returns"], e);
    assert r2 == [];
    PrefixFilterCons("orders", ["carts", "returns"], e);
    assert ["orders"] + ["carts", "returns"] == ["orders", "carts", "returns"];
    var r3 := PrefixFilter(["orders", "carts", "returns"], e);
    assert r3 == [];
    PrefixFilterCons("events", ["orders", "carts", "returns"], e);
    assert ["events"] + ["orders", "carts", "returns"] == ["events", "orders", "carts", "returns"];
    var r4 := PrefixFilter(["events", "orders", "carts", "returns"], e);
    assert r4 == ["events"];
    PrefixFilterCons("profiles", ["events", "orders", "carts", "returns"], e);
    assert ["profiles"] + ["events", "orders", "carts", "returns"] == KnownTables;
  }

  /** The table of "select * from e" is e. */
  lemma SelectFromETable()
    ensures FromJoinTable("select * from e") == Some("e")
  {
    assert "select * from e" == "select *" + [' '] + "from" + " " + "e";
    assert IsFromOrJoin("from");
    FromJoinTableMatches("select *", ' ', "from", " ", "e");
  }

  /** "select * from e" suggests the one known table that starts with e. */
  lemma SelectFromE()
    ensures StatementSuggestions("select * from e", []) == ["events"]
  {
    SelectFromETable();
    assert KnownTables + [] == KnownTables;
    KnownTablesStartingWithE();
  }

  /** A text ending in a dot and a word does not match the FROM/JOIN pattern. */
  lemma DotWordIsNotFromJoin(p: string, column: string)
    requires column != [] && AllWordChars(column)
    ensures FromJoinTable(p + "." + column) == None
  {
    TrailingRunOf(p + ".", column, IsWordChar);
    var before := p + ".";
    assert before[|before| - 1] == '.';
    assert TrimTrailing(before, IsRegexSpace) == before;
  }

  /** A line ending in ` events.` and a word matches only the column pattern, with table events. */
  lemma EventsColumnTable(p: string, column: string)
    requires NoLineTerminator(p) && column != [] && AllWordChars(column)
    ensures FromJoinTable(p + " events." + column) == None
    ensures ColumnTable(p + " events." + column) == Some("events")
  {
    assert p + " events." + column == p + " " + "events" + "." + column;
    assert AllWordChars("events");
    DotWordIsNotFromJoin(p + " " + "events", column);
    ColumnTableMatches(p, " ", "events", column);
  }

  /** "select * from events where events.t" suggests the columns of events. */
  lemma EventsColumnSuggestions(aliases: seq<string>)
    ensures StatementSuggestions("select * from events where events.t", aliases) == EventColumns
  {
    var p := "select * from events where";
    assert "select * from events where events.t" == p + " events." + "t";
    EventsColumnTable(p, "t");
  }
}
