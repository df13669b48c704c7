/**
 * What the renderings of the Formatting and Statements modules promise: identifier quoting
 * and its inverse, the unary-minus disambiguation, count(*), the layout of AND/OR and the
 * other binary operators, the grouping-element parenthesisation, unambiguous sort and frame
 * words, and the clause order, SELECT layout, joins, set operations, properties and
 * principals of the statement formatter.
 */
module FormattingProperties {
  import opened Wrappers
  import opened Text
  import opened Ast
  import opened StringLiterals
  import opened Formatting
  import opened Statements

  // ----- Identifiers -----

  /** Undo the doubling of '"': two quotes are one, a lone quote is malformed. */
  function UndoubleDoubleQuotes(t: string): Option<string>
    decreases |t|
  {
    if t == [] then Some([])
    else if t[0] == '"' then
      if |t| >= 2 && t[1] == '"' then
        match UndoubleDoubleQuotes(t[2..])
        case None => None
        case Some(rest) => Some("\"" + rest)
      else None
    else
      match UndoubleDoubleQuotes(t[1..])
      case None => None
      case Some(rest) => Some([t[0]] + rest)
  }

  /** The value a quoted identifier denotes: strip the outer quotes, then undo the doubling. */
  function UnquoteIdentifier(t: string): Option<string> {
    if |t| >= 2 && t[0] == '"' && t[|t| - 1] == '"' then UndoubleDoubleQuotes(t[1..|t| - 1]) else None
  }

  lemma {:induction false} UndoubleDoubled(s: string)
    ensures UndoubleDoubleQuotes(DoubleDoubleQuotes(s)) == Some(s)
    decreases |s|
  {
    if s != [] {
      UndoubleDoubled(s[1..]);
      var d := DoubleDoubleQuotes(s);
      if s[0] == '"' {
        assert d[2..] == DoubleDoubleQuotes(s[1..]);
      } else {
        assert d[1..] == DoubleDoubleQuotes(s[1..]);
      }
      assert [s[0]] + s[1..] == s;
    }
  }

  /** A quoted identifier starts and ends with '"' and unquotes to the original value. */
  lemma QuoteIdentifierRoundTrip(s: string)
    ensures var t := QuoteIdentifier(s);
      |t| >= 2 && t[0] == '"' && t[|t| - 1] == '"' && UnquoteIdentifier(t) == Some(s)
  {
    var t := QuoteIdentifier(s);
    assert t[1..|t| - 1] == DoubleDoubleQuotes(s);
    UndoubleDoubled(s);
  }

  /**
   * visitIdentifier: an undelimited identifier is its value verbatim; a delimited one is
   * quoted and unquotes to its value. A symbol reference is always quoted.
   */
  lemma IdentifierRendering(id: Identifier, name: string, indent: Option<nat>)
    ensures !id.delimited ==> ExpressionText(Ident(id), indent) == Success(id.value)
    ensures id.delimited ==>
              ExpressionText(Ident(id), indent).Success?
              && UnquoteIdentifier(ExpressionText(Ident(id), indent).value) == Some(id.value)
    ensures ExpressionText(SymbolReference(name), indent).Success?
    ensures UnquoteIdentifier(ExpressionText(SymbolReference(name), indent).value) == Some(name)
  {
    NameUnfold(id, name, indent);
    QuoteIdentifierRoundTrip(id.value);
    QuoteIdentifierRoundTrip(name);
  }

  lemma NameUnfold(id: Identifier, name: string, indent: Option<nat>)
    ensures ExpressionText(Ident(id), indent) == Success(IdentifierText(id))
    ensures ExpressionText(SymbolReference(name), indent) == Success(QuoteIdentifier(name))
  {
  }

  // ----- Arithmetic unary -----

  /**
   * Unary minus renders "-(" + operand + ")", so its text never starts with '-' followed by a
   * digit (it cannot re-parse as a negative number); unary plus renders "+" + operand.
   */
  lemma UnaryRendering(v: Expression, indent: Option<nat>)
    ensures var r, inner := ExpressionText(ArithmeticUnary(Minus, v), indent), ExpressionText(v, indent);
      && (r.Success? <==> inner.Success?)
      && (inner.Failure? ==> r == inner)
      && (r.Success? ==> r.value == "-(" + inner.value + ")" && r.value[0] == '-' && !IsDigit(r.value[1]))
    ensures var r, inner := ExpressionText(ArithmeticUnary(Plus, v), indent), ExpressionText(v, indent);
      && (inner.Failure? ==> r == inner)
      && (inner.Success? ==> r == Success("+" + inner.value))
  {
    var inner := ExpressionText(v, indent);
    UnaryUnfold(Minus, v, indent);
    UnaryUnfold(Plus, v, indent);
    if inner.Success? {
      var m := "-(" + inner.value + ")";
      assert m[0] == '-' && m[1] == '(';
      assert "+" + inner.value + "" == "+" + inner.value;
    }
  }

  lemma UnaryUnfold(sign: Sign, v: Expression, indent: Option<nat>)
    ensures ExpressionText(ArithmeticUnary(sign, v), indent)
         == if sign == Minus then Enclosed("-(", ExpressionText(v, indent), ")") else Enclosed("+", ExpressionText(v, indent), "")
  {
  }

  // ----- Function calls -----

  /** An undelimited identifier renders as its value wherever it stands. */
  lemma PlainIdentifierText(name: string, indent: Option<nat>)
    ensures ExpressionText(Ident(Identifier(name, false)), indent) == Success(name)
  {
    assert LiteralText(Ident(Identifier(name, false))) == name;
  }

  /** Undelimited identifiers with the given names. */
  function Plain(names: seq<string>): (es: seq<Expression>)
    ensures |es| == |names|
    ensures forall i :: 0 <= i < |names| ==> es[i] == Ident(Identifier(names[i], false))
  {
    if names == [] then [] else [Ident(Identifier(names[0], false))] + Plain(names[1..])
  }

  /** A list of undelimited identifiers renders as their names. */
  lemma {:induction false} PlainTexts(names: seq<string>, n: nat, indent: Option<nat>)
    requires n <= |names|
    ensures ExpressionTexts(Plain(names), n, indent) == Success(names[..n])
    decreases n
  {
    if n > 0 {
      PlainTexts(names, n - 1, indent);
      PlainIdentifierText(names[n - 1], indent);
      assert names[..n] == names[..n - 1] + [names[n - 1]];
    }
  }

  /** A qualified name of one part. */
  function SimpleName(word: string): QualifiedName {
    QualifiedName([word], word, word)
  }

  /**
   * A call without arguments whose name's suffix is "count" in any letter case renders "*"
   * as its argument list; DISTINCT is put before it.
   */
  lemma CountStar(name: QualifiedName, distinct: bool, indent: Option<nat>)
    requires EqualsIgnoreCaseAscii(name.suffix, "count")
    ensures ExpressionText(FunctionCall(name, distinct, [], None, None, None, None), indent)
         == Success(FormatName(name) + "(" + (if distinct then "DISTINCT *" else "*") + ")")
  {
    var e := FunctionCall(name, distinct, [], None, None, None, None);
    assert ExpressionTexts([], 0, None) == Success([]);
    assert JoinExpressions([]) == Success("");
    assert "DISTINCT " + "*" == "DISTINCT *";
    assert ExpressionText(e, indent) == FunctionCallText(e, indent);
    assert FunctionCallText(e, indent).Success?;
    assert FunctionCallText(e, indent).value == FormatName(name) + "(" + (if distinct then "DISTINCT *" else "*") + ")";
  }

  /** The zero-argument count() of the scenario list renders count(*); so does COUNT(). */
  lemma CountStarExamples()
    ensures ExpressionText(FunctionCall(SimpleName("count"), false, [], None, None, None, None), Some(0))
         == Success("count(*)")
    ensures ExpressionText(FunctionCall(SimpleName("COUNT"), false, [], None, None, None, None), Some(0))
         == Success("COUNT(*)")
  {
    CountStar(SimpleName("count"), false, Some(0));
    CountStar(SimpleName("COUNT"), false, Some(0));
    assert JoinWith(["count"], ".") == "count";
    assert JoinWith(["COUNT"], ".") == "COUNT";
    assert "count" + "(" + "*" + ")" == "count(*)";
    assert "COUNT" + "(" + "*" + ")" == "COUNT(*)";
  }

  /**
   * A call renders its name, then in parentheses DISTINCT (when distinct) before the
   * arguments joined by ", " ("*" for a zero-argument count), then the inline ORDER BY; after
   * the closing parenthesis come the null treatment, FILTER WHERE and OVER, each only when
   * present.
   */
  lemma FunctionCallSuffixOrder(e: Expression, indent: Option<nat>)
    requires e.FunctionCall?
    requires ExpressionText(e, indent).Success?
    ensures e.filter.Some? ==> ExpressionText(e.filter.value, indent).Success?
    ensures e.window.Some? ==> WindowText(e.window.value, indent).Success?
    ensures e.orderBy.Some? ==> OrderByText(e.orderBy.value, indent).Success?
    ensures JoinExpressions(e.arguments).Success?
    ensures var filter := if e.filter.Some? then " FILTER WHERE " + ExpressionText(e.filter.value, indent).value else "";
      var over := if e.window.Some? then " OVER " + WindowText(e.window.value, indent).value else "";
      var orderBy := if e.orderBy.Some? then " " + OrderByText(e.orderBy.value, indent).value else "";
      var arguments := (if e.distinct then "DISTINCT " else "")
        + (if e.arguments == [] && EqualsIgnoreCaseAscii(e.name.suffix, "count") then "*"
           else JoinExpressions(e.arguments).value);
      ExpressionText(e, indent).value
      == FormatName(e.name) + "(" + arguments + orderBy + ")" + NullTreatmentText(e.nullTreatment) + filter + over
  {
    assert ExpressionText(e, indent) == FunctionCallText(e, indent);
    assert JoinExpressions(e.arguments).Success?;
    var joined := JoinExpressions(e.arguments).value;
    var counted := if e.arguments == [] && EqualsIgnoreCaseAscii(e.name.suffix, "count") then "*" else joined;
    var arguments := if e.distinct then "DISTINCT " + counted else counted;
    assert arguments == (if e.distinct then "DISTINCT " else "") + counted by {
      assert "" + counted == counted;
    }
    var filter := if e.filter.Some? then " FILTER WHERE " + ExpressionText(e.filter.value, indent).value else "";
    var over := if e.window.Some? then " OVER " + WindowText(e.window.value, indent).value else "";
    var orderBy := if e.orderBy.Some? then " " + OrderByText(e.orderBy.value, indent).value else "";
    assert ExpressionText(e, indent).value
        == FormatName(e.name) + "(" + arguments + orderBy + ")" + NullTreatmentText(e.nullTreatment) + filter + over;
  }

  // ----- Binary operators -----

  /**
   * AND and OR break the line before the operator at the current indent; with a null indent
   * (inside joinExpressions) they throw once the left side is rendered.
   */
  lemma LogicalBinaryLayout(op: LogicalOperator, l: Expression, r: Expression, indent: Option<nat>)
    requires ExpressionText(l, indent).Success? && ExpressionText(r, indent).Success?
    ensures indent.Some? ==>
              ExpressionText(LogicalBinary(op, l, r), indent)
              == Success(ExpressionText(l, indent).value + "\n" + IndentString(indent.value)
                         + (if op == And then "AND" else "OR") + " " + ExpressionText(r, indent).value)
    ensures indent.None? ==> ExpressionText(LogicalBinary(op, l, r), indent) == Failure(NullIndent)
  {
    LogicalBinaryUnfold(op, l, r, indent);
  }

  lemma LogicalBinaryUnfold(op: LogicalOperator, l: Expression, r: Expression, indent: Option<nat>)
    ensures ExpressionText(LogicalBinary(op, l, r), indent)
         == BinaryText(LogicalOperatorText(op), ExpressionText(l, indent), ExpressionText(r, indent), indent)
  {
  }

  /** A rendered operator other than AND and OR joins its operands on one line. */
  lemma InlineBinaryText(o: string, lt: Rendered, rt: Rendered, indent: Option<nat>)
    requires o != "AND" && o != "OR" && lt.Success? && rt.Success?
    ensures BinaryText(o, lt, rt, indent) == Success(lt.value + " " + o + " " + rt.value)
  {
  }

  /** No comparison operator is spelled AND or OR. */
  lemma ComparisonNotLogical(op: ComparisonOperator)
    ensures ComparisonOperatorText(op) != "AND" && ComparisonOperatorText(op) != "OR"
  {
    var o := ComparisonOperatorText(op);
    assert |o| != 3;
    assert |o| == 2 ==> o[0] != 'O';
  }

  /** No arithmetic operator is spelled AND or OR. */
  lemma ArithmeticNotLogical(op: ArithmeticOperator)
    ensures ArithmeticOperatorText(op) != "AND" && ArithmeticOperatorText(op) != "OR"
  {
    assert |ArithmeticOperatorText(op)| == 1;
  }

  lemma ComparisonUnfold(op: ComparisonOperator, l: Expression, r: Expression, indent: Option<nat>)
    ensures ExpressionText(Comparison(op, l, r), indent)
         == BinaryText(ComparisonOperatorText(op), ExpressionText(l, indent), ExpressionText(r, indent), indent)
  {
  }

  lemma ArithmeticBinaryUnfold(op: ArithmeticOperator, l: Expression, r: Expression, indent: Option<nat>)
    ensures ExpressionText(ArithmeticBinary(op, l, r), indent)
         == BinaryText(ArithmeticOperatorText(op), ExpressionText(l, indent), ExpressionText(r, indent), indent)
  {
  }

  /** Every other binary operator stays on the line: left, space, operator, space, right; no parentheses. */
  lemma InlineBinaryLayout(op: ComparisonOperator, l: Expression, r: Expression, indent: Option<nat>)
    requires ExpressionText(l, indent).Success? && ExpressionText(r, indent).Success?
    ensures ExpressionText(Comparison(op, l, r), indent)
         == Success(ExpressionText(l, indent).value + " " + ComparisonOperatorText(op) + " " + ExpressionText(r, indent).value)
  {
    ComparisonUnfold(op, l, r, indent);
    ComparisonNotLogical(op);
    InlineBinaryText(ComparisonOperatorText(op), ExpressionText(l, indent), ExpressionText(r, indent), indent);
  }

  /** The arithmetic operators stay on the line as well. */
  lemma ArithmeticBinaryLayout(op: ArithmeticOperator, l: Expression, r: Expression, indent: Option<nat>)
    requires ExpressionText(l, indent).Success? && ExpressionText(r, indent).Success?
    ensures ExpressionText(ArithmeticBinary(op, l, r), indent)
         == Success(ExpressionText(l, indent).value + " " + ArithmeticOperatorText(op) + " " + ExpressionText(r, indent).value)
  {
    ArithmeticBinaryUnfold(op, l, r, indent);
    ArithmeticNotLogical(op);
    InlineBinaryText(ArithmeticOperatorText(op), ExpressionText(l, indent), ExpressionText(r, indent), indent);
  }

  /**
   * Nested binary operators are not parenthesised: (a + b) * c and a + (b * c) render the
   * same text, "a + b * c".
   */
  lemma BinaryOperatorsNotParenthesised(indent: Option<nat>)
    ensures var a, b, c := Ident(Identifier("a", false)), Ident(Identifier("b", false)), Ident(Identifier("c", false));
      && ExpressionText(ArithmeticBinary(Multiply, ArithmeticBinary(Add, a, b), c), indent) == Success("a + b * c")
      && ExpressionText(ArithmeticBinary(Add, a, ArithmeticBinary(Multiply, b, c)), indent) == Success("a + b * c")
  {
    var a, b, c := Ident(Identifier("a", false)), Ident(Identifier("b", false)), Ident(Identifier("c", false));
    PlainIdentifierText("a", indent);
    PlainIdentifierText("b", indent);
    PlainIdentifierText("c", indent);
    ArithmeticBinaryLayout(Add, a, b, indent);
    assert "a" + " " + "+" + " " + "b" == "a + b";
    ArithmeticBinaryLayout(Multiply, ArithmeticBinary(Add, a, b), c, indent);
    assert "a + b" + " " + "*" + " " + "c" == "a + b * c";
    ArithmeticBinaryLayout(Multiply, b, c, indent);
    assert "b" + " " + "*" + " " + "c" == "b * c";
    ArithmeticBinaryLayout(Add, a, ArithmeticBinary(Multiply, b, c), indent);
    assert "a" + " " + "+" + " " + "b * c" == "a + b * c";
  }

  /** An IN list is rendered without parentheses of its own. */
  lemma InListUnparenthesised(v: Expression, values: seq<Expression>, indent: Option<nat>)
    requires ExpressionText(v, indent).Success? && JoinExpressions(values).Success?
    ensures ExpressionText(In(v, InList(values)), indent)
         == Success(ExpressionText(v, indent).value + " IN " + JoinExpressions(values).value)
  {
    InUnfold(v, InList(values), indent);
    InListUnfold(values, indent);
    var x, y := ExpressionText(v, indent).value, JoinExpressions(values).value;
    assert "" + x + " IN " + y + "" == x + " IN " + y;
  }

  lemma InUnfold(v: Expression, list: Expression, indent: Option<nat>)
    ensures ExpressionText(In(v, list), indent) == Joined("", ExpressionText(v, indent), " IN ", ExpressionText(list, indent), "")
  {
  }

  lemma InListUnfold(values: seq<Expression>, indent: Option<nat>)
    ensures ExpressionText(InList(values), indent) == JoinExpressions(values)
  {
  }

  /** `x IN a, b`: an IN list of two identifiers. */
  lemma InListExample(x: string, a: string, b: string, indent: Option<nat>)
    ensures ExpressionText(In(Ident(Identifier(x, false)), InList(Plain([a, b]))), indent) == Success(x + " IN " + a + ", " + b)
  {
    PlainIdentifierText(x, indent);
    PlainJoined2(a, b);
    InListUnparenthesised(Ident(Identifier(x, false)), Plain([a, b]), indent);
    assert x + " IN " + (a + ", " + b) == x + " IN " + a + ", " + b;
  }

  /** Two identifiers as an argument list. */
  lemma PlainJoined2(x: string, y: string)
    ensures JoinExpressions(Plain([x, y])) == Success(x + ", " + y)
  {
    PlainTexts([x, y], 2, None);
    assert [x, y][..2] == [x, y];
    JoinWithTwo(x, y, ", ");
  }

  /** AND and OR break the line at the indent, so without one they throw. */
  lemma LogicalBinaryNeedsIndent(op: LogicalOperator, l: Expression, r: Expression)
    ensures ExpressionText(LogicalBinary(op, l, r), None).Failure?
    ensures ExpressionText(l, None).Success? ==> ExpressionText(LogicalBinary(op, l, r), None) == Failure(NullIndent)
  {
    LogicalBinaryUnfold(op, l, r, None);
  }

  /**
   * Argument lists are formatted with a null indent, so an AND or OR among the operands of
   * COALESCE, of an IN list or of a call's arguments makes the whole rendering throw.
   */
  lemma ArgumentListRejectsLogical(es: seq<Expression>, i: nat, indent: Option<nat>)
    requires i < |es| && es[i].LogicalBinary?
    ensures JoinExpressions(es).Failure?
    ensures ExpressionText(Coalesce(es), indent).Failure?
    ensures ExpressionText(InList(es), indent).Failure?
  {
    ExpressionTextsReachFailure(es, i);
    assert ExpressionText(Coalesce(es), indent) == Enclosed("COALESCE(", JoinExpressions(es), ")");
    assert ExpressionText(InList(es), indent) == JoinExpressions(es);
  }

  lemma ExpressionTextsReachFailure(es: seq<Expression>, i: nat)
    requires i < |es| && es[i].LogicalBinary?
    ensures ExpressionTexts(es, |es|, None).Failure?
  {
    var x := es[i];
    LogicalBinaryNeedsIndent(x.logicalOperator, x.left, x.right);
    if ExpressionTexts(es, i, None).Failure? {
      ExpressionTextsFailure(es, i, None);
    } else {
      assert ExpressionTexts(es, i + 1, None).Failure?;
      ExpressionTextsFailure(es, i + 1, None);
    }
  }

  lemma JoinWithTwo(x: string, y: string, sep: string)
    ensures JoinWith([x, y], sep) == x + sep + y
  {
    assert [x, y][..1] == [x];
  }

  // ----- Sort items, frames and windows -----

  /** The words after a sort key: the mandatory direction, then the null ordering if defined. */
  function SortSuffix(o: Ordering, n: NullOrdering): string {
    (if o == Ascending then " ASC" else " DESC")
    + (match n
       case NullsFirst => " NULLS FIRST"
       case NullsLast => " NULLS LAST"
       case Undefined => "")
  }

  /** A sort item renders as its key followed by SortSuffix. */
  lemma SortItemLayout(item: SortItem, indent: Option<nat>)
    requires SortItemText(item, indent).Success?
    ensures SortItemText(item, indent).value
         == ExpressionText(item.sortKey, indent).value + SortSuffix(item.ordering, item.nullOrdering)
  {
  }

  /** Different orderings give different suffixes, so the rendering loses neither of them. */
  lemma SortSuffixInjective(o1: Ordering, n1: NullOrdering, o2: Ordering, n2: NullOrdering)
    requires SortSuffix(o1, n1) == SortSuffix(o2, n2)
    ensures o1 == o2 && n1 == n2
  {
    SortSuffixShape(o1, n1);
    SortSuffixShape(o2, n2);
  }

  /** The second character names the direction; the length then names the null ordering. */
  lemma SortSuffixShape(o: Ordering, n: NullOrdering)
    ensures |SortSuffix(o, n)| >= 4 && SortSuffix(o, n)[1] == (if o == Ascending then 'A' else 'D')
    ensures |SortSuffix(o, n)| == (if o == Ascending then 4 else 5)
                                 + (match n case NullsFirst => 12 case NullsLast => 11 case Undefined => 0)
  {
    var d := if o == Ascending then " ASC" else " DESC";
    var m := match n case NullsFirst => " NULLS FIRST" case NullsLast => " NULLS LAST" case Undefined => "";
    assert SortSuffix(o, n) == d + m;
    assert (d + m)[1] == d[1];
  }

  /** The five frame-bound words; the two offset bounds keep their expression in front. */
  lemma FrameBoundWords(x: Expression, indent: Option<nat>)
    requires ExpressionText(x, indent).Success?
    ensures FrameBoundText(UnboundedPreceding, indent) == Success("UNBOUNDED PRECEDING")
    ensures FrameBoundText(Preceding(x), indent) == Success(ExpressionText(x, indent).value + " PRECEDING")
    ensures FrameBoundText(CurrentRow, indent) == Success("CURRENT ROW")
    ensures FrameBoundText(Following(x), indent) == Success(ExpressionText(x, indent).value + " FOLLOWING")
    ensures FrameBoundText(UnboundedFollowing, indent) == Success("UNBOUNDED FOLLOWING")
  {
  }

  /** A frame with an end bound renders BETWEEN start AND end; without one, only the start. */
  lemma FrameLayout(t: FrameType, s: FrameBound, e: FrameBound, indent: Option<nat>)
    requires FrameBoundText(s, indent).Success? && FrameBoundText(e, indent).Success?
    ensures FrameText(WindowFrame(t, s, Some(e)), indent)
         == Success(FrameTypeText(t) + " BETWEEN " + FrameBoundText(s, indent).value + " AND " + FrameBoundText(e, indent).value)
    ensures FrameText(WindowFrame(t, s, None), indent) == Success(FrameTypeText(t) + " " + FrameBoundText(s, indent).value)
  {
  }

  /** `ORDER BY b DESC NULLS LAST` and `ORDER BY b ASC`: one sort item each. */
  lemma OrderByExamples(b: string, indent: Option<nat>)
    ensures OrderByText(OrderBy([SortItem(Ident(Identifier(b, false)), Descending, NullsLast)]), indent)
         == Success("ORDER BY " + b + " DESC NULLS LAST")
    ensures OrderByText(OrderBy([SortItem(Ident(Identifier(b, false)), Ascending, Undefined)]), indent)
         == Success("ORDER BY " + b + " ASC")
  {
    var key := Ident(Identifier(b, false));
    PlainIdentifierText(b, indent);
    var desc, asc := SortItem(key, Descending, NullsLast), SortItem(key, Ascending, Undefined);
    var d, u := b + " DESC" + " NULLS LAST", b + " ASC" + "";
    assert SortItemText(desc, indent) == Success(d);
    assert SortItemText(asc, indent) == Success(u);
    assert [desc][1..] == [] && [asc][1..] == [];
    assert SortItemTexts([], indent) == Success([]);
    assert [d] + [] == [d] && [u] + [] == [u];
    assert SortItemTexts([desc], indent) == Success([d]);
    assert SortItemTexts([asc], indent) == Success([u]);
    assert JoinWith([d], ", ") == d && JoinWith([u], ", ") == u;
    assert "ORDER BY " + d == "ORDER BY " + b + " DESC NULLS LAST";
    assert "ORDER BY " + u == "ORDER BY " + b + " ASC";
  }

  /** A window with every part present: the name, PARTITION BY, ORDER BY and the frame, space-separated. */
  lemma WindowSpecificationAllParts(spec: WindowSpecification, indent: Option<nat>, pt: seq<string>, ot: string, ft: string)
    requires spec.existingWindowName.Some? && spec.partitionBy != [] && spec.orderBy.Some? && spec.frame.Some?
    requires ExpressionTexts(spec.partitionBy, |spec.partitionBy|, indent) == Success(pt)
    requires OrderByText(spec.orderBy.value, indent) == Success(ot)
    requires FrameText(spec.frame.value, indent) == Success(ft)
    ensures WindowSpecificationText(spec, indent)
         == Success("(" + IdentifierText(spec.existingWindowName.value) + " " + ("PARTITION BY " + JoinWith(pt, ", "))
                    + " " + ot + " " + ft + ")")
  {
    var p1, p2 := IdentifierText(spec.existingWindowName.value), "PARTITION BY " + JoinWith(pt, ", ");
    JoinWithFour(p1, p2, ot, ft, " ");
    assert [p1] + [p2] + [ot] + [ft] == [p1, p2, ot, ft];
    assert "(" + (p1 + " " + p2 + " " + ot + " " + ft) + ")" == "(" + p1 + " " + p2 + " " + ot + " " + ft + ")";
  }

  /** A window with every part present lists them in order, separated by single spaces. */
  lemma WindowSpecificationFullExample(w: string, a: string, b: string, indent: Option<nat>)
    ensures WindowSpecificationText(WindowSpecification(Some(Identifier(w, false)), Plain([a]),
                                                        Some(OrderBy([SortItem(Ident(Identifier(b, false)), Descending, NullsLast)])),
                                                        Some(WindowFrame(Rows, UnboundedPreceding, Some(CurrentRow)))), indent)
         == Success("(" + w + " " + ("PARTITION BY " + a) + " " + ("ORDER BY " + b + " DESC NULLS LAST") + " "
                    + ("ROWS" + " BETWEEN " + "UNBOUNDED PRECEDING" + " AND " + "CURRENT ROW") + ")")
  {
    PlainTexts([a], 1, indent);
    assert [a][..1] == [a];
    assert JoinWith([a], ", ") == a;
    OrderByExamples(b, indent);
    RowsFrameExample(indent);
    var spec := WindowSpecification(Some(Identifier(w, false)), Plain([a]),
                                    Some(OrderBy([SortItem(Ident(Identifier(b, false)), Descending, NullsLast)])),
                                    Some(WindowFrame(Rows, UnboundedPreceding, Some(CurrentRow))));
    WindowSpecificationAllParts(spec, indent, [a], "ORDER BY " + b + " DESC NULLS LAST",
                                "ROWS" + " BETWEEN " + "UNBOUNDED PRECEDING" + " AND " + "CURRENT ROW");
  }

  lemma RowsFrameExample(indent: Option<nat>)
    ensures FrameText(WindowFrame(Rows, UnboundedPreceding, Some(CurrentRow)), indent)
         == Success("ROWS" + " BETWEEN " + "UNBOUNDED PRECEDING" + " AND " + "CURRENT ROW")
  {
  }

  lemma JoinWithFour(p1: string, p2: string, p3: string, p4: string, sep: string)
    ensures JoinWith([p1, p2, p3, p4], sep) == p1 + sep + p2 + sep + p3 + sep + p4
  {
    JoinWithTwo(p1, p2, sep);
    JoinWithSnoc([p1, p2], p3, sep);
    assert [p1, p2] + [p3] == [p1, p2, p3];
    JoinWithSnoc([p1, p2, p3], p4, sep);
    assert [p1, p2, p3] + [p4] == [p1, p2, p3, p4];
  }

  /** Absent parts leave no trace: a window of an ORDER BY alone, and an empty window. */
  lemma WindowSpecificationSparseExamples(b: string, indent: Option<nat>)
    ensures WindowSpecificationText(WindowSpecification(None, [], Some(OrderBy([SortItem(Ident(Identifier(b, false)), Ascending, Undefined)])), None), indent)
         == Success("(ORDER BY " + b + " ASC)")
    ensures WindowSpecificationText(WindowSpecification(None, [], None, None), indent) == Success("()")
  {
    OrderByExamples(b, indent);
    var t := "ORDER BY " + b + " ASC";
    var none: seq<string> := [];
    assert none + none + [t] + none == [t];
    assert JoinWith([t], " ") == t;
    assert none + none + none + none == [];
    assert JoinWith([], " ") == "";
    assert "(" + t + ")" == "(ORDER BY " + b + " ASC)";
    assert "(" + "" + ")" == "()";
  }

  // ----- GROUP BY -----

  /**
   * A simple GROUP BY of one column is that column bare; of any other number of columns it is
   * parenthesised like a grouping set, as are CUBE and ROLLUP.
   */
  lemma SimpleGroupByParentheses(columns: seq<Expression>, indent: nat)
    ensures |columns| == 1 ==> GroupingElementText(SimpleGroupBy(columns), indent) == ExpressionText(columns[0], Some(indent))
    ensures |columns| != 1 ==> GroupingElementText(SimpleGroupBy(columns), indent) == GroupingSetText(columns, indent)
    ensures GroupingSetText(columns, indent).Success? ==>
              var t := GroupingSetText(columns, indent).value; |t| >= 2 && t[0] == '(' && t[|t| - 1] == ')'
    ensures GroupingElementText(Cube(columns), indent) == Prefixed("CUBE ", GroupingSetText(columns, indent))
    ensures GroupingElementText(Rollup(columns), indent) == Prefixed("ROLLUP ", GroupingSetText(columns, indent))
  {
  }

  /** A grouping element of an unrecognised kind contributes an empty text to the list. */
  lemma UnrecognisedGroupingElementIsEmpty(gs: seq<GroupingElement>, indent: nat)
    requires GroupByText(gs, indent).Success?
    ensures GroupByText(gs + [UnrecognisedGroupingElement], indent)
         == Success(if gs == [] then "" else GroupByText(gs, indent).value + ", ")
  {
    var all := gs + [UnrecognisedGroupingElement];
    GroupingElementTextsPrefix(gs, all, |gs|, indent);
    var texts := GroupingElementTexts(gs, |gs|, indent).value;
    assert all[|all| - 1] == UnrecognisedGroupingElement;
    assert GroupingElementText(UnrecognisedGroupingElement, indent) == Success("");
    assert GroupingElementTexts(all, |all|, indent) == Success(texts + [""]);
    JoinWithSnoc(texts, "", ", ");
    assert texts == [] <==> gs == [];
    assert JoinWith(texts, ", ") + ", " + "" == JoinWith(texts, ", ") + ", ";
  }

  /** The texts of the first n elements depend only on those elements. */
  lemma {:induction false} GroupingElementTextsPrefix(gs: seq<GroupingElement>, all: seq<GroupingElement>, n: nat, indent: nat)
    requires n <= |gs| <= |all| && gs == all[..|gs|]
    ensures GroupingElementTexts(all, n, indent) == GroupingElementTexts(gs, n, indent)
    decreases n
  {
    if n > 0 {
      GroupingElementTextsPrefix(gs, all, n - 1, indent);
      assert all[n - 1] == gs[n - 1];
    }
  }

  /** A grouping set of identifiers is their names, parenthesised and comma-separated. */
  lemma PlainGroupingSet(names: seq<string>, indent: nat)
    ensures GroupingSetText(Plain(names), indent) == Success("(" + JoinWith(names, ", ") + ")")
  {
    PlainTexts(names, |names|, Some(indent));
    assert names[..|names|] == names;
  }

  /** GROUPING SETS ((a, b), (c)): each set parenthesised, the list parenthesised once more. */
  lemma GroupingSetsExample(a: string, b: string, c: string, indent: nat)
    ensures GroupingElementText(GroupingSets([GroupingSet(Plain([a, b])), GroupingSet(Plain([c]))]), indent)
         == Success("GROUPING SETS (" + ("(" + a + ", " + b + ")") + ", " + ("(" + c + ")") + ")")
  {
    var s1, s2 := GroupingSet(Plain([a, b])), GroupingSet(Plain([c]));
    PlainGroupingSet([a, b], indent);
    PlainGroupingSet([c], indent);
    JoinWithTwo(a, b, ", ");
    assert JoinWith([c], ", ") == c;
    var t1, t2 := "(" + a + ", " + b + ")", "(" + c + ")";
    assert "(" + (a + ", " + b) + ")" == t1;
    assert GroupingSetText(s1.columns, indent) == Success(t1);
    assert GroupingSetText(s2.columns, indent) == Success(t2);
    assert [s1, s2][1..] == [s2] && [s2][1..] == [];
    assert GroupingSetTexts([s2], indent) == Success([t2] + []);
    assert [t2] + [] == [t2] && [t1] + [t2] == [t1, t2];
    assert GroupingSetTexts([s1, s2], indent) == Success([t1, t2]);
    JoinWithTwo(t1, t2, ", ");
    assert "GROUPING SETS (" + (t1 + ", " + t2) + ")" == "GROUPING SETS (" + t1 + ", " + t2 + ")";
  }

  /** A GROUP BY of one element is that element's text. */
  lemma SingleGroupingElement(g: GroupingElement, indent: nat)
    requires GroupingElementText(g, indent).Success?
    ensures GroupByText([g], indent) == GroupingElementText(g, indent)
  {
    var t := GroupingElementText(g, indent).value;
    assert GroupingElementTexts([g], 0, indent) == Success([]);
    assert GroupingElementTexts([g], 1, indent) == Success([] + [t]);
    assert [] + [t] == [t];
  }

  /**
   * The GROUP BY line at the top level: the keyword, DISTINCT written between two spaces (so
   * the space after GROUP BY is doubled), the elements, then a line break.
   */
  lemma GroupByClauseTopLevel(distinct: bool, gs: seq<GroupingElement>)
    requires GroupByText(gs, 0).Success?
    ensures GroupByClause(Some(GroupBy(distinct, gs)), 0)
         == Success((if distinct then "GROUP BY  DISTINCT " else "GROUP BY ") + GroupByText(gs, 0).value + "\n")
  {
    var t := GroupByText(gs, 0).value;
    assert IndentString(0) == "";
    assert "GROUP BY " + " DISTINCT " == "GROUP BY  DISTINCT ";
    assert "" + ("GROUP BY " + " DISTINCT " + t) + "\n" == "GROUP BY  DISTINCT " + t + "\n";
    assert "" + ("GROUP BY " + "" + t) + "\n" == "GROUP BY " + t + "\n";
  }

  /** GROUP BY (a, b), GROUP BY a and GROUP BY  DISTINCT a. */
  lemma GroupByClauseExamples(a: string, b: string)
    ensures GroupByClause(Some(GroupBy(false, [SimpleGroupBy(Plain([a, b]))])), 0)
         == Success("GROUP BY " + ("(" + a + ", " + b + ")") + "\n")
    ensures GroupByClause(Some(GroupBy(false, [SimpleGroupBy(Plain([a]))])), 0) == Success("GROUP BY " + a + "\n")
    ensures GroupByClause(Some(GroupBy(true, [SimpleGroupBy(Plain([a]))])), 0) == Success("GROUP BY  DISTINCT " + a + "\n")
  {
    PlainGroupingSet([a, b], 0);
    JoinWithTwo(a, b, ", ");
    PlainIdentifierText(a, Some(0));
    var t := "(" + a + ", " + b + ")";
    var two, one := SimpleGroupBy(Plain([a, b])), SimpleGroupBy(Plain([a]));
    assert "(" + (a + ", " + b) + ")" == t;
    assert |Plain([a, b])| == 2 && Plain([a]) == [Ident(Identifier(a, false))];
    assert GroupingElementText(two, 0) == Success(t);
    assert GroupingElementText(one, 0) == Success(a);
    SingleGroupingElement(two, 0);
    SingleGroupingElement(one, 0);
    GroupByClauseTopLevel(false, [two]);
    GroupByClauseTopLevel(false, [one]);
    GroupByClauseTopLevel(true, [one]);
  }
}
