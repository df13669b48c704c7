/**
 * The text the formatter produces for expressions (ExpressionFormatter) and for queries and
 * relations (SqlFormatter), as functions of the syntax tree and the indent level.
 *
 * The two source files call each other: ARRAY[...], subscripts, scalar subqueries and EXISTS
 * are rendered through SqlFormatter.formatSql at indent 0, and queries render their
 * expressions through ExpressionFormatter. The specification functions of both therefore
 * form one recursive family, kept in this module.
 *
 * Exceptions the source can raise become `Failure`s:
 *   - NullIndent: an AND/OR reached with a null indent, which Strings.repeat unboxes;
 *   - NoSuchElement: a SELECT with no items (getOnlyElement on an empty list);
 *   - UnknownJoinCriteria: an inner or outer join without USING, ON or NATURAL.
 * Where a rendering evaluates several parts, the first failing part (in the source's
 * evaluation order) decides the failure.
 */
module Formatting {
  import opened Wrappers
  import opened Text
  import opened Ast
  import opened StringLiterals

  datatype FormatError = NullIndent | NoSuchElement | UnknownJoinCriteria

  type Rendered = Result<string, FormatError>

  // ----- Small renderings -----

  /** indentString: n copies of the two-space INDENT. */
  function IndentString(n: nat): string {
    Repeat("  ", n)
  }

  /** s with every '"' doubled. */
  function DoubleDoubleQuotes(s: string): string
    decreases |s|
  {
    if s == [] then ""
    else (if s[0] == '"' then "\"\"" else [s[0]]) + DoubleDoubleQuotes(s[1..])
  }

  /** formatIdentifier / a delimited identifier: in double quotes, inner ones doubled. */
  function QuoteIdentifier(s: string): string {
    "\"" + DoubleDoubleQuotes(s) + "\""
  }

  /** visitIdentifier. */
  function IdentifierText(id: Identifier): string {
    if !id.delimited then id.value else QuoteIdentifier(id.value)
  }

  /** SqlFormatter.formatName: the library's rendering of each original part, joined by '.'. */
  function FormatName(name: QualifiedName): string {
    JoinWith(name.renderedParts, ".")
  }

  function LogicalOperatorText(op: LogicalOperator): string {
    match op
    case And => "AND"
    case Or => "OR"
  }

  function ComparisonOperatorText(op: ComparisonOperator): string {
    match op
    case Equal => "="
    case NotEqual => "<>"
    case LessThan => "<"
    case LessThanOrEqual => "<="
    case GreaterThan => ">"
    case GreaterThanOrEqual => ">="
    case IsDistinctFrom => "IS DISTINCT FROM"
  }

  function ArithmeticOperatorText(op: ArithmeticOperator): string {
    match op
    case Add => "+"
    case Subtract => "-"
    case Multiply => "*"
    case Divide => "/"
    case Modulus => "%"
  }

  function IntervalFieldText(f: IntervalField): string {
    match f
    case Year => "YEAR"
    case Month => "MONTH"
    case Day => "DAY"
    case Hour => "HOUR"
    case Minute => "MINUTE"
    case Second => "SECOND"
  }

  function QuantifierText(q: Quantifier): string {
    match q
    case QuantifierAll => "ALL"
    case QuantifierAny => "ANY"
    case QuantifierSome => "SOME"
  }

  function FrameTypeText(t: FrameType): string {
    match t
    case Range => "RANGE"
    case Rows => "ROWS"
    case Groups => "GROUPS"
  }

  function JoinTypeName(t: JoinType): string {
    match t
    case Cross => "CROSS"
    case Inner => "INNER"
    case LeftOuter => "LEFT"
    case RightOuter => "RIGHT"
    case FullOuter => "FULL"
    case Implicit => "IMPLICIT"
  }

  function SampleTypeText(t: SampleType): string {
    match t
    case Bernoulli => "BERNOULLI"
    case System => "SYSTEM"
  }

  function ToLowerAscii(c: char): char {
    if 'A' <= c <= 'Z' then (c as int + 32) as char else c
  }

  /**
   * String.equalsIgnoreCase against an all-lower-case ASCII word. Java's per-character
   * case folding can only map ASCII letters onto the letters of "count", so ASCII folding
   * decides it exactly for that word.
   */
  predicate EqualsIgnoreCaseAscii(s: string, lowerWord: string) {
    |s| == |lowerWord| && forall k :: 0 <= k < |s| ==> ToLowerAscii(s[k]) == lowerWord[k]
  }

  /** The text of a part that may fail, prefixed by p. */
  function Prefixed(p: string, r: Rendered): Rendered {
    if r.Failure? then r else Success(p + r.value)
  }

  /** A part that may fail, between a prefix and a suffix. */
  function Enclosed(p: string, r: Rendered, q: string): Rendered {
    if r.Failure? then r else Success(p + r.value + q)
  }

  /** Two parts that may fail, evaluated left to right, with text around and between them. */
  function Joined(p: string, a: Rendered, mid: string, b: Rendered, q: string): Rendered {
    if a.Failure? then a else if b.Failure? then b else Success(p + a.value + mid + b.value + q)
  }

  /** formatBinaryExpression: AND/OR break the line at the current indent; the rest stay inline. */
  function BinaryText(op: string, left: Rendered, right: Rendered, indent: Option<nat>): Rendered {
    var l :- left;
    if op == "AND" || op == "OR" then
      if indent.None? then Failure(NullIndent)
      else
        var r :- right;
        Success(l + "\n" + Repeat("  ", indent.value) + op + " " + r)
    else
      var r :- right;
      Success(l + " " + op + " " + r)
  }

  // ----- Data types (their renderings never use the indent and cannot fail) -----

  function DataTypeText(t: DataType): string
    decreases t, 1
  {
    match t
    case RowDataType(fields) => "ROW(" + JoinWith(RowFieldTexts(fields), ", ") + ")"
    case GenericDataType(name, args) =>
      name + (if args == [] then "" else "(" + JoinWith(TypeParameterTexts(args), ", ") + ")")
    case IntervalDayTimeDataType(from, to) =>
      "INTERVAL " + IntervalFieldText(from) + (if from != to then " TO " + IntervalFieldText(to) else "")
    case DateTimeDataType(kind, precision, withTimeZone) =>
      (if kind == Timestamp then "timestamp" else "time")
      + (if precision.Some? then "(" + precision.value + ")" else "")
      + (if withTimeZone then " with time zone" else "")
  }

  function RowFieldTexts(fields: seq<RowField>): (r: seq<string>)
    ensures |r| == |fields|
    decreases fields, 0
  {
    if fields == [] then []
    else
      [RowFieldText(fields[0])] + RowFieldTexts(fields[1..])
  }

  function RowFieldText(f: RowField): string
    decreases f, 2
  {
    (if f.fieldName.Some? then IdentifierText(f.fieldName.value) + " " else "") + DataTypeText(f.fieldType)
  }

  function TypeParameterTexts(args: seq<DataTypeParameter>): (r: seq<string>)
    ensures |r| == |args|
    decreases args, 0
  {
    if args == [] then []
    else
      [TypeParameterText(args[0])] + TypeParameterTexts(args[1..])
  }

  function TypeParameterText(a: DataTypeParameter): string
    decreases a, 2
  {
    match a
    case TypeParameter(p) => DataTypeText(p)
    case NumericParameter(v) => v
  }

  // ----- Expressions -----

  /** Formatter.process(expression, indent), the visit method of the expression's node kind. */
  function ExpressionText(e: Expression, indent: Option<nat>): Rendered
    decreases e, 2
  {
    match e
    case Row(items) =>
      var texts :- ExpressionTexts(items, |items|, indent);
      Success("ROW (" + JoinWith(texts, ", ") + ")")
    case AtTimeZone(v, tz) => Joined("", ExpressionText(v, indent), " AT TIME ZONE ", ExpressionText(tz, indent), "")
    case Format(args) => Enclosed("format(", JoinExpressions(args), ")")
    case Extract(field, x) => Enclosed("EXTRACT(" + field + " FROM ", ExpressionText(x, indent), ")")
    case ArrayConstructor(vs) =>
      var texts :- RootTexts(vs, |vs|);
      Success("ARRAY[" + JoinWith(texts, ",") + "]")
    case Subscript(b, i) => Joined("", RootText(b), "[", RootText(i), "]")
    case SubqueryExpression(q) => Enclosed("(", QueryText(q, 0), ")")
    case Exists(sub) => Enclosed("(EXISTS ", RootText(sub), ")")
    case Dereference(b, field) => Enclosed("", ExpressionText(b, indent), "." + IdentifierText(field))
    case FunctionCall(_, _, _, _, _, _, _) => FunctionCallText(e, indent)
    case Lambda(argumentTexts, body) =>
      Enclosed("(" + JoinWith(argumentTexts, ", ") + ") -> ", ExpressionText(body, indent), "")
    case Bind(values, fn) =>
      var arguments :- BindArgumentsText(values, |values|, indent);
      Enclosed("\"$INTERNAL$BIND\"(" + arguments, ExpressionText(fn, indent), ")")
    case LogicalBinary(op, l, r) =>
      BinaryText(LogicalOperatorText(op), ExpressionText(l, indent), ExpressionText(r, indent), indent)
    case Not(v) => Enclosed("(NOT ", ExpressionText(v, indent), ")")
    case Comparison(op, l, r) =>
      BinaryText(ComparisonOperatorText(op), ExpressionText(l, indent), ExpressionText(r, indent), indent)
    case IsNull(v) => Enclosed("", ExpressionText(v, indent), " IS NULL")
    case IsNotNull(v) => Enclosed("", ExpressionText(v, indent), " IS NOT NULL")
    case NullIf(a, b) => Joined("NULLIF(", ExpressionText(a, indent), ", ", ExpressionText(b, indent), ")")
    case If(c, t, f) =>
      var ct :- ExpressionText(c, indent);
      var tt :- ExpressionText(t, indent);
      var ft :- if f.Some? then Prefixed(", ", ExpressionText(f.value, indent)) else Success("");
      Success("IF(" + ct + ", " + tt + ft + ")")
    case Try(v) => Enclosed("TRY(", ExpressionText(v, indent), ")")
    case Coalesce(operands) => Enclosed("COALESCE(", JoinExpressions(operands), ")")
    case ArithmeticUnary(sign, v) =>
      if sign == Minus then Enclosed("-(", ExpressionText(v, indent), ")") else Enclosed("+", ExpressionText(v, indent), "")
    case ArithmeticBinary(op, l, r) =>
      BinaryText(ArithmeticOperatorText(op), ExpressionText(l, indent), ExpressionText(r, indent), indent)
    case Like(v, p, esc) =>
      var vt :- ExpressionText(v, indent);
      var pt :- ExpressionText(p, indent);
      var et :- if esc.Some? then Prefixed(" ESCAPE ", ExpressionText(esc.value, indent)) else Success("");
      Success(vt + " LIKE " + pt + et)
    case Cast(x, t, safe) =>
      Enclosed((if safe then "TRY_CAST" else "CAST") + "(", ExpressionText(x, indent), " AS " + DataTypeText(t) + ")")
    case SearchedCase(whens, default) =>
      var wt :- WhenClauseTexts(whens, |whens|, indent);
      var dt :- ElseParts(default, indent);
      Success("(" + JoinWith(["CASE"] + wt + dt + ["END"], " ") + ")")
    case SimpleCase(operand, whens, default) =>
      var ot :- ExpressionText(operand, indent);
      var wt :- WhenClauseTexts(whens, |whens|, indent);
      var dt :- ElseParts(default, indent);
      Success("(" + JoinWith(["CASE", ot] + wt + dt + ["END"], " ") + ")")
    case Between(v, lo, hi) =>
      var vt :- ExpressionText(v, indent);
      Joined(vt + " BETWEEN ", ExpressionText(lo, indent), " AND ", ExpressionText(hi, indent), "")
    case In(v, list) => Joined("", ExpressionText(v, indent), " IN ", ExpressionText(list, indent), "")
    case InList(values) => JoinExpressions(values)
    case QuantifiedComparison(op, q, v, sub) =>
      Joined("(", ExpressionText(v, indent), " " + ComparisonOperatorText(op) + " " + QuantifierText(q) + " ",
             ExpressionText(sub, indent), ")")
    case GroupingOperation(columns) => Enclosed("GROUPING (", JoinExpressions(columns), ")")
    case _ => Success(LiteralText(e))
  }

  /** The expressions that have no sub-expression: literals, names and the like; they cannot fail. */
  function LiteralText(e: Expression): string {
    match e
    case CurrentUser => "CURRENT_USER"
    case CurrentPath => "CURRENT_PATH"
    case CurrentTime(name, precision) =>
      name + (if precision.Some? then "(" + IntText(precision.value) + ")" else "")
    case BooleanLiteral(b) => if b then "true" else "false"
    case StringLiteral(v) => StringLiteralText(v)
    case CharLiteral(v) => "CHAR " + StringLiteralText(v)
    case BinaryLiteral(hex) => "X'" + hex + "'"
    case Parameter => "?"
    case AllRows => "ALL"
    case LongLiteral(v) => IntText(v)
    case DoubleLiteral(rendered) => rendered
    case DecimalLiteral(v) => "DECIMAL '" + v + "'"
    case GenericLiteral(typeText, v) => typeText + " " + StringLiteralText(v)
    case TimeLiteral(v) => "TIME '" + v + "'"
    case TimestampLiteral(v) => "TIMESTAMP '" + v + "'"
    case NullLiteral => "null"
    case IntervalLiteral(v, sign, start, end) =>
      "INTERVAL" + (if sign == Negative then " -" else "") + " '" + v + "' " + IntervalFieldText(start)
      + (if end.Some? then " TO " + IntervalFieldText(end.value) else "")
    case Ident(id) => IdentifierText(id)
    case LambdaArgument(id) => IdentifierText(id)
    case SymbolReference(name) => QuoteIdentifier(name)
    case FieldReference(i) => ":input(" + IntText(i) + ")"
    case _ => ""
  }

  /** The expressions of a list, each at the given indent, in order; the first failure wins. */
  function ExpressionTexts(es: seq<Expression>, n: nat, indent: Option<nat>): (r: Result<seq<string>, FormatError>)
    requires n <= |es|
    ensures r.Success? ==> |r.value| == n
    decreases es, 0, n
  {
    if n == 0 then Success([])
    else
      var init :- ExpressionTexts(es, n - 1, indent);
      var last :- ExpressionText(es[n - 1], indent);
      Success(init + [last])
  }
  /** A failure among the first i elements is the failure of the whole list. */
  lemma {:induction false} ExpressionTextsFailure(es: seq<Expression>, i: nat, indent: Option<nat>)
    requires i <= |es| && ExpressionTexts(es, i, indent).Failure?
    ensures ExpressionTexts(es, |es|, indent) == ExpressionTexts(es, i, indent)
    decreases |es| - i
  {
    if i < |es| {
      ExpressionTextsFailure(es, i + 1, indent);
    }
  }


  /** joinExpressions: every element formatted with a null indent, joined by ", ". */
  function JoinExpressions(es: seq<Expression>): Rendered
    decreases es, 1
  {
    var texts :- ExpressionTexts(es, |es|, None);
    Success(JoinWith(texts, ", "))
  }

  /** The first n values of a bind expression, each followed by ", ". */
  function BindArgumentsText(values: seq<Expression>, n: nat, indent: Option<nat>): Rendered
    requires n <= |values|
    decreases values, 0, n
  {
    if n == 0 then Success("")
    else
      var init :- BindArgumentsText(values, n - 1, indent);
      var last :- ExpressionText(values[n - 1], indent);
      Success(init + last + ", ")
  }
  /** A failure among the first i values is the failure of the whole list. */
  lemma {:induction false} BindArgumentsTextFailure(values: seq<Expression>, i: nat, indent: Option<nat>)
    requires i <= |values| && BindArgumentsText(values, i, indent).Failure?
    ensures BindArgumentsText(values, |values|, indent) == BindArgumentsText(values, i, indent)
    decreases |values| - i
  {
    if i < |values| {
      BindArgumentsTextFailure(values, i + 1, indent);
    }
  }

  /** visitWhenClause for each clause of a CASE. */
  function WhenClauseTexts(ws: seq<WhenClause>, n: nat, indent: Option<nat>): (r: Result<seq<string>, FormatError>)
    requires n <= |ws|
    ensures r.Success? ==> |r.value| == n
    decreases ws, 0, n
  {
    if n == 0 then Success([])
    else
      var init :- WhenClauseTexts(ws, n - 1, indent);
      var last :- WhenClauseText(ws[n - 1], indent);
      Success(init + [last])
  }
  /** A failure among the first i elements is the failure of the whole list. */
  lemma {:induction false} WhenClauseTextsFailure(ws: seq<WhenClause>, i: nat, indent: Option<nat>)
    requires i <= |ws| && WhenClauseTexts(ws, i, indent).Failure?
    ensures WhenClauseTexts(ws, |ws|, indent) == WhenClauseTexts(ws, i, indent)
    decreases |ws| - i
  {
    if i < |ws| {
      WhenClauseTextsFailure(ws, i + 1, indent);
    }
  }


  /** visitWhenClause: "WHEN operand THEN result". */
  function WhenClauseText(w: WhenClause, indent: Option<nat>): Rendered
    decreases w, 3
  {
    var o :- ExpressionText(w.whenOperand, indent);
    var v :- ExpressionText(w.result, indent);
    Success("WHEN " + o + " THEN " + v)
  }

  /** The ELSE part of a CASE: nothing, or the words "ELSE" and the default value. */
  function ElseParts(default: Option<Expression>, indent: Option<nat>): Result<seq<string>, FormatError>
    decreases default, 0
  {
    match default
    case None => Success([])
    case Some(d) =>
      var t :- ExpressionText(d, indent);
      Success(["ELSE", t])
  }

  function NullTreatmentText(n: Option<NullTreatment>): string {
    match n
    case None => ""
    case Some(Ignore) => " IGNORE NULLS"
    case Some(Respect) => " RESPECT NULLS"
  }

  /** visitFunctionCall. */
  function FunctionCallText(e: Expression, indent: Option<nat>): Rendered
    requires e.FunctionCall?
    decreases e, 1
  {
    var joined :- JoinExpressions(e.arguments);
    var counted := if e.arguments == [] && EqualsIgnoreCaseAscii(e.name.suffix, "count") then "*" else joined;
    var arguments := if e.distinct then "DISTINCT " + counted else counted;
    var orderBy :- if e.orderBy.Some? then Prefixed(" ", OrderByText(e.orderBy.value, indent)) else Success("");
    var filter :- if e.filter.Some? then Prefixed(" FILTER WHERE ", ExpressionText(e.filter.value, indent))
                  else Success("");
    var over :- if e.window.Some? then Prefixed(" OVER ", WindowText(e.window.value, indent)) else Success("");
    Success(FormatName(e.name) + "(" + arguments + orderBy + ")" + NullTreatmentText(e.nullTreatment) + filter + over)
  }

  // ----- ORDER BY, windows and frames -----

  /** formatOrderBy. */
  function OrderByText(ob: OrderBy, indent: Option<nat>): Rendered
    decreases ob, 1
  {
    var items :- SortItemTexts(ob.sortItems, indent);
    Success("ORDER BY " + JoinWith(items, ", "))
  }

  /** sortItemFormatterFunction applied to each sort item. */
  function SortItemTexts(items: seq<SortItem>, indent: Option<nat>): (r: Result<seq<string>, FormatError>)
    ensures r.Success? ==> |r.value| == |items|
    decreases items, 0
  {
    if items == [] then Success([])
    else
      var head :- SortItemText(items[0], indent);
      var tail :- SortItemTexts(items[1..], indent);
      Success([head] + tail)
  }

  /** The key, then ASC or DESC, then the null ordering when one is given. */
  function SortItemText(item: SortItem, indent: Option<nat>): Rendered
    decreases item, 3
  {
    var key :- ExpressionText(item.sortKey, indent);
    Success(key + (if item.ordering == Ascending then " ASC" else " DESC")
            + (match item.nullOrdering
               case NullsFirst => " NULLS FIRST"
               case NullsLast => " NULLS LAST"
               case Undefined => ""))
  }

  /** formatWindow: a named window is its identifier, an inline one its specification. */
  function WindowText(w: Window, indent: Option<nat>): Rendered
    decreases w, 2
  {
    match w
    case WindowReference(name) => Success(IdentifierText(name))
    case InlineWindow(spec) => WindowSpecificationText(spec, indent)
  }

  /** formatWindowSpecification: the present parts, in fixed order, space-separated in parentheses. */
  function WindowSpecificationText(spec: WindowSpecification, indent: Option<nat>): Rendered
    decreases spec, 1
  {
    var existing := if spec.existingWindowName.Some? then [IdentifierText(spec.existingWindowName.value)] else [];
    var partition :- if spec.partitionBy == [] then Success([])
                     else
                       var texts :- ExpressionTexts(spec.partitionBy, |spec.partitionBy|, indent);
                       Success(["PARTITION BY " + JoinWith(texts, ", ")]);
    var orderBy :- if spec.orderBy.Some? then
                     var t :- OrderByText(spec.orderBy.value, indent);
                     Success([t])
                   else Success([]);
    var frame :- if spec.frame.Some? then
                   var t :- FrameText(spec.frame.value, indent);
                   Success([t])
                 else Success([]);
    Success("(" + JoinWith(existing + partition + orderBy + frame, " ") + ")")
  }

  /** formatFrame: the frame type, then BETWEEN start AND end, or the start alone. */
  function FrameText(frame: WindowFrame, indent: Option<nat>): Rendered
    decreases frame, 1
  {
    var start :- FrameBoundText(frame.start, indent);
    if frame.end.Some? then
      var end :- FrameBoundText(frame.end.value, indent);
      Success(FrameTypeText(frame.frameType) + " BETWEEN " + start + " AND " + end)
    else
      Success(FrameTypeText(frame.frameType) + " " + start)
  }

  /** formatFrameBound. */
  function FrameBoundText(b: FrameBound, indent: Option<nat>): Rendered
    decreases b, 0
  {
    match b
    case UnboundedPreceding => Success("UNBOUNDED PRECEDING")
    case Preceding(x) =>
      var t :- ExpressionText(x, indent);
      Success(t + " PRECEDING")
    case CurrentRow => Success("CURRENT ROW")
    case Following(x) =>
      var t :- ExpressionText(x, indent);
      Success(t + " FOLLOWING")
    case UnboundedFollowing => Success("UNBOUNDED FOLLOWING")
  }

  // ----- GROUP BY -----

  /** formatGroupingSet: the columns in parentheses. */
  function GroupingSetText(columns: seq<Expression>, indent: nat): Rendered
    decreases columns, 1
  {
    var texts :- ExpressionTexts(columns, |columns|, Some(indent));
    Success("(" + JoinWith(texts, ", ") + ")")
  }

  function GroupingSetTexts(sets: seq<GroupingSet>, indent: nat): (r: Result<seq<string>, FormatError>)
    ensures r.Success? ==> |r.value| == |sets|
    decreases sets, 0
  {
    if sets == [] then Success([])
    else
      var head :- GroupingSetText(sets[0].columns, indent);
      var tail :- GroupingSetTexts(sets[1..], indent);
      Success([head] + tail)
  }

  /** The text formatGroupBy produces for one grouping element. */
  function GroupingElementText(g: GroupingElement, indent: nat): Rendered
    decreases g, 0
  {
    match g
    case SimpleGroupBy(columns) =>
      if |columns| == 1 then ExpressionText(columns[0], Some(indent)) else GroupingSetText(columns, indent)
    case GroupingSets(sets) =>
      var texts :- GroupingSetTexts(sets, indent);
      Success("GROUPING SETS (" + JoinWith(texts, ", ") + ")")
    case Cube(columns) => Prefixed("CUBE ", GroupingSetText(columns, indent))
    case Rollup(columns) => Prefixed("ROLLUP ", GroupingSetText(columns, indent))
    case UnrecognisedGroupingElement => Success("")
  }

  function GroupingElementTexts(gs: seq<GroupingElement>, n: nat, indent: nat): (r: Result<seq<string>, FormatError>)
    requires n <= |gs|
    ensures r.Success? ==> |r.value| == n
    decreases gs, 1, n
  {
    if n == 0 then Success([])
    else
      var init :- GroupingElementTexts(gs, n - 1, indent);
      var last :- GroupingElementText(gs[n - 1], indent);
      Success(init + [last])
  }
  /** A failure among the first i elements is the failure of the whole list. */
  lemma {:induction false} GroupingElementTextsFailure(gs: seq<GroupingElement>, i: nat, indent: nat)
    requires i <= |gs| && GroupingElementTexts(gs, i, indent).Failure?
    ensures GroupingElementTexts(gs, |gs|, indent) == GroupingElementTexts(gs, i, indent)
    decreases |gs| - i
  {
    if i < |gs| {
      GroupingElementTextsFailure(gs, i + 1, indent);
    }
  }


  /** formatGroupBy: the elements joined by ", ". */
  function GroupByText(gs: seq<GroupingElement>, indent: nat): Rendered
    decreases gs, 2
  {
    var texts :- GroupingElementTexts(gs, |gs|, indent);
    Success(JoinWith(texts, ", "))
  }

  // ----- SqlFormatter.formatSql on an expression -----

  /**
   * formatSql(expression): SqlFormatter renders a ROW itself ("ROW(" without a space, items
   * through formatSql again); every other expression goes to formatExpression at indent 0.
   */
  function RootText(e: Expression): Rendered
    decreases e, 3
  {
    match e
    case Row(items) =>
      var texts :- RowItemsText(items, |items|);
      Success("ROW(" + texts + ")")
    case _ => ExpressionText(e, Some(0))
  }

  /** The first n items of a ROW at the root, ", " before each item but the first. */
  function RowItemsText(items: seq<Expression>, n: nat): Rendered
    requires n <= |items|
    decreases items, 0, n
  {
    if n == 0 then Success("")
    else
      var init :- RowItemsText(items, n - 1);
      var last :- RootText(items[n - 1]);
      Success(init + (if n == 1 then "" else ", ") + last)
  }
  /** A failure among the first i items is the failure of the whole row. */
  lemma {:induction false} RowItemsTextFailure(items: seq<Expression>, i: nat)
    requires i <= |items| && RowItemsText(items, i).Failure?
    ensures RowItemsText(items, |items|) == RowItemsText(items, i)
    decreases |items| - i
  {
    if i < |items| {
      RowItemsTextFailure(items, i + 1);
    }
  }

  function RootTexts(es: seq<Expression>, n: nat): (r: Result<seq<string>, FormatError>)
    requires n <= |es|
    ensures r.Success? ==> |r.value| == n
    decreases es, 0, n
  {
    if n == 0 then Success([])
    else
      var init :- RootTexts(es, n - 1);
      var last :- RootText(es[n - 1]);
      Success(init + [last])
  }
  /** A failure among the first i elements is the failure of the whole list. */
  lemma {:induction false} RootTextsFailure(es: seq<Expression>, i: nat)
    requires i <= |es| && RootTexts(es, i).Failure?
    ensures RootTexts(es, |es|) == RootTexts(es, i)
    decreases |es| - i
  {
    if i < |es| {
      RootTextsFailure(es, i + 1);
    }
  }


  // ----- Queries and relations (SqlFormatter) -----

  /** The start of an item line of a SELECT or VALUES list: "  " before the first item, ", " before the others. */
  function ItemLead(first: bool, indent: nat): string {
    "\n" + IndentString(indent) + (if first then "  " else ", ")
  }

  /** appendAliasColumns: nothing for an empty list, else " (a, b)". */
  function AliasColumnsText(columns: seq<string>): string {
    if columns == [] then "" else " (" + JoinWith(columns, ", ") + ")"
  }

  /** visitQuery. */
  function QueryText(q: Query, indent: nat): Rendered
    decreases q, 3
  {
    var with :- if q.with.Some? then WithText(q.with.value, indent) else Success("");
    var body :- QueryBodyText(q.body, indent);
    var paging :- PagingText(OrderByClause(q.orderBy, indent), OffsetClause(q.offset, indent), LimitClause(q.limit, indent));
    Success(with + body + paging)
  }

  /**
   * The ORDER BY, OFFSET and LIMIT clauses that end both a query and a query specification,
   * each present one in this order; the first failure wins.
   */
  function PagingText(orderBy: Rendered, offset: Rendered, limit: Rendered): Rendered {
    var o :- orderBy;
    var f :- offset;
    var l :- limit;
    Success(o + f + l)
  }

  /** The WHERE, GROUP BY and HAVING clauses of a query specification, in this order; the first failure wins. */
  function FilteringText(where: Rendered, groupBy: Rendered, having: Rendered): Rendered {
    var w :- where;
    var g :- groupBy;
    var h :- having;
    Success(w + g + h)
  }

  /** The WITH clause of visitQuery. */
  function WithText(w: With, indent: nat): Rendered
    decreases w, 1
  {
    var queries :- WithQueriesText(w.queries, |w.queries|, indent);
    Success(IndentString(indent) + "WITH" + (if w.recursive then " RECURSIVE" else "") + "\n  " + queries)
  }

  /** The first n named queries of a WITH clause, each but the last of all followed by ", ". */
  function WithQueriesText(qs: seq<WithQuery>, n: nat, indent: nat): Rendered
    requires n <= |qs|
    decreases qs, 0, n
  {
    if n == 0 then Success("")
    else
      var init :- WithQueriesText(qs, n - 1, indent);
      var last :- WithQueryText(qs[n - 1], indent);
      if n < |qs| then Success(init + last + ", ") else Success(init + last)
  }

  /** A failure among the first i elements is the failure of the whole list. */
  lemma {:induction false} WithQueriesTextFailure(qs: seq<WithQuery>, i: nat, indent: nat)
    requires i <= |qs| && WithQueriesText(qs, i, indent).Failure?
    ensures WithQueriesText(qs, |qs|, indent) == WithQueriesText(qs, i, indent)
    decreases |qs| - i
  {
    if i < |qs| {
      WithQueriesTextFailure(qs, i + 1, indent);
    }
  }

  /** One named query: `name[ (columns)] AS (subquery) ` and a line break. */
  function WithQueryText(q: WithQuery, indent: nat): Rendered
    decreases q, 5
  {
    var sub :- TableSubqueryText(q.query, indent);
    var columns := if q.columnNames.Some? then AliasColumnsText(q.columnNames.value) else "";
    Success(IndentString(indent) + IdentifierText(q.name) + columns + " AS " + sub + "\n")
  }

  /** visitTableSubquery: "(", newline, the query one level deeper, then ") " at this level. */
  function TableSubqueryText(q: Query, indent: nat): Rendered
    decreases q, 4
  {
    var t :- QueryText(q, indent + 1);
    Success("(\n" + t + (IndentString(indent) + ") "))
  }

  /** The ORDER BY line of a query or query specification. */
  function OrderByClause(ob: Option<OrderBy>, indent: nat): Rendered
    decreases ob, 2
  {
    match ob
    case None => Success("")
    case Some(o) =>
      var t :- OrderByText(o, Some(indent));
      Success(IndentString(indent) + t + "\n")
  }

  /** visitOffset. */
  function OffsetClause(off: Option<Offset>, indent: nat): Rendered
    decreases off, 2
  {
    match off
    case None => Success("")
    case Some(o) =>
      var t :- ExpressionText(o.rowCount, Some(indent));
      Success(IndentString(indent) + "OFFSET " + t + " ROWS\n")
  }

  /** visitLimit / visitFetchFirst. */
  function LimitClause(lim: Option<Limit>, indent: nat): Rendered
    decreases lim, 2
  {
    match lim
    case None => Success("")
    case Some(Limit(x)) =>
      var t :- ExpressionText(x, Some(indent));
      Success(IndentString(indent) + "LIMIT " + t + "\n")
    case Some(FetchFirst(count, withTies)) =>
      var rows :- if count.Some? then
                    var t :- ExpressionText(count.value, Some(indent));
                    Success(t + " ROWS ")
                  else Success("ROW ");
      Success(IndentString(indent) + ("FETCH FIRST " + rows) + (if withTies then "WITH TIES" else "ONLY") + "\n")
  }

  /** processRelation: a bare table becomes "TABLE name" on its own line. */
  function QueryBodyText(r: Relation, indent: nat): Rendered
    decreases r, 3
  {
    match r
    case Table(name) => Success("TABLE " + name.text + "\n")
    case _ => RelationText(r, indent)
  }

  /** The first n operands of a UNION or INTERSECT, each but the last of all followed by the keyword. */
  function OperandsText(rs: seq<Relation>, n: nat, keyword: string, indent: nat): Rendered
    requires n <= |rs|
    decreases rs, 0, n
  {
    if n == 0 then Success("")
    else
      var init :- OperandsText(rs, n - 1, keyword, indent);
      var last :- QueryBodyText(rs[n - 1], indent);
      if n < |rs| then Success(init + last + keyword) else Success(init + last)
  }

  /** A failure among the first i elements is the failure of the whole list. */
  lemma {:induction false} OperandsTextFailure(rs: seq<Relation>, i: nat, keyword: string, indent: nat)
    requires i <= |rs| && OperandsText(rs, i, keyword, indent).Failure?
    ensures OperandsText(rs, |rs|, keyword, indent) == OperandsText(rs, i, keyword, indent)
    decreases |rs| - i
  {
    if i < |rs| {
      OperandsTextFailure(rs, i + 1, keyword, indent);
    }
  }

  /** The keyword between two operands of a set operation: "UNION " / "INTERSECT " [+ "ALL "]. */
  function SetOperatorText(keyword: string, distinct: bool): string {
    keyword + " " + (if distinct then "" else "ALL ")
  }

  /** Formatter.process(relation, indent): the visit method of the relation's kind. */
  function RelationText(r: Relation, indent: nat): Rendered
    decreases r, 2
  {
    match r
    case Table(name) => Success(FormatName(name))
    case Join(_, _, _, _) => JoinText(r, indent)
    case AliasedRelation(rel, alias, columns) =>
      var t :- RelationSuffixText(rel, indent);
      Success(t + (" AS " + IdentifierText(alias) + AliasColumnsText(columns)))
    case SampledRelation(rel, sampleType, percentage) =>
      var t :- RelationSuffixText(rel, indent);
      Success(t + (" TABLESAMPLE " + SampleTypeText(sampleType) + " (" + percentage + ")"))
    case Unnest(rendered, withOrdinality) =>
      Success("UNNEST(" + JoinWith(rendered, ", ") + ")" + (if withOrdinality then " WITH ORDINALITY" else ""))
    case Lateral(q) =>
      var t :- QueryText(q, indent + 1);
      Success(IndentString(indent) + "LATERAL (" + t + (IndentString(indent) + ")"))
    case Values(rows) =>
      var lines :- RowLines(rows, |rows|, indent);
      Success(" VALUES " + lines + "\n")
    case TableSubquery(q) => TableSubqueryText(q, indent)
    case Union(relations, distinct) => OperandsText(relations, |relations|, SetOperatorText("UNION", distinct), indent)
    case Intersect(relations, distinct) =>
      OperandsText(relations, |relations|, SetOperatorText("INTERSECT", distinct), indent)
    case Except(left, right, distinct) =>
      var l :- QueryBodyText(left, indent);
      var rt :- QueryBodyText(right, indent);
      Success(l + SetOperatorText("EXCEPT", distinct) + rt)
    case QuerySpecification(_, _, _, _, _, _, _, _, _) => QuerySpecificationText(r, indent)
  }

  /** The first n rows of a VALUES list, each on its own line after its ItemLead. */
  function RowLines(rows: seq<Expression>, n: nat, indent: nat): Rendered
    requires n <= |rows|
    decreases rows, 0, n
  {
    if n == 0 then Success("")
    else
      var init :- RowLines(rows, n - 1, indent);
      var last :- ExpressionText(rows[n - 1], Some(indent));
      Success(init + ItemLead(n == 1, indent) + last)
  }

  /** A failure among the first i elements is the failure of the whole list. */
  lemma {:induction false} RowLinesFailure(rows: seq<Expression>, i: nat, indent: nat)
    requires i <= |rows| && RowLines(rows, i, indent).Failure?
    ensures RowLines(rows, |rows|, indent) == RowLines(rows, i, indent)
    decreases |rows| - i
  {
    if i < |rows| {
      RowLinesFailure(rows, i + 1, indent);
    }
  }

  /**
   * processRelationSuffix: an aliased or sampled relation under an alias or a sample is
   * wrapped in "( " ... ")", one level deeper.
   */
  function RelationSuffixText(r: Relation, indent: nat): Rendered
    decreases r, 3
  {
    if r.AliasedRelation? || r.SampledRelation? then
      var t :- RelationText(r, indent + 1);
      Success("( " + t + (IndentString(indent) + ")"))
    else
      RelationText(r, indent)
  }

  /** The criteria part of an inner or outer join; a missing criteria object throws. */
  function JoinCriteriaText(criteria: Option<JoinCriteria>, indent: nat): Rendered
    decreases criteria, 0
  {
    match criteria
    case None => Failure(UnknownJoinCriteria)
    case Some(Using(columns)) => Success(" USING (" + JoinWith(columns, ", ") + ")")
    case Some(On(x)) => Prefixed(" ON ", ExpressionText(x, Some(indent)))
    case Some(Natural) => Success("")
  }

  /** visitJoin. */
  function JoinText(r: Relation, indent: nat): Rendered
    requires r.Join?
    decreases r, 1
  {
    var head :- JoinHeadText(r, indent);
    var right :- RelationText(r.right, indent);
    var end :- JoinEndText(r, indent);
    Success(head + right + end)
  }

  /** What precedes the right side of a join: "(" unless implicit, the left side, then the join keyword line. */
  function JoinHeadText(r: Relation, indent: nat): Rendered
    requires r.Join?
    decreases r, 0
  {
    var left :- RelationText(r.left, indent);
    Success((if r.joinType == Implicit then "" else "(") + left + JoinKeywordText(r, indent))
  }

  /** The line between the two sides of a join: ", " for an implicit join, else the join type and " JOIN ". */
  function JoinKeywordText(r: Relation, indent: nat): string
    requires r.Join?
  {
    var typeName := (if r.criteria == Some(Natural) then "NATURAL " else "") + JoinTypeName(r.joinType);
    "\n" + (IndentString(indent) + (if r.joinType == Implicit then ", " else typeName + " JOIN "))
  }

  /** What follows the right side of a join: the criteria unless CROSS or implicit, then ")" unless implicit. */
  function JoinEndText(r: Relation, indent: nat): Rendered
    requires r.Join?
    decreases r, 0
  {
    if r.joinType == Implicit then Success("")
    else if r.joinType == Cross then Success(")")
    else Enclosed("", JoinCriteriaText(r.criteria, indent), ")")
  }

  /** visitSingleColumn / visitAllColumns. */
  function SelectItemText(item: SelectItem, indent: nat): Rendered
    decreases item, 0
  {
    match item
    case SingleColumn(x, alias) =>
      var t :- ExpressionText(x, Some(indent));
      Success(t + (if alias.Some? then " " + IdentifierText(alias.value) else ""))
    case AllColumns(target, aliases) =>
      var prefix :- if target.Some? then
                      var t :- ExpressionText(target.value, Some(indent));
                      Success(t + ".")
                    else Success("");
      Success(prefix + "*" + (if aliases == [] then "" else " AS (" + JoinWith(aliases, ", ") + ")"))
  }

  /** The first n items of a multi-item SELECT, each on its own line after its ItemLead. */
  function SelectItemLines(items: seq<SelectItem>, n: nat, indent: nat): Rendered
    requires n <= |items|
    decreases items, 1, n
  {
    if n == 0 then Success("")
    else
      var init :- SelectItemLines(items, n - 1, indent);
      var last :- SelectItemText(items[n - 1], indent);
      Success(init + ItemLead(n == 1, indent) + last)
  }

  /** A failure among the first i elements is the failure of the whole list. */
  lemma {:induction false} SelectItemLinesFailure(items: seq<SelectItem>, i: nat, indent: nat)
    requires i <= |items| && SelectItemLines(items, i, indent).Failure?
    ensures SelectItemLines(items, |items|, indent) == SelectItemLines(items, i, indent)
    decreases |items| - i
  {
    if i < |items| {
      SelectItemLinesFailure(items, i + 1, indent);
    }
  }

  /** visitSelect: one item inline, several on their own lines, none an error. */
  function SelectText(select: Select, indent: nat): Rendered
    decreases select, 2
  {
    Prefixed(IndentString(indent) + "SELECT" + (if select.distinct then " DISTINCT" else ""),
             SelectListText(select.selectItems, indent))
  }

  /** The select list: one item per line when there are several, else " " and the only item. */
  function SelectListText(items: seq<SelectItem>, indent: nat): Rendered
    decreases items, 2
  {
    if |items| > 1 then
      var lines :- SelectItemLines(items, |items|, indent);
      Success(lines + "\n")
    else if |items| == 1 then
      var t :- SelectItemText(items[0], indent);
      Success(" " + t + "\n")
    else
      Failure(NoSuchElement)
  }

  /**
   * The first n lines of a multi-definition WINDOW clause: each definition one level deeper,
   * each but the last of all followed by ",\n".
   */
  function WindowLines(ws: seq<WindowDefinition>, n: nat, indent: nat): Rendered
    requires n <= |ws|
    decreases ws, 0, n
  {
    if n == 0 then Success("")
    else
      var init :- WindowLines(ws, n - 1, indent);
      var last :- WindowDefinitionText(ws[n - 1], indent);
      if n < |ws| then Success(init + (IndentString(indent + 1) + last) + ",\n")
      else Success(init + (IndentString(indent + 1) + last))
  }

  /** A failure among the first i elements is the failure of the whole list. */
  lemma {:induction false} WindowLinesFailure(ws: seq<WindowDefinition>, i: nat, indent: nat)
    requires i <= |ws| && WindowLines(ws, i, indent).Failure?
    ensures WindowLines(ws, |ws|, indent) == WindowLines(ws, i, indent)
    decreases |ws| - i
  {
    if i < |ws| {
      WindowLinesFailure(ws, i + 1, indent);
    }
  }

  /** formatWindowDefinition. */
  function WindowDefinitionText(w: WindowDefinition, indent: nat): Rendered
    decreases w, 2
  {
    var spec :- WindowSpecificationText(w.window, Some(indent));
    Success(IdentifierText(w.name) + " AS " + spec)
  }

  /** Each text prefixed by the indent string of the given level. */
  function IndentEach(texts: seq<string>, indent: nat): (r: seq<string>)
    ensures |r| == |texts|
    ensures forall k :: 0 <= k < |texts| ==> r[k] == IndentString(indent) + texts[k]
    decreases |texts|
  {
    if texts == [] then [] else [IndentString(indent) + texts[0]] + IndentEach(texts[1..], indent)
  }

  /** The WINDOW clause: one definition inline, several one per line, separated by ",\n". */
  function WindowClauseText(ws: seq<WindowDefinition>, indent: nat): Rendered
    decreases ws, 1
  {
    if |ws| == 0 then Success("")
    else if |ws| == 1 then
      var def :- WindowDefinitionText(ws[0], indent);
      Success(IndentString(indent) + "WINDOW" + (" " + def + "\n"))
    else
      var lines :- WindowLines(ws, |ws|, indent);
      Success(IndentString(indent) + "WINDOW" + "\n" + lines + "\n")
  }

  /** visitQuerySpecification: the clauses in their fixed order. */
  function QuerySpecificationText(r: Relation, indent: nat): Rendered
    requires r.QuerySpecification?
    decreases r, 1
  {
    var select :- SelectText(r.select, indent);
    var from :- FromClause(r.from, indent);
    var clauses :- QueryClausesText(r, indent);
    Success(select + from + "\n" + clauses)
  }

  /** The FROM keyword on its own line, then the relation on the next, two spaces in. */
  function FromClause(from: Option<Relation>, indent: nat): Rendered
    decreases from, 3
  {
    match from
    case None => Success("")
    case Some(rel) =>
      var t :- RelationText(rel, indent);
      Success(IndentString(indent) + "FROM" + "\n" + (IndentString(indent) + "  ") + t)
  }

  /** The clauses after FROM, each present one on its own line(s). */
  function QueryClausesText(r: Relation, indent: nat): Rendered
    requires r.QuerySpecification?
    decreases r, 0
  {
    var filtering :- FilteringText(WhereClause(r.where, indent), GroupByClause(r.groupBy, indent), HavingClause(r.having, indent));
    var windows :- WindowClauseText(r.windows, indent);
    var paging :- PagingText(OrderByClause(r.orderBy, indent), OffsetClause(r.offset, indent), LimitClause(r.limit, indent));
    Success(filtering + windows + paging)
  }

  /** WHERE on its own line, the condition on the next one level deeper (and at that indent). */
  function WhereClause(where: Option<Expression>, indent: nat): Rendered
    decreases where, 2
  {
    match where
    case None => Success("")
    case Some(x) =>
      var t :- ExpressionText(x, Some(indent + 1));
      Success(IndentString(indent) + "WHERE\n" + (IndentString(indent + 1) + t) + "\n")
  }

  /** GROUP BY, with " DISTINCT " after it when the grouping is distinct, then the elements. */
  function GroupByClause(groupBy: Option<GroupBy>, indent: nat): Rendered
    decreases groupBy, 3
  {
    match groupBy
    case None => Success("")
    case Some(g) =>
      var t :- GroupByText(g.groupingElements, indent);
      Success(IndentString(indent) + ("GROUP BY " + (if g.distinct then " DISTINCT " else "") + t) + "\n")
  }

  function HavingClause(having: Option<Expression>, indent: nat): Rendered
    decreases having, 2
  {
    match having
    case None => Success("")
    case Some(x) =>
      var t :- ExpressionText(x, Some(indent));
      Success(IndentString(indent) + ("HAVING " + t) + "\n")
  }
}
