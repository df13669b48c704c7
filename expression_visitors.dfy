/**
 * The visit methods of ExpressionFormatter that build their text with a loop: the bind
 * expression (a local StringBuilder), the array constructor, the two CASE forms and
 * formatGroupBy (a list of parts joined at the end). Each is proved to produce exactly the
 * text, or the failure, that the Formatting module specifies for its node.
 */
module ExpressionVisitors {
  import opened Wrappers
  import opened Text
  import opened Ast
  import opened Formatting

  /** visitBindExpression: every value followed by ", ", then the function and ")". */
  method FormatBind(values: seq<Expression>, bindFunction: Expression, indent: Option<nat>) returns (r: Rendered)
    ensures r == ExpressionText(Bind(values, bindFunction), indent)
  {
    BindUnfold(values, bindFunction, indent);
    var builder := AppendBindArguments("\"$INTERNAL$BIND\"(", values, indent);
    if builder.Failure? {
      return builder;
    }
    var f := ExpressionText(bindFunction, indent);
    if f.Failure? {
      return f;
    }
    r := Success(builder.value + f.value + ")");
  }

  lemma BindUnfold(values: seq<Expression>, bindFunction: Expression, indent: Option<nat>)
    ensures var at, ft := BindArgumentsText(values, |values|, indent), ExpressionText(bindFunction, indent);
      ExpressionText(Bind(values, bindFunction), indent)
      == if at.Failure? then Failure(at.error)
         else if ft.Failure? then Failure(ft.error)
         else Success("\"$INTERNAL$BIND\"(" + at.value + ft.value + ")")
  {
  }

  /** The loop of visitBindExpression: each value and ", " appended to the builder. */
  method AppendBindArguments(builder: string, values: seq<Expression>, indent: Option<nat>) returns (r: Rendered)
    ensures r.Failure? <==> BindArgumentsText(values, |values|, indent).Failure?
    ensures r.Failure? ==> r == BindArgumentsText(values, |values|, indent)
    ensures r.Success? ==> r.value == builder + BindArgumentsText(values, |values|, indent).value
  {
    var b := builder;
    ghost var text := "";
    for i := 0 to |values|
      invariant BindArgumentsText(values, i, indent) == Success(text)
      invariant b == builder + text
    {
      var t := ExpressionText(values[i], indent);
      if t.Failure? {
        BindArgumentsTextFailure(values, i + 1, indent);
        return t;
      }
      AppendAssoc(builder, text, t.value + ", ");
      b := b + (t.value + ", ");
      text := text + t.value + ", ";
    }
    r := Success(b);
  }

  /** visitArrayConstructor: each value through formatSql, joined by ",". */
  method FormatArrayConstructor(values: seq<Expression>, indent: Option<nat>) returns (r: Rendered)
    ensures r == ExpressionText(ArrayConstructor(values), indent)
  {
    var valueStrings: seq<string> := [];
    for i := 0 to |values|
      invariant RootTexts(values, i) == Success(valueStrings)
    {
      var t := RootText(values[i]);
      if t.Failure? {
        RootTextsFailure(values, i + 1);
        return Failure(t.error);
      }
      valueStrings := valueStrings + [t.value];
    }
    r := Success("ARRAY[" + JoinWith(valueStrings, ",") + "]");
  }

  /** The WHEN clauses of a CASE, added one by one to the parts that follow the head parts. */
  method AddWhenClauses(head: seq<string>, whens: seq<WhenClause>, indent: Option<nat>)
    returns (r: Result<seq<string>, FormatError>)
    ensures r.Failure? <==> WhenClauseTexts(whens, |whens|, indent).Failure?
    ensures r.Failure? ==> r.error == WhenClauseTexts(whens, |whens|, indent).error
    ensures r.Success? ==> r.value == head + WhenClauseTexts(whens, |whens|, indent).value
  {
    var parts := head;
    ghost var texts: seq<string> := [];
    for i := 0 to |whens|
      invariant WhenClauseTexts(whens, i, indent) == Success(texts)
      invariant parts == head + texts
    {
      var t := WhenClauseText(whens[i], indent);
      if t.Failure? {
        WhenClauseTextsFailure(whens, i + 1, indent);
        return Failure(t.error);
      }
      AppendAssoc(head, texts, [t.value]);
      parts := parts + [t.value];
      texts := texts + [t.value];
    }
    r := Success(parts);
  }

  /** The parts after the WHEN clauses: ELSE and the default when there is one, then END. */
  method AddCaseEnd(parts: seq<string>, default: Option<Expression>, indent: Option<nat>)
    returns (r: Result<seq<string>, FormatError>)
    ensures r.Failure? <==> ElseParts(default, indent).Failure?
    ensures r.Failure? ==> r.error == ElseParts(default, indent).error
    ensures r.Success? ==> r.value == parts + ElseParts(default, indent).value + ["END"]
  {
    var result := parts;
    if default.Some? {
      var d := ExpressionText(default.value, indent);
      if d.Failure? {
        return Failure(d.error);
      }
      result := result + ["ELSE", d.value];
    }
    r := Success(result + ["END"]);
  }

  /** visitSearchedCaseExpression: CASE, the WHEN clauses, the ELSE part, END, joined by spaces. */
  method FormatSearchedCase(whens: seq<WhenClause>, default: Option<Expression>, indent: Option<nat>)
    returns (r: Rendered)
    ensures r == ExpressionText(SearchedCase(whens, default), indent)
  {
    SearchedCaseUnfold(whens, default, indent);
    var parts := AddWhenClauses(["CASE"], whens, indent);
    if parts.Failure? {
      return Failure(parts.error);
    }
    parts := AddCaseEnd(parts.value, default, indent);
    if parts.Failure? {
      return Failure(parts.error);
    }
    r := Success("(" + JoinWith(parts.value, " ") + ")");
  }

  lemma SearchedCaseUnfold(whens: seq<WhenClause>, default: Option<Expression>, indent: Option<nat>)
    ensures var wt, dt := WhenClauseTexts(whens, |whens|, indent), ElseParts(default, indent);
      ExpressionText(SearchedCase(whens, default), indent)
      == if wt.Failure? then Failure(wt.error)
         else if dt.Failure? then Failure(dt.error)
         else Success("(" + JoinWith(["CASE"] + wt.value + dt.value + ["END"], " ") + ")")
  {
  }

  /** visitSimpleCaseExpression: as the searched form, with the operand after CASE. */
  method FormatSimpleCase(operand: Expression, whens: seq<WhenClause>, default: Option<Expression>,
                          indent: Option<nat>)
    returns (r: Rendered)
    ensures r == ExpressionText(SimpleCase(operand, whens, default), indent)
  {
    SimpleCaseUnfold(operand, whens, default, indent);
    var o := ExpressionText(operand, indent);
    if o.Failure? {
      return o;
    }
    var parts := AddWhenClauses(["CASE", o.value], whens, indent);
    if parts.Failure? {
      return Failure(parts.error);
    }
    parts := AddCaseEnd(parts.value, default, indent);
    if parts.Failure? {
      return Failure(parts.error);
    }
    r := Success("(" + JoinWith(parts.value, " ") + ")");
  }

  lemma SimpleCaseUnfold(operand: Expression, whens: seq<WhenClause>, default: Option<Expression>, indent: Option<nat>)
    ensures var ot, wt, dt := ExpressionText(operand, indent), WhenClauseTexts(whens, |whens|, indent), ElseParts(default, indent);
      ExpressionText(SimpleCase(operand, whens, default), indent)
      == if ot.Failure? then Failure(ot.error)
         else if wt.Failure? then Failure(wt.error)
         else if dt.Failure? then Failure(dt.error)
         else Success("(" + JoinWith(["CASE", ot.value] + wt.value + dt.value + ["END"], " ") + ")")
  {
  }

  /** formatGroupBy: the text of each grouping element, joined by ", ". */
  method FormatGroupBy(groupingElements: seq<GroupingElement>, indent: nat) returns (r: Rendered)
    ensures r == GroupByText(groupingElements, indent)
  {
    var resultStrings: seq<string> := [];
    for i := 0 to |groupingElements|
      invariant GroupingElementTexts(groupingElements, i, indent) == Success(resultStrings)
    {
      var result := GroupingElementText(groupingElements[i], indent);
      if result.Failure? {
        GroupingElementTextsFailure(groupingElements, i + 1, indent);
        return Failure(result.error);
      }
      resultStrings := resultStrings + [result.value];
    }
    r := Success(JoinWith(resultStrings, ", "));
  }
}
