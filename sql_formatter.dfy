/**
 * SqlFormatter's visitor: a Formatter object that owns a text buffer and renders a tree
 * by appending to it, threading the indent level through the visit methods.
 *
 * Each visit method is a method of the class that may only append. It reports with `ok`
 * whether it finished or the source would have thrown, and it is proved against the
 * specification function of its node kind in the Formatting and Statements modules: it
 * finishes exactly when the specification succeeds, and then it has appended exactly that
 * text. Whatever happens, the text before the call is a prefix of the text after it.
 */
module SqlFormatting {
  import opened Wrappers
  import opened Text
  import opened Ast
  import opened StringLiterals
  import opened Formatting
  import opened Statements

  /**
   * The Formatter visitor of SqlFormatter. Its methods return whether they finished (false
   * where the source throws). The proofs track the text appended since a method started
   * (`start`) and regroup each concatenation with AppendAssoc as they go.
   */
  class Formatter {
    /** The StringBuilder every visit method appends to. */
    var builder: string

    constructor (initial: string)
      ensures builder == initial
    {
      builder := initial;
    }

    /** append(indent, value): the indent string, then the value. */
    method Append(indent: nat, value: string)
      modifies this
      ensures old(builder) <= builder
      ensures builder == old(builder) + (IndentString(indent) + value)
    {
      AppendAssoc(builder, IndentString(indent), value);
      builder := builder + IndentString(indent) + value;
    }

    /** visitQuery. */
    method ProcessQuery(q: Query, indent: nat) returns (ok: bool)
      modifies this
      ensures old(builder) <= builder
      decreases q, 3
      ensures ok == QueryText(q, indent).Success?
      ensures ok ==> builder == old(builder) + QueryText(q, indent).value
    {
      ghost var start := builder;
      if q.with.Some? {
        ok := ProcessWith(q.with.value, indent);
        if !ok {
          return;
        }
      }
      ghost var acc := if q.with.Some? then WithText(q.with.value, indent).value else "";
      ok := ProcessQueryBody(q.body, indent);
      if !ok {
        return;
      }
      AppendAssoc(start, acc, QueryBodyText(q.body, indent).value);
      acc := acc + QueryBodyText(q.body, indent).value;
      ok := ProcessPaging(q.orderBy, q.offset, q.limit, indent);
      if ok {
        AppendAssoc(start, acc, PagingText(OrderByClause(q.orderBy, indent), OffsetClause(q.offset, indent), LimitClause(q.limit, indent)).value);
      }
    }

    /** The ORDER BY, OFFSET and LIMIT steps shared by visitQuery and visitQuerySpecification. */
    method ProcessPaging(orderBy: Option<OrderBy>, offset: Option<Offset>, limit: Option<Limit>, indent: nat)
      returns (ok: bool)
      modifies this
      ensures old(builder) <= builder
      ensures ok == PagingText(OrderByClause(orderBy, indent), OffsetClause(offset, indent), LimitClause(limit, indent)).Success?
      ensures ok ==> builder == old(builder)
                              + PagingText(OrderByClause(orderBy, indent), OffsetClause(offset, indent), LimitClause(limit, indent)).value
    {
      ghost var start := builder;
      ok := ProcessOrderBy(orderBy, indent);
      if !ok {
        return;
      }
      ok := ProcessOffset(offset, indent);
      if !ok {
        return;
      }
      AppendAssoc(start, OrderByClause(orderBy, indent).value, OffsetClause(offset, indent).value);
      ok := ProcessLimit(limit, indent);
      if ok {
        AppendAssoc(start, OrderByClause(orderBy, indent).value + OffsetClause(offset, indent).value, LimitClause(limit, indent).value);
      }
    }

    /** The WITH clause of visitQuery. */
    method ProcessWith(w: With, indent: nat) returns (ok: bool)
      modifies this
      ensures old(builder) <= builder
      decreases w, 1
      ensures ok == WithText(w, indent).Success?
      ensures ok ==> builder == old(builder) + WithText(w, indent).value
    {
      ghost var start := builder;
      Append(indent, "WITH");
      if w.recursive {
        AppendAssoc(start, IndentString(indent) + "WITH", " RECURSIVE");
        builder := builder + " RECURSIVE";
      }
      ghost var header := IndentString(indent) + "WITH" + (if w.recursive then " RECURSIVE" else "");
      AppendAssoc(start, header, "\n  ");
      builder := builder + "\n  ";
      header := header + "\n  ";
      ok := ProcessWithQueries(w.queries, indent);
      if ok {
        AppendAssoc(start, header, WithQueriesText(w.queries, |w.queries|, indent).value);
      }
    }

    /** The iterator loop of the WITH clause: ", " after every named query but the last. */
    method ProcessWithQueries(queries: seq<WithQuery>, indent: nat) returns (ok: bool)
      modifies this
      ensures old(builder) <= builder
      decreases queries, 0, |queries|
      ensures ok == WithQueriesText(queries, |queries|, indent).Success?
      ensures ok ==> builder == old(builder) + WithQueriesText(queries, |queries|, indent).value
    {
      ghost var head := builder;
      ghost var text := "";
      var i := 0;
      while i < |queries|
        invariant 0 <= i <= |queries|
        invariant WithQueriesText(queries, i, indent) == Success(text)
        invariant builder == head + text
      {
        ok := ProcessWithQuery(queries[i], indent);
        if !ok {
          WithQueriesTextFailure(queries, i + 1, indent);
          return;
        }
        ghost var t := WithQueryText(queries[i], indent).value;
        AppendAssoc(head, text, t);
        text := text + t;
        if i + 1 < |queries| {
          AppendAssoc(head, text, ", ");
          builder := builder + ", ";
          text := text + ", ";
        }
        i := i + 1;
      }
      ok := true;
    }

    /** One named query of a WITH clause. */
    method ProcessWithQuery(wq: WithQuery, indent: nat) returns (ok: bool)
      modifies this
      ensures old(builder) <= builder
      decreases wq, 5
      ensures ok == WithQueryText(wq, indent).Success?
      ensures ok ==> builder == old(builder) + WithQueryText(wq, indent).value
    {
      ghost var start := builder;
      Append(indent, IdentifierText(wq.name));
      ghost var acc := IndentString(indent) + IdentifierText(wq.name);
      if wq.columnNames.Some? {
        AppendAssoc(start, acc, AliasColumnsText(wq.columnNames.value));
        builder := builder + AliasColumnsText(wq.columnNames.value);
      }
      acc := acc + (if wq.columnNames.Some? then AliasColumnsText(wq.columnNames.value) else "");
      AppendAssoc(start, acc, " AS ");
      builder := builder + " AS ";
      acc := acc + " AS ";
      ok := ProcessTableSubquery(wq.query, indent);
      if !ok {
        return;
      }
      AppendAssoc(start, acc, TableSubqueryText(wq.query, indent).value);
      acc := acc + TableSubqueryText(wq.query, indent).value;
      AppendAssoc(start, acc, "\n");
      builder := builder + "\n";
    }

    /** visitTableSubquery. */
    method ProcessTableSubquery(q: Query, indent: nat) returns (ok: bool)
      modifies this
      ensures old(builder) <= builder
      decreases q, 4
      ensures ok == TableSubqueryText(q, indent).Success?
      ensures ok ==> builder == old(builder) + TableSubqueryText(q, indent).value
    {
      ghost var start := builder;
      builder := builder + "(\n";
      ok := ProcessQuery(q, indent + 1);
      if !ok {
        return;
      }
      AppendAssoc(start, "(\n", QueryText(q, indent + 1).value);
      AppendAssoc(start, "(\n" + QueryText(q, indent + 1).value, IndentString(indent) + ") ");
      Append(indent, ") ");
    }

    /** visitOrderBy. */
    method ProcessOrderBy(orderBy: Option<OrderBy>, indent: nat) returns (ok: bool)
      modifies this
      ensures old(builder) <= builder
      ensures ok == OrderByClause(orderBy, indent).Success?
      ensures ok ==> builder == old(builder) + OrderByClause(orderBy, indent).value
    {
      if orderBy.None? {
        return true;
      }
      var o := orderBy.value;
      var t := OrderByText(o, Some(indent));
      if t.Failure? {
        return false;
      }
      ghost var start := builder;
      Append(indent, t.value);
      AppendAssoc(start, IndentString(indent) + t.value, "\n");
      builder := builder + "\n";
      ok := true;
    }

    /** visitOffset. */
    method ProcessOffset(offset: Option<Offset>, indent: nat) returns (ok: bool)
      modifies this
      ensures old(builder) <= builder
      ensures ok == OffsetClause(offset, indent).Success?
      ensures ok ==> builder == old(builder) + OffsetClause(offset, indent).value
    {
      if offset.None? {
        return true;
      }
      var o := offset.value;
      ghost var start := builder;
      Append(indent, "OFFSET ");
      var t := ExpressionText(o.rowCount, Some(indent));
      if t.Failure? {
        return false;
      }
      AppendAssoc(start, IndentString(indent) + "OFFSET ", t.value);
      builder := builder + t.value;
      AppendAssoc(start, IndentString(indent) + "OFFSET " + t.value, " ROWS\n");
      builder := builder + " ROWS\n";
      ok := true;
    }

    /** visitLimit / visitFetchFirst. */
    method ProcessLimit(limit: Option<Limit>, indent: nat) returns (ok: bool)
      modifies this
      ensures old(builder) <= builder
      ensures ok == LimitClause(limit, indent).Success?
      ensures ok ==> builder == old(builder) + LimitClause(limit, indent).value
    {
      if limit.None? {
        return true;
      }
      var lim := limit.value;
      ghost var start := builder;
      match lim {
        case Limit(x) =>
          Append(indent, "LIMIT ");
          var t := ExpressionText(x, Some(indent));
          if t.Failure? {
            return false;
          }
          AppendAssoc(start, IndentString(indent) + "LIMIT ", t.value);
          builder := builder + t.value;
          AppendAssoc(start, IndentString(indent) + "LIMIT " + t.value, "\n");
          builder := builder + "\n";
        case FetchFirst(count, withTies) =>
          var rows := "ROW ";
          if count.Some? {
            var t := ExpressionText(count.value, Some(indent));
            if t.Failure? {
              return false;
            }
            rows := t.value + " ROWS ";
          }
          Append(indent, "FETCH FIRST " + rows);
          ghost var acc := IndentString(indent) + ("FETCH FIRST " + rows);
          AppendAssoc(start, acc, if withTies then "WITH TIES" else "ONLY");
          builder := builder + (if withTies then "WITH TIES" else "ONLY");
          AppendAssoc(start, acc + (if withTies then "WITH TIES" else "ONLY"), "\n");
          builder := builder + "\n";
      }
      ok := true;
    }

    /** processRelation. */
    method ProcessQueryBody(r: Relation, indent: nat) returns (ok: bool)
      modifies this
      ensures old(builder) <= builder
      decreases r, 3
      ensures ok == QueryBodyText(r, indent).Success?
      ensures ok ==> builder == old(builder) + QueryBodyText(r, indent).value
    {
      if r.Table? {
        builder := builder + ("TABLE " + r.tableName.text + "\n");
        ok := true;
      } else {
        ok := ProcessRelation(r, indent);
      }
    }

    /** Formatter.process on a relation: dispatch on its kind. */
    method ProcessRelation(r: Relation, indent: nat) returns (ok: bool)
      modifies this
      ensures old(builder) <= builder
      decreases r, 2
      ensures ok == RelationText(r, indent).Success?
      ensures ok ==> builder == old(builder) + RelationText(r, indent).value
    {
      ghost var start := builder;
      match r
      case Table(name) =>
        builder := builder + FormatName(name);
        ok := true;
      case Join(_, _, _, _) =>
        ok := ProcessJoin(r, indent);
      case AliasedRelation(relation, alias, columns) =>
        ok := ProcessRelationSuffix(relation, indent);
        if ok {
          var suffix := " AS " + IdentifierText(alias) + AliasColumnsText(columns);
          AppendAssoc(start, RelationSuffixText(relation, indent).value, suffix);
          builder := builder + suffix;
        }
      case SampledRelation(relation, sampleType, percentage) =>
        ok := ProcessRelationSuffix(relation, indent);
        if ok {
          var suffix := " TABLESAMPLE " + SampleTypeText(sampleType) + " (" + percentage + ")";
          AppendAssoc(start, RelationSuffixText(relation, indent).value, suffix);
          builder := builder + suffix;
        }
      case Unnest(rendered, withOrdinality) =>
        builder := builder + ("UNNEST(" + JoinWith(rendered, ", ") + ")");
        if withOrdinality {
          AppendAssoc(start, "UNNEST(" + JoinWith(rendered, ", ") + ")", " WITH ORDINALITY");
          builder := builder + " WITH ORDINALITY";
        }
        ok := true;
      case Lateral(q) =>
        Append(indent, "LATERAL (");
        ok := ProcessQuery(q, indent + 1);
        if ok {
          AppendAssoc(start, IndentString(indent) + "LATERAL (", QueryText(q, indent + 1).value);
          AppendAssoc(start, IndentString(indent) + "LATERAL (" + QueryText(q, indent + 1).value,
                      IndentString(indent) + ")");
          Append(indent, ")");
        }
      case Values(rows) =>
        ok := ProcessValues(rows, indent);
      case TableSubquery(q) =>
        ok := ProcessTableSubquery(q, indent);
      case Union(_, _) =>
        ok := ProcessSetOperation(r, indent);
      case Intersect(_, _) =>
        ok := ProcessSetOperation(r, indent);
      case Except(left, right, distinct) =>
        ok := ProcessQueryBody(left, indent);
        if !ok {
          return;
        }
        ghost var acc := QueryBodyText(left, indent).value;
        AppendAssoc(start, acc, SetOperatorText("EXCEPT", distinct));
        builder := builder + SetOperatorText("EXCEPT", distinct);
        acc := acc + SetOperatorText("EXCEPT", distinct);
        ok := ProcessQueryBody(right, indent);
        if ok {
          AppendAssoc(start, acc, QueryBodyText(right, indent).value);
        }
      case QuerySpecification(_, _, _, _, _, _, _, _, _) =>
        ok := ProcessQuerySpecification(r, indent);
    }

    /** processRelationSuffix. */
    method ProcessRelationSuffix(r: Relation, indent: nat) returns (ok: bool)
      modifies this
      ensures old(builder) <= builder
      decreases r, 3
      ensures ok == RelationSuffixText(r, indent).Success?
      ensures ok ==> builder == old(builder) + RelationSuffixText(r, indent).value
    {
      if r.AliasedRelation? || r.SampledRelation? {
        ghost var start := builder;
        builder := builder + "( ";
        ok := ProcessRelation(r, indent + 1);
        if ok {
          AppendAssoc(start, "( ", RelationText(r, indent + 1).value);
          AppendAssoc(start, "( " + RelationText(r, indent + 1).value, IndentString(indent) + ")");
          Append(indent, ")");
        }
      } else {
        ok := ProcessRelation(r, indent);
      }
    }

    /** visitJoin: the criteria are checked after both sides have been appended. */
    method ProcessJoin(r: Relation, indent: nat) returns (ok: bool)
      requires r.Join?
      modifies this
      ensures old(builder) <= builder
      decreases r, 1
      ensures ok == JoinText(r, indent).Success?
      ensures ok ==> builder == old(builder) + JoinText(r, indent).value
    {
      ghost var start := builder;
      ok := ProcessJoinHead(r, indent);
      if !ok {
        return;
      }
      ghost var head := JoinHeadText(r, indent).value;
      ok := ProcessRelation(r.right, indent);
      if !ok {
        return;
      }
      ghost var right := RelationText(r.right, indent).value;
      AppendAssoc(start, head, right);
      var end := JoinEndText(r, indent);
      if end.Failure? {
        return false;
      }
      AppendAssoc(start, head + right, end.value);
      builder := builder + end.value;
    }

    /** The opening parenthesis, the left side and the join keyword line of visitJoin. */
    method ProcessJoinHead(r: Relation, indent: nat) returns (ok: bool)
      requires r.Join?
      modifies this
      ensures old(builder) <= builder
      decreases r, 0
      ensures ok == JoinHeadText(r, indent).Success?
      ensures ok ==> builder == old(builder) + JoinHeadText(r, indent).value
    {
      ghost var start := builder;
      var open := if r.joinType == Implicit then "" else "(";
      builder := builder + open;
      ok := ProcessRelation(r.left, indent);
      if !ok {
        return;
      }
      var keyword := JoinKeywordText(r, indent);
      AppendAssoc(start, open + RelationText(r.left, indent).value, keyword);
      builder := builder + keyword;
    }

    /** visitValues: " VALUES ", the rows, a line break. */
    method ProcessValues(rows: seq<Expression>, indent: nat) returns (ok: bool)
      modifies this
      ensures old(builder) <= builder
      ensures ok == RelationText(Values(rows), indent).Success?
      ensures ok ==> builder == old(builder) + RelationText(Values(rows), indent).value
    {
      ghost var start := builder;
      builder := builder + " VALUES ";
      ok := ProcessRows(rows, indent);
      if !ok {
        return;
      }
      ghost var lines := RowLines(rows, |rows|, indent).value;
      AppendAssoc(start, " VALUES ", lines);
      AppendAssoc(start, " VALUES " + lines, "\n");
      builder := builder + "\n";
    }

    /** The row loop of visitValues: one row per line, the `first` flag choosing "  " or ", ". */
    method ProcessRows(rows: seq<Expression>, indent: nat) returns (ok: bool)
      modifies this
      ensures old(builder) <= builder
      ensures ok == RowLines(rows, |rows|, indent).Success?
      ensures ok ==> builder == old(builder) + RowLines(rows, |rows|, indent).value
    {
      ghost var head := builder;
      ghost var text := "";
      var first := true;
      var i := 0;
      while i < |rows|
        invariant 0 <= i <= |rows|
        invariant first <==> i == 0
        invariant RowLines(rows, i, indent) == Success(text)
        invariant builder == head + text
      {
        var lead := ItemLead(first, indent);
        AppendAssoc(head, text, lead);
        builder := builder + lead;
        var t := ExpressionText(rows[i], Some(indent));
        if t.Failure? {
          RowLinesFailure(rows, i + 1, indent);
          return false;
        }
        AppendAssoc(head, text + lead, t.value);
        builder := builder + t.value;
        text := text + lead + t.value;
        first := false;
        i := i + 1;
      }
      ok := true;
    }

    /** visitUnion / visitIntersect. */
    method ProcessSetOperation(r: Relation, indent: nat) returns (ok: bool)
      requires r.Union? || r.Intersect?
      modifies this
      ensures old(builder) <= builder
      decreases r, 1
      ensures ok == RelationText(r, indent).Success?
      ensures ok ==> builder == old(builder) + RelationText(r, indent).value
    {
      var keyword := SetOperatorText(if r.Union? then "UNION" else "INTERSECT", r.distinct);
      ok := ProcessOperands(r.relations, keyword, indent);
    }

    /** The iterator loop of visitUnion / visitIntersect: the keyword after every relation but the last. */
    method ProcessOperands(relations: seq<Relation>, keyword: string, indent: nat) returns (ok: bool)
      modifies this
      ensures old(builder) <= builder
      decreases relations, 0
      ensures ok == OperandsText(relations, |relations|, keyword, indent).Success?
      ensures ok ==> builder == old(builder) + OperandsText(relations, |relations|, keyword, indent).value
    {
      ghost var head := builder;
      ghost var text := "";
      var i := 0;
      while i < |relations|
        invariant 0 <= i <= |relations|
        invariant OperandsText(relations, i, keyword, indent) == Success(text)
        invariant builder == head + text
      {
        ok := ProcessQueryBody(relations[i], indent);
        if !ok {
          OperandsTextFailure(relations, i + 1, keyword, indent);
          return;
        }
        ghost var t := QueryBodyText(relations[i], indent).value;
        AppendAssoc(head, text, t);
        text := text + t;
        if i + 1 < |relations| {
          AppendAssoc(head, text, keyword);
          builder := builder + keyword;
          text := text + keyword;
        }
        i := i + 1;
      }
      ok := true;
    }

    /** visitQuerySpecification: the clauses in their fixed order. */
    method ProcessQuerySpecification(r: Relation, indent: nat) returns (ok: bool)
      requires r.QuerySpecification?
      modifies this
      ensures old(builder) <= builder
      decreases r, 1
      ensures ok == QuerySpecificationText(r, indent).Success?
      ensures ok ==> builder == old(builder) + QuerySpecificationText(r, indent).value
    {
      ghost var start := builder;
      ok := ProcessSelect(r.select, indent);
      if !ok {
        return;
      }
      ghost var select := SelectText(r.select, indent).value;
      if r.from.Some? {
        ghost var mid := builder;
        Append(indent, "FROM");
        AppendAssoc(mid, IndentString(indent) + "FROM", "\n");
        builder := builder + "\n";
        AppendAssoc(mid, IndentString(indent) + "FROM" + "\n", IndentString(indent) + "  ");
        Append(indent, "  ");
        ghost var prefix := IndentString(indent) + "FROM" + "\n" + (IndentString(indent) + "  ");
        ok := ProcessRelation(r.from.value, indent);
        if !ok {
          return;
        }
        AppendAssoc(mid, prefix, RelationText(r.from.value, indent).value);
        AppendAssoc(start, select, FromClause(r.from, indent).value);
      }
      ghost var acc := select + FromClause(r.from, indent).value;
      AppendAssoc(start, acc, "\n");
      builder := builder + "\n";
      acc := acc + "\n";
      ok := ProcessClauses(r, indent);
      if ok {
        AppendAssoc(start, acc, QueryClausesText(r, indent).value);
      }
    }

    /** The clauses of visitQuerySpecification after FROM, each only when present. */
    method ProcessClauses(r: Relation, indent: nat) returns (ok: bool)
      requires r.QuerySpecification?
      modifies this
      ensures old(builder) <= builder
      decreases r, 0
      ensures ok == QueryClausesText(r, indent).Success?
      ensures ok ==> builder == old(builder) + QueryClausesText(r, indent).value
    {
      ghost var start := builder;
      ghost var filtering := FilteringText(WhereClause(r.where, indent), GroupByClause(r.groupBy, indent), HavingClause(r.having, indent));
      ok := ProcessFiltering(r.where, r.groupBy, r.having, indent);
      if !ok {
        return;
      }
      ok := ProcessWindows(r.windows, indent);
      if !ok {
        return;
      }
      ghost var windows := WindowClauseText(r.windows, indent).value;
      AppendAssoc(start, filtering.value, windows);
      ok := ProcessPaging(r.orderBy, r.offset, r.limit, indent);
      if ok {
        AppendAssoc(start, filtering.value + windows,
                    PagingText(OrderByClause(r.orderBy, indent), OffsetClause(r.offset, indent), LimitClause(r.limit, indent)).value);
      }
    }

    /** The WHERE, GROUP BY and HAVING steps of visitQuerySpecification. */
    method ProcessFiltering(where: Option<Expression>, groupBy: Option<GroupBy>, having: Option<Expression>, indent: nat)
      returns (ok: bool)
      modifies this
      ensures old(builder) <= builder
      ensures ok == FilteringText(WhereClause(where, indent), GroupByClause(groupBy, indent), HavingClause(having, indent)).Success?
      ensures ok ==> builder == old(builder)
                              + FilteringText(WhereClause(where, indent), GroupByClause(groupBy, indent), HavingClause(having, indent)).value
    {
      ghost var start := builder;
      ok := ProcessWhere(where, indent);
      if !ok {
        return;
      }
      ok := ProcessGroupBy(groupBy, indent);
      if !ok {
        return;
      }
      AppendAssoc(start, WhereClause(where, indent).value, GroupByClause(groupBy, indent).value);
      ok := ProcessHaving(having, indent);
      if ok {
        AppendAssoc(start, WhereClause(where, indent).value + GroupByClause(groupBy, indent).value, HavingClause(having, indent).value);
      }
    }

    /** The WHERE clause: the condition is formatted one level deeper. */
    method ProcessWhere(where: Option<Expression>, indent: nat) returns (ok: bool)
      modifies this
      ensures old(builder) <= builder
      ensures ok == WhereClause(where, indent).Success?
      ensures ok ==> builder == old(builder) + WhereClause(where, indent).value
    {
      if where.None? {
        return true;
      }
      var x := where.value;
      ghost var start := builder;
      Append(indent, "WHERE\n");
      var t := ExpressionText(x, Some(indent + 1));
      if t.Failure? {
        return false;
      }
      ghost var acc := IndentString(indent) + "WHERE\n";
      AppendAssoc(start, acc, IndentString(indent + 1) + t.value);
      Append(indent + 1, t.value);
      acc := acc + (IndentString(indent + 1) + t.value);
      AppendAssoc(start, acc, "\n");
      builder := builder + "\n";
      ok := true;
    }

    /** The GROUP BY clause. */
    method ProcessGroupBy(groupBy: Option<GroupBy>, indent: nat) returns (ok: bool)
      modifies this
      ensures old(builder) <= builder
      ensures ok == GroupByClause(groupBy, indent).Success?
      ensures ok ==> builder == old(builder) + GroupByClause(groupBy, indent).value
    {
      if groupBy.None? {
        return true;
      }
      var g := groupBy.value;
      var t := GroupByText(g.groupingElements, indent);
      if t.Failure? {
        return false;
      }
      ghost var start := builder;
      var line := "GROUP BY " + (if g.distinct then " DISTINCT " else "") + t.value;
      Append(indent, line);
      AppendAssoc(start, IndentString(indent) + line, "\n");
      builder := builder + "\n";
      ok := true;
    }

    /** The HAVING clause. */
    method ProcessHaving(having: Option<Expression>, indent: nat) returns (ok: bool)
      modifies this
      ensures old(builder) <= builder
      ensures ok == HavingClause(having, indent).Success?
      ensures ok ==> builder == old(builder) + HavingClause(having, indent).value
    {
      if having.None? {
        return true;
      }
      var x := having.value;
      var t := ExpressionText(x, Some(indent));
      if t.Failure? {
        return false;
      }
      ghost var start := builder;
      Append(indent, "HAVING " + t.value);
      AppendAssoc(start, IndentString(indent) + ("HAVING " + t.value), "\n");
      builder := builder + "\n";
      ok := true;
    }

    /** The WINDOW clause: one definition inline; several one per line. */
    method ProcessWindows(ws: seq<WindowDefinition>, indent: nat) returns (ok: bool)
      modifies this
      ensures old(builder) <= builder
      ensures ok == WindowClauseText(ws, indent).Success?
      ensures ok ==> builder == old(builder) + WindowClauseText(ws, indent).value
    {
      if |ws| == 0 {
        return true;
      }
      ghost var start := builder;
      Append(indent, "WINDOW");
      ghost var header := IndentString(indent) + "WINDOW";
      if |ws| == 1 {
        var t := WindowDefinitionText(ws[0], indent);
        if t.Failure? {
          return false;
        }
        AppendAssoc(start, header, " " + t.value + "\n");
        builder := builder + (" " + t.value + "\n");
        return true;
      }
      AppendAssoc(start, header, "\n");
      builder := builder + "\n";
      ok := ProcessWindowLines(ws, indent);
      if !ok {
        return;
      }
      ghost var lines := WindowLines(ws, |ws|, indent).value;
      AppendAssoc(start, header + "\n", lines);
      AppendAssoc(start, header + "\n" + lines, "\n");
      builder := builder + "\n";
    }

    /** The loop of a multi-line WINDOW clause: every definition but the last, then the last. */
    method ProcessWindowLines(ws: seq<WindowDefinition>, indent: nat) returns (ok: bool)
      requires |ws| > 0
      modifies this
      ensures old(builder) <= builder
      ensures ok == WindowLines(ws, |ws|, indent).Success?
      ensures ok ==> builder == old(builder) + WindowLines(ws, |ws|, indent).value
    {
      ghost var head := builder;
      ghost var text := "";
      var size := |ws|;
      for i := 0 to size - 1
        invariant WindowLines(ws, i, indent) == Success(text)
        invariant builder == head + text
      {
        var t := WindowDefinitionText(ws[i], indent);
        if t.Failure? {
          WindowLinesFailure(ws, i + 1, indent);
          return false;
        }
        ghost var line := IndentString(indent + 1) + t.value;
        AppendAssoc(head, text, line);
        Append(indent + 1, t.value);
        AppendAssoc(head, text + line, ",\n");
        builder := builder + ",\n";
        text := text + line + ",\n";
      }
      var t := WindowDefinitionText(ws[size - 1], indent);
      if t.Failure? {
        WindowLinesFailure(ws, size, indent);
        return false;
      }
      AppendAssoc(head, text, IndentString(indent + 1) + t.value);
      Append(indent + 1, t.value);
      ok := true;
    }

    /** visitSelect: several items one per line, else the only item inline. */
    method ProcessSelect(select: Select, indent: nat) returns (ok: bool)
      modifies this
      ensures old(builder) <= builder
      ensures ok == SelectText(select, indent).Success?
      ensures ok ==> builder == old(builder) + SelectText(select, indent).value
    {
      ghost var start := builder;
      var head := IndentString(indent) + "SELECT" + (if select.distinct then " DISTINCT" else "");
      Append(indent, "SELECT");
      if select.distinct {
        AppendAssoc(start, IndentString(indent) + "SELECT", " DISTINCT");
        builder := builder + " DISTINCT";
      }
      ok := ProcessSelectList(select.selectItems, indent);
      if ok {
        AppendAssoc(start, head, SelectListText(select.selectItems, indent).value);
      }
    }

    /** The select list of visitSelect: the item loop for several items, else getOnlyElement. */
    method ProcessSelectList(items: seq<SelectItem>, indent: nat) returns (ok: bool)
      modifies this
      ensures old(builder) <= builder
      ensures ok == SelectListText(items, indent).Success?
      ensures ok ==> builder == old(builder) + SelectListText(items, indent).value
    {
      ghost var start := builder;
      if |items| > 1 {
        ok := ProcessSelectItems(items, indent);
        if !ok {
          return;
        }
        AppendAssoc(start, SelectItemLines(items, |items|, indent).value, "\n");
      } else {
        builder := builder + " ";
        if |items| == 0 {
          // getOnlyElement on an empty list throws
          return false;
        }
        ok := ProcessSelectItem(items[0], indent);
        if !ok {
          return;
        }
        AppendAssoc(start, " ", SelectItemText(items[0], indent).value);
        AppendAssoc(start, " " + SelectItemText(items[0], indent).value, "\n");
      }
      builder := builder + "\n";
    }

    /** The item loop of visitSelect: one item per line, the `first` flag choosing "  " or ", ". */
    method ProcessSelectItems(items: seq<SelectItem>, indent: nat) returns (ok: bool)
      modifies this
      ensures old(builder) <= builder
      ensures ok == SelectItemLines(items, |items|, indent).Success?
      ensures ok ==> builder == old(builder) + SelectItemLines(items, |items|, indent).value
    {
      ghost var head := builder;
      ghost var text := "";
      var first := true;
      var i := 0;
      while i < |items|
        invariant 0 <= i <= |items|
        invariant first <==> i == 0
        invariant SelectItemLines(items, i, indent) == Success(text)
        invariant builder == head + text
      {
        var lead := ItemLead(first, indent);
        AppendAssoc(head, text, lead);
        builder := builder + lead;
        ok := ProcessSelectItem(items[i], indent);
        if !ok {
          SelectItemLinesFailure(items, i + 1, indent);
          return;
        }
        ghost var t := SelectItemText(items[i], indent).value;
        AppendAssoc(head, text + lead, t);
        text := text + lead + t;
        first := false;
        i := i + 1;
      }
      ok := true;
    }

    /** visitSingleColumn / visitAllColumns. */
    method ProcessSelectItem(item: SelectItem, indent: nat) returns (ok: bool)
      modifies this
      ensures old(builder) <= builder
      ensures ok == SelectItemText(item, indent).Success?
      ensures ok ==> builder == old(builder) + SelectItemText(item, indent).value
    {
      ghost var start := builder;
      match item {
        case SingleColumn(x, alias) =>
          var t := ExpressionText(x, Some(indent));
          if t.Failure? {
            return false;
          }
          builder := builder + t.value;
          if alias.Some? {
            AppendAssoc(start, t.value, " " + IdentifierText(alias.value));
            builder := builder + (" " + IdentifierText(alias.value));
          }
        case AllColumns(target, aliases) =>
          ghost var acc := "";
          if target.Some? {
            var t := ExpressionText(target.value, Some(indent));
            if t.Failure? {
              return false;
            }
            builder := builder + t.value;
            AppendAssoc(start, t.value, ".");
            builder := builder + ".";
            acc := t.value + ".";
          }
          AppendAssoc(start, acc, "*");
          builder := builder + "*";
          if aliases != [] {
            AppendAssoc(start, acc + "*", " AS (" + JoinWith(aliases, ", ") + ")");
            builder := builder + (" AS (" + JoinWith(aliases, ", ") + ")");
          }
      }
      ok := true;
    }

    // ----- Statements -----

    /** process(statement, indent): the visit method of the statement's kind. */
    method ProcessStatement(s: Statement, indent: nat) returns (ok: bool)
      modifies this
      ensures old(builder) <= builder
      decreases s, 1
      ensures ok == StatementText(s, indent).Success?
      ensures ok ==> builder == old(builder) + StatementText(s, indent).value
    {
      if IsTemplate(s) {
        ok := ProcessTemplate(s, indent);
      } else if s.QueryStatement? {
        ok := ProcessQuery(s.query, indent);
      } else if s.Prepare? {
        ok := ProcessPrepare(s, indent);
      } else if s.CreateView? {
        ok := ProcessCreateView(s, indent);
      } else if s.CreateMaterializedView? {
        ok := ProcessCreateMaterializedView(s, indent);
      } else if s.Explain? {
        ok := ProcessExplain(s, indent);
      } else if s.ShowStats? {
        ok := ProcessShowStats(s, indent);
      } else if s.CreateTableAsSelect? {
        ok := ProcessCreateTableAsSelect(s, indent);
      } else if s.Insert? {
        ok := ProcessInsert(s, indent);
      } else if s.Update? {
        ok := ProcessUpdate(s, indent);
      } else if s.Call? {
        ok := ProcessCall(s, indent);
      } else {
        ProcessStartTransaction(s, indent);
        ok := true;
      }
    }

    /**
     * The visit methods that only append fixed words and rendered names: their consecutive
     * appends are taken together as the statement's text.
     */
    method ProcessTemplate(s: Statement, indent: nat) returns (ok: bool)
      requires IsTemplate(s)
      modifies this
      ensures old(builder) <= builder
      ensures ok == StatementText(s, indent).Success?
      ensures ok ==> builder == old(builder) + StatementText(s, indent).value
    {
      var t := TemplateText(s, indent);
      if t.Failure? {
        return false;
      }
      builder := builder + t.value;
      ok := true;
    }

    /** visitPrepare: the header at the current indent, then the statement one level deeper. */
    method ProcessPrepare(s: Statement, indent: nat) returns (ok: bool)
      requires s.Prepare?
      modifies this
      ensures old(builder) <= builder
      decreases s, 0
      ensures ok == StatementText(s, indent).Success?
      ensures ok ==> builder == old(builder) + StatementText(s, indent).value
    {
      assert StatementText(s, indent) == PrepareText(s, indent);
      var header := IndentString(indent) + "PREPARE " + s.prepareNameText + " FROM\n";
      ghost var start := builder;
      builder := builder + header;
      ok := ProcessStatement(s.statement, indent + 1);
      if ok {
        AppendAssoc(start, header, StatementText(s.statement, indent + 1).value);
      }
    }

    /** visitCreateView: the header, then the query. */
    method ProcessCreateView(s: Statement, indent: nat) returns (ok: bool)
      requires s.CreateView?
      modifies this
      ensures old(builder) <= builder
      decreases s, 0
      ensures ok == StatementText(s, indent).Success?
      ensures ok ==> builder == old(builder) + StatementText(s, indent).value
    {
      assert StatementText(s, indent) == CreateViewText(s, indent);
      var header := "CREATE " + OrReplace(s.replace) + "VIEW " + FormatName(s.name)
                    + (if s.comment.Some? then " COMMENT " + StringLiteralText(s.comment.value) else "")
                    + (if s.securityText.Some? then " SECURITY " + s.securityText.value else "")
                    + " AS\n";
      ghost var start := builder;
      builder := builder + header;
      ok := ProcessQuery(s.query, indent);
      if ok {
        AppendAssoc(start, header, QueryText(s.query, indent).value);
      }
    }

    /** visitCreateMaterializedView: the properties are rendered before anything else can fail. */
    method ProcessCreateMaterializedView(s: Statement, indent: nat) returns (ok: bool)
      requires s.CreateMaterializedView?
      modifies this
      ensures old(builder) <= builder
      decreases s, 0
      ensures ok == StatementText(s, indent).Success?
      ensures ok ==> builder == old(builder) + StatementText(s, indent).value
    {
      assert StatementText(s, indent) == CreateMaterializedViewText(s, indent);
      var properties := PropertiesMultiLine(s.properties, indent);
      if properties.Failure? {
        return false;
      }
      var header := "CREATE " + OrReplace(s.replace) + "MATERIALIZED VIEW " + IfNotExists(s.ifNotExists)
                    + FormatName(s.name) + CommentLine(s.comment) + properties.value + " AS\n";
      ghost var start := builder;
      builder := builder + header;
      ok := ProcessQuery(s.query, indent);
      if ok {
        AppendAssoc(start, header, QueryText(s.query, indent).value);
      }
    }

    /** visitExplain: EXPLAIN, the options in parentheses, a line break, then the statement. */
    method ProcessExplain(s: Statement, indent: nat) returns (ok: bool)
      requires s.Explain?
      modifies this
      ensures old(builder) <= builder
      decreases s, 0
      ensures ok == StatementText(s, indent).Success?
      ensures ok ==> builder == old(builder) + StatementText(s, indent).value
    {
      assert StatementText(s, indent) == ExplainText(s, indent);
      var header := "EXPLAIN " + (if s.analyze then "ANALYZE " else "")
                    + (if s.options == [] then "" else "(" + JoinWith(ExplainOptionTexts(s.options), ", ") + ")")
                    + "\n";
      ghost var start := builder;
      builder := builder + header;
      ok := ProcessStatement(s.statement, indent);
      if ok {
        AppendAssoc(start, header, StatementText(s.statement, indent).value);
      }
    }

    /** visitShowStats: the relation is processed at indent 0. */
    method ProcessShowStats(s: Statement, indent: nat) returns (ok: bool)
      requires s.ShowStats?
      modifies this
      ensures old(builder) <= builder
      decreases s, 0
      ensures ok == StatementText(s, indent).Success?
      ensures ok ==> builder == old(builder) + StatementText(s, indent).value
    {
      assert StatementText(s, indent) == ShowStatsText(s, indent);
      ghost var start := builder;
      builder := builder + "SHOW STATS FOR ";
      ok := ProcessRelation(s.relation, 0);
      if ok {
        AppendAssoc(start, "SHOW STATS FOR ", RelationText(s.relation, 0).value);
      }
    }

    /** visitCreateTableAsSelect: the header with the properties, " AS ", the query, then WITH NO DATA. */
    method ProcessCreateTableAsSelect(s: Statement, indent: nat) returns (ok: bool)
      requires s.CreateTableAsSelect?
      modifies this
      ensures old(builder) <= builder
      decreases s, 0
      ensures ok == StatementText(s, indent).Success?
      ensures ok ==> builder == old(builder) + StatementText(s, indent).value
    {
      CreateTableAsSelectUnfold(s, indent);
      var properties := PropertiesMultiLine(s.properties, indent);
      if properties.Failure? {
        return false;
      }
      var header := "CREATE TABLE " + IfNotExists(s.ifNotExists) + FormatName(s.name)
                    + (if s.renderedColumnAliases.Some? then "( " + JoinWith(s.renderedColumnAliases.value, ", ") + " )" else "")
                    + CommentLine(s.comment) + properties.value + " AS ";
      ghost var start := builder;
      builder := builder + header;
      ok := ProcessQuery(s.query, indent);
      if !ok {
        return;
      }
      ghost var query := QueryText(s.query, indent).value;
      AppendAssoc(start, header, query);
      var trailer := if s.withData then "" else " WITH NO DATA";
      AppendAssoc(start, header + query, trailer);
      builder := builder + trailer;
      assert builder == start + (header + query + trailer);
    }

    /** visitInsert: the target and columns, a line break, then the query. */
    method ProcessInsert(s: Statement, indent: nat) returns (ok: bool)
      requires s.Insert?
      modifies this
      ensures old(builder) <= builder
      decreases s, 0
      ensures ok == StatementText(s, indent).Success?
      ensures ok ==> builder == old(builder) + StatementText(s, indent).value
    {
      assert StatementText(s, indent) == InsertText(s, indent);
      var header := "INSERT INTO " + s.targetText
                    + (if s.columnTexts.Some? then " (" + JoinWith(s.columnTexts.value, ", ") + ")" else "")
                    + "\n";
      ghost var start := builder;
      builder := builder + header;
      ok := ProcessQuery(s.query, indent);
      if ok {
        AppendAssoc(start, header, QueryText(s.query, indent).value);
      }
    }

    /** visitUpdate: UPDATE, the table, SET, the assignments, then the WHERE line when present. */
    method ProcessUpdate(s: Statement, indent: nat) returns (ok: bool)
      requires s.Update?
      modifies this
      ensures old(builder) <= builder
      ensures ok == StatementText(s, indent).Success?
      ensures ok ==> builder == old(builder) + StatementText(s, indent).value
    {
      assert StatementText(s, indent) == UpdateText(s, indent);
      ghost var start := builder;
      var header := "UPDATE " + s.tableText + " SET";
      builder := builder + header;
      ok := ProcessAssignments(s.assignments, indent);
      if !ok {
        return;
      }
      ghost var sets := AssignmentLines(s.assignments, |s.assignments|, indent).value;
      AppendAssoc(start, header, sets);
      if s.where.Some? {
        var condition := ExpressionText(s.where.value, Some(indent));
        if condition.Failure? {
          return false;
        }
        var line := "\n" + IndentString(indent) + "WHERE " + condition.value;
        AppendAssoc(start, header + sets, line);
        builder := builder + line;
      }
    }

    /** The assignment loop of visitUpdate: a line per assignment, "," after all but the last. */
    method ProcessAssignments(assignments: seq<UpdateAssignment>, indent: nat) returns (ok: bool)
      modifies this
      ensures old(builder) <= builder
      ensures ok == AssignmentLines(assignments, |assignments|, indent).Success?
      ensures ok ==> builder == old(builder) + AssignmentLines(assignments, |assignments|, indent).value
    {
      ghost var head := builder;
      ghost var text := "";
      var setCounter := |assignments| - 1;
      for i := 0 to |assignments|
        invariant AssignmentLines(assignments, i, indent) == Success(text)
        invariant builder == head + text
        invariant setCounter == |assignments| - 1 - i
      {
        var t := AssignmentText(assignments[i], indent);
        if t.Failure? {
          AssignmentLinesFailure(assignments, i + 1, indent);
          return false;
        }
        var piece := t.value + (if setCounter > 0 then "," else "");
        AppendAssoc(head, text, piece);
        AppendAssoc(text, t.value, if setCounter > 0 then "," else "");
        builder := builder + piece;
        text := text + piece;
        setCounter := setCounter - 1;
      }
      ok := true;
    }

    /** visitCall: CALL, the name, and the arguments in parentheses. */
    method ProcessCall(s: Statement, indent: nat) returns (ok: bool)
      requires s.Call?
      modifies this
      ensures old(builder) <= builder
      ensures ok == StatementText(s, indent).Success?
      ensures ok ==> builder == old(builder) + StatementText(s, indent).value
    {
      assert StatementText(s, indent) == CallText(s, indent);
      ghost var start := builder;
      var header := "CALL " + s.nameText + "(";
      builder := builder + header;
      ok := ProcessCallArguments(s.callArguments, indent);
      if !ok {
        return;
      }
      AppendAssoc(start, header, CallArgumentsText(s.callArguments, |s.callArguments|, indent).value);
      builder := builder + ")";
    }

    /** The argument loop of visitCall: each argument, then ", " while another one follows. */
    method ProcessCallArguments(arguments: seq<CallArgument>, indent: nat) returns (ok: bool)
      modifies this
      ensures old(builder) <= builder
      ensures ok == CallArgumentsText(arguments, |arguments|, indent).Success?
      ensures ok ==> builder == old(builder) + CallArgumentsText(arguments, |arguments|, indent).value
    {
      ghost var head := builder;
      ghost var text := "";
      for i := 0 to |arguments|
        invariant CallArgumentsText(arguments, i, indent) == Success(text)
        invariant builder == head + text
      {
        ok := ProcessCallArgument(arguments[i], indent);
        if !ok {
          CallArgumentsTextFailure(arguments, i + 1, indent);
          return;
        }
        ghost var t := CallArgumentText(arguments[i], indent).value;
        AppendAssoc(head, text, t);
        text := text + t;
        if i + 1 < |arguments| {
          AppendAssoc(head, text, ", ");
          builder := builder + ", ";
          text := text + ", ";
        } else {
          assert text + "" == text;
        }
      }
      ok := true;
    }

    /** visitCallArgument: the name and " => " when named, then the value. */
    method ProcessCallArgument(a: CallArgument, indent: nat) returns (ok: bool)
      modifies this
      ensures old(builder) <= builder
      ensures ok == CallArgumentText(a, indent).Success?
      ensures ok ==> builder == old(builder) + CallArgumentText(a, indent).value
    {
      ghost var start := builder;
      var name := if a.argumentNameText.Some? then a.argumentNameText.value + " => " else "";
      builder := builder + name;
      var value := ExpressionText(a.argumentValue, Some(indent));
      if value.Failure? {
        return false;
      }
      AppendAssoc(start, name, value.value);
      builder := builder + value.value;
      ok := true;
    }

    /** visitStartTransaction: START TRANSACTION, then the modes. */
    method ProcessStartTransaction(s: Statement, indent: nat)
      requires s.StartTransaction?
      modifies this
      ensures old(builder) <= builder
      ensures builder == old(builder) + StatementText(s, indent).value
    {
      ghost var start := builder;
      builder := builder + "START TRANSACTION";
      ProcessTransactionModes(s.transactionModes);
      AppendAssoc(start, "START TRANSACTION", TransactionModeList(s.transactionModes, |s.transactionModes|));
      StartTransactionUnfold(s, indent);
    }

    /** The mode loop of visitStartTransaction: each mode after a space, "," while another one follows. */
    method ProcessTransactionModes(modes: seq<TransactionMode>)
      modifies this
      ensures old(builder) <= builder
      ensures builder == old(builder) + TransactionModeList(modes, |modes|)
    {
      ghost var head := builder;
      ghost var text := "";
      for i := 0 to |modes|
        invariant TransactionModeList(modes, i) == text
        invariant builder == head + text
      {
        var piece := " " + TransactionModeText(modes[i]) + (if i + 1 < |modes| then "," else "");
        AppendAssoc(head, text, piece);
        builder := builder + piece;
        text := text + piece;
      }
    }

    // ----- formatSql on an expression -----

    /** process(expression, 0) at the root: visitRow for a ROW, otherwise visitExpression. */
    method ProcessRoot(e: Expression) returns (ok: bool)
      modifies this
      ensures old(builder) <= builder
      decreases e, 1
      ensures ok == RootText(e).Success?
      ensures ok ==> builder == old(builder) + RootText(e).value
    {
      if e.Row? {
        ok := ProcessRow(e);
      } else {
        var t := ExpressionText(e, Some(0));
        if t.Failure? {
          return false;
        }
        builder := builder + t.value;
        ok := true;
      }
    }

    /** visitRow: "ROW(", the items, ")". */
    method ProcessRow(e: Expression) returns (ok: bool)
      requires e.Row?
      modifies this
      ensures old(builder) <= builder
      decreases e, 0
      ensures ok == RootText(e).Success?
      ensures ok ==> builder == old(builder) + RootText(e).value
    {
      ghost var start := builder;
      builder := builder + "ROW(";
      ok := ProcessRowItems(e.items);
      if !ok {
        return;
      }
      AppendAssoc(start, "ROW(", RowItemsText(e.items, |e.items|).value);
      builder := builder + ")";
    }

    /** The item loop of visitRow: ", " before every item but the first. */
    method ProcessRowItems(items: seq<Expression>) returns (ok: bool)
      modifies this
      ensures old(builder) <= builder
      decreases items, 0
      ensures ok == RowItemsText(items, |items|).Success?
      ensures ok ==> builder == old(builder) + RowItemsText(items, |items|).value
    {
      ghost var head := builder;
      ghost var text := "";
      var firstItem := true;
      for i := 0 to |items|
        invariant RowItemsText(items, i) == Success(text)
        invariant builder == head + text
        invariant firstItem == (i == 0)
      {
        var separator := if firstItem then "" else ", ";
        AppendAssoc(head, text, separator);
        builder := builder + separator;
        ok := ProcessRoot(items[i]);
        if !ok {
          RowItemsTextFailure(items, i + 1);
          return;
        }
        AppendAssoc(head, text + separator, RootText(items[i]).value);
        text := text + separator + RootText(items[i]).value;
        firstItem := false;
      }
      ok := true;
    }
  }

  /** The nodes formatSql is given: a statement, or an expression at the root. */
  datatype Root = StatementRoot(statement: Statement) | ExpressionRoot(expression: Expression)

  /** The text formatSql returns for a root node, processed at indent 0. */
  function FormatSqlText(root: Root): Rendered {
    match root
    case StatementRoot(s) => StatementText(s, 0)
    case ExpressionRoot(e) => RootText(e)
  }

  /** formatSql: a fresh Formatter over an empty builder processes the root; None where it throws. */
  method FormatSql(root: Root) returns (r: Option<string>)
    ensures r.Some? <==> FormatSqlText(root).Success?
    ensures r.Some? ==> r.value == FormatSqlText(root).value
  {
    var formatter := new Formatter("");
    var ok;
    match root {
      case StatementRoot(s) => ok := formatter.ProcessStatement(s, 0);
      case ExpressionRoot(e) => ok := formatter.ProcessRoot(e);
    }
    r := if ok then Some(formatter.builder) else None;
  }

  lemma CreateTableAsSelectUnfold(s: Statement, indent: nat)
    requires s.CreateTableAsSelect?
    ensures var props, query := PropertiesMultiLine(s.properties, indent), QueryText(s.query, indent);
      StatementText(s, indent)
      == if props.Failure? then Failure(props.error)
         else if query.Failure? then Failure(query.error)
         else Success("CREATE TABLE " + IfNotExists(s.ifNotExists) + FormatName(s.name)
                      + (if s.renderedColumnAliases.Some? then "( " + JoinWith(s.renderedColumnAliases.value, ", ") + " )" else "")
                      + CommentLine(s.comment) + props.value + " AS " + query.value + (if s.withData then "" else " WITH NO DATA"))
  {
    assert StatementText(s, indent) == CreateTableAsSelectText(s, indent);
  }

  lemma StartTransactionUnfold(s: Statement, indent: nat)
    requires s.StartTransaction?
    ensures StatementText(s, indent) == Success("START TRANSACTION" + TransactionModeList(s.transactionModes, |s.transactionModes|))
  {
    assert StatementText(s, indent) == StartTransactionText(s, indent);
  }
}
