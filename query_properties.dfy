/**
 * What the statement formatter promises about queries: the layout of SELECT and VALUES lists,
 * the fixed order of the clauses of a query specification, the parentheses, keywords and
 * criteria of joins, the keywords between the operands of set operations and between the
 * named queries of a WITH clause, and the two renderings of a property list.
 */
module QueryProperties {
  import opened Wrappers
  import opened Text
  import opened Ast
  import opened Formatting
  import opened Statements
  import opened SqlFormatting
  import opened FormattingProperties

  // ----- SELECT and VALUES lists -----

  /**
   * The first n items of a multi-item SELECT: the first after "  ", every later one after
   * ", " at the start of its own line.
   */
  lemma {:induction false} SelectItemLinesJoin(items: seq<SelectItem>, texts: seq<string>, n: nat, indent: nat)
    requires 1 <= n <= |items| == |texts|
    requires forall k :: 0 <= k < |items| ==> SelectItemText(items[k], indent) == Success(texts[k])
    ensures SelectItemLines(items, n, indent) == Success(ItemLead(true, indent) + JoinWith(texts[..n], ItemLead(false, indent)))
    decreases n
  {
    var first, sep := ItemLead(true, indent), ItemLead(false, indent);
    if n == 1 {
      assert SelectItemLines(items, 1, indent) == Success("" + first + texts[0]) by {
        SelectItemLinesStep(items, 1, indent, "", texts[0]);
      }
      assert texts[..1] == [texts[0]];
      assert "" + first + texts[0] == first + texts[0];
    } else {
      var init := texts[..n - 1];
      assert SelectItemLines(items, n, indent) == Success(first + JoinWith(init, sep) + sep + texts[n - 1]) by {
        SelectItemLinesJoin(items, texts, n - 1, indent);
        SelectItemLinesStep(items, n, indent, first + JoinWith(init, sep), texts[n - 1]);
      }
      assert texts[..n] == init + [texts[n - 1]];
      LeadJoinSnoc(first, init, texts[n - 1], sep);
    }
  }

  lemma SelectItemLinesStep(items: seq<SelectItem>, n: nat, indent: nat, prev: string, last: string)
    requires 1 <= n <= |items|
    requires SelectItemLines(items, n - 1, indent) == Success(prev)
    requires SelectItemText(items[n - 1], indent) == Success(last)
    ensures SelectItemLines(items, n, indent) == Success(prev + ItemLead(n == 1, indent) + last)
  {
  }

  /** One more line after a non-empty list that follows a lead. */
  lemma LeadJoinSnoc(first: string, init: seq<string>, last: string, sep: string)
    requires init != []
    ensures first + JoinWith(init, sep) + sep + last == first + JoinWith(init + [last], sep)
  {
    JoinWithSnoc(init, last, sep);
    assert first + JoinWith(init, sep) + sep + last == first + (JoinWith(init, sep) + sep + last);
  }

  /** visitSelect: no item is an error, one item stays on the SELECT line, several go one per line. */
  lemma SelectListLayout(items: seq<SelectItem>, texts: seq<string>, indent: nat)
    requires |items| == |texts|
    requires forall k :: 0 <= k < |items| ==> SelectItemText(items[k], indent) == Success(texts[k])
    ensures |items| == 0 ==> SelectListText(items, indent) == Failure(NoSuchElement)
    ensures |items| == 1 ==> SelectListText(items, indent) == Success(" " + texts[0] + "\n")
    ensures |items| > 1 ==>
      SelectListText(items, indent) == Success(ItemLead(true, indent) + JoinWith(texts, ItemLead(false, indent)) + "\n")
  {
    if |items| > 1 {
      SelectItemLinesJoin(items, texts, |items|, indent);
      assert texts[..|items|] == texts;
    }
  }

  /** An item that cannot be rendered makes the whole SELECT fail. */
  lemma SelectListFailure(items: seq<SelectItem>, i: nat, indent: nat)
    requires i < |items| && SelectItemText(items[i], indent).Failure?
    ensures SelectListText(items, indent).Failure?
  {
    if |items| > 1 {
      if SelectItemLines(items, i, indent).Failure? {
        SelectItemLinesFailure(items, i, indent);
      } else {
        assert SelectItemLines(items, i + 1, indent).Failure?;
        SelectItemLinesFailure(items, i + 1, indent);
      }
    }
  }

  /** The first n rows of a VALUES list, laid out like the items of a multi-item SELECT. */
  lemma {:induction false} RowLinesJoin(rows: seq<Expression>, texts: seq<string>, n: nat, indent: nat)
    requires 1 <= n <= |rows| == |texts|
    requires forall k :: 0 <= k < |rows| ==> ExpressionText(rows[k], Some(indent)) == Success(texts[k])
    ensures RowLines(rows, n, indent) == Success(ItemLead(true, indent) + JoinWith(texts[..n], ItemLead(false, indent)))
    decreases n
  {
    var first, sep := ItemLead(true, indent), ItemLead(false, indent);
    if n == 1 {
      assert RowLines(rows, 1, indent) == Success("" + first + texts[0]) by {
        RowLinesStep(rows, 1, indent, "", texts[0]);
      }
      assert texts[..1] == [texts[0]];
      assert "" + first + texts[0] == first + texts[0];
    } else {
      var init := texts[..n - 1];
      assert RowLines(rows, n, indent) == Success(first + JoinWith(init, sep) + sep + texts[n - 1]) by {
        RowLinesJoin(rows, texts, n - 1, indent);
        RowLinesStep(rows, n, indent, first + JoinWith(init, sep), texts[n - 1]);
      }
      assert texts[..n] == init + [texts[n - 1]];
      LeadJoinSnoc(first, init, texts[n - 1], sep);
    }
  }

  lemma RowLinesStep(rows: seq<Expression>, n: nat, indent: nat, prev: string, last: string)
    requires 1 <= n <= |rows|
    requires RowLines(rows, n - 1, indent) == Success(prev)
    requires ExpressionText(rows[n - 1], Some(indent)) == Success(last)
    ensures RowLines(rows, n, indent) == Success(prev + ItemLead(n == 1, indent) + last)
  {
  }

  /** visitValues: " VALUES ", then one row per line, then a line break. */
  lemma ValuesLayout(rows: seq<Expression>, texts: seq<string>, indent: nat)
    requires 1 <= |rows| == |texts|
    requires forall k :: 0 <= k < |rows| ==> ExpressionText(rows[k], Some(indent)) == Success(texts[k])
    ensures RelationText(Values(rows), indent)
         == Success(" VALUES " + ItemLead(true, indent) + JoinWith(texts, ItemLead(false, indent)) + "\n")
  {
    var first, body := ItemLead(true, indent), JoinWith(texts, ItemLead(false, indent));
    assert RowLines(rows, |rows|, indent) == Success(first + body) by {
      RowLinesJoin(rows, texts, |rows|, indent);
      assert texts[..|rows|] == texts;
    }
    ValuesUnfold(rows, indent, first + body);
    assert " VALUES " + (first + body) + "\n" == " VALUES " + first + body + "\n";
  }

  lemma ValuesUnfold(rows: seq<Expression>, indent: nat, lines: string)
    requires RowLines(rows, |rows|, indent) == Success(lines)
    ensures RelationText(Values(rows), indent) == Success(" VALUES " + lines + "\n")
  {
  }

  // ----- Query specifications -----

  /** Every clause of a query specification renders. */
  predicate ClausesRender(r: Relation, indent: nat)
    requires r.QuerySpecification?
  {
    && SelectText(r.select, indent).Success? && FromClause(r.from, indent).Success?
    && WhereClause(r.where, indent).Success? && GroupByClause(r.groupBy, indent).Success?
    && HavingClause(r.having, indent).Success? && WindowClauseText(r.windows, indent).Success?
    && OrderByClause(r.orderBy, indent).Success? && OffsetClause(r.offset, indent).Success?
    && LimitClause(r.limit, indent).Success?
  }

  /**
   * visitQuerySpecification renders exactly when each clause does, and then writes SELECT,
   * FROM, one line break, WHERE, GROUP BY, HAVING, WINDOW, ORDER BY, OFFSET and LIMIT in this
   * order, an absent clause contributing nothing.
   */
  lemma ClauseOrder(r: Relation, indent: nat)
    requires r.QuerySpecification?
    ensures QuerySpecificationText(r, indent).Success? <==> ClausesRender(r, indent)
    ensures ClausesRender(r, indent) ==>
      QuerySpecificationText(r, indent).value
      == SelectText(r.select, indent).value + FromClause(r.from, indent).value + "\n"
         + (WhereClause(r.where, indent).value + GroupByClause(r.groupBy, indent).value + HavingClause(r.having, indent).value)
         + WindowClauseText(r.windows, indent).value
         + (OrderByClause(r.orderBy, indent).value + OffsetClause(r.offset, indent).value + LimitClause(r.limit, indent).value)
  {
    var select, from, clauses := SelectText(r.select, indent), FromClause(r.from, indent), QueryClausesText(r, indent);
    assert QuerySpecificationText(r, indent)
        == if select.Failure? then Failure(select.error)
           else if from.Failure? then Failure(from.error)
           else if clauses.Failure? then Failure(clauses.error)
           else Success(select.value + from.value + "\n" + clauses.value);
    LaterClauses(r, indent);
    if ClausesRender(r, indent) {
      var w, g, h := WhereClause(r.where, indent).value, GroupByClause(r.groupBy, indent).value, HavingClause(r.having, indent).value;
      var win, o, f, l := WindowClauseText(r.windows, indent).value, OrderByClause(r.orderBy, indent).value,
                          OffsetClause(r.offset, indent).value, LimitClause(r.limit, indent).value;
      var head := select.value + from.value + "\n";
      AppendAssoc(head, (w + g + h) + win, o + f + l);
      AppendAssoc(head, w + g + h, win);
    }
  }

  /** The clauses after FROM: WHERE, GROUP BY, HAVING, WINDOW, then the paging clauses. */
  lemma LaterClauses(r: Relation, indent: nat)
    requires r.QuerySpecification?
    ensures var w, g, h := WhereClause(r.where, indent), GroupByClause(r.groupBy, indent), HavingClause(r.having, indent);
      var win, o, f, l := WindowClauseText(r.windows, indent), OrderByClause(r.orderBy, indent),
                          OffsetClause(r.offset, indent), LimitClause(r.limit, indent);
      && (QueryClausesText(r, indent).Success?
          <==> w.Success? && g.Success? && h.Success? && win.Success? && o.Success? && f.Success? && l.Success?)
      && (QueryClausesText(r, indent).Success? ==>
            QueryClausesText(r, indent).value == (w.value + g.value + h.value) + win.value + (o.value + f.value + l.value))
  {
  }

  /** The query specification `SELECT *` with an optional FROM and no other clause. */
  function SelectStar(from: Option<Relation>): Relation {
    QuerySpecification(Select(false, [AllColumns(None, [])]), from, None, None, None, [], None, None, None)
  }

  /** `SELECT *` renders its only item on the SELECT line. */
  lemma SelectStarLine(indent: nat)
    ensures SelectText(Select(false, [AllColumns(None, [])]), indent) == Success(IndentString(indent) + "SELECT *\n")
  {
    assert SelectItemText(AllColumns(None, []), indent) == Success("" + "*" + "");
    assert "" + "*" + "" == "*";
    assert IndentString(indent) + "SELECT" + "" + (" " + "*" + "\n") == IndentString(indent) + "SELECT *\n";
  }

  /** SELECT * FROM e puts FROM and the table on lines of their own and ends with a line break. */
  lemma SelectStarFromExample(e: string)
    ensures QuerySpecificationText(SelectStar(Some(Table(SimpleName(e)))), 0) == Success("SELECT *\nFROM\n  " + e + "\n")
  {
    SelectStarLine(0);
    assert IndentString(0) == "";
    SimpleTable(e, 0);
    var from := "" + "FROM" + "\n" + ("" + "  ") + e;
    assert FromClause(Some(Table(SimpleName(e))), 0) == Success(from);
    assert from == "FROM\n  " + e;
    assert WindowClauseText([], 0) == Success("");
    var r := SelectStar(Some(Table(SimpleName(e))));
    assert ClausesRender(r, 0);
    ClauseOrder(r, 0);
    assert "" + "SELECT *\n" == "SELECT *\n";
    assert "SELECT *\n" + from + "\n" + ("" + "" + "") + "" + ("" + "" + "") == "SELECT *\nFROM\n  " + e + "\n";
  }

  /** SELECT * without FROM: the empty FROM clause still ends its line. */
  lemma SelectStarExample()
    ensures QuerySpecificationText(SelectStar(None), 0) == Success("SELECT *\n\n")
  {
    SelectStarLine(0);
    assert IndentString(0) == "";
    assert WindowClauseText([], 0) == Success("");
    var r := SelectStar(None);
    assert ClausesRender(r, 0);
    ClauseOrder(r, 0);
    assert "" + "SELECT *\n" == "SELECT *\n";
    assert "SELECT *\n" + "" + "\n" + ("" + "" + "") + "" + ("" + "" + "") == "SELECT *\n\n";
  }

  /** formatSql on the query SELECT * FROM e: the query adds nothing around its body. */
  lemma FormatSelectStarFrom(e: string)
    ensures FormatSqlText(StatementRoot(QueryStatement(Query(None, SelectStar(Some(Table(SimpleName(e)))), None, None, None))))
         == Success("SELECT *\nFROM\n  " + e + "\n")
  {
    var body := SelectStar(Some(Table(SimpleName(e))));
    SelectStarFromExample(e);
    assert QueryBodyText(body, 0) == RelationText(body, 0);
    assert RelationText(body, 0) == QuerySpecificationText(body, 0);
    var t := "SELECT *\nFROM\n  " + e + "\n";
    assert "" + "" + "" == "";
    assert PagingText(Success(""), Success(""), Success("")) == Success("");
    assert QueryText(Query(None, body, None, None, None), 0) == Success("" + t + "");
    assert "" + t + "" == t;
  }

  // ----- Joins -----

  /** "NATURAL " before the join type when the criteria are natural. */
  function NaturalWord(criteria: Option<JoinCriteria>): string {
    if criteria == Some(Natural) then "NATURAL " else ""
  }

  /** visitJoin: an implicit join is its two sides separated by ", " at the start of a new line. */
  lemma ImplicitJoinLayout(r: Relation, indent: nat)
    requires r.Join? && r.joinType == Implicit
    requires RelationText(r.left, indent).Success? && RelationText(r.right, indent).Success?
    ensures RelationText(r, indent)
         == Success(RelationText(r.left, indent).value + "\n" + IndentString(indent) + ", " + RelationText(r.right, indent).value)
  {
    var left, right := RelationText(r.left, indent).value, RelationText(r.right, indent).value;
    JoinAssemble(r, indent);
    assert JoinEndText(r, indent) == Success("");
    assert "" + left + ("\n" + (IndentString(indent) + ", ")) + right + ""
        == left + "\n" + IndentString(indent) + ", " + right;
  }

  /**
   * visitJoin: a CROSS join is parenthesised, has CROSS JOIN (NATURAL first for natural
   * criteria) at the start of the right side's line, and writes no criteria.
   */
  lemma CrossJoinLayout(r: Relation, indent: nat)
    requires r.Join? && r.joinType == Cross
    requires RelationText(r.left, indent).Success? && RelationText(r.right, indent).Success?
    ensures RelationText(r, indent)
         == Success("(" + RelationText(r.left, indent).value + "\n" + IndentString(indent) + NaturalWord(r.criteria)
                    + "CROSS JOIN " + RelationText(r.right, indent).value + ")")
  {
    var left, right := RelationText(r.left, indent).value, RelationText(r.right, indent).value;
    JoinAssemble(r, indent);
    assert JoinEndText(r, indent) == Success(")");
    var ind, natural := IndentString(indent), NaturalWord(r.criteria);
    assert "(" + left + ("\n" + (ind + (natural + "CROSS" + " JOIN "))) + right + ")"
        == "(" + left + "\n" + ind + natural + "CROSS JOIN " + right + ")";
  }

  /**
   * visitJoin: an INNER, LEFT, RIGHT or FULL join is parenthesised, has its type keyword
   * (NATURAL first for natural criteria) at the start of the right side's line, and fails
   * when its criteria do, a missing criteria object included.
   */
  lemma QualifiedJoinLayout(r: Relation, indent: nat)
    requires r.Join? && r.joinType != Implicit && r.joinType != Cross
    requires RelationText(r.left, indent).Success? && RelationText(r.right, indent).Success?
    ensures var c := JoinCriteriaText(r.criteria, indent);
      RelationText(r, indent)
      == if c.Failure? then c
         else Success("(" + RelationText(r.left, indent).value + "\n" + IndentString(indent) + NaturalWord(r.criteria)
                      + JoinTypeName(r.joinType) + " JOIN " + RelationText(r.right, indent).value + c.value + ")")
    ensures r.criteria.None? ==> RelationText(r, indent) == Failure(UnknownJoinCriteria)
  {
    var left, right := RelationText(r.left, indent).value, RelationText(r.right, indent).value;
    JoinAssemble(r, indent);
    var c := JoinCriteriaText(r.criteria, indent);
    assert JoinEndText(r, indent) == Enclosed("", c, ")");
    if c.Success? {
      JoinLine(left, right, IndentString(indent), NaturalWord(r.criteria), JoinTypeName(r.joinType), c.value);
    }
  }

  /** The text of a qualified join, regrouped. */
  lemma JoinLine(left: string, right: string, ind: string, natural: string, typeName: string, criteria: string)
    ensures "(" + left + ("\n" + (ind + (natural + typeName + " JOIN "))) + right + ("" + criteria + ")")
         == "(" + left + "\n" + ind + natural + typeName + " JOIN " + right + criteria + ")"
  {
  }

  /** visitJoin assembled from its three parts once both sides render. */
  lemma JoinAssemble(r: Relation, indent: nat)
    requires r.Join? && RelationText(r.left, indent).Success? && RelationText(r.right, indent).Success?
    ensures var head := (if r.joinType == Implicit then "" else "(") + RelationText(r.left, indent).value + JoinKeywordText(r, indent);
      var end := JoinEndText(r, indent);
      RelationText(r, indent)
      == if end.Failure? then Failure(end.error) else Success(head + RelationText(r.right, indent).value + end.value)
  {
    var head := (if r.joinType == Implicit then "" else "(") + RelationText(r.left, indent).value + JoinKeywordText(r, indent);
    assert JoinHeadText(r, indent) == Success(head);
    assert RelationText(r, indent) == JoinText(r, indent);
  }

  /** A table of a one-part name renders as that name. */
  lemma SimpleTable(a: string, indent: nat)
    ensures RelationText(Table(SimpleName(a)), indent) == Success(a)
  {
    assert JoinWith([a], ".") == a;
  }

  /** Tables a and b joined on the condition c. */
  lemma JoinOnExample(a: string, b: string, c: string)
    ensures RelationText(Join(Inner, Table(SimpleName(a)), Table(SimpleName(b)), Some(On(Ident(Identifier(c, false))))), 0)
         == Success("(" + a + "\nINNER JOIN " + b + " ON " + c + ")")
  {
    SimpleTable(a, 0);
    SimpleTable(b, 0);
    assert IndentString(0) == "";
    PlainIdentifierText(c, Some(0));
    assert JoinCriteriaText(Some(On(Ident(Identifier(c, false)))), 0) == Success(" ON " + c);
    QualifiedJoinLayout(Join(Inner, Table(SimpleName(a)), Table(SimpleName(b)), Some(On(Ident(Identifier(c, false))))), 0);
    assert "(" + a + "\n" + "" + "" + "INNER" + " JOIN " + b + (" ON " + c) + ")" == "(" + a + "\nINNER JOIN " + b + " ON " + c + ")";
  }

  /** Tables a and b in a natural join. */
  lemma NaturalJoinExample(a: string, b: string)
    ensures RelationText(Join(Inner, Table(SimpleName(a)), Table(SimpleName(b)), Some(Natural)), 0)
         == Success("(" + a + "\nNATURAL INNER JOIN " + b + ")")
  {
    SimpleTable(a, 0);
    SimpleTable(b, 0);
    assert IndentString(0) == "";
    QualifiedJoinLayout(Join(Inner, Table(SimpleName(a)), Table(SimpleName(b)), Some(Natural)), 0);
    assert "(" + a + "\n" + "" + "NATURAL " + "INNER" + " JOIN " + b + "" + ")" == "(" + a + "\nNATURAL INNER JOIN " + b + ")";
  }

  /** Tables a and b in an outer join without criteria: an error. */
  lemma MissingCriteriaExample(a: string, b: string)
    ensures RelationText(Join(LeftOuter, Table(SimpleName(a)), Table(SimpleName(b)), None), 0) == Failure(UnknownJoinCriteria)
  {
    SimpleTable(a, 0);
    SimpleTable(b, 0);
    QualifiedJoinLayout(Join(LeftOuter, Table(SimpleName(a)), Table(SimpleName(b)), None), 0);
  }

  // ----- Set operations and WITH -----

  /**
   * The first n operands of a UNION or INTERSECT are their bodies joined by the keyword, with
   * the keyword once more after them unless they are all the operands.
   */
  lemma {:induction false} OperandsJoin(rs: seq<Relation>, bodies: seq<string>, n: nat, keyword: string, indent: nat)
    requires n <= |rs| == |bodies|
    requires forall k :: 0 <= k < |rs| ==> QueryBodyText(rs[k], indent) == Success(bodies[k])
    ensures OperandsText(rs, n, keyword, indent)
         == Success(JoinWith(bodies[..n], keyword) + (if 0 < n < |rs| then keyword else ""))
    decreases n
  {
    var tail := if n < |rs| then keyword else "";
    if n == 1 {
      assert OperandsText(rs, 1, keyword, indent) == Success("" + bodies[0] + tail) by {
        OperandsStep(rs, 1, keyword, indent, "", bodies[0]);
      }
      assert bodies[..1] == [bodies[0]];
      assert "" + bodies[0] + tail == bodies[0] + tail;
    } else if n > 1 {
      var init := bodies[..n - 1];
      assert OperandsText(rs, n, keyword, indent) == Success(JoinWith(init, keyword) + keyword + bodies[n - 1] + tail) by {
        OperandsJoin(rs, bodies, n - 1, keyword, indent);
        OperandsStep(rs, n, keyword, indent, JoinWith(init, keyword) + keyword, bodies[n - 1]);
      }
      assert bodies[..n] == init + [bodies[n - 1]] && init != [];
      JoinWithSnoc(init, bodies[n - 1], keyword);
      assert JoinWith(bodies[..n], keyword) == JoinWith(init, keyword) + keyword + bodies[n - 1];
    } else {
      assert bodies[..0] == [];
      assert JoinWith([], keyword) + "" == "";
    }
  }

  lemma OperandsStep(rs: seq<Relation>, n: nat, keyword: string, indent: nat, prev: string, last: string)
    requires 1 <= n <= |rs|
    requires OperandsText(rs, n - 1, keyword, indent) == Success(prev)
    requires QueryBodyText(rs[n - 1], indent) == Success(last)
    ensures OperandsText(rs, n, keyword, indent) == Success(prev + last + (if n < |rs| then keyword else ""))
  {
    if n == |rs| {
      assert prev + last + "" == prev + last;
    }
  }

  /**
   * visitUnion, visitIntersect and visitExcept: the operands' bodies joined by the keyword,
   * followed by ALL unless the operation is distinct.
   */
  lemma SetOperationLayout(rs: seq<Relation>, bodies: seq<string>, distinct: bool, indent: nat)
    requires |rs| == |bodies|
    requires forall k :: 0 <= k < |rs| ==> QueryBodyText(rs[k], indent) == Success(bodies[k])
    ensures RelationText(Union(rs, distinct), indent)
         == Success(JoinWith(bodies, if distinct then "UNION " else "UNION ALL "))
    ensures RelationText(Intersect(rs, distinct), indent)
         == Success(JoinWith(bodies, if distinct then "INTERSECT " else "INTERSECT ALL "))
    ensures |rs| == 2 ==>
      RelationText(Except(rs[0], rs[1], distinct), indent)
      == Success(bodies[0] + (if distinct then "EXCEPT " else "EXCEPT ALL ") + bodies[1])
  {
    assert bodies[..|rs|] == bodies;
    var union, intersect := SetOperatorText("UNION", distinct), SetOperatorText("INTERSECT", distinct);
    assert union == if distinct then "UNION " else "UNION ALL ";
    assert intersect == if distinct then "INTERSECT " else "INTERSECT ALL ";
    assert SetOperatorText("EXCEPT", distinct) == if distinct then "EXCEPT " else "EXCEPT ALL ";
    OperandsJoin(rs, bodies, |rs|, union, indent);
    OperandsJoin(rs, bodies, |rs|, intersect, indent);
    assert JoinWith(bodies, union) + "" == JoinWith(bodies, union);
    assert JoinWith(bodies, intersect) + "" == JoinWith(bodies, intersect);
    assert RelationText(Union(rs, distinct), indent) == OperandsText(rs, |rs|, union, indent);
    assert RelationText(Intersect(rs, distinct), indent) == OperandsText(rs, |rs|, intersect, indent);
  }

  /** A table standing as a query body is written TABLE name on a line of its own. */
  lemma TableBody(name: QualifiedName, indent: nat)
    ensures QueryBodyText(Table(name), indent) == Success("TABLE " + name.text + "\n")
    ensures RelationText(Table(name), indent) == Success(FormatName(name))
  {
  }

  /**
   * The first n named queries of a WITH clause are their texts joined by ", ", with ", " once
   * more after them unless they are all the queries.
   */
  lemma {:induction false} WithQueriesJoin(qs: seq<WithQuery>, texts: seq<string>, n: nat, indent: nat)
    requires n <= |qs| == |texts|
    requires forall k :: 0 <= k < |qs| ==> WithQueryText(qs[k], indent) == Success(texts[k])
    ensures WithQueriesText(qs, n, indent) == Success(JoinWith(texts[..n], ", ") + (if 0 < n < |qs| then ", " else ""))
    decreases n
  {
    var tail := if n < |qs| then ", " else "";
    if n == 1 {
      assert WithQueriesText(qs, 1, indent) == Success("" + texts[0] + tail) by {
        WithQueriesStep(qs, 1, indent, "", texts[0]);
      }
      assert texts[..1] == [texts[0]];
      assert "" + texts[0] + tail == texts[0] + tail;
    } else if n > 1 {
      var init := texts[..n - 1];
      assert WithQueriesText(qs, n, indent) == Success(JoinWith(init, ", ") + ", " + texts[n - 1] + tail) by {
        WithQueriesJoin(qs, texts, n - 1, indent);
        WithQueriesStep(qs, n, indent, JoinWith(init, ", ") + ", ", texts[n - 1]);
      }
      assert texts[..n] == init + [texts[n - 1]] && init != [];
      JoinWithSnoc(init, texts[n - 1], ", ");
      assert JoinWith(texts[..n], ", ") == JoinWith(init, ", ") + ", " + texts[n - 1];
    } else {
      assert texts[..0] == [];
      assert JoinWith([], ", ") + "" == "";
    }
  }

  lemma WithQueriesStep(qs: seq<WithQuery>, n: nat, indent: nat, prev: string, last: string)
    requires 1 <= n <= |qs|
    requires WithQueriesText(qs, n - 1, indent) == Success(prev)
    requires WithQueryText(qs[n - 1], indent) == Success(last)
    ensures WithQueriesText(qs, n, indent) == Success(prev + last + (if n < |qs| then ", " else ""))
  {
    if n == |qs| {
      assert prev + last + "" == prev + last;
    }
  }

  /**
   * visitQuery: the WITH clause (WITH, RECURSIVE if so, then the named queries joined by ", "
   * after a line break and two spaces), the body, then ORDER BY, OFFSET and LIMIT.
   */
  lemma QueryLayout(q: Query, texts: seq<string>, indent: nat)
    requires q.with.Some? ==> |q.with.value.queries| == |texts|
    requires q.with.Some? ==> forall k :: 0 <= k < |texts| ==> WithQueryText(q.with.value.queries[k], indent) == Success(texts[k])
    requires QueryBodyText(q.body, indent).Success?
    requires OrderByClause(q.orderBy, indent).Success? && OffsetClause(q.offset, indent).Success?
    requires LimitClause(q.limit, indent).Success?
    ensures QueryText(q, indent)
         == Success((if q.with.None? then ""
                     else IndentString(indent) + "WITH" + (if q.with.value.recursive then " RECURSIVE" else "") + "\n  "
                          + JoinWith(texts, ", "))
                    + QueryBodyText(q.body, indent).value
                    + (OrderByClause(q.orderBy, indent).value + OffsetClause(q.offset, indent).value
                       + LimitClause(q.limit, indent).value))
  {
    if q.with.Some? {
      var w := q.with.value;
      WithQueriesJoin(w.queries, texts, |texts|, indent);
      assert texts[..|texts|] == texts;
      assert JoinWith(texts, ", ") + "" == JoinWith(texts, ", ");
      assert WithText(w, indent)
          == Success(IndentString(indent) + "WITH" + (if w.recursive then " RECURSIVE" else "") + "\n  " + JoinWith(texts, ", "));
    }
  }

  // ----- Properties -----

  /** Each property renders as its name, " = ", and its value. */
  lemma {:induction false} PropertyTextsPointwise(ps: seq<Property>, indent: nat)
    requires PropertyTexts(ps, indent).Success?
    ensures forall k :: 0 <= k < |ps| ==>
      && ExpressionText(ps[k].propertyValue, Some(indent)).Success?
      && PropertyTexts(ps, indent).value[k]
         == IdentifierText(ps[k].propertyName) + " = " + ExpressionText(ps[k].propertyValue, Some(indent)).value
    decreases |ps|
  {
    if ps != [] {
      PropertyTextsPointwise(ps[1..], indent);
      forall k | 0 < k < |ps|
        ensures ps[k] == ps[1..][k - 1]
      {
      }
    }
  }

  /**
   * formatPropertiesMultiLine and formatPropertiesSingleLine render the same `name = value`
   * texts: both give nothing for no properties and fail together; with properties, the first
   * puts each text on its own line two spaces in, between "WITH (" and ")" lines, the second
   * writes them inline between " WITH ( " and " )".
   */
  lemma PropertiesRenderingsAgree(ps: seq<Property>, indent: nat)
    ensures PropertiesMultiLine(ps, indent).Success? <==> PropertiesSingleLine(ps, indent).Success?
    ensures ps == [] ==> PropertiesMultiLine(ps, indent) == Success("") && PropertiesSingleLine(ps, indent) == Success("")
    ensures ps != [] && PropertyTexts(ps, indent).Success? ==>
      var texts := PropertyTexts(ps, indent).value;
      && PropertiesSingleLine(ps, indent) == Success(" WITH ( " + JoinWith(texts, ", ") + " )")
      && PropertiesMultiLine(ps, indent) == Success("\nWITH (\n" + JoinWith(IndentEach(texts, 1), ",\n") + "\n)")
      && (forall k :: 0 <= k < |texts| ==> IndentEach(texts, 1)[k] == "  " + texts[k])
  {
    assert IndentString(1) == "  ";
  }
  // ----- Principals and grantors -----

  /**
   * A principal renders as its name, after "USER " or "ROLE " unless its kind is
   * unspecified; a grantor renders as CURRENT_USER, CURRENT_ROLE or its principal.
   */
  lemma PrincipalLayout(p: Principal)
    ensures p.principalType == Unspecified ==> PrincipalText(p) == p.nameText
    ensures p.principalType != Unspecified ==>
      && |PrincipalText(p)| == 5 + |p.nameText|
      && PrincipalText(p)[5..] == p.nameText
      && PrincipalText(p)[..5] == (if p.principalType == User then "USER " else "ROLE ")
    ensures GrantorText(PrincipalGrantor(p)) == PrincipalText(p)
    ensures GrantorText(CurrentUserGrantor) == "CURRENT_USER" && GrantorText(CurrentRoleGrantor) == "CURRENT_ROLE"
  {
  }

  /** A principal of a stated kind is determined by its text: kind word and name read back. */
  lemma PrincipalTextInjective(p1: Principal, p2: Principal)
    requires p1.principalType != Unspecified && p2.principalType != Unspecified
    requires PrincipalText(p1) == PrincipalText(p2)
    ensures p1 == p2
  {
    PrincipalLayout(p1);
    PrincipalLayout(p2);
  }

  /**
   * The special grantors never render like a principal of a stated kind, so grantors with
   * such principals are told apart by their text.
   */
  lemma GrantorTextInjective(g1: Grantor, g2: Grantor)
    requires g1.PrincipalGrantor? ==> g1.principal.principalType != Unspecified
    requires g2.PrincipalGrantor? ==> g2.principal.principalType != Unspecified
    requires GrantorText(g1) == GrantorText(g2)
    ensures g1 == g2
  {
    GrantorTextHead(g1);
    GrantorTextHead(g2);
    if g1.PrincipalGrantor? && g2.PrincipalGrantor? {
      PrincipalTextInjective(g1.principal, g2.principal);
    }
  }

  /** The text of a grantor starts with C exactly when it is one of the two special grantors. */
  lemma GrantorTextHead(g: Grantor)
    requires g.PrincipalGrantor? ==> g.principal.principalType != Unspecified
    ensures |GrantorText(g)| > 0 && (GrantorText(g)[0] == 'C' <==> !g.PrincipalGrantor?)
  {
    if g.PrincipalGrantor? {
      PrincipalLayout(g.principal);
    }
  }
}
