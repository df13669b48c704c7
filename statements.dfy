/**
 * The text SqlFormatter produces for whole statements: the keyword templates of the
 * DDL, DML and administrative statements, the two renderings of a property list, column
 * definitions, principals and grantors. Queries and relations inside a statement are
 * rendered by the Formatting module.
 */
module Statements {
  import opened Wrappers
  import opened Text
  import opened Ast
  import opened StringLiterals
  import opened Formatting

  // ----- Principals and grantors -----

  /** formatPrincipal: the bare name when unspecified, else the kind's name and the name. */
  function PrincipalText(p: Principal): string {
    match p.principalType
    case Unspecified => p.nameText
    case User => "USER " + p.nameText
    case Role => "ROLE " + p.nameText
  }

  function PrincipalTexts(ps: seq<Principal>): (r: seq<string>)
    ensures |r| == |ps|
    ensures forall k :: 0 <= k < |ps| ==> r[k] == PrincipalText(ps[k])
  {
    if ps == [] then [] else [PrincipalText(ps[0])] + PrincipalTexts(ps[1..])
  }

  /** formatGrantor: the two special grantors by name, otherwise the principal. */
  function GrantorText(g: Grantor): string {
    match g
    case CurrentRoleGrantor => "CURRENT_ROLE"
    case CurrentUserGrantor => "CURRENT_USER"
    case PrincipalGrantor(p) => PrincipalText(p)
  }

  // ----- Properties and column definitions -----

  /** Each property as `name = value`, the value at the given indent. */
  function PropertyTexts(ps: seq<Property>, indent: nat): (r: Result<seq<string>, FormatError>)
    ensures r.Success? ==> |r.value| == |ps|
  {
    if ps == [] then Success([])
    else
      var value :- ExpressionText(ps[0].propertyValue, Some(indent));
      var tail :- PropertyTexts(ps[1..], indent);
      Success([IdentifierText(ps[0].propertyName) + " = " + value] + tail)
  }

  /** formatPropertiesMultiLine: nothing, or a WITH block with one indented property per line. */
  function PropertiesMultiLine(ps: seq<Property>, indent: nat): Rendered {
    if ps == [] then Success("")
    else
      var texts :- PropertyTexts(ps, indent);
      Success("\nWITH (\n" + JoinWith(IndentEach(texts, 1), ",\n") + "\n)")
  }

  /** formatPropertiesSingleLine: nothing, or ` WITH ( a = 1, b = 2 )`. */
  function PropertiesSingleLine(ps: seq<Property>, indent: nat): Rendered {
    if ps == [] then Success("")
    else
      var texts :- PropertyTexts(ps, indent);
      Success(" WITH ( " + JoinWith(texts, ", ") + " )")
  }

  /** formatColumnDefinition. */
  function ColumnDefinitionText(c: ColumnDefinition, indent: nat): Rendered {
    var properties :- PropertiesSingleLine(c.properties, indent);
    Success(IdentifierText(c.columnName) + " " + c.typeText + (if c.nullable then "" else " NOT NULL")
            + (if c.comment.Some? then " COMMENT " + StringLiteralText(c.comment.value) else "")
            + properties)
  }

  /** One element of CREATE TABLE, on its own line one level deeper. */
  function TableElementText(e: TableElement, indent: nat): Rendered {
    match e
    case ColumnElement(c) => Prefixed(IndentString(indent + 1), ColumnDefinitionText(c, indent))
    case LikeClause(table, option) =>
      Success(IndentString(indent + 1) + "LIKE " + FormatName(table)
              + (match option
                 case None => ""
                 case Some(Including) => " INCLUDING PROPERTIES"
                 case Some(Excluding) => " EXCLUDING PROPERTIES"))
  }

  function TableElementTexts(es: seq<TableElement>, indent: nat): (r: Result<seq<string>, FormatError>)
    ensures r.Success? ==> |r.value| == |es|
  {
    if es == [] then Success([])
    else
      var head :- TableElementText(es[0], indent);
      var tail :- TableElementTexts(es[1..], indent);
      Success([head] + tail)
  }

  // ----- Small pieces of statement templates -----

  function IfExists(b: bool): string { if b then "IF EXISTS " else "" }

  function IfNotExists(b: bool): string { if b then "IF NOT EXISTS " else "" }

  function OrReplace(b: bool): string { if b then "OR REPLACE " else "" }

  /** The comment line of CREATE TABLE and CREATE MATERIALIZED VIEW. */
  function CommentLine(c: Option<JavaString>): string {
    if c.Some? then "\nCOMMENT " + StringLiteralText(c.value) else ""
  }

  /** The optional LIKE and ESCAPE patterns of the SHOW statements. */
  function LikeEscapeText(like: Option<JavaString>, escape: Option<JavaString>): string {
    (if like.Some? then " LIKE " + StringLiteralText(like.value) else "")
    + (if escape.Some? then " ESCAPE " + StringLiteralText(escape.value) else "")
  }

  function FromText(catalog: Option<string>): string {
    if catalog.Some? then " FROM " + catalog.value else ""
  }

  function GrantedByText(g: Option<Grantor>): string {
    if g.Some? then " GRANTED BY " + GrantorText(g.value) else ""
  }

  function PrivilegesText(privileges: Option<seq<string>>): string {
    if privileges.Some? then JoinWith(privileges.value, ", ") else "ALL PRIVILEGES"
  }

  function GrantTargetText(typeText: Option<string>, nameText: string): string {
    (if typeText.Some? then typeText.value + " " else "") + nameText
  }

  function ExplainOptionTexts(options: seq<ExplainOption>): (r: seq<string>)
    ensures |r| == |options|
  {
    if options == [] then []
    else
      [match options[0]
       case ExplainType(t) => "TYPE " + t
       case ExplainFormat(f) => "FORMAT " + f] + ExplainOptionTexts(options[1..])
  }

  function ShowCreateTypeText(t: ShowCreateType): string {
    match t
    case ShowCreateTable => "TABLE"
    case ShowCreateView => "VIEW"
    case ShowCreateMaterializedView => "MATERIALIZED VIEW"
  }

  /** visitIsolationLevel / visitTransactionAccessMode. */
  function TransactionModeText(m: TransactionMode): string {
    match m
    case Isolation(level) => "ISOLATION LEVEL " + level
    case TransactionAccessMode(readOnly) => if readOnly then "READ ONLY" else "READ WRITE"
  }

  /** The first n modes of START TRANSACTION, each after a space and all but the last followed by ",". */
  function TransactionModeList(ms: seq<TransactionMode>, n: nat): string
    requires n <= |ms|
  {
    if n == 0 then ""
    else TransactionModeList(ms, n - 1) + (" " + TransactionModeText(ms[n - 1]) + (if n < |ms| then "," else ""))
  }

  /** visitCallArgument: `[name => ]value`. */
  function CallArgumentText(a: CallArgument, indent: nat): Rendered {
    var value :- ExpressionText(a.argumentValue, Some(indent));
    Success((if a.argumentNameText.Some? then a.argumentNameText.value + " => " else "") + value)
  }

  /** The first n arguments of CALL, all but the last followed by ", ". */
  function CallArgumentsText(args: seq<CallArgument>, n: nat, indent: nat): Rendered
    requires n <= |args|
  {
    if n == 0 then Success("")
    else
      var init :- CallArgumentsText(args, n - 1, indent);
      var last :- CallArgumentText(args[n - 1], indent);
      Success(init + last + (if n < |args| then ", " else ""))
  }
  /** A failure among the first i arguments is the failure of the whole call. */
  lemma {:induction false} CallArgumentsTextFailure(args: seq<CallArgument>, i: nat, indent: nat)
    requires i <= |args| && CallArgumentsText(args, i, indent).Failure?
    ensures CallArgumentsText(args, |args|, indent) == CallArgumentsText(args, i, indent)
    decreases |args| - i
  {
    if i < |args| {
      CallArgumentsTextFailure(args, i + 1, indent);
    }
  }

  /** One SET assignment of UPDATE, on its own line one level deeper. */
  function AssignmentText(a: UpdateAssignment, indent: nat): Rendered {
    var value :- ExpressionText(a.assignedValue, Some(indent));
    Success("\n" + IndentString(indent + 1) + a.target.value + " = " + value)
  }

  /** The first n SET assignments of UPDATE, all but the last followed by ",". */
  function AssignmentLines(assignments: seq<UpdateAssignment>, n: nat, indent: nat): Rendered
    requires n <= |assignments|
  {
    if n == 0 then Success("")
    else
      var init :- AssignmentLines(assignments, n - 1, indent);
      var last :- AssignmentText(assignments[n - 1], indent);
      Success(init + last + (if n < |assignments| then "," else ""))
  }
  /** A failure among the first i assignments is the failure of the whole statement. */
  lemma {:induction false} AssignmentLinesFailure(assignments: seq<UpdateAssignment>, i: nat, indent: nat)
    requires i <= |assignments| && AssignmentLines(assignments, i, indent).Failure?
    ensures AssignmentLines(assignments, |assignments|, indent) == AssignmentLines(assignments, i, indent)
    decreases |assignments| - i
  {
    if i < |assignments| {
      AssignmentLinesFailure(assignments, i + 1, indent);
    }
  }

  // ----- Statements -----

  /** Formatter.process(statement, indent): the visit method of the statement's kind. */
  function StatementText(s: Statement, indent: nat): Rendered
    decreases s, 1
  {
    match s
    case QueryStatement(q) => QueryText(q, indent)
    case Prepare(_, _) => PrepareText(s, indent)
    case CreateView(_, _, _, _, _) => CreateViewText(s, indent)
    case CreateMaterializedView(_, _, _, _, _, _) => CreateMaterializedViewText(s, indent)
    case Explain(_, _, _) => ExplainText(s, indent)
    case ShowStats(_) => ShowStatsText(s, indent)
    case CreateTableAsSelect(_, _, _, _, _, _, _) => CreateTableAsSelectText(s, indent)
    case Insert(_, _, _) => InsertText(s, indent)
    case Update(_, _, _) => UpdateText(s, indent)
    case Call(_, _) => CallText(s, indent)
    case StartTransaction(_) => StartTransactionText(s, indent)
    case _ => TemplateText(s, indent)
  }

  /** The statements whose visit method processes a nested node or loops; the others are fixed templates. */
  predicate IsTemplate(s: Statement) {
    !(s.QueryStatement? || s.Prepare? || s.CreateView? || s.CreateMaterializedView? || s.Explain?
      || s.ShowStats? || s.CreateTableAsSelect? || s.Insert? || s.Update? || s.Call? || s.StartTransaction?)
  }

  /** The visit methods that only append words, names and rendered parts, in template order. */
  function TemplateText(s: Statement, indent: nat): Rendered
    requires IsTemplate(s)
  {
    match s
    case Deallocate(name) => Success(IndentString(indent) + "DEALLOCATE PREPARE " + name)
    case Execute(name, parameters) =>
      Success(IndentString(indent) + "EXECUTE " + name
              + (if parameters == [] then "" else " USING " + JoinWith(parameters, ", ")))
    case DescribeOutput(name) => Success(IndentString(indent) + "DESCRIBE OUTPUT " + name)
    case DescribeInput(name) => Success(IndentString(indent) + "DESCRIBE INPUT " + name)
    case RenameView(source, target) => Success("ALTER VIEW " + source + " RENAME TO " + target)
    case SetViewAuthorization(source, p) =>
      Success("ALTER VIEW " + FormatName(source) + " SET AUTHORIZATION " + PrincipalText(p))
    case RefreshMaterializedView(name) => Success("REFRESH MATERIALIZED VIEW " + FormatName(name))
    case DropMaterializedView(name, ifExists) =>
      Success("DROP MATERIALIZED VIEW " + IfExists(ifExists) + FormatName(name))
    case DropView(name, ifExists) => Success("DROP VIEW " + IfExists(ifExists) + name)
    case ShowCatalogs(like, escape) => Success("SHOW CATALOGS" + LikeEscapeText(like, escape))
    case ShowSchemas(catalog, like, escape) =>
      Success("SHOW SCHEMAS" + FromText(catalog) + LikeEscapeText(like, escape))
    case ShowTables(schema, like, escape) =>
      Success("SHOW TABLES" + (if schema.Some? then " FROM " + FormatName(schema.value) else "")
              + LikeEscapeText(like, escape))
    case ShowCreate(kind, name) => Success("SHOW CREATE " + ShowCreateTypeText(kind) + " " + FormatName(name))
    case ShowColumns(table, like, escape) =>
      Success("SHOW COLUMNS FROM " + FormatName(table) + LikeEscapeText(like, escape))
    case ShowFunctions(like, escape) => Success("SHOW FUNCTIONS" + LikeEscapeText(like, escape))
    case ShowSession(like, escape) => Success("SHOW SESSION" + LikeEscapeText(like, escape))
    case Delete(table, where) =>
      if where.Some? then
        Prefixed("DELETE FROM " + FormatName(table) + " WHERE\n" + IndentString(indent + 1),
                 ExpressionText(where.value, Some(indent + 1)))
      else Success("DELETE FROM " + FormatName(table))
    case CreateSchema(name, ifNotExists, owner, properties) =>
      var props :- PropertiesMultiLine(properties, indent);
      Success("CREATE SCHEMA " + IfNotExists(ifNotExists) + FormatName(name)
              + (if owner.Some? then "\nAUTHORIZATION " + PrincipalText(owner.value) else "") + props)
    case DropSchema(name, ifExists, cascade) =>
      Success("DROP SCHEMA " + IfExists(ifExists) + FormatName(name) + " " + (if cascade then "CASCADE" else "RESTRICT"))
    case RenameSchema(source, target) =>
      Success("ALTER SCHEMA " + FormatName(source) + " RENAME TO " + IdentifierText(target))
    case SetSchemaAuthorization(source, p) =>
      Success("ALTER SCHEMA " + FormatName(source) + " SET AUTHORIZATION " + PrincipalText(p))
    case CreateTable(name, ifNotExists, elements, comment, properties) =>
      var columns :- TableElementTexts(elements, indent);
      var props :- PropertiesMultiLine(properties, indent);
      Success("CREATE TABLE " + IfNotExists(ifNotExists) + FormatName(name) + " (\n" + JoinWith(columns, ",\n")
              + "\n)" + CommentLine(comment) + props)
    case DropTable(name, ifExists) => Success("DROP TABLE " + IfExists(ifExists) + name)
    case RenameTable(source, target, ifExists) =>
      Success("ALTER TABLE " + IfExists(ifExists) + source + " RENAME TO " + target)
    case Comment(kind, name, comment) =>
      Success("COMMENT ON " + (if kind == TableComment then "TABLE " else "COLUMN ") + name + " IS "
              + (if comment.Some? then StringLiteralText(comment.value) else "NULL"))
    case RenameColumn(table, source, target, tableExists, columnExists) =>
      Success("ALTER TABLE " + IfExists(tableExists) + table + " RENAME COLUMN " + IfExists(columnExists)
              + source + " TO " + target)
    case DropColumn(table, column, tableExists, columnExists) =>
      Success("ALTER TABLE " + IfExists(tableExists) + FormatName(table) + " DROP COLUMN " + IfExists(columnExists)
              + IdentifierText(column))
    case Analyze(table, properties) => Prefixed("ANALYZE " + FormatName(table), PropertiesMultiLine(properties, indent))
    case AddColumn(table, column, tableExists, columnNotExists) =>
      Prefixed("ALTER TABLE " + IfExists(tableExists) + table + " ADD COLUMN " + IfNotExists(columnNotExists),
               ColumnDefinitionText(column, indent))
    case SetTableAuthorization(source, p) =>
      Success("ALTER TABLE " + FormatName(source) + " SET AUTHORIZATION " + PrincipalText(p))
    case SetSession(name, value) => Prefixed("SET SESSION " + name + " = ", ExpressionText(value, Some(indent)))
    case ResetSession(name) => Success("RESET SESSION " + name)
    case Commit => Success("COMMIT")
    case Rollback => Success("ROLLBACK")
    case CreateRole(role, grantor) =>
      Success("CREATE ROLE " + role + (if grantor.Some? then " WITH ADMIN " + GrantorText(grantor.value) else ""))
    case DropRole(role) => Success("DROP ROLE " + role)
    case GrantRoles(roles, grantees, adminOption, grantor) =>
      Success("GRANT " + JoinWith(roles, ", ") + " TO " + JoinWith(PrincipalTexts(grantees), ", ")
              + (if adminOption then " WITH ADMIN OPTION" else "") + GrantedByText(grantor))
    case RevokeRoles(roles, grantees, adminOption, grantor) =>
      Success("REVOKE " + (if adminOption then "ADMIN OPTION FOR " else "") + JoinWith(roles, ", ") + " FROM "
              + JoinWith(PrincipalTexts(grantees), ", ") + GrantedByText(grantor))
    case SetRole(kind) =>
      Success("SET ROLE " + (match kind
                             case SetRoleAll => "ALL"
                             case SetRoleNone => "NONE"
                             case SetRoleTo(role) => role))
    case Grant(privileges, typeText, name, grantee, withGrantOption) =>
      Success("GRANT " + PrivilegesText(privileges) + " ON " + GrantTargetText(typeText, name) + " TO "
              + PrincipalText(grantee) + (if withGrantOption then " WITH GRANT OPTION" else ""))
    case Revoke(grantOptionFor, privileges, typeText, name, grantee) =>
      Success("REVOKE " + (if grantOptionFor then "GRANT OPTION FOR " else "") + PrivilegesText(privileges) + " ON "
              + GrantTargetText(typeText, name) + " FROM " + PrincipalText(grantee))
    case ShowGrants(onTable, tableName) =>
      Success("SHOW GRANTS " + (if tableName.Some? then "ON " + (if onTable then "TABLE " else "") + tableName.value else ""))
    case ShowRoles(current, catalog) =>
      Success("SHOW " + (if current then "CURRENT " else "") + "ROLES" + FromText(catalog))
    case ShowRoleGrants(catalog) => Success("SHOW ROLE GRANTS" + FromText(catalog))
    case SetPath(path) => Success("SET PATH " + JoinWith(path, ", "))
  }


  /** visitPrepare: the header at the current indent, then the statement one level deeper. */
  function PrepareText(s: Statement, indent: nat): Rendered
    requires s.Prepare?
    decreases s, 0
  {
    Prefixed(IndentString(indent) + "PREPARE " + s.prepareNameText + " FROM\n", StatementText(s.statement, indent + 1))
  }

  /** visitCreateView: the header with the optional comment and security, then the query. */
  function CreateViewText(s: Statement, indent: nat): Rendered
    requires s.CreateView?
    decreases s, 0
  {
    Prefixed("CREATE " + OrReplace(s.replace) + "VIEW " + FormatName(s.name)
             + (if s.comment.Some? then " COMMENT " + StringLiteralText(s.comment.value) else "")
             + (if s.securityText.Some? then " SECURITY " + s.securityText.value else "")
             + " AS\n", QueryText(s.query, indent))
  }

  /** visitCreateMaterializedView: the properties are rendered before the query. */
  function CreateMaterializedViewText(s: Statement, indent: nat): Rendered
    requires s.CreateMaterializedView?
    decreases s, 0
  {
    var props :- PropertiesMultiLine(s.properties, indent);
    Prefixed("CREATE " + OrReplace(s.replace) + "MATERIALIZED VIEW " + IfNotExists(s.ifNotExists) + FormatName(s.name)
             + CommentLine(s.comment) + props + " AS\n", QueryText(s.query, indent))
  }

  /** visitExplain: EXPLAIN, ANALYZE, the options in parentheses, a line break, then the statement. */
  function ExplainText(s: Statement, indent: nat): Rendered
    requires s.Explain?
    decreases s, 0
  {
    Prefixed("EXPLAIN " + (if s.analyze then "ANALYZE " else "")
             + (if s.options == [] then "" else "(" + JoinWith(ExplainOptionTexts(s.options), ", ") + ")")
             + "\n", StatementText(s.statement, indent))
  }

  /** visitShowStats: the relation is processed at indent 0, whatever the indent. */
  function ShowStatsText(s: Statement, indent: nat): Rendered
    requires s.ShowStats?
    decreases s, 0
  {
    Prefixed("SHOW STATS FOR ", RelationText(s.relation, 0))
  }

  /** visitCreateTableAsSelect: the header with the properties, " AS ", the query, WITH NO DATA. */
  function CreateTableAsSelectText(s: Statement, indent: nat): Rendered
    requires s.CreateTableAsSelect?
    decreases s, 0
  {
    var props :- PropertiesMultiLine(s.properties, indent);
    var query :- QueryText(s.query, indent);
    Success("CREATE TABLE " + IfNotExists(s.ifNotExists) + FormatName(s.name)
            + (if s.renderedColumnAliases.Some? then "( " + JoinWith(s.renderedColumnAliases.value, ", ") + " )" else "")
            + CommentLine(s.comment) + props + " AS " + query + (if s.withData then "" else " WITH NO DATA"))
  }

  /** visitInsert: the target and columns, a line break, then the query. */
  function InsertText(s: Statement, indent: nat): Rendered
    requires s.Insert?
    decreases s, 0
  {
    Prefixed("INSERT INTO " + s.targetText + (if s.columnTexts.Some? then " (" + JoinWith(s.columnTexts.value, ", ") + ")" else "")
             + "\n", QueryText(s.query, indent))
  }

  /** visitUpdate: the assignment lines, then the WHERE line when present. */
  function UpdateText(s: Statement, indent: nat): Rendered
    requires s.Update?
    decreases s, 0
  {
    var sets :- AssignmentLines(s.assignments, |s.assignments|, indent);
    var condition :- if s.where.Some? then
                       Prefixed("\n" + IndentString(indent) + "WHERE ", ExpressionText(s.where.value, Some(indent)))
                     else Success("");
    Success("UPDATE " + s.tableText + " SET" + sets + condition)
  }

  /** visitCall: the arguments in parentheses. */
  function CallText(s: Statement, indent: nat): Rendered
    requires s.Call?
    decreases s, 0
  {
    var texts :- CallArgumentsText(s.callArguments, |s.callArguments|, indent);
    Success("CALL " + s.nameText + "(" + texts + ")")
  }

  /** visitStartTransaction: START TRANSACTION and the modes. */
  function StartTransactionText(s: Statement, indent: nat): Rendered
    requires s.StartTransaction?
    decreases s, 0
  {
    Success("START TRANSACTION" + TransactionModeList(s.transactionModes, |s.transactionModes|))
  }
}
