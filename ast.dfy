/**
 * The syntax tree the formatter renders: the node kinds of the Trino SQL tree that
 * ExpressionFormatter and SqlFormatter have a rule for, as closed datatypes.
 *
 * Parts of a node that the formatter does not render itself, but hands to code outside
 * this model (the Trino library's own expression formatter, a node's toString, a
 * DecimalFormat), are carried as the text that code produces: fields named `...Text`
 * or `rendered...`.
 */
module Ast {
  import opened Wrappers

  /** A UTF-16 code point as Java's String.codePoints() yields it (lone surrogates included). */
  type CodePoint = c: int | 0 <= c <= 0x10FFFF

  /**
   * The value of a Java String, as its code points. String.codePoints() merges a high
   * surrogate (0xD800-0xDBFF) followed by a low one (0xDC00-0xDFFF) into one supplementary
   * code point, so a sequence holding such an adjacent pair is never produced from a real
   * string; the type admits it, and statements over every JavaString cover it harmlessly.
   */
  type JavaString = seq<CodePoint>

  datatype Identifier = Identifier(value: string, delimited: bool)

  /**
   * A qualified name: the library's rendering of each original part (joined by formatName),
   * the lower-cased last part (getSuffix) and toString.
   */
  datatype QualifiedName = QualifiedName(renderedParts: seq<string>, suffix: string, text: string)

  datatype LogicalOperator = And | Or
  datatype ComparisonOperator =
    Equal | NotEqual | LessThan | LessThanOrEqual | GreaterThan | GreaterThanOrEqual | IsDistinctFrom
  datatype ArithmeticOperator = Add | Subtract | Multiply | Divide | Modulus
  datatype Sign = Minus | Plus
  datatype IntervalSign = Positive | Negative
  datatype IntervalField = Year | Month | Day | Hour | Minute | Second
  datatype Quantifier = QuantifierAll | QuantifierAny | QuantifierSome
  datatype NullTreatment = Ignore | Respect
  datatype Ordering = Ascending | Descending
  datatype NullOrdering = NullsFirst | NullsLast | Undefined
  datatype FrameType = Range | Rows | Groups
  datatype DateTimeKind = Timestamp | Time

  datatype Expression =
    | Row(items: seq<Expression>)
    | AtTimeZone(value: Expression, timeZone: Expression)
    | CurrentUser
    | CurrentPath
    | Format(arguments: seq<Expression>)
    | CurrentTime(functionName: string, precision: Option<int>)
    | Extract(fieldText: string, expression: Expression)
    | BooleanLiteral(boolValue: bool)
    | StringLiteral(stringValue: JavaString)
    | CharLiteral(charValue: JavaString)
    | BinaryLiteral(hexText: string)
    | Parameter
    | AllRows
    | ArrayConstructor(values: seq<Expression>)
    | Subscript(base: Expression, index: Expression)
    | LongLiteral(longValue: int)
    | DoubleLiteral(renderedDouble: string)
    | DecimalLiteral(decimalValue: string)
    | GenericLiteral(typeText: string, genericValue: JavaString)
    | TimeLiteral(timeValue: string)
    | TimestampLiteral(timestampValue: string)
    | NullLiteral
    | IntervalLiteral(intervalValue: string, intervalSign: IntervalSign, startField: IntervalField,
                      endField: Option<IntervalField>)
    | SubqueryExpression(query: Query)
    | Exists(subquery: Expression)
    | Ident(identifier: Identifier)
    | LambdaArgument(argumentName: Identifier)
    | SymbolReference(symbolName: string)
    | Dereference(base: Expression, field: Identifier)
    | FieldReference(fieldIndex: int)
    | FunctionCall(name: QualifiedName, distinct: bool, arguments: seq<Expression>, orderBy: Option<OrderBy>,
                   nullTreatment: Option<NullTreatment>, filter: Option<Expression>, window: Option<Window>)
    | Lambda(argumentTexts: seq<string>, body: Expression)
    | Bind(values: seq<Expression>, bindFunction: Expression)
    | LogicalBinary(logicalOperator: LogicalOperator, left: Expression, right: Expression)
    | Not(value: Expression)
    | Comparison(comparisonOperator: ComparisonOperator, left: Expression, right: Expression)
    | IsNull(value: Expression)
    | IsNotNull(value: Expression)
    | NullIf(first: Expression, second: Expression)
    | If(condition: Expression, trueValue: Expression, falseValue: Option<Expression>)
    | Try(value: Expression)
    | Coalesce(operands: seq<Expression>)
    | ArithmeticUnary(sign: Sign, value: Expression)
    | ArithmeticBinary(arithmeticOperator: ArithmeticOperator, left: Expression, right: Expression)
    | Like(value: Expression, pattern: Expression, escape: Option<Expression>)
    | Cast(expression: Expression, targetType: DataType, safe: bool)
    | SearchedCase(whenClauses: seq<WhenClause>, defaultValue: Option<Expression>)
    | SimpleCase(operand: Expression, whenClauses: seq<WhenClause>, defaultValue: Option<Expression>)
    | Between(value: Expression, min: Expression, max: Expression)
    | In(value: Expression, valueList: Expression)
    | InList(values: seq<Expression>)
    | QuantifiedComparison(comparisonOperator: ComparisonOperator, quantifier: Quantifier, value: Expression,
                           subquery: Expression)
    | GroupingOperation(groupingColumns: seq<Expression>)

  datatype WhenClause = WhenClause(whenOperand: Expression, result: Expression)

  datatype DataType =
    | RowDataType(fields: seq<RowField>)
    | GenericDataType(typeNameText: string, typeArguments: seq<DataTypeParameter>)
    | IntervalDayTimeDataType(fromField: IntervalField, toField: IntervalField)
    | DateTimeDataType(kind: DateTimeKind, precisionText: Option<string>, withTimeZone: bool)

  datatype RowField = RowField(fieldName: Option<Identifier>, fieldType: DataType)

  datatype DataTypeParameter = TypeParameter(parameterType: DataType) | NumericParameter(numericValue: string)

  datatype SortItem = SortItem(sortKey: Expression, ordering: Ordering, nullOrdering: NullOrdering)

  datatype OrderBy = OrderBy(sortItems: seq<SortItem>)

  datatype FrameBound =
    | UnboundedPreceding
    | Preceding(offset: Expression)
    | CurrentRow
    | Following(offset: Expression)
    | UnboundedFollowing

  datatype WindowFrame = WindowFrame(frameType: FrameType, start: FrameBound, end: Option<FrameBound>)

  datatype WindowSpecification = WindowSpecification(existingWindowName: Option<Identifier>,
                                                     partitionBy: seq<Expression>,
                                                     orderBy: Option<OrderBy>,
                                                     frame: Option<WindowFrame>)

  datatype Window = WindowReference(windowName: Identifier) | InlineWindow(specification: WindowSpecification)

  /**
   * The kinds of GROUP BY element. `UnrecognisedGroupingElement` stands for a GroupingElement
   * of any class that formatGroupBy's instanceof chain does not test.
   */
  datatype GroupingElement =
    | SimpleGroupBy(columns: seq<Expression>)
    | GroupingSets(sets: seq<GroupingSet>)
    | Cube(columns: seq<Expression>)
    | Rollup(columns: seq<Expression>)
    | UnrecognisedGroupingElement

  /** One set of a GROUPING SETS element (a List<Expression> in the source). */
  datatype GroupingSet = GroupingSet(columns: seq<Expression>)

  datatype GroupBy = GroupBy(distinct: bool, groupingElements: seq<GroupingElement>)

  datatype Query = Query(with: Option<With>, body: Relation, orderBy: Option<OrderBy>,
                         offset: Option<Offset>, limit: Option<Limit>)

  datatype With = With(recursive: bool, queries: seq<WithQuery>)

  /** A common table expression; its column names as rendered by the library. */
  datatype WithQuery = WithQuery(name: Identifier, columnNames: Option<seq<string>>, query: Query)

  datatype Offset = Offset(rowCount: Expression)

  datatype Limit = Limit(rowCount: Expression) | FetchFirst(fetchCount: Option<Expression>, withTies: bool)

  datatype JoinType = Cross | Inner | LeftOuter | RightOuter | FullOuter | Implicit

  /** Join criteria; USING columns as their toString text. */
  datatype JoinCriteria = Using(usingColumns: seq<string>) | On(onExpression: Expression) | Natural

  datatype SampleType = Bernoulli | System

  datatype Relation =
    | Table(tableName: QualifiedName)
    | Join(joinType: JoinType, left: Relation, right: Relation, criteria: Option<JoinCriteria>)
    | AliasedRelation(relation: Relation, alias: Identifier, columnNames: seq<string>)
    | SampledRelation(relation: Relation, sampleType: SampleType, samplePercentageText: string)
    | Unnest(renderedExpressions: seq<string>, withOrdinality: bool)
    | Lateral(query: Query)
    | Values(rows: seq<Expression>)
    | TableSubquery(query: Query)
    | Union(relations: seq<Relation>, distinct: bool)
    | Intersect(relations: seq<Relation>, distinct: bool)
    | Except(left: Relation, right: Relation, distinct: bool)
    | QuerySpecification(select: Select, from: Option<Relation>, where: Option<Expression>,
                         groupBy: Option<GroupBy>, having: Option<Expression>,
                         windows: seq<WindowDefinition>, orderBy: Option<OrderBy>,
                         offset: Option<Offset>, limit: Option<Limit>)

  datatype Select = Select(distinct: bool, selectItems: seq<SelectItem>)

  /** A select item; the aliases of `t.* AS (a, b)` as rendered by the library. */
  datatype SelectItem =
    | SingleColumn(expression: Expression, columnAlias: Option<Identifier>)
    | AllColumns(target: Option<Expression>, renderedAliases: seq<string>)

  datatype WindowDefinition = WindowDefinition(name: Identifier, window: WindowSpecification)

  datatype PrincipalType = Unspecified | User | Role

  /** A principal; its name as the Identifier's toString text. */
  datatype Principal = Principal(principalType: PrincipalType, nameText: string)

  datatype Grantor = CurrentRoleGrantor | CurrentUserGrantor | PrincipalGrantor(principal: Principal)

  datatype Property = Property(propertyName: Identifier, propertyValue: Expression)

  datatype PropertiesOption = Including | Excluding

  /** A column definition; its data type as toString text. */
  datatype ColumnDefinition = ColumnDefinition(columnName: Identifier, typeText: string, nullable: bool,
                                               comment: Option<JavaString>, properties: seq<Property>)

  datatype TableElement =
    | ColumnElement(definition: ColumnDefinition)
    | LikeClause(likeTable: QualifiedName, propertiesOption: Option<PropertiesOption>)

  datatype ExplainOption = ExplainType(explainTypeText: string) | ExplainFormat(explainFormatText: string)

  datatype CommentType = TableComment | ColumnComment

  datatype ShowCreateType = ShowCreateTable | ShowCreateView | ShowCreateMaterializedView

  datatype TransactionMode = Isolation(levelText: string) | TransactionAccessMode(readOnly: bool)

  datatype CallArgument = CallArgument(argumentNameText: Option<string>, argumentValue: Expression)

  datatype UpdateAssignment = UpdateAssignment(target: Identifier, assignedValue: Expression)

  datatype SetRoleKind = SetRoleAll | SetRoleNone | SetRoleTo(roleText: string)

  /**
   * Statements. Names and other parts rendered through toString by the formatter are `...Text`
   * fields; `name`, `table`, `source` and friends are qualified names rendered by formatName.
   */
  datatype Statement =
    | QueryStatement(query: Query)
    | Prepare(prepareNameText: string, statement: Statement)
    | Deallocate(prepareNameText: string)
    | Execute(prepareNameText: string, parameterTexts: seq<string>)
    | DescribeOutput(prepareNameText: string)
    | DescribeInput(prepareNameText: string)
    | CreateView(name: QualifiedName, replace: bool, comment: Option<JavaString>, securityText: Option<string>,
                 query: Query)
    | RenameView(sourceText: string, targetText: string)
    | SetViewAuthorization(source: QualifiedName, principal: Principal)
    | CreateMaterializedView(name: QualifiedName, replace: bool, ifNotExists: bool, comment: Option<JavaString>,
                             properties: seq<Property>, query: Query)
    | RefreshMaterializedView(name: QualifiedName)
    | DropMaterializedView(name: QualifiedName, ifExists: bool)
    | DropView(nameText: string, ifExists: bool)
    | Explain(analyze: bool, options: seq<ExplainOption>, statement: Statement)
    | ShowCatalogs(likePattern: Option<JavaString>, escape: Option<JavaString>)
    | ShowSchemas(catalogText: Option<string>, likePattern: Option<JavaString>, escape: Option<JavaString>)
    | ShowTables(schema: Option<QualifiedName>, likePattern: Option<JavaString>, escape: Option<JavaString>)
    | ShowCreate(showCreateType: ShowCreateType, name: QualifiedName)
    | ShowColumns(table: QualifiedName, likePattern: Option<JavaString>, escape: Option<JavaString>)
    | ShowStats(relation: Relation)
    | ShowFunctions(likePattern: Option<JavaString>, escape: Option<JavaString>)
    | ShowSession(likePattern: Option<JavaString>, escape: Option<JavaString>)
    | Delete(table: QualifiedName, where: Option<Expression>)
    | CreateSchema(name: QualifiedName, ifNotExists: bool, owner: Option<Principal>, properties: seq<Property>)
    | DropSchema(name: QualifiedName, ifExists: bool, cascade: bool)
    | RenameSchema(source: QualifiedName, newName: Identifier)
    | SetSchemaAuthorization(source: QualifiedName, principal: Principal)
    | CreateTableAsSelect(name: QualifiedName, ifNotExists: bool, renderedColumnAliases: Option<seq<string>>,
                          comment: Option<JavaString>, properties: seq<Property>, query: Query, withData: bool)
    | CreateTable(name: QualifiedName, ifNotExists: bool, elements: seq<TableElement>,
                  comment: Option<JavaString>, properties: seq<Property>)
    | DropTable(nameText: string, ifExists: bool)
    | RenameTable(sourceText: string, targetText: string, ifExists: bool)
    | Comment(commentType: CommentType, nameText: string, comment: Option<JavaString>)
    | RenameColumn(tableText: string, sourceText: string, targetText: string, tableExists: bool,
                   columnExists: bool)
    | DropColumn(table: QualifiedName, column: Identifier, tableExists: bool, columnExists: bool)
    | Analyze(table: QualifiedName, properties: seq<Property>)
    | AddColumn(tableText: string, columnDefinition: ColumnDefinition, tableExists: bool,
                columnNotExists: bool)
    | SetTableAuthorization(source: QualifiedName, principal: Principal)
    | Insert(targetText: string, columnTexts: Option<seq<string>>, query: Query)
    | Update(tableText: string, assignments: seq<UpdateAssignment>, where: Option<Expression>)
    | SetSession(nameText: string, sessionValue: Expression)
    | ResetSession(nameText: string)
    | Call(nameText: string, callArguments: seq<CallArgument>)
    | StartTransaction(transactionModes: seq<TransactionMode>)
    | Commit
    | Rollback
    | CreateRole(roleText: string, grantor: Option<Grantor>)
    | DropRole(roleText: string)
    | GrantRoles(roleTexts: seq<string>, grantees: seq<Principal>, adminOption: bool, grantor: Option<Grantor>)
    | RevokeRoles(roleTexts: seq<string>, grantees: seq<Principal>, adminOption: bool, grantor: Option<Grantor>)
    | SetRole(setRoleKind: SetRoleKind)
    | Grant(privileges: Option<seq<string>>, grantOnTypeText: Option<string>, nameText: string,
            grantee: Principal, withGrantOption: bool)
    | Revoke(grantOptionFor: bool, privileges: Option<seq<string>>, grantOnTypeText: Option<string>,
             nameText: string, grantee: Principal)
    | ShowGrants(onTable: bool, tableNameText: Option<string>)
    | ShowRoles(current: bool, catalogText: Option<string>)
    | ShowRoleGrants(catalogText: Option<string>)
    | SetPath(pathTexts: seq<string>)
}
