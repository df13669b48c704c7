# trino-query-formatter, modelled in Dafny

trino-query-formatter takes a SQL statement that the Trino parser has turned into a syntax tree and writes it back as
indented, upper-case SQL text. The request handler around it does three more things. It strips the statement's
trailing semicolons. It gives the formatted text exactly one final newline. When parsing fails, it turns the parser's
error message into a list of suggested tokens; for a statement that does parse, it suggests table names and column
names. The editor plug-in (trino-lsp) sends the document to that handler. It diffs the document against the answer
and turns the diff into LSP text edits.

This project models that core:

- `ast.dfy` (module `Ast`): the syntax tree. Each node kind the formatter has a rule for is a closed datatype:
  `Expression`, `DataType`, `GroupingElement`, `SortItem`, window specification and frame, `Relation`, `Query`,
  `Statement`. Text the formatter takes from code outside this project is carried as a string field.
- `formatting.dfy` (module `Formatting`): the text of expressions (`ExpressionFormatter.java`) and the text of queries
  and relations (`SqlFormatter.java`), as total recursive functions that return
  `Result<string, FormatError>`. They are one mutually recursive group, because subqueries, EXISTS, ARRAY and
  subscripts call `formatSql` again. The exceptions the Java code throws are modelled as failures:
  - `NullIndent`: AND or OR reached with a null indent.
  - `NoSuchElement`: `getOnlyElement` on an empty SELECT list.
  - `UnknownJoinCriteria`: a join that needs criteria but has none.
- `statements.dfy` (module `Statements`): the text of every DDL, DML and administration statement, of the two
  property renderings, and of principals and grantors.
- `sql_formatter.dfy` (module `SqlFormatting`): the visitor as a class `Formatter` whose only field is the `builder`
  text. Its methods only append to it. Each method returns whether the visit completed and is proved to append exactly
  the text given by the functions above. `FormatSql` runs a fresh formatter over an empty builder.
- `expression_visitors.dfy` (module `ExpressionVisitors`): the visit methods of `ExpressionFormatter.java` that fill
  a local builder in a loop (BIND, ARRAY, both CASE forms, `formatGroupBy`). Each is proved equal to the functional
  text.
- `string_literal.dfy` (module `StringLiterals`): `formatStringLiteral` as a loop over code points, with a decoder and
  the round-trip proof.
- `formatting_properties.dfy` and `query_properties.dfy`: lemmas about the layout the two formatters produce.
- `java_strings.dfy` (module `JavaStrings`): the JDK and Guava string operations the handler uses.
- `request_helpers.dfy` (module `RequestHelpers`): the `Main.java` helpers: `stripSemicolon`, the newline handling
  of `formatSql`, the three suggestion paths and the known-table prefix filter.
- `lsp_edits.dfy` (module `LspEdits`): `processResults` as a loop over the diff, with the proof that the edits it
  returns turn the original text into the revised text.
- `text.dfy`, `wrappers.dfy`: joining, repetition and number printing; `Option` and `Result`.

The quirks of the source are kept as written:

- AND and OR always break the line, because `shouldIndent` is never cleared.
- No binary operator is parenthesised.
- An IN list has no parentheses of its own.
- FILTER renders as `FILTER WHERE x`.
- An unknown grouping element renders as the empty string.
- GROUP BY DISTINCT renders as `GROUP BY  DISTINCT `, with two spaces.
- Argument lists are formatted with a null indent, so an AND or OR inside them fails.

## Model

| member | source | states |
|---|---|---|
| ExpressionVisitors.FormatBind | src/main/java/rocks/trino/query/formatter/ExpressionFormatter.java:414-426 | the BIND text is `"$INTERNAL$BIND"(`, every value followed by `, `, the function, `)`; it fails exactly when a value or the function fails |
| ExpressionVisitors.AppendBindArguments | src/main/java/rocks/trino/query/formatter/ExpressionFormatter.java:418-421 | the loop leaves the builder followed by each value's text and `, `, in order; it fails iff some value fails, with that value's error |
| ExpressionVisitors.FormatArrayConstructor | src/main/java/rocks/trino/query/formatter/ExpressionFormatter.java:234-241 | `ARRAY[` + each value formatted at indent 0, joined by `,` + `]` |
| ExpressionVisitors.AddWhenClauses | src/main/java/rocks/trino/query/formatter/ExpressionFormatter.java:564-566 | the parts list grows by one `WHEN … THEN …` text per clause, in order; it fails iff a clause fails |
| ExpressionVisitors.AddCaseEnd | src/main/java/rocks/trino/query/formatter/ExpressionFormatter.java:568-571 | `ELSE` and the default are added when there is a default, then `END` |
| ExpressionVisitors.FormatSearchedCase | src/main/java/rocks/trino/query/formatter/ExpressionFormatter.java:560-574 | `(` + CASE, the WHEN clauses, ELSE part and END joined by single spaces + `)` |
| ExpressionVisitors.FormatSimpleCase | src/main/java/rocks/trino/query/formatter/ExpressionFormatter.java:577-594 | the same as the searched form, with the operand right after CASE |
| ExpressionVisitors.FormatGroupBy | src/main/java/rocks/trino/query/formatter/ExpressionFormatter.java:868-896 | the element texts are collected in a loop and joined by `, `, which is the GROUP BY text |
| FormattingProperties.UndoubleDoubled | src/main/java/rocks/trino/query/formatter/ExpressionFormatter.java:112-115 | undoing the `"` doubling gives back the original identifier value |
| FormattingProperties.QuoteIdentifierRoundTrip | src/main/java/rocks/trino/query/formatter/ExpressionFormatter.java:112-115 | a quoted identifier starts and ends with `"`; stripping these and un-doubling gives back the value |
| FormattingProperties.IdentifierRendering | src/main/java/rocks/trino/query/formatter/ExpressionFormatter.java:321-341 | an undelimited identifier renders verbatim; a delimited one and every symbol reference render quoted, and unquote to the value |
| FormattingProperties.UnaryRendering | src/main/java/rocks/trino/query/formatter/ExpressionFormatter.java:493-506 | unary minus is `-(` + operand + `)`, so it never starts with `-` and a digit; unary plus is `+` + operand; an operand failure is passed on |
| FormattingProperties.CountStar | src/main/java/rocks/trino/query/formatter/ExpressionFormatter.java:362-368 | a call without arguments whose name suffix is `count` in any letter case gets `*`, after DISTINCT when distinct |
| FormattingProperties.CountStarExamples | src/main/java/rocks/trino/query/formatter/ExpressionFormatter.java:362-365 | `count()` renders `count(*)`, and `COUNT()` renders `COUNT(*)` |
| FormattingProperties.FunctionCallSuffixOrder | src/main/java/rocks/trino/query/formatter/ExpressionFormatter.java:358-399 | a rendered call is name `(`, then `DISTINCT ` when distinct, then the arguments joined by `, ` (or `*` for a zero-argument `count` in any case), the inline ORDER BY and `)`, then null treatment, ` FILTER WHERE` filter and ` OVER` window, each only when present; the argument list itself renders |
| FormattingProperties.LogicalBinaryLayout | src/main/java/rocks/trino/query/formatter/ExpressionFormatter.java:732-740 | AND/OR is left + `\n` + indent + operator + ` ` + right; with a null indent it fails |
| FormattingProperties.LogicalBinaryNeedsIndent | src/main/java/rocks/trino/query/formatter/ExpressionFormatter.java:737-740 | AND/OR under a null indent always fails, with the null-indent error once the left side renders |
| FormattingProperties.InlineBinaryLayout | src/main/java/rocks/trino/query/formatter/ExpressionFormatter.java:732-745 | a comparison is left + ` ` + operator + ` ` + right, with no parentheses and no line break |
| FormattingProperties.ArithmeticBinaryLayout | src/main/java/rocks/trino/query/formatter/ExpressionFormatter.java:509-512 | an arithmetic operator is left + ` ` + operator + ` ` + right |
| FormattingProperties.BinaryOperatorsNotParenthesised | src/main/java/rocks/trino/query/formatter/ExpressionFormatter.java:732-745 | `(a + b) * c` and `a + (b * c)` both render `a + b * c` |
| FormattingProperties.InListUnparenthesised | src/main/java/rocks/trino/query/formatter/ExpressionFormatter.java:610-619 | `v IN` + the values joined by `, `, with no parentheses |
| FormattingProperties.InListExample | src/main/java/rocks/trino/query/formatter/ExpressionFormatter.java:610-619 | `x IN (a, b)` renders `x IN a, b` |
| FormattingProperties.ArgumentListRejectsLogical | src/main/java/rocks/trino/query/formatter/ExpressionFormatter.java:747-752 | an AND/OR among the elements of an argument list, an IN list or COALESCE makes the rendering fail |
| FormattingProperties.SortItemLayout | src/main/java/rocks/trino/query/formatter/ExpressionFormatter.java:912-946 | a sort item is its key, then ` ASC`/` DESC`, then ` NULLS FIRST`/` NULLS LAST` or nothing |
| FormattingProperties.SortSuffixInjective | src/main/java/rocks/trino/query/formatter/ExpressionFormatter.java:921-943 | distinct ordering/null-ordering pairs give distinct suffixes |
| FormattingProperties.SortSuffixShape | src/main/java/rocks/trino/query/formatter/ExpressionFormatter.java:921-943 | the suffix's second character names the direction and its length names the null ordering |
| FormattingProperties.FrameBoundWords | src/main/java/rocks/trino/query/formatter/ExpressionFormatter.java:851-866 | the five frame-bound words; the two offset bounds keep their expression in front |
| FormattingProperties.FrameLayout | src/main/java/rocks/trino/query/formatter/ExpressionFormatter.java:831-849 | with an end bound the frame is type ` BETWEEN ` start ` AND ` end; without one it is type ` ` start |
| FormattingProperties.OrderByExamples | src/main/java/rocks/trino/query/formatter/ExpressionFormatter.java:788-798 | `ORDER BY b DESC NULLS LAST` and `ORDER BY b ASC` |
| FormattingProperties.WindowSpecificationAllParts | src/main/java/rocks/trino/query/formatter/ExpressionFormatter.java:809-829 | with all four parts present the window is `(` name, PARTITION BY, ORDER BY, frame `)`, in that order and separated by single spaces |
| FormattingProperties.WindowSpecificationFullExample | src/main/java/rocks/trino/query/formatter/ExpressionFormatter.java:809-849 | `(w PARTITION BY a ORDER BY b DESC NULLS LAST ROWS BETWEEN UNBOUNDED PRECEDING AND CURRENT ROW)` |
| FormattingProperties.RowsFrameExample | src/main/java/rocks/trino/query/formatter/ExpressionFormatter.java:831-849 | `ROWS BETWEEN UNBOUNDED PRECEDING AND CURRENT ROW` |
| FormattingProperties.WindowSpecificationSparseExamples | src/main/java/rocks/trino/query/formatter/ExpressionFormatter.java:809-829 | absent parts leave no trace: `(ORDER BY b ASC)` and `()` |
| FormattingProperties.SimpleGroupByParentheses | src/main/java/rocks/trino/query/formatter/ExpressionFormatter.java:868-910 | a one-column simple GROUP BY is bare; any other count is parenthesised; CUBE and ROLLUP put their keyword before the parenthesised set |
| FormattingProperties.UnrecognisedGroupingElementIsEmpty | src/main/java/rocks/trino/query/formatter/ExpressionFormatter.java:872-895 | a grouping element of no known kind adds an empty text to the `, `-joined list |
| FormattingProperties.PlainGroupingSet | src/main/java/rocks/trino/query/formatter/ExpressionFormatter.java:905-910 | a grouping set is its columns joined by `, ` in parentheses |
| FormattingProperties.GroupingSetsExample | src/main/java/rocks/trino/query/formatter/ExpressionFormatter.java:881-886 | `GROUPING SETS ((a, b), (c))` |
| FormattingProperties.SingleGroupingElement | src/main/java/rocks/trino/query/formatter/ExpressionFormatter.java:868-896 | a GROUP BY of one element is that element's text |
| FormattingProperties.GroupByClauseTopLevel | src/main/java/rocks/trino/query/formatter/SqlFormatter.java:301-303 | the clause is `GROUP BY ` (or `GROUP BY  DISTINCT `) + the elements + `\n` |
| FormattingProperties.GroupByClauseExamples | src/main/java/rocks/trino/query/formatter/SqlFormatter.java:301-303 | `GROUP BY (a, b)`, `GROUP BY a` and `GROUP BY  DISTINCT a` |
| StringLiterals.HexDigits | src/main/java/rocks/trino/query/formatter/ExpressionFormatter.java:775-782 | `%04X`/`%06X`: exactly `width` upper-case hex digits |
| StringLiterals.HexValueOfHexDigits | src/main/java/rocks/trino/query/formatter/ExpressionFormatter.java:775-782 | the digits read back as the number they print |
| StringLiterals.EscapeStep | src/main/java/rocks/trino/query/formatter/ExpressionFormatter.java:766-783 | the text one loop turn appends for a code point is its escape |
| StringLiterals.FormatStringLiteral | src/main/java/rocks/trino/query/formatter/ExpressionFormatter.java:755-786 | the loop returns the plain form when the quote-doubled value is printable ASCII, else `U&'` + the escapes + `'` |
| StringLiterals.DoubleQuotesPrintable | src/main/java/rocks/trino/query/formatter/ExpressionFormatter.java:757-758 | doubling quotes keeps a value printable ASCII exactly when it was |
| StringLiterals.PlainFormIff | src/main/java/rocks/trino/query/formatter/ExpressionFormatter.java:755-762 | the literal starts with `'` iff the value is printable ASCII, otherwise with `U&'` |
| StringLiterals.PlainLiteralLayout | src/main/java/rocks/trino/query/formatter/ExpressionFormatter.java:755-760 | a printable value is `'` + its quote-doubled characters + `'`, and no backslash is doubled |
| StringLiterals.EscapeCodePointShape | src/main/java/rocks/trino/query/formatter/ExpressionFormatter.java:766-783 | printable code points are kept, with `\` doubled; others up to 0xFFFF become `\` + 4 hex digits of their value; the rest become `\+` + 6 |
| StringLiterals.UnicodeLiteralLayout | src/main/java/rocks/trino/query/formatter/ExpressionFormatter.java:762-786 | the escape form is `U&'` + the escapes of the quote-doubled value, in order, + `'` |
| StringLiterals.LiteralIsPrintableAscii | src/main/java/rocks/trino/query/formatter/ExpressionFormatter.java:755-786 | every literal text is printable ASCII |
| StringLiterals.UndoubleDoubleQuotes | src/main/java/rocks/trino/query/formatter/ExpressionFormatter.java:757 | un-doubling `''` inverts the quote doubling |
| StringLiterals.UnescapeEscapeAll | src/main/java/rocks/trino/query/formatter/ExpressionFormatter.java:762-786 | undoing the escapes gives back the code points |
| StringLiterals.DecodeFormatted | src/main/java/rocks/trino/query/formatter/ExpressionFormatter.java:755-786 | round trip: decoding any formatted literal gives back the original value, for every code-point sequence |
| Text.IntText | src/main/java/rocks/trino/query/formatter/ExpressionFormatter.java:250-253 | a long prints as `-` followed by the digits of its magnitude when negative, else those digits alone; the digits spell the value and have no leading zero |
| Text.NatTextValue | src/main/java/rocks/trino/query/formatter/ExpressionFormatter.java:250-253 | the decimal digits printed for a non-negative value read back as that value, and start with `0` only for zero |
| Text.NatTextUnique | src/main/java/rocks/trino/query/formatter/ExpressionFormatter.java:250-253 | any digit string without a leading zero is the printed text of the value it spells, so the printing is the canonical decimal form |
| Text.RepeatLength | src/main/java/rocks/trino/query/formatter/SqlFormatter.java:1594-1597 | `indentString(n)` repeats its unit n times |
| Text.RepeatSpaces | src/main/java/rocks/trino/query/formatter/SqlFormatter.java:1594-1597 | an indent string is all spaces |
| Formatting.IndentEach | src/main/java/rocks/trino/query/formatter/SqlFormatter.java:1047-1050 | each property text is prefixed by the indent string |
| SqlFormatting.Formatter.constructor | src/main/java/rocks/trino/query/formatter/SqlFormatter.java:151-154 | the formatter starts over the given builder |
| SqlFormatting.Formatter.Append | src/main/java/rocks/trino/query/formatter/SqlFormatter.java:1588-1592 | appends the indent string and then the value |
| SqlFormatting.Formatter.ProcessQuery | src/main/java/rocks/trino/query/formatter/SqlFormatter.java:242-279 | appends exactly the query's text, and completes iff that text exists; the old builder stays a prefix |
| SqlFormatting.Formatter.ProcessPaging | src/main/java/rocks/trino/query/formatter/SqlFormatter.java:267-277 | appends ORDER BY, OFFSET and LIMIT, each only when present |
| SqlFormatting.Formatter.ProcessWith | src/main/java/rocks/trino/query/formatter/SqlFormatter.java:244-263 | appends `WITH`, ` RECURSIVE` if recursive, `\n  `, then the named queries |
| SqlFormatting.Formatter.ProcessWithQueries | src/main/java/rocks/trino/query/formatter/SqlFormatter.java:251-262 | the iterator loop appends each named query, then `, ` after all but the last |
| SqlFormatting.Formatter.ProcessWithQuery | src/main/java/rocks/trino/query/formatter/SqlFormatter.java:253-261 | appends name, alias columns, ` AS `, the subquery, `\n` |
| SqlFormatting.Formatter.ProcessTableSubquery | src/main/java/rocks/trino/query/formatter/SqlFormatter.java:557-567 | appends `(\n`, the query one level deeper, then indent + `) ` |
| SqlFormatting.Formatter.ProcessOrderBy | src/main/java/rocks/trino/query/formatter/SqlFormatter.java:349-354 | appends the indented ORDER BY line when present |
| SqlFormatting.Formatter.ProcessOffset | src/main/java/rocks/trino/query/formatter/SqlFormatter.java:357-363 | appends `OFFSET n ROWS` when present |
| SqlFormatting.Formatter.ProcessLimit | src/main/java/rocks/trino/query/formatter/SqlFormatter.java:366-381 | appends the LIMIT line, or the FETCH FIRST line with ROW/ROWS and ONLY/WITH TIES |
| SqlFormatting.Formatter.ProcessQueryBody | src/main/java/rocks/trino/query/formatter/SqlFormatter.java:1575-1586 | a table body is `TABLE name\n`; any other body is processed as a relation |
| SqlFormatting.Formatter.ProcessRelation | src/main/java/rocks/trino/query/formatter/SqlFormatter.java:444-620 | dispatches on the relation's kind and appends exactly its text |
| SqlFormatting.Formatter.ProcessRelationSuffix | src/main/java/rocks/trino/query/formatter/SqlFormatter.java:525-535 | an aliased or sampled relation is wrapped in `( ` … indent + `)` one level deeper; any other is processed in place |
| SqlFormatting.Formatter.ProcessJoin | src/main/java/rocks/trino/query/formatter/SqlFormatter.java:452-497 | appends the join; the criteria are checked after both sides have been appended |
| SqlFormatting.Formatter.ProcessJoinHead | src/main/java/rocks/trino/query/formatter/SqlFormatter.java:459-469 | appends `(` unless implicit, the left side, then the keyword line |
| SqlFormatting.Formatter.ProcessValues | src/main/java/rocks/trino/query/formatter/SqlFormatter.java:538-554 | appends ` VALUES `, the rows, `\n` |
| SqlFormatting.Formatter.ProcessRows | src/main/java/rocks/trino/query/formatter/SqlFormatter.java:542-549 | the `first`-flag loop puts each row on its own line, after `  ` or `, ` |
| SqlFormatting.Formatter.ProcessSetOperation | src/main/java/rocks/trino/query/formatter/SqlFormatter.java:570-620 | appends a UNION or INTERSECT |
| SqlFormatting.Formatter.ProcessOperands | src/main/java/rocks/trino/query/formatter/SqlFormatter.java:572-583 | the iterator loop appends each operand, then the keyword after all but the last |
| SqlFormatting.Formatter.ProcessQuerySpecification | src/main/java/rocks/trino/query/formatter/SqlFormatter.java:282-341 | appends SELECT, FROM when present, an unconditional `\n`, then the later clauses |
| SqlFormatting.Formatter.ProcessClauses | src/main/java/rocks/trino/query/formatter/SqlFormatter.java:293-340 | appends WHERE, GROUP BY, HAVING, WINDOW, ORDER BY, OFFSET, LIMIT, each only when present |
| SqlFormatting.Formatter.ProcessFiltering | src/main/java/rocks/trino/query/formatter/SqlFormatter.java:293-308 | appends WHERE, GROUP BY and HAVING in order |
| SqlFormatting.Formatter.ProcessWhere | src/main/java/rocks/trino/query/formatter/SqlFormatter.java:295-299 | appends `WHERE\n` and the condition one level deeper |
| SqlFormatting.Formatter.ProcessGroupBy | src/main/java/rocks/trino/query/formatter/SqlFormatter.java:301-303 | appends the GROUP BY line |
| SqlFormatting.Formatter.ProcessHaving | src/main/java/rocks/trino/query/formatter/SqlFormatter.java:305-308 | appends the HAVING line |
| SqlFormatting.Formatter.ProcessWindows | src/main/java/rocks/trino/query/formatter/SqlFormatter.java:310-327 | appends one window definition inline, or several one per line |
| SqlFormatting.Formatter.ProcessWindowLines | src/main/java/rocks/trino/query/formatter/SqlFormatter.java:317-326 | the counted loop writes every definition but the last with `,\n`, then the last |
| SqlFormatting.Formatter.ProcessSelect | src/main/java/rocks/trino/query/formatter/SqlFormatter.java:384-410 | appends `SELECT`, ` DISTINCT` if distinct, the items, `\n` |
| SqlFormatting.Formatter.ProcessSelectList | src/main/java/rocks/trino/query/formatter/SqlFormatter.java:390-404 | several items go through the item loop; otherwise the only item follows after a space, and an empty list fails |
| SqlFormatting.Formatter.ProcessSelectItems | src/main/java/rocks/trino/query/formatter/SqlFormatter.java:391-399 | the `first`-flag loop puts each item on its own line, after `  ` or `, ` |
| SqlFormatting.Formatter.ProcessSelectItem | src/main/java/rocks/trino/query/formatter/SqlFormatter.java:413-441 | appends a single column with its alias, or `*`/`target.*` with the alias list |
| SqlFormatting.Formatter.ProcessStatement | src/main/java/rocks/trino/query/formatter/SqlFormatter.java:194-1573 | dispatches on the statement kind and appends exactly its text |
| SqlFormatting.Formatter.ProcessTemplate | src/main/java/rocks/trino/query/formatter/SqlFormatter.java:205-1573 | the fixed-word statements append exactly their template text |
| SqlFormatting.Formatter.ProcessPrepare | src/main/java/rocks/trino/query/formatter/SqlFormatter.java:194-202 | appends the PREPARE header, then the statement one level deeper |
| SqlFormatting.Formatter.ProcessCreateView | src/main/java/rocks/trino/query/formatter/SqlFormatter.java:623-645 | appends the CREATE VIEW header, then the query |
| SqlFormatting.Formatter.ProcessCreateMaterializedView | src/main/java/rocks/trino/query/formatter/SqlFormatter.java:670-692 | appends the header, the multi-line properties and the query |
| SqlFormatting.Formatter.ProcessExplain | src/main/java/rocks/trino/query/formatter/SqlFormatter.java:727-759 | appends EXPLAIN [ANALYZE], the options in parentheses, a line break, then the statement |
| SqlFormatting.Formatter.ProcessShowStats | src/main/java/rocks/trino/query/formatter/SqlFormatter.java:854-860 | appends `SHOW STATS FOR `, then the relation's text at indent 0 |
| SqlFormatting.Formatter.ProcessCreateTableAsSelect | src/main/java/rocks/trino/query/formatter/SqlFormatter.java:964-994 | appends the header, the properties, ` AS `, the query, then ` WITH NO DATA` unless the table is created with data |
| SqlFormatting.Formatter.ProcessInsert | src/main/java/rocks/trino/query/formatter/SqlFormatter.java:1233-1249 | appends `INSERT INTO` with the target and columns, `\n`, then the query |
| SqlFormatting.Formatter.ProcessUpdate | src/main/java/rocks/trino/query/formatter/SqlFormatter.java:1252-1275 | appends `UPDATE t SET`, the assignments and the WHERE line when present |
| SqlFormatting.Formatter.ProcessAssignments | src/main/java/rocks/trino/query/formatter/SqlFormatter.java:1257-1269 | the `setCounter` loop puts one assignment per line, with `,` after all but the last |
| SqlFormatting.Formatter.ProcessCall | src/main/java/rocks/trino/query/formatter/SqlFormatter.java:1310-1327 | appends `CALL name(`, the arguments, `)` |
| SqlFormatting.Formatter.ProcessCallArguments | src/main/java/rocks/trino/query/formatter/SqlFormatter.java:1316-1322 | the iterator loop appends each argument, with `, ` between them |
| SqlFormatting.Formatter.ProcessCallArgument | src/main/java/rocks/trino/query/formatter/SqlFormatter.java:1298-1307 | appends `name => ` when the argument is named, then the value |
| SqlFormatting.Formatter.ProcessStartTransaction | src/main/java/rocks/trino/query/formatter/SqlFormatter.java:1346-1359 | appends `START TRANSACTION` and then the modes |
| SqlFormatting.Formatter.ProcessTransactionModes | src/main/java/rocks/trino/query/formatter/SqlFormatter.java:1350-1357 | the iterator loop writes each mode after a space, with `,` while another follows |
| SqlFormatting.Formatter.ProcessRoot | src/main/java/rocks/trino/query/formatter/SqlFormatter.java:163-168 | an expression root is visited at indent 0: visitRow for a ROW, otherwise the expression's text |
| SqlFormatting.Formatter.ProcessRow | src/main/java/rocks/trino/query/formatter/SqlFormatter.java:1330-1343 | appends `ROW(`, the items, `)` |
| SqlFormatting.Formatter.ProcessRowItems | src/main/java/rocks/trino/query/formatter/SqlFormatter.java:1333-1340 | the `firstItem` loop writes `, ` before every item but the first |
| SqlFormatting.FormatSql | src/main/java/rocks/trino/query/formatter/SqlFormatter.java:132-137 | returns the root's text from an empty builder, and nothing when the visit throws |
| QueryProperties.SelectItemLinesJoin | src/main/java/rocks/trino/query/formatter/SqlFormatter.java:391-400 | several items: the first after `\n` + indent + `  `, every later one after `\n` + indent + `, ` |
| QueryProperties.SelectListLayout | src/main/java/rocks/trino/query/formatter/SqlFormatter.java:384-410 | no item fails with NoSuchElement; one item gives ` item\n`; several go one per line, ending in `\n` |
| QueryProperties.SelectListFailure | src/main/java/rocks/trino/query/formatter/SqlFormatter.java:384-410 | one item that cannot be rendered makes the whole SELECT fail |
| QueryProperties.RowLinesJoin | src/main/java/rocks/trino/query/formatter/SqlFormatter.java:542-550 | VALUES rows are laid out like the items of a multi-item SELECT |
| QueryProperties.ValuesLayout | src/main/java/rocks/trino/query/formatter/SqlFormatter.java:538-554 | ` VALUES `, one row per line, `\n` |
| QueryProperties.ClauseOrder | src/main/java/rocks/trino/query/formatter/SqlFormatter.java:282-341 | a query specification renders iff every clause does, as SELECT, FROM, `\n`, WHERE, GROUP BY, HAVING, WINDOW, ORDER BY, OFFSET, LIMIT |
| QueryProperties.LaterClauses | src/main/java/rocks/trino/query/formatter/SqlFormatter.java:293-340 | the clauses after FROM render iff each does, concatenated in their fixed order |
| QueryProperties.SelectStarLine | src/main/java/rocks/trino/query/formatter/SqlFormatter.java:384-410 | `SELECT *` is indent + `SELECT *\n` |
| QueryProperties.SelectStarFromExample | src/main/java/rocks/trino/query/formatter/SqlFormatter.java:282-293 | `SELECT *` from table e at indent 0 is `SELECT *\nFROM\n  e\n` |
| QueryProperties.SelectStarExample | src/main/java/rocks/trino/query/formatter/SqlFormatter.java:282-293 | `SELECT *` without FROM is `SELECT *\n\n`, because the newline after FROM is unconditional |
| QueryProperties.FormatSelectStarFrom | src/main/java/rocks/trino/query/formatter/SqlFormatter.java:132-137 | formatSql of the query `SELECT * FROM e` is `SELECT *\nFROM\n  e\n` |
| QueryProperties.ImplicitJoinLayout | src/main/java/rocks/trino/query/formatter/SqlFormatter.java:452-497 | an implicit join is left + `\n` + indent + `, ` + right, without parentheses |
| QueryProperties.CrossJoinLayout | src/main/java/rocks/trino/query/formatter/SqlFormatter.java:452-497 | a CROSS join is parenthesised, has [NATURAL ]CROSS JOIN on the right side's line, and writes no criteria |
| QueryProperties.QualifiedJoinLayout | src/main/java/rocks/trino/query/formatter/SqlFormatter.java:452-497 | INNER/LEFT/RIGHT/FULL joins are parenthesised, with [NATURAL ]type JOIN and the criteria text; a missing criteria object fails |
| QueryProperties.SimpleTable | src/main/java/rocks/trino/query/formatter/SqlFormatter.java:444-449 | a table is its name |
| QueryProperties.JoinOnExample | src/main/java/rocks/trino/query/formatter/SqlFormatter.java:452-497 | `(a\nINNER JOIN b ON c)` |
| QueryProperties.NaturalJoinExample | src/main/java/rocks/trino/query/formatter/SqlFormatter.java:452-497 | `(a\nNATURAL INNER JOIN b)` |
| QueryProperties.MissingCriteriaExample | src/main/java/rocks/trino/query/formatter/SqlFormatter.java:484-486 | an outer join without criteria fails with UnknownJoinCriteria |
| QueryProperties.OperandsJoin | src/main/java/rocks/trino/query/formatter/SqlFormatter.java:570-586 | after n operands: the bodies joined by the keyword, plus one more keyword if operands remain |
| QueryProperties.SetOperationLayout | src/main/java/rocks/trino/query/formatter/SqlFormatter.java:570-620 | UNION and INTERSECT put the keyword (ALL unless distinct) only between consecutive bodies; EXCEPT puts it once |
| QueryProperties.TableBody | src/main/java/rocks/trino/query/formatter/SqlFormatter.java:1575-1586 | a table as a query body is `TABLE name\n`; as a relation it is its formatted name |
| QueryProperties.WithQueriesJoin | src/main/java/rocks/trino/query/formatter/SqlFormatter.java:251-262 | after n named queries: their texts joined by `, `, plus one more `, ` if queries remain |
| QueryProperties.QueryLayout | src/main/java/rocks/trino/query/formatter/SqlFormatter.java:242-279 | the WITH clause, then the body, then ORDER BY, OFFSET, LIMIT |
| QueryProperties.PropertyTextsPointwise | src/main/java/rocks/trino/query/formatter/SqlFormatter.java:1041-1068 | every property renders as name ` = ` value |
| QueryProperties.PropertiesRenderingsAgree | src/main/java/rocks/trino/query/formatter/SqlFormatter.java:1041-1068 | both renderings are empty for no properties and fail together; multi-line is `\nWITH (\n` + `  k = v` lines joined by `,\n` + `\n)`, single-line is ` WITH ( k = v, … )` |
| QueryProperties.PrincipalLayout | src/main/java/rocks/trino/query/formatter/SqlFormatter.java:1084-1108 | an unspecified principal is its bare name, otherwise `USER name`/`ROLE name`; a grantor is CURRENT_USER, CURRENT_ROLE or its principal |
| QueryProperties.PrincipalTextInjective | src/main/java/rocks/trino/query/formatter/SqlFormatter.java:1097-1108 | a principal of a stated kind can be read back from its text |
| QueryProperties.GrantorTextInjective | src/main/java/rocks/trino/query/formatter/SqlFormatter.java:1084-1108 | grantors whose principals have a stated kind can be told apart by their text |
| QueryProperties.GrantorTextHead | src/main/java/rocks/trino/query/formatter/SqlFormatter.java:1084-1095 | a grantor's text starts with `C` iff it is one of the two special grantors |
| JavaStrings.TrimTrailing | src/main/java/rocks/trino/query/formatter/Main.java:118-123 | trimTrailingFrom keeps a prefix that does not end in a matching character, and drops only matching characters |
| JavaStrings.TrimTrailingUnique | src/main/java/rocks/trino/query/formatter/Main.java:118-123 | those properties determine the trimmed text |
| JavaStrings.TrimTrailingIdempotent | src/main/java/rocks/trino/query/formatter/Main.java:118-123 | trimming twice trims nothing more |
| JavaStrings.TrimLeading | src/main/java/rocks/trino/query/formatter/Main.java:172 | trimLeadingFrom keeps a suffix that does not start with a matching character, and drops only matching characters |
| JavaStrings.TrimQuotesInfix | src/main/java/rocks/trino/query/formatter/Main.java:171-175 | trimming quotes keeps a contiguous middle part and removes only `'` from either end |
| JavaStrings.TrimQuotesEnds | src/main/java/rocks/trino/query/formatter/Main.java:171-175 | the kept part neither starts nor ends with `'` |
| JavaStrings.ToUpperCase | src/main/java/rocks/trino/query/formatter/Main.java:201 | upper-cases the ASCII letters, character for character |
| JavaStrings.IndexOf | src/main/java/rocks/trino/query/formatter/Main.java:155 | the first occurrence at or after `from`, or none |
| JavaStrings.LastIndexOf | src/main/java/rocks/trino/query/formatter/Main.java:146 | the last occurrence, which the greedy `.*` of the message pattern selects, or none |
| JavaStrings.RemoveAllLeading | src/main/java/rocks/trino/query/formatter/Main.java:181-182 | String.replace removes an occurrence at the start first |
| JavaStrings.RemoveAllAbsent | src/main/java/rocks/trino/query/formatter/Main.java:181-182 | String.replace leaves a text without the pattern unchanged |
| JavaStrings.SplitPiecesJoin | src/main/java/rocks/trino/query/formatter/Main.java:155-156 | the pieces between separators, joined back, give the text |
| JavaStrings.SplitPiecesFree | src/main/java/rocks/trino/query/formatter/Main.java:155-156 | no piece contains the separator |
| JavaStrings.SplitSpec | src/main/java/rocks/trino/query/formatter/Main.java:155-156 | String.split drops only trailing empty pieces, and a text without the separator is one piece |
| JavaStrings.CompareToAntisymmetric | src/main/java/rocks/trino/query/formatter/Main.java:166 | compareTo is antisymmetric |
| JavaStrings.CompareToZero | src/main/java/rocks/trino/query/formatter/Main.java:166 | compareTo is zero exactly for equal texts |
| JavaStrings.CompareToTransitive | src/main/java/rocks/trino/query/formatter/Main.java:166 | compareTo's "at most" is transitive |
| RequestHelpers.StripSemicolonSpec | src/main/java/rocks/trino/query/formatter/Main.java:118-123 | stripSemicolon keeps a prefix; it removes only white space and `;`; what remains does not end in either; it is idempotent |
| RequestHelpers.StripSemicolonRun | src/main/java/rocks/trino/query/formatter/Main.java:118-123 | any run of `;` and white space after a statement is removed whole |
| RequestHelpers.FinishOutputOneNewline | src/main/java/rocks/trino/query/formatter/Main.java:132-133 | the output ends in `\n` but never `\n\n`; before that newline it is the formatted text minus trailing `\n`s; finishing again changes nothing |
| RequestHelpers.FormattedStatementSpec | src/main/java/rocks/trino/query/formatter/Main.java:125-135 | the handler's formatSql fails exactly when the formatter does, and its text ends in a single newline |
| RequestHelpers.TokenOrderTotal | src/main/java/rocks/trino/query/formatter/Main.java:159-167 | the token comparator orders every pair, and only equal tokens compare equal |
| RequestHelpers.TokenOrderTransitive | src/main/java/rocks/trino/query/formatter/Main.java:159-167 | the token comparator is transitive |
| RequestHelpers.InsertSorted | src/main/java/rocks/trino/query/formatter/Main.java:158-167 | inserting into a sorted token list keeps it sorted |
| RequestHelpers.SortTokens | src/main/java/rocks/trino/query/formatter/Main.java:158-167 | the sorted stream is a sorted permutation of the tokens |
| RequestHelpers.SortedUnique | src/main/java/rocks/trino/query/formatter/Main.java:158-167 | a sorted permutation is unique, so any sorting algorithm gives this list |
| RequestHelpers.SortTokensGroups | src/main/java/rocks/trino/query/formatter/Main.java:159-167 | every `<…>` token comes before every other token, and each group is in compareTo order |
| RequestHelpers.ExpandAppend | src/main/java/rocks/trino/query/formatter/Main.java:168-170 | the flatMap replaces tokens in place: it distributes over concatenation |
| RequestHelpers.ExpandMembers | src/main/java/rocks/trino/query/formatter/Main.java:168-170 | the expanded list holds the other tokens, plus the replacement iff the target occurs |
| RequestHelpers.ExpandAbsent | src/main/java/rocks/trino/query/formatter/Main.java:168-170 | without the target the list is unchanged |
| RequestHelpers.ExpandIdentity | src/main/java/rocks/trino/query/formatter/Main.java:200-203 | replacing a token by itself changes nothing |
| RequestHelpers.TrimAllUnquoted | src/main/java/rocks/trino/query/formatter/Main.java:171-175 | tokens without quotes at their ends pass the trim unchanged |
| RequestHelpers.MismatchedOffersEveryToken | src/main/java/rocks/trino/query/formatter/Main.java:153-177 | every expected token is offered without its quotes, and `<query>` as SELECT and WITH |
| RequestHelpers.MismatchedOffersNothingElse | src/main/java/rocks/trino/query/formatter/Main.java:153-177 | nothing else is offered, and no suggestion starts or ends with `'` |
| RequestHelpers.ExpandedTokenOrigin | src/main/java/rocks/trino/query/formatter/Main.java:168-170 | an expanded token is SELECT, WITH or an expected token other than `<query>` |
| RequestHelpers.EofIdentifierRule | src/main/java/rocks/trino/query/formatter/Main.java:200-203 | after FROM or JOIN, `<identifier>` becomes the five known tables and is not offered itself; elsewhere the tokens are only sorted and trimmed |
| RequestHelpers.OtherMessagesSuggestNothing | src/main/java/rocks/trino/query/formatter/Main.java:138-151 | a message of neither shape gives no suggestions |
| RequestHelpers.MismatchedMessage | src/main/java/rocks/trino/query/formatter/Main.java:144-156 | a mismatched-input message yields the suggestions of its expected part split at `, ` |
| RequestHelpers.LastMarkAt | src/main/java/rocks/trino/query/formatter/Main.java:155 | the greedy `'.*'\. Expecting: ` ends at the last mark, which is the one after the offending input |
| RequestHelpers.EofExpectingSingle | src/main/java/rocks/trino/query/formatter/Main.java:181-183 | the EOF message naming one token yields exactly that token |
| RequestHelpers.EofDispatch | src/main/java/rocks/trino/query/formatter/Main.java:144-145 | a message with the EOF prefix takes the EOF path |
| RequestHelpers.EofIdentifierMessage | src/main/java/rocks/trino/query/formatter/Main.java:179-205 | the EOF message expecting only `<identifier>` after FROM or JOIN suggests the known tables |
| RequestHelpers.SelectFromIsAfterFrom | src/main/java/rocks/trino/query/formatter/Main.java:201 | `select * from` ends in FROM once trimmed and upper-cased |
| RequestHelpers.FromJoinTableMatches | src/main/java/rocks/trino/query/formatter/Main.java:95-97 | every text of the shape `.*\s(FROM\|JOIN)\s+\w+` matches, with the final word as the table |
| RequestHelpers.FromJoinTableIff | src/main/java/rocks/trino/query/formatter/Main.java:95-97 | the pattern yields a table exactly when the text has that shape around it |
| RequestHelpers.ColumnTableMatches | src/main/java/rocks/trino/query/formatter/Main.java:104-106 | every text of the shape `.*\s+\w+\.\w+` matches, with the word before the dot as the table |
| RequestHelpers.PrefixFilter | src/main/java/rocks/trino/query/formatter/Main.java:99-101 | keeps exactly the names that start with the prefix |
| RequestHelpers.FromJoinSuggestions | src/main/java/rocks/trino/query/formatter/Main.java:95-101 | after FROM/JOIN and a partial word, the suggestions are exactly the known tables and aliases that start with it |
| RequestHelpers.KnownTablesStartingWithE | src/main/java/rocks/trino/query/formatter/Main.java:33-38 | of the known tables only `events` starts with `e` |
| RequestHelpers.SelectFromETable | src/main/java/rocks/trino/query/formatter/Main.java:95-97 | the table of `select * from e` is `e` |
| RequestHelpers.SelectFromE | src/main/java/rocks/trino/query/formatter/Main.java:95-101 | `select * from e` suggests just `events` |
| RequestHelpers.DotWordIsNotFromJoin | src/main/java/rocks/trino/query/formatter/Main.java:95-104 | a text ending in a dot and a word does not match the FROM/JOIN pattern |
| RequestHelpers.EventsColumnTable | src/main/java/rocks/trino/query/formatter/Main.java:95-106 | a line ending in ` events.` and a word matches only the column pattern, with table `events` |
| RequestHelpers.EventsColumnSuggestions | src/main/java/rocks/trino/query/formatter/Main.java:104-112 | `select * from events where events.t` suggests the three columns of events |
| LspEdits.ProcessResults | trino-lsp/server/src/server.ts:291-327 | the loop returns the edit list that the diff describes |
| LspEdits.PositionIsOriginalLength | trino-lsp/server/src/server.ts:298-324 | the final position is the total length of the equal and deleted text |
| LspEdits.EditCount | trino-lsp/server/src/server.ts:299-324 | one edit per inserted or deleted entry, none for equal text |
| LspEdits.EditsOrdered | trino-lsp/server/src/server.ts:298-324 | the edits lie inside the original text, do not overlap, and their start offsets never decrease |
| LspEdits.EqualStep | trino-lsp/server/src/server.ts:320-322 | if ordered edits turn the original `o` into `rev`, the same edits stay ordered over `o + t` and turn it into `rev + t`: equal text passes through untouched |
| LspEdits.DeleteStep | trino-lsp/server/src/server.ts:304-312 | given edits that turn `o` into `rev` in order, appending the edit that spans from the end of `o` over the length of `t`, with empty text, turns `o + t` into `rev` and keeps the edits ordered |
| LspEdits.InsertStep | trino-lsp/server/src/server.ts:314-319 | given edits that turn `o` into `rev` in order, appending the empty-range edit at the end of `o` carrying `t` turns `o` into `rev + t` and keeps the edits ordered |
| LspEdits.EntryEdit | trino-lsp/server/src/server.ts:304-322 | per diff entry: equal text pushes no edit and moves the position by its length; deleted text pushes `[p, p+len)` with empty text and moves the position; inserted text pushes an empty range at `p` carrying the text and leaves the position; `p` is the length of the original read so far |
| LspEdits.EditsProduceRevised | trino-lsp/server/src/server.ts:291-327 | applying the edits to the diff's original text gives its revised text |
| LspEdits.FormattingEditsFormat | trino-lsp/server/src/server.ts:291-327 | for a diff of the document against the formatted text, the edits turn the document into the formatted text |

## Left out

- Double literals are rendered through `DecimalFormat` in a thread-local (floating point and library formatting). The
  model carries the rendered text as a field.
- Rendering done outside the repository is carried as text in the syntax tree: the Trino library's expression formatter
  behind `SqlFormatter`'s `ExpressionFormatter::formatExpression` method references and `formatName`'s per-part
  rendering, node `toString()` calls, `Joiner` over identifier lists, the lambda arguments and
  `BinaryLiteral.toHexString`.
- The external SQL parser, and the check in `formatSql` that re-parses the output and compares trees: the parser is
  not part of this model. The only round trip that is proved is the one for string literals.
- The HTTP endpoint, Gson, `Main.parse` plumbing, the parse-error object and `autoCompleteSuggestions` (the ANTLR
  completion engine): I/O and foreign code.
- `TableVisitor.java` relies on the library visitor's default traversal, which is not part of this model. The table
  names it collects are a parameter (`aliases`) of `RequestHelpers.StatementSuggestions`.
- The LSP connection, its handlers, the settings cache, `fetch` and the diff computation of diff-match-patch. The diff is
  an input to `LspEdits.ProcessResults`.
- `TextDocument.positionAt`: offsets are kept as UTF-16 offsets into the document, not line/column positions.
- LspEdits.EditsProduceRevised: assumes that the diff describes the two texts, meaning the equal and deleted parts spell
  the original and the equal and inserted parts spell the revised text. That is diff-match-patch's contract, and it is
  not proved here.
- JavaStrings.ToUpperCase: upper-cases ASCII letters only. Locale-dependent case mapping beyond ASCII is not modelled
  (it only affects the FROM/JOIN test).
- JavaStrings.CompareTo: compares code points, not UTF-16 units. The two agree except between a supplementary character
  and a unit at or above 0xE000.
- The two regular expressions of `suggestionsFromStatement` and the message pattern of
  `suggestionsFromParsingException` are modelled as direct checks of the shapes they match, not as a regex engine.
  White space is `\s` as Java defines it, and `\w` is `[a-zA-Z0-9_]`.
- `ExpressionFormatter.visitAllColumns` is left out: in the model an all-columns item is a SELECT item, so it never
  reaches the expression formatter.
- `checkArgument(indent == 0)` in `visitExpression` and `checkArgument(codePoint >= 0)` in `formatStringLiteral` cannot
  fail in the model: expressions are visited only at the root at indent 0, and code points are non-negative by type.
