/** The part of the SQL syntax tree that INSERT, SELECT and their prepared forms use. */
module Ast {
  import opened Basics

  datatype ColumnRef = ColumnRef(table: Option<Text>, column: Text)

  datatype Expr =
    | Integer(n: i64)
    | DecimalLiteral(unscaled: i64, scale: u8)
    | String(text: Text)
    | NullLiteral
    | SystemVariable(variable: Text)
    | Column(col: ColumnRef)
    | Function(name: Text, args: seq<Expr>)
    | Placeholder(index: nat)

  datatype CompareOp = Eq | NotEq | Lt | Gt | Le | Ge

  datatype Condition = Condition(column: ColumnRef, op: CompareOp, value: Expr)

  datatype SelectItem = Wildcard | Item(expr: Expr, alias: Option<Text>)

  datatype TableRef = TableRef(name: Text, alias: Option<Text>) {
    /** The alias if one was given, else the table's own name. */
    function Qualifier(): Text {
      if alias.Some? then alias.value else name
    }
  }

  datatype JoinType = Inner | Left

  datatype JoinClause = JoinClause(joinType: JoinType, table: TableRef, left: ColumnRef, right: ColumnRef)

  datatype FromClause = FromClause(table: TableRef, joins: seq<JoinClause>)

  datatype OrderByItem = OrderByItem(column: ColumnRef, descending: bool)

  datatype Statement =
    | Insert(table: Text, columns: Option<seq<Text>>, rows: seq<seq<Expr>>)
    | Select(
        projection: seq<SelectItem>,
        from: Option<FromClause>,
        selection: Option<Condition>,
        groupBy: seq<ColumnRef>,
        orderBy: seq<OrderByItem>,
        limit: Option<u64>,
        offset: Option<u64>)
}
