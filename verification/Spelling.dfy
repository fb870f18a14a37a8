/** INSERT and SELECT as they are written: every spelling the syntax allows, the tokens it
    consists of, and the statement it stands for. */
module Spelling {
  import opened Basics
  import opened Ast
  import opened Grammar

  // ---- expressions ----

  datatype ExprForm =
    | IntForm(n: i64)
    | DecimalForm(unscaled: i64, scale: u8)
    | TextForm(text: Text)
    | NullForm
    | VariableForm(variable: Text)
    | TrueForm(word: Text)
    | FalseForm(word: Text)
    | ColumnForm(col: ColumnRef)
    | CallForm(name: Text, args: seq<ExprForm>)
    | CountStarForm(word: Text)
    | HoleForm

  /** Pieces with commas between them. */
  function Commas(pieces: seq<seq<Token>>): seq<Token> {
    if pieces == [] then []
    else if |pieces| == 1 then pieces[0]
    else pieces[0] + ([Comma] + Commas(pieces[1..]))
  }

  /** `col` or `t.col`. */
  function ColumnTokens(col: ColumnRef): seq<Token> {
    match col.table
    case None => [Ident(col.column)]
    case Some(t) => [Ident(t), Dot, Ident(col.column)]
  }

  function ExprTokens(e: ExprForm): seq<Token>
    decreases e
  {
    match e
    case IntForm(n) => [IntegerToken(n)]
    case DecimalForm(u, s) => [DecimalToken(u, s)]
    case TextForm(s) => [Str(s)]
    case NullForm => [Keyword(KNull)]
    case VariableForm(v) => [SystemVariableToken(v)]
    case TrueForm(word) => [Ident(word)]
    case FalseForm(word) => [Ident(word)]
    case ColumnForm(col) => ColumnTokens(col)
    case CallForm(name, args) => [Ident(name), LParen] + (Commas(ExprPieces(args)) + [RParen])
    case CountStarForm(word) => [Ident(word), LParen, Star, RParen]
    case HoleForm => [Hole]
  }

  function ExprPieces(es: seq<ExprForm>): (r: seq<seq<Token>>)
    ensures |r| == |es| && forall i :: 0 <= i < |es| ==> r[i] == ExprTokens(es[i])
    decreases es
  {
    seq(|es|, i requires 0 <= i < |es| => ExprTokens(es[i]))
  }

  /** How many `?` it holds. */
  function ExprHoles(e: ExprForm): nat
    decreases e
  {
    match e
    case HoleForm => 1
    case CallForm(_, args) => HolesIn(args)
    case _ => 0
  }

  function HolesIn(es: seq<ExprForm>): nat
    decreases es
  {
    if es == [] then 0 else ExprHoles(es[0]) + HolesIn(es[1..])
  }

  /** What it stands for; `?` are numbered on from `count`. */
  function ExprMeaning(e: ExprForm, count: nat): Expr
    decreases e
  {
    match e
    case IntForm(n) => Integer(n)
    case DecimalForm(u, s) => DecimalLiteral(u, s)
    case TextForm(s) => String(s)
    case NullForm => NullLiteral
    case VariableForm(v) => SystemVariable(v)
    case TrueForm(_) => Integer(1)
    case FalseForm(_) => Integer(0)
    case ColumnForm(col) => Column(col)
    case CallForm(name, args) => Function(name, ExprMeanings(args, count))
    case CountStarForm(word) => Function(word, [])
    case HoleForm => Placeholder(count)
  }

  function ExprMeanings(es: seq<ExprForm>, count: nat): (r: seq<Expr>)
    ensures |r| == |es|
    decreases es
  {
    if es == [] then [] else [ExprMeaning(es[0], count)] + ExprMeanings(es[1..], count + ExprHoles(es[0]))
  }

  /** A name that is not one of the two literals. */
  predicate PlainName(name: Text) {
    !SameWord(name, TRUE_WORD) && !SameWord(name, FALSE_WORD)
  }

  /** The first name of a column reference. */
  function FirstName(col: ColumnRef): Text {
    if col.table.Some? then col.table.value else col.column
  }

  predicate ExprOk(e: ExprForm, holes: bool)
    decreases e
  {
    match e
    case TrueForm(word) => SameWord(word, TRUE_WORD)
    case FalseForm(word) => SameWord(word, FALSE_WORD)
    case ColumnForm(col) => PlainName(FirstName(col))
    case CallForm(name, args) => PlainName(name) && ExprsOk(args, holes)
    case CountStarForm(word) => SameWord(word, COUNT_WORD)
    case HoleForm => holes
    case _ => true
  }

  predicate ExprsOk(es: seq<ExprForm>, holes: bool)
    decreases es
  {
    forall i :: 0 <= i < |es| ==> ExprOk(es[i], holes)
  }

  // ---- tables and joins ----

  datatype AliasForm = NoAlias | AsAlias(name: Text) | BareAlias(name: Text)

  function AliasTokens(a: AliasForm): seq<Token> {
    match a
    case NoAlias => []
    case AsAlias(name) => [Keyword(KAs), Ident(name)]
    case BareAlias(name) => [Ident(name)]
  }

  function AliasMeaning(a: AliasForm): Option<Text> {
    if a.NoAlias? then None else Some(a.name)
  }

  /** `name`, `schema.name`, ... */
  function NameTokens(schemas: seq<Text>, name: Text): seq<Token> {
    if schemas == [] then [Ident(name)] else [Ident(schemas[0]), Dot] + NameTokens(schemas[1..], name)
  }

  datatype TableForm = TableForm(schemas: seq<Text>, name: Text, alias: AliasForm)

  function TableTokens(t: TableForm): seq<Token> {
    NameTokens(t.schemas, t.name) + AliasTokens(t.alias)
  }

  function TableMeaning(t: TableForm): TableRef {
    TableRef(t.name, AliasMeaning(t.alias))
  }

  datatype JoinWordsForm = PlainJoin | InnerJoin | LeftJoin | LeftOuterJoin

  function JoinWordTokens(w: JoinWordsForm): seq<Token> {
    match w
    case PlainJoin => [Keyword(KJoin)]
    case InnerJoin => [Keyword(KInner), Keyword(KJoin)]
    case LeftJoin => [Keyword(KLeft), Keyword(KJoin)]
    case LeftOuterJoin => [Keyword(KLeft), Keyword(KOuter), Keyword(KJoin)]
  }

  function JoinKind(w: JoinWordsForm): JoinType {
    if w.PlainJoin? || w.InnerJoin? then Inner else Left
  }

  datatype JoinForm = JoinForm(words: JoinWordsForm, table: TableForm, left: ColumnRef, right: ColumnRef)

  /** `JOIN t ON a = b` */
  function JoinTokens(j: JoinForm): seq<Token> {
    JoinWordTokens(j.words) + (TableTokens(j.table) + ([Keyword(KOn)] + (ColumnTokens(j.left) + ([EqSign] + ColumnTokens(j.right)))))
  }

  function JoinMeaning(j: JoinForm): JoinClause {
    JoinClause(JoinKind(j.words), TableMeaning(j.table), j.left, j.right)
  }

  function JoinsTokens(js: seq<JoinForm>): seq<Token> {
    if js == [] then [] else JoinTokens(js[0]) + JoinsTokens(js[1..])
  }

  function JoinMeanings(js: seq<JoinForm>): (r: seq<JoinClause>)
    ensures |r| == |js| && forall i :: 0 <= i < |js| ==> r[i] == JoinMeaning(js[i])
  {
    seq(|js|, i requires 0 <= i < |js| => JoinMeaning(js[i]))
  }

  // ---- WHERE ----

  datatype ConditionForm = ConditionForm(column: ColumnRef, op: CompareOp, value: ExprForm)

  function OpToken(op: CompareOp): Token {
    match op
    case Eq => EqSign
    case NotEq => NotEqSign
    case Lt => LtSign
    case Gt => GtSign
    case Le => LeSign
    case Ge => GeSign
  }

  function ConditionTokens(c: ConditionForm): seq<Token> {
    ColumnTokens(c.column) + ([OpToken(c.op)] + ExprTokens(c.value))
  }

  function ConditionMeaning(c: ConditionForm, count: nat): Condition {
    Condition(c.column, c.op, ExprMeaning(c.value, count))
  }

  function WhereTokens(w: Option<ConditionForm>): seq<Token> {
    match w
    case None => []
    case Some(c) => [Keyword(KWhere)] + ConditionTokens(c)
  }

  datatype SourceForm = NoFrom | FromForm(table: TableForm, joins: seq<JoinForm>, selection: Option<ConditionForm>)

  function SourceTokens(s: SourceForm): seq<Token> {
    match s
    case NoFrom => []
    case FromForm(t, joins, w) => [Keyword(KFrom)] + ((TableTokens(t) + JoinsTokens(joins)) + WhereTokens(w))
  }

  function SourceMeaning(s: SourceForm, count: nat): Source {
    match s
    case NoFrom => Source(None, None)
    case FromForm(t, joins, w) =>
      Source(Some(FromClause(TableMeaning(t), JoinMeanings(joins))),
             match w case Some(c) => Some(ConditionMeaning(c, count)) case None => None)
  }

  function SourceHoles(s: SourceForm): nat {
    if s.FromForm? && s.selection.Some? then ExprHoles(s.selection.value.value) else 0
  }

  predicate SourceOk(s: SourceForm, holes: bool) {
    s.FromForm? && s.selection.Some? ==> ExprOk(s.selection.value.value, holes)
  }

  // ---- GROUP BY, ORDER BY, LIMIT ----

  function ColumnPieces(cols: seq<ColumnRef>): (r: seq<seq<Token>>)
    ensures |r| == |cols| && forall i :: 0 <= i < |cols| ==> r[i] == ColumnTokens(cols[i])
  {
    seq(|cols|, i requires 0 <= i < |cols| => ColumnTokens(cols[i]))
  }

  function GroupTokens(cols: seq<ColumnRef>): seq<Token> {
    if cols == [] then [] else [Keyword(KGroup), Keyword(KBy)] + Commas(ColumnPieces(cols))
  }

  datatype DirectionForm = NoDirection | Ascending(word: Text) | Descending(word: Text)

  datatype OrderForm = OrderForm(column: ColumnRef, direction: DirectionForm)

  function OrderTokens(o: OrderForm): seq<Token> {
    ColumnTokens(o.column) + match o.direction
      case NoDirection => []
      case Ascending(word) => [Ident(word)]
      case Descending(word) => [Ident(word)]
  }

  function OrderMeaning(o: OrderForm): OrderByItem {
    OrderByItem(o.column, o.direction.Descending?)
  }

  predicate OrderOk(o: OrderForm) {
    match o.direction
    case NoDirection => true
    case Ascending(word) => SameWord(word, ASC_WORD)
    case Descending(word) => SameWord(word, DESC_WORD)
  }

  function OrderPieces(os: seq<OrderForm>): (r: seq<seq<Token>>)
    ensures |r| == |os| && forall i :: 0 <= i < |os| ==> r[i] == OrderTokens(os[i])
  {
    seq(|os|, i requires 0 <= i < |os| => OrderTokens(os[i]))
  }

  function OrderMeanings(os: seq<OrderForm>): (r: seq<OrderByItem>)
    ensures |r| == |os| && forall i :: 0 <= i < |os| ==> r[i] == OrderMeaning(os[i])
  {
    seq(|os|, i requires 0 <= i < |os| => OrderMeaning(os[i]))
  }

  function OrderByTokens(os: seq<OrderForm>): seq<Token> {
    if os == [] then [] else [Keyword(KOrder), Keyword(KBy)] + Commas(OrderPieces(os))
  }

  /** A number LIMIT can be given. */
  type Count = n: i64 | n >= 0

  datatype LimitForm =
    | NoLimit
    | LimitOnly(limit: Count)
    | LimitOffset(limit: Count, word: Text, offset: Count)   // LIMIT n OFFSET m
    | OffsetLimit(offset: Count, limit: Count)               // LIMIT m, n

  function LimitTokens(l: LimitForm): seq<Token> {
    match l
    case NoLimit => []
    case LimitOnly(n) => [Keyword(KLimit), IntegerToken(n)]
    case LimitOffset(n, word, m) => [Keyword(KLimit), IntegerToken(n), Ident(word), IntegerToken(m)]
    case OffsetLimit(m, n) => [Keyword(KLimit), IntegerToken(m), Comma, IntegerToken(n)]
  }

  function LimitMeaning(l: LimitForm): (Option<u64>, Option<u64>) {
    match l
    case NoLimit => (None, None)
    case LimitOnly(n) => (Some(n), None)
    case LimitOffset(n, _, m) => (Some(n), Some(m))
    case OffsetLimit(m, n) => (Some(n), Some(m))
  }

  predicate LimitOk(l: LimitForm) {
    l.LimitOffset? ==> SameWord(l.word, OFFSET_WORD)
  }

  // ---- statements ----

  datatype ItemForm = StarForm | ExprItem(expr: ExprForm, alias: AliasForm)

  function ItemTokens(i: ItemForm): seq<Token> {
    match i
    case StarForm => [Star]
    case ExprItem(e, alias) => ExprTokens(e) + AliasTokens(alias)
  }

  function ItemHoles(i: ItemForm): nat {
    if i.ExprItem? then ExprHoles(i.expr) else 0
  }

  function ItemMeaning(i: ItemForm, count: nat): SelectItem {
    match i
    case StarForm => Wildcard
    case ExprItem(e, alias) => Item(ExprMeaning(e, count), AliasMeaning(alias))
  }

  predicate ItemOk(i: ItemForm, holes: bool) {
    i.ExprItem? ==> ExprOk(i.expr, holes)
  }

  function ItemPieces(items: seq<ItemForm>): (r: seq<seq<Token>>)
    ensures |r| == |items| && forall i :: 0 <= i < |items| ==> r[i] == ItemTokens(items[i])
  {
    seq(|items|, i requires 0 <= i < |items| => ItemTokens(items[i]))
  }

  function ItemsHoles(items: seq<ItemForm>): nat {
    if items == [] then 0 else ItemHoles(items[0]) + ItemsHoles(items[1..])
  }

  function ItemMeanings(items: seq<ItemForm>, count: nat): seq<SelectItem> {
    if items == [] then [] else [ItemMeaning(items[0], count)] + ItemMeanings(items[1..], count + ItemHoles(items[0]))
  }

  function IdentPieces(names: seq<Text>): (r: seq<seq<Token>>)
    ensures |r| == |names| && forall i :: 0 <= i < |names| ==> r[i] == [Ident(names[i])]
  {
    seq(|names|, i requires 0 <= i < |names| => [Ident(names[i])])
  }

  function ColumnListTokens(columns: Option<seq<Text>>): seq<Token> {
    match columns
    case None => []
    case Some(names) => [LParen] + (Commas(IdentPieces(names)) + [RParen])
  }

  function RowTokens(row: seq<ExprForm>): seq<Token> {
    [LParen] + (Commas(ExprPieces(row)) + [RParen])
  }

  function RowPieces(rows: seq<seq<ExprForm>>): (r: seq<seq<Token>>)
    ensures |r| == |rows| && forall i :: 0 <= i < |rows| ==> r[i] == RowTokens(rows[i])
  {
    seq(|rows|, i requires 0 <= i < |rows| => RowTokens(rows[i]))
  }

  function RowsHoles(rows: seq<seq<ExprForm>>): nat {
    if rows == [] then 0 else HolesIn(rows[0]) + RowsHoles(rows[1..])
  }

  function RowMeanings(rows: seq<seq<ExprForm>>, count: nat): seq<seq<Expr>> {
    if rows == [] then [] else [ExprMeanings(rows[0], count)] + RowMeanings(rows[1..], count + HolesIn(rows[0]))
  }

  datatype StatementForm =
    | InsertForm(schemas: seq<Text>, name: Text, columns: Option<seq<Text>>, rows: seq<seq<ExprForm>>, semicolon: bool)
    | SelectForm(items: seq<ItemForm>, source: SourceForm, groupBy: seq<ColumnRef>, orderBy: seq<OrderForm>,
                 limit: LimitForm, semicolon: bool)

  function EndTokens(semicolon: bool): seq<Token> {
    if semicolon then [Semicolon] else []
  }

  /** GROUP BY, ORDER BY, LIMIT and the end. */
  function TailTokens(groupBy: seq<ColumnRef>, orderBy: seq<OrderForm>, limit: LimitForm, semicolon: bool): seq<Token> {
    GroupTokens(groupBy) + (OrderByTokens(orderBy) + (LimitTokens(limit) + EndTokens(semicolon)))
  }

  /** The tokens of a statement. */
  function Tokens(s: StatementForm): seq<Token> {
    match s
    case InsertForm(schemas, name, columns, rows, semicolon) =>
      [Keyword(KInsert), Keyword(KInto)] + (NameTokens(schemas, name) + (ColumnListTokens(columns)
        + ([Keyword(KValues)] + (Commas(RowPieces(rows)) + EndTokens(semicolon)))))
    case SelectForm(items, source, groupBy, orderBy, limit, semicolon) =>
      [Keyword(KSelect)] + (Commas(ItemPieces(items)) + (SourceTokens(source)
        + TailTokens(groupBy, orderBy, limit, semicolon)))
  }

  /** The statement it stands for, and its number of `?`. */
  function Meaning(s: StatementForm): Statement {
    match s
    case InsertForm(_, name, columns, rows, _) => Insert(name, columns, RowMeanings(rows, 0))
    case SelectForm(items, source, groupBy, orderBy, limit, _) =>
      var src := SourceMeaning(source, ItemsHoles(items));
      Select(ItemMeanings(items, 0), src.from, src.selection, groupBy, OrderMeanings(orderBy),
             LimitMeaning(limit).0, LimitMeaning(limit).1)
  }

  function Parameters(s: StatementForm): nat {
    match s
    case InsertForm(_, _, _, rows, _) => RowsHoles(rows)
    case SelectForm(items, source, _, _, _, _) => ItemsHoles(items) + SourceHoles(source)
  }

  /** Lists are not empty, special words are those words in any case, no column or function
      is called TRUE or FALSE, and `?` is only written where it is allowed. */
  predicate WellWritten(s: StatementForm, holes: bool) {
    match s
    case InsertForm(_, _, columns, rows, _) =>
      && (columns.Some? ==> columns.value != [])
      && rows != [] && forall i :: 0 <= i < |rows| ==> rows[i] != [] && ExprsOk(rows[i], holes)
    case SelectForm(items, source, _, orderBy, limit, _) =>
      && items != [] && (forall i :: 0 <= i < |items| ==> ItemOk(items[i], holes))
      && SourceOk(source, holes) && (forall i :: 0 <= i < |orderBy| ==> OrderOk(orderBy[i])) && LimitOk(limit)
  }
}
