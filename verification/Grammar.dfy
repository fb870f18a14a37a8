/** The token-level grammar of INSERT and SELECT, as functions of the token list, the
    position and the number of `?` seen so far; what the `Parser` object computes. */
module Grammar {
  import opened Basics
  import opened Ast

  datatype Keyword =
    | KInsert | KInto | KValues | KSelect | KFrom | KWhere | KNull | KAs | KOrder | KBy | KLimit | KGroup
    | KJoin | KLeft | KOn | KInner | KOuter
    | KOther(word: Text)   // keywords no INSERT or SELECT uses

  datatype Token =
    | Keyword(keyword: Keyword)
    | Ident(ident: Text)
    | SystemVariableToken(variable: Text)
    | IntegerToken(n: i64)
    | DecimalToken(unscaled: i64, scale: u8)
    | Str(text: Text)
    | Comma | LParen | RParen | Semicolon | Star
    | EqSign | NotEqSign | LtSign | GtSign | LeSign | GeSign
    | Dot
    | Hole   // `?`

  /** A parsed piece and the position after it. */
  datatype At<+T> = At(value: T, pos: nat)

  /** The same, with the number of placeholders seen up to there. */
  datatype Parsed<+T> = Parsed(value: T, pos: nat, count: nat)

  function Peek(ts: seq<Token>, pos: nat): Option<Token> {
    if pos < |ts| then Some(ts[pos]) else None
  }

  function Lower(b: byte): byte {
    if 65 <= b <= 90 then b + 32 else b
  }

  /** `eq_ignore_ascii_case`. */
  predicate SameWord(a: Text, b: Text) {
    |a| == |b| && forall i :: 0 <= i < |a| ==> Lower(a[i]) == Lower(b[i])
  }

  const TRUE_WORD: Text := [84, 82, 85, 69]
  const FALSE_WORD: Text := [70, 65, 76, 83, 69]
  const COUNT_WORD: Text := [67, 79, 85, 78, 84]
  const DESC_WORD: Text := [68, 69, 83, 67]
  const ASC_WORD: Text := [65, 83, 67]
  const OFFSET_WORD: Text := [79, 70, 70, 83, 69, 84]

  predicate PeekWord(ts: seq<Token>, pos: nat, word: Text) {
    pos < |ts| && ts[pos].Ident? && SameWord(ts[pos].ident, word)
  }

  // ---- pieces without expressions ----

  /** `expect_keyword` and `expect_punct`. */
  function Expect(ts: seq<Token>, pos: nat, t: Token): (r: Result<nat>)
    ensures r.Ok? ==> pos < |ts| && ts[pos] == t && r.value == pos + 1
    ensures r.Err? ==> r.error == Parse
  {
    if Peek(ts, pos) == Some(t) then Ok(pos + 1) else Err(Parse)
  }

  function ExpectIdent(ts: seq<Token>, pos: nat): (r: Result<At<Text>>)
    ensures r.Ok? ==> pos < |ts| && r.value.pos == pos + 1
  {
    if pos < |ts| && ts[pos].Ident? then Ok(At(ts[pos].ident, pos + 1)) else Err(Parse)
  }

  /** `expect_qualified_ident` after its first segment. */
  function MoreSegments(ts: seq<Token>, name: Text, pos: nat): (r: Result<At<Text>>)
    requires pos <= |ts|
    ensures r.Ok? ==> pos <= r.value.pos <= |ts|
    decreases |ts| - pos
  {
    if Peek(ts, pos) != Some(Dot) then Ok(At(name, pos))
    else
      var next :- ExpectIdent(ts, pos + 1);
      MoreSegments(ts, next.value, next.pos)
  }

  function QualifiedIdent(ts: seq<Token>, pos: nat): (r: Result<At<Text>>)
    ensures r.Ok? ==> pos < r.value.pos <= |ts|
  {
    var first :- ExpectIdent(ts, pos);
    MoreSegments(ts, first.value, first.pos)
  }

  function FinishColumnRef(ts: seq<Token>, first: Text, pos: nat): (r: Result<At<ColumnRef>>)
    requires pos <= |ts|
    ensures r.Ok? ==> pos <= r.value.pos <= |ts|
  {
    if Peek(ts, pos) != Some(Dot) then Ok(At(ColumnRef(None, first), pos))
    else
      var column :- ExpectIdent(ts, pos + 1);
      Ok(At(ColumnRef(Some(first), column.value), column.pos))
  }

  function ParseColumnRef(ts: seq<Token>, pos: nat): (r: Result<At<ColumnRef>>)
    ensures r.Ok? ==> pos < r.value.pos <= |ts|
  {
    var first :- ExpectIdent(ts, pos);
    FinishColumnRef(ts, first.value, first.pos)
  }

  function OptionalAlias(ts: seq<Token>, pos: nat): (r: Result<At<Option<Text>>>)
    requires pos <= |ts|
    ensures r.Ok? ==> pos <= r.value.pos <= |ts|
  {
    if Peek(ts, pos) == Some(Keyword(KAs)) then
      var name :- ExpectIdent(ts, pos + 1);
      Ok(At(Some(name.value), name.pos))
    else if pos < |ts| && ts[pos].Ident? then Ok(At(Some(ts[pos].ident), pos + 1))
    else Ok(At(None, pos))
  }

  function ParseTableRef(ts: seq<Token>, pos: nat): (r: Result<At<TableRef>>)
    ensures r.Ok? ==> pos < r.value.pos <= |ts|
  {
    var name :- QualifiedIdent(ts, pos);
    var alias :- OptionalAlias(ts, name.pos);
    Ok(At(TableRef(name.value, alias.value), alias.pos))
  }

  /** `(col, ..., col)`, after the opening parenthesis. */
  function IdentList(ts: seq<Token>, pos: nat, acc: seq<Text>): (r: Result<At<seq<Text>>>)
    ensures r.Ok? ==> pos < r.value.pos <= |ts|
    decreases |ts| - pos
  {
    var name :- ExpectIdent(ts, pos);
    match Peek(ts, name.pos)
    case Some(Comma) => IdentList(ts, name.pos + 1, acc + [name.value])
    case Some(RParen) => Ok(At(acc + [name.value], name.pos + 1))
    case _ => Err(Parse)
  }

  /** The words that introduce a join, if any. */
  function JoinWords(ts: seq<Token>, pos: nat): (r: Result<Option<At<JoinType>>>)
    ensures r.Ok? && r.value.Some? ==> pos < r.value.value.pos <= |ts|
  {
    if Peek(ts, pos) == Some(Keyword(KJoin)) then Ok(Some(At(Inner, pos + 1)))
    else if Peek(ts, pos) == Some(Keyword(KInner)) then
      var next :- Expect(ts, pos + 1, Keyword(KJoin));
      Ok(Some(At(Inner, next)))
    else if Peek(ts, pos) == Some(Keyword(KLeft)) then
      var outer := if Peek(ts, pos + 1) == Some(Keyword(KOuter)) then pos + 2 else pos + 1;
      var next :- Expect(ts, outer, Keyword(KJoin));
      Ok(Some(At(Left, next)))
    else Ok(None)
  }

  /** A join after its introducing words. */
  function ParseJoin(ts: seq<Token>, kind: JoinType, pos: nat): (r: Result<At<JoinClause>>)
    ensures r.Ok? ==> pos < r.value.pos <= |ts|
  {
    var table :- ParseTableRef(ts, pos);
    var on :- Expect(ts, table.pos, Keyword(KOn));
    var left :- ParseColumnRef(ts, on);
    var eq :- Expect(ts, left.pos, EqSign);
    var right :- ParseColumnRef(ts, eq);
    Ok(At(JoinClause(kind, table.value, left.value, right.value), right.pos))
  }

  function Joins(ts: seq<Token>, pos: nat, acc: seq<JoinClause>): (r: Result<At<seq<JoinClause>>>)
    requires pos <= |ts|
    ensures r.Ok? ==> pos <= r.value.pos <= |ts|
    decreases |ts| - pos
  {
    var words :- JoinWords(ts, pos);
    match words
    case None => Ok(At(acc, pos))
    case Some(w) =>
      var join :- ParseJoin(ts, w.value, w.pos);
      Joins(ts, join.pos, acc + [join.value])
  }

  function ParseFrom(ts: seq<Token>, pos: nat): (r: Result<At<FromClause>>)
    ensures r.Ok? ==> pos < r.value.pos <= |ts|
  {
    var table :- ParseTableRef(ts, pos);
    var joins :- Joins(ts, table.pos, []);
    Ok(At(FromClause(table.value, joins.value), joins.pos))
  }

  function ColumnList(ts: seq<Token>, pos: nat, acc: seq<ColumnRef>): (r: Result<At<seq<ColumnRef>>>)
    ensures r.Ok? ==> pos < r.value.pos <= |ts|
    decreases |ts| - pos
  {
    var col :- ParseColumnRef(ts, pos);
    if Peek(ts, col.pos) == Some(Comma) then ColumnList(ts, col.pos + 1, acc + [col.value])
    else Ok(At(acc + [col.value], col.pos))
  }

  function OptionalGroupBy(ts: seq<Token>, pos: nat): (r: Result<At<seq<ColumnRef>>>)
    requires pos <= |ts|
    ensures r.Ok? ==> pos <= r.value.pos <= |ts|
  {
    if Peek(ts, pos) != Some(Keyword(KGroup)) then Ok(At([], pos))
    else
      var next :- Expect(ts, pos + 1, Keyword(KBy));
      ColumnList(ts, next, [])
  }

  function OrderItem(ts: seq<Token>, pos: nat): (r: Result<At<OrderByItem>>)
    ensures r.Ok? ==> pos < r.value.pos <= |ts|
  {
    var col :- ParseColumnRef(ts, pos);
    if PeekWord(ts, col.pos, DESC_WORD) then Ok(At(OrderByItem(col.value, true), col.pos + 1))
    else if PeekWord(ts, col.pos, ASC_WORD) then Ok(At(OrderByItem(col.value, false), col.pos + 1))
    else Ok(At(OrderByItem(col.value, false), col.pos))
  }

  function OrderList(ts: seq<Token>, pos: nat, acc: seq<OrderByItem>): (r: Result<At<seq<OrderByItem>>>)
    ensures r.Ok? ==> pos < r.value.pos <= |ts|
    decreases |ts| - pos
  {
    var item :- OrderItem(ts, pos);
    if Peek(ts, item.pos) == Some(Comma) then OrderList(ts, item.pos + 1, acc + [item.value])
    else Ok(At(acc + [item.value], item.pos))
  }

  function OptionalOrderBy(ts: seq<Token>, pos: nat): (r: Result<At<seq<OrderByItem>>>)
    requires pos <= |ts|
    ensures r.Ok? ==> pos <= r.value.pos <= |ts|
  {
    if Peek(ts, pos) != Some(Keyword(KOrder)) then Ok(At([], pos))
    else
      var next :- Expect(ts, pos + 1, Keyword(KBy));
      OrderList(ts, next, [])
  }

  function ExpectUnsigned(ts: seq<Token>, pos: nat): (r: Result<At<u64>>)
    ensures r.Ok? ==> pos < |ts| && r.value.pos == pos + 1
  {
    if pos < |ts| && ts[pos].IntegerToken? && ts[pos].n >= 0 then
      var n: u64 := ts[pos].n;
      Ok(At(n, pos + 1))
    else Err(Parse)
  }

  /** `LIMIT count [OFFSET n]` or `LIMIT offset, count`, as (limit, offset). */
  function OptionalLimit(ts: seq<Token>, pos: nat): (r: Result<At<(Option<u64>, Option<u64>)>>)
    requires pos <= |ts|
    ensures r.Ok? ==> pos <= r.value.pos <= |ts|
  {
    if Peek(ts, pos) != Some(Keyword(KLimit)) then Ok(At((None, None), pos))
    else
      var first :- ExpectUnsigned(ts, pos + 1);
      if Peek(ts, first.pos) == Some(Comma) then
        var count :- ExpectUnsigned(ts, first.pos + 1);
        Ok(At((Some(count.value), Some(first.value)), count.pos))
      else if PeekWord(ts, first.pos, OFFSET_WORD) then
        var offset :- ExpectUnsigned(ts, first.pos + 1);
        Ok(At((Some(first.value), Some(offset.value)), offset.pos))
      else Ok(At((Some(first.value), None), first.pos))
  }

  /** `eat_semicolon_and_ensure_end`. */
  predicate AtEnd(ts: seq<Token>, pos: nat) {
    if Peek(ts, pos) == Some(Semicolon) then pos + 1 == |ts| else pos == |ts|
  }

  function ParseOp(ts: seq<Token>, pos: nat): (r: Result<At<CompareOp>>)
    ensures r.Ok? ==> pos < |ts| && r.value.pos == pos + 1
  {
    match Peek(ts, pos)
    case Some(EqSign) => Ok(At(Eq, pos + 1))
    case Some(NotEqSign) => Ok(At(NotEq, pos + 1))
    case Some(LtSign) => Ok(At(Lt, pos + 1))
    case Some(GtSign) => Ok(At(Gt, pos + 1))
    case Some(LeSign) => Ok(At(Le, pos + 1))
    case Some(GeSign) => Ok(At(Ge, pos + 1))
    case _ => Err(Parse)
  }

  // ---- expressions ----

  function ParseExpr(ts: seq<Token>, pos: nat, count: nat, holes: bool): (r: Result<Parsed<Expr>>)
    ensures r.Ok? ==> pos < r.value.pos <= |ts|
    decreases |ts| - pos, 2
  {
    if pos >= |ts| then Err(Parse)
    else
      match ts[pos]
      case IntegerToken(n) => Ok(Parsed(Integer(n), pos + 1, count))
      case DecimalToken(u, s) => Ok(Parsed(DecimalLiteral(u, s), pos + 1, count))
      case Str(s) => Ok(Parsed(String(s), pos + 1, count))
      case SystemVariableToken(name) => Ok(Parsed(SystemVariable(name), pos + 1, count))
      case Keyword(k) => if k == KNull then Ok(Parsed(NullLiteral, pos + 1, count)) else Err(Parse)
      case Ident(name) =>
        if SameWord(name, TRUE_WORD) then Ok(Parsed(Integer(1), pos + 1, count))
        else if SameWord(name, FALSE_WORD) then Ok(Parsed(Integer(0), pos + 1, count))
        else if Peek(ts, pos + 1) == Some(LParen) then ParseCall(ts, name, pos + 1, count, holes)
        else
          var col :- FinishColumnRef(ts, name, pos + 1);
          Ok(Parsed(Column(col.value), col.pos, count))
      case Hole => if holes then Ok(Parsed(Placeholder(count), pos + 1, count + 1)) else Err(Parse)
      case _ => Err(Parse)
  }

  /** `parse_function_call`, at the opening parenthesis. */
  function ParseCall(ts: seq<Token>, name: Text, pos: nat, count: nat, holes: bool): (r: Result<Parsed<Expr>>)
    ensures r.Ok? ==> pos < r.value.pos <= |ts|
    decreases |ts| - pos, 1
  {
    var open :- Expect(ts, pos, LParen);
    if SameWord(name, COUNT_WORD) && Peek(ts, open) == Some(Star) then
      var close :- Expect(ts, open + 1, RParen);
      Ok(Parsed(Function(name, []), close, count))
    else if Peek(ts, open) == Some(RParen) then Ok(Parsed(Function(name, []), open + 1, count))
    else
      var args :- ArgList(ts, open, count, holes, []);
      var close :- Expect(ts, args.pos, RParen);
      Ok(Parsed(Function(name, args.value), close, args.count))
  }

  function ArgList(ts: seq<Token>, pos: nat, count: nat, holes: bool, acc: seq<Expr>): (r: Result<Parsed<seq<Expr>>>)
    ensures r.Ok? ==> pos < r.value.pos <= |ts|
    decreases |ts| - pos, 3
  {
    var e :- ParseExpr(ts, pos, count, holes);
    if Peek(ts, e.pos) == Some(Comma) then ArgList(ts, e.pos + 1, e.count, holes, acc + [e.value])
    else Ok(Parsed(acc + [e.value], e.pos, e.count))
  }

  function ParseCondition(ts: seq<Token>, pos: nat, count: nat, holes: bool): (r: Result<Parsed<Condition>>)
    ensures r.Ok? ==> pos < r.value.pos <= |ts|
  {
    var column :- ParseColumnRef(ts, pos);
    var op :- ParseOp(ts, column.pos);
    var value :- ParseExpr(ts, op.pos, count, holes);
    Ok(Parsed(Condition(column.value, op.value, value.value), value.pos, value.count))
  }

  // ---- INSERT ----

  /** One `(expr, ..., expr)`, after its opening parenthesis. */
  function ValueList(ts: seq<Token>, pos: nat, count: nat, holes: bool, acc: seq<Expr>): (r: Result<Parsed<seq<Expr>>>)
    ensures r.Ok? ==> pos < r.value.pos <= |ts|
    decreases |ts| - pos
  {
    var e :- ParseExpr(ts, pos, count, holes);
    match Peek(ts, e.pos)
    case Some(Comma) => ValueList(ts, e.pos + 1, e.count, holes, acc + [e.value])
    case Some(RParen) => Ok(Parsed(acc + [e.value], e.pos + 1, e.count))
    case _ => Err(Parse)
  }

  function RowList(ts: seq<Token>, pos: nat, count: nat, holes: bool, acc: seq<seq<Expr>>): (r: Result<Parsed<seq<seq<Expr>>>>)
    ensures r.Ok? ==> pos < r.value.pos <= |ts|
    decreases |ts| - pos
  {
    var open :- Expect(ts, pos, LParen);
    var row :- ValueList(ts, open, count, holes, []);
    if Peek(ts, row.pos) == Some(Comma) then RowList(ts, row.pos + 1, row.count, holes, acc + [row.value])
    else Ok(Parsed(acc + [row.value], row.pos, row.count))
  }

  function OptionalColumns(ts: seq<Token>, pos: nat): (r: Result<At<Option<seq<Text>>>>)
    requires pos <= |ts|
    ensures r.Ok? ==> pos <= r.value.pos <= |ts|
  {
    if Peek(ts, pos) != Some(LParen) then Ok(At(None, pos))
    else
      var cols :- IdentList(ts, pos + 1, []);
      Ok(At(Some(cols.value), cols.pos))
  }

  function ParseInsert(ts: seq<Token>, pos: nat, count: nat, holes: bool): (r: Result<Parsed<Statement>>)
    ensures r.Ok? ==> r.value.pos <= |ts|
  {
    var p1 :- Expect(ts, pos, Keyword(KInsert));
    var p2 :- Expect(ts, p1, Keyword(KInto));
    var table :- QualifiedIdent(ts, p2);
    var columns :- OptionalColumns(ts, table.pos);
    var p3 :- Expect(ts, columns.pos, Keyword(KValues));
    var rows :- RowList(ts, p3, count, holes, []);
    if AtEnd(ts, rows.pos) then Ok(Parsed(Insert(table.value, columns.value, rows.value), |ts|, rows.count))
    else Err(Parse)
  }

  // ---- SELECT ----

  function ParseItem(ts: seq<Token>, pos: nat, count: nat, holes: bool): (r: Result<Parsed<SelectItem>>)
    ensures r.Ok? ==> pos < r.value.pos <= |ts|
  {
    if Peek(ts, pos) == Some(Star) then Ok(Parsed(Wildcard, pos + 1, count))
    else
      var e :- ParseExpr(ts, pos, count, holes);
      var alias :- OptionalAlias(ts, e.pos);
      Ok(Parsed(Item(e.value, alias.value), alias.pos, e.count))
  }

  function ItemList(ts: seq<Token>, pos: nat, count: nat, holes: bool, acc: seq<SelectItem>): (r: Result<Parsed<seq<SelectItem>>>)
    ensures r.Ok? ==> pos < r.value.pos <= |ts|
    decreases |ts| - pos
  {
    var item :- ParseItem(ts, pos, count, holes);
    if Peek(ts, item.pos) == Some(Comma) then ItemList(ts, item.pos + 1, item.count, holes, acc + [item.value])
    else Ok(Parsed(acc + [item.value], item.pos, item.count))
  }

  function OptionalWhere(ts: seq<Token>, pos: nat, count: nat, holes: bool): (r: Result<Parsed<Option<Condition>>>)
    requires pos <= |ts|
    ensures r.Ok? ==> pos <= r.value.pos <= |ts|
  {
    if Peek(ts, pos) != Some(Keyword(KWhere)) then Ok(Parsed(None, pos, count))
    else
      var cond :- ParseCondition(ts, pos + 1, count, holes);
      Ok(Parsed(Some(cond.value), cond.pos, cond.count))
  }

  datatype Source = Source(from: Option<FromClause>, selection: Option<Condition>)

  function OptionalFrom(ts: seq<Token>, pos: nat, count: nat, holes: bool): (r: Result<Parsed<Source>>)
    requires pos <= |ts|
    ensures r.Ok? ==> pos <= r.value.pos <= |ts|
  {
    if Peek(ts, pos) != Some(Keyword(KFrom)) then Ok(Parsed(Source(None, None), pos, count))
    else
      var from :- ParseFrom(ts, pos + 1);
      var cond :- OptionalWhere(ts, from.pos, count, holes);
      Ok(Parsed(Source(Some(from.value), cond.value), cond.pos, cond.count))
  }

  datatype Tail = Tail(groupBy: seq<ColumnRef>, orderBy: seq<OrderByItem>, limit: Option<u64>, offset: Option<u64>)

  function ParseTail(ts: seq<Token>, pos: nat): (r: Result<At<Tail>>)
    requires pos <= |ts|
    ensures r.Ok? ==> pos <= r.value.pos <= |ts|
  {
    var groups :- OptionalGroupBy(ts, pos);
    var orders :- OptionalOrderBy(ts, groups.pos);
    var limits :- OptionalLimit(ts, orders.pos);
    Ok(At(Tail(groups.value, orders.value, limits.value.0, limits.value.1), limits.pos))
  }

  function ParseSelect(ts: seq<Token>, pos: nat, count: nat, holes: bool): (r: Result<Parsed<Statement>>)
    ensures r.Ok? ==> r.value.pos <= |ts|
  {
    var p1 :- Expect(ts, pos, Keyword(KSelect));
    var items :- ItemList(ts, p1, count, holes, []);
    var source :- OptionalFrom(ts, items.pos, items.count, holes);
    var tail :- ParseTail(ts, source.pos);
    if AtEnd(ts, tail.pos) then
      Ok(Parsed(Select(items.value, source.value.from, source.value.selection, tail.value.groupBy, tail.value.orderBy,
                       tail.value.limit, tail.value.offset), |ts|, source.count))
    else Err(Parse)
  }

  /** `parse_statement`, for INSERT and SELECT; other statements are not part of this model. */
  function ParseStatement(ts: seq<Token>, holes: bool): Result<Parsed<Statement>> {
    match Peek(ts, 0)
    case Some(Keyword(KInsert)) => ParseInsert(ts, 0, 0, holes)
    case Some(Keyword(KSelect)) => ParseSelect(ts, 0, 0, holes)
    case _ => Err(Parse)
  }

  /** `parse`. */
  function ParseText(ts: seq<Token>): Result<Statement> {
    var p :- ParseStatement(ts, false);
    Ok(p.value)
  }

  /** `parse_prepared`: the statement and its number of parameters. */
  function ParsePrepared(ts: seq<Token>): Result<(Statement, nat)> {
    var p :- ParseStatement(ts, true);
    Ok((p.value, p.count))
  }
}
