/** Prepared statements: binding literals into a parsed statement against parsing the
    text with the literals written in place of the placeholders. */
module Binding {
  import opened Basics
  import opened Ast
  import opened Grammar

  // ---- bind_parameters ----

  function BindExpr(e: Expr, params: seq<Expr>): Result<Expr>
    decreases e
  {
    match e
    case Placeholder(i) => if i < |params| then Ok(params[i]) else Err(Execution)
    case Function(name, args) =>
      var bound :- BindExprs(args, params);
      Ok(Function(name, bound))
    case _ => Ok(e)
  }

  function BindExprs(es: seq<Expr>, params: seq<Expr>): Result<seq<Expr>>
    decreases es
  {
    if es == [] then Ok([])
    else
      var front :- BindExprs(es[..|es| - 1], params);
      var last :- BindExpr(es[|es| - 1], params);
      Ok(front + [last])
  }

  function BindRows(rows: seq<seq<Expr>>, params: seq<Expr>): Result<seq<seq<Expr>>> {
    if rows == [] then Ok([])
    else
      var front :- BindRows(rows[..|rows| - 1], params);
      var last :- BindExprs(rows[|rows| - 1], params);
      Ok(front + [last])
  }

  function BindItem(item: SelectItem, params: seq<Expr>): Result<SelectItem> {
    match item
    case Wildcard => Ok(Wildcard)
    case Item(e, alias) =>
      var bound :- BindExpr(e, params);
      Ok(Item(bound, alias))
  }

  function BindItems(items: seq<SelectItem>, params: seq<Expr>): Result<seq<SelectItem>> {
    if items == [] then Ok([])
    else
      var front :- BindItems(items[..|items| - 1], params);
      var last :- BindItem(items[|items| - 1], params);
      Ok(front + [last])
  }

  function BindWhere(where: Option<Condition>, params: seq<Expr>): Result<Option<Condition>> {
    match where
    case None => Ok(None)
    case Some(cond) =>
      var value :- BindExpr(cond.value, params);
      Ok(Some(Condition(cond.column, cond.op, value)))
  }

  /** `bind_parameters`. */
  function BindStatement(s: Statement, params: seq<Expr>): Result<Statement> {
    match s
    case Insert(table, columns, rows) =>
      var bound :- BindRows(rows, params);
      Ok(Insert(table, columns, bound))
    case Select(items, from, where, groupBy, orderBy, limit, offset) =>
      var boundItems :- BindItems(items, params);
      var boundWhere :- BindWhere(where, params);
      Ok(Select(boundItems, from, boundWhere, groupBy, orderBy, limit, offset))
  }

  // ---- no placeholder left ----

  predicate Whole(e: Expr)
    decreases e
  {
    match e
    case Placeholder(_) => false
    case Function(_, args) => forall i :: 0 <= i < |args| ==> Whole(args[i])
    case _ => true
  }

  predicate AllWhole(es: seq<Expr>) {
    forall i :: 0 <= i < |es| ==> Whole(es[i])
  }

  predicate WholeItem(item: SelectItem) {
    item.Item? ==> Whole(item.expr)
  }

  predicate WholeStatement(s: Statement) {
    match s
    case Insert(_, _, rows) => forall i :: 0 <= i < |rows| ==> AllWhole(rows[i])
    case Select(items, _, where, _, _, _, _) =>
      (forall i :: 0 <= i < |items| ==> WholeItem(items[i])) && (where.Some? ==> Whole(where.value.value))
  }

  // ---- literals in the token list ----

  predicate IsLiteral(e: Expr) {
    e.Integer? || e.String? || e.NullLiteral?
  }

  function LiteralToken(e: Expr): Token
    requires IsLiteral(e)
  {
    match e
    case Integer(n) => IntegerToken(n)
    case String(s) => Str(s)
    case NullLiteral => Keyword(KNull)
  }

  /** The placeholders before position `n`. */
  function Holes(ts: seq<Token>, n: nat): (h: nat)
    requires n <= |ts|
  {
    if n == 0 then 0 else Holes(ts, n - 1) + if ts[n - 1].Hole? then 1 else 0
  }

  lemma {:induction false} HolesMonotone(ts: seq<Token>, m: nat, n: nat)
    requires m <= n <= |ts|
    ensures Holes(ts, m) <= Holes(ts, n)
  {
    if m < n {
      HolesMonotone(ts, m, n - 1);
    }
  }

  predicate AllLiterals(params: seq<Expr>) {
    forall i :: 0 <= i < |params| ==> IsLiteral(params[i])
  }

  /** The token list with the k-th `?` replaced by the k-th literal's token. */
  function Fill(ts: seq<Token>, params: seq<Expr>): (us: seq<Token>)
    requires AllLiterals(params) && Holes(ts, |ts|) <= |params|
    ensures |us| == |ts|
  {
    seq(|ts|, i requires 0 <= i < |ts| =>
      if ts[i].Hole? then
        HoleIndex(ts, i);
        LiteralToken(params[Holes(ts, i)])
      else ts[i])
  }

  lemma HoleIndex(ts: seq<Token>, i: nat)
    requires i < |ts| && ts[i].Hole?
    ensures Holes(ts, i) < Holes(ts, |ts|)
  {
    HolesMonotone(ts, i + 1, |ts|);
  }

  ghost predicate Filled(ts: seq<Token>, us: seq<Token>, params: seq<Expr>) {
    AllLiterals(params) && Holes(ts, |ts|) <= |params| && us == Fill(ts, params)
  }

  /** The two lists at one position: the same token, or `?` against a literal. */
  lemma TokenAt(ts: seq<Token>, us: seq<Token>, params: seq<Expr>, i: nat)
    requires Filled(ts, us, params)
    ensures |us| == |ts|
    ensures i < |ts| && !ts[i].Hole? ==> us[i] == ts[i] && Holes(ts, i + 1) == Holes(ts, i)
    ensures i < |ts| && ts[i].Hole? ==>
      && Holes(ts, i) < |params| && IsLiteral(params[Holes(ts, i)])
      && us[i] == LiteralToken(params[Holes(ts, i)]) && Holes(ts, i + 1) == Holes(ts, i) + 1
  {
    if i < |ts| && ts[i].Hole? {
      HoleIndex(ts, i);
    }
  }

  // ---- pieces without expressions parse alike ----

  lemma SameExpect(ts: seq<Token>, us: seq<Token>, params: seq<Expr>, pos: nat, t: Token)
    requires Filled(ts, us, params) && Expect(ts, pos, t).Ok? && !t.Hole?
    ensures Expect(us, pos, t) == Ok(pos + 1) && Holes(ts, pos + 1) == Holes(ts, pos)
  {
    TokenAt(ts, us, params, pos);
  }

  lemma SameIdent(ts: seq<Token>, us: seq<Token>, params: seq<Expr>, pos: nat)
    requires Filled(ts, us, params) && ExpectIdent(ts, pos).Ok?
    ensures ExpectIdent(us, pos) == ExpectIdent(ts, pos) && Holes(ts, pos + 1) == Holes(ts, pos)
  {
    TokenAt(ts, us, params, pos);
  }

  lemma {:induction false} SameSegments(ts: seq<Token>, us: seq<Token>, params: seq<Expr>, name: Text, pos: nat)
    requires Filled(ts, us, params) && pos <= |ts| && MoreSegments(ts, name, pos).Ok?
    ensures |us| == |ts| && MoreSegments(us, name, pos) == MoreSegments(ts, name, pos)
    ensures Holes(ts, MoreSegments(ts, name, pos).value.pos) == Holes(ts, pos)
    decreases |ts| - pos
  {
    hide Filled, Holes;
    TokenAt(ts, us, params, pos);
    if Peek(ts, pos) == Some(Dot) {
      SameIdent(ts, us, params, pos + 1);
      var next := ExpectIdent(ts, pos + 1).value;
      SameSegments(ts, us, params, next.value, next.pos);
    }
  }

  lemma SameQualified(ts: seq<Token>, us: seq<Token>, params: seq<Expr>, pos: nat)
    requires Filled(ts, us, params) && QualifiedIdent(ts, pos).Ok?
    ensures QualifiedIdent(us, pos) == QualifiedIdent(ts, pos)
    ensures Holes(ts, QualifiedIdent(ts, pos).value.pos) == Holes(ts, pos)
  {
    hide Filled, Holes, MoreSegments;
    SameIdent(ts, us, params, pos);
    var first := ExpectIdent(ts, pos).value;
    SameSegments(ts, us, params, first.value, first.pos);
  }

  lemma SameFinish(ts: seq<Token>, us: seq<Token>, params: seq<Expr>, first: Text, pos: nat)
    requires Filled(ts, us, params) && pos <= |ts| && FinishColumnRef(ts, first, pos).Ok?
    ensures |us| == |ts| && FinishColumnRef(us, first, pos) == FinishColumnRef(ts, first, pos)
    ensures Holes(ts, FinishColumnRef(ts, first, pos).value.pos) == Holes(ts, pos)
  {
    hide Filled, Holes;
    TokenAt(ts, us, params, pos);
    if Peek(ts, pos) == Some(Dot) {
      SameIdent(ts, us, params, pos + 1);
    }
  }

  lemma SameColumnRef(ts: seq<Token>, us: seq<Token>, params: seq<Expr>, pos: nat)
    requires Filled(ts, us, params) && ParseColumnRef(ts, pos).Ok?
    ensures ParseColumnRef(us, pos) == ParseColumnRef(ts, pos)
    ensures Holes(ts, ParseColumnRef(ts, pos).value.pos) == Holes(ts, pos)
  {
    hide Filled, Holes, FinishColumnRef;
    SameIdent(ts, us, params, pos);
    var first := ExpectIdent(ts, pos).value;
    SameFinish(ts, us, params, first.value, first.pos);
  }

  lemma SameAlias(ts: seq<Token>, us: seq<Token>, params: seq<Expr>, pos: nat)
    requires Filled(ts, us, params) && pos <= |ts| && OptionalAlias(ts, pos).Ok?
    ensures |us| == |ts| && OptionalAlias(us, pos) == OptionalAlias(ts, pos)
    ensures Holes(ts, OptionalAlias(ts, pos).value.pos) == Holes(ts, pos)
  {
    hide Filled, Holes;
    TokenAt(ts, us, params, pos);
    if Peek(ts, pos) == Some(Keyword(KAs)) {
      SameIdent(ts, us, params, pos + 1);
    }
  }

  lemma SameTableRef(ts: seq<Token>, us: seq<Token>, params: seq<Expr>, pos: nat)
    requires Filled(ts, us, params) && ParseTableRef(ts, pos).Ok?
    ensures ParseTableRef(us, pos) == ParseTableRef(ts, pos)
    ensures Holes(ts, ParseTableRef(ts, pos).value.pos) == Holes(ts, pos)
  {
    hide Filled, Holes, QualifiedIdent, OptionalAlias;
    SameQualified(ts, us, params, pos);
    SameAlias(ts, us, params, QualifiedIdent(ts, pos).value.pos);
  }

  lemma {:induction false} SameIdentList(ts: seq<Token>, us: seq<Token>, params: seq<Expr>, pos: nat, acc: seq<Text>)
    requires Filled(ts, us, params) && IdentList(ts, pos, acc).Ok?
    ensures IdentList(us, pos, acc) == IdentList(ts, pos, acc)
    ensures Holes(ts, IdentList(ts, pos, acc).value.pos) == Holes(ts, pos)
    decreases |ts| - pos
  {
    hide Filled, Holes;
    SameIdent(ts, us, params, pos);
    var name := ExpectIdent(ts, pos).value;
    TokenAt(ts, us, params, name.pos);
    if Peek(ts, name.pos) == Some(Comma) {
      SameIdentList(ts, us, params, name.pos + 1, acc + [name.value]);
    }
  }

  lemma SameJoinWords(ts: seq<Token>, us: seq<Token>, params: seq<Expr>, pos: nat)
    requires Filled(ts, us, params) && JoinWords(ts, pos).Ok?
    ensures JoinWords(us, pos) == JoinWords(ts, pos)
    ensures JoinWords(ts, pos).value.Some? ==> Holes(ts, JoinWords(ts, pos).value.value.pos) == Holes(ts, pos)
  {
    hide Filled, Holes;
    TokenAt(ts, us, params, pos);
    TokenAt(ts, us, params, pos + 1);
    TokenAt(ts, us, params, pos + 2);
  }

  lemma SameJoin(ts: seq<Token>, us: seq<Token>, params: seq<Expr>, kind: JoinType, pos: nat)
    requires Filled(ts, us, params) && ParseJoin(ts, kind, pos).Ok?
    ensures ParseJoin(us, kind, pos) == ParseJoin(ts, kind, pos)
    ensures Holes(ts, ParseJoin(ts, kind, pos).value.pos) == Holes(ts, pos)
  {
    hide Filled, Holes, ParseTableRef, ParseColumnRef, Expect;
    SameTableRef(ts, us, params, pos);
    var table := ParseTableRef(ts, pos).value;
    SameExpect(ts, us, params, table.pos, Keyword(KOn));
    SameColumnRef(ts, us, params, table.pos + 1);
    var left := ParseColumnRef(ts, table.pos + 1).value;
    SameExpect(ts, us, params, left.pos, EqSign);
    SameColumnRef(ts, us, params, left.pos + 1);
  }

  lemma {:induction false} SameJoins(ts: seq<Token>, us: seq<Token>, params: seq<Expr>, pos: nat, acc: seq<JoinClause>)
    requires Filled(ts, us, params) && pos <= |ts| && Joins(ts, pos, acc).Ok?
    ensures |us| == |ts| && Joins(us, pos, acc) == Joins(ts, pos, acc)
    ensures Holes(ts, Joins(ts, pos, acc).value.pos) == Holes(ts, pos)
    decreases |ts| - pos
  {
    hide Filled, Holes, JoinWords, ParseJoin;
    TokenAt(ts, us, params, pos);
    SameJoinWords(ts, us, params, pos);
    var words := JoinWords(ts, pos).value;
    if words.Some? {
      SameJoin(ts, us, params, words.value.value, words.value.pos);
      var join := ParseJoin(ts, words.value.value, words.value.pos).value;
      SameJoins(ts, us, params, join.pos, acc + [join.value]);
    }
  }

  lemma SameFrom(ts: seq<Token>, us: seq<Token>, params: seq<Expr>, pos: nat)
    requires Filled(ts, us, params) && ParseFrom(ts, pos).Ok?
    ensures ParseFrom(us, pos) == ParseFrom(ts, pos)
    ensures Holes(ts, ParseFrom(ts, pos).value.pos) == Holes(ts, pos)
  {
    hide Filled, Holes, ParseTableRef, Joins;
    SameTableRef(ts, us, params, pos);
    SameJoins(ts, us, params, ParseTableRef(ts, pos).value.pos, []);
  }

  lemma {:induction false} SameColumnList(ts: seq<Token>, us: seq<Token>, params: seq<Expr>, pos: nat, acc: seq<ColumnRef>)
    requires Filled(ts, us, params) && ColumnList(ts, pos, acc).Ok?
    ensures ColumnList(us, pos, acc) == ColumnList(ts, pos, acc)
    ensures Holes(ts, ColumnList(ts, pos, acc).value.pos) == Holes(ts, pos)
    decreases |ts| - pos
  {
    hide Filled, Holes, ParseColumnRef;
    SameColumnRef(ts, us, params, pos);
    var col := ParseColumnRef(ts, pos).value;
    TokenAt(ts, us, params, col.pos);
    if Peek(ts, col.pos) == Some(Comma) {
      SameColumnList(ts, us, params, col.pos + 1, acc + [col.value]);
    }
  }

  lemma SameGroupBy(ts: seq<Token>, us: seq<Token>, params: seq<Expr>, pos: nat)
    requires Filled(ts, us, params) && pos <= |ts| && OptionalGroupBy(ts, pos).Ok?
    ensures |us| == |ts| && OptionalGroupBy(us, pos) == OptionalGroupBy(ts, pos)
    ensures Holes(ts, OptionalGroupBy(ts, pos).value.pos) == Holes(ts, pos)
  {
    hide Filled, Holes, ColumnList;
    TokenAt(ts, us, params, pos);
    if Peek(ts, pos) == Some(Keyword(KGroup)) {
      SameExpect(ts, us, params, pos + 1, Keyword(KBy));
      SameColumnList(ts, us, params, pos + 2, []);
    }
  }

  lemma SameOrderItem(ts: seq<Token>, us: seq<Token>, params: seq<Expr>, pos: nat)
    requires Filled(ts, us, params) && OrderItem(ts, pos).Ok?
    ensures OrderItem(us, pos) == OrderItem(ts, pos)
    ensures Holes(ts, OrderItem(ts, pos).value.pos) == Holes(ts, pos)
  {
    hide Filled, Holes, ParseColumnRef, SameWord;
    SameColumnRef(ts, us, params, pos);
    TokenAt(ts, us, params, ParseColumnRef(ts, pos).value.pos);
  }

  lemma {:induction false} SameOrderList(ts: seq<Token>, us: seq<Token>, params: seq<Expr>, pos: nat, acc: seq<OrderByItem>)
    requires Filled(ts, us, params) && OrderList(ts, pos, acc).Ok?
    ensures OrderList(us, pos, acc) == OrderList(ts, pos, acc)
    ensures Holes(ts, OrderList(ts, pos, acc).value.pos) == Holes(ts, pos)
    decreases |ts| - pos
  {
    hide Filled, Holes, OrderItem;
    SameOrderItem(ts, us, params, pos);
    var item := OrderItem(ts, pos).value;
    TokenAt(ts, us, params, item.pos);
    if Peek(ts, item.pos) == Some(Comma) {
      SameOrderList(ts, us, params, item.pos + 1, acc + [item.value]);
    }
  }

  lemma SameOrderBy(ts: seq<Token>, us: seq<Token>, params: seq<Expr>, pos: nat)
    requires Filled(ts, us, params) && pos <= |ts| && OptionalOrderBy(ts, pos).Ok?
    ensures |us| == |ts| && OptionalOrderBy(us, pos) == OptionalOrderBy(ts, pos)
    ensures Holes(ts, OptionalOrderBy(ts, pos).value.pos) == Holes(ts, pos)
  {
    hide Filled, Holes, OrderList;
    TokenAt(ts, us, params, pos);
    if Peek(ts, pos) == Some(Keyword(KOrder)) {
      SameExpect(ts, us, params, pos + 1, Keyword(KBy));
      SameOrderList(ts, us, params, pos + 2, []);
    }
  }

  lemma SameLimit(ts: seq<Token>, us: seq<Token>, params: seq<Expr>, pos: nat)
    requires Filled(ts, us, params) && pos <= |ts| && OptionalLimit(ts, pos).Ok?
    ensures |us| == |ts| && OptionalLimit(us, pos) == OptionalLimit(ts, pos)
    ensures Holes(ts, OptionalLimit(ts, pos).value.pos) == Holes(ts, pos)
  {
    hide Filled, Holes, SameWord;
    TokenAt(ts, us, params, pos);
    if Peek(ts, pos) == Some(Keyword(KLimit)) {
      TokenAt(ts, us, params, pos + 1);
      TokenAt(ts, us, params, pos + 2);
      TokenAt(ts, us, params, pos + 3);
    }
  }

  lemma SameTail(ts: seq<Token>, us: seq<Token>, params: seq<Expr>, pos: nat)
    requires Filled(ts, us, params) && pos <= |ts| && ParseTail(ts, pos).Ok?
    ensures |us| == |ts| && ParseTail(us, pos) == ParseTail(ts, pos)
    ensures Holes(ts, ParseTail(ts, pos).value.pos) == Holes(ts, pos)
  {
    hide Filled, Holes, OptionalGroupBy, OptionalOrderBy, OptionalLimit;
    SameGroupBy(ts, us, params, pos);
    var groups := OptionalGroupBy(ts, pos).value;
    SameOrderBy(ts, us, params, groups.pos);
    SameLimit(ts, us, params, OptionalOrderBy(ts, groups.pos).value.pos);
  }

  lemma SameColumns(ts: seq<Token>, us: seq<Token>, params: seq<Expr>, pos: nat)
    requires Filled(ts, us, params) && pos <= |ts| && OptionalColumns(ts, pos).Ok?
    ensures |us| == |ts| && OptionalColumns(us, pos) == OptionalColumns(ts, pos)
    ensures Holes(ts, OptionalColumns(ts, pos).value.pos) == Holes(ts, pos)
  {
    hide Filled, Holes, IdentList;
    TokenAt(ts, us, params, pos);
    if Peek(ts, pos) == Some(LParen) {
      SameIdentList(ts, us, params, pos + 1, []);
    }
  }

  lemma SameEnd(ts: seq<Token>, us: seq<Token>, params: seq<Expr>, pos: nat)
    requires Filled(ts, us, params) && pos <= |ts| && AtEnd(ts, pos)
    ensures |us| == |ts| && AtEnd(us, pos) && Holes(ts, |ts|) == Holes(ts, pos)
  {
    TokenAt(ts, us, params, pos);
  }

  // ---- expressions ----

  lemma BindOneMore(es: seq<Expr>, e: Expr, params: seq<Expr>)
    requires BindExprs(es, params).Ok? && BindExpr(e, params).Ok?
    ensures BindExprs(es + [e], params) == Ok(BindExprs(es, params).value + [BindExpr(e, params).value])
  {
    hide BindExpr;
    assert (es + [e])[..|es|] == es;
  }

  /** An expression parsed with holes, bound, is the expression parsed from the filled
      tokens; it has no hole left, and the holes were counted. */
  lemma {:induction false} BindsExpr(ts: seq<Token>, us: seq<Token>, params: seq<Expr>, pos: nat)
    requires Filled(ts, us, params) && pos <= |ts| && ParseExpr(ts, pos, Holes(ts, pos), true).Ok?
    ensures var p := ParseExpr(ts, pos, Holes(ts, pos), true).value;
      && p.count == Holes(ts, p.pos)
      && BindExpr(p.value, params).Ok? && Whole(BindExpr(p.value, params).value)
      && ParseExpr(us, pos, 0, false) == Ok(Parsed(BindExpr(p.value, params).value, p.pos, 0))
    decreases |ts| - pos, 2
  {
    hide Filled, Holes, SameWord, FinishColumnRef, ParseCall;
    TokenAt(ts, us, params, pos);
    TokenAt(ts, us, params, pos + 1);
    if ts[pos].Ident? && !SameWord(ts[pos].ident, TRUE_WORD) && !SameWord(ts[pos].ident, FALSE_WORD) {
      if Peek(ts, pos + 1) == Some(LParen) {
        BindsCall(ts, us, params, ts[pos].ident, pos + 1);
      } else {
        SameFinish(ts, us, params, ts[pos].ident, pos + 1);
      }
    }
  }

  lemma BindFunction(name: Text, args: seq<Expr>, params: seq<Expr>)
    requires BindExprs(args, params).Ok? && AllWhole(BindExprs(args, params).value)
    ensures BindExpr(Function(name, args), params) == Ok(Function(name, BindExprs(args, params).value))
    ensures Whole(Function(name, BindExprs(args, params).value))
  {}

  lemma {:induction false} BindsCall(ts: seq<Token>, us: seq<Token>, params: seq<Expr>, name: Text, pos: nat)
    requires Filled(ts, us, params) && pos <= |ts| && ParseCall(ts, name, pos, Holes(ts, pos), true).Ok?
    ensures var p := ParseCall(ts, name, pos, Holes(ts, pos), true).value;
      && p.count == Holes(ts, p.pos)
      && BindExpr(p.value, params).Ok? && Whole(BindExpr(p.value, params).value)
      && ParseCall(us, name, pos, 0, false) == Ok(Parsed(BindExpr(p.value, params).value, p.pos, 0))
    decreases |ts| - pos, 1
  {
    hide Filled, Holes, SameWord, ArgList, BindExpr, BindExprs, Whole, AllWhole;
    TokenAt(ts, us, params, pos);
    TokenAt(ts, us, params, pos + 1);
    TokenAt(ts, us, params, pos + 2);
    var open := pos + 1;
    NoValues(params);
    if !(SameWord(name, COUNT_WORD) && Peek(ts, open) == Some(Star)) && Peek(ts, open) != Some(RParen) {
      BindsArgs(ts, us, params, open, [], []);
      var args := ArgList(ts, open, Holes(ts, open), true, []).value;
      SameExpect(ts, us, params, args.pos, RParen);
      BindFunction(name, args.value, params);
    } else {
      BindFunction(name, [], params);
    }
  }

  lemma {:induction false} BindsArgs(ts: seq<Token>, us: seq<Token>, params: seq<Expr>, pos: nat, acc: seq<Expr>, bound: seq<Expr>)
    requires Filled(ts, us, params) && pos <= |ts| && ArgList(ts, pos, Holes(ts, pos), true, acc).Ok?
    requires BindExprs(acc, params) == Ok(bound) && AllWhole(bound)
    ensures var p := ArgList(ts, pos, Holes(ts, pos), true, acc).value;
      && p.count == Holes(ts, p.pos)
      && BindExprs(p.value, params).Ok? && AllWhole(BindExprs(p.value, params).value)
      && ArgList(us, pos, 0, false, bound) == Ok(Parsed(BindExprs(p.value, params).value, p.pos, 0))
    decreases |ts| - pos, 3
  {
    hide Filled, Holes, ParseExpr, BindExpr, BindExprs, Whole;
    BindsExpr(ts, us, params, pos);
    var e := ParseExpr(ts, pos, Holes(ts, pos), true).value;
    var b := BindExpr(e.value, params).value;
    BindOneMore(acc, e.value, params);
    TokenAt(ts, us, params, e.pos);
    if Peek(ts, e.pos) == Some(Comma) {
      BindsArgs(ts, us, params, e.pos + 1, acc + [e.value], bound + [b]);
    }
  }

  // ---- INSERT ----

  lemma {:induction false} BindsValues(ts: seq<Token>, us: seq<Token>, params: seq<Expr>, pos: nat, acc: seq<Expr>, bound: seq<Expr>)
    requires Filled(ts, us, params) && pos <= |ts| && ValueList(ts, pos, Holes(ts, pos), true, acc).Ok?
    requires BindExprs(acc, params) == Ok(bound) && AllWhole(bound)
    ensures var p := ValueList(ts, pos, Holes(ts, pos), true, acc).value;
      && p.count == Holes(ts, p.pos)
      && BindExprs(p.value, params).Ok? && AllWhole(BindExprs(p.value, params).value)
      && ValueList(us, pos, 0, false, bound) == Ok(Parsed(BindExprs(p.value, params).value, p.pos, 0))
    decreases |ts| - pos
  {
    hide Filled, Holes, ParseExpr, BindExpr, BindExprs, Whole;
    BindsExpr(ts, us, params, pos);
    var e := ParseExpr(ts, pos, Holes(ts, pos), true).value;
    var b := BindExpr(e.value, params).value;
    BindOneMore(acc, e.value, params);
    TokenAt(ts, us, params, e.pos);
    if Peek(ts, e.pos) == Some(Comma) {
      BindsValues(ts, us, params, e.pos + 1, acc + [e.value], bound + [b]);
    }
  }

  lemma BindOneMoreRow(rows: seq<seq<Expr>>, row: seq<Expr>, params: seq<Expr>)
    requires BindRows(rows, params).Ok? && BindExprs(row, params).Ok?
    ensures BindRows(rows + [row], params) == Ok(BindRows(rows, params).value + [BindExprs(row, params).value])
  {
    hide BindExprs;
    assert (rows + [row])[..|rows|] == rows;
  }

  predicate AllRowsWhole(rows: seq<seq<Expr>>) {
    forall i :: 0 <= i < |rows| ==> AllWhole(rows[i])
  }

  lemma {:induction false} BindsRows(ts: seq<Token>, us: seq<Token>, params: seq<Expr>, pos: nat,
                                     acc: seq<seq<Expr>>, bound: seq<seq<Expr>>)
    requires Filled(ts, us, params) && pos <= |ts| && RowList(ts, pos, Holes(ts, pos), true, acc).Ok?
    requires BindRows(acc, params) == Ok(bound) && AllRowsWhole(bound)
    ensures var p := RowList(ts, pos, Holes(ts, pos), true, acc).value;
      && p.count == Holes(ts, p.pos)
      && BindRows(p.value, params).Ok? && AllRowsWhole(BindRows(p.value, params).value)
      && RowList(us, pos, 0, false, bound) == Ok(Parsed(BindRows(p.value, params).value, p.pos, 0))
    decreases |ts| - pos
  {
    hide Filled, Holes, ValueList, BindExprs, BindRows, AllWhole;
    SameExpect(ts, us, params, pos, LParen);
    NoValues(params);
    BindsValues(ts, us, params, pos + 1, [], []);
    var row := ValueList(ts, pos + 1, Holes(ts, pos + 1), true, []).value;
    BindOneMoreRow(acc, row.value, params);
    TokenAt(ts, us, params, row.pos);
    if Peek(ts, row.pos) == Some(Comma) {
      BindsRows(ts, us, params, row.pos + 1, acc + [row.value], bound + [BindExprs(row.value, params).value]);
    }
  }

  lemma NoValues(params: seq<Expr>)
    ensures BindExprs([], params) == Ok([]) && AllWhole([])
    ensures BindRows([], params) == Ok([]) && AllRowsWhole([])
    ensures BindItems([], params) == Ok([]) && AllItemsWhole([])
  {}

  lemma NoHolesYet(ts: seq<Token>)
    ensures Holes(ts, 0) == 0
  {}

  lemma BindsInsert(ts: seq<Token>, us: seq<Token>, params: seq<Expr>)
    requires Filled(ts, us, params) && ParseInsert(ts, 0, 0, true).Ok?
    ensures var p := ParseInsert(ts, 0, 0, true).value;
      && p.count == Holes(ts, |ts|)
      && BindStatement(p.value, params).Ok? && WholeStatement(BindStatement(p.value, params).value)
      && ParseInsert(us, 0, 0, false) == Ok(Parsed(BindStatement(p.value, params).value, |ts|, 0))
  {
    hide Filled, Holes, Expect, QualifiedIdent, OptionalColumns, RowList, AtEnd, BindRows, AllWhole;
    NoHolesYet(ts);
    SameExpect(ts, us, params, 0, Keyword(KInsert));
    SameExpect(ts, us, params, 1, Keyword(KInto));
    SameQualified(ts, us, params, 2);
    var table := QualifiedIdent(ts, 2).value;
    SameColumns(ts, us, params, table.pos);
    var columns := OptionalColumns(ts, table.pos).value;
    SameExpect(ts, us, params, columns.pos, Keyword(KValues));
    NoValues(params);
    BindsRows(ts, us, params, columns.pos + 1, [], []);
    SameEnd(ts, us, params, RowList(ts, columns.pos + 1, 0, true, []).value.pos);
  }

  // ---- SELECT ----

  predicate AllItemsWhole(items: seq<SelectItem>) {
    forall i :: 0 <= i < |items| ==> WholeItem(items[i])
  }

  lemma BindsItem(ts: seq<Token>, us: seq<Token>, params: seq<Expr>, pos: nat)
    requires Filled(ts, us, params) && pos <= |ts| && ParseItem(ts, pos, Holes(ts, pos), true).Ok?
    ensures var p := ParseItem(ts, pos, Holes(ts, pos), true).value;
      && p.count == Holes(ts, p.pos)
      && BindItem(p.value, params).Ok? && WholeItem(BindItem(p.value, params).value)
      && ParseItem(us, pos, 0, false) == Ok(Parsed(BindItem(p.value, params).value, p.pos, 0))
  {
    hide Filled, Holes, ParseExpr, OptionalAlias, BindExpr, Whole;
    TokenAt(ts, us, params, pos);
    if Peek(ts, pos) != Some(Star) {
      BindsExpr(ts, us, params, pos);
      var e := ParseExpr(ts, pos, Holes(ts, pos), true).value;
      SameAlias(ts, us, params, e.pos);
    }
  }

  lemma BindOneMoreItem(items: seq<SelectItem>, item: SelectItem, params: seq<Expr>)
    requires BindItems(items, params).Ok? && BindItem(item, params).Ok?
    ensures BindItems(items + [item], params) == Ok(BindItems(items, params).value + [BindItem(item, params).value])
  {
    hide BindItem;
    assert (items + [item])[..|items|] == items;
  }

  lemma {:induction false} BindsItems(ts: seq<Token>, us: seq<Token>, params: seq<Expr>, pos: nat,
                                      acc: seq<SelectItem>, bound: seq<SelectItem>)
    requires Filled(ts, us, params) && pos <= |ts| && ItemList(ts, pos, Holes(ts, pos), true, acc).Ok?
    requires BindItems(acc, params) == Ok(bound) && AllItemsWhole(bound)
    ensures var p := ItemList(ts, pos, Holes(ts, pos), true, acc).value;
      && p.count == Holes(ts, p.pos)
      && BindItems(p.value, params).Ok? && AllItemsWhole(BindItems(p.value, params).value)
      && ItemList(us, pos, 0, false, bound) == Ok(Parsed(BindItems(p.value, params).value, p.pos, 0))
    decreases |ts| - pos
  {
    hide Filled, Holes, ParseItem, BindItem, BindItems, WholeItem;
    BindsItem(ts, us, params, pos);
    var item := ParseItem(ts, pos, Holes(ts, pos), true).value;
    BindOneMoreItem(acc, item.value, params);
    TokenAt(ts, us, params, item.pos);
    if Peek(ts, item.pos) == Some(Comma) {
      BindsItems(ts, us, params, item.pos + 1, acc + [item.value], bound + [BindItem(item.value, params).value]);
    }
  }

  lemma BindsWhere(ts: seq<Token>, us: seq<Token>, params: seq<Expr>, pos: nat)
    requires Filled(ts, us, params) && pos <= |ts| && OptionalWhere(ts, pos, Holes(ts, pos), true).Ok?
    ensures |us| == |ts|
    ensures var p := OptionalWhere(ts, pos, Holes(ts, pos), true).value;
      && p.count == Holes(ts, p.pos) && BindWhere(p.value, params).Ok?
      && (p.value.Some? ==> Whole(BindWhere(p.value, params).value.value.value))
      && OptionalWhere(us, pos, 0, false) == Ok(Parsed(BindWhere(p.value, params).value, p.pos, 0))
  {
    hide Filled, Holes, ParseExpr, ParseColumnRef, BindExpr, Whole;
    TokenAt(ts, us, params, pos);
    if Peek(ts, pos) == Some(Keyword(KWhere)) {
      SameColumnRef(ts, us, params, pos + 1);
      var column := ParseColumnRef(ts, pos + 1).value;
      TokenAt(ts, us, params, column.pos);
      BindsExpr(ts, us, params, column.pos + 1);
    }
  }

  lemma BindsFrom(ts: seq<Token>, us: seq<Token>, params: seq<Expr>, pos: nat)
    requires Filled(ts, us, params) && pos <= |ts| && OptionalFrom(ts, pos, Holes(ts, pos), true).Ok?
    ensures |us| == |ts|
    ensures var p := OptionalFrom(ts, pos, Holes(ts, pos), true).value;
      && p.count == Holes(ts, p.pos) && BindWhere(p.value.selection, params).Ok?
      && (p.value.selection.Some? ==> Whole(BindWhere(p.value.selection, params).value.value.value))
      && OptionalFrom(us, pos, 0, false)
         == Ok(Parsed(Source(p.value.from, BindWhere(p.value.selection, params).value), p.pos, 0))
  {
    hide Filled, Holes, ParseFrom, OptionalWhere, Whole, BindExpr;
    TokenAt(ts, us, params, pos);
    if Peek(ts, pos) == Some(Keyword(KFrom)) {
      SameFrom(ts, us, params, pos + 1);
      BindsWhere(ts, us, params, ParseFrom(ts, pos + 1).value.pos);
    }
  }

  lemma BindsSelect(ts: seq<Token>, us: seq<Token>, params: seq<Expr>)
    requires Filled(ts, us, params) && ParseSelect(ts, 0, 0, true).Ok?
    ensures var p := ParseSelect(ts, 0, 0, true).value;
      && p.count == Holes(ts, |ts|)
      && BindStatement(p.value, params).Ok? && WholeStatement(BindStatement(p.value, params).value)
      && ParseSelect(us, 0, 0, false) == Ok(Parsed(BindStatement(p.value, params).value, |ts|, 0))
  {
    hide Filled, Holes, Expect, ItemList, OptionalFrom, ParseTail, AtEnd, BindItems, WholeItem, Whole, BindWhere;
    NoHolesYet(ts);
    SameExpect(ts, us, params, 0, Keyword(KSelect));
    NoValues(params);
    BindsItems(ts, us, params, 1, [], []);
    var items := ItemList(ts, 1, 0, true, []).value;
    BindsFrom(ts, us, params, items.pos);
    var source := OptionalFrom(ts, items.pos, items.count, true).value;
    SameTail(ts, us, params, source.pos);
    SameEnd(ts, us, params, ParseTail(ts, source.pos).value.pos);
    assert source.value.selection.Some? <==> BindWhere(source.value.selection, params).value.Some? by {
      WhereStays(source.value.selection, params);
    }
  }

  lemma WhereStays(where: Option<Condition>, params: seq<Expr>)
    requires BindWhere(where, params).Ok?
    ensures where.Some? <==> BindWhere(where, params).value.Some?
  {
    hide BindExpr;
  }

  // ---- the theorem ----

  lemma BindsStatement(ts: seq<Token>, us: seq<Token>, params: seq<Expr>)
    requires Filled(ts, us, params) && ParseStatement(ts, true).Ok?
    ensures var p := ParseStatement(ts, true).value;
      && p.count == Holes(ts, |ts|)
      && BindStatement(p.value, params).Ok? && WholeStatement(BindStatement(p.value, params).value)
      && ParseStatement(us, false) == Ok(Parsed(BindStatement(p.value, params).value, |ts|, 0))
  {
    hide Filled, Holes, ParseInsert, ParseSelect, BindStatement, WholeStatement;
    TokenAt(ts, us, params, 0);
    if Peek(ts, 0) == Some(Keyword(KInsert)) {
      BindsInsert(ts, us, params);
    } else {
      BindsSelect(ts, us, params);
    }
  }

  /** As many parameters are reported as there are `?` tokens. */
  lemma ParametersCounted(ts: seq<Token>)
    requires ParsePrepared(ts).Ok?
    ensures ParsePrepared(ts).value.1 == Holes(ts, |ts|)
  {
    hide Holes, ParseStatement;
    var params := seq(Holes(ts, |ts|), i => NullLiteral);
    BindsStatement(ts, Fill(ts, params), params);
  }

  /** For every INSERT or SELECT a client prepares: binding as many literals as were
      reported never fails, leaves no placeholder, and gives the statement that parsing
      the text with the literals written in would give. */
  lemma BindingIsSubstitution(ts: seq<Token>, params: seq<Expr>)
    requires ParsePrepared(ts).Ok? && |params| == ParsePrepared(ts).value.1 && AllLiterals(params)
    ensures Holes(ts, |ts|) == |params|
    ensures var bound := BindStatement(ParsePrepared(ts).value.0, params);
      bound.Ok? && WholeStatement(bound.value) && ParseText(Fill(ts, params)) == bound
  {
    hide Holes, ParseStatement, BindStatement, WholeStatement, AllLiterals;
    ParametersCounted(ts);
    BindsStatement(ts, Fill(ts, params), params);
  }
}
