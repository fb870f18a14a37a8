/** The parser as it runs: one object advancing a position over the tokens and counting
    placeholders, each method proved against the grammar. */
module Parsing {
  import opened Basics
  import opened Ast
  import opened Grammar
  import opened Readings

  /** A method's result and final position are those the grammar gives. */
  ghost predicate Follows<T(!new)>(spec: Result<At<T>>, r: Result<T>, pos: nat) {
    match spec
    case Ok(a) => r == Ok(a.value) && pos == a.pos
    case Err(e) => r == Err(e)
  }

  ghost predicate FollowsAll<T(!new)>(spec: Result<Parsed<T>>, r: Result<T>, pos: nat, count: nat) {
    match spec
    case Ok(p) => r == Ok(p.value) && pos == p.pos && count == p.count
    case Err(e) => r == Err(e)
  }

  class Parser {
    const tokens: seq<Token>
    const holes: bool
    var pos: nat
    var count: nat

    ghost predicate Valid()
      reads this
    {
      pos <= |tokens|
    }

    constructor (tokens: seq<Token>, holes: bool)
      ensures Valid() && this.tokens == tokens && this.holes == holes && pos == 0 && count == 0
    {
      this.tokens := tokens;
      this.holes := holes;
      pos := 0;
      count := 0;
    }

    method Advance() returns (t: Option<Token>)
      requires Valid()
      modifies this`pos
      ensures Valid() && t == Peek(tokens, old(pos)) && pos == if t.Some? then old(pos) + 1 else old(pos)
    {
      t := Peek(tokens, pos);
      if t.Some? {
        pos := pos + 1;
      }
    }

    method ExpectToken(t: Token) returns (r: Result<()>)
      requires Valid()
      modifies this`pos
      ensures Valid()
      ensures match Expect(tokens, old(pos), t)
        case Ok(p) => r == Ok(()) && pos == p
        case Err(e) => r == Err(e)
    {
      var found := Advance();
      r := if found == Some(t) then Ok(()) else Err(Parse);
    }

    method Identifier() returns (r: Result<Text>)
      requires Valid()
      modifies this`pos
      ensures Valid() && Follows(ExpectIdent(tokens, old(pos)), r, pos)
    {
      var found := Advance();
      r := if found.Some? && found.value.Ident? then Ok(found.value.ident) else Err(Parse);
    }

    method Qualified() returns (r: Result<Text>)
      requires Valid()
      modifies this`pos
      ensures Valid() && Follows(QualifiedIdent(tokens, old(pos)), r, pos)
    {
      var name :- Identifier();
      while Peek(tokens, pos) == Some(Dot)
        invariant Valid() && old(pos) < pos
        invariant QualifiedIdent(tokens, old(pos)) == MoreSegments(tokens, name, pos)
        decreases |tokens| - pos
      {
        pos := pos + 1;
        name :- Identifier();
      }
      r := Ok(name);
    }

    method FinishColumn(first: Text) returns (r: Result<ColumnRef>)
      requires Valid()
      modifies this`pos
      ensures Valid() && Follows(FinishColumnRef(tokens, first, old(pos)), r, pos)
    {
      if Peek(tokens, pos) != Some(Dot) {
        return Ok(ColumnRef(None, first));
      }
      pos := pos + 1;
      var column :- Identifier();
      r := Ok(ColumnRef(Some(first), column));
    }

    method ColumnReference() returns (r: Result<ColumnRef>)
      requires Valid()
      modifies this`pos
      ensures Valid() && Follows(ParseColumnRef(tokens, old(pos)), r, pos)
    {
      hide FinishColumnRef;
      var first :- Identifier();
      r := FinishColumn(first);
    }

    method Alias() returns (r: Result<Option<Text>>)
      requires Valid()
      modifies this`pos
      ensures Valid() && Follows(OptionalAlias(tokens, old(pos)), r, pos)
    {
      var next := Peek(tokens, pos);
      if next == Some(Keyword(KAs)) {
        pos := pos + 1;
        var name :- Identifier();
        return Ok(Some(name));
      }
      if next.Some? && next.value.Ident? {
        pos := pos + 1;
        return Ok(Some(next.value.ident));
      }
      r := Ok(None);
    }

    method TableReference() returns (r: Result<TableRef>)
      requires Valid()
      modifies this`pos
      ensures Valid() && Follows(ParseTableRef(tokens, old(pos)), r, pos)
    {
      hide QualifiedIdent, OptionalAlias;
      var name :- Qualified();
      var alias :- Alias();
      r := Ok(TableRef(name, alias));
    }

    /** The words before a joined table, if another join follows. */
    method JoinStart() returns (r: Result<Option<JoinType>>)
      requires Valid()
      modifies this`pos
      ensures Valid()
      ensures match JoinWords(tokens, old(pos))
        case Ok(Some(w)) => r == Ok(Some(w.value)) && pos == w.pos
        case Ok(None) => r == Ok(None) && pos == old(pos)
        case Err(e) => r == Err(e)
    {
      var next := Peek(tokens, pos);
      if next == Some(Keyword(KJoin)) {
        pos := pos + 1;
        return Ok(Some(Inner));
      }
      if next == Some(Keyword(KInner)) {
        pos := pos + 1;
        var _ :- ExpectToken(Keyword(KJoin));
        return Ok(Some(Inner));
      }
      if next == Some(Keyword(KLeft)) {
        pos := pos + 1;
        if Peek(tokens, pos) == Some(Keyword(KOuter)) {
          pos := pos + 1;
        }
        var _ :- ExpectToken(Keyword(KJoin));
        return Ok(Some(Left));
      }
      r := Ok(None);
    }

    method Join(kind: JoinType) returns (r: Result<JoinClause>)
      requires Valid()
      modifies this`pos
      ensures Valid() && Follows(ParseJoin(tokens, kind, old(pos)), r, pos)
    {
      hide ParseTableRef, ParseColumnRef;
      var table :- TableReference();
      var _ :- ExpectToken(Keyword(KOn));
      var left :- ColumnReference();
      var _ :- ExpectToken(EqSign);
      var right :- ColumnReference();
      r := Ok(JoinClause(kind, table, left, right));
    }

    method From() returns (r: Result<FromClause>)
      requires Valid()
      modifies this`pos
      ensures Valid() && Follows(ParseFrom(tokens, old(pos)), r, pos)
    {
      hide ParseTableRef, JoinWords, ParseJoin;
      var table :- TableReference();
      ghost var start := pos;
      var joins: seq<JoinClause> := [];
      var kind :- JoinStart();
      while kind.Some?
        invariant Valid()
        invariant kind.None? ==> Grammar.Joins(tokens, start, []) == Ok(At(joins, pos))
        invariant kind.Some? ==> Grammar.Joins(tokens, start, []) == AfterWords(kind.value, pos, joins)
        decreases if kind.Some? then |tokens| - pos + 1 else 0
      {
        var join :- Join(kind.value);
        joins := joins + [join];
        kind :- JoinStart();
      }
      r := Ok(FromClause(table, joins));
    }

    /** The grammar's list of joins from just after a join's introducing words. */
    ghost function AfterWords(kind: JoinType, pos: nat, acc: seq<JoinClause>): Result<At<seq<JoinClause>>> {
      var join :- ParseJoin(tokens, kind, pos);
      Grammar.Joins(tokens, join.pos, acc + [join.value])
    }

    method GroupBy() returns (r: Result<seq<ColumnRef>>)
      requires Valid()
      modifies this`pos
      ensures Valid() && Follows(OptionalGroupBy(tokens, old(pos)), r, pos)
    {
      hide ParseColumnRef;
      if Peek(tokens, pos) != Some(Keyword(KGroup)) {
        return Ok([]);
      }
      pos := pos + 1;
      var _ :- ExpectToken(Keyword(KBy));
      ghost var start := pos;
      var columns: seq<ColumnRef> := [];
      var more := true;
      while more
        invariant Valid()
        invariant more ==> ColumnList(tokens, start, []) == ColumnList(tokens, pos, columns)
        invariant !more ==> ColumnList(tokens, start, []) == Ok(At(columns, pos))
        decreases more, |tokens| - pos
      {
        var column :- ColumnReference();
        columns := columns + [column];
        more := Peek(tokens, pos) == Some(Comma);
        if more {
          pos := pos + 1;
        }
      }
      r := Ok(columns);
    }

    method OrderColumn() returns (r: Result<OrderByItem>)
      requires Valid()
      modifies this`pos
      ensures Valid() && Follows(OrderItem(tokens, old(pos)), r, pos)
    {
      hide ParseColumnRef, SameWord;
      var column :- ColumnReference();
      if PeekWord(tokens, pos, DESC_WORD) {
        pos := pos + 1;
        return Ok(OrderByItem(column, true));
      }
      if PeekWord(tokens, pos, ASC_WORD) {
        pos := pos + 1;
      }
      r := Ok(OrderByItem(column, false));
    }

    method OrderBy() returns (r: Result<seq<OrderByItem>>)
      requires Valid()
      modifies this`pos
      ensures Valid() && Follows(OptionalOrderBy(tokens, old(pos)), r, pos)
    {
      hide OrderItem;
      if Peek(tokens, pos) != Some(Keyword(KOrder)) {
        return Ok([]);
      }
      pos := pos + 1;
      var _ :- ExpectToken(Keyword(KBy));
      ghost var start := pos;
      var items: seq<OrderByItem> := [];
      var more := true;
      while more
        invariant Valid()
        invariant more ==> OrderList(tokens, start, []) == OrderList(tokens, pos, items)
        invariant !more ==> OrderList(tokens, start, []) == Ok(At(items, pos))
        decreases more, |tokens| - pos
      {
        var item :- OrderColumn();
        items := items + [item];
        more := Peek(tokens, pos) == Some(Comma);
        if more {
          pos := pos + 1;
        }
      }
      r := Ok(items);
    }

    method Unsigned() returns (r: Result<u64>)
      requires Valid()
      modifies this`pos
      ensures Valid() && Follows(ExpectUnsigned(tokens, old(pos)), r, pos)
    {
      var found := Advance();
      if found.Some? && found.value.IntegerToken? && found.value.n >= 0 {
        return Ok(found.value.n);
      }
      r := Err(Parse);
    }

    method Limit() returns (r: Result<(Option<u64>, Option<u64>)>)
      requires Valid()
      modifies this`pos
      ensures Valid() && Follows(OptionalLimit(tokens, old(pos)), r, pos)
    {
      hide SameWord;
      if Peek(tokens, pos) != Some(Keyword(KLimit)) {
        return Ok((None, None));
      }
      pos := pos + 1;
      var first :- Unsigned();
      if Peek(tokens, pos) == Some(Comma) {
        pos := pos + 1;
        var n :- Unsigned();
        return Ok((Some(n), Some(first)));
      }
      if PeekWord(tokens, pos, OFFSET_WORD) {
        pos := pos + 1;
        var offset :- Unsigned();
        return Ok((Some(first), Some(offset)));
      }
      r := Ok((Some(first), None));
    }

    method Operator() returns (r: Result<CompareOp>)
      requires Valid()
      modifies this`pos
      ensures Valid() && Follows(ParseOp(tokens, old(pos)), r, pos)
    {
      var found := Advance();
      match found
      case Some(EqSign) => r := Ok(Eq);
      case Some(NotEqSign) => r := Ok(NotEq);
      case Some(LtSign) => r := Ok(Lt);
      case Some(GtSign) => r := Ok(Gt);
      case Some(LeSign) => r := Ok(Le);
      case Some(GeSign) => r := Ok(Ge);
      case _ => r := Err(Parse);
    }

    // ---- expressions ----

    method Expression() returns (r: Result<Expr>)
      requires Valid()
      modifies this
      ensures Valid() && FollowsAll(ParseExpr(tokens, old(pos), old(count), holes), r, pos, count)
      decreases |tokens| - pos, 2
    {
      hide SameWord, FinishColumnRef, ParseCall;
      var token := Advance();
      if token.None? {
        return Err(Parse);
      }
      match token.value
      case IntegerToken(n) => r := Ok(Integer(n));
      case DecimalToken(u, s) => r := Ok(DecimalLiteral(u, s));
      case Str(s) => r := Ok(String(s));
      case SystemVariableToken(name) => r := Ok(SystemVariable(name));
      case Keyword(k) => r := if k == KNull then Ok(NullLiteral) else Err(Parse);
      case Ident(name) =>
        if SameWord(name, TRUE_WORD) {
          r := Ok(Integer(1));
        } else if SameWord(name, FALSE_WORD) {
          r := Ok(Integer(0));
        } else if Peek(tokens, pos) == Some(LParen) {
          r := Call(name);
        } else {
          var column :- FinishColumn(name);
          r := Ok(Column(column));
        }
      case Hole =>
        if holes {
          r := Ok(Placeholder(count));
          count := count + 1;
        } else {
          r := Err(Parse);
        }
      case _ => r := Err(Parse);
    }

    method Call(name: Text) returns (r: Result<Expr>)
      requires Valid()
      modifies this
      ensures Valid() && FollowsAll(ParseCall(tokens, name, old(pos), old(count), holes), r, pos, count)
      decreases |tokens| - pos, 1
    {
      hide SameWord, ParseExpr;
      var _ :- ExpectToken(LParen);
      if SameWord(name, COUNT_WORD) && Peek(tokens, pos) == Some(Star) {
        pos := pos + 1;
        var _ :- ExpectToken(RParen);
        return Ok(Function(name, []));
      }
      var args: seq<Expr> := [];
      ghost var start, counted := pos, count;
      var more := Peek(tokens, pos) != Some(RParen);
      ghost var some := more;
      while more
        invariant Valid() && old(pos) < pos && (!some ==> !more && args == [] && pos == start && count == counted)
        invariant more ==> ArgList(tokens, start, counted, holes, []) == ArgList(tokens, pos, count, holes, args)
        invariant some && !more ==> ArgList(tokens, start, counted, holes, []) == Ok(Parsed(args, pos, count))
        decreases more, |tokens| - pos
      {
        var arg :- Expression();
        args := args + [arg];
        more := Peek(tokens, pos) == Some(Comma);
        if more {
          pos := pos + 1;
        }
      }
      var _ :- ExpectToken(RParen);
      r := Ok(Function(name, args));
    }

    method Where() returns (r: Result<Option<Condition>>)
      requires Valid()
      modifies this
      ensures Valid() && FollowsAll(OptionalWhere(tokens, old(pos), old(count), holes), r, pos, count)
      ensures r.Ok? ==> ReadsWhere(tokens, old(pos), old(count), holes, r.value, pos, count)
    {
      hide ParseColumnRef, ParseOp, ParseExpr, ReadsWhere;
      if OptionalWhere(tokens, pos, count, holes).Ok? {
        WhereReads(tokens, pos, count, holes);
      }
      if Peek(tokens, pos) != Some(Keyword(KWhere)) {
        return Ok(None);
      }
      pos := pos + 1;
      var column :- ColumnReference();
      var op :- Operator();
      var value :- Expression();
      r := Ok(Some(Condition(column, op, value)));
    }

    // ---- INSERT ----

    method Columns() returns (r: Result<Option<seq<Text>>>)
      requires Valid()
      modifies this`pos
      ensures Valid() && Follows(OptionalColumns(tokens, old(pos)), r, pos)
    {
      if Peek(tokens, pos) != Some(LParen) {
        return Ok(None);
      }
      pos := pos + 1;
      ghost var start := pos;
      var columns: seq<Text> := [];
      var more := true;
      while more
        invariant Valid()
        invariant more ==> IdentList(tokens, start, []) == IdentList(tokens, pos, columns)
        invariant !more ==> IdentList(tokens, start, []) == Ok(At(columns, pos))
        decreases more, |tokens| - pos
      {
        var name :- Identifier();
        columns := columns + [name];
        var found := Advance();
        if found != Some(Comma) && found != Some(RParen) {
          return Err(Parse);
        }
        more := found == Some(Comma);
      }
      r := Ok(Some(columns));
    }

    method Values() returns (r: Result<seq<Expr>>)
      requires Valid()
      modifies this
      ensures Valid() && FollowsAll(ValueList(tokens, old(pos), old(count), holes, []), r, pos, count)
    {
      hide ParseExpr;
      var values: seq<Expr> := [];
      var more := true;
      while more
        invariant Valid()
        invariant more ==>
          ValueList(tokens, old(pos), old(count), holes, []) == ValueList(tokens, pos, count, holes, values)
        invariant !more ==> ValueList(tokens, old(pos), old(count), holes, []) == Ok(Parsed(values, pos, count))
        decreases more, |tokens| - pos
      {
        var value :- Expression();
        values := values + [value];
        var found := Advance();
        if found != Some(Comma) && found != Some(RParen) {
          return Err(Parse);
        }
        more := found == Some(Comma);
      }
      r := Ok(values);
    }

    method Rows() returns (r: Result<seq<seq<Expr>>>)
      requires Valid()
      modifies this
      ensures Valid() && FollowsAll(RowList(tokens, old(pos), old(count), holes, []), r, pos, count)
    {
      hide ValueList;
      var rows: seq<seq<Expr>> := [];
      var more := true;
      while more
        invariant Valid()
        invariant more ==> RowList(tokens, old(pos), old(count), holes, []) == RowList(tokens, pos, count, holes, rows)
        invariant !more ==> RowList(tokens, old(pos), old(count), holes, []) == Ok(Parsed(rows, pos, count))
        decreases more, |tokens| - pos
      {
        var _ :- ExpectToken(LParen);
        var row :- Values();
        rows := rows + [row];
        more := Peek(tokens, pos) == Some(Comma);
        if more {
          pos := pos + 1;
        }
      }
      r := Ok(rows);
    }

    /** `eat_semicolon_and_ensure_end`. */
    method EnsureEnd() returns (r: Result<()>)
      requires Valid()
      modifies this`pos
      ensures Valid() && (r.Ok? <==> AtEnd(tokens, old(pos))) && (r.Ok? ==> pos == |tokens|)
      ensures r.Err? ==> r.error == Parse
    {
      if Peek(tokens, pos) == Some(Semicolon) {
        pos := pos + 1;
      }
      r := if pos == |tokens| then Ok(()) else Err(Parse);
    }

    method InsertStatement() returns (r: Result<Statement>)
      requires Valid()
      modifies this
      ensures Valid() && FollowsAll(ParseInsert(tokens, old(pos), old(count), holes), r, pos, count)
    {
      hide QualifiedIdent, OptionalColumns, RowList, AtEnd, Expect, Peek;
      var _ :- ExpectToken(Keyword(KInsert));
      var _ :- ExpectToken(Keyword(KInto));
      var table :- Qualified();
      var columns :- Columns();
      var _ :- ExpectToken(Keyword(KValues));
      var rows :- Rows();
      var _ :- EnsureEnd();
      r := Ok(Insert(table, columns, rows));
    }

    // ---- SELECT ----

    method Projected() returns (r: Result<SelectItem>)
      requires Valid()
      modifies this
      ensures Valid() && FollowsAll(ParseItem(tokens, old(pos), old(count), holes), r, pos, count)
    {
      hide ParseExpr, OptionalAlias;
      if Peek(tokens, pos) == Some(Star) {
        pos := pos + 1;
        return Ok(Wildcard);
      }
      var e :- Expression();
      var alias :- Alias();
      r := Ok(Item(e, alias));
    }

    method Projection() returns (r: Result<seq<SelectItem>>)
      requires Valid()
      modifies this
      ensures Valid() && FollowsAll(ItemList(tokens, old(pos), old(count), holes, []), r, pos, count)
    {
      hide ParseItem;
      var items: seq<SelectItem> := [];
      var more := true;
      while more
        invariant Valid()
        invariant more ==> ItemList(tokens, old(pos), old(count), holes, []) == ItemList(tokens, pos, count, holes, items)
        invariant !more ==> ItemList(tokens, old(pos), old(count), holes, []) == Ok(Parsed(items, pos, count))
        decreases more, |tokens| - pos
      {
        var item :- Projected();
        items := items + [item];
        more := Peek(tokens, pos) == Some(Comma);
        if more {
          pos := pos + 1;
        }
      }
      r := Ok(items);
    }

    method SourceClause() returns (r: Result<Source>)
      requires Valid()
      modifies this
      ensures Valid() && FollowsAll(OptionalFrom(tokens, old(pos), old(count), holes), r, pos, count)
    {
      hide ParseFrom, OptionalWhere;
      if Peek(tokens, pos) != Some(Keyword(KFrom)) {
        return Ok(Source(None, None));
      }
      pos := pos + 1;
      var from :- From();
      var selection :- Where();
      r := Ok(Source(Some(from), selection));
    }

    method TailClauses() returns (r: Result<Tail>)
      requires Valid()
      modifies this`pos
      ensures Valid() && Follows(ParseTail(tokens, old(pos)), r, pos)
    {
      hide OptionalGroupBy, OptionalOrderBy, OptionalLimit;
      var groups :- GroupBy();
      var orders :- OrderBy();
      var limits :- Limit();
      r := Ok(Tail(groups, orders, limits.0, limits.1));
    }

    method SelectStatement() returns (r: Result<Statement>)
      requires Valid()
      modifies this
      ensures Valid() && FollowsAll(ParseSelect(tokens, old(pos), old(count), holes), r, pos, count)
    {
      hide ItemList, OptionalFrom, ParseTail, AtEnd;
      var _ :- ExpectToken(Keyword(KSelect));
      var items :- Projection();
      var source :- SourceClause();
      var tail :- TailClauses();
      var _ :- EnsureEnd();
      r := Ok(Select(items, source.from, source.selection, tail.groupBy, tail.orderBy, tail.limit, tail.offset));
    }
  }

  /** `parse_statement` over a whole token list, for INSERT and SELECT. */
  method ParseWhole(tokens: seq<Token>, holes: bool) returns (r: Result<Statement>, count: nat)
    ensures match ParseStatement(tokens, holes)
      case Ok(p) => r == Ok(p.value) && count == p.count
      case Err(e) => r == Err(e)
  {
    hide ParseInsert, ParseSelect;
    var parser := new Parser(tokens, holes);
    var first := Peek(tokens, 0);
    if first == Some(Keyword(KInsert)) {
      r := parser.InsertStatement();
    } else if first == Some(Keyword(KSelect)) {
      r := parser.SelectStatement();
    } else {
      r := Err(Parse);
    }
    count := parser.count;
  }

  /** `parse`: the statement exactly if the tokens are a spelling of it. */
  method ParseSql(tokens: seq<Token>) returns (r: Result<Statement>)
    ensures r == ParseText(tokens)
    ensures forall statement :: r == Ok(statement) <==> StandsFor(tokens, statement)
  {
    hide ParseStatement, StandsFor;
    var statement, _ := ParseWhole(tokens, false);
    r := statement;
    forall s: Statement
      ensures r == Ok(s) <==> StandsFor(tokens, s)
    {
      ParseExact(tokens, s);
    }
  }

  /** `parse_prepared`: the statement and its number of placeholders, exactly if the tokens
      are a spelling of it with that many. */
  method PrepareStatement(tokens: seq<Token>) returns (r: Result<(Statement, nat)>)
    ensures r == ParsePrepared(tokens)
    ensures forall statement, parameters: nat ::
      r == Ok((statement, parameters)) <==> StandsForPrepared(tokens, statement, parameters)
  {
    hide ParseStatement, StandsForPrepared;
    var statement, count := ParseWhole(tokens, true);
    r := if statement.Ok? then Ok((statement.value, count)) else Err(statement.error);
    forall s: Statement, n: nat
      ensures r == Ok((s, n)) <==> StandsForPrepared(tokens, s, n)
    {
      PrepareExact(tokens, s, n);
    }
  }
}
