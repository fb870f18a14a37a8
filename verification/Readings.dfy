/** Whatever the parser accepts is a spelling of the statement it returns. */
module Readings {
  import opened Basics
  import opened Ast
  import opened Grammar
  import opened Spelling
  import opened Language

  // ---- putting pieces together ----

  lemma HereJoin(ts: seq<Token>, pos: nat, a: seq<Token>, b: seq<Token>)
    requires Here(ts, pos, a) && Here(ts, pos + |a|, b)
    ensures Here(ts, pos, a + b)
  {
    assert ts[pos..pos + |a + b|] == ts[pos..pos + |a|] + ts[pos + |a|..pos + |a| + |b|];
  }

  lemma OneHere(ts: seq<Token>, pos: nat, t: Token)
    requires Peek(ts, pos) == Some(t)
    ensures Here(ts, pos, [t])
  {}

  lemma NoneHere(ts: seq<Token>, pos: nat)
    requires pos <= |ts|
    ensures Here(ts, pos, [])
  {}

  lemma CommasJoin(ts: seq<Token>, pos: nat, first: seq<Token>, pieces: seq<seq<Token>>)
    requires Here(ts, pos, first)
    requires pieces != [] ==> Peek(ts, pos + |first|) == Some(Comma) && Here(ts, pos + |first| + 1, Commas(pieces))
    ensures Here(ts, pos, Commas([first] + pieces))
    ensures |Commas([first] + pieces)| == |first| + if pieces == [] then 0 else 1 + |Commas(pieces)|
  {
    hide Here;
    var all := [first] + pieces;
    assert all[1..] == pieces;
    if pieces != [] {
      OneHere(ts, pos + |first|, Comma);
      HereJoin(ts, pos + |first|, [Comma], Commas(pieces));
      HereJoin(ts, pos, first, [Comma] + Commas(pieces));
    }
  }

  // ---- names, tables, joins ----

  lemma ColumnRead(ts: seq<Token>, pos: nat)
    requires ParseColumnRef(ts, pos).Ok?
    ensures var r := ParseColumnRef(ts, pos).value;
      Here(ts, pos, ColumnTokens(r.value)) && r.pos == pos + |ColumnTokens(r.value)|
  {}

  lemma {:induction false} NameRead(ts: seq<Token>, pos: nat) returns (schemas: seq<Text>)
    requires QualifiedIdent(ts, pos).Ok?
    ensures var r := QualifiedIdent(ts, pos).value;
      Here(ts, pos, NameTokens(schemas, r.value)) && r.pos == pos + |NameTokens(schemas, r.value)|
    decreases |ts| - pos
  {
    if Peek(ts, pos + 1) == Some(Dot) {
      var rest := NameRead(ts, pos + 2);
      schemas := [ts[pos].ident] + rest;
      assert schemas[1..] == rest;
      var name := QualifiedIdent(ts, pos).value.value;
      assert Here(ts, pos, [ts[pos], Dot]);
      HereJoin(ts, pos, [Ident(schemas[0]), Dot], NameTokens(rest, name));
    } else {
      schemas := [];
    }
  }

  lemma AliasRead(ts: seq<Token>, pos: nat) returns (a: AliasForm)
    requires pos <= |ts| && OptionalAlias(ts, pos).Ok?
    ensures var r := OptionalAlias(ts, pos).value;
      Here(ts, pos, AliasTokens(a)) && r.pos == pos + |AliasTokens(a)| && r.value == AliasMeaning(a)
  {
    if Peek(ts, pos) == Some(Keyword(KAs)) {
      a := AsAlias(ts[pos + 1].ident);
    } else if pos < |ts| && ts[pos].Ident? {
      a := BareAlias(ts[pos].ident);
    } else {
      a := NoAlias;
    }
  }

  lemma TableRead(ts: seq<Token>, pos: nat) returns (t: TableForm)
    requires ParseTableRef(ts, pos).Ok?
    ensures var r := ParseTableRef(ts, pos).value;
      Here(ts, pos, TableTokens(t)) && r.pos == pos + |TableTokens(t)| && r.value == TableMeaning(t)
  {
    hide Here, QualifiedIdent, OptionalAlias, NameTokens, AliasTokens, AliasMeaning;
    var schemas := NameRead(ts, pos);
    var name := QualifiedIdent(ts, pos).value;
    var alias := AliasRead(ts, name.pos);
    t := TableForm(schemas, name.value, alias);
    HereJoin(ts, pos, NameTokens(schemas, name.value), AliasTokens(alias));
  }

  lemma JoinWordsRead(ts: seq<Token>, pos: nat) returns (w: JoinWordsForm)
    requires JoinWords(ts, pos).Ok? && JoinWords(ts, pos).value.Some?
    ensures var r := JoinWords(ts, pos).value.value;
      Here(ts, pos, JoinWordTokens(w)) && r.pos == pos + |JoinWordTokens(w)| && r.value == JoinKind(w)
  {
    if Peek(ts, pos) == Some(Keyword(KJoin)) {
      w := PlainJoin;
    } else if Peek(ts, pos) == Some(Keyword(KInner)) {
      w := InnerJoin;
    } else if Peek(ts, pos + 1) == Some(Keyword(KOuter)) {
      w := LeftOuterJoin;
    } else {
      w := LeftJoin;
    }
  }

  lemma JoinRead(ts: seq<Token>, pos: nat) returns (j: JoinForm)
    requires JoinWords(ts, pos).Ok? && JoinWords(ts, pos).value.Some?
    requires var w := JoinWords(ts, pos).value.value; ParseJoin(ts, w.value, w.pos).Ok?
    ensures var w := JoinWords(ts, pos).value.value;
      var r := ParseJoin(ts, w.value, w.pos).value;
      Here(ts, pos, JoinTokens(j)) && r.pos == pos + |JoinTokens(j)| && r.value == JoinMeaning(j)
  {
    hide Here, JoinWords, ParseTableRef, ParseColumnRef, TableTokens, ColumnTokens, JoinWordTokens, JoinKind, TableMeaning;
    var words := JoinWordsRead(ts, pos);
    var w := JoinWords(ts, pos).value.value;
    var table := TableRead(ts, w.pos);
    var q := ParseTableRef(ts, w.pos).value.pos;
    ColumnRead(ts, q + 1);
    var left := ParseColumnRef(ts, q + 1).value;
    ColumnRead(ts, left.pos + 1);
    var right := ParseColumnRef(ts, left.pos + 1).value;
    j := JoinForm(words, table, left.value, right.value);
    OneHere(ts, q, Keyword(KOn));
    OneHere(ts, left.pos, EqSign);
    SixHere(ts, pos, JoinWordTokens(words), TableTokens(table), [Keyword(KOn)], ColumnTokens(left.value), [EqSign],
            ColumnTokens(right.value));
  }

  lemma SixHere(ts: seq<Token>, pos: nat, a: seq<Token>, b: seq<Token>, c: seq<Token>, d: seq<Token>, e: seq<Token>, f: seq<Token>)
    requires Here(ts, pos, a) && Here(ts, pos + |a|, b) && Here(ts, pos + |a| + |b|, c) && Here(ts, pos + |a| + |b| + |c|, d)
    requires Here(ts, pos + |a| + |b| + |c| + |d|, e) && Here(ts, pos + |a| + |b| + |c| + |d| + |e|, f)
    ensures Here(ts, pos, a + (b + (c + (d + (e + f)))))
    ensures |a + (b + (c + (d + (e + f))))| == |a| + |b| + |c| + |d| + |e| + |f|
  {
    hide Here;
    HereJoin(ts, pos + |a| + |b| + |c| + |d|, e, f);
    HereJoin(ts, pos + |a| + |b| + |c|, d, e + f);
    HereJoin(ts, pos + |a| + |b|, c, d + (e + f));
    HereJoin(ts, pos + |a|, b, c + (d + (e + f)));
    HereJoin(ts, pos, a, b + (c + (d + (e + f))));
  }

  lemma JoinsStep(ts: seq<Token>, pos: nat, acc: seq<JoinClause>)
    requires pos <= |ts| && Joins(ts, pos, acc).Ok?
    ensures JoinWords(ts, pos).Ok?
    ensures match JoinWords(ts, pos).value
      case None => Joins(ts, pos, acc) == Ok(At(acc, pos))
      case Some(w) =>
        && ParseJoin(ts, w.value, w.pos).Ok?
        && var join := ParseJoin(ts, w.value, w.pos).value;
        && pos < join.pos <= |ts| && Joins(ts, pos, acc) == Joins(ts, join.pos, acc + [join.value])
  {
    hide JoinWords, ParseJoin;
  }

  lemma OneMoreJoin(first: JoinForm, rest: seq<JoinForm>)
    ensures JoinsTokens([first] + rest) == JoinTokens(first) + JoinsTokens(rest)
    ensures JoinMeanings([first] + rest) == [JoinMeaning(first)] + JoinMeanings(rest)
  {
    hide JoinTokens, JoinMeaning;
    assert ([first] + rest)[1..] == rest;
  }

  lemma {:induction false} JoinsRead(ts: seq<Token>, pos: nat, acc: seq<JoinClause>) returns (js: seq<JoinForm>)
    requires pos <= |ts| && Joins(ts, pos, acc).Ok?
    ensures var r := Joins(ts, pos, acc).value;
      Here(ts, pos, JoinsTokens(js)) && r.pos == pos + |JoinsTokens(js)| && r.value == acc + JoinMeanings(js)
    decreases |ts| - pos
  {
    hide Here, JoinWords, ParseJoin, JoinTokens, JoinMeaning, Joins, JoinMeanings;
    JoinsStep(ts, pos, acc);
    var words := JoinWords(ts, pos).value;
    if words.None? {
      js := [];
      NoneHere(ts, pos);
      assert acc + JoinMeanings([]) == acc;
    } else {
      var first := JoinRead(ts, pos);
      var join := ParseJoin(ts, words.value.value, words.value.pos).value;
      var rest := JoinsRead(ts, join.pos, acc + [join.value]);
      js := [first] + rest;
      OneMoreJoin(first, rest);
      HereJoin(ts, pos, JoinTokens(first), JoinsTokens(rest));
      assert acc + [join.value] + JoinMeanings(rest) == acc + ([join.value] + JoinMeanings(rest));
    }
  }

  // ---- expressions ----

  /** The form stands at `pos`, is well written, and is what was parsed there. */
  ghost predicate Reads(ts: seq<Token>, pos: nat, count: nat, holes: bool, e: ExprForm, r: Parsed<Expr>) {
    && ExprOk(e, holes) && Here(ts, pos, ExprTokens(e)) && r.pos == pos + |ExprTokens(e)|
    && r.value == ExprMeaning(e, count) && r.count == count + ExprHoles(e)
  }

  lemma ColumnExprRead(ts: seq<Token>, pos: nat, count: nat, holes: bool) returns (e: ExprForm)
    requires pos < |ts| && ts[pos].Ident? && PlainName(ts[pos].ident) && Peek(ts, pos + 1) != Some(LParen)
    requires ParseExpr(ts, pos, count, holes).Ok?
    ensures Reads(ts, pos, count, holes, e, ParseExpr(ts, pos, count, holes).value)
  {
    hide SameWord, ParseCall, FinishColumnRef, Here, ColumnTokens, ParseColumnRef, FirstName;
    AsColumn(ts, pos);
    e := ColumnForm(FinishColumnRef(ts, ts[pos].ident, pos + 1).value.value);
    ColumnRead(ts, pos);
  }

  lemma AsColumn(ts: seq<Token>, pos: nat)
    requires pos < |ts| && ts[pos].Ident?
    ensures ParseColumnRef(ts, pos) == FinishColumnRef(ts, ts[pos].ident, pos + 1)
    ensures ParseColumnRef(ts, pos).Ok? ==>
      FirstName(ParseColumnRef(ts, pos).value.value) == ts[pos].ident
  {}

  /** Everything but calls and columns is a single token. */
  lemma TokenRead(ts: seq<Token>, pos: nat, count: nat, holes: bool) returns (e: ExprForm)
    requires pos < |ts| && (ts[pos].Ident? ==> !PlainName(ts[pos].ident))
    requires ParseExpr(ts, pos, count, holes).Ok?
    ensures Reads(ts, pos, count, holes, e, ParseExpr(ts, pos, count, holes).value)
  {
    hide SameWord, ParseCall, FinishColumnRef, Here;
    OneHere(ts, pos, ts[pos]);
    match ts[pos]
    case IntegerToken(n) => e := IntForm(n);
    case DecimalToken(u, s) => e := DecimalForm(u, s);
    case Str(s) => e := TextForm(s);
    case SystemVariableToken(v) => e := VariableForm(v);
    case Keyword(k) => e := NullForm;
    case Ident(word) => e := if SameWord(word, TRUE_WORD) then TrueForm(word) else FalseForm(word);
    case _ => e := HoleForm;
  }

  lemma ExprStarts(ts: seq<Token>, pos: nat, count: nat, holes: bool)
    requires ParseExpr(ts, pos, count, holes).Ok?
    ensures pos < |ts|
  {}

  lemma {:induction false} ExprRead(ts: seq<Token>, pos: nat, count: nat, holes: bool) returns (e: ExprForm)
    requires ParseExpr(ts, pos, count, holes).Ok?
    ensures Reads(ts, pos, count, holes, e, ParseExpr(ts, pos, count, holes).value)
    decreases |ts| - pos, 2
  {
    hide ParseExpr, ParseCall, Reads, PlainName;
    ExprStarts(ts, pos, count, holes);
    if !ts[pos].Ident? || !PlainName(ts[pos].ident) {
      e := TokenRead(ts, pos, count, holes);
    } else if Peek(ts, pos + 1) != Some(LParen) {
      e := ColumnExprRead(ts, pos, count, holes);
    } else {
      CallStep(ts, pos, count, holes, ts[pos].ident);
      e := CallRead(ts, pos, count, holes);
    }
  }

  /** A call whose name stands at `pos`. */
  lemma {:induction false} CallRead(ts: seq<Token>, pos: nat, count: nat, holes: bool) returns (e: ExprForm)
    requires pos < |ts| && ts[pos].Ident? && PlainName(ts[pos].ident)
    requires ParseCall(ts, ts[pos].ident, pos + 1, count, holes).Ok?
    ensures Reads(ts, pos, count, holes, e, ParseCall(ts, ts[pos].ident, pos + 1, count, holes).value)
    decreases |ts| - pos, 1
  {
    hide ArgList, SameWord, Reads, PlainName;
    var name := ts[pos].ident;
    if SameWord(name, COUNT_WORD) && Peek(ts, pos + 2) == Some(Star) {
      e := CountStarForm(name);
      StarReads(ts, pos, count, holes);
    } else if Peek(ts, pos + 2) == Some(RParen) {
      e := CallForm(name, []);
      EmptyReads(ts, pos, count, holes);
    } else {
      var args := ArgsRead(ts, pos + 2, count, holes, []);
      e := CallForm(name, args);
      ArgsReads(ts, pos, count, holes, args, ArgList(ts, pos + 2, count, holes, []).value);
    }
  }

  lemma StarReads(ts: seq<Token>, pos: nat, count: nat, holes: bool)
    requires pos < |ts| && ts[pos].Ident? && SameWord(ts[pos].ident, COUNT_WORD)
    requires Peek(ts, pos + 1) == Some(LParen) && Peek(ts, pos + 2) == Some(Star) && Peek(ts, pos + 3) == Some(RParen)
    ensures Reads(ts, pos, count, holes, CountStarForm(ts[pos].ident), Parsed(Function(ts[pos].ident, []), pos + 4, count))
  {
    hide SameWord;
    assert ts[pos..pos + 4] == [ts[pos], LParen, Star, RParen];
  }

  lemma EmptyReads(ts: seq<Token>, pos: nat, count: nat, holes: bool)
    requires pos < |ts| && ts[pos].Ident? && PlainName(ts[pos].ident)
    requires Peek(ts, pos + 1) == Some(LParen) && Peek(ts, pos + 2) == Some(RParen)
    ensures Reads(ts, pos, count, holes, CallForm(ts[pos].ident, []), Parsed(Function(ts[pos].ident, []), pos + 3, count))
  {
    hide SameWord;
    var e := CallForm(ts[pos].ident, []);
    NoPieces([], count);
    CallTokens(e, count);
    assert ExprsOk([], holes);
    assert ExprTokens(e) == [ts[pos], LParen, RParen];
    assert ts[pos..pos + 3] == [ts[pos], LParen, RParen];
  }

  /** Forms separated by commas, as they were parsed. */
  ghost predicate ReadsAll(ts: seq<Token>, pos: nat, count: nat, holes: bool, es: seq<ExprForm>, value: seq<Expr>, next: nat,
                           counted: nat)
  {
    && es != [] && ExprsOk(es, holes) && Here(ts, pos, Commas(ExprPieces(es))) && next == pos + |Commas(ExprPieces(es))|
    && value == ExprMeanings(es, count) && counted == count + HolesIn(es)
  }

  lemma ArgsReads(ts: seq<Token>, pos: nat, count: nat, holes: bool, args: seq<ExprForm>, r: Parsed<seq<Expr>>)
    requires pos < |ts| && ts[pos].Ident? && PlainName(ts[pos].ident)
    requires Peek(ts, pos + 1) == Some(LParen) && Peek(ts, r.pos) == Some(RParen)
    requires ReadsAll(ts, pos + 2, count, holes, args, r.value, r.pos, r.count)
    ensures Reads(ts, pos, count, holes, CallForm(ts[pos].ident, args), Parsed(Function(ts[pos].ident, r.value), r.pos + 1, r.count))
  {
    hide Here, Commas, ExprPieces, ExprMeanings, HolesIn, ExprsOk, SameWord;
    var name := ts[pos].ident;
    CallTokens(CallForm(name, args), count);
    OneHere(ts, pos, Ident(name));
    OneHere(ts, pos + 1, LParen);
    OneHere(ts, r.pos, RParen);
    var inner := Commas(ExprPieces(args));
    HereJoin(ts, pos + 2, inner, [RParen]);
    HereJoin(ts, pos + 1, [LParen], inner + [RParen]);
    HereJoin(ts, pos, [Ident(name)], [LParen] + (inner + [RParen]));
  }

  /** One more in front. */
  lemma ReadsMore(ts: seq<Token>, pos: nat, count: nat, holes: bool, e: ExprForm, r: Parsed<Expr>, es: seq<ExprForm>,
                  value: seq<Expr>, next: nat, counted: nat)
    requires Reads(ts, pos, count, holes, e, r)
    requires es != [] ==> Peek(ts, r.pos) == Some(Comma) && ReadsAll(ts, r.pos + 1, r.count, holes, es, value, next, counted)
    requires es == [] ==> value == [] && next == r.pos && counted == r.count
    ensures ReadsAll(ts, pos, count, holes, [e] + es, [r.value] + value, next, counted)
  {
    hide Here, Commas, ExprTokens, ExprMeaning, ExprMeanings, ExprHoles, HolesIn, ExprOk;
    var all := [e] + es;
    assert all[1..] == es;
    FirstMeaning(all, count);
    assert ExprPieces(all) == [ExprTokens(e)] + ExprPieces(es);
    CommasJoin(ts, pos, ExprTokens(e), ExprPieces(es));
  }

  lemma {:induction false} ArgsRead(ts: seq<Token>, pos: nat, count: nat, holes: bool, acc: seq<Expr>) returns (es: seq<ExprForm>)
    requires ArgList(ts, pos, count, holes, acc).Ok?
    ensures var r := ArgList(ts, pos, count, holes, acc).value;
      && es != [] && acc <= r.value && ReadsAll(ts, pos, count, holes, es, r.value[|acc|..], r.pos, r.count)
    decreases |ts| - pos, 3
  {
    hide ParseExpr, ArgList, Reads, ReadsAll;
    ArgFirst(ts, pos, count, holes, acc);
    var e := ExprRead(ts, pos, count, holes);
    var first := ParseExpr(ts, pos, count, holes).value;
    ArgStep(ts, pos, count, holes, acc, first.value, first.pos, first.count);
    var r := ArgList(ts, pos, count, holes, acc).value;
    if Peek(ts, first.pos) == Some(Comma) {
      var rest := ArgsRead(ts, first.pos + 1, first.count, holes, acc + [first.value]);
      es := [e] + rest;
      assert r.value[|acc|..] == [first.value] + r.value[|acc| + 1..];
      ReadsMore(ts, pos, count, holes, e, first, rest, r.value[|acc| + 1..], r.pos, r.count);
    } else {
      es := [e];
      assert r.value[|acc|..] == [first.value] + [];
      assert [e] + [] == [e];
      ReadsMore(ts, pos, count, holes, e, first, [], [], first.pos, first.count);
    }
  }

  lemma ArgFirst(ts: seq<Token>, pos: nat, count: nat, holes: bool, acc: seq<Expr>)
    requires ArgList(ts, pos, count, holes, acc).Ok?
    ensures ParseExpr(ts, pos, count, holes).Ok?
  {
    hide ParseExpr;
  }

  // ---- WHERE and FROM ----

  lemma OpRead(ts: seq<Token>, pos: nat)
    requires ParseOp(ts, pos).Ok?
    ensures Peek(ts, pos) == Some(OpToken(ParseOp(ts, pos).value.value)) && ParseOp(ts, pos).value.pos == pos + 1
  {}

  lemma ConditionRead(ts: seq<Token>, pos: nat, count: nat, holes: bool) returns (c: ConditionForm)
    requires ParseCondition(ts, pos, count, holes).Ok?
    ensures var r := ParseCondition(ts, pos, count, holes).value;
      && ExprOk(c.value, holes) && Here(ts, pos, ConditionTokens(c)) && r.pos == pos + |ConditionTokens(c)|
      && r.value == ConditionMeaning(c, count) && r.count == count + ExprHoles(c.value)
  {
    hide Here, ColumnTokens, ExprTokens, OpToken, ParseColumnRef, ParseOp, ParseExpr, ExprMeaning, ExprHoles, ExprOk;
    ColumnRead(ts, pos);
    var column := ParseColumnRef(ts, pos).value;
    OpRead(ts, column.pos);
    var op := ParseOp(ts, column.pos).value;
    var e := ExprRead(ts, op.pos, count, holes);
    c := ConditionForm(column.value, op.value, e);
    OneHere(ts, column.pos, OpToken(op.value));
    HereJoin(ts, column.pos, [OpToken(op.value)], ExprTokens(e));
    HereJoin(ts, pos, ColumnTokens(column.value), [OpToken(op.value)] + ExprTokens(e));
  }

  lemma WhereRead(ts: seq<Token>, pos: nat, count: nat, holes: bool) returns (w: Option<ConditionForm>)
    requires pos <= |ts| && OptionalWhere(ts, pos, count, holes).Ok?
    ensures var r := OptionalWhere(ts, pos, count, holes).value;
      && (w.Some? ==> ExprOk(w.value.value, holes)) && Here(ts, pos, WhereTokens(w)) && r.pos == pos + |WhereTokens(w)|
      && r.value == (match w case Some(c) => Some(ConditionMeaning(c, count)) case None => None)
      && r.count == count + match w case Some(c) => ExprHoles(c.value) case None => 0
  {
    hide Here, ConditionTokens, ParseCondition, ConditionMeaning, ExprHoles, ExprOk;
    if Peek(ts, pos) == Some(Keyword(KWhere)) {
      var c := ConditionRead(ts, pos + 1, count, holes);
      w := Some(c);
      OneHere(ts, pos, Keyword(KWhere));
      HereJoin(ts, pos, [Keyword(KWhere)], ConditionTokens(c));
    } else {
      w := None;
      NoneHere(ts, pos);
    }
  }

  /** From `pos` to `next` stands no WHERE, or one with exactly this condition. */
  ghost predicate ReadsWhere(ts: seq<Token>, pos: nat, count: nat, holes: bool, selection: Option<Condition>, next: nat,
                             counted: nat)
  {
    exists w: Option<ConditionForm> ::
      && (w.Some? ==> ExprOk(w.value.value, holes)) && Here(ts, pos, WhereTokens(w)) && next == pos + |WhereTokens(w)|
      && selection == (match w case Some(c) => Some(ConditionMeaning(c, count)) case None => None)
      && counted == count + match w case Some(c) => ExprHoles(c.value) case None => 0
  }

  lemma WhereReads(ts: seq<Token>, pos: nat, count: nat, holes: bool)
    requires pos <= |ts| && OptionalWhere(ts, pos, count, holes).Ok?
    ensures var r := OptionalWhere(ts, pos, count, holes).value;
      ReadsWhere(ts, pos, count, holes, r.value, r.pos, r.count)
  {
    hide Here, WhereTokens, OptionalWhere, ConditionMeaning, ExprHoles, ExprOk;
    var w := WhereRead(ts, pos, count, holes);
  }

  lemma FromRead(ts: seq<Token>, pos: nat) returns (t: TableForm, js: seq<JoinForm>)
    requires ParseFrom(ts, pos).Ok?
    ensures var r := ParseFrom(ts, pos).value;
      && Here(ts, pos, TableTokens(t) + JoinsTokens(js)) && r.pos == pos + |TableTokens(t) + JoinsTokens(js)|
      && r.value == FromClause(TableMeaning(t), JoinMeanings(js))
  {
    hide Here, TableTokens, JoinsTokens, TableMeaning, ParseTableRef, Joins, JoinMeanings;
    t := TableRead(ts, pos);
    var p := ParseTableRef(ts, pos).value.pos;
    js := JoinsRead(ts, p, []);
    assert [] + JoinMeanings(js) == JoinMeanings(js);
    HereJoin(ts, pos, TableTokens(t), JoinsTokens(js));
  }

  lemma SourceRead(ts: seq<Token>, pos: nat, count: nat, holes: bool) returns (s: SourceForm)
    requires pos <= |ts| && OptionalFrom(ts, pos, count, holes).Ok?
    ensures var r := OptionalFrom(ts, pos, count, holes).value;
      && SourceOk(s, holes) && Here(ts, pos, SourceTokens(s)) && r.pos == pos + |SourceTokens(s)|
      && r.value == SourceMeaning(s, count) && r.count == count + SourceHoles(s)
  {
    hide Here, TableTokens, JoinsTokens, WhereTokens, TableMeaning, JoinMeanings, ConditionMeaning, ParseFrom, OptionalWhere,
         ExprHoles, ExprOk;
    if Peek(ts, pos) == Some(Keyword(KFrom)) {
      var t, js := FromRead(ts, pos + 1);
      var p := ParseFrom(ts, pos + 1).value.pos;
      var w := WhereRead(ts, p, count, holes);
      s := FromForm(t, js, w);
      var from := TableTokens(t) + JoinsTokens(js);
      OneHere(ts, pos, Keyword(KFrom));
      HereJoin(ts, pos + 1, from, WhereTokens(w));
      HereJoin(ts, pos, [Keyword(KFrom)], from + WhereTokens(w));
    } else {
      s := NoFrom;
      NoneHere(ts, pos);
    }
  }

  // ---- GROUP BY, ORDER BY, LIMIT ----

  lemma {:induction false} ColumnsRead(ts: seq<Token>, pos: nat, acc: seq<ColumnRef>)
    requires ColumnList(ts, pos, acc).Ok?
    ensures var r := ColumnList(ts, pos, acc).value;
      && acc < r.value && var cols := r.value[|acc|..];
      && Here(ts, pos, Commas(ColumnPieces(cols))) && r.pos == pos + |Commas(ColumnPieces(cols))|
    decreases |ts| - pos
  {
    hide Here, ColumnTokens, ParseColumnRef, Commas;
    ColumnRead(ts, pos);
    var first := ParseColumnRef(ts, pos).value;
    var r := ColumnList(ts, pos, acc).value;
    if Peek(ts, first.pos) == Some(Comma) {
      ColumnsRead(ts, first.pos + 1, acc + [first.value]);
      var rest := r.value[|acc| + 1..];
      assert r.value[|acc|..] == [first.value] + rest;
      assert ColumnPieces([first.value] + rest) == [ColumnTokens(first.value)] + ColumnPieces(rest);
      CommasJoin(ts, pos, ColumnTokens(first.value), ColumnPieces(rest));
    } else {
      assert r.value[|acc|..] == [first.value];
      assert ColumnPieces([first.value]) == [ColumnTokens(first.value)] + [];
      CommasJoin(ts, pos, ColumnTokens(first.value), []);
    }
  }

  lemma GroupRead(ts: seq<Token>, pos: nat)
    requires pos <= |ts| && OptionalGroupBy(ts, pos).Ok?
    ensures var r := OptionalGroupBy(ts, pos).value;
      Here(ts, pos, GroupTokens(r.value)) && r.pos == pos + |GroupTokens(r.value)|
  {
    hide Here, Commas, ColumnPieces, ColumnList;
    var r := OptionalGroupBy(ts, pos).value;
    if Peek(ts, pos) == Some(Keyword(KGroup)) {
      ColumnsRead(ts, pos + 2, []);
      assert r.value[0..] == r.value;
      PairHere(ts, pos, Keyword(KGroup), Keyword(KBy));
      HereJoin(ts, pos, [Keyword(KGroup), Keyword(KBy)], Commas(ColumnPieces(r.value)));
    } else {
      NoneHere(ts, pos);
    }
  }

  lemma PairHere(ts: seq<Token>, pos: nat, t: Token, u: Token)
    requires Peek(ts, pos) == Some(t) && Peek(ts, pos + 1) == Some(u)
    ensures Here(ts, pos, [t, u])
  {}

  lemma OrderItemRead(ts: seq<Token>, pos: nat) returns (o: OrderForm)
    requires OrderItem(ts, pos).Ok?
    ensures var r := OrderItem(ts, pos).value;
      OrderOk(o) && Here(ts, pos, OrderTokens(o)) && r.pos == pos + |OrderTokens(o)| && r.value == OrderMeaning(o)
  {
    hide Here, ColumnTokens, ParseColumnRef, SameWord;
    ColumnRead(ts, pos);
    var col := ParseColumnRef(ts, pos).value;
    if PeekWord(ts, col.pos, DESC_WORD) {
      o := OrderForm(col.value, Descending(ts[col.pos].ident));
      OneHere(ts, col.pos, ts[col.pos]);
      HereJoin(ts, pos, ColumnTokens(col.value), [ts[col.pos]]);
    } else if PeekWord(ts, col.pos, ASC_WORD) {
      o := OrderForm(col.value, Ascending(ts[col.pos].ident));
      OneHere(ts, col.pos, ts[col.pos]);
      HereJoin(ts, pos, ColumnTokens(col.value), [ts[col.pos]]);
    } else {
      o := OrderForm(col.value, NoDirection);
      assert ColumnTokens(col.value) + [] == ColumnTokens(col.value);
    }
  }

  lemma OrderFirst(ts: seq<Token>, pos: nat, acc: seq<OrderByItem>)
    requires OrderList(ts, pos, acc).Ok?
    ensures OrderItem(ts, pos).Ok?
  {
    hide OrderItem;
  }

  lemma {:induction false} OrdersRead(ts: seq<Token>, pos: nat, acc: seq<OrderByItem>) returns (os: seq<OrderForm>)
    requires OrderList(ts, pos, acc).Ok?
    ensures var r := OrderList(ts, pos, acc).value;
      && os != [] && (forall i :: 0 <= i < |os| ==> OrderOk(os[i])) && r.value == acc + OrderMeanings(os)
      && Here(ts, pos, Commas(OrderPieces(os))) && r.pos == pos + |Commas(OrderPieces(os))|
    decreases |ts| - pos
  {
    hide Here, OrderTokens, OrderItem, OrderList, Commas, OrderMeaning, OrderOk;
    OrderFirst(ts, pos, acc);
    var o := OrderItemRead(ts, pos);
    var first := OrderItem(ts, pos).value;
    OrderStep(ts, pos, acc, first.value, first.pos);
    if Peek(ts, first.pos) == Some(Comma) {
      var rest := OrdersRead(ts, first.pos + 1, acc + [first.value]);
      os := [o] + rest;
      assert OrderPieces(os) == [OrderTokens(o)] + OrderPieces(rest);
      assert acc + [first.value] + OrderMeanings(rest) == acc + OrderMeanings(os);
      CommasJoin(ts, pos, OrderTokens(o), OrderPieces(rest));
    } else {
      os := [o];
      assert OrderPieces(os) == [OrderTokens(o)] + [];
      assert OrderMeanings(os) == [first.value];
      CommasJoin(ts, pos, OrderTokens(o), []);
    }
  }

  lemma OrderByRead(ts: seq<Token>, pos: nat) returns (os: seq<OrderForm>)
    requires pos <= |ts| && OptionalOrderBy(ts, pos).Ok?
    ensures var r := OptionalOrderBy(ts, pos).value;
      && (forall i :: 0 <= i < |os| ==> OrderOk(os[i])) && r.value == OrderMeanings(os)
      && Here(ts, pos, OrderByTokens(os)) && r.pos == pos + |OrderByTokens(os)|
  {
    hide Here, Commas, OrderPieces, OrderList, OrderMeaning, OrderOk;
    if Peek(ts, pos) == Some(Keyword(KOrder)) {
      os := OrdersRead(ts, pos + 2, []);
      assert [] + OrderMeanings(os) == OrderMeanings(os);
      PairHere(ts, pos, Keyword(KOrder), Keyword(KBy));
      HereJoin(ts, pos, [Keyword(KOrder), Keyword(KBy)], Commas(OrderPieces(os)));
    } else {
      os := [];
      NoneHere(ts, pos);
    }
  }

  lemma LimitRead(ts: seq<Token>, pos: nat) returns (l: LimitForm)
    requires pos <= |ts| && OptionalLimit(ts, pos).Ok?
    ensures var r := OptionalLimit(ts, pos).value;
      LimitOk(l) && Here(ts, pos, LimitTokens(l)) && r.pos == pos + |LimitTokens(l)| && r.value == LimitMeaning(l)
  {
    hide SameWord, Here;
    if Peek(ts, pos) != Some(Keyword(KLimit)) {
      l := NoLimit;
      NoneHere(ts, pos);
    } else if Peek(ts, pos + 2) == Some(Comma) {
      l := OffsetLimit(ts[pos + 1].n, ts[pos + 3].n);
      FourHere(ts, pos);
    } else if PeekWord(ts, pos + 2, OFFSET_WORD) {
      l := LimitOffset(ts[pos + 1].n, ts[pos + 2].ident, ts[pos + 3].n);
      FourHere(ts, pos);
    } else {
      l := LimitOnly(ts[pos + 1].n);
      PairHere(ts, pos, ts[pos], ts[pos + 1]);
    }
  }

  lemma FourHere(ts: seq<Token>, pos: nat)
    requires pos + 4 <= |ts|
    ensures Here(ts, pos, [ts[pos], ts[pos + 1], ts[pos + 2], ts[pos + 3]])
  {}

  lemma EndRead(ts: seq<Token>, pos: nat) returns (semicolon: bool)
    requires AtEnd(ts, pos)
    ensures Here(ts, pos, EndTokens(semicolon)) && pos + |EndTokens(semicolon)| == |ts|
  {
    semicolon := Peek(ts, pos) == Some(Semicolon);
  }

  lemma TailRead(ts: seq<Token>, pos: nat) returns (groupBy: seq<ColumnRef>, orderBy: seq<OrderForm>, limit: LimitForm, semicolon: bool)
    requires pos <= |ts| && ParseTail(ts, pos).Ok? && AtEnd(ts, ParseTail(ts, pos).value.pos)
    ensures (forall i :: 0 <= i < |orderBy| ==> OrderOk(orderBy[i])) && LimitOk(limit)
    ensures Here(ts, pos, TailTokens(groupBy, orderBy, limit, semicolon))
    ensures pos + |TailTokens(groupBy, orderBy, limit, semicolon)| == |ts|
    ensures ParseTail(ts, pos).value.value
         == Tail(groupBy, OrderMeanings(orderBy), LimitMeaning(limit).0, LimitMeaning(limit).1)
  {
    hide Here, GroupTokens, OrderByTokens, LimitTokens, EndTokens, OptionalGroupBy, OptionalOrderBy, OptionalLimit, OrderOk,
         LimitOk, LimitMeaning, OrderMeanings, AtEnd;
    GroupRead(ts, pos);
    var g := OptionalGroupBy(ts, pos).value;
    groupBy := g.value;
    orderBy := OrderByRead(ts, g.pos);
    var o := OptionalOrderBy(ts, g.pos).value;
    limit := LimitRead(ts, o.pos);
    var l := OptionalLimit(ts, o.pos).value;
    semicolon := EndRead(ts, l.pos);
    HereJoin(ts, o.pos, LimitTokens(limit), EndTokens(semicolon));
    HereJoin(ts, g.pos, OrderByTokens(orderBy), LimitTokens(limit) + EndTokens(semicolon));
    HereJoin(ts, pos, GroupTokens(groupBy), OrderByTokens(orderBy) + (LimitTokens(limit) + EndTokens(semicolon)));
  }

  // ---- SELECT ----

  lemma ItemRead(ts: seq<Token>, pos: nat, count: nat, holes: bool) returns (item: ItemForm)
    requires ParseItem(ts, pos, count, holes).Ok?
    ensures var r := ParseItem(ts, pos, count, holes).value;
      && ItemOk(item, holes) && Here(ts, pos, ItemTokens(item)) && r.pos == pos + |ItemTokens(item)|
      && r.value == ItemMeaning(item, count) && r.count == count + ItemHoles(item)
  {
    hide Here, ExprTokens, AliasTokens, ParseExpr, OptionalAlias, ExprMeaning, ExprHoles, ExprOk, AliasMeaning;
    if Peek(ts, pos) == Some(Star) {
      item := StarForm;
      OneHere(ts, pos, Star);
    } else {
      var e := ExprRead(ts, pos, count, holes);
      var p := ParseExpr(ts, pos, count, holes).value.pos;
      var alias := AliasRead(ts, p);
      item := ExprItem(e, alias);
      HereJoin(ts, pos, ExprTokens(e), AliasTokens(alias));
    }
  }

  lemma ItemFirst(ts: seq<Token>, pos: nat, count: nat, holes: bool, acc: seq<SelectItem>)
    requires ItemList(ts, pos, count, holes, acc).Ok?
    ensures ParseItem(ts, pos, count, holes).Ok?
  {
    hide ParseItem;
  }

  lemma {:induction false} ItemsRead(ts: seq<Token>, pos: nat, count: nat, holes: bool, acc: seq<SelectItem>)
    returns (items: seq<ItemForm>)
    requires ItemList(ts, pos, count, holes, acc).Ok?
    ensures var r := ItemList(ts, pos, count, holes, acc).value;
      && items != [] && (forall i :: 0 <= i < |items| ==> ItemOk(items[i], holes))
      && Here(ts, pos, Commas(ItemPieces(items))) && r.pos == pos + |Commas(ItemPieces(items))|
      && r.value == acc + ItemMeanings(items, count) && r.count == count + ItemsHoles(items)
    decreases |ts| - pos
  {
    hide Here, ItemTokens, ItemList, Commas, ItemMeaning, ItemMeanings, ItemHoles, ItemsHoles, ItemOk, ParseItem, ItemPieces;
    ItemFirst(ts, pos, count, holes, acc);
    var item := ItemRead(ts, pos, count, holes);
    var first := ParseItem(ts, pos, count, holes).value;
    ItemStep(ts, pos, count, holes, acc, first.value, first.pos, first.count);
    var rest := [];
    if Peek(ts, first.pos) == Some(Comma) {
      rest := ItemsRead(ts, first.pos + 1, first.count, holes, acc + [first.value]);
      assert acc + [first.value] + ItemMeanings(rest, first.count) == acc + ([first.value] + ItemMeanings(rest, first.count));
    }
    items := [item] + rest;
    FirstOfItems(item, rest, count);
    CommasJoin(ts, pos, ItemTokens(item), ItemPieces(rest));
  }

  lemma FirstOfItems(item: ItemForm, rest: seq<ItemForm>, count: nat)
    ensures var items := [item] + rest;
      && ItemPieces(items) == [ItemTokens(item)] + ItemPieces(rest)
      && ItemMeanings(items, count) == [ItemMeaning(item, count)] + ItemMeanings(rest, count + ItemHoles(item))
      && ItemsHoles(items) == ItemHoles(item) + ItemsHoles(rest)
    ensures |ItemPieces(rest)| == |rest|
    ensures rest == [] ==> ItemMeanings(rest, count + ItemHoles(item)) == [] && ItemsHoles(rest) == 0
  {
    hide ItemTokens, ItemMeaning, ItemHoles;
    var items := [item] + rest;
    assert items[1..] == rest;
    FirstItem(items, count);
  }

  lemma SelectParts(ts: seq<Token>, holes: bool)
    requires ParseSelect(ts, 0, 0, holes).Ok?
    ensures Peek(ts, 0) == Some(Keyword(KSelect)) && ItemList(ts, 1, 0, holes, []).Ok?
    ensures var items := ItemList(ts, 1, 0, holes, []).value;
      && items.pos <= |ts| && OptionalFrom(ts, items.pos, items.count, holes).Ok?
      && var source := OptionalFrom(ts, items.pos, items.count, holes).value;
      && source.pos <= |ts| && ParseTail(ts, source.pos).Ok? && AtEnd(ts, ParseTail(ts, source.pos).value.pos)
  {
    hide ItemList, OptionalFrom, ParseTail, AtEnd;
  }

  lemma SelectRead(ts: seq<Token>, holes: bool) returns (s: StatementForm)
    requires ParseSelect(ts, 0, 0, holes).Ok?
    ensures WellWritten(s, holes) && ts == Tokens(s)
    ensures ParseSelect(ts, 0, 0, holes) == Ok(Parsed(Meaning(s), |ts|, Parameters(s)))
  {
    hide *;
    SelectParts(ts, holes);
    var items := ItemsRead(ts, 1, 0, holes, []);
    var n1 := ItemList(ts, 1, 0, holes, []).value;
    var source := SourceRead(ts, n1.pos, n1.count, holes);
    var n2 := OptionalFrom(ts, n1.pos, n1.count, holes).value.pos;
    var groupBy, orderBy, limit, semicolon := TailRead(ts, n2);
    s := SelectForm(items, source, groupBy, orderBy, limit, semicolon);
    SelectWritten(ts, s, holes);
    SelectParses(ts, s, holes);
  }

  lemma SelectWritten(ts: seq<Token>, s: StatementForm, holes: bool)
    requires s.SelectForm? && Peek(ts, 0) == Some(Keyword(KSelect))
    requires var items, source := Commas(ItemPieces(s.items)), SourceTokens(s.source);
      var tail := TailTokens(s.groupBy, s.orderBy, s.limit, s.semicolon);
      && Here(ts, 1, items) && Here(ts, 1 + |items|, source)
      && Here(ts, 1 + |items| + |source|, tail) && 1 + |items| + |source| + |tail| == |ts|
    requires s.items != [] && (forall i :: 0 <= i < |s.items| ==> ItemOk(s.items[i], holes))
    requires SourceOk(s.source, holes) && (forall i :: 0 <= i < |s.orderBy| ==> OrderOk(s.orderBy[i])) && LimitOk(s.limit)
    ensures WellWritten(s, holes) && ts == Tokens(s)
  {
    hide Here, Commas, ItemPieces, SourceTokens, TailTokens, ItemOk, SourceOk, OrderOk, LimitOk;
    var items, source := Commas(ItemPieces(s.items)), SourceTokens(s.source);
    var tail := TailTokens(s.groupBy, s.orderBy, s.limit, s.semicolon);
    OneHere(ts, 0, Keyword(KSelect));
    HereJoin(ts, 1 + |items|, source, tail);
    HereJoin(ts, 1, items, source + tail);
    HereJoin(ts, 0, [Keyword(KSelect)], items + (source + tail));
    AllHere(ts, [Keyword(KSelect)] + (items + (source + tail)));
  }

  lemma AllHere(ts: seq<Token>, piece: seq<Token>)
    requires Here(ts, 0, piece) && |piece| == |ts|
    ensures ts == piece
  {}

  // ---- INSERT ----

  lemma IdentStep(ts: seq<Token>, pos: nat, acc: seq<Text>)
    requires IdentList(ts, pos, acc).Ok?
    ensures pos < |ts| && ts[pos].Ident?
    ensures var name := ts[pos].ident;
      if Peek(ts, pos + 1) == Some(Comma) then IdentList(ts, pos, acc) == IdentList(ts, pos + 2, acc + [name])
      else Peek(ts, pos + 1) == Some(RParen) && IdentList(ts, pos, acc) == Ok(At(acc + [name], pos + 2))
  {}

  lemma MoreIdents(name: Text, rest: seq<Text>)
    ensures IdentPieces([name] + rest) == [[Ident(name)]] + IdentPieces(rest)
  {}

  lemma {:induction false} IdentsRead(ts: seq<Token>, pos: nat, acc: seq<Text>) returns (names: seq<Text>)
    requires IdentList(ts, pos, acc).Ok?
    ensures var r := IdentList(ts, pos, acc).value;
      && names != [] && r.value == acc + names
      && Here(ts, pos, Commas(IdentPieces(names)) + [RParen]) && r.pos == pos + |Commas(IdentPieces(names))| + 1
    decreases |ts| - pos
  {
    hide Here, Commas, IdentList, IdentPieces;
    IdentStep(ts, pos, acc);
    var name, rest := ts[pos].ident, [];
    OneHere(ts, pos, Ident(name));
    if Peek(ts, pos + 1) == Some(Comma) {
      rest := IdentsRead(ts, pos + 2, acc + [name]);
      HereSplit(ts, pos + 2, Commas(IdentPieces(rest)), [RParen]);
    } else {
      OneHere(ts, pos + 1, RParen);
    }
    names := [name] + rest;
    assert acc + [name] + rest == acc + names;
    MoreIdents(name, rest);
    CommasJoin(ts, pos, [Ident(name)], IdentPieces(rest));
    HereJoin(ts, pos, Commas(IdentPieces(names)), [RParen]);
  }

  lemma ColumnListRead(ts: seq<Token>, pos: nat)
    requires pos <= |ts| && OptionalColumns(ts, pos).Ok?
    ensures var r := OptionalColumns(ts, pos).value;
      && (r.value.Some? ==> r.value.value != [])
      && Here(ts, pos, ColumnListTokens(r.value)) && r.pos == pos + |ColumnListTokens(r.value)|
  {
    hide Here, Commas, IdentPieces, IdentList;
    if Peek(ts, pos) == Some(LParen) {
      var names := IdentsRead(ts, pos + 1, []);
      assert [] + names == names;
      OneHere(ts, pos, LParen);
      HereJoin(ts, pos, [LParen], Commas(IdentPieces(names)) + [RParen]);
    } else {
      NoneHere(ts, pos);
    }
  }

  lemma ValueFirst(ts: seq<Token>, pos: nat, count: nat, holes: bool, acc: seq<Expr>)
    requires ValueList(ts, pos, count, holes, acc).Ok?
    ensures ParseExpr(ts, pos, count, holes).Ok?
    ensures var next := Peek(ts, ParseExpr(ts, pos, count, holes).value.pos); next == Some(Comma) || next == Some(RParen)
  {
    hide ParseExpr;
  }

  lemma {:induction false} ValuesRead(ts: seq<Token>, pos: nat, count: nat, holes: bool, acc: seq<Expr>) returns (es: seq<ExprForm>)
    requires ValueList(ts, pos, count, holes, acc).Ok?
    ensures var r := ValueList(ts, pos, count, holes, acc).value;
      && es != [] && acc <= r.value && r.pos > 0 && Peek(ts, r.pos - 1) == Some(RParen)
      && ReadsAll(ts, pos, count, holes, es, r.value[|acc|..], r.pos - 1, r.count)
    decreases |ts| - pos
  {
    hide ParseExpr, ValueList, Reads, ReadsAll;
    ValueFirst(ts, pos, count, holes, acc);
    var e := ExprRead(ts, pos, count, holes);
    var first := ParseExpr(ts, pos, count, holes).value;
    ValueStep(ts, pos, count, holes, acc, first.value, first.pos, first.count);
    var r := ValueList(ts, pos, count, holes, acc).value;
    if Peek(ts, first.pos) == Some(Comma) {
      var rest := ValuesRead(ts, first.pos + 1, first.count, holes, acc + [first.value]);
      es := [e] + rest;
      assert r.value[|acc|..] == [first.value] + r.value[|acc| + 1..];
      ReadsMore(ts, pos, count, holes, e, first, rest, r.value[|acc| + 1..], r.pos - 1, r.count);
    } else {
      es := [e];
      assert r.value[|acc|..] == [first.value] + [];
      assert [e] + [] == [e];
      ReadsMore(ts, pos, count, holes, e, first, [], [], first.pos, first.count);
    }
  }

  lemma RowRead(ts: seq<Token>, pos: nat, count: nat, holes: bool) returns (row: seq<ExprForm>)
    requires Peek(ts, pos) == Some(LParen) && ValueList(ts, pos + 1, count, holes, []).Ok?
    ensures var r := ValueList(ts, pos + 1, count, holes, []).value;
      && row != [] && ExprsOk(row, holes) && Here(ts, pos, RowTokens(row)) && r.pos == pos + |RowTokens(row)|
      && r.value == ExprMeanings(row, count) && r.count == count + HolesIn(row)
  {
    hide Here, Commas, ExprPieces, ValueList, ExprMeanings, HolesIn, ExprsOk;
    row := ValuesRead(ts, pos + 1, count, holes, []);
    var r := ValueList(ts, pos + 1, count, holes, []).value;
    assert r.value[0..] == r.value;
    var inner := Commas(ExprPieces(row));
    OneHere(ts, pos, LParen);
    OneHere(ts, r.pos - 1, RParen);
    HereJoin(ts, pos + 1, inner, [RParen]);
    HereJoin(ts, pos, [LParen], inner + [RParen]);
  }

  lemma RowFirst(ts: seq<Token>, pos: nat, count: nat, holes: bool, acc: seq<seq<Expr>>)
    requires RowList(ts, pos, count, holes, acc).Ok?
    ensures Peek(ts, pos) == Some(LParen) && ValueList(ts, pos + 1, count, holes, []).Ok?
  {
    hide ValueList;
  }

  lemma {:induction false} RowsRead(ts: seq<Token>, pos: nat, count: nat, holes: bool, acc: seq<seq<Expr>>)
    returns (rows: seq<seq<ExprForm>>)
    requires RowList(ts, pos, count, holes, acc).Ok?
    ensures var r := RowList(ts, pos, count, holes, acc).value;
      && rows != [] && (forall i :: 0 <= i < |rows| ==> rows[i] != [] && ExprsOk(rows[i], holes))
      && Here(ts, pos, Commas(RowPieces(rows))) && r.pos == pos + |Commas(RowPieces(rows))|
      && r.value == acc + RowMeanings(rows, count) && r.count == count + RowsHoles(rows)
    decreases |ts| - pos
  {
    hide Here, RowTokens, RowList, Commas, ExprMeanings, RowMeanings, HolesIn, RowsHoles, ExprsOk, ValueList;
    RowFirst(ts, pos, count, holes, acc);
    var row := RowRead(ts, pos, count, holes);
    var first := ValueList(ts, pos + 1, count, holes, []).value;
    RowStep(ts, pos, count, holes, acc, first.value, first.pos, first.count);
    if Peek(ts, first.pos) == Some(Comma) {
      var rest := RowsRead(ts, first.pos + 1, first.count, holes, acc + [first.value]);
      rows := [row] + rest;
      assert rows[1..] == rest;
      FirstRow(rows, count);
      assert RowPieces(rows) == [RowTokens(row)] + RowPieces(rest);
      assert acc + [first.value] + RowMeanings(rest, first.count) == acc + RowMeanings(rows, count);
      CommasJoin(ts, pos, RowTokens(row), RowPieces(rest));
    } else {
      rows := [row];
      FirstRow(rows, count);
      assert RowPieces(rows) == [RowTokens(row)] + [];
      CommasJoin(ts, pos, RowTokens(row), []);
    }
  }

  lemma InsertHead(ts: seq<Token>, holes: bool)
    requires ParseInsert(ts, 0, 0, holes).Ok?
    ensures Peek(ts, 0) == Some(Keyword(KInsert)) && Peek(ts, 1) == Some(Keyword(KInto)) && QualifiedIdent(ts, 2).Ok?
    ensures QualifiedIdent(ts, 2).value.pos <= |ts| && OptionalColumns(ts, QualifiedIdent(ts, 2).value.pos).Ok?
  {
    hide QualifiedIdent, OptionalColumns, RowList, AtEnd;
  }

  lemma InsertRest(ts: seq<Token>, holes: bool, table: At<Text>, columns: At<Option<seq<Text>>>)
    requires ParseInsert(ts, 0, 0, holes).Ok?
    requires QualifiedIdent(ts, 2) == Ok(table) && table.pos <= |ts| && OptionalColumns(ts, table.pos) == Ok(columns)
    ensures Peek(ts, columns.pos) == Some(Keyword(KValues)) && RowList(ts, columns.pos + 1, 0, holes, []).Ok?
    ensures AtEnd(ts, RowList(ts, columns.pos + 1, 0, holes, []).value.pos)
  {
    hide QualifiedIdent, OptionalColumns, RowList, AtEnd;
  }

  lemma InsertRead(ts: seq<Token>, holes: bool) returns (s: StatementForm)
    requires ParseInsert(ts, 0, 0, holes).Ok?
    ensures WellWritten(s, holes) && ts == Tokens(s)
    ensures ParseInsert(ts, 0, 0, holes) == Ok(Parsed(Meaning(s), |ts|, Parameters(s)))
  {
    hide *;
    InsertHead(ts, holes);
    var schemas := NameRead(ts, 2);
    var table := QualifiedIdent(ts, 2).value;
    ColumnListRead(ts, table.pos);
    var columns := OptionalColumns(ts, table.pos).value;
    InsertRest(ts, holes, table, columns);
    var rows := RowsRead(ts, columns.pos + 1, 0, holes, []);
    var semicolon := EndRead(ts, RowList(ts, columns.pos + 1, 0, holes, []).value.pos);
    s := InsertForm(schemas, table.value, columns.value, rows, semicolon);
    InsertWritten(ts, s, holes);
    InsertParses(ts, s, holes);
  }

  lemma InsertWritten(ts: seq<Token>, s: StatementForm, holes: bool)
    requires s.InsertForm? && Peek(ts, 0) == Some(Keyword(KInsert)) && Peek(ts, 1) == Some(Keyword(KInto))
    requires var name, columns := NameTokens(s.schemas, s.name), ColumnListTokens(s.columns);
      var rows, end := Commas(RowPieces(s.rows)), EndTokens(s.semicolon);
      var q := 2 + |name| + |columns|;
      && Peek(ts, q) == Some(Keyword(KValues))
      && Here(ts, 2, name) && Here(ts, 2 + |name|, columns) && Here(ts, q + 1, rows) && Here(ts, q + 1 + |rows|, end)
      && q + 1 + |rows| + |end| == |ts|
    requires s.columns.Some? ==> s.columns.value != []
    requires s.rows != [] && forall i :: 0 <= i < |s.rows| ==> s.rows[i] != [] && ExprsOk(s.rows[i], holes)
    ensures WellWritten(s, holes) && ts == Tokens(s)
  {
    hide Here, Commas, NameTokens, ColumnListTokens, RowPieces, EndTokens, ExprsOk;
    var name, columns := NameTokens(s.schemas, s.name), ColumnListTokens(s.columns);
    var rows, end := Commas(RowPieces(s.rows)), EndTokens(s.semicolon);
    PairHere(ts, 0, Keyword(KInsert), Keyword(KInto));
    OneHere(ts, 2 + |name| + |columns|, Keyword(KValues));
    SixHere(ts, 0, [Keyword(KInsert), Keyword(KInto)], name, columns, [Keyword(KValues)], rows, end);
    AllHere(ts, [Keyword(KInsert), Keyword(KInto)] + (name + (columns + ([Keyword(KValues)] + (rows + end)))));
  }

  // ---- the language ----

  /** `s` is a well written spelling of the tokens. */
  ghost predicate Spells(s: StatementForm, ts: seq<Token>, holes: bool) {
    WellWritten(s, holes) && Tokens(s) == ts
  }

  /** The tokens spell the statement, without placeholders. */
  ghost predicate StandsFor(ts: seq<Token>, statement: Statement) {
    exists s: StatementForm :: Spells(s, ts, false) && Meaning(s) == statement
  }

  /** The tokens spell the statement, with that many placeholders. */
  ghost predicate StandsForPrepared(ts: seq<Token>, statement: Statement, parameters: nat) {
    exists s: StatementForm :: Spells(s, ts, true) && Meaning(s) == statement && Parameters(s) == parameters
  }

  lemma StatementRead(ts: seq<Token>, holes: bool) returns (s: StatementForm)
    requires ParseStatement(ts, holes).Ok?
    ensures Spells(s, ts, holes)
    ensures ParseStatement(ts, holes) == Ok(Parsed(Meaning(s), |ts|, Parameters(s)))
  {
    hide ParseInsert, ParseSelect, Tokens, Meaning, Parameters, WellWritten;
    if Peek(ts, 0) == Some(Keyword(KInsert)) {
      s := InsertRead(ts, holes);
    } else {
      s := SelectRead(ts, holes);
    }
  }

  /** `parse` of a token list: it gives a statement exactly if the list is a spelling of an
      INSERT or SELECT without placeholders, and then the statement that stands for; two
      spellings of one list never disagree. */
  lemma ParseExact(ts: seq<Token>, statement: Statement)
    ensures ParseText(ts) == Ok(statement) <==> StandsFor(ts, statement)
  {
    hide ParseStatement, Meaning, Spells;
    if ParseText(ts).Ok? {
      var s := StatementRead(ts, false);
      assert Spells(s, ts, false) && Meaning(s) == ParseText(ts).value;
    }
    forall s: StatementForm | Spells(s, ts, false)
      ensures ParseText(ts) == Ok(Meaning(s))
    {
      SpelledParses(s, ts, false);
    }
  }

  /** `parse_prepared`: the same with placeholders, which are numbered in the order they
      are written and counted. */
  lemma PrepareExact(ts: seq<Token>, statement: Statement, parameters: nat)
    ensures ParsePrepared(ts) == Ok((statement, parameters)) <==> StandsForPrepared(ts, statement, parameters)
  {
    hide ParseStatement, Meaning, Parameters, Spells;
    if ParsePrepared(ts).Ok? {
      var s := StatementRead(ts, true);
      assert Spells(s, ts, true) && (Meaning(s), Parameters(s)) == ParsePrepared(ts).value;
    }
    forall s: StatementForm | Spells(s, ts, true)
      ensures ParsePrepared(ts) == Ok((Meaning(s), Parameters(s)))
    {
      SpelledParses(s, ts, true);
    }
  }

  lemma SpelledParses(s: StatementForm, ts: seq<Token>, holes: bool)
    requires Spells(s, ts, holes)
    ensures ParseStatement(ts, holes) == Ok(Parsed(Meaning(s), |ts|, Parameters(s)))
  {
    hide ParseStatement, Meaning, Parameters, Tokens, WellWritten;
    SpellingParses(s, holes);
  }
}
