/** The parser accepts exactly what the syntax allows, and understands it: every spelling
    parses to the statement it stands for, and whatever parses is such a spelling. */
module Language {
  import opened Basics
  import opened Ast
  import opened Grammar
  import opened Spelling

  // ---- pieces of a token list ----

  predicate Here(ts: seq<Token>, pos: nat, piece: seq<Token>) {
    pos + |piece| <= |ts| && ts[pos..pos + |piece|] == piece
  }

  lemma HereSplit(ts: seq<Token>, pos: nat, a: seq<Token>, b: seq<Token>)
    requires Here(ts, pos, a + b)
    ensures Here(ts, pos, a) && Here(ts, pos + |a|, b)
  {
    assert ts[pos..pos + |a|] == (a + b)[..|a|];
    assert ts[pos + |a|..pos + |a| + |b|] == (a + b)[|a|..];
  }

  lemma HereSix(ts: seq<Token>, pos: nat, a: seq<Token>, b: seq<Token>, c: seq<Token>, d: seq<Token>, e: seq<Token>, f: seq<Token>)
    requires Here(ts, pos, a + (b + (c + (d + (e + f)))))
    ensures Here(ts, pos, a) && Here(ts, pos + |a|, b) && Here(ts, pos + |a| + |b|, c) && Here(ts, pos + |a| + |b| + |c|, d)
    ensures Here(ts, pos + |a| + |b| + |c| + |d|, e) && Here(ts, pos + |a| + |b| + |c| + |d| + |e|, f)
    ensures |a + (b + (c + (d + (e + f))))| == |a| + |b| + |c| + |d| + |e| + |f|
  {
    hide Here;
    HereSplit(ts, pos, a, b + (c + (d + (e + f))));
    HereSplit(ts, pos + |a|, b, c + (d + (e + f)));
    HereSplit(ts, pos + |a| + |b|, c, d + (e + f));
    HereSplit(ts, pos + |a| + |b| + |c|, d, e + f);
    HereSplit(ts, pos + |a| + |b| + |c| + |d|, e, f);
  }

  lemma HereInside(ts: seq<Token>, pos: nat, piece: seq<Token>)
    requires Here(ts, pos, piece)
    ensures pos + |piece| <= |ts|
  {}

  lemma HereAt(ts: seq<Token>, pos: nat, piece: seq<Token>, k: nat)
    requires Here(ts, pos, piece) && k < |piece|
    ensures pos + k < |ts| && ts[pos + k] == piece[k]
  {
    assert ts[pos..pos + |piece|][k] == ts[pos + k];
  }

  lemma HereOne(ts: seq<Token>, pos: nat, t: Token)
    requires Here(ts, pos, [t])
    ensures pos < |ts| && Peek(ts, pos) == Some(t)
  {
    HereAt(ts, pos, [t], 0);
  }

  lemma TwoHere(ts: seq<Token>, pos: nat, t: Token, u: Token)
    requires Here(ts, pos, [t, u])
    ensures Peek(ts, pos) == Some(t) && Peek(ts, pos + 1) == Some(u)
  {
    HereAt(ts, pos, [t, u], 0);
    HereAt(ts, pos, [t, u], 1);
  }

  /** How late in a statement a token can be the next one; 9 if it could go on a name. */
  function Level(next: Option<Token>): nat {
    match next
    case None => 0
    case Some(Semicolon) => 0
    case Some(Comma) => 8
    case Some(Ident(_)) => 9
    case Some(Dot) => 9
    case Some(LParen) => 9
    case Some(Keyword(k)) =>
      (match k
       case KLimit => 1
       case KOrder => 2
       case KGroup => 3
       case KWhere => 4
       case KJoin => 5
       case KInner => 5
       case KLeft => 5
       case KFrom => 6
       case KAs => 9
       case _ => 7)
    case Some(_) => 7
  }

  lemma CommasHere(ts: seq<Token>, pos: nat, pieces: seq<seq<Token>>)
    requires pieces != [] && Here(ts, pos, Commas(pieces))
    ensures Here(ts, pos, pieces[0])
    ensures |pieces| == 1 ==> Commas(pieces) == pieces[0]
    ensures |pieces| > 1 ==>
      && |Commas(pieces)| == |pieces[0]| + 1 + |Commas(pieces[1..])|
      && Peek(ts, pos + |pieces[0]|) == Some(Comma)
      && Here(ts, pos + |pieces[0]| + 1, Commas(pieces[1..]))
  {
    if |pieces| > 1 {
      HereSplit(ts, pos, pieces[0], [Comma] + Commas(pieces[1..]));
      HereSplit(ts, pos + |pieces[0]|, [Comma], Commas(pieces[1..]));
      HereAt(ts, pos + |pieces[0]|, [Comma], 0);
    }
  }

  // ---- every spelling parses: names, tables, joins ----

  lemma ColumnParses(ts: seq<Token>, pos: nat, col: ColumnRef)
    requires Here(ts, pos, ColumnTokens(col)) && Peek(ts, pos + |ColumnTokens(col)|) != Some(Dot)
    ensures ParseColumnRef(ts, pos) == Ok(At(col, pos + |ColumnTokens(col)|))
  {
    var tokens := ColumnTokens(col);
    HereAt(ts, pos, tokens, 0);
    if col.table.Some? {
      HereAt(ts, pos, tokens, 1);
      HereAt(ts, pos, tokens, 2);
    }
  }

  lemma {:induction false} NameParses(ts: seq<Token>, pos: nat, schemas: seq<Text>, name: Text)
    requires Here(ts, pos, NameTokens(schemas, name)) && Peek(ts, pos + |NameTokens(schemas, name)|) != Some(Dot)
    ensures QualifiedIdent(ts, pos) == Ok(At(name, pos + |NameTokens(schemas, name)|))
    decreases |schemas|
  {
    var tokens := NameTokens(schemas, name);
    HereAt(ts, pos, tokens, 0);
    if schemas != [] {
      HereAt(ts, pos, tokens, 1);
      HereSplit(ts, pos, [Ident(schemas[0]), Dot], NameTokens(schemas[1..], name));
      NameParses(ts, pos + 2, schemas[1..], name);
    }
  }

  lemma AliasParses(ts: seq<Token>, pos: nat, a: AliasForm)
    requires Here(ts, pos, AliasTokens(a)) && Level(Peek(ts, pos + |AliasTokens(a)|)) < 9
    ensures OptionalAlias(ts, pos) == Ok(At(AliasMeaning(a), pos + |AliasTokens(a)|))
  {
    if !a.NoAlias? {
      HereAt(ts, pos, AliasTokens(a), 0);
      if a.AsAlias? {
        HereAt(ts, pos, AliasTokens(a), 1);
      }
    }
  }

  lemma EndsAtAlias(ts: seq<Token>, pos: nat, a: AliasForm)
    requires Here(ts, pos, AliasTokens(a)) && Level(Peek(ts, pos + |AliasTokens(a)|)) < 9
    ensures Peek(ts, pos) != Some(Dot) && Peek(ts, pos) != Some(LParen)
  {
    if !a.NoAlias? {
      HereAt(ts, pos, AliasTokens(a), 0);
    }
  }

  lemma TableParses(ts: seq<Token>, pos: nat, t: TableForm)
    requires Here(ts, pos, TableTokens(t)) && Level(Peek(ts, pos + |TableTokens(t)|)) < 9
    ensures ParseTableRef(ts, pos) == Ok(At(TableMeaning(t), pos + |TableTokens(t)|))
  {
    hide QualifiedIdent, OptionalAlias, AliasTokens, NameTokens, AliasMeaning;
    var name := NameTokens(t.schemas, t.name);
    HereSplit(ts, pos, name, AliasTokens(t.alias));
    EndsAtAlias(ts, pos + |name|, t.alias);
    NameParses(ts, pos, t.schemas, t.name);
    AliasParses(ts, pos + |name|, t.alias);
  }

  lemma JoinWordsParse(ts: seq<Token>, pos: nat, w: JoinWordsForm)
    requires Here(ts, pos, JoinWordTokens(w))
    ensures JoinWords(ts, pos) == Ok(Some(At(JoinKind(w), pos + |JoinWordTokens(w)|)))
    ensures Level(Peek(ts, pos)) == 5
  {
    var tokens := JoinWordTokens(w);
    HereAt(ts, pos, tokens, 0);
    if |tokens| > 1 {
      HereAt(ts, pos, tokens, 1);
    }
    if |tokens| > 2 {
      HereAt(ts, pos, tokens, 2);
    }
  }

  lemma JoinParses(ts: seq<Token>, pos: nat, j: JoinForm)
    requires Here(ts, pos, JoinTokens(j)) && Level(Peek(ts, pos + |JoinTokens(j)|)) < 9
    ensures var words := |JoinWordTokens(j.words)|;
      && JoinWords(ts, pos) == Ok(Some(At(JoinKind(j.words), pos + words)))
      && ParseJoin(ts, JoinKind(j.words), pos + words) == Ok(At(JoinMeaning(j), pos + |JoinTokens(j)|))
  {
    hide JoinWords, ParseTableRef, ParseColumnRef, TableTokens, ColumnTokens, JoinWordTokens, JoinKind, TableMeaning, Here;
    var words, table, left, right :=
      JoinWordTokens(j.words), TableTokens(j.table), ColumnTokens(j.left), ColumnTokens(j.right);
    HereSix(ts, pos, words, table, [Keyword(KOn)], left, [EqSign], right);
    var p := pos + |words|;
    var q := p + |table|;
    var e := q + 1 + |left|;
    HereOne(ts, q, Keyword(KOn));
    HereOne(ts, e, EqSign);
    JoinWordsParse(ts, pos, j.words);
    TableParses(ts, p, j.table);
    ColumnParses(ts, q + 1, j.left);
    ColumnParses(ts, e + 1, j.right);
  }

  lemma JoinsStart(ts: seq<Token>, pos: nat, js: seq<JoinForm>)
    requires Here(ts, pos, JoinsTokens(js)) && Level(Peek(ts, pos + |JoinsTokens(js)|)) < 5
    ensures Level(Peek(ts, pos)) <= 5
  {
    hide JoinWordTokens, JoinWords, TableTokens, ColumnTokens;
    if js != [] {
      HereSplit(ts, pos, JoinTokens(js[0]), JoinsTokens(js[1..]));
      var words := JoinWordTokens(js[0].words);
      HereSplit(ts, pos, words, JoinTokens(js[0])[|words|..]);
      JoinWordsParse(ts, pos, js[0].words);
    }
  }

  lemma NoMoreJoins(ts: seq<Token>, pos: nat)
    requires Level(Peek(ts, pos)) < 5
    ensures JoinWords(ts, pos) == Ok(None)
  {}

  lemma {:induction false} JoinsParse(ts: seq<Token>, pos: nat, js: seq<JoinForm>, acc: seq<JoinClause>)
    requires Here(ts, pos, JoinsTokens(js)) && Level(Peek(ts, pos + |JoinsTokens(js)|)) < 5
    ensures Joins(ts, pos, acc) == Ok(At(acc + JoinMeanings(js), pos + |JoinsTokens(js)|))
    decreases |js|
  {
    hide JoinTokens, JoinWords, ParseJoin, JoinMeaning, JoinKind, JoinWordTokens;
    if js == [] {
      NoMoreJoins(ts, pos);
      assert acc + [] == acc;
    } else {
      var first := JoinTokens(js[0]);
      HereSplit(ts, pos, first, JoinsTokens(js[1..]));
      JoinsStart(ts, pos + |first|, js[1..]);
      JoinParses(ts, pos, js[0]);
      JoinsParse(ts, pos + |first|, js[1..], acc + [JoinMeaning(js[0])]);
      assert acc + [JoinMeaning(js[0])] + JoinMeanings(js[1..]) == acc + JoinMeanings(js);
    }
  }

  // ---- expressions ----

  lemma CallParses(ts: seq<Token>, pos: nat, count: nat, holes: bool, name: Text, args: seq<ExprForm>)
    requires ExprsOk(args, holes) && Here(ts, pos, [LParen] + (Commas(ExprPieces(args)) + [RParen]))
    ensures ParseCall(ts, name, pos, count, holes)
         == Ok(Parsed(Function(name, ExprMeanings(args, count)), pos + 2 + |Commas(ExprPieces(args))|, count + HolesIn(args)))
    decreases args, 1
  {
    hide ParseExpr, ArgList, ExprTokens, Here, Commas, ExprMeanings, HolesIn, ExprOk, SameWord;
    var inner := Commas(ExprPieces(args));
    HereSplit(ts, pos, [LParen], inner + [RParen]);
    HereSplit(ts, pos + 1, inner, [RParen]);
    HereOne(ts, pos, LParen);
    HereOne(ts, pos + 1 + |inner|, RParen);
    if args != [] {
      CommasHere(ts, pos + 1, ExprPieces(args));
      NotClosing(ts, pos + 1, args[0]);
      ArgsParse(ts, pos + 1, count, holes, args, []);
      assert [] + ExprMeanings(args, count) == ExprMeanings(args, count);
    } else {
      NoPieces(args, count);
    }
  }

  lemma NoPieces(args: seq<ExprForm>, count: nat)
    requires args == []
    ensures Commas(ExprPieces(args)) == [] && ExprMeanings(args, count) == [] && HolesIn(args) == 0
  {}

  /** An expression begins neither with `*` nor with `)`. */
  lemma NotClosing(ts: seq<Token>, pos: nat, e: ExprForm)
    requires Here(ts, pos, ExprTokens(e))
    ensures Peek(ts, pos) != Some(Star) && Peek(ts, pos) != Some(RParen)
  {
    HereAt(ts, pos, ExprTokens(e), 0);
  }

  lemma {:induction false} ArgsParse(ts: seq<Token>, pos: nat, count: nat, holes: bool, es: seq<ExprForm>, acc: seq<Expr>)
    requires es != [] && ExprsOk(es, holes) && Here(ts, pos, Commas(ExprPieces(es)))
    requires Level(Peek(ts, pos + |Commas(ExprPieces(es))|)) < 8
    ensures ArgList(ts, pos, count, holes, acc)
         == Ok(Parsed(acc + ExprMeanings(es, count), pos + |Commas(ExprPieces(es))|, count + HolesIn(es)))
    decreases es, 0
  {
    hide ParseExpr, ArgList, ExprTokens, ExprMeaning, ExprMeanings, ExprHoles, HolesIn, ExprOk, Here, Commas;
    FirstMeaning(es, count);
    var pieces := ExprPieces(es);
    CommasHere(ts, pos, pieces);
    assert ExprOk(es[0], holes);
    ExprParses(ts, pos, count, holes, es[0]);
    var first := ExprMeaning(es[0], count);
    ArgStep(ts, pos, count, holes, acc, first, pos + |pieces[0]|, count + ExprHoles(es[0]));
    if |es| > 1 {
      assert pieces[1..] == ExprPieces(es[1..]);
      ArgsParse(ts, pos + |pieces[0]| + 1, count + ExprHoles(es[0]), holes, es[1..], acc + [first]);
      assert acc + [first] + ExprMeanings(es[1..], count + ExprHoles(es[0])) == acc + ExprMeanings(es, count);
    }
  }

  lemma FirstMeaning(es: seq<ExprForm>, count: nat)
    requires es != []
    ensures ExprMeanings(es, count) == [ExprMeaning(es[0], count)] + ExprMeanings(es[1..], count + ExprHoles(es[0]))
    ensures HolesIn(es) == ExprHoles(es[0]) + HolesIn(es[1..])
    ensures |es| == 1 ==> ExprMeanings(es, count) == [ExprMeaning(es[0], count)] && HolesIn(es) == ExprHoles(es[0])
  {
    hide ExprMeaning;
    if |es| == 1 {
      assert es[1..] == [];
      assert HolesIn([]) == 0;
    }
  }

  lemma ArgStep(ts: seq<Token>, pos: nat, count: nat, holes: bool, acc: seq<Expr>, e: Expr, next: nat, counted: nat)
    requires ParseExpr(ts, pos, count, holes) == Ok(Parsed(e, next, counted))
    ensures ArgList(ts, pos, count, holes, acc)
         == if Peek(ts, next) == Some(Comma) then ArgList(ts, next + 1, counted, holes, acc + [e])
            else Ok(Parsed(acc + [e], next, counted))
  {
    hide ParseExpr;
  }

  /** The next token does not go on with an expression that could end here. */
  predicate EndsExpr(next: Option<Token>) {
    next != Some(Dot) && next != Some(LParen)
  }

  lemma {:induction false} ExprParses(ts: seq<Token>, pos: nat, count: nat, holes: bool, e: ExprForm)
    requires ExprOk(e, holes) && Here(ts, pos, ExprTokens(e)) && EndsExpr(Peek(ts, pos + |ExprTokens(e)|))
    ensures ParseExpr(ts, pos, count, holes)
         == Ok(Parsed(ExprMeaning(e, count), pos + |ExprTokens(e)|, count + ExprHoles(e)))
    decreases e
  {
    hide *;
    if e.CallForm? {
      CallTokens(e, count);
      OkParts(e, holes);
      var rest := Commas(ExprPieces(e.args)) + [RParen];
      HereSplit(ts, pos, [Ident(e.name)], [LParen] + rest);
      HereSplit(ts, pos + 1, [LParen], rest);
      HereOne(ts, pos, Ident(e.name));
      HereOne(ts, pos + 1, LParen);
      CallParses(ts, pos + 1, count, holes, e.name, e.args);
      CallStep(ts, pos, count, holes, e.name);
    } else {
      LeafParses(ts, pos, count, holes, e);
    }
  }

  lemma CallTokens(e: ExprForm, count: nat)
    requires e.CallForm?
    ensures ExprTokens(e) == [Ident(e.name)] + ([LParen] + (Commas(ExprPieces(e.args)) + [RParen]))
    ensures ExprMeaning(e, count) == Function(e.name, ExprMeanings(e.args, count)) && ExprHoles(e) == HolesIn(e.args)
  {
    hide Commas;
  }

  lemma LeafParses(ts: seq<Token>, pos: nat, count: nat, holes: bool, e: ExprForm)
    requires !e.CallForm?
    requires ExprOk(e, holes) && Here(ts, pos, ExprTokens(e)) && EndsExpr(Peek(ts, pos + |ExprTokens(e)|))
    ensures ParseExpr(ts, pos, count, holes)
         == Ok(Parsed(ExprMeaning(e, count), pos + |ExprTokens(e)|, count + ExprHoles(e)))
  {
    hide SameWord, ParseCall, Here, FinishColumnRef;
    match e
    case ColumnForm(col) => ColumnExprParses(ts, pos, count, holes, col);
    case CountStarForm(word) => CountStarParses(ts, pos, count, holes, word);
    case FalseForm(word) =>
      HereOne(ts, pos, Ident(word));
      WordsApart(word);
    case IntForm(n) => HereOne(ts, pos, IntegerToken(n));
    case DecimalForm(u, s) => HereOne(ts, pos, DecimalToken(u, s));
    case TextForm(s) => HereOne(ts, pos, Str(s));
    case NullForm => HereOne(ts, pos, Keyword(KNull));
    case VariableForm(v) => HereOne(ts, pos, SystemVariableToken(v));
    case TrueForm(word) => HereOne(ts, pos, Ident(word));
    case HoleForm => HereOne(ts, pos, Hole);
  }

  lemma OkParts(e: ExprForm, holes: bool)
    requires e.CallForm? && ExprOk(e, holes)
    ensures PlainName(e.name) && ExprsOk(e.args, holes)
  {}

  lemma CallStep(ts: seq<Token>, pos: nat, count: nat, holes: bool, name: Text)
    requires PlainName(name) && Peek(ts, pos) == Some(Ident(name)) && Peek(ts, pos + 1) == Some(LParen)
    ensures ParseExpr(ts, pos, count, holes) == ParseCall(ts, name, pos + 1, count, holes)
  {
    hide SameWord, ParseCall;
  }

  lemma ColumnExprParses(ts: seq<Token>, pos: nat, count: nat, holes: bool, col: ColumnRef)
    requires PlainName(FirstName(col)) && Here(ts, pos, ColumnTokens(col))
    requires EndsExpr(Peek(ts, pos + |ColumnTokens(col)|))
    ensures ParseExpr(ts, pos, count, holes) == Ok(Parsed(Column(col), pos + |ColumnTokens(col)|, count))
  {
    hide SameWord, ParseCall;
    var tokens := ColumnTokens(col);
    HereAt(ts, pos, tokens, 0);
    if col.table.Some? {
      HereAt(ts, pos, tokens, 1);
      HereAt(ts, pos, tokens, 2);
    }
  }

  lemma WordsApart(word: Text)
    ensures !(SameWord(word, TRUE_WORD) && SameWord(word, FALSE_WORD))
    ensures SameWord(word, COUNT_WORD) ==> PlainName(word)
  {
    if SameWord(word, COUNT_WORD) {
      assert Lower(word[0]) == Lower(COUNT_WORD[0]);
    }
  }

  lemma CountStarParses(ts: seq<Token>, pos: nat, count: nat, holes: bool, word: Text)
    requires SameWord(word, COUNT_WORD) && Here(ts, pos, [Ident(word), LParen, Star, RParen])
    ensures ParseExpr(ts, pos, count, holes) == Ok(Parsed(Function(word, []), pos + 4, count))
  {
    hide SameWord, ArgList;
    var tokens := [Ident(word), LParen, Star, RParen];
    HereAt(ts, pos, tokens, 0);
    HereAt(ts, pos, tokens, 1);
    HereAt(ts, pos, tokens, 2);
    HereAt(ts, pos, tokens, 3);
    WordsApart(word);
  }

  // ---- WHERE and FROM ----

  lemma OpParses(ts: seq<Token>, pos: nat, op: CompareOp)
    requires Peek(ts, pos) == Some(OpToken(op))
    ensures ParseOp(ts, pos) == Ok(At(op, pos + 1)) && Level(Peek(ts, pos)) == 7
  {}

  lemma ConditionParses(ts: seq<Token>, pos: nat, count: nat, holes: bool, c: ConditionForm)
    requires ExprOk(c.value, holes) && Here(ts, pos, ConditionTokens(c)) && Level(Peek(ts, pos + |ConditionTokens(c)|)) < 9
    ensures ParseCondition(ts, pos, count, holes)
         == Ok(Parsed(ConditionMeaning(c, count), pos + |ConditionTokens(c)|, count + ExprHoles(c.value)))
  {
    hide Here, ColumnTokens, ExprTokens, OpToken, ParseColumnRef, ParseOp, ParseExpr, ExprMeaning, ExprHoles, ExprOk;
    var column, op := ColumnTokens(c.column), OpToken(c.op);
    HereSplit(ts, pos, column, [op] + ExprTokens(c.value));
    HereSplit(ts, pos + |column|, [op], ExprTokens(c.value));
    HereOne(ts, pos + |column|, op);
    OpParses(ts, pos + |column|, c.op);
    ColumnParses(ts, pos, c.column);
    ExprParses(ts, pos + |column| + 1, count, holes, c.value);
  }

  lemma WhereParses(ts: seq<Token>, pos: nat, count: nat, holes: bool, w: Option<ConditionForm>)
    requires w.Some? ==> ExprOk(w.value.value, holes)
    requires Here(ts, pos, WhereTokens(w)) && Level(Peek(ts, pos + |WhereTokens(w)|)) < 4
    ensures OptionalWhere(ts, pos, count, holes)
         == Ok(Parsed(match w case Some(c) => Some(ConditionMeaning(c, count)) case None => None,
                      pos + |WhereTokens(w)|,
                      count + match w case Some(c) => ExprHoles(c.value) case None => 0))
    ensures Level(Peek(ts, pos)) <= 4
  {
    hide Here, ConditionTokens, ConditionMeaning, ParseCondition, ExprHoles, ExprOk;
    if w.Some? {
      HereSplit(ts, pos, [Keyword(KWhere)], ConditionTokens(w.value));
      HereOne(ts, pos, Keyword(KWhere));
      ConditionParses(ts, pos + 1, count, holes, w.value);
    }
  }

  lemma FromParses(ts: seq<Token>, pos: nat, t: TableForm, js: seq<JoinForm>)
    requires Here(ts, pos, TableTokens(t) + JoinsTokens(js))
    requires Level(Peek(ts, pos + |TableTokens(t) + JoinsTokens(js)|)) < 5
    ensures ParseFrom(ts, pos)
         == Ok(At(FromClause(TableMeaning(t), JoinMeanings(js)), pos + |TableTokens(t) + JoinsTokens(js)|))
  {
    hide Here, TableTokens, JoinsTokens, TableMeaning, ParseTableRef, Joins, JoinMeaning;
    HereSplit(ts, pos, TableTokens(t), JoinsTokens(js));
    JoinsStart(ts, pos + |TableTokens(t)|, js);
    TableParses(ts, pos, t);
    JoinsParse(ts, pos + |TableTokens(t)|, js, []);
    assert [] + JoinMeanings(js) == JoinMeanings(js);
  }

  lemma SourceParses(ts: seq<Token>, pos: nat, count: nat, holes: bool, s: SourceForm)
    requires SourceOk(s, holes) && Here(ts, pos, SourceTokens(s)) && Level(Peek(ts, pos + |SourceTokens(s)|)) < 4
    ensures OptionalFrom(ts, pos, count, holes)
         == Ok(Parsed(SourceMeaning(s, count), pos + |SourceTokens(s)|, count + SourceHoles(s)))
    ensures Level(Peek(ts, pos)) <= 6
  {
    hide Here, TableTokens, JoinsTokens, WhereTokens, TableMeaning, JoinMeanings, ConditionMeaning, ParseFrom, OptionalWhere,
         ExprHoles, ExprOk, OptionalFrom, Level, Peek;
    if s.FromForm? {
      var from := TableTokens(s.table) + JoinsTokens(s.joins);
      SourceHere(ts, pos, from, WhereTokens(s.selection));
      WhereParses(ts, pos + 1 + |from|, count, holes, s.selection);
      FromParses(ts, pos + 1, s.table, s.joins);
      SourceStep(ts, pos, count, holes);
    } else {
      HereInside(ts, pos, []);
      SourceStep(ts, pos, count, holes);
    }
  }

  lemma SourceHere(ts: seq<Token>, pos: nat, from: seq<Token>, where: seq<Token>)
    requires Here(ts, pos, [Keyword(KFrom)] + (from + where))
    ensures Peek(ts, pos) == Some(Keyword(KFrom)) && Level(Peek(ts, pos)) == 6 && Here(ts, pos + 1, from) && Here(ts, pos + 1 + |from|, where)
  {
    hide Here;
    HereSplit(ts, pos, [Keyword(KFrom)], from + where);
    HereSplit(ts, pos + 1, from, where);
    HereOne(ts, pos, Keyword(KFrom));
  }

  lemma SourceStep(ts: seq<Token>, pos: nat, count: nat, holes: bool)
    requires pos <= |ts|
    ensures Level(Peek(ts, pos)) < 6 ==>
      OptionalFrom(ts, pos, count, holes) == Ok(Parsed(Source(None, None), pos, count))
    ensures Peek(ts, pos) == Some(Keyword(KFrom)) && ParseFrom(ts, pos + 1).Ok? ==>
      var from := ParseFrom(ts, pos + 1).value;
      var cond := OptionalWhere(ts, from.pos, count, holes);
      cond.Ok? ==>
        var found := Source(Some(from.value), cond.value.value);
        OptionalFrom(ts, pos, count, holes) == Ok(Parsed(found, cond.value.pos, cond.value.count))
  {
    hide ParseFrom, OptionalWhere;
  }

  // ---- GROUP BY, ORDER BY, LIMIT ----

  lemma {:induction false} ColumnsParse(ts: seq<Token>, pos: nat, cols: seq<ColumnRef>, acc: seq<ColumnRef>)
    requires cols != [] && Here(ts, pos, Commas(ColumnPieces(cols)))
    requires Level(Peek(ts, pos + |Commas(ColumnPieces(cols))|)) < 8
    ensures ColumnList(ts, pos, acc) == Ok(At(acc + cols, pos + |Commas(ColumnPieces(cols))|))
    decreases |cols|
  {
    hide Here, ColumnTokens, ParseColumnRef, Commas;
    var pieces := ColumnPieces(cols);
    CommasHere(ts, pos, pieces);
    ColumnParses(ts, pos, cols[0]);
    if |cols| > 1 {
      assert pieces[1..] == ColumnPieces(cols[1..]);
      ColumnsParse(ts, pos + |pieces[0]| + 1, cols[1..], acc + [cols[0]]);
      assert acc + [cols[0]] + cols[1..] == acc + cols;
    } else {
      assert cols == [cols[0]];
    }
  }

  lemma ClauseHere(ts: seq<Token>, pos: nat, a: Token, b: Token, rest: seq<Token>)
    requires Here(ts, pos, [a, b] + rest)
    ensures Peek(ts, pos) == Some(a) && Peek(ts, pos + 1) == Some(b) && Here(ts, pos + 2, rest)
  {
    hide Here;
    assert [a, b] == [a] + [b];
    HereSplit(ts, pos, [a, b], rest);
    HereSplit(ts, pos, [a], [b]);
    HereOne(ts, pos, a);
    HereOne(ts, pos + 1, b);
  }

  lemma GroupParses(ts: seq<Token>, pos: nat, cols: seq<ColumnRef>)
    requires Here(ts, pos, GroupTokens(cols)) && Level(Peek(ts, pos + |GroupTokens(cols)|)) < 3
    ensures OptionalGroupBy(ts, pos) == Ok(At(cols, pos + |GroupTokens(cols)|))
    ensures Level(Peek(ts, pos)) <= 3
  {
    hide Here, Commas, ColumnPieces, ColumnList;
    if cols != [] {
      ClauseHere(ts, pos, Keyword(KGroup), Keyword(KBy), Commas(ColumnPieces(cols)));
      ColumnsParse(ts, pos + 2, cols, []);
      assert [] + cols == cols;
    }
  }

  lemma OrderItemParses(ts: seq<Token>, pos: nat, o: OrderForm)
    requires OrderOk(o) && Here(ts, pos, OrderTokens(o)) && Level(Peek(ts, pos + |OrderTokens(o)|)) < 9
    ensures OrderItem(ts, pos) == Ok(At(OrderMeaning(o), pos + |OrderTokens(o)|))
  {
    hide Here, ColumnTokens, ParseColumnRef, SameWord;
    var column := ColumnTokens(o.column);
    var dir := match o.direction case NoDirection => [] case Ascending(w) => [Ident(w)] case Descending(w) => [Ident(w)];
    HereSplit(ts, pos, column, dir);
    if !o.direction.NoDirection? {
      HereOne(ts, pos + |column|, Ident(o.direction.word));
      DirectionsApart(o.direction.word);
    }
    ColumnParses(ts, pos, o.column);
  }

  lemma DirectionsApart(word: Text)
    ensures !(SameWord(word, DESC_WORD) && SameWord(word, ASC_WORD))
  {}

  lemma {:induction false} OrdersParse(ts: seq<Token>, pos: nat, os: seq<OrderForm>, acc: seq<OrderByItem>)
    requires os != [] && (forall i :: 0 <= i < |os| ==> OrderOk(os[i])) && Here(ts, pos, Commas(OrderPieces(os)))
    requires Level(Peek(ts, pos + |Commas(OrderPieces(os))|)) < 8
    ensures OrderList(ts, pos, acc) == Ok(At(acc + OrderMeanings(os), pos + |Commas(OrderPieces(os))|))
    decreases |os|
  {
    hide Here, OrderTokens, OrderItem, OrderList, Commas, OrderMeaning, OrderOk;
    var pieces := OrderPieces(os);
    CommasHere(ts, pos, pieces);
    OrderItemParses(ts, pos, os[0]);
    OrderStep(ts, pos, acc, OrderMeaning(os[0]), pos + |pieces[0]|);
    if |os| > 1 {
      assert pieces[1..] == OrderPieces(os[1..]);
      OrdersParse(ts, pos + |pieces[0]| + 1, os[1..], acc + [OrderMeaning(os[0])]);
      assert acc + [OrderMeaning(os[0])] + OrderMeanings(os[1..]) == acc + OrderMeanings(os);
    } else {
      assert acc + [OrderMeaning(os[0])] == acc + OrderMeanings(os);
    }
  }

  lemma OrderStep(ts: seq<Token>, pos: nat, acc: seq<OrderByItem>, o: OrderByItem, next: nat)
    requires OrderItem(ts, pos) == Ok(At(o, next))
    ensures OrderList(ts, pos, acc)
         == if Peek(ts, next) == Some(Comma) then OrderList(ts, next + 1, acc + [o]) else Ok(At(acc + [o], next))
  {
    hide OrderItem;
  }

  lemma OrderByParses(ts: seq<Token>, pos: nat, os: seq<OrderForm>)
    requires forall i :: 0 <= i < |os| ==> OrderOk(os[i])
    requires Here(ts, pos, OrderByTokens(os)) && Level(Peek(ts, pos + |OrderByTokens(os)|)) < 2
    ensures OptionalOrderBy(ts, pos) == Ok(At(OrderMeanings(os), pos + |OrderByTokens(os)|))
    ensures Level(Peek(ts, pos)) <= 2
  {
    hide Here, Commas, OrderPieces, OrderList, OrderMeaning, OrderOk, OrderMeanings;
    if os != [] {
      ClauseHere(ts, pos, Keyword(KOrder), Keyword(KBy), Commas(OrderPieces(os)));
      OrdersParse(ts, pos + 2, os, []);
      assert [] + OrderMeanings(os) == OrderMeanings(os);
    }
  }

  lemma LimitParses(ts: seq<Token>, pos: nat, l: LimitForm)
    requires LimitOk(l) && Here(ts, pos, LimitTokens(l)) && Level(Peek(ts, pos + |LimitTokens(l)|)) < 1
    ensures OptionalLimit(ts, pos) == Ok(At(LimitMeaning(l), pos + |LimitTokens(l)|))
    ensures Level(Peek(ts, pos)) <= 1
  {
    hide SameWord;
    var tokens := LimitTokens(l);
    if !l.NoLimit? {
      HereAt(ts, pos, tokens, 0);
      HereAt(ts, pos, tokens, 1);
      if !l.LimitOnly? {
        HereAt(ts, pos, tokens, 2);
        HereAt(ts, pos, tokens, 3);
      }
    }
  }

  lemma EndParses(ts: seq<Token>, pos: nat, semicolon: bool)
    requires Here(ts, pos, EndTokens(semicolon)) && pos + |EndTokens(semicolon)| == |ts|
    ensures AtEnd(ts, pos) && Level(Peek(ts, pos)) == 0
  {
    if semicolon {
      HereOne(ts, pos, Semicolon);
    }
  }

  lemma TailParses(ts: seq<Token>, pos: nat, groupBy: seq<ColumnRef>, orderBy: seq<OrderForm>, limit: LimitForm, semicolon: bool)
    requires (forall i :: 0 <= i < |orderBy| ==> OrderOk(orderBy[i])) && LimitOk(limit)
    requires Here(ts, pos, TailTokens(groupBy, orderBy, limit, semicolon))
    requires pos + |TailTokens(groupBy, orderBy, limit, semicolon)| == |ts|
    ensures Level(Peek(ts, pos)) <= 3
    ensures var r := ParseTail(ts, pos);
      && r.Ok? && AtEnd(ts, r.value.pos)
      && r.value.value == Tail(groupBy, OrderMeanings(orderBy), LimitMeaning(limit).0, LimitMeaning(limit).1)
  {
    hide Here, GroupTokens, OrderByTokens, LimitTokens, EndTokens, OptionalGroupBy, OptionalOrderBy, OptionalLimit, OrderOk,
         LimitOk, LimitMeaning, OrderMeaning, AtEnd;
    var g, o, l, e := GroupTokens(groupBy), OrderByTokens(orderBy), LimitTokens(limit), EndTokens(semicolon);
    HereSplit(ts, pos, g, o + (l + e));
    HereSplit(ts, pos + |g|, o, l + e);
    HereSplit(ts, pos + |g| + |o|, l, e);
    EndParses(ts, pos + |g| + |o| + |l|, semicolon);
    LimitParses(ts, pos + |g| + |o|, limit);
    OrderByParses(ts, pos + |g|, orderBy);
    GroupParses(ts, pos, groupBy);
  }

  // ---- SELECT ----

  lemma ItemParses(ts: seq<Token>, pos: nat, count: nat, holes: bool, item: ItemForm)
    requires ItemOk(item, holes) && Here(ts, pos, ItemTokens(item)) && Level(Peek(ts, pos + |ItemTokens(item)|)) < 9
    ensures ParseItem(ts, pos, count, holes)
         == Ok(Parsed(ItemMeaning(item, count), pos + |ItemTokens(item)|, count + ItemHoles(item)))
  {
    hide Here, ExprTokens, AliasTokens, ParseExpr, OptionalAlias, ExprMeaning, ExprHoles, ExprOk, AliasMeaning;
    match item
    case StarForm => HereOne(ts, pos, Star);
    case ExprItem(e, alias) =>
      HereSplit(ts, pos, ExprTokens(e), AliasTokens(alias));
      NotClosing(ts, pos, e);
      EndsAtAlias(ts, pos + |ExprTokens(e)|, alias);
      ExprParses(ts, pos, count, holes, e);
      AliasParses(ts, pos + |ExprTokens(e)|, alias);
  }

  lemma ItemStep(ts: seq<Token>, pos: nat, count: nat, holes: bool, acc: seq<SelectItem>, item: SelectItem, next: nat, counted: nat)
    requires ParseItem(ts, pos, count, holes) == Ok(Parsed(item, next, counted))
    ensures ItemList(ts, pos, count, holes, acc)
         == if Peek(ts, next) == Some(Comma) then ItemList(ts, next + 1, counted, holes, acc + [item])
            else Ok(Parsed(acc + [item], next, counted))
  {
    hide ParseItem;
  }

  lemma FirstItem(items: seq<ItemForm>, count: nat)
    requires items != []
    ensures ItemMeanings(items, count) == [ItemMeaning(items[0], count)] + ItemMeanings(items[1..], count + ItemHoles(items[0]))
    ensures ItemsHoles(items) == ItemHoles(items[0]) + ItemsHoles(items[1..])
    ensures |items| == 1 ==> ItemMeanings(items, count) == [ItemMeaning(items[0], count)] && ItemsHoles(items) == ItemHoles(items[0])
  {
    hide ItemMeaning, ItemHoles;
    if |items| == 1 {
      assert items[1..] == [];
      assert ItemsHoles([]) == 0;
    }
  }

  lemma {:induction false} ItemsParse(ts: seq<Token>, pos: nat, count: nat, holes: bool, items: seq<ItemForm>, acc: seq<SelectItem>)
    requires items != [] && (forall i :: 0 <= i < |items| ==> ItemOk(items[i], holes))
    requires Here(ts, pos, Commas(ItemPieces(items))) && Level(Peek(ts, pos + |Commas(ItemPieces(items))|)) < 8
    ensures ItemList(ts, pos, count, holes, acc)
         == Ok(Parsed(acc + ItemMeanings(items, count), pos + |Commas(ItemPieces(items))|, count + ItemsHoles(items)))
    decreases |items|
  {
    hide Here, ItemTokens, ItemList, Commas, ItemMeaning, ItemMeanings, ItemHoles, ItemsHoles, ItemOk, ParseItem;
    var pieces := ItemPieces(items);
    CommasHere(ts, pos, pieces);
    ItemParses(ts, pos, count, holes, items[0]);
    var first, counted := ItemMeaning(items[0], count), count + ItemHoles(items[0]);
    ItemStep(ts, pos, count, holes, acc, first, pos + |pieces[0]|, counted);
    FirstItem(items, count);
    if |items| > 1 {
      assert pieces[1..] == ItemPieces(items[1..]);
      ItemsParse(ts, pos + |pieces[0]| + 1, counted, holes, items[1..], acc + [first]);
      assert acc + [first] + ItemMeanings(items[1..], counted) == acc + ItemMeanings(items, count);
    }
  }

  /** A SELECT from the pieces it is made of. */
  lemma SelectStep(ts: seq<Token>, holes: bool, items: Parsed<seq<SelectItem>>, source: Parsed<Source>, tail: At<Tail>)
    requires Peek(ts, 0) == Some(Keyword(KSelect)) && ItemList(ts, 1, 0, holes, []) == Ok(items)
    requires items.pos <= |ts| && OptionalFrom(ts, items.pos, items.count, holes) == Ok(source)
    requires source.pos <= |ts| && ParseTail(ts, source.pos) == Ok(tail) && AtEnd(ts, tail.pos)
    ensures ParseSelect(ts, 0, 0, holes)
         == Ok(Parsed(Select(items.value, source.value.from, source.value.selection, tail.value.groupBy,
                             tail.value.orderBy, tail.value.limit, tail.value.offset), |ts|, source.count))
  {
    hide ItemList, OptionalFrom, ParseTail, AtEnd;
  }

  /** Where the pieces of a SELECT stand. */
  lemma SelectPieces(ts: seq<Token>, s: StatementForm)
    requires s.SelectForm? && ts == Tokens(s)
    ensures var items, source := Commas(ItemPieces(s.items)), SourceTokens(s.source);
      var tail := TailTokens(s.groupBy, s.orderBy, s.limit, s.semicolon);
      && Peek(ts, 0) == Some(Keyword(KSelect)) && Here(ts, 1, items) && Here(ts, 1 + |items|, source)
      && Here(ts, 1 + |items| + |source|, tail) && 1 + |items| + |source| + |tail| == |ts|
  {
    hide Here, Commas, ItemPieces, SourceTokens, TailTokens;
    var items, source := Commas(ItemPieces(s.items)), SourceTokens(s.source);
    var tail := TailTokens(s.groupBy, s.orderBy, s.limit, s.semicolon);
    WholeHere(ts);
    HereSplit(ts, 0, [Keyword(KSelect)], items + (source + tail));
    HereSplit(ts, 1, items, source + tail);
    HereSplit(ts, 1 + |items|, source, tail);
    HereOne(ts, 0, Keyword(KSelect));
  }

  lemma SelectOk(s: StatementForm, holes: bool)
    requires s.SelectForm? && WellWritten(s, holes)
    ensures s.items != [] && (forall i :: 0 <= i < |s.items| ==> ItemOk(s.items[i], holes))
    ensures SourceOk(s.source, holes) && (forall i :: 0 <= i < |s.orderBy| ==> OrderOk(s.orderBy[i])) && LimitOk(s.limit)
  {
    hide ItemOk, SourceOk, OrderOk, LimitOk;
  }

  lemma SelectMeans(s: StatementForm)
    requires s.SelectForm?
    ensures var src := SourceMeaning(s.source, ItemsHoles(s.items));
      Meaning(s) == Select(ItemMeanings(s.items, 0), src.from, src.selection, s.groupBy, OrderMeanings(s.orderBy),
                           LimitMeaning(s.limit).0, LimitMeaning(s.limit).1)
    ensures Parameters(s) == ItemsHoles(s.items) + SourceHoles(s.source)
  {
    hide SourceMeaning, ItemsHoles, ItemMeanings, OrderMeanings, LimitMeaning, SourceHoles;
  }

  lemma SelectParses(ts: seq<Token>, s: StatementForm, holes: bool)
    requires s.SelectForm? && WellWritten(s, holes) && ts == Tokens(s)
    ensures ParseSelect(ts, 0, 0, holes) == Ok(Parsed(Meaning(s), |ts|, Parameters(s)))
    ensures Peek(ts, 0) == Some(Keyword(KSelect))
  {
    hide *;
    SelectPieces(ts, s);
    SelectOk(s, holes);
    SelectMeans(s);
    var n1 := 1 + |Commas(ItemPieces(s.items))|;
    var n2 := n1 + |SourceTokens(s.source)|;
    TailParses(ts, n2, s.groupBy, s.orderBy, s.limit, s.semicolon);
    SourceParses(ts, n1, ItemsHoles(s.items), holes, s.source);
    ItemsParse(ts, 1, 0, holes, s.items, []);
    var items := Parsed(ItemMeanings(s.items, 0), n1, ItemsHoles(s.items));
    var source := Parsed(SourceMeaning(s.source, items.count), n2, items.count + SourceHoles(s.source));
    assert [] + items.value == items.value;
    SelectStep(ts, holes, items, source, ParseTail(ts, n2).value);
  }

  lemma WholeHere(ts: seq<Token>)
    ensures Here(ts, 0, ts)
  {}

  // ---- INSERT ----

  lemma {:induction false} IdentsParse(ts: seq<Token>, pos: nat, names: seq<Text>, acc: seq<Text>)
    requires names != [] && Here(ts, pos, Commas(IdentPieces(names)))
    requires Peek(ts, pos + |Commas(IdentPieces(names))|) == Some(RParen)
    ensures IdentList(ts, pos, acc) == Ok(At(acc + names, pos + |Commas(IdentPieces(names))| + 1))
    decreases |names|
  {
    hide Here, Commas;
    var pieces := IdentPieces(names);
    CommasHere(ts, pos, pieces);
    HereOne(ts, pos, Ident(names[0]));
    if |names| > 1 {
      assert pieces[1..] == IdentPieces(names[1..]);
      IdentsParse(ts, pos + 2, names[1..], acc + [names[0]]);
      assert acc + [names[0]] + names[1..] == acc + names;
    } else {
      assert names == [names[0]];
    }
  }

  lemma BracketsHere(ts: seq<Token>, pos: nat, inner: seq<Token>)
    requires Here(ts, pos, [LParen] + (inner + [RParen]))
    ensures Peek(ts, pos) == Some(LParen) && Here(ts, pos + 1, inner) && Peek(ts, pos + 1 + |inner|) == Some(RParen)
  {
    hide Here;
    HereSplit(ts, pos, [LParen], inner + [RParen]);
    HereSplit(ts, pos + 1, inner, [RParen]);
    HereOne(ts, pos, LParen);
    HereOne(ts, pos + 1 + |inner|, RParen);
  }

  lemma ColumnListParses(ts: seq<Token>, pos: nat, columns: Option<seq<Text>>)
    requires columns.Some? ==> columns.value != []
    requires Here(ts, pos, ColumnListTokens(columns)) && Peek(ts, pos + |ColumnListTokens(columns)|) == Some(Keyword(KValues))
    ensures OptionalColumns(ts, pos) == Ok(At(columns, pos + |ColumnListTokens(columns)|))
    ensures Peek(ts, pos) != Some(Dot)
  {
    hide Here, Commas, IdentPieces, IdentList;
    if columns.Some? {
      BracketsHere(ts, pos, Commas(IdentPieces(columns.value)));
      IdentsParse(ts, pos + 1, columns.value, []);
      assert [] + columns.value == columns.value;
    }
  }

  lemma ValueStep(ts: seq<Token>, pos: nat, count: nat, holes: bool, acc: seq<Expr>, e: Expr, next: nat, counted: nat)
    requires ParseExpr(ts, pos, count, holes) == Ok(Parsed(e, next, counted))
    ensures Peek(ts, next) == Some(Comma) ==>
      ValueList(ts, pos, count, holes, acc) == ValueList(ts, next + 1, counted, holes, acc + [e])
    ensures Peek(ts, next) == Some(RParen) ==>
      ValueList(ts, pos, count, holes, acc) == Ok(Parsed(acc + [e], next + 1, counted))
  {
    hide ParseExpr;
  }

  lemma {:induction false} ValuesParse(ts: seq<Token>, pos: nat, count: nat, holes: bool, es: seq<ExprForm>, acc: seq<Expr>)
    requires es != [] && ExprsOk(es, holes) && Here(ts, pos, Commas(ExprPieces(es)))
    requires Peek(ts, pos + |Commas(ExprPieces(es))|) == Some(RParen)
    ensures ValueList(ts, pos, count, holes, acc)
         == Ok(Parsed(acc + ExprMeanings(es, count), pos + |Commas(ExprPieces(es))| + 1, count + HolesIn(es)))
    decreases |es|
  {
    hide ParseExpr, ValueList, ExprTokens, ExprMeaning, ExprMeanings, ExprHoles, HolesIn, ExprOk, Here, Commas;
    FirstMeaning(es, count);
    var pieces := ExprPieces(es);
    CommasHere(ts, pos, pieces);
    assert ExprOk(es[0], holes);
    ExprParses(ts, pos, count, holes, es[0]);
    var first := ExprMeaning(es[0], count);
    ValueStep(ts, pos, count, holes, acc, first, pos + |pieces[0]|, count + ExprHoles(es[0]));
    if |es| > 1 {
      assert pieces[1..] == ExprPieces(es[1..]);
      ValuesParse(ts, pos + |pieces[0]| + 1, count + ExprHoles(es[0]), holes, es[1..], acc + [first]);
      assert acc + [first] + ExprMeanings(es[1..], count + ExprHoles(es[0])) == acc + ExprMeanings(es, count);
    }
  }

  /** One row, from its opening to behind its closing parenthesis. */
  lemma RowParses(ts: seq<Token>, pos: nat, count: nat, holes: bool, row: seq<ExprForm>)
    requires row != [] && ExprsOk(row, holes) && Here(ts, pos, RowTokens(row))
    ensures Peek(ts, pos) == Some(LParen)
    ensures ValueList(ts, pos + 1, count, holes, [])
         == Ok(Parsed(ExprMeanings(row, count), pos + |RowTokens(row)|, count + HolesIn(row)))
  {
    hide Here, Commas, ExprPieces, ValueList, ExprMeanings, HolesIn, ExprsOk;
    var inner := Commas(ExprPieces(row));
    HereSplit(ts, pos, [LParen], inner + [RParen]);
    HereSplit(ts, pos + 1, inner, [RParen]);
    HereOne(ts, pos, LParen);
    HereOne(ts, pos + 1 + |inner|, RParen);
    ValuesParse(ts, pos + 1, count, holes, row, []);
    assert [] + ExprMeanings(row, count) == ExprMeanings(row, count);
  }

  lemma RowStep(ts: seq<Token>, pos: nat, count: nat, holes: bool, acc: seq<seq<Expr>>, row: seq<Expr>, next: nat, counted: nat)
    requires Peek(ts, pos) == Some(LParen) && ValueList(ts, pos + 1, count, holes, []) == Ok(Parsed(row, next, counted))
    ensures RowList(ts, pos, count, holes, acc)
         == if Peek(ts, next) == Some(Comma) then RowList(ts, next + 1, counted, holes, acc + [row])
            else Ok(Parsed(acc + [row], next, counted))
  {
    hide ValueList;
  }

  lemma FirstRow(rows: seq<seq<ExprForm>>, count: nat)
    requires rows != []
    ensures RowMeanings(rows, count) == [ExprMeanings(rows[0], count)] + RowMeanings(rows[1..], count + HolesIn(rows[0]))
    ensures RowsHoles(rows) == HolesIn(rows[0]) + RowsHoles(rows[1..])
    ensures |rows| == 1 ==> RowMeanings(rows, count) == [ExprMeanings(rows[0], count)] && RowsHoles(rows) == HolesIn(rows[0])
  {
    hide ExprMeanings, HolesIn;
    if |rows| == 1 {
      assert rows[1..] == [];
      assert RowsHoles([]) == 0;
    }
  }

  lemma {:induction false} RowsParse(ts: seq<Token>, pos: nat, count: nat, holes: bool, rows: seq<seq<ExprForm>>,
                                     acc: seq<seq<Expr>>)
    requires rows != [] && forall i :: 0 <= i < |rows| ==> rows[i] != [] && ExprsOk(rows[i], holes)
    requires Here(ts, pos, Commas(RowPieces(rows))) && Level(Peek(ts, pos + |Commas(RowPieces(rows))|)) < 8
    ensures RowList(ts, pos, count, holes, acc)
         == Ok(Parsed(acc + RowMeanings(rows, count), pos + |Commas(RowPieces(rows))|, count + RowsHoles(rows)))
    decreases |rows|
  {
    hide Here, RowTokens, RowList, Commas, ExprMeanings, RowMeanings, HolesIn, RowsHoles, ExprsOk, ValueList;
    var pieces := RowPieces(rows);
    CommasHere(ts, pos, pieces);
    RowParses(ts, pos, count, holes, rows[0]);
    var first, counted := ExprMeanings(rows[0], count), count + HolesIn(rows[0]);
    RowStep(ts, pos, count, holes, acc, first, pos + |pieces[0]|, counted);
    FirstRow(rows, count);
    if |rows| > 1 {
      assert pieces[1..] == RowPieces(rows[1..]);
      RowsParse(ts, pos + |pieces[0]| + 1, counted, holes, rows[1..], acc + [first]);
      assert acc + [first] + RowMeanings(rows[1..], counted) == acc + RowMeanings(rows, count);
    }
  }

  /** An INSERT from the pieces it is made of. */
  lemma InsertStep(ts: seq<Token>, holes: bool, table: At<Text>, columns: At<Option<seq<Text>>>, rows: Parsed<seq<seq<Expr>>>)
    requires Peek(ts, 0) == Some(Keyword(KInsert)) && Peek(ts, 1) == Some(Keyword(KInto))
    requires QualifiedIdent(ts, 2) == Ok(table) && table.pos <= |ts| && OptionalColumns(ts, table.pos) == Ok(columns)
    requires Peek(ts, columns.pos) == Some(Keyword(KValues))
    requires RowList(ts, columns.pos + 1, 0, holes, []) == Ok(rows) && AtEnd(ts, rows.pos)
    ensures ParseInsert(ts, 0, 0, holes) == Ok(Parsed(Insert(table.value, columns.value, rows.value), |ts|, rows.count))
  {
    hide QualifiedIdent, OptionalColumns, RowList, AtEnd;
  }

  /** Where the pieces of an INSERT stand. */
  lemma InsertPieces(ts: seq<Token>, s: StatementForm)
    requires s.InsertForm? && ts == Tokens(s)
    ensures var name, columns := NameTokens(s.schemas, s.name), ColumnListTokens(s.columns);
      var rows, end := Commas(RowPieces(s.rows)), EndTokens(s.semicolon);
      var q := 2 + |name| + |columns|;
      && Peek(ts, 0) == Some(Keyword(KInsert)) && Peek(ts, 1) == Some(Keyword(KInto)) && Peek(ts, q) == Some(Keyword(KValues))
      && Here(ts, 2, name) && Here(ts, 2 + |name|, columns) && Here(ts, q + 1, rows) && Here(ts, q + 1 + |rows|, end)
      && q + 1 + |rows| + |end| == |ts|
  {
    hide Here, Commas, NameTokens, ColumnListTokens, RowPieces, EndTokens;
    var name, columns := NameTokens(s.schemas, s.name), ColumnListTokens(s.columns);
    var rows, end := Commas(RowPieces(s.rows)), EndTokens(s.semicolon);
    WholeHere(ts);
    HereSix(ts, 0, [Keyword(KInsert), Keyword(KInto)], name, columns, [Keyword(KValues)], rows, end);
    TwoHere(ts, 0, Keyword(KInsert), Keyword(KInto));
    HereOne(ts, 2 + |name| + |columns|, Keyword(KValues));
  }

  lemma InsertOk(s: StatementForm, holes: bool)
    requires s.InsertForm? && WellWritten(s, holes)
    ensures s.columns.Some? ==> s.columns.value != []
    ensures s.rows != [] && forall i :: 0 <= i < |s.rows| ==> s.rows[i] != [] && ExprsOk(s.rows[i], holes)
  {
    hide ExprsOk;
  }

  lemma InsertMeans(s: StatementForm)
    requires s.InsertForm?
    ensures Meaning(s) == Insert(s.name, s.columns, RowMeanings(s.rows, 0)) && Parameters(s) == RowsHoles(s.rows)
  {
    hide RowMeanings, RowsHoles;
  }

  lemma InsertParses(ts: seq<Token>, s: StatementForm, holes: bool)
    requires s.InsertForm? && WellWritten(s, holes) && ts == Tokens(s)
    ensures ParseInsert(ts, 0, 0, holes) == Ok(Parsed(Meaning(s), |ts|, Parameters(s)))
    ensures Peek(ts, 0) == Some(Keyword(KInsert))
  {
    hide *;
    InsertPieces(ts, s);
    InsertOk(s, holes);
    InsertMeans(s);
    var p := 2 + |NameTokens(s.schemas, s.name)|;
    var q := p + |ColumnListTokens(s.columns)|;
    var r := q + 1 + |Commas(RowPieces(s.rows))|;
    EndParses(ts, r, s.semicolon);
    RowsParse(ts, q + 1, 0, holes, s.rows, []);
    ColumnListParses(ts, p, s.columns);
    NameParses(ts, 2, s.schemas, s.name);
    assert [] + RowMeanings(s.rows, 0) == RowMeanings(s.rows, 0);
    InsertStep(ts, holes, At(s.name, p), At(s.columns, q), Parsed(RowMeanings(s.rows, 0), r, RowsHoles(s.rows)));
  }

  /** Every spelling of an INSERT or SELECT parses to the statement it stands for, with
      its placeholders counted. */
  lemma SpellingParses(s: StatementForm, holes: bool)
    requires WellWritten(s, holes)
    ensures ParseStatement(Tokens(s), holes) == Ok(Parsed(Meaning(s), |Tokens(s)|, Parameters(s)))
  {
    hide ParseInsert, ParseSelect, Tokens, Meaning, Parameters, WellWritten;
    if s.InsertForm? {
      InsertParses(Tokens(s), s, holes);
    } else {
      SelectParses(Tokens(s), s, holes);
    }
  }
}
