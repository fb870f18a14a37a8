/** Statements written out: every statement that has a plain spelling is read back from it,
    and no other statement is ever parsed. */
module Printing {
  import opened Basics
  import opened Ast
  import opened Grammar
  import opened Spelling
  import opened Language
  import opened Readings

  // ---- expressions ----

  /** No placeholder in it, and no column or function called TRUE or FALSE. */
  predicate PrintableExpr(e: Expr)
    decreases e
  {
    match e
    case Column(col) => PlainName(FirstName(col))
    case Function(name, args) => PlainName(name) && PrintableExprs(args)
    case Placeholder(_) => false
    case _ => true
  }

  predicate PrintableExprs(es: seq<Expr>)
    decreases es
  {
    forall i :: 0 <= i < |es| ==> PrintableExpr(es[i])
  }

  function ExprForms(es: seq<Expr>): (r: seq<ExprForm>)
    ensures |r| == |es| && forall i :: 0 <= i < |es| ==> r[i] == FormOf(es[i])
    decreases es
  {
    seq(|es|, i requires 0 <= i < |es| => FormOf(es[i]))
  }

  function FormOf(e: Expr): ExprForm
    decreases e
  {
    match e
    case Integer(n) => IntForm(n)
    case DecimalLiteral(u, s) => DecimalForm(u, s)
    case String(s) => TextForm(s)
    case NullLiteral => NullForm
    case SystemVariable(v) => VariableForm(v)
    case Column(col) => ColumnForm(col)
    case Function(name, args) => CallForm(name, ExprForms(args))
    case Placeholder(_) => HoleForm
  }

  lemma {:induction false} FormMeans(e: Expr, count: nat)
    requires PrintableExpr(e)
    ensures ExprOk(FormOf(e), false) && ExprMeaning(FormOf(e), count) == e && ExprHoles(FormOf(e)) == 0
    decreases e
  {
    hide SameWord;
    if e.Function? {
      FormsMean(e.args, count);
    }
  }

  lemma {:induction false} FormsMean(es: seq<Expr>, count: nat)
    requires PrintableExprs(es)
    ensures ExprsOk(ExprForms(es), false) && ExprMeanings(ExprForms(es), count) == es && HolesIn(ExprForms(es)) == 0
    decreases es, 0
  {
    hide FormOf, ExprOk, ExprMeaning, ExprHoles, PrintableExpr, SameWord, ExprMeanings, HolesIn;
    if es == [] {
      NoPieces(ExprForms(es), count);
    } else {
      var forms := ExprForms(es);
      assert PrintableExpr(es[0]);
      FormMeans(es[0], count);
      FormsMean(es[1..], count);
      assert forms[1..] == ExprForms(es[1..]);
      FirstMeaning(forms, count);
      assert es == [es[0]] + es[1..];
      forall i | 0 <= i < |forms|
        ensures ExprOk(forms[i], false)
      {
        assert i > 0 ==> forms[i] == ExprForms(es[1..])[i - 1];
      }
    }
  }

  // ---- statements ----

  function AliasOf(a: Option<Text>): AliasForm {
    match a
    case None => NoAlias
    case Some(name) => AsAlias(name)
  }

  function TableOf(t: TableRef): TableForm {
    TableForm([], t.name, AliasOf(t.alias))
  }

  function JoinOf(j: JoinClause): JoinForm {
    JoinForm(if j.joinType == Inner then PlainJoin else LeftJoin, TableOf(j.table), j.left, j.right)
  }

  function JoinForms(js: seq<JoinClause>): (r: seq<JoinForm>)
    ensures |r| == |js| && forall i :: 0 <= i < |js| ==> r[i] == JoinOf(js[i])
  {
    seq(|js|, i requires 0 <= i < |js| => JoinOf(js[i]))
  }

  function ConditionOf(c: Condition): ConditionForm {
    ConditionForm(c.column, c.op, FormOf(c.value))
  }

  function SourceOf(from: Option<FromClause>, selection: Option<Condition>): SourceForm {
    match from
    case None => NoFrom
    case Some(f) =>
      FromForm(TableOf(f.table), JoinForms(f.joins),
               match selection case Some(c) => Some(ConditionOf(c)) case None => None)
  }

  function OrderOf(o: OrderByItem): OrderForm {
    OrderForm(o.column, if o.descending then Descending(DESC_WORD) else NoDirection)
  }

  function OrderForms(os: seq<OrderByItem>): (r: seq<OrderForm>)
    ensures |r| == |os| && forall i :: 0 <= i < |os| ==> r[i] == OrderOf(os[i])
  {
    seq(|os|, i requires 0 <= i < |os| => OrderOf(os[i]))
  }

  function LimitOf(limit: Option<u64>, offset: Option<u64>): LimitForm {
    if limit.None? || limit.value > I64_MAX then NoLimit
    else if offset.None? || offset.value > I64_MAX then LimitOnly(limit.value)
    else LimitOffset(limit.value, OFFSET_WORD, offset.value)
  }

  function ItemOf(item: SelectItem): ItemForm {
    match item
    case Wildcard => StarForm
    case Item(e, alias) => ExprItem(FormOf(e), AliasOf(alias))
  }

  function ItemForms(items: seq<SelectItem>): (r: seq<ItemForm>)
    ensures |r| == |items| && forall i :: 0 <= i < |items| ==> r[i] == ItemOf(items[i])
  {
    seq(|items|, i requires 0 <= i < |items| => ItemOf(items[i]))
  }

  function RowForms(rows: seq<seq<Expr>>): (r: seq<seq<ExprForm>>)
    ensures |r| == |rows| && forall i :: 0 <= i < |rows| ==> r[i] == ExprForms(rows[i])
  {
    seq(|rows|, i requires 0 <= i < |rows| => ExprForms(rows[i]))
  }

  /** The plain spelling: no schema names, AS before aliases, JOIN and LEFT JOIN, DESC but
      no ASC, LIMIT with OFFSET, and no semicolon. */
  function PlainForm(s: Statement): StatementForm {
    match s
    case Insert(table, columns, rows) => InsertForm([], table, columns, RowForms(rows), false)
    case Select(items, from, selection, groupBy, orderBy, limit, offset) =>
      SelectForm(ItemForms(items), SourceOf(from, selection), groupBy, OrderForms(orderBy),
                 LimitOf(limit, offset), false)
  }

  /** The statement written out. */
  function Print(s: Statement): seq<Token> {
    Tokens(PlainForm(s))
  }

  predicate PrintableItem(item: SelectItem) {
    item.Item? ==> PrintableExpr(item.expr)
  }

  /** Lists are not empty, WHERE comes with FROM and OFFSET with LIMIT, numbers fit, and the
      expressions can be written. */
  predicate Printable(s: Statement) {
    match s
    case Insert(_, columns, rows) =>
      && (columns.Some? ==> columns.value != [])
      && rows != [] && forall i :: 0 <= i < |rows| ==> rows[i] != [] && PrintableExprs(rows[i])
    case Select(items, from, selection, _, _, limit, offset) =>
      && items != [] && (forall i :: 0 <= i < |items| ==> PrintableItem(items[i]))
      && (selection.Some? ==> from.Some? && PrintableExpr(selection.value.value))
      && (limit.Some? ==> limit.value <= I64_MAX) && (offset.Some? ==> limit.Some? && offset.value <= I64_MAX)
  }

  // ---- reading back ----

  lemma {:induction false} RowsMean(rows: seq<seq<Expr>>, count: nat)
    requires forall i :: 0 <= i < |rows| ==> PrintableExprs(rows[i])
    ensures RowMeanings(RowForms(rows), count) == rows && RowsHoles(RowForms(rows)) == 0
    decreases |rows|
  {
    hide ExprForms, ExprMeanings, HolesIn, PrintableExprs;
    if rows != [] {
      var forms := RowForms(rows);
      FormsMean(rows[0], count);
      RowsMean(rows[1..], count);
      assert forms[1..] == RowForms(rows[1..]);
      FirstRow(forms, count);
      assert rows == [rows[0]] + rows[1..];
    }
  }

  lemma ItemMeans(item: SelectItem, count: nat)
    requires PrintableItem(item)
    ensures ItemOk(ItemOf(item), false) && ItemMeaning(ItemOf(item), count) == item && ItemHoles(ItemOf(item)) == 0
  {
    hide FormOf, ExprOk, ExprMeaning, ExprHoles, PrintableExpr;
    if item.Item? {
      FormMeans(item.expr, count);
    }
  }

  lemma {:induction false} ItemsMean(items: seq<SelectItem>, count: nat)
    requires forall i :: 0 <= i < |items| ==> PrintableItem(items[i])
    ensures ItemMeanings(ItemForms(items), count) == items && ItemsHoles(ItemForms(items)) == 0
    ensures forall i :: 0 <= i < |items| ==> ItemOk(ItemForms(items)[i], false)
    decreases |items|
  {
    hide ItemOf, ItemMeaning, ItemHoles, ItemOk, PrintableItem;
    if items != [] {
      var forms := ItemForms(items);
      ItemMeans(items[0], count);
      ItemsMean(items[1..], count);
      assert forms[1..] == ItemForms(items[1..]);
      FirstItem(forms, count);
      assert items == [items[0]] + items[1..];
      forall i | 0 <= i < |forms|
        ensures ItemOk(forms[i], false)
      {
        assert i > 0 ==> forms[i] == ItemForms(items[1..])[i - 1];
      }
    }
  }

  lemma SourceMeans(from: Option<FromClause>, selection: Option<Condition>, count: nat)
    requires selection.Some? ==> from.Some? && PrintableExpr(selection.value.value)
    ensures var s := SourceOf(from, selection);
      SourceOk(s, false) && SourceMeaning(s, count) == Source(from, selection) && SourceHoles(s) == 0
  {
    hide FormOf, ExprOk, ExprMeaning, ExprHoles, PrintableExpr;
    if selection.Some? {
      FormMeans(selection.value.value, count);
    }
    if from.Some? {
      assert JoinMeanings(JoinForms(from.value.joins)) == from.value.joins;
    }
  }

  lemma OrdersMean(orderBy: seq<OrderByItem>)
    ensures OrderMeanings(OrderForms(orderBy)) == orderBy
    ensures forall i :: 0 <= i < |orderBy| ==> OrderOk(OrderForms(orderBy)[i])
  {}

  lemma LimitMeans(limit: Option<u64>, offset: Option<u64>)
    requires (limit.Some? ==> limit.value <= I64_MAX) && (offset.Some? ==> limit.Some? && offset.value <= I64_MAX)
    ensures LimitOk(LimitOf(limit, offset)) && LimitMeaning(LimitOf(limit, offset)) == (limit, offset)
  {}

  lemma PlainFormMeans(s: Statement)
    requires Printable(s)
    ensures WellWritten(PlainForm(s), false) && Meaning(PlainForm(s)) == s
  {
    match s
    case Insert(table, columns, rows) =>
      hide ExprForms, ExprMeanings, HolesIn, RowMeanings, ExprsOk, PrintableExprs;
      RowsMean(rows, 0);
      forall i | 0 <= i < |rows|
        ensures RowForms(rows)[i] != [] && ExprsOk(RowForms(rows)[i], false)
      {
        FormsMean(rows[i], 0);
      }
    case Select(items, from, selection, groupBy, orderBy, limit, offset) =>
      hide ItemOf, ItemMeanings, ItemsHoles, SourceOf, SourceMeaning, SourceHoles, OrderMeaning, LimitOf, LimitMeaning,
           ItemOk, SourceOk, OrderOk, LimitOk, PrintableItem, PrintableExpr, OrderOf;
      ItemsMean(items, 0);
      SourceMeans(from, selection, 0);
      OrdersMean(orderBy);
      LimitMeans(limit, offset);
  }

  /** Every statement that can be written out is read back from what is written. */
  lemma PrintParses(s: Statement)
    requires Printable(s)
    ensures ParseText(Print(s)) == Ok(s)
  {
    hide PlainForm, Printable, ParseStatement, Meaning, Tokens, WellWritten;
    PlainFormMeans(s);
    SpellingParses(PlainForm(s), false);
  }

  // ---- and nothing else is parsed ----

  lemma {:induction false} MeaningPrintable(e: ExprForm, count: nat)
    requires ExprOk(e, false)
    ensures PrintableExpr(ExprMeaning(e, count))
    decreases e
  {
    hide SameWord;
    match e
    case CallForm(name, args) => MeaningsPrintable(args, count);
    case CountStarForm(word) => WordsApart(word);
    case _ =>
  }

  lemma {:induction false} MeaningsPrintable(es: seq<ExprForm>, count: nat)
    requires ExprsOk(es, false)
    ensures PrintableExprs(ExprMeanings(es, count))
    decreases es, 0
  {
    hide ExprOk, ExprMeaning, ExprMeanings, ExprHoles, HolesIn, PrintableExpr;
    if es == [] {
      NoPieces(es, count);
    } else {
      FirstMeaning(es, count);
      assert ExprOk(es[0], false);
      MeaningPrintable(es[0], count);
      assert forall i :: 0 <= i < |es[1..]| ==> es[1..][i] == es[i + 1];
      MeaningsPrintable(es[1..], count + ExprHoles(es[0]));
    }
  }

  lemma {:induction false} RowsPrintable(rows: seq<seq<ExprForm>>, count: nat)
    requires forall i :: 0 <= i < |rows| ==> rows[i] != [] && ExprsOk(rows[i], false)
    ensures |RowMeanings(rows, count)| == |rows|
    ensures forall i :: 0 <= i < |rows| ==> RowMeanings(rows, count)[i] != [] && PrintableExprs(RowMeanings(rows, count)[i])
    decreases |rows|
  {
    hide ExprsOk, ExprMeanings, HolesIn, PrintableExprs;
    if rows != [] {
      MeaningsPrintable(rows[0], count);
      RowsPrintable(rows[1..], count + HolesIn(rows[0]));
    }
  }

  lemma {:induction false} ItemsPrintable(items: seq<ItemForm>, count: nat)
    requires forall i :: 0 <= i < |items| ==> ItemOk(items[i], false)
    ensures |ItemMeanings(items, count)| == |items|
    ensures forall i :: 0 <= i < |items| ==> PrintableItem(ItemMeanings(items, count)[i])
    decreases |items|
  {
    hide ExprOk, ExprMeaning, ExprHoles, PrintableExpr;
    if items != [] {
      assert ItemOk(items[0], false);
      if items[0].ExprItem? {
        MeaningPrintable(items[0].expr, count);
      }
      ItemsPrintable(items[1..], count + ItemHoles(items[0]));
    }
  }

  lemma FormPrintable(s: StatementForm)
    requires WellWritten(s, false)
    ensures Printable(Meaning(s))
  {
    match s
    case InsertForm(_, _, _, rows, _) =>
      hide ExprsOk, ExprMeanings, RowMeanings, HolesIn, PrintableExprs;
      RowsPrintable(rows, 0);
    case SelectForm(items, source, _, _, limit, _) =>
      hide ItemOk, ItemMeanings, ItemsHoles, PrintableItem, ExprOk, ExprMeaning, PrintableExpr, OrderOk;
      ItemsPrintable(items, 0);
      if source.FromForm? && source.selection.Some? {
        MeaningPrintable(source.selection.value.value, ItemsHoles(items));
      }
  }

  /** The statements that parsing can return are exactly those that can be written out. */
  lemma ParsedIsPrintable(s: Statement)
    ensures Printable(s) <==> exists ts: seq<Token> :: ParseText(ts) == Ok(s)
  {
    hide Printable, ParseText, Meaning, Spells;
    if Printable(s) {
      PrintParses(s);
    }
    forall ts: seq<Token> | ParseText(ts) == Ok(s)
      ensures Printable(s)
    {
      ParseExact(ts, s);
      assert StandsFor(ts, s);
      var form: StatementForm :| Spells(form, ts, false) && Meaning(form) == s;
      assert WellWritten(form, false) by { SpelledWell(form, ts); }
      FormPrintable(form);
    }
  }

  lemma SpelledWell(s: StatementForm, ts: seq<Token>)
    requires Spells(s, ts, false)
    ensures WellWritten(s, false)
  {
    hide WellWritten, Tokens;
  }
}
