/** The payload format of write-ahead-log records: the encoders and `decode_entry`
    of `storage::log`. */
module LogFormat {
  import opened Basics
  import opened Values

  datatype Entry =
    | CreateTable(table: Text, columns: seq<ColumnSchema>, primaryKey: Option<Text>)
    | InsertRow(table: Text, row: Row)
    | Transaction(rows: seq<(Text, Row)>)
    | CreateDatabase(name: Text)
    | DropDatabase(name: Text)
    | AlterTable(table: Text, change: SchemaChange)

  const TAG_CREATE_TABLE: byte := 1
  const TAG_INSERT_ROW: byte := 2
  const TAG_TRANSACTION: byte := 3
  const TAG_CREATE_DATABASE: byte := 4
  const TAG_DROP_DATABASE: byte := 5
  const TAG_ALTER_TABLE: byte := 6

  const ALTER_ADD_COLUMN: byte := 0
  const ALTER_DROP_COLUMN: byte := 1
  const ALTER_MODIFY_COLUMN: byte := 2
  const ALTER_ADD_PRIMARY_KEY: byte := 3
  const ALTER_DROP_PRIMARY_KEY: byte := 4

  const VALUE_NULL: byte := 0
  const VALUE_INT: byte := 1
  const VALUE_VARCHAR: byte := 2
  const VALUE_DECIMAL: byte := 3
  const VALUE_DATE: byte := 4

  const COLUMN_TYPE_INT: byte := 0
  const COLUMN_TYPE_VARCHAR: byte := 1
  const COLUMN_TYPE_DECIMAL: byte := 2
  const COLUMN_TYPE_DATE: byte := 3

  // ---- encoders ----

  /** `n as u32`: a length that does not fit is truncated. */
  function WriteCount(n: nat): (bs: seq<byte>)
    ensures |bs| == 4
  {
    U32Bytes(n % U32_LIMIT)
  }

  function WriteString(s: Text): seq<byte> {
    WriteCount(|s|) + s
  }

  function WriteValue(v: Value): seq<byte> {
    match v
    case Null => [VALUE_NULL]
    case Int(n) => [VALUE_INT] + I64Bytes(n)
    case Varchar(s) => [VALUE_VARCHAR] + WriteString(s)
    case Decimal(u, scale) => [VALUE_DECIMAL] + I64Bytes(u) + [scale]
    case Date(s) => [VALUE_DATE] + WriteString(s)
  }

  function WriteColumnType(t: ColumnType): seq<byte> {
    match t
    case TInt => [COLUMN_TYPE_INT]
    case TVarchar => [COLUMN_TYPE_VARCHAR]
    case TDate => [COLUMN_TYPE_DATE]
    case TDecimal(scale) => [COLUMN_TYPE_DECIMAL, scale]
  }

  function WriteColumn(c: ColumnSchema): seq<byte> {
    var flags: byte := (if c.nullable then 1 else 0) + (if c.autoIncrement then 2 else 0);
    WriteString(c.name) + WriteColumnType(c.columnType) + [flags]
  }

  /** A list written element after element, as the encoder loops do. */
  function WriteMany<T>(write: T -> seq<byte>, xs: seq<T>): seq<byte> {
    if xs == [] then []
    else WriteMany(write, xs[..|xs| - 1]) + write(xs[|xs| - 1])
  }

  function WriteList<T>(write: T -> seq<byte>, xs: seq<T>): seq<byte> {
    WriteCount(|xs|) + WriteMany(write, xs)
  }

  function WriteTableRow(tr: (Text, Row)): seq<byte> {
    WriteString(tr.0) + WriteList(WriteValue, tr.1)
  }

  function WriteKey(pk: Option<Text>): seq<byte> {
    match pk
    case Some(name) => [1] + WriteString(name)
    case None => [0]
  }

  function WriteChange(change: SchemaChange): seq<byte> {
    match change
    case AddColumn(column, isPk) => [ALTER_ADD_COLUMN] + WriteColumn(column) + [if isPk then 1 else 0]
    case DropColumn(name) => [ALTER_DROP_COLUMN] + WriteString(name)
    case ModifyColumn(column) => [ALTER_MODIFY_COLUMN] + WriteColumn(column)
    case AddPrimaryKey(name) => [ALTER_ADD_PRIMARY_KEY] + WriteString(name)
    case DropPrimaryKey => [ALTER_DROP_PRIMARY_KEY]
  }

  function EncodeEntry(e: Entry): seq<byte> {
    match e
    case CreateTable(table, columns, pk) =>
      [TAG_CREATE_TABLE] + WriteString(table) + WriteKey(pk) + WriteList(WriteColumn, columns)
    case InsertRow(table, row) => [TAG_INSERT_ROW] + WriteTableRow((table, row))
    case Transaction(rows) => [TAG_TRANSACTION] + WriteList(WriteTableRow, rows)
    case CreateDatabase(name) => [TAG_CREATE_DATABASE] + WriteString(name)
    case DropDatabase(name) => [TAG_DROP_DATABASE] + WriteString(name)
    case AlterTable(table, change) => [TAG_ALTER_TABLE] + (WriteString(table) + WriteChange(change))
  }

  /** The loop every list encoder runs over its buffer. */
  method AppendMany<T>(start: seq<byte>, write: T -> seq<byte>, xs: seq<T>) returns (buf: seq<byte>)
    ensures buf == start + WriteMany(write, xs)
  {
    buf := start;
    for i := 0 to |xs|
      invariant buf == start + WriteMany(write, xs[..i])
    {
      buf := buf + write(xs[i]);
      assert xs[..i + 1][..i] == xs[..i];
    }
    assert xs[..|xs|] == xs;
  }

  lemma Assoc(a: seq<byte>, b: seq<byte>, c: seq<byte>)
    ensures (a + b) + c == a + (b + c)
  {}

  /** `encode_create_table`. */
  method EncodeCreateTable(table: Text, columns: seq<ColumnSchema>, pk: Option<Text>) returns (buf: seq<byte>)
    ensures buf == EncodeEntry(CreateTable(table, columns, pk))
  {
    hide WriteString, WriteCount, WriteColumn, WriteMany;
    buf := [TAG_CREATE_TABLE];
    buf := buf + WriteString(table);
    match pk {
      case Some(name) =>
        buf := buf + [1];
        buf := buf + WriteString(name);
      case None =>
        buf := buf + [0];
    }
    assert buf == [TAG_CREATE_TABLE] + WriteString(table) + WriteKey(pk);
    ghost var upToKey := buf;
    buf := buf + WriteCount(|columns|);
    buf := AppendMany(buf, WriteColumn, columns);
    Assoc(upToKey, WriteCount(|columns|), WriteMany(WriteColumn, columns));
  }

  /** The body of the loop of `encode_transaction`. */
  method AppendTableRow(start: seq<byte>, table: Text, row: Row) returns (buf: seq<byte>)
    ensures buf == start + WriteTableRow((table, row))
  {
    hide WriteString, WriteCount, WriteValue, WriteMany;
    buf := start + WriteString(table);
    buf := buf + WriteCount(|row|);
    buf := AppendMany(buf, WriteValue, row);
    Assoc(start + WriteString(table), WriteCount(|row|), WriteMany(WriteValue, row));
    Assoc(start, WriteString(table), WriteList(WriteValue, row));
  }

  /** `encode_transaction`. */
  method EncodeTransaction(rows: seq<(Text, Row)>) returns (buf: seq<byte>)
    ensures buf == EncodeEntry(Transaction(rows))
  {
    hide WriteString, WriteCount, WriteValue, WriteTableRow;
    buf := [TAG_TRANSACTION];
    buf := buf + WriteCount(|rows|);
    ghost var start := buf;
    for i := 0 to |rows|
      invariant buf == start + WriteMany(WriteTableRow, rows[..i])
    {
      buf := AppendTableRow(buf, rows[i].0, rows[i].1);
      assert rows[i] == (rows[i].0, rows[i].1);
      assert rows[..i + 1][..i] == rows[..i];
      Assoc(start, WriteMany(WriteTableRow, rows[..i]), WriteTableRow(rows[i]));
    }
    assert rows[..|rows|] == rows;
    Assoc([TAG_TRANSACTION], WriteCount(|rows|), WriteMany(WriteTableRow, rows));
  }

  // ---- decoder ----

  /** A decoded item and the cursor position after it. */
  datatype Read<+T> = Read(value: T, next: nat)

  function ReadCount(bytes: seq<byte>, pos: nat): Result<Read<u32>> {
    if pos + 4 <= |bytes| then
      LeValueOfFour(bytes[pos..pos + 4]);
      Ok(Read(LeValue(bytes[pos..pos + 4]), pos + 4))
    else Err(Execution)
  }

  function ReadI64(bytes: seq<byte>, pos: nat): Result<Read<i64>> {
    if pos + 8 <= |bytes| then Ok(Read(I64OfBytes(bytes[pos..pos + 8]), pos + 8))
    else Err(Execution)
  }

  function ReadByte(bytes: seq<byte>, pos: nat): Result<Read<byte>> {
    if pos < |bytes| then Ok(Read(bytes[pos], pos + 1)) else Err(Execution)
  }

  function ReadString(bytes: seq<byte>, pos: nat): Result<Read<Text>> {
    var n :- ReadCount(bytes, pos);
    if n.next + n.value <= |bytes| then
      Ok(Read(bytes[n.next..n.next + n.value], n.next + n.value))
    else Err(Execution)
  }

  function ReadColumnType(bytes: seq<byte>, pos: nat): Result<Read<ColumnType>> {
    var tag :- ReadByte(bytes, pos);
    if tag.value == COLUMN_TYPE_INT then Ok(Read(TInt, tag.next))
    else if tag.value == COLUMN_TYPE_VARCHAR then Ok(Read(TVarchar, tag.next))
    else if tag.value == COLUMN_TYPE_DATE then Ok(Read(TDate, tag.next))
    else if tag.value == COLUMN_TYPE_DECIMAL then
      var scale :- ReadByte(bytes, tag.next);
      Ok(Read(TDecimal(scale.value), scale.next))
    else Err(Execution)
  }

  function ReadColumn(bytes: seq<byte>, pos: nat): Result<Read<ColumnSchema>> {
    var name :- ReadString(bytes, pos);
    var columnType :- ReadColumnType(bytes, name.next);
    var flags :- ReadByte(bytes, columnType.next);
    Ok(Read(ColumnSchema(name.value, columnType.value, flags.value % 2 == 1, flags.value / 2 % 2 == 1), flags.next))
  }

  function ReadValue(bytes: seq<byte>, pos: nat): Result<Read<Value>> {
    var tag :- ReadByte(bytes, pos);
    if tag.value == VALUE_NULL then Ok(Read(Null, tag.next))
    else if tag.value == VALUE_INT then
      var n :- ReadI64(bytes, tag.next);
      Ok(Read(Int(n.value), n.next))
    else if tag.value == VALUE_VARCHAR then
      var s :- ReadString(bytes, tag.next);
      Ok(Read(Varchar(s.value), s.next))
    else if tag.value == VALUE_DECIMAL then
      var u :- ReadI64(bytes, tag.next);
      var scale :- ReadByte(bytes, u.next);
      Ok(Read(Decimal(u.value, scale.value), scale.next))
    else if tag.value == VALUE_DATE then
      var s :- ReadString(bytes, tag.next);
      Ok(Read(Date(s.value), s.next))
    else Err(Execution)
  }

  type Reader<!T> = (seq<byte>, nat) -> Result<Read<T>>

  function ReadMany<T>(read: Reader<T>, bytes: seq<byte>, pos: nat, n: nat): Result<Read<seq<T>>> {
    if n == 0 then Ok(Read([], pos))
    else
      var front :- ReadMany(read, bytes, pos, n - 1);
      var last :- read(bytes, front.next);
      Ok(Read(front.value + [last.value], last.next))
  }

  function ReadList<T>(read: Reader<T>, bytes: seq<byte>, pos: nat): Result<Read<seq<T>>> {
    var n :- ReadCount(bytes, pos);
    ReadMany(read, bytes, n.next, n.value)
  }

  function ReadTableRow(bytes: seq<byte>, pos: nat): Result<Read<(Text, Row)>> {
    var table :- ReadString(bytes, pos);
    var row :- ReadList(ReadValue, bytes, table.next);
    Ok(Read((table.value, row.value), row.next))
  }

  function ReadKey(bytes: seq<byte>, pos: nat): Result<Read<Option<Text>>> {
    var flag :- ReadByte(bytes, pos);
    if flag.value == 0 then Ok(Read(None, flag.next))
    else if flag.value == 1 then
      var name :- ReadString(bytes, flag.next);
      Ok(Read(Some(name.value), name.next))
    else Err(Execution)
  }

  function ReadChange(bytes: seq<byte>, pos: nat): Result<Read<SchemaChange>> {
    var tag :- ReadByte(bytes, pos);
    if tag.value == ALTER_ADD_COLUMN then
      var column :- ReadColumn(bytes, tag.next);
      var isPk :- ReadByte(bytes, column.next);
      Ok(Read(AddColumn(column.value, isPk.value != 0), isPk.next))
    else if tag.value == ALTER_DROP_COLUMN then
      var name :- ReadString(bytes, tag.next);
      Ok(Read(DropColumn(name.value), name.next))
    else if tag.value == ALTER_MODIFY_COLUMN then
      var column :- ReadColumn(bytes, tag.next);
      Ok(Read(ModifyColumn(column.value), column.next))
    else if tag.value == ALTER_ADD_PRIMARY_KEY then
      var name :- ReadString(bytes, tag.next);
      Ok(Read(AddPrimaryKey(name.value), name.next))
    else if tag.value == ALTER_DROP_PRIMARY_KEY then Ok(Read(DropPrimaryKey, tag.next))
    else Err(Execution)
  }

  function DecodeEntry(bytes: seq<byte>): Result<Entry> {
    var tag :- ReadByte(bytes, 0);
    if tag.value == TAG_CREATE_TABLE then
      var table :- ReadString(bytes, tag.next);
      var pk :- ReadKey(bytes, table.next);
      var columns :- ReadList(ReadColumn, bytes, pk.next);
      Ok(CreateTable(table.value, columns.value, pk.value))
    else if tag.value == TAG_INSERT_ROW then
      var tr :- ReadTableRow(bytes, tag.next);
      Ok(InsertRow(tr.value.0, tr.value.1))
    else if tag.value == TAG_TRANSACTION then
      var rows :- ReadList(ReadTableRow, bytes, tag.next);
      Ok(Transaction(rows.value))
    else if tag.value == TAG_CREATE_DATABASE then
      var name :- ReadString(bytes, tag.next);
      Ok(CreateDatabase(name.value))
    else if tag.value == TAG_DROP_DATABASE then
      var name :- ReadString(bytes, tag.next);
      Ok(DropDatabase(name.value))
    else if tag.value == TAG_ALTER_TABLE then
      var table :- ReadString(bytes, tag.next);
      var change :- ReadChange(bytes, table.next);
      Ok(AlterTable(table.value, change.value))
    else Err(Execution)
  }

  lemma {:induction false} ReadManyStuck<T>(read: Reader<T>, bytes: seq<byte>, pos: nat, i: nat, n: nat)
    requires i <= n && ReadMany(read, bytes, pos, i).Err?
    ensures ReadMany(read, bytes, pos, n) == Err(ReadMany(read, bytes, pos, i).error)
  {
    if i < n {
      ReadManyStuck(read, bytes, pos, i, n - 1);
    }
  }

  /** The `for _ in 0..count { items.push(read(bytes, &mut pos)?) }` loop. */
  method ReadCounted<T>(read: Reader<T>, bytes: seq<byte>, start: nat, n: nat) returns (r: Result<Read<seq<T>>>)
    ensures r == ReadMany(read, bytes, start, n)
  {
    var items: seq<T> := [];
    var pos := start;
    for i := 0 to n
      invariant ReadMany(read, bytes, start, i) == Ok(Read(items, pos))
    {
      var item := read(bytes, pos);
      if item.Err? {
        ReadManyStuck(read, bytes, start, i + 1, n);
        return Err(item.error);
      }
      items := items + [item.value.value];
      pos := item.value.next;
    }
    return Ok(Read(items, pos));
  }

  // ---- decoding undoes encoding ----

  /** `enc` stands in `bytes` at `pos`. */
  predicate At(bytes: seq<byte>, pos: nat, enc: seq<byte>) {
    pos + |enc| <= |bytes| && bytes[pos..pos + |enc|] == enc
  }

  lemma AtSplit(bytes: seq<byte>, pos: nat, a: seq<byte>, b: seq<byte>)
    requires At(bytes, pos, a + b)
    ensures At(bytes, pos, a) && At(bytes, pos + |a|, b)
  {
    assert bytes[pos..pos + |a|] == (a + b)[..|a|];
    assert bytes[pos + |a|..pos + |a| + |b|] == (a + b)[|a|..];
  }

  predicate FitsText(s: Text) {
    |s| < U32_LIMIT
  }

  predicate FitsValue(v: Value) {
    match v
    case Varchar(s) => FitsText(s)
    case Date(s) => FitsText(s)
    case _ => true
  }

  predicate FitsTableRow(tr: (Text, Row)) {
    FitsText(tr.0) && |tr.1| < U32_LIMIT && forall v :: v in tr.1 ==> FitsValue(v)
  }

  predicate FitsChange(change: SchemaChange) {
    match change
    case AddColumn(column, _) => FitsText(column.name)
    case DropColumn(name) => FitsText(name)
    case ModifyColumn(column) => FitsText(column.name)
    case AddPrimaryKey(name) => FitsText(name)
    case DropPrimaryKey => true
  }

  /** Every length the encoder narrows to `u32` survives the narrowing. */
  predicate FitsEntry(e: Entry) {
    match e
    case CreateTable(table, columns, pk) =>
      && FitsText(table) && (pk.Some? ==> FitsText(pk.value))
      && |columns| < U32_LIMIT && forall c :: c in columns ==> FitsText(c.name)
    case InsertRow(table, row) => FitsTableRow((table, row))
    case Transaction(rows) => |rows| < U32_LIMIT && forall tr :: tr in rows ==> FitsTableRow(tr)
    case CreateDatabase(name) => FitsText(name)
    case DropDatabase(name) => FitsText(name)
    case AlterTable(table, change) => FitsText(table) && FitsChange(change)
  }

  /** Reading back what was written at `pos`: the shape of every round trip below. */
  ghost predicate Returns<T>(r: Result<Read<T>>, x: T, pos: nat, enc: seq<byte>) {
    r.Ok? && r.value.value == x && r.value.next == pos + |enc|
  }

  lemma CountBack(bytes: seq<byte>, pos: nat, n: nat)
    requires n < U32_LIMIT && At(bytes, pos, WriteCount(n))
    ensures Returns(ReadCount(bytes, pos), n, pos, WriteCount(n))
  {
    hide LeBytes, LeValue;
    U32RoundTrip(n);
  }

  lemma StringBack(bytes: seq<byte>, pos: nat, s: Text)
    requires FitsText(s) && At(bytes, pos, WriteString(s))
    ensures Returns(ReadString(bytes, pos), s, pos, WriteString(s))
  {
    hide WriteCount, ReadCount;
    AtSplit(bytes, pos, WriteCount(|s|), s);
    CountBack(bytes, pos, |s|);
  }

  lemma I64Back(bytes: seq<byte>, pos: nat, n: i64)
    requires At(bytes, pos, I64Bytes(n))
    ensures Returns(ReadI64(bytes, pos), n, pos, I64Bytes(n))
  {
    I64RoundTrip(n);
  }

  lemma ValueBack(bytes: seq<byte>, pos: nat, v: Value)
    requires FitsValue(v) && At(bytes, pos, WriteValue(v))
    ensures Returns(ReadValue(bytes, pos), v, pos, WriteValue(v))
  {
    hide WriteString, ReadString, I64Bytes, ReadI64;
    match v
    case Null =>
    case Int(n) =>
      AtSplit(bytes, pos, [VALUE_INT], I64Bytes(n));
      I64Back(bytes, pos + 1, n);
    case Varchar(s) =>
      AtSplit(bytes, pos, [VALUE_VARCHAR], WriteString(s));
      StringBack(bytes, pos + 1, s);
    case Decimal(u, scale) =>
      AtSplit(bytes, pos, [VALUE_DECIMAL] + I64Bytes(u), [scale]);
      AtSplit(bytes, pos, [VALUE_DECIMAL], I64Bytes(u));
      I64Back(bytes, pos + 1, u);
    case Date(s) =>
      AtSplit(bytes, pos, [VALUE_DATE], WriteString(s));
      StringBack(bytes, pos + 1, s);
  }

  lemma ColumnTypeBack(bytes: seq<byte>, pos: nat, t: ColumnType)
    requires At(bytes, pos, WriteColumnType(t))
    ensures Returns(ReadColumnType(bytes, pos), t, pos, WriteColumnType(t))
  {
    if t.TDecimal? {
      assert bytes[pos] == WriteColumnType(t)[0];
      assert bytes[pos + 1] == WriteColumnType(t)[1];
    }
  }

  lemma ColumnBack(bytes: seq<byte>, pos: nat, c: ColumnSchema)
    requires FitsText(c.name) && At(bytes, pos, WriteColumn(c))
    ensures Returns(ReadColumn(bytes, pos), c, pos, WriteColumn(c))
  {
    hide WriteString, ReadString, WriteColumnType, ReadColumnType;
    var flags: byte := (if c.nullable then 1 else 0) + (if c.autoIncrement then 2 else 0);
    var name, ty := WriteString(c.name), WriteColumnType(c.columnType);
    AtSplit(bytes, pos, name + ty, [flags]);
    AtSplit(bytes, pos, name, ty);
    StringBack(bytes, pos, c.name);
    ColumnTypeBack(bytes, pos + |name|, c.columnType);
    assert bytes[pos + |name| + |ty|] == [flags][0];
  }

  /** Reading a list back, given that each of its items reads back wherever it stands. */
  lemma {:induction false} ManyBack<T>(read: Reader<T>, write: T -> seq<byte>, bytes: seq<byte>, pos: nat, xs: seq<T>)
    requires At(bytes, pos, WriteMany(write, xs))
    requires forall x, p: nat :: x in xs && At(bytes, p, write(x)) ==> Returns(read(bytes, p), x, p, write(x))
    ensures Returns(ReadMany(read, bytes, pos, |xs|), xs, pos, WriteMany(write, xs))
  {
    if xs != [] {
      var n := |xs| - 1;
      var front := WriteMany(write, xs[..n]);
      AtSplit(bytes, pos, front, write(xs[n]));
      ManyBack(read, write, bytes, pos, xs[..n]);
      assert xs == xs[..n] + [xs[n]];
    }
  }

  lemma ListBack<T>(read: Reader<T>, write: T -> seq<byte>, bytes: seq<byte>, pos: nat, xs: seq<T>)
    requires |xs| < U32_LIMIT && At(bytes, pos, WriteList(write, xs))
    requires forall x, p: nat :: x in xs && At(bytes, p, write(x)) ==> Returns(read(bytes, p), x, p, write(x))
    ensures Returns(ReadList(read, bytes, pos), xs, pos, WriteList(write, xs))
  {
    hide WriteCount, ReadCount;
    AtSplit(bytes, pos, WriteCount(|xs|), WriteMany(write, xs));
    CountBack(bytes, pos, |xs|);
    ManyBack(read, write, bytes, pos + 4, xs);
  }

  lemma TableRowBack(bytes: seq<byte>, pos: nat, tr: (Text, Row))
    requires FitsTableRow(tr) && At(bytes, pos, WriteTableRow(tr))
    ensures Returns(ReadTableRow(bytes, pos), tr, pos, WriteTableRow(tr))
  {
    hide WriteString, ReadString, WriteList, ReadList, WriteValue, ReadValue;
    var name := WriteString(tr.0);
    AtSplit(bytes, pos, name, WriteList(WriteValue, tr.1));
    StringBack(bytes, pos, tr.0);
    forall x, p: nat | x in tr.1 && At(bytes, p, WriteValue(x))
      ensures Returns(ReadValue(bytes, p), x, p, WriteValue(x))
    {
      ValueBack(bytes, p, x);
    }
    ListBack(ReadValue, WriteValue, bytes, pos + |name|, tr.1);
  }

  lemma KeyBack(bytes: seq<byte>, pos: nat, pk: Option<Text>)
    requires pk.Some? ==> FitsText(pk.value)
    requires At(bytes, pos, WriteKey(pk))
    ensures Returns(ReadKey(bytes, pos), pk, pos, WriteKey(pk))
  {
    if pk.Some? {
      AtSplit(bytes, pos, [1], WriteString(pk.value));
      StringBack(bytes, pos + 1, pk.value);
    }
  }

  lemma TagBack(bytes: seq<byte>, pos: nat, tag: byte, rest: seq<byte>)
    requires At(bytes, pos, [tag] + rest)
    ensures ReadByte(bytes, pos) == Ok(Read(tag, pos + 1))
    ensures At(bytes, pos + 1, rest)
  {
    AtSplit(bytes, pos, [tag], rest);
  }

  /** A change written as a tag and a name. */
  lemma NameRead(bytes: seq<byte>, pos: nat, tag: byte, name: Text, next: nat)
    requires ReadByte(bytes, pos) == Ok(Read(tag, pos + 1)) && ReadString(bytes, pos + 1) == Ok(Read(name, next))
    ensures tag == ALTER_DROP_COLUMN ==> ReadChange(bytes, pos) == Ok(Read(DropColumn(name), next))
    ensures tag == ALTER_ADD_PRIMARY_KEY ==> ReadChange(bytes, pos) == Ok(Read(AddPrimaryKey(name), next))
  {
    hide ReadByte, ReadString, ReadColumn;
  }

  lemma NameBack(bytes: seq<byte>, pos: nat, tag: byte, name: Text)
    requires FitsText(name) && At(bytes, pos, [tag] + WriteString(name))
    ensures tag == ALTER_DROP_COLUMN ==>
      ReadChange(bytes, pos) == Ok(Read(DropColumn(name), pos + |[tag] + WriteString(name)|))
    ensures tag == ALTER_ADD_PRIMARY_KEY ==>
      ReadChange(bytes, pos) == Ok(Read(AddPrimaryKey(name), pos + |[tag] + WriteString(name)|))
  {
    hide ReadByte, ReadString, WriteString, ReadChange, FitsText, At;
    TagBack(bytes, pos, tag, WriteString(name));
    StringBack(bytes, pos + 1, name);
    NameRead(bytes, pos, tag, name, pos + 1 + |WriteString(name)|);
  }

  /** A change written as a tag and a column. */
  lemma ModifyRead(bytes: seq<byte>, pos: nat, column: ColumnSchema, next: nat)
    requires ReadByte(bytes, pos) == Ok(Read(ALTER_MODIFY_COLUMN, pos + 1))
    requires ReadColumn(bytes, pos + 1) == Ok(Read(column, next))
    ensures ReadChange(bytes, pos) == Ok(Read(ModifyColumn(column), next))
  {
    hide ReadByte, ReadString, ReadColumn;
  }

  lemma ModifyBack(bytes: seq<byte>, pos: nat, column: ColumnSchema)
    requires FitsText(column.name) && At(bytes, pos, [ALTER_MODIFY_COLUMN] + WriteColumn(column))
    ensures ReadChange(bytes, pos)
         == Ok(Read(ModifyColumn(column), pos + |[ALTER_MODIFY_COLUMN] + WriteColumn(column)|))
  {
    hide ReadByte, WriteColumn, ReadColumn, ReadChange, FitsText, At;
    TagBack(bytes, pos, ALTER_MODIFY_COLUMN, WriteColumn(column));
    ColumnBack(bytes, pos + 1, column);
    ModifyRead(bytes, pos, column, pos + 1 + |WriteColumn(column)|);
  }

  /** A change written as a tag, a column and a flag. */
  lemma AddRead(bytes: seq<byte>, pos: nat, column: ColumnSchema, flag: byte, next: nat)
    requires ReadByte(bytes, pos) == Ok(Read(ALTER_ADD_COLUMN, pos + 1))
    requires ReadColumn(bytes, pos + 1) == Ok(Read(column, next)) && ReadByte(bytes, next) == Ok(Read(flag, next + 1))
    ensures ReadChange(bytes, pos) == Ok(Read(AddColumn(column, flag != 0), next + 1))
  {
    hide ReadByte, ReadString, ReadColumn;
  }

  lemma AddBack(bytes: seq<byte>, pos: nat, column: ColumnSchema, flag: byte)
    requires FitsText(column.name) && At(bytes, pos, [ALTER_ADD_COLUMN] + WriteColumn(column) + [flag])
    ensures ReadChange(bytes, pos)
         == Ok(Read(AddColumn(column, flag != 0), pos + |[ALTER_ADD_COLUMN] + WriteColumn(column) + [flag]|))
  {
    hide ReadByte, WriteColumn, ReadColumn, ReadChange, FitsText, At;
    AtSplit(bytes, pos, [ALTER_ADD_COLUMN] + WriteColumn(column), [flag]);
    TagBack(bytes, pos, ALTER_ADD_COLUMN, WriteColumn(column));
    ColumnBack(bytes, pos + 1, column);
    var next := pos + 1 + |WriteColumn(column)|;
    assert [flag] + [] == [flag];
    TagBack(bytes, next, flag, []);
    AddRead(bytes, pos, column, flag, next);
  }

  lemma DropKeyBack(bytes: seq<byte>, pos: nat)
    requires At(bytes, pos, [ALTER_DROP_PRIMARY_KEY])
    ensures ReadChange(bytes, pos) == Ok(Read(DropPrimaryKey, pos + 1))
  {
    hide ReadString, ReadColumn;
    assert [ALTER_DROP_PRIMARY_KEY] + [] == [ALTER_DROP_PRIMARY_KEY];
    TagBack(bytes, pos, ALTER_DROP_PRIMARY_KEY, []);
  }

  lemma ChangeBack(bytes: seq<byte>, pos: nat, change: SchemaChange)
    requires FitsChange(change) && At(bytes, pos, WriteChange(change))
    ensures Returns(ReadChange(bytes, pos), change, pos, WriteChange(change))
  {
    hide WriteString, WriteColumn, ReadChange, FitsText, At;
    match change
    case AddColumn(column, isPk) => AddBack(bytes, pos, column, if isPk then 1 else 0);
    case DropColumn(name) => NameBack(bytes, pos, ALTER_DROP_COLUMN, name);
    case ModifyColumn(column) => ModifyBack(bytes, pos, column);
    case AddPrimaryKey(name) => NameBack(bytes, pos, ALTER_ADD_PRIMARY_KEY, name);
    case DropPrimaryKey => DropKeyBack(bytes, pos);
  }

  lemma CreateTableBack(table: Text, columns: seq<ColumnSchema>, pk: Option<Text>)
    requires FitsEntry(CreateTable(table, columns, pk))
    ensures DecodeEntry(EncodeEntry(CreateTable(table, columns, pk))) == Ok(CreateTable(table, columns, pk))
  {
    hide WriteString, ReadString, WriteKey, ReadKey, WriteColumn, ReadColumn, WriteList, ReadList;
    var bytes := EncodeEntry(CreateTable(table, columns, pk));
    var name, key, cols := WriteString(table), WriteKey(pk), WriteList(WriteColumn, columns);
    var tagged := [TAG_CREATE_TABLE] + name;
    assert At(bytes, 0, tagged + key + cols);
    AtSplit(bytes, 0, tagged + key, cols);
    AtSplit(bytes, 0, tagged, key);
    AtSplit(bytes, 0, [TAG_CREATE_TABLE], name);
    StringBack(bytes, 1, table);
    KeyBack(bytes, 1 + |name|, pk);
    forall x, p: nat | x in columns && At(bytes, p, WriteColumn(x))
      ensures Returns(ReadColumn(bytes, p), x, p, WriteColumn(x))
    {
      ColumnBack(bytes, p, x);
    }
    ListBack(ReadColumn, WriteColumn, bytes, 1 + |name| + |key|, columns);
  }

  lemma TransactionBack(rows: seq<(Text, Row)>)
    requires FitsEntry(Transaction(rows))
    ensures DecodeEntry(EncodeEntry(Transaction(rows))) == Ok(Transaction(rows))
  {
    hide WriteTableRow, ReadTableRow, WriteList, ReadList;
    var bytes := EncodeEntry(Transaction(rows));
    assert At(bytes, 0, [TAG_TRANSACTION] + WriteList(WriteTableRow, rows));
    AtSplit(bytes, 0, [TAG_TRANSACTION], WriteList(WriteTableRow, rows));
    forall x, p: nat | x in rows && At(bytes, p, WriteTableRow(x))
      ensures Returns(ReadTableRow(bytes, p), x, p, WriteTableRow(x))
    {
      TableRowBack(bytes, p, x);
    }
    ListBack(ReadTableRow, WriteTableRow, bytes, 1, rows);
  }

  /** `decode_entry` undoes every encoder. */
  lemma EntryRoundTrip(e: Entry)
    requires FitsEntry(e)
    ensures DecodeEntry(EncodeEntry(e)) == Ok(e)
  {
    hide WriteString, ReadString, WriteTableRow, ReadTableRow, WriteChange, ReadChange, WriteKey, ReadKey, WriteColumn, ReadColumn, WriteList, ReadList;
    var bytes := EncodeEntry(e);
    assert At(bytes, 0, EncodeEntry(e));
    match e
    case CreateTable(table, columns, pk) => CreateTableBack(table, columns, pk);
    case Transaction(rows) => TransactionBack(rows);
    case InsertRow(table, row) =>
      AtSplit(bytes, 0, [TAG_INSERT_ROW], WriteTableRow((table, row)));
      TableRowBack(bytes, 1, (table, row));
    case CreateDatabase(name) =>
      AtSplit(bytes, 0, [TAG_CREATE_DATABASE], WriteString(name));
      StringBack(bytes, 1, name);
    case DropDatabase(name) =>
      AtSplit(bytes, 0, [TAG_DROP_DATABASE], WriteString(name));
      StringBack(bytes, 1, name);
    case AlterTable(table, change) =>
      AtSplit(bytes, 0, [TAG_ALTER_TABLE], WriteString(table) + WriteChange(change));
      AtSplit(bytes, 1, WriteString(table), WriteChange(change));
      StringBack(bytes, 1, table);
      ChangeBack(bytes, 1 + |WriteString(table)|, change);
  }
}
