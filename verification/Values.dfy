/** Typed values, schemas and schema changes of the storage layer. */
module Values {
  import opened Basics

  datatype Value =
    | Int(n: i64)
    | Varchar(text: Text)
    /** The exact number `unscaled / 10^scale`. */
    | Decimal(unscaled: i64, scale: u8)
    | Date(day: Text)
    | Null

  datatype ColumnType = TInt | TVarchar | TDecimal(scale: u8) | TDate

  datatype ColumnSchema = ColumnSchema(name: Text, columnType: ColumnType, nullable: bool, autoIncrement: bool)

  datatype TableSchema = TableSchema(columns: seq<ColumnSchema>, primaryKey: Option<Text>)

  datatype SchemaChange =
    | AddColumn(column: ColumnSchema, isPrimaryKey: bool)
    | DropColumn(name: Text)
    | ModifyColumn(newColumn: ColumnSchema)
    | AddPrimaryKey(keyName: Text)
    | DropPrimaryKey

  type Row = seq<Value>

  /** `columns.iter().position(|c| c.name == name)`. */
  function ColumnIndex(columns: seq<ColumnSchema>, name: Text): (r: Option<nat>)
    ensures r.Some? ==>
      && r.value < |columns| && columns[r.value].name == name
      && forall j :: 0 <= j < r.value ==> columns[j].name != name
    ensures r.None? ==> forall j :: 0 <= j < |columns| ==> columns[j].name != name
  {
    if columns == [] then None
    else if columns[0].name == name then Some(0)
    else match ColumnIndex(columns[1..], name)
      case None => None
      case Some(i) => Some(i + 1)
  }

  /** `columns.iter().position(|c| c.auto_increment)`. */
  function AutoIndex(columns: seq<ColumnSchema>): (r: Option<nat>)
    ensures r.Some? ==>
      && r.value < |columns| && columns[r.value].autoIncrement
      && forall j :: 0 <= j < r.value ==> !columns[j].autoIncrement
    ensures r.None? ==> forall j :: 0 <= j < |columns| ==> !columns[j].autoIncrement
  {
    if columns == [] then None
    else if columns[0].autoIncrement then Some(0)
    else match AutoIndex(columns[1..])
      case None => None
      case Some(i) => Some(i + 1)
  }
}
