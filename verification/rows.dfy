/** How the native library turns a query's result stream into a
    `QueryResult` (src/lib.rs: `row_to_vec`, `execute`). The database
    client is not modelled: a row offers, for each column index and Rust
    type, what `get_string` would return, and the server's answer is a
    sequence of stream items. */
module Rows {
  import opened Prelude
  import opened Types
  import opened NativeResults

  /** The SQL Server column types the client reports. */
  datatype ColumnType =
    | Null | Bit | Int1 | Int2 | Int4 | Int8 | Datetime4 | Float4 | Float8
    | Money | Datetime | Money4 | Guid | Intn | Bitn | Decimaln | Numericn
    | Floatn | Datetimen | Daten | Timen | Datetime2 | DatetimeOffsetn
    | BigVarBin | BigVarChar | BigBinary | BigChar | NVarchar | NChar
    | Xml | Udt | Text | Image | NText | SSVariant

  /** The Rust types a cell can be read as. */
  datatype RustType =
    | Bool | U8 | I16 | I32 | I64 | F32 | F64
    | PrimitiveDateTime | Date | Time | OffsetDateTime | Str

  /** Column types whose cells always come out as the empty string. */
  const NotDecoded: set<ColumnType> :=
    {Null, Money, Money4, Guid, BigVarBin, BigBinary, Xml, Udt, Image, SSVariant}

  /** Column types read as text. */
  const TextTypes: set<ColumnType> := {BigVarChar, BigChar, NVarchar, NChar, Text, NText}

  /** The Rust type `row_to_vec` reads each column type as, if any. */
  function DecodeAs(t: ColumnType): (r: Option<RustType>)
    ensures r.None? <==> t in NotDecoded
    ensures r == Some(Str) <==> t in TextTypes
    ensures t in {Intn, Bitn, Int8} <==> r == Some(I64)
    ensures t in {Decimaln, Numericn, Floatn, Float8} <==> r == Some(F64)
  {
    match t
    case Null => None
    case Bit => Some(Bool)
    case Int1 => Some(U8)
    case Int2 => Some(I16)
    case Int4 => Some(I32)
    case Int8 => Some(I64)
    case Datetime4 => Some(PrimitiveDateTime)
    case Float4 => Some(F32)
    case Float8 => Some(F64)
    case Money => None
    case Datetime => Some(PrimitiveDateTime)
    case Money4 => None
    case Guid => None
    case Intn => Some(I64)
    case Bitn => Some(I64)
    case Decimaln => Some(F64)
    case Numericn => Some(F64)
    case Floatn => Some(F64)
    case Datetimen => Some(PrimitiveDateTime)
    case Daten => Some(Date)
    case Timen => Some(Time)
    case Datetime2 => Some(PrimitiveDateTime)
    case DatetimeOffsetn => Some(OffsetDateTime)
    case BigVarBin => None
    case BigVarChar => Some(Str)
    case BigBinary => None
    case BigChar => Some(Str)
    case NVarchar => Some(Str)
    case NChar => Some(Str)
    case Xml => None
    case Udt => None
    case Text => Some(Str)
    case Image => None
    case NText => Some(Str)
    case SSVariant => None
  }

  /** A fetched row: its column types, and `get(i, T)`, the outcome of
      `get_string::<T>(row, i)` — `None` when the value is SQL NULL or
      cannot be read as `T`. Value formatting is not modelled. */
  datatype Row = Row(columns: seq<ColumnType>, get: (nat, RustType) -> Option<string>)

  /** The text of cell `i`: the decoded value, or "" when the column type is
      not decoded, the value is NULL, or decoding fails. */
  function CellText(row: Row, i: nat): string
    requires i < |row.columns|
  {
    match DecodeAs(row.columns[i])
    case None => ""
    case Some(t) => row.get(i, t).GetOr("")
  }

  /** The texts of all cells of a row. */
  function RowText(row: Row): seq<string> {
    seq(|row.columns|, i requires 0 <= i < |row.columns| => CellText(row, i))
  }

  /** `row_to_vec(row)`: one text per column, in column order; columns of a
      type that is not decoded, NULL values and failed decodes give "". It
      always succeeds. */
  method RowToVec(row: Row) returns (res: seq<string>)
    ensures |res| == |row.columns|
    ensures forall i :: 0 <= i < |res| && row.columns[i] in NotDecoded ==> res[i] == ""
    ensures forall i :: 0 <= i < |res| && row.columns[i] !in NotDecoded ==>
      res[i] == row.get(i, DecodeAs(row.columns[i]).value).GetOr("")
    ensures res == RowText(row)
  {
    res := [];
    for i := 0 to |row.columns|
      invariant |res| == i
      invariant forall j :: 0 <= j < i ==> res[j] == CellText(row, j)
    {
      var text := match DecodeAs(row.columns[i])
        case None => ""
        case Some(t) => (match row.get(i, t) case Some(v) => v case None => "");
      res := res + [text];
    }
  }

  /** One item of a query's result stream. */
  datatype QueryItem = Metadata(names: seq<string>) | RowItem(row: Row)

  /** What the server answers to a query: the query is refused outright, or
      a stream of items arrives and then ends cleanly (`failure == None`)
      or with an error. */
  datatype ServerReply =
    | Refused(error: string)
    | Stream(items: seq<QueryItem>, failure: Option<string>)

  /** Column names of all metadata items, in stream order. */
  function ColumnNames(items: seq<QueryItem>): seq<string>
    decreases |items|
  {
    if |items| == 0 then []
    else (if items[0].Metadata? then items[0].names else []) + ColumnNames(items[1..])
  }

  /** Texts of all row items, in stream order. */
  function RowTexts(items: seq<QueryItem>): seq<seq<string>>
    decreases |items|
  {
    if |items| == 0 then []
    else (if items[0].RowItem? then [RowText(items[0].row)] else []) + RowTexts(items[1..])
  }

  /** The `while let` loop of `execute`: metadata names are appended to
      `meta`, row texts to `data`, item by item. */
  function Accumulate(meta: seq<string>, data: seq<seq<string>>, items: seq<QueryItem>)
    : (r: (seq<string>, seq<seq<string>>))
    ensures r.0 == meta + ColumnNames(items)
    ensures r.1 == data + RowTexts(items)
    decreases |items|
  {
    if |items| == 0 then (meta, data)
    else
      var rest := items[1..];
      match items[0]
      case Metadata(names) =>
        assert ColumnNames(items) == names + ColumnNames(rest);
        assert RowTexts(items) == RowTexts(rest);
        AppendAssoc(meta, names, ColumnNames(rest));
        Accumulate(meta + names, data, rest)
      case RowItem(row) =>
        assert ColumnNames(items) == ColumnNames(rest);
        assert RowTexts(items) == [RowText(row)] + RowTexts(rest);
        AppendAssoc(data, [RowText(row)], RowTexts(rest));
        Accumulate(meta, data + [RowText(row)], rest)
  }

  /** `execute(runtime, client, query)`: a refused query or a stream error
      is an error with no partial result; otherwise all column names and
      all rows, in stream order, with an empty error. */
  function Execute(reply: ServerReply): (r: Result<QueryResult, string>)
    ensures r.Ok? <==> reply.Stream? && reply.failure.None?
    ensures r.Ok? ==> r.value == QueryResult("", ColumnNames(reply.items), RowTexts(reply.items))
    ensures r.Err? ==> r.error == (if reply.Refused? then reply.error else reply.failure.value)
  {
    match reply
    case Refused(e) => Err(e)
    case Stream(items, failure) =>
      var (meta, data) := Accumulate([], [], items);
      match failure
      case Some(e) => Err(e)
      case None => Ok(NewQueryResult(meta, data))
  }

  /** A single result set whose rows all have as many columns as its
      metadata gives a rectangular result: every row is as long as the
      metadata. */
  lemma {:induction false} SingleResultSetIsRectangular(names: seq<string>, rows: seq<Row>)
    requires forall k :: 0 <= k < |rows| ==> |rows[k].columns| == |names|
    ensures var r := Execute(Stream([Metadata(names)] + seq(|rows|, k requires 0 <= k < |rows| => RowItem(rows[k])), None));
      r.Ok? && r.value.metadata == names && |r.value.data| == |rows| &&
      forall k :: 0 <= k < |rows| ==> |r.value.data[k]| == |names|
  {
    var items := seq(|rows|, k requires 0 <= k < |rows| => RowItem(rows[k]));
    RowsOnly(rows);
    assert ([Metadata(names)] + items)[1..] == items;
    assert ColumnNames([Metadata(names)] + items) == names + ColumnNames(items);
    assert RowTexts([Metadata(names)] + items) == RowTexts(items);
  }

  /** A stream of row items only has no column names and one text per row. */
  lemma {:induction false} RowsOnly(rows: seq<Row>)
    ensures var items := seq(|rows|, k requires 0 <= k < |rows| => RowItem(rows[k]));
      ColumnNames(items) == [] &&
      |RowTexts(items)| == |rows| &&
      forall k :: 0 <= k < |rows| ==> RowTexts(items)[k] == RowText(rows[k])
    decreases |rows|
  {
    var items := seq(|rows|, k requires 0 <= k < |rows| => RowItem(rows[k]));
    if |rows| > 0 {
      RowsOnly(rows[1..]);
      assert items[1..] == seq(|rows[1..]|, k requires 0 <= k < |rows[1..]| => RowItem(rows[1..][k]));
    }
  }
}
