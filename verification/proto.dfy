/**
 * The protocol-buffer messages of the binary metadata cache, as plain
 * values: an optional field is an Option, a repeated field a seq. How each
 * message serialises itself is not modelled here (see MetadataHolder.Codec).
 */
module Proto {
  import opened Wrappers
  import opened Primitives

  /** The column's physical type. */
  datatype PrimitiveTypeName =
    | INT64 | INT32 | BOOLEAN | BINARY | FLOAT | DOUBLE | INT96 | FIXED_LEN_BYTE_ARRAY

  function PrimitiveTypeText(t: PrimitiveTypeName): string {
    match t
    case INT64 => "INT64"
    case INT32 => "INT32"
    case BOOLEAN => "BOOLEAN"
    case BINARY => "BINARY"
    case FLOAT => "FLOAT"
    case DOUBLE => "DOUBLE"
    case INT96 => "INT96"
    case FIXED_LEN_BYTE_ARRAY => "FIXED_LEN_BYTE_ARRAY"
  }

  /** PrimitiveTypeName.valueOf: exact enumerator names only. */
  function PrimitiveTypeValueOf(s: string): (r: Result<PrimitiveTypeName>)
    ensures r.Ok? ==> PrimitiveTypeText(r.value) == s
    ensures r.Err? ==> r.error == UnknownEnumName(s) && forall t :: PrimitiveTypeText(t) != s
  {
    if s == "INT64" then Ok(INT64)
    else if s == "INT32" then Ok(INT32)
    else if s == "BOOLEAN" then Ok(BOOLEAN)
    else if s == "BINARY" then Ok(BINARY)
    else if s == "FLOAT" then Ok(FLOAT)
    else if s == "DOUBLE" then Ok(DOUBLE)
    else if s == "INT96" then Ok(INT96)
    else if s == "FIXED_LEN_BYTE_ARRAY" then Ok(FIXED_LEN_BYTE_ARRAY)
    else Err(UnknownEnumName(s))
  }

  /** The logical type, named by one of Parquet's OriginalType enumerators. */
  datatype OriginalType = OriginalType(name: string)

  const ORIGINAL_TYPE_NAMES: set<string> := {
    "MAP", "LIST", "UTF8", "MAP_KEY_VALUE", "ENUM", "DECIMAL", "DATE",
    "TIME_MILLIS", "TIME_MICROS", "TIMESTAMP_MILLIS", "TIMESTAMP_MICROS",
    "UINT_8", "UINT_16", "UINT_32", "UINT_64", "INT_8", "INT_16", "INT_32", "INT_64",
    "JSON", "BSON", "INTERVAL"
  }

  function OriginalTypeValueOf(s: string): (r: Result<OriginalType>)
    ensures r.Ok? <==> s in ORIGINAL_TYPE_NAMES
    ensures r.Ok? ==> r.value.name == s
  {
    if s in ORIGINAL_TYPE_NAMES then Ok(OriginalType(s)) else Err(UnknownEnumName(s))
  }

  datatype MetadataHeader = MetadataHeader(metadataVersion: string, directories: seq<string>)

  /** A dictionary entry: the dotted column name and its optional types. */
  datatype ColumnTypeInfo = ColumnTypeInfo(
    name: string,
    primitiveType: Option<PrimitiveTypeName>,
    originalType: Option<OriginalType>)
  {
    /** getPrimitiveType(): an unset enum field reads as the enum's first value. */
    function GetPrimitiveType(): PrimitiveTypeName { primitiveType.GetOr(PRIMITIVE_TYPE_DEFAULT) }

    function GetOriginalType(): OriginalType { originalType.GetOr(ORIGINAL_TYPE_DEFAULT) }
  }

  /** The first enumerator of each enum, in Parquet's declaration order. */
  const PRIMITIVE_TYPE_DEFAULT: PrimitiveTypeName := INT64
  const ORIGINAL_TYPE_DEFAULT: OriginalType := OriginalType("MAP")

  datatype MetadataColumns = MetadataColumns(columns: seq<ColumnTypeInfo>)

  datatype HostAffinity = HostAffinity(key: string, value: Float32)

  /**
   * A row-group column record: `name` is the column's id (its index in the
   * dictionary), and each statistic variant is a separate optional field.
   */
  datatype ColumnMetadata = ColumnMetadata(
    name: int,
    nulls: Option<int>,
    vbinary: Option<seq<byte>>,
    vbool: Option<bool>,
    vdouble: Option<Float64>,
    vfloat: Option<Float32>,
    vint32: Option<int>,
    vint64: Option<int>)
  {
    /** getNulls(): 0 when the field is not set. */
    function GetNulls(): int { nulls.GetOr(0) }
  }

  datatype RowGroup = RowGroup(
    start: int,
    length: int,
    rowCount: int,
    affinities: seq<HostAffinity>,
    columns: seq<ColumnMetadata>)

  datatype ParquetFileMetadata = ParquetFileMetadata(path: string, length: int, rowGroups: seq<RowGroup>)

  /** The dictionary and the files together, as one message. */
  datatype MetadataFiles = MetadataFiles(columns: seq<ColumnTypeInfo>, files: seq<ParquetFileMetadata>)
}
