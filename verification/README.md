# json2proto metadata cache codec, modelled in Dafny

The repository converts Drill's Parquet metadata cache between two forms.
One is the JSON file, version "v2". The other is a compact protocol-buffers
file. This project models the codec at the centre of that conversion:

- **Holders**: the in-memory table. It holds a dictionary of column types
  keyed by the column's name path, the files with their row groups and
  column statistics, and the directories. `Holders.ParquetTableMetadata` is a
  class because the loader assigns its fields. Files, row groups and columns
  are values. The name-path `Key` is a class with a cached hash code.
- **Utils**: parseStringArray, the dotted-name joiner, and the two
  difference reports.
- **JsonLoader**: loads an already-parsed JSON tree into the holders.
  - It checks the version.
  - It fills the dictionary and keeps the joined column names and their
    types in lists.
  - It then reads files, row groups, host affinities and column statistics.
    Each statistic is typed by its column's primitive type, which is looked
    up through the name list.
- **ProtoBuilder**: turns the holders into the three messages.
  - The header.
  - The column dictionary, sorted by dotted name, which extends a name list
    shared by every builder.
  - The files. A row-group column refers to its column by its index in that
    shared list.
- **MetadataHolder**: writes and reads the three messages as varint-prefixed
  blocks with a per-block size counter. It also fills itself from a table
  and converts itself back into a table.
- **JsonToProto**: the older direct converter from a JSON tree into one
  table message of its own schema. Its statistics are JSON text, and its
  row-group columns carry no name. That schema declares its own
  PrimitiveTypeName and OriginalType enums; the model reuses the `Proto`
  enum types for them, since they have the same enumerators.

Modelling choices:

- The JSON text parser is not modelled. Input starts as a `JsonTree.Json`
  value, where `get(name)` finds the last member with that name.
- Each protobuf message's own wire encoding is a parameter,
  `MetadataHolder.Codec`. The varint (`Varint`) is modelled byte for
  byte. The block framing is modelled on each block's declared length; see
  "## Left out" for what that leaves out.
- Java's unordered `HashMap` iteration is a ghost order that the methods
  choose and the contracts quantify over. No particular order is claimed.
- Java exceptions are `Err` values of `Wrappers.Error`. A dereferenced
  missing member is `MissingMember`, and any other null dereference is
  `NullValue`.
- Spec functions are named `…Of` and `…From`. Every loop of the source is a
  method whose contract equates its result, or its new state, with one of
  these functions. Properties are then proved about the functions.

The two converters treat null counts in opposite ways, and the model keeps
both as written. JsonLoader.java:139-141 drops a positive count and keeps zero
and negative ones; `JsonLoader.RowGroupColumnRules` states this. JsonToProto.java:155-157
keeps only a positive count; `JsonToProto.RowGroupColumnOf` states this.

## Model

| member | source | states |
|---|---|---|
| Holders.Key.constructor | src/main/java/com/adeneche/Holders.java:88-90 | a new key holds the name with no cached hash |
| Holders.Key.HashCode | src/main/java/com/adeneche/Holders.java:92-97 | the result is Arrays.hashCode of the name as a 32-bit int and is cached in the key |
| Holders.ArraysHashCode | src/main/java/com/adeneche/Holders.java:94 | Arrays.hashCode of a name array always fits in 32 bits |
| Holders.UnitsHash | src/main/java/com/adeneche/Holders.java:94 | String.hashCode of a name part, over its UTF-16 units, always fits in 32 bits |
| Holders.Key.Equals | src/main/java/com/adeneche/Holders.java:99-108 | the null check, the class check and the segment-by-segment comparison together answer true exactly when the other object is a Key with the same segments |
| Holders.EqualKeysAgree | src/main/java/com/adeneche/Holders.java:92-108 | keys equal by equals have the same cached or computed hash code, and are equal exactly when the map keys standing for them (`NameKey`) are |
| Holders.Key.ToString | src/main/java/com/adeneche/Holders.java:110-121 | null for an empty name, otherwise the parts joined with dots |
| Holders.NewColumnTypeMetadata | src/main/java/com/adeneche/Holders.java:65-70 | keeps name and both types; its key is the name's key |
| Holders.BareColumnTypeMetadata | src/main/java/com/adeneche/Holders.java:61-63 | a record made by the no-argument constructor: its key is null |
| Holders.ColumnMetadata.SetMax | src/main/java/com/adeneche/Holders.java:226-228 | replaces the statistic only; hasSingleValue exactly when the new one is non-null |
| Holders.ColumnMetadata.GetPrimitiveType | src/main/java/com/adeneche/Holders.java:246-248 | always null, whatever type was stored |
| Holders.ColumnMetadata.GetOriginalType | src/main/java/com/adeneche/Holders.java:250-252 | always null |
| Holders.ParquetTableMetadata.GetColumnTypeInfo | src/main/java/com/adeneche/Holders.java:28-30 | found exactly when the name's key is in the dictionary, and then it is that entry |
| Holders.ParquetTableMetadata.GetPrimitiveType | src/main/java/com/adeneche/Holders.java:44-46 | the entry's primitive type; a missing name is a null dereference |
| Holders.ParquetTableMetadata.GetOriginalType | src/main/java/com/adeneche/Holders.java:48-50 | the entry's original type; a missing name is a null dereference |
| Utils.SplitJoin | src/main/java/com/adeneche/Utils.java:10 | splitting a dot-joined name on every dot gives the parts back when no part holds a dot |
| Utils.Join | src/main/java/com/adeneche/Utils.java:10 | COLUMN_NAME_JOINER: a one-part name joins to that part |
| Utils.SplitOnDotSeparator | src/main/java/com/adeneche/Utils.java:10 | joining one more dot-free part adds exactly that part to the split |
| Utils.StringsOf | src/main/java/com/adeneche/Utils.java:12-18 | succeeds exactly when every element is a string, with the strings in order; otherwise a wrong-type error |
| Utils.ParseStringArray | src/main/java/com/adeneche/Utils.java:12-18 | a fresh array holding the elements' strings in order, or the first wrong-type error |
| Utils.FindHeaderDifference | src/main/java/com/adeneche/Utils.java:20-32 | nothing for equal headers; reports the version line exactly when versions differ and the directories line exactly when directories differ |
| Utils.FindFilesDifference | src/main/java/com/adeneche/Utils.java:34-50 | at most two lines: the columns-count line exactly when the counts differ, the files-count line likewise |
| Utils.IndexOf | src/main/java/com/adeneche/JsonLoader.java:121 | List.indexOf: -1 exactly when absent, otherwise the first position holding the name |
| Proto.PrimitiveTypeValueOf | src/main/java/com/adeneche/JsonLoader.java:76 | valueOf accepts exactly the enumerator names and refuses every other string |
| Proto.OriginalTypeValueOf | src/main/java/com/adeneche/JsonLoader.java:82 | valueOf accepts exactly the Parquet original-type names |
| JsonLoader.JsonLoader.constructor | src/main/java/com/adeneche/JsonLoader.java:29-31 | a new table and empty name and type lists |
| JsonLoader.JsonLoader.Load | src/main/java/com/adeneche/JsonLoader.java:33-44 | on success the returned table, the name list and the type list are exactly the load of the object from the old lists; an error is the load's error; a version other than "v2" changes nothing |
| JsonLoader.JsonLoader.ParseDirectories | src/main/java/com/adeneche/JsonLoader.java:41 | the directories are the strings of the "directories" array, or that read's error |
| JsonLoader.LoadVersion | src/main/java/com/adeneche/JsonLoader.java:34-37 | a load succeeds only on version "v2"; any other version string is refused with that string |
| JsonLoader.LoadOfParts | src/main/java/com/adeneche/JsonLoader.java:39-41 | a successful load is the dictionary, then the files read with the extended name list, then the directories |
| JsonLoader.LoadFacts | src/main/java/com/adeneche/JsonLoader.java:33-44 | after a load the name and type lists stay paired and only grow, the dictionary has no null key, and the directories are the JSON's |
| JsonLoader.JsonLoader.ExtractRootColumns | src/main/java/com/adeneche/JsonLoader.java:46-56 | the dictionary, the joined names and the types are those of the columnTypeInfo members, in member order |
| JsonLoader.JsonLoader.PutRootColumns | src/main/java/com/adeneche/JsonLoader.java:50-55 | the dictionary loop leaves the records keyed by name and appends each name and type to the lists |
| JsonLoader.JsonLoader.PutRecords | src/main/java/com/adeneche/JsonLoader.java:50-55 | for any reader of records by index, the loop appends every record read, in order, to both lists and the dictionary, or stops with the first error |
| JsonLoader.JsonLoader.PutRoot | src/main/java/com/adeneche/JsonLoader.java:52-54 | one record adds its joined name, its type and its dictionary entry |
| JsonLoader.RootRecordsRead | src/main/java/com/adeneche/JsonLoader.java:50-51 | the loop over columnTypeInfo reads the record of each member index in turn |
| JsonLoader.RootRecordsFrom | src/main/java/com/adeneche/JsonLoader.java:50-55 | one record per member of columnTypeInfo |
| JsonLoader.RootRecordsStep | src/main/java/com/adeneche/JsonLoader.java:50-55 | a failing member stops the loop with its error; otherwise its record comes first |
| JsonLoader.RootRecordsInOrder | src/main/java/com/adeneche/JsonLoader.java:50-51 | one record per member name, in member order, each from get(name) of that member |
| JsonLoader.RootRecordsKeyed | src/main/java/com/adeneche/JsonLoader.java:54 | every record is put under its own name's key |
| JsonLoader.KeyedByLookup | src/main/java/com/adeneche/JsonLoader.java:54 | a name is in the dictionary exactly when some record has it, and then the entry is the last such record |
| JsonLoader.KeyedByNoNullKey | src/main/java/com/adeneche/JsonLoader.java:54 | records made with a name never put a null key in the dictionary |
| JsonLoader.AppendRecord | src/main/java/com/adeneche/JsonLoader.java:52-54 | one more record adds its joined name, its type and its dictionary entry |
| JsonLoader.JsonLoader.ExtractFiles | src/main/java/com/adeneche/JsonLoader.java:58-68 | the table's files are the files of the JSON array, read with the current name list |
| JsonLoader.FilesFrom | src/main/java/com/adeneche/JsonLoader.java:61-67 | one file per element of the files array, in array order, each read from its element as an object |
| JsonLoader.ParseColumnTypeInfo | src/main/java/com/adeneche/JsonLoader.java:70-86 | the record is keyed by its own name |
| JsonLoader.ColumnTypeInfoMembers | src/main/java/com/adeneche/JsonLoader.java:70-86 | the name is the string array of "name"; each type member must be present, JSON null leaves it unset and a string goes through valueOf |
| JsonLoader.PrimitiveTypeOf | src/main/java/com/adeneche/JsonLoader.java:73-77 | unset exactly for JSON null, otherwise the enumerator whose name is the string |
| JsonLoader.OriginalTypeOf | src/main/java/com/adeneche/JsonLoader.java:79-83 | unset exactly for JSON null, otherwise the original type named by the string |
| JsonLoader.JsonLoader.ParseFile | src/main/java/com/adeneche/JsonLoader.java:88-97 | the file read from the object, as its spec function gives it |
| JsonLoader.FileDefaults | src/main/java/com/adeneche/JsonLoader.java:96 | a missing path reads as "" and a missing length as -1; present ones are read as they are |
| JsonLoader.JsonLoader.ParseRowGroups | src/main/java/com/adeneche/JsonLoader.java:90-94 | the row-group loop gives the row groups of the array |
| JsonLoader.RowGroupsFrom | src/main/java/com/adeneche/JsonLoader.java:90-94 | one row group per element of the rowGroups array, in array order, each read from its element as an object |
| JsonLoader.JsonLoader.ParseRowGroup | src/main/java/com/adeneche/JsonLoader.java:99-117 | the row group read from the object, as its spec function gives it |
| JsonLoader.RowGroupDefaults | src/main/java/com/adeneche/JsonLoader.java:115-116 | missing start, length and rowCount read as -1; present ones are read as longs |
| JsonLoader.ParseAffinities | src/main/java/com/adeneche/JsonLoader.java:100-104 | the affinity loop gives the affinity map of the object |
| JsonLoader.AffinitiesOneEntryPerName | src/main/java/com/adeneche/JsonLoader.java:100-104 | one entry per member name, each get(name) as a float; a non-number fails as a wrong type |
| JsonLoader.AffinitiesUpToDomain | src/main/java/com/adeneche/JsonLoader.java:102-103 | the keys put so far are exactly the member names seen so far |
| JsonLoader.AffinitiesUpToValues | src/main/java/com/adeneche/JsonLoader.java:103 | each key's value is get(name) of that name as a float |
| JsonLoader.JsonLoader.ParseRowGroupColumns | src/main/java/com/adeneche/JsonLoader.java:106-113 | the column loop keeps the records parseRowGroupColumn gives and skips the nulls |
| JsonLoader.RowGroupColumnsFrom | src/main/java/com/adeneche/JsonLoader.java:106-113 | never more records than array elements |
| JsonLoader.KeptIndices | src/main/java/com/adeneche/JsonLoader.java:108-111 | exactly the indices whose element gives a kept record, in increasing order |
| JsonLoader.KeptSucceeds | src/main/java/com/adeneche/JsonLoader.java:106-113 | a keep-or-drop loop succeeds exactly when every element reads without error |
| JsonLoader.KeptValues | src/main/java/com/adeneche/JsonLoader.java:106-113 | on success the list holds the kept elements' records in index order, a dropped element adding nothing |
| JsonLoader.KeptFirstError | src/main/java/com/adeneche/JsonLoader.java:106-113 | on failure the error is that of the first element that fails |
| JsonLoader.RowGroupColumnsRead | src/main/java/com/adeneche/JsonLoader.java:106-113 | the columns loop is the keep-or-drop loop over its elements' outcomes |
| JsonLoader.RowGroupColumnsKept | src/main/java/com/adeneche/JsonLoader.java:106-113 | the columns loop appends the kept records in array order, a dropped record adds nothing, and it fails with the first element's error exactly when some element fails |
| JsonLoader.GetColumnType | src/main/java/com/adeneche/JsonLoader.java:119-126 | fails exactly when the joined name is not listed; otherwise the type at its first position |
| JsonLoader.StatisticOf | src/main/java/com/adeneche/JsonLoader.java:143-167 | the statistic has the kind the column type demands (long, int, boolean, bytes, float, double); bytes are the string's UTF-8 (see Left out); an unset type is a null dereference |
| JsonLoader.RowGroupColumnRules | src/main/java/com/adeneche/JsonLoader.java:128-170 | no record exactly when nulls is 0 and mxValue is absent; a positive count is dropped and any other kept; the type is looked up by name; a statistic exactly when mxValue is present |
| ProtoBuilder.ProtoBuilder.constructor | src/main/java/com/adeneche/ProtoBuilder.java:22-24 | the builder reads the given table and the shared name list |
| ProtoBuilder.ProtoBuilder.BuildHeader | src/main/java/com/adeneche/ProtoBuilder.java:26-31 | the header carries the given version and the table's directories |
| ProtoBuilder.ProtoBuilder.BuildFiles | src/main/java/com/adeneche/ProtoBuilder.java:33-64 | the dictionary is the table's entries sorted by dotted name; their names are appended to the shared list; the files are built against the extended list |
| ProtoBuilder.ProtoBuilder.CollectColumnTypeInfos | src/main/java/com/adeneche/ProtoBuilder.java:36-40 | one converted entry per dictionary key, each key once, in some key order |
| ProtoBuilder.InfosOf | src/main/java/com/adeneche/ProtoBuilder.java:37-39 | the converted entries in the given key order |
| ProtoBuilder.BuildColumnTypeInfo | src/main/java/com/adeneche/ProtoBuilder.java:66-80 | the name is the dot-joined path; each type is set exactly when it is non-null |
| ProtoBuilder.SortByNameSortsAndPermutes | src/main/java/com/adeneche/ProtoBuilder.java:42-48 | the sorted dictionary is ordered by String.compareTo of the names and is a permutation of the entries |
| ProtoBuilder.SortByName | src/main/java/com/adeneche/ProtoBuilder.java:43-48 | sorting keeps the number of entries |
| ProtoBuilder.SortPermutes | src/main/java/com/adeneche/ProtoBuilder.java:43 | the insertion sort keeps exactly the same entries, whatever the comparator |
| ProtoBuilder.SortSorts | src/main/java/com/adeneche/ProtoBuilder.java:43 | under a total preorder the insertion sort's output is ordered |
| ProtoBuilder.SortSortsAndPermutes | src/main/java/com/adeneche/ProtoBuilder.java:43 | the insertion sort gives a sorted permutation under any total preorder |
| ProtoBuilder.ByNameIsTotalPreorder | src/main/java/com/adeneche/ProtoBuilder.java:45-46 | comparing by name is total and transitive |
| Primitives.PrecedesTotal | src/main/java/com/adeneche/ProtoBuilder.java:46 | String.compareTo orders every two strings |
| Primitives.PrecedesTransitive | src/main/java/com/adeneche/ProtoBuilder.java:46 | String.compareTo is transitive |
| Primitives.PrecedesAntisymmetric | src/main/java/com/adeneche/ProtoBuilder.java:46 | String.compareTo ties only equal strings |
| ProtoBuilder.SortedUnique | src/main/java/com/adeneche/ProtoBuilder.java:43-48 | two sorted permutations of the same entries are equal when ties are identical |
| ProtoBuilder.DictionaryIndependentOfKeyOrder | src/main/java/com/adeneche/ProtoBuilder.java:42-49 | when equal dotted names mean equal entries, the sorted dictionary does not depend on the map's iteration order |
| ProtoBuilder.CollidingNamesFollowKeyOrder | src/main/java/com/adeneche/ProtoBuilder.java:42-49 | two paths that join to the same dotted name keep the map's iteration order, so the sort alone does not fix the output |
| ProtoBuilder.KeyOrdersPermute | src/main/java/com/adeneche/ProtoBuilder.java:37 | two iteration orders of one key set are permutations of each other |
| ProtoBuilder.InfosOfPermutes | src/main/java/com/adeneche/ProtoBuilder.java:37-40 | permuted key orders give permuted entry lists |
| ProtoBuilder.SharedListKeepsStaleIds | src/main/java/com/adeneche/ProtoBuilder.java:20 | a name left in the static list by an earlier build keeps its old index, so a later file's column id points at a different entry of its own dictionary |
| ProtoBuilder.FreshListIdsIndexDictionary | src/main/java/com/adeneche/ProtoBuilder.java:51-56 | with a list that starts empty, every written column id indexes the dictionary entry with that column's dotted name |
| ProtoBuilder.ProtoBuilder.BuildFileList | src/main/java/com/adeneche/ProtoBuilder.java:59-61 | one built file per table file, in order, or the first file's error |
| ProtoBuilder.FilesShapeFrom | src/main/java/com/adeneche/ProtoBuilder.java:59-61 | one file per table file, each the file built from it |
| ProtoBuilder.ProtoBuilder.BuildFile | src/main/java/com/adeneche/ProtoBuilder.java:82-93 | the path, the length and one row group per row group, or the first error |
| ProtoBuilder.RowGroupShapesFrom | src/main/java/com/adeneche/ProtoBuilder.java:88-90 | one built row group per row group, in order |
| ProtoBuilder.ProtoBuilder.BuildRowGroup | src/main/java/com/adeneche/ProtoBuilder.java:95-118 | the three counters, the affinities listing the map, and the built columns with the empty ones skipped |
| ProtoBuilder.ListAffinities | src/main/java/com/adeneche/ProtoBuilder.java:102-108 | one pair per map key, each with that key's value, no key twice |
| ProtoBuilder.BuildRowGroupColumns | src/main/java/com/adeneche/ProtoBuilder.java:110-115 | the column loop gives the columns of the row group's column list |
| ProtoBuilder.ColumnsFrom | src/main/java/com/adeneche/ProtoBuilder.java:110-115 | never more written columns than row-group columns |
| ProtoBuilder.Kept | src/main/java/com/adeneche/ProtoBuilder.java:112 | every kept column carries a non-zero count or a statistic |
| ProtoBuilder.ColumnsFromFails | src/main/java/com/adeneche/ProtoBuilder.java:110-115 | the loop fails exactly when some column fails, and then with the first failing column's error |
| ProtoBuilder.ColumnsFromKept | src/main/java/com/adeneche/ProtoBuilder.java:110-115 | the written columns are, in order, the columns that carry a count or a statistic |
| ProtoBuilder.BuildRowGroupColumn | src/main/java/com/adeneche/ProtoBuilder.java:120-159 | skipped exactly when there is no non-zero count and no statistic; the id is the name's index; the count is written when non-zero; the statistic goes to the field of its class; any other class fails |
| ProtoBuilder.WrittenNulls | src/main/java/com/adeneche/ProtoBuilder.java:121-124 | a zero count is treated as absent, any other count is kept |
| ProtoBuilder.GetColumnId | src/main/java/com/adeneche/ProtoBuilder.java:161-168 | fails exactly when the dotted name is not listed; otherwise its first index |
| Varint.ReadEncoded | src/main/java/com/adeneche/MetadataHolder.java:33 | readRawVarint32 reads back exactly the int writeRawVarint32 wrote, and stops right after it |
| Varint.EncodeVarint32 | src/main/java/com/adeneche/MetadataHolder.java:59 | writeRawVarint32 writes one to five bytes |
| Varint.TenContinuationBytesMalformed | src/main/java/com/adeneche/MetadataHolder.java:33 | ten bytes in a row with the high bit set are refused as a malformed varint |
| Varint.ReadVarint32 | src/main/java/com/adeneche/MetadataHolder.java:33 | a read value is a 32-bit int taking one to ten bytes; failures are truncation or a malformed varint |
| MetadataHolder.MetadataHolder.Equals | src/main/java/com/adeneche/MetadataHolder.java:21-29 | false for null; an object of another class is a ClassCastException; a holder is equal exactly when its header, columns and files are equal |
| MetadataHolder.EqualsReflexiveSymmetric | src/main/java/com/adeneche/MetadataHolder.java:21-29 | a holder equals itself, and between two holders equals never fails and answers the same both ways |
| MetadataHolder.ReadBlock | src/main/java/com/adeneche/MetadataHolder.java:33-36 | a bad length varint is its own error; a negative length is refused; a block past the size limit counted since the last reset is refused; a block past the end is truncated; otherwise the message parsed from exactly the length's bytes, with the stream after them, or a parse error; a read consumes at least one byte |
| MetadataHolder.ReadBlockWritten | src/main/java/com/adeneche/MetadataHolder.java:33-36 | a length-prefixed block within the size limit reads back as the message written, leaving what follows |
| MetadataHolder.MetadataHolder.ParseFrom | src/main/java/com/adeneche/MetadataHolder.java:31-56 | the three fields become what the stream holds; a field not reached keeps its old value |
| MetadataHolder.ParseOutcome | src/main/java/com/adeneche/MetadataHolder.java:31-56 | a parse that ends well has set all three fields |
| MetadataHolder.ReadFiles | src/main/java/com/adeneche/MetadataHolder.java:47-55 | never more files than the count; exactly the count when reading ends well; a count of zero or less reads none |
| MetadataHolder.MetadataHolder.ReadFilesInto | src/main/java/com/adeneche/MetadataHolder.java:47-55 | the file loop leaves the files read so far in the holder |
| MetadataHolder.ReadFilesWritten | src/main/java/com/adeneche/MetadataHolder.java:47-55 | written file blocks read back as the same files, in order |
| MetadataHolder.MetadataHolder.WriteTo | src/main/java/com/adeneche/MetadataHolder.java:58-72 | writes header block, columns block, file count and file blocks; a null field stops the write with what came before it |
| MetadataHolder.ParseWritten | src/main/java/com/adeneche/MetadataHolder.java:31-72 | what writeTo writes, parseFrom reads back as the same header, columns and files |
| MetadataHolder.OversizedBlockRejected | src/main/java/com/adeneche/MetadataHolder.java:33-34 | a block longer than what the size limit leaves is refused with the size-limit error, whatever follows it |
| MetadataHolder.OversizedHeaderRejected | src/main/java/com/adeneche/MetadataHolder.java:31-36 | a written header block longer than the size limit fails with the size-limit error, every field left as it was |
| MetadataHolder.OversizedHeaderRejectedFromPath | src/main/java/com/adeneche/MetadataHolder.java:74-79 | a stream opened from a path refuses a header block over 200,000,000 bytes |
| MetadataHolder.MetadataHolder.ParseFromPath | src/main/java/com/adeneche/MetadataHolder.java:74-79 | reads the file's bytes with a 200,000,000-byte size limit |
| MetadataHolder.MetadataHolder.FillFromTable | src/main/java/com/adeneche/MetadataHolder.java:81-87 | the header is version "v2" with the table's directories; the columns and files are what the builder makes |
| MetadataHolder.MetadataHolder.ToParquetTableMetadata | src/main/java/com/adeneche/MetadataHolder.java:89-135 | the new table is the as-written conversion of the three fields |
| MetadataHolder.PutColumnTypes | src/main/java/com/adeneche/MetadataHolder.java:92-99 | the dictionary loop puts every entry under its own key, the last one winning |
| MetadataHolder.DecodeFileHolders | src/main/java/com/adeneche/MetadataHolder.java:101-130 | the file loop decodes every file in order, or fails on the first out-of-range column id |
| MetadataHolder.DecodeFileHolder | src/main/java/com/adeneche/MetadataHolder.java:102-106 | one file decoded with its row groups |
| MetadataHolder.DecodeRowGroupHolders | src/main/java/com/adeneche/MetadataHolder.java:107-129 | the row-group loop of one file decodes every row group in order, or fails on the first out-of-range column id |
| MetadataHolder.DecodeRowGroupHolder | src/main/java/com/adeneche/MetadataHolder.java:107-128 | one row group: the counters, the affinity map and the decoded columns |
| TableDecode.GetMxValue | src/main/java/com/adeneche/MetadataHolder.java:137-145 | null exactly when no value field is set; a column written with one statistic gives it back |
| TableDecode.FirstSetFieldWins | src/main/java/com/adeneche/MetadataHolder.java:137-145 | the value read is the first set field in the order vbinary, vbool, vdouble, vfloat, vint32, vint64, and null when none is set |
| TableDecode.BinaryReadBeforeInt64 | src/main/java/com/adeneche/MetadataHolder.java:138-143 | the fields are tried in declaration order, so binary wins over int64 |
| TableDecode.RegexSplitDot | src/main/java/com/adeneche/MetadataHolder.java:95 | split(".") splits on a regex matching any character but a line terminator: a string of line terminators only (or "") comes back whole; otherwise every piece is made of line terminators, the pieces together hold exactly the string's line terminators in order, and no piece at the end is empty |
| TableDecode.Pieces | src/main/java/com/adeneche/MetadataHolder.java:95 | one piece more than the characters "." matches, each made of line terminators only |
| TableDecode.PiecesConcat | src/main/java/com/adeneche/MetadataHolder.java:95 | the pieces around the matches hold exactly the string's line terminators, in order |
| TableDecode.DropTrailingEmpty | src/main/java/com/adeneche/MetadataHolder.java:95 | split with no limit keeps a prefix of the pieces that ends in a non-empty piece and drops only empty ones |
| TableDecode.RegexSplitLosesNames | src/main/java/com/adeneche/MetadataHolder.java:95 | every non-empty dotted name without a line terminator decodes to the empty path, while a literal dot split gives the parts back |
| TableDecode.RegexSplitKeepsLoneTerminator | src/main/java/com/adeneche/MetadataHolder.java:95 | a string with no character "." matches comes back whole: "\n" splits to ["\n"] |
| TableDecode.RegexSplitKeepsTerminators | src/main/java/com/adeneche/MetadataHolder.java:95 | a line terminator between two other characters is kept as a piece: "a\nb" splits to ["", "\n"] |
| TableDecode.PiecesStep | src/main/java/com/adeneche/MetadataHolder.java:95 | one more character extends the last piece if it is a line terminator and starts a new piece otherwise |
| TableDecode.PutAll | src/main/java/com/adeneche/MetadataHolder.java:93-99 | the last column's entry is in the map under its key |
| TableDecode.PutAllEntries | src/main/java/com/adeneche/MetadataHolder.java:93-99 | every column's key is in the map, and every entry is some column's entry |
| TableDecode.EntryAsWritten | src/main/java/com/adeneche/MetadataHolder.java:94-97 | the no-argument record always has a null key and both types set |
| TableDecode.Entry | src/main/java/com/adeneche/MetadataHolder.java:94-97 | the corrected record is keyed by its name and keeps unset types unset |
| TableDecode.NullKeyKeepsLastColumn | src/main/java/com/adeneche/MetadataHolder.java:94-98 | as written the dictionary has a single entry, the last column's |
| TableDecode.UnsetTypesReadAsDefaults | src/main/java/com/adeneche/MetadataHolder.java:96-97 | as written an unset type comes back as the enum default; the corrected record keeps it unset |
| TableDecode.EntryRestores | src/main/java/com/adeneche/MetadataHolder.java:94-97 | decoding a built dictionary entry gives the original record |
| TableDecode.SortedEntriesInMap | src/main/java/com/adeneche/MetadataHolder.java:93-98 | every decoded entry of a permuted dictionary is in the original map |
| TableDecode.MapKeysInSorted | src/main/java/com/adeneche/MetadataHolder.java:93-98 | every original key comes back from some entry of a permuted dictionary |
| TableDecode.PutAllRestores | src/main/java/com/adeneche/MetadataHolder.java:93-99 | putting entries that cover a map exactly gives that map back |
| TableDecode.DictionaryRoundTrip | src/main/java/com/adeneche/MetadataHolder.java:92-99 | the corrected decoding of a built dictionary is the original dictionary, whatever the key order |
| TableDecode.AffinityMap | src/main/java/com/adeneche/MetadataHolder.java:113-116 | the last pair is in the map with its value |
| TableDecode.AffinityMapEntries | src/main/java/com/adeneche/MetadataHolder.java:113-116 | every pair's key is in the map, and every entry comes from some pair |
| TableDecode.AffinityMapRestores | src/main/java/com/adeneche/MetadataHolder.java:113-116 | pairs that list a map give that map back |
| TableDecode.DecodeColumn | src/main/java/com/adeneche/MetadataHolder.java:119-126 | succeeds exactly when the id indexes the dictionary, otherwise an out-of-range error |
| TableDecode.DecodeColumnsFrom | src/main/java/com/adeneche/MetadataHolder.java:119-128 | one column per written column, in order; fails exactly on an out-of-range id |
| TableDecode.DecodeRowGroup | src/main/java/com/adeneche/MetadataHolder.java:107-128 | succeeds exactly when all its column ids are in range |
| TableDecode.DecodeRowGroupsFrom | src/main/java/com/adeneche/MetadataHolder.java:107-129 | one row group per written row group, in order |
| TableDecode.DecodeFile | src/main/java/com/adeneche/MetadataHolder.java:102-130 | succeeds exactly when all its column ids are in range |
| TableDecode.DecodeFilesFrom | src/main/java/com/adeneche/MetadataHolder.java:101-130 | one file per written file, in order |
| TableDecode.TableAsWritten | src/main/java/com/adeneche/MetadataHolder.java:89-135 | as written a null field fails, an out-of-range id fails, and otherwise the table has no files, only the null key, and the header's directories |
| TableDecode.DecodeTable | src/main/java/com/adeneche/MetadataHolder.java:89-135 | the corrected conversion keeps one file per file and the directories; it fails exactly on an out-of-range id |
| TableDecode.FilesAndKeysLostAsWritten | src/main/java/com/adeneche/MetadataHolder.java:101-130 | as written the files are lost and the keys collapse to the null key; the corrected conversion keeps every file |
| TableDecode.ColumnRoundTrip | src/main/java/com/adeneche/MetadataHolder.java:119-126 | a built column decodes to its name, its statistic and its count (absent read as 0) |
| TableDecode.KeptAreColumns | src/main/java/com/adeneche/ProtoBuilder.java:110-115 | the columns kept by the builder are columns of the row group |
| TableDecode.RowGroupRoundTrip | src/main/java/com/adeneche/MetadataHolder.java:107-128 | a built row group decodes to its counters, its affinity map and its kept columns |
| TableDecode.FileRoundTrip | src/main/java/com/adeneche/MetadataHolder.java:102-130 | a built file decodes to its path, length and row groups |
| TableDecode.FilesRoundTrip | src/main/java/com/adeneche/MetadataHolder.java:101-130 | the built files decode back to the table's files, one for one |
| TableDecode.TableRoundTrip | src/main/java/com/adeneche/MetadataHolder.java:81-135 | filling from a table and converting back gives the same dictionary, directories and files |
| JsonToProto.ParseMetadata | src/main/java/com/adeneche/JsonToProto.java:59-87 | the conversion loops give the message the spec function describes |
| JsonToProto.MetadataOf | src/main/java/com/adeneche/JsonToProto.java:59-87 | succeeds only for version "v2"; any other version is refused with that string; the version is not copied into the message; the directories are the JSON's |
| JsonToProto.ParseColumnTypeInfos | src/main/java/com/adeneche/JsonToProto.java:69-72 | the dictionary loop gives one record per member, as the spec function does |
| JsonToProto.MemberObjectsFrom | src/main/java/com/adeneche/JsonToProto.java:69-72 | one record per member name, in member order, each parsed from get(name) as an object |
| JsonToProto.ParseFiles | src/main/java/com/adeneche/JsonToProto.java:75-81 | the file loop gives the files of the array |
| JsonTree.ObjectsFrom | src/main/java/com/adeneche/JsonToProto.java:75-81 | one result per array element, in array order, each parsed from the element as an object |
| JsonToProto.ParseFile | src/main/java/com/adeneche/JsonToProto.java:89-105 | the file loop body gives the file the spec function describes |
| JsonToProto.FileOf | src/main/java/com/adeneche/JsonToProto.java:89-105 | path and length must be present and are read as a string and a long |
| JsonToProto.ParseRowGroup | src/main/java/com/adeneche/JsonToProto.java:107-138 | the row group the spec function describes |
| JsonToProto.RowGroupOf | src/main/java/com/adeneche/JsonToProto.java:107-138 | start, length and rowCount must be present and are read as longs |
| JsonToProto.LongMember | src/main/java/com/adeneche/JsonToProto.java:111 | a counter is the member's long value; a missing member fails |
| JsonToProto.ParseAffinities | src/main/java/com/adeneche/JsonToProto.java:119-126 | the affinity loop gives the pairs of the spec function |
| JsonToProto.AffinitiesFrom | src/main/java/com/adeneche/JsonToProto.java:119-126 | one pair per member, in member order, a repeated name included, each value get(name) as a float |
| JsonToProto.ParseRowGroupColumns | src/main/java/com/adeneche/JsonToProto.java:128-135 | the column loop gives the kept records of the spec function |
| JsonToProto.KeptObjectsFrom | src/main/java/com/adeneche/JsonToProto.java:128-135 | succeeds exactly when every element is an object whose record parses; never more records than elements |
| JsonToProto.AllKeptInOrder | src/main/java/com/adeneche/JsonToProto.java:128-135 | when no record is skipped there is one per element, in array order |
| JsonToProto.SkippedAddsNothing | src/main/java/com/adeneche/JsonToProto.java:131-134 | a skipped element adds nothing to the list |
| JsonToProto.NullFreeColumnsSkipped | src/main/java/com/adeneche/JsonToProto.java:146-148 | a column with nulls 0 and a JSON null statistic is left out of the row group |
| JsonToProto.RowGroupColumnOf | src/main/java/com/adeneche/JsonToProto.java:140-164 | skipped exactly when nulls is 0 and mxValue is JSON null; mxValue must exist when nulls is 0; the count is set exactly when positive; the statistic is the member's JSON text exactly when it exists; no name is set |
| JsonToProto.NullStatisticKeptAsText | src/main/java/com/adeneche/JsonToProto.java:155-161 | a JSON null statistic next to a positive count is stored as the text "null" |
| JsonToProto.ParseColumnTypeInfo | src/main/java/com/adeneche/JsonToProto.java:166-185 | the record ColumnTypeInfoOf describes: the name array, and each type unset for JSON null or else the enumerator named by the member's string |
| JsonToProto.ColumnTypeInfoOf | src/main/java/com/adeneche/JsonToProto.java:166-185 | the name is the string array of "name"; both type members must be present; a type is unset exactly when its member is JSON null, and a set type is the enumerator whose name is the member's string, as valueOf gives it |
| JsonToProto.ParseStringArray | src/main/java/com/adeneche/JsonToProto.java:187-193 | the loop gives the strings of the array in order, or the wrong-type error |

## Left out

- The command-line entry points are not modelled. This covers JsonToProto.main and the Compare, Parse and MultiPart programs. They only read and write files and print.
- The JSON text parser is not modelled. Input is an already-parsed tree.
- JsonToProto.main's writeTo is not modelled. Encoding its message is the same generated protobuf code that `MetadataHolder.Codec` stands for.
- Progress printing (JsonLoader.java:63-65, JsonToProto.java:77-79) is not modelled. So are the toString methods.
- Floating-point values are not modelled as numbers. A float or double is the JSON number's text, kept as an opaque token. No rounding is modelled.
- Each message's own protobuf serialisation is the `Codec` parameter. The round trip assumes that every codec reads back what it writes.
- The enum defaults for an unset type are assumed to be the first enumerators of the Parquet enums.
- MetadataHolder.ReadBlock: the size limit is checked once per block, before truncation is checked. A block that is both too large and cut short is reported as over the limit.
- MetadataHolder.ReadBlock: truncation and the size limit are judged on the declared length, not on the bytes the stream actually reads. In CodedInputStream a block cut short at a field boundary meets end of input as tag 0 and parses as a shorter message, and popLimit does not check that the limit was reached; so a truncated final block that the stream would accept is reported here as `Truncated`.
- MetadataHolder.ReadBlock: a failure inside a message's bytes is reported as `MessageParseError`, without the parser's own message.
- MetadataHolder.MetadataHolder.WriteTo: bytes already written before a null dereference are modelled. Partial writes of the underlying stream are not.
- MetadataHolder.MetadataHolder.FillFromTable: MetadataHolder.java:85 calls a buildColumns method that ProtoBuilder does not have. The model takes the dictionary from buildFiles and stores it only when buildFiles succeeds.
- Hash-map iteration order is not claimed. The builder's dictionary loop and affinity loop hold for every order.
- MetadataHolder.MetadataHolder.ParseFrom: the size limit of a caller's stream is a parameter.
- TableDecode.ColumnRoundTrip: an absent null count reads back as 0, because the decoder calls getNulls. The round trip states this instead of equality.
- TableDecode.RowGroupRoundTrip: the primitive type stored in a holder column is not compared, because Holders.ColumnMetadata.getPrimitiveType always returns null.
- JsonLoader.StatisticOf: `String.getBytes()` uses the platform's default charset; the model takes it to be UTF-8. Strings with unpaired surrogates (from a JSON `\ud800` escape), which `getBytes` would turn into `?`, are not modelled, since a Dafny string cannot hold them.
- JsonLoader.JsonLoader.constructor: the table's three fields have no initialisers (Holders.java:24-26), so a new table holds three nulls. The model starts them as an empty map and empty lists. Nothing reads them before load assigns them.
- Holders.Key.HashCode: a cached value of 0 is recomputed every time, as in the source. Races on that cache are not modelled.

## Findings

| source | as written | input that shows it | evidently intended | confidence | as-written member | corrected member |
|---|---|---|---|---|---|---|
| src/main/java/com/adeneche/MetadataHolder.java:95 | `split(".")` takes the dot as a regular expression that matches every character but a line terminator | any non-empty dictionary name without a line terminator, e.g. "a.b", decodes to an empty path (a name with line terminators keeps only those) | split on the literal dot, giving ["a", "b"] | not executed | TableDecode.RegexSplitLosesNames | Utils.SplitJoin |
| src/main/java/com/adeneche/MetadataHolder.java:94-98 | the record from the no-argument constructor has a null key, so every put overwrites one entry | a dictionary of two columns "a" and "b" decodes to one entry under the null key | one entry per column, keyed by its name | not executed | TableDecode.NullKeyKeepsLastColumn | TableDecode.DictionaryRoundTrip |
| src/main/java/com/adeneche/MetadataHolder.java:101-130 | the decoded row groups are never added to their file, and the files are never added to the table | a holder with one file gives a table with no files | one decoded file per file, with its row groups | not executed | TableDecode.FilesAndKeysLostAsWritten | TableDecode.FilesRoundTrip |
| src/main/java/com/adeneche/MetadataHolder.java:96-97 | getPrimitiveType and getOriginalType return the enum default for an unset field | a column written with no primitive type reads back as the first enumerator | an unset type stays unset | not executed | TableDecode.UnsetTypesReadAsDefaults | TableDecode.DictionaryRoundTrip |
| src/main/java/com/adeneche/ProtoBuilder.java:20 | the name list is static and never cleared, so a second build appends after the first build's names | building a table with column "b", then one with columns "a" and "b", writes id 0 for "b", which is "a" in the second dictionary | a list that starts empty for each build | not executed | ProtoBuilder.SharedListKeepsStaleIds | ProtoBuilder.FreshListIdsIndexDictionary |
