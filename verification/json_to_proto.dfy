/**
 * The older direct converter: walks an already-parsed metadata cache into
 * one table message of its own schema (the dictionary with name segments,
 * the files, the directories), with no in-memory table in between. Unlike
 * the importer it records no column names in the row-group records, keeps
 * each statistic as its JSON text, and checks the version without copying
 * it into the message.
 *
 * Each loop is a method proved equal to a recursive function over the input
 * (the functions ending in "Of" or "From"); the properties are stated about
 * those functions.
 */
module JsonToProto {
  import opened Wrappers
  import opened Primitives
  import opened JsonTree
  import Proto
  import Utils
  import JsonLoader

  // ---------------------------------------------------------------------
  // The converter's message schema

  datatype ColumnTypeInfo = ColumnTypeInfo(
    name: seq<string>,
    primitiveType: Option<Proto.PrimitiveTypeName>,
    originalType: Option<Proto.OriginalType>)

  /** A row-group column: the name field exists in the schema but is never filled. */
  datatype ColumnMetadata = ColumnMetadata(name: seq<string>, nulls: Option<int>, mxValue: Option<string>)

  datatype RowGroup = RowGroup(
    start: int,
    length: int,
    rowCount: int,
    affinities: seq<Proto.HostAffinity>,
    columns: seq<ColumnMetadata>)

  datatype ParquetFileMetadata = ParquetFileMetadata(path: string, length: int, rowGroups: seq<RowGroup>)

  datatype ParquetTableMetadata = ParquetTableMetadata(
    metadataVersion: Option<string>,
    columns: seq<ColumnTypeInfo>,
    files: seq<ParquetFileMetadata>,
    directories: seq<string>)

  // ---------------------------------------------------------------------
  // parseColumnTypeInfo and parseRowGroupColumn

  /**
   * parseColumnTypeInfo: the name array, then both types; every member
   * must be present (a missing one is dereferenced), a JSON null type is
   * left unset and any other value goes through valueOf.
   */
  function ColumnTypeInfoOf(obj: seq<Member>): (r: Result<ColumnTypeInfo>)
    ensures r.Ok? ==> && Get(obj, "name").Some? && Get(obj, "name").value.JArray?
                      && Utils.StringsOf(Get(obj, "name").value.items) == Ok(r.value.name)
    ensures r.Ok? ==> && Get(obj, "primitiveType").Some?
                      && (r.value.primitiveType.None? <==> IsNull(Get(obj, "primitiveType").value))
    ensures r.Ok? ==> && Get(obj, "originalType").Some?
                      && (r.value.originalType.None? <==> IsNull(Get(obj, "originalType").value))
    ensures r.Ok? && r.value.primitiveType.Some? ==>
              Get(obj, "primitiveType").value == JString(Proto.PrimitiveTypeText(r.value.primitiveType.value))
    ensures r.Ok? && r.value.originalType.Some? ==>
              Get(obj, "originalType").value == JString(r.value.originalType.value.name)
              && r.value.originalType.value.name in Proto.ORIGINAL_TYPE_NAMES
  {
    var nameValue :- Field(obj, "name");
    var items :- AsArray(nameValue);
    var name :- Utils.StringsOf(items);
    var primitiveValue :- Field(obj, "primitiveType");
    var primitiveType :- JsonLoader.PrimitiveTypeOf(primitiveValue);
    var originalValue :- Field(obj, "originalType");
    var originalType :- JsonLoader.OriginalTypeOf(originalValue);
    Ok(ColumnTypeInfo(name, primitiveType, originalType))
  }

  /**
   * parseRowGroupColumn: None means "no record". nulls must be present. A
   * record is dropped exactly when nulls is 0 and mxValue is JSON null;
   * with nulls 0 the mxValue member is dereferenced, so it must be there.
   * The count is kept only when positive; the statistic is the member's
   * JSON text whenever the member exists, so a JSON null next to a positive
   * count is kept as the text "null". No name is recorded.
   */
  function RowGroupColumnOf(obj: seq<Member>): (r: Result<Option<ColumnMetadata>>)
    ensures r.Ok? ==> Get(obj, "nulls").Some? && JsonTree.AsLong(Get(obj, "nulls").value).Ok?
    ensures var n, mx := JsonTree.AsLong(Get(obj, "nulls").GetOr(JNull)), Get(obj, "mxValue");
            && (r == Ok(None) <==> n == Ok(0) && mx == Some(JNull))
            && (n == Ok(0) && mx.None? ==> r == Err(MissingMember("mxValue")))
            && (r.Ok? && r.value.Some? ==>
                  var c := r.value.value;
                  && c.name == []
                  && (c.nulls.Some? <==> n.value > 0)
                  && (c.nulls.Some? ==> c.nulls.value == n.value)
                  && (c.mxValue.Some? <==> mx.Some?)
                  && (c.mxValue.Some? ==> c.mxValue.value == Text(mx.value)))
  {
    var nullsValue :- Field(obj, "nulls");
    var nulls :- AsLong(nullsValue);
    var mx := Get(obj, "mxValue");
    if nulls == 0 then
      var v :- Field(obj, "mxValue");
      if IsNull(v) then Ok(None) else Ok(Some(ColumnMetadata([], None, Some(Text(v)))))
    else
      Ok(Some(ColumnMetadata([], if nulls > 0 then Some(nulls) else None, if mx.Some? then Some(Text(mx.value)) else None)))
  }

  /** A JSON null statistic beside a positive count is stored as the four characters of "null". */
  lemma NullStatisticKeptAsText(obj: seq<Member>, n: int)
    requires Get(obj, "nulls") == Some(JNumber(DecimalText(n))) && 0 < n < TWO_63
    requires Get(obj, "mxValue") == Some(JNull)
    ensures RowGroupColumnOf(obj) == Ok(Some(ColumnMetadata([], Some(n), Some("null"))))
  {
    ParseDecimalText(n, -TWO_63, TWO_63 - 1);
  }

  // ---------------------------------------------------------------------
  // The loops, as functions over the input

  /**
   * The array elements from index i on, each read as an object and parsed
   * to an optional record: the records present, in array order (the
   * row-group column loop, which skips a record it is given none for).
   */
  function KeptObjectsFrom<T>(items: seq<Json>, i: nat, parse: seq<Member> -> Result<Option<T>>): (r: Result<seq<T>>)
    requires i <= |items|
    ensures r.Ok? <==> forall j | i <= j < |items| :: items[j].JObject? && parse(items[j].members).Ok?
    ensures r.Ok? ==> |r.value| <= |items| - i
    decreases |items| - i
  {
    if i == |items| then Ok([])
    else
      match AsObject(items[i])
      case Err(e) => Err(e)
      case Ok(o) =>
        match parse(o)
        case Err(e) => Err(e)
        case Ok(c) =>
          match KeptObjectsFrom(items, i + 1, parse)
          case Err(e) => Err(e)
          case Ok(rest) => Ok((if c.Some? then [c.value] else []) + rest)
  }

  /** The k-th host-affinity member as a pair: its name with get(name) read as a float. */
  function AffinityAt(obj: seq<Member>, k: nat): Result<Proto.HostAffinity>
    requires k < |obj|
  {
    var value :- AsFloat(JsonLoader.LastValue(obj, k));
    Ok(Proto.HostAffinity(obj[k].name, value))
  }

  /** The affinity pairs from member i on: one per member, in member order, repeated names included. */
  function AffinitiesFrom(obj: seq<Member>, i: nat): (r: Result<seq<Proto.HostAffinity>>)
    requires i <= |obj|
    ensures r.Ok? ==> |r.value| == |obj| - i
                      && forall k | 0 <= k < |r.value| :: AffinityAt(obj, i + k) == Ok(r.value[k])
    decreases |obj| - i
  {
    if i == |obj| then Ok([])
    else
      match AffinityAt(obj, i)
      case Err(e) => Err(e)
      case Ok(a) =>
        match AffinitiesFrom(obj, i + 1)
        case Err(e) => Err(e)
        case Ok(rest) =>
          assert forall k | 0 < k < |rest| + 1 :: ([a] + rest)[k] == rest[k - 1];
          Ok([a] + rest)
  }

  /**
   * The members of an object from index i on: for each member name,
   * get(name) read as an object and parsed. One result per member, in
   * member order, a repeated name giving the last value each time (the
   * dictionary loop).
   */
  function MemberObjectsFrom<T>(members: seq<Member>, i: nat, parse: seq<Member> -> Result<T>): (r: Result<seq<T>>)
    requires i <= |members|
    ensures r.Ok? ==> |r.value| == |members| - i
                      && forall j | i <= j < |members| ::
                           JsonLoader.LastValue(members, j).JObject?
                           && parse(JsonLoader.LastValue(members, j).members) == Ok(r.value[j - i])
    decreases |members| - i
  {
    if i == |members| then Ok([])
    else
      match AsObject(JsonLoader.LastValue(members, i))
      case Err(e) => Err(e)
      case Ok(o) =>
        match parse(o)
        case Err(e) => Err(e)
        case Ok(x) =>
          match MemberObjectsFrom(members, i + 1, parse)
          case Err(e) => Err(e)
          case Ok(rest) =>
            assert forall k | 0 < k < |rest| + 1 :: ([x] + rest)[k] == rest[k - 1];
            Ok([x] + rest)
  }

  /** The counters must be present and long-valued; they are read in the order start, length, rowCount. */
  function LongMember(obj: seq<Member>, name: string): (r: Result<int>)
    ensures r.Ok? ==> Get(obj, name).Some? && JsonTree.AsLong(Get(obj, name).value) == r
  {
    var v :- Field(obj, name);
    AsLong(v)
  }

  /** parseRowGroup: the three counters, the affinities, then the kept columns. */
  function RowGroupOf(obj: seq<Member>): (r: Result<RowGroup>)
    ensures r.Ok? ==> && LongMember(obj, "start") == Ok(r.value.start)
                      && LongMember(obj, "length") == Ok(r.value.length)
                      && LongMember(obj, "rowCount") == Ok(r.value.rowCount)
  {
    var start :- LongMember(obj, "start");
    var length :- LongMember(obj, "length");
    var rowCount :- LongMember(obj, "rowCount");
    var affinityValue :- Field(obj, "hostAffinity");
    var hostAffinity :- AsObject(affinityValue);
    var affinities :- AffinitiesFrom(hostAffinity, 0);
    var columnsValue :- Field(obj, "columns");
    var items :- AsArray(columnsValue);
    var columns :- KeptObjectsFrom(items, 0, RowGroupColumnOf);
    Ok(RowGroup(start, length, rowCount, affinities, columns))
  }

  /** parseFile: the path and the length must be present; then the row groups in array order. */
  function FileOf(obj: seq<Member>): (r: Result<ParquetFileMetadata>)
    ensures r.Ok? ==> Get(obj, "path") == Some(JString(r.value.path))
                      && LongMember(obj, "length") == Ok(r.value.length)
  {
    var pathValue :- Field(obj, "path");
    var path :- AsString(pathValue);
    var length :- LongMember(obj, "length");
    var groupsValue :- Field(obj, "rowGroups");
    var items :- AsArray(groupsValue);
    var rowGroups :- ObjectsFrom(items, 0, RowGroupOf);
    Ok(ParquetFileMetadata(path, length, rowGroups))
  }

  /**
   * parseMetadata: the version must be "v2"; then the dictionary, the files
   * and the directories, in that order. The version is not put into the
   * message.
   */
  function MetadataOf(obj: seq<Member>): (r: Result<ParquetTableMetadata>)
    ensures r.Ok? ==> JsonLoader.VersionOf(obj) == Ok("v2")
    ensures (JsonLoader.VersionOf(obj).Ok? && JsonLoader.VersionOf(obj).value != "v2")
              ==> r == Err(InvalidVersion(JsonLoader.VersionOf(obj).value))
    ensures r.Ok? ==> r.value.metadataVersion.None?
    ensures r.Ok? ==> JsonLoader.DirectoriesOf(obj) == Ok(r.value.directories)
  {
    var version :- JsonLoader.VersionOf(obj);
    if version != "v2" then Err(InvalidVersion(version))
    else
      var columnsValue :- Field(obj, "columnTypeInfo");
      var columnsObj :- AsObject(columnsValue);
      var columns :- MemberObjectsFrom(columnsObj, 0, ColumnTypeInfoOf);
      var filesValue :- Field(obj, "files");
      var fileItems :- AsArray(filesValue);
      var files :- ObjectsFrom(fileItems, 0, FileOf);
      var directories :- JsonLoader.DirectoriesOf(obj);
      Ok(ParquetTableMetadata(None, columns, files, directories))
  }

  // ---------------------------------------------------------------------
  // Properties of the conversion

  /** With every record present there is one per element, in array order. */
  lemma {:induction false} AllKeptInOrder<T>(items: seq<Json>, i: nat, parse: seq<Member> -> Result<Option<T>>)
    requires i <= |items|
    requires forall j | i <= j < |items| ::
               items[j].JObject? && parse(items[j].members).Ok? && parse(items[j].members).value.Some?
    ensures var cs := KeptObjectsFrom(items, i, parse);
            && cs.Ok? && |cs.value| == |items| - i
            && forall j | i <= j < |items| :: parse(items[j].members) == Ok(Some(cs.value[j - i]))
    decreases |items| - i
  {
    if i < |items| {
      AllKeptInOrder(items, i + 1, parse);
      var c := parse(items[i].members).value.value;
      var rest := KeptObjectsFrom(items, i + 1, parse).value;
      assert KeptObjectsFrom(items, i, parse) == Ok([c] + rest);
      assert forall k | 0 < k < |rest| + 1 :: ([c] + rest)[k] == rest[k - 1];
    }
  }

  /** A skipped element adds nothing: the records after it are those of the rest of the array. */
  lemma SkippedAddsNothing<T>(items: seq<Json>, i: nat, parse: seq<Member> -> Result<Option<T>>)
    requires i < |items|
    requires items[i].JObject? && parse(items[i].members) == Ok(None)
    ensures KeptObjectsFrom(items, i, parse) == KeptObjectsFrom(items, i + 1, parse)
  {
    var rest := KeptObjectsFrom(items, i + 1, parse);
    if rest.Ok? {
      assert [] + rest.value == rest.value;
    }
  }

  /**
   * The row-group column loop in particular: a record is skipped exactly
   * when nulls is 0 and mxValue is JSON null.
   */
  lemma NullFreeColumnsSkipped(items: seq<Json>, i: nat)
    requires i < |items| && items[i].JObject?
    requires Get(items[i].members, "nulls") == Some(JNumber("0"))
    requires Get(items[i].members, "mxValue") == Some(JNull)
    ensures KeptObjectsFrom(items, i, RowGroupColumnOf) == KeptObjectsFrom(items, i + 1, RowGroupColumnOf)
  {
    assert RowGroupColumnOf(items[i].members) == Ok(None);
    SkippedAddsNothing(items, i, RowGroupColumnOf);
  }

  // ---------------------------------------------------------------------
  // The converter's methods

  /** parseStringArray: each element, in order, must be a string. */
  method ParseStringArray(items: seq<Json>) returns (r: Result<seq<string>>)
    ensures r == Utils.StringsOf(items)
  {
    var strings: seq<string> := [];
    for i := 0 to |items|
      invariant Utils.StringsOf(items[..i]) == Ok(strings)
    {
      var s := AsString(items[i]);
      assert items[..i + 1][..i] == items[..i];
      if s.Err? {
        assert !items[i].JString?;
        return Err(s.error);
      }
      strings := strings + [s.value];
    }
    assert items[..|items|] == items;
    return Ok(strings);
  }

  method ParseColumnTypeInfo(obj: seq<Member>) returns (r: Result<ColumnTypeInfo>)
    ensures r == ColumnTypeInfoOf(obj)
  {
    var nameValue :- Field(obj, "name");
    var items :- AsArray(nameValue);
    var name :- ParseStringArray(items);
    var primitiveValue :- Field(obj, "primitiveType");
    var primitiveType :- JsonLoader.PrimitiveTypeOf(primitiveValue);
    var originalValue :- Field(obj, "originalType");
    var originalType :- JsonLoader.OriginalTypeOf(originalValue);
    return Ok(ColumnTypeInfo(name, primitiveType, originalType));
  }

  /** parseRowGroup: the counters, the affinity loop and the column loop. */
  method ParseRowGroup(obj: seq<Member>) returns (r: Result<RowGroup>)
    ensures r == RowGroupOf(obj)
  {
    var start :- LongMember(obj, "start");
    var length :- LongMember(obj, "length");
    var rowCount :- LongMember(obj, "rowCount");
    var affinityValue :- Field(obj, "hostAffinity");
    var hostAffinity :- AsObject(affinityValue);
    var affinities :- ParseAffinities(hostAffinity);
    var columnsValue :- Field(obj, "columns");
    var items :- AsArray(columnsValue);
    var columns :- ParseRowGroupColumns(items);
    return Ok(RowGroup(start, length, rowCount, affinities, columns));
  }

  /** The affinity loop: one pair per member name, in member order. */
  method ParseAffinities(hostAffinity: seq<Member>) returns (r: Result<seq<Proto.HostAffinity>>)
    ensures r == AffinitiesFrom(hostAffinity, 0)
  {
    ghost var spec := AffinitiesFrom(hostAffinity, 0);
    PrependedNothing(spec);
    var affinities: seq<Proto.HostAffinity> := [];
    for i := 0 to |hostAffinity|
      invariant spec == Prepended(affinities, AffinitiesFrom(hostAffinity, i))
    {
      var a := AffinityAt(hostAffinity, i);
      if a.Err? {
        return Err(a.error);
      }
      PrependedTwice(affinities, [a.value], AffinitiesFrom(hostAffinity, i + 1));
      affinities := affinities + [a.value];
    }
    PrependedToEmpty(affinities);
    return Ok(affinities);
  }

  /** The column loop: a dropped record is not added. */
  method ParseRowGroupColumns(items: seq<Json>) returns (r: Result<seq<ColumnMetadata>>)
    ensures r == KeptObjectsFrom(items, 0, RowGroupColumnOf)
  {
    ghost var spec := KeptObjectsFrom(items, 0, RowGroupColumnOf);
    PrependedNothing(spec);
    var columns: seq<ColumnMetadata> := [];
    for i := 0 to |items|
      invariant spec == Prepended(columns, KeptObjectsFrom(items, i, RowGroupColumnOf))
    {
      var o := AsObject(items[i]);
      if o.Err? {
        return Err(o.error);
      }
      var c := RowGroupColumnOf(o.value);
      if c.Err? {
        return Err(c.error);
      }
      var kept := if c.value.Some? then [c.value.value] else [];
      PrependedTwice(columns, kept, KeptObjectsFrom(items, i + 1, RowGroupColumnOf));
      columns := columns + kept;
    }
    PrependedToEmpty(columns);
    return Ok(columns);
  }

  /** parseFile: path, length, then the row-group loop. */
  method ParseFile(obj: seq<Member>) returns (r: Result<ParquetFileMetadata>)
    ensures r == FileOf(obj)
  {
    var pathValue :- Field(obj, "path");
    var path :- AsString(pathValue);
    var length :- LongMember(obj, "length");
    var groupsValue :- Field(obj, "rowGroups");
    var items :- AsArray(groupsValue);
    ghost var spec := ObjectsFrom(items, 0, RowGroupOf);
    PrependedNothing(spec);
    var rowGroups: seq<RowGroup> := [];
    for i := 0 to |items|
      invariant spec == Prepended(rowGroups, ObjectsFrom(items, i, RowGroupOf))
    {
      var o := AsObject(items[i]);
      if o.Err? {
        return Err(o.error);
      }
      var g := ParseRowGroup(o.value);
      if g.Err? {
        return Err(g.error);
      }
      PrependedTwice(rowGroups, [g.value], ObjectsFrom(items, i + 1, RowGroupOf));
      rowGroups := rowGroups + [g.value];
    }
    PrependedToEmpty(rowGroups);
    return Ok(ParquetFileMetadata(path, length, rowGroups));
  }

  /** parseMetadata: the version check, the dictionary loop, the file loop, then the directories. */
  method ParseMetadata(obj: seq<Member>) returns (r: Result<ParquetTableMetadata>)
    ensures r == MetadataOf(obj)
  {
    var version :- JsonLoader.VersionOf(obj);
    if version != "v2" {
      return Err(InvalidVersion(version));
    }
    var columnsValue :- Field(obj, "columnTypeInfo");
    var columnsObj :- AsObject(columnsValue);
    var columns :- ParseColumnTypeInfos(columnsObj);
    var filesValue :- Field(obj, "files");
    var fileItems :- AsArray(filesValue);
    var files :- ParseFiles(fileItems);
    var dirValue :- Field(obj, "directories");
    var dirItems :- AsArray(dirValue);
    var directories :- ParseStringArray(dirItems);
    return Ok(ParquetTableMetadata(None, columns, files, directories));
  }

  /** The dictionary loop: for each member name, get(name) as an object, parsed. */
  method ParseColumnTypeInfos(columns: seq<Member>) returns (r: Result<seq<ColumnTypeInfo>>)
    ensures r == MemberObjectsFrom(columns, 0, ColumnTypeInfoOf)
  {
    ghost var spec := MemberObjectsFrom(columns, 0, ColumnTypeInfoOf);
    PrependedNothing(spec);
    var infos: seq<ColumnTypeInfo> := [];
    for i := 0 to |columns|
      invariant spec == Prepended(infos, MemberObjectsFrom(columns, i, ColumnTypeInfoOf))
    {
      var o := AsObject(JsonLoader.LastValue(columns, i));
      if o.Err? {
        return Err(o.error);
      }
      var c := ParseColumnTypeInfo(o.value);
      if c.Err? {
        return Err(c.error);
      }
      PrependedTwice(infos, [c.value], MemberObjectsFrom(columns, i + 1, ColumnTypeInfoOf));
      infos := infos + [c.value];
    }
    PrependedToEmpty(infos);
    return Ok(infos);
  }

  /** The file loop, in array order. */
  method ParseFiles(items: seq<Json>) returns (r: Result<seq<ParquetFileMetadata>>)
    ensures r == ObjectsFrom(items, 0, FileOf)
  {
    ghost var spec := ObjectsFrom(items, 0, FileOf);
    PrependedNothing(spec);
    var files: seq<ParquetFileMetadata> := [];
    for i := 0 to |items|
      invariant spec == Prepended(files, ObjectsFrom(items, i, FileOf))
    {
      var o := AsObject(items[i]);
      if o.Err? {
        return Err(o.error);
      }
      var f := ParseFile(o.value);
      if f.Err? {
        return Err(f.error);
      }
      PrependedTwice(files, [f.value], ObjectsFrom(items, i + 1, FileOf));
      files := files + [f.value];
    }
    PrependedToEmpty(files);
    return Ok(files);
  }
}
