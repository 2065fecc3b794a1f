/**
 * The JSON importer: walks an already-parsed version-2 metadata cache into
 * the in-memory table. The loader keeps a list of dotted column names and a
 * parallel list of their primitive types; each row-group column finds its
 * declared type there by name, and that type decides the kind of statistic
 * read from the JSON.
 *
 * Every loop of the importer is a method proved equal to a recursive
 * function over the input (the functions ending in "Of" or "From"); the
 * properties are stated about those functions.
 */
module JsonLoader {
  import opened Wrappers
  import opened Primitives
  import opened JsonTree
  import opened Proto
  import opened Holders
  import Utils

  // ---------------------------------------------------------------------
  // parseColumnTypeInfo

  /** An enum-valued member: JSON null means "no type", anything else goes through valueOf. */
  function PrimitiveTypeOf(v: Json): (r: Result<Option<PrimitiveTypeName>>)
    ensures r == Ok(None) <==> IsNull(v)
    ensures r.Ok? && r.value.Some? ==> v == JString(PrimitiveTypeText(r.value.value))
  {
    if IsNull(v) then Ok(None)
    else
      var s :- AsString(v);
      var t :- PrimitiveTypeValueOf(s);
      Ok(Some(t))
  }

  function OriginalTypeOf(v: Json): (r: Result<Option<OriginalType>>)
    ensures r == Ok(None) <==> IsNull(v)
    ensures r.Ok? && r.value.Some? ==> v == JString(r.value.value.name) && r.value.value.name in ORIGINAL_TYPE_NAMES
  {
    if IsNull(v) then Ok(None)
    else
      var s :- AsString(v);
      var t :- OriginalTypeValueOf(s);
      Ok(Some(t))
  }

  /**
   * parseColumnTypeInfo: the name array and both types; all three members
   * must be present (a missing one is dereferenced), and the record is
   * keyed by its own name.
   */
  function ParseColumnTypeInfo(obj: seq<Member>): (r: Result<ColumnTypeMetadata>)
    ensures r.Ok? ==> r.value.key == NameKey(r.value.name)
  {
    var nameValue :- Field(obj, "name");
    var items :- AsArray(nameValue);
    var name :- Utils.StringsOf(items);
    var primitiveValue :- Field(obj, "primitiveType");
    var primitiveType :- PrimitiveTypeOf(primitiveValue);
    var originalValue :- Field(obj, "originalType");
    var originalType :- OriginalTypeOf(originalValue);
    Ok(NewColumnTypeMetadata(name, primitiveType, originalType))
  }

  /** What a parsed column type record holds, member by member. */
  lemma ColumnTypeInfoMembers(obj: seq<Member>)
    requires ParseColumnTypeInfo(obj).Ok?
    ensures var c := ParseColumnTypeInfo(obj).value;
            && Get(obj, "name").Some? && Get(obj, "name").value.JArray?
            && Utils.StringsOf(Get(obj, "name").value.items) == Ok(c.name)
            && Get(obj, "primitiveType").Some? && PrimitiveTypeOf(Get(obj, "primitiveType").value) == Ok(c.primitiveType)
            && Get(obj, "originalType").Some? && OriginalTypeOf(Get(obj, "originalType").value) == Ok(c.originalType)
  {
  }

  // ---------------------------------------------------------------------
  // extractRootColumns

  /** The record of the k-th member of columnTypeInfo, read through get(name). */
  function ColumnTypeAt(columns: seq<Member>, k: nat): Result<ColumnTypeMetadata>
    requires k < |columns|
  {
    var v := Get(columns, columns[k].name);
    var o :- AsObject(v.value);
    ParseColumnTypeInfo(o)
  }

  /** The records of the members from index i on, in member order. */
  function RootRecordsFrom(columns: seq<Member>, i: nat): (r: Result<seq<ColumnTypeMetadata>>)
    requires i <= |columns|
    ensures r.Ok? ==> |r.value| == |columns| - i
    decreases |columns| - i
  {
    if i == |columns| then Ok([])
    else
      var c :- ColumnTypeAt(columns, i);
      var rest :- RootRecordsFrom(columns, i + 1);
      Ok([c] + rest)
  }

  /** One step of the walk: the member's record goes in front of the rest, or its error is the result. */
  lemma RootRecordsStep(columns: seq<Member>, i: nat)
    requires i < |columns|
    ensures ColumnTypeAt(columns, i).Err? ==> RootRecordsFrom(columns, i) == Err(ColumnTypeAt(columns, i).error)
    ensures ColumnTypeAt(columns, i).Ok? ==>
              RootRecordsFrom(columns, i) == Prepended([ColumnTypeAt(columns, i).value], RootRecordsFrom(columns, i + 1))
  {
  }

  /**
   * Records keep member order: entry k is the record of the k-th member
   * (read through get, so of the last member with its name), and each is
   * keyed by its own name.
   */
  lemma {:induction false} RootRecordsInOrder(columns: seq<Member>, i: nat)
    requires i <= |columns|
    requires RootRecordsFrom(columns, i).Ok?
    ensures var all := RootRecordsFrom(columns, i).value;
            forall k | i <= k < |columns| :: ColumnTypeAt(columns, k) == Ok(all[k - i])
    decreases |columns| - i
  {
    if i < |columns| {
      var all := RootRecordsFrom(columns, i).value;
      var rest := RootRecordsFrom(columns, i + 1).value;
      assert all == [all[0]] + rest;
      RootRecordsInOrder(columns, i + 1);
      forall k | i < k < |columns|
        ensures ColumnTypeAt(columns, k) == Ok(all[k - i])
      {
        assert all[k - i] == rest[k - (i + 1)];
      }
    }
  }

  /** Every record read from columnTypeInfo is keyed by its own name. */
  lemma {:induction false} RootRecordsKeyed(columns: seq<Member>, i: nat)
    requires i <= |columns|
    requires RootRecordsFrom(columns, i).Ok?
    ensures var all := RootRecordsFrom(columns, i).value;
            forall k | 0 <= k < |all| :: all[k].key == NameKey(all[k].name)
    decreases |columns| - i
  {
    if i < |columns| {
      var all := RootRecordsFrom(columns, i).value;
      var rest := RootRecordsFrom(columns, i + 1).value;
      assert all == [all[0]] + rest;
      RootRecordsKeyed(columns, i + 1);
    }
  }

  /** The values read at indices i to n - 1, in index order; the first failure is the result. */
  function RecordsFrom<T>(read: nat -> Result<T>, n: nat, i: nat): (r: Result<seq<T>>)
    requires i <= n
    ensures r.Ok? ==> |r.value| == n - i
    decreases n - i
  {
    if i == n then Ok([])
    else
      var c :- read(i);
      var rest :- RecordsFrom(read, n, i + 1);
      Ok([c] + rest)
  }

  /** The record of the k-th member of columnTypeInfo, as a reader over indices. */
  function RootReader(columns: seq<Member>): nat -> Result<ColumnTypeMetadata> {
    (k: nat) => if k < |columns| then ColumnTypeAt(columns, k) else Err(NullValue)
  }

  /** The walk over columnTypeInfo is the walk of its reader. */
  lemma {:induction false} RootRecordsRead(columns: seq<Member>, i: nat)
    requires i <= |columns|
    ensures RootRecordsFrom(columns, i) == RecordsFrom(RootReader(columns), |columns|, i)
    decreases |columns| - i
  {
    if i < |columns| {
      RootRecordsRead(columns, i + 1);
    }
  }

  function RootColumnsOf(obj: seq<Member>): Result<seq<ColumnTypeMetadata>> {
    var v :- Field(obj, "columnTypeInfo");
    var columns :- AsObject(v);
    RootRecordsFrom(columns, 0)
  }

  function DottedNames(records: seq<ColumnTypeMetadata>): (r: seq<string>)
    ensures |r| == |records| && forall i | 0 <= i < |r| :: r[i] == Utils.Join(records[i].name)
  {
    seq(|records|, i requires 0 <= i < |records| => Utils.Join(records[i].name))
  }

  function TypesOf(records: seq<ColumnTypeMetadata>): (r: seq<Option<PrimitiveTypeName>>)
    ensures |r| == |records| && forall i | 0 <= i < |r| :: r[i] == records[i].primitiveType
  {
    seq(|records|, i requires 0 <= i < |records| => records[i].primitiveType)
  }

  /** Appending one record extends the names and types by one entry and puts it in the map. */
  lemma AppendRecord(records: seq<ColumnTypeMetadata>, record: ColumnTypeMetadata)
    ensures DottedNames(records + [record]) == DottedNames(records) + [Utils.Join(record.name)]
    ensures TypesOf(records + [record]) == TypesOf(records) + [record.primitiveType]
    ensures KeyedBy(records + [record]) == KeyedBy(records)[record.key := record]
  {
    assert (records + [record])[..|records|] == records;
  }

  /** The map after putting each record under its key, in order. */
  function KeyedBy(records: seq<ColumnTypeMetadata>): map<KeyRef, ColumnTypeMetadata> {
    if |records| == 0 then map[]
    else
      var last := records[|records| - 1];
      KeyedBy(records[..|records| - 1])[last.key := last]
  }

  /**
   * Looking a name up after the puts finds the LAST record with that name,
   * and finds something exactly when some record has it.
   */
  lemma {:induction false} KeyedByLookup(records: seq<ColumnTypeMetadata>, name: seq<string>)
    requires forall i | 0 <= i < |records| :: records[i].key == NameKey(records[i].name)
    ensures NameKey(name) in KeyedBy(records) <==> exists i | 0 <= i < |records| :: records[i].name == name
    ensures NameKey(name) in KeyedBy(records) ==>
              exists i | 0 <= i < |records| ::
                && records[i] == KeyedBy(records)[NameKey(name)] && records[i].name == name
                && forall j | i < j < |records| :: records[j].name != name
  {
    if |records| > 0 {
      var n := |records|;
      var init, last := records[..n - 1], records[n - 1];
      var key, m, m' := NameKey(name), KeyedBy(records), KeyedBy(init);
      assert m == m'[last.key := last];
      assert forall i | 0 <= i < |init| :: init[i] == records[i];
      KeyedByLookup(init, name);
      if last.name != name {
        assert last.key != key;
        if key in m {
          assert key in m' && m[key] == m'[key];
          var i :| 0 <= i < |init| && init[i] == m'[key] && init[i].name == name
                   && forall j | i < j < |init| :: init[j].name != name;
          assert forall j | i < j < n :: records[j].name != name;
        }
        if exists i | 0 <= i < n :: records[i].name == name {
          var i :| 0 <= i < n && records[i].name == name;
          assert i < |init| && init[i].name == name;
        }
      } else {
        assert key in m && m[key] == records[n - 1];
      }
    }
  }

  /** A null key is never put, so none is found. */
  lemma {:induction false} KeyedByNoNullKey(records: seq<ColumnTypeMetadata>)
    requires forall i | 0 <= i < |records| :: records[i].key.NameKey?
    ensures NullKey !in KeyedBy(records)
  {
    if |records| > 0 {
      KeyedByNoNullKey(records[..|records| - 1]);
    }
  }

  // ---------------------------------------------------------------------
  // getColumnType and parseRowGroupColumn

  /** getColumnType: the type at the first position holding the dotted name. */
  function GetColumnType(names: seq<string>, types: seq<Option<PrimitiveTypeName>>, columnName: seq<string>)
    : (r: Result<Option<PrimitiveTypeName>>)
    requires |names| == |types|
    ensures r.Err? <==> Utils.Join(columnName) !in names
    ensures r.Err? ==> r.error == ColumnNotFound(Utils.Join(columnName))
    ensures r.Ok? ==> var i := Utils.IndexOf(names, Utils.Join(columnName));
                      0 <= i && names[i] == Utils.Join(columnName) && r.value == types[i]
                      && forall j | 0 <= j < i :: names[j] != Utils.Join(columnName)
  {
    var name := Utils.Join(columnName);
    var nameId := Utils.IndexOf(names, name);
    if nameId == -1 then Err(ColumnNotFound(name)) else Ok(types[nameId])
  }

  /** Which statistic kind a declared primitive type calls for. */
  predicate KindOf(t: PrimitiveTypeName, v: MxValue) {
    match t
    case INT64 => v.MxLong? && IsInt64(v.l)
    case INT32 => v.MxInt? && IsInt32(v.i)
    case BOOLEAN => v.MxBool?
    case BINARY => v.MxBytes?
    case FIXED_LEN_BYTE_ARRAY => v.MxBytes?
    case INT96 => v.MxBytes?
    case FLOAT => v.MxFloat?
    case DOUBLE => v.MxDouble?
  }

  /** The switch on the declared type; a null type cannot be switched on. */
  function StatisticOf(t: Option<PrimitiveTypeName>, v: Json): (r: Result<MxValue>)
    ensures t.None? ==> r == Err(NullValue)
    ensures r.Ok? ==> t.Some? && KindOf(t.value, r.value)
    ensures r.Ok? && r.value.MxBytes? ==> v.JString? && r.value.bytes == Utf8(v.s)
  {
    match t
    case None => Err(NullValue)
    case Some(INT64) => var l :- AsLong(v); Ok(MxLong(l))
    case Some(INT32) => var i :- AsInt(v); Ok(MxInt(i))
    case Some(BOOLEAN) => var b :- AsBoolean(v); Ok(MxBool(b))
    case Some(BINARY) => var s :- AsString(v); Ok(MxBytes(Utf8(s)))
    case Some(FIXED_LEN_BYTE_ARRAY) => var s :- AsString(v); Ok(MxBytes(Utf8(s)))
    case Some(INT96) => var s :- AsString(v); Ok(MxBytes(Utf8(s)))
    case Some(FLOAT) => var f :- AsFloat(v); Ok(MxFloat(f))
    case Some(DOUBLE) => var d :- AsDouble(v); Ok(MxDouble(d))
  }

  /** The "nulls" member as a long; it must be present. */
  function NullsOf(obj: seq<Member>): Result<int> {
    var v :- Field(obj, "nulls");
    AsLong(v)
  }

  /**
   * parseRowGroupColumn: None means "no record". A record is dropped only
   * when nulls is 0 and there is no mxValue member; a positive count
   * becomes null while 0 and negative counts are kept; the statistic's kind
   * follows the declared type of the column.
   */
  function ParseRowGroupColumn(names: seq<string>, types: seq<Option<PrimitiveTypeName>>, obj: seq<Member>)
    : (r: Result<Option<Holders.ColumnMetadata>>)
    requires |names| == |types|
  {
    var nulls :- NullsOf(obj);
    var mx := Get(obj, "mxValue");
    if nulls == 0 && mx.None? then Ok(None)
    else
      var nameValue :- Field(obj, "name");
      var items :- AsArray(nameValue);
      var columnName :- Utils.StringsOf(items);
      var primitiveType :- GetColumnType(names, types, columnName);
      var mxValue :- if mx.None? then Ok(None)
                     else var s :- StatisticOf(primitiveType, mx.value); Ok(Some(s));
      Ok(Some(Holders.ColumnMetadata(columnName, if nulls > 0 then None else Some(nulls), mxValue, primitiveType)))
  }

  /**
   * The rules of parseRowGroupColumn: nulls must be present; a record is
   * dropped exactly when nulls is 0 and there is no mxValue member; a
   * positive count becomes null while 0 and negative counts are kept; the
   * declared type is the one getColumnType finds; the statistic is present
   * exactly when the member is, and its kind follows the declared type.
   */
  lemma RowGroupColumnRules(names: seq<string>, types: seq<Option<PrimitiveTypeName>>, obj: seq<Member>)
    requires |names| == |types|
    ensures var r := ParseRowGroupColumn(names, types, obj);
            && (r.Ok? ==> NullsOf(obj).Ok?)
            && (r == Ok(None) <==> NullsOf(obj) == Ok(0) && Get(obj, "mxValue").None?)
            && (r.Ok? && r.value.Some? ==>
                  var c, n := r.value.value, NullsOf(obj).value;
                  && c.nulls == (if n > 0 then None else Some(n))
                  && GetColumnType(names, types, c.name) == Ok(c.primitiveType)
                  && (c.mxValue.None? <==> Get(obj, "mxValue").None?)
                  && (c.mxValue.Some? ==> c.primitiveType.Some? && KindOf(c.primitiveType.value, c.mxValue.value)))
  {
  }

  /** What the j-th element of the columns array yields: a kept record, a dropped one (None), or an error. */
  function ColumnAt(names: seq<string>, types: seq<Option<PrimitiveTypeName>>, items: seq<Json>, j: nat)
    : Result<Option<Holders.ColumnMetadata>>
    requires |names| == |types| && j < |items|
  {
    var o :- AsObject(items[j]);
    ParseRowGroupColumn(names, types, o)
  }

  /** The kept records of the array elements from index i on, or the first failure. */
  function RowGroupColumnsFrom(names: seq<string>, types: seq<Option<PrimitiveTypeName>>, items: seq<Json>, i: nat)
    : (r: Result<seq<Holders.ColumnMetadata>>)
    requires |names| == |types| && i <= |items|
    ensures r.Ok? ==> |r.value| <= |items| - i
    decreases |items| - i
  {
    if i == |items| then Ok([])
    else
      var c :- ColumnAt(names, types, items, i);
      var rest :- RowGroupColumnsFrom(names, types, items, i + 1);
      Ok((if c.Some? then [c.value] else []) + rest)
  }

  /** The values kept at indices i to n - 1: read(j) is a kept value, None for a dropped one, or an error. */
  function KeptFrom<T>(read: nat -> Result<Option<T>>, n: nat, i: nat): (r: Result<seq<T>>)
    requires i <= n
    decreases n - i
  {
    if i == n then Ok([])
    else
      var c :- read(i);
      var rest :- KeptFrom(read, n, i + 1);
      Ok((if c.Some? then [c.value] else []) + rest)
  }

  /** The indices from i to n - 1 whose value is kept: exactly those, in increasing order. */
  function KeptIndices<T>(read: nat -> Result<Option<T>>, n: nat, i: nat): (r: seq<nat>)
    requires i <= n
    ensures forall k | 0 <= k < |r| :: i <= r[k] < n
    ensures forall k, l | 0 <= k < l < |r| :: r[k] < r[l]
    ensures forall j | i <= j < n :: j in r <==> read(j).Ok? && read(j).value.Some?
    decreases n - i
  {
    if i == n then []
    else (if read(i).Ok? && read(i).value.Some? then [i] else []) + KeptIndices(read, n, i + 1)
  }

  /** A keep-or-drop walk succeeds exactly when every index reads without error. */
  lemma {:induction false} KeptSucceeds<T>(read: nat -> Result<Option<T>>, n: nat, i: nat)
    requires i <= n
    ensures KeptFrom(read, n, i).Ok? <==> forall j | i <= j < n :: read(j).Ok?
    decreases n - i
  {
    if i < n {
      KeptSucceeds(read, n, i + 1);
    }
  }

  /** On success the values are those of the kept indices, in index order; a dropped index adds nothing. */
  lemma {:induction false} KeptValues<T>(read: nat -> Result<Option<T>>, n: nat, i: nat)
    requires i <= n && KeptFrom(read, n, i).Ok?
    ensures var r, idx := KeptFrom(read, n, i).value, KeptIndices(read, n, i);
            |r| == |idx| && forall k | 0 <= k < |idx| :: read(idx[k]) == Ok(Some(r[k]))
    decreases n - i
  {
    if i < n {
      KeptValues(read, n, i + 1);
      var c, rest := read(i).value, KeptFrom(read, n, i + 1).value;
      var idx' := KeptIndices(read, n, i + 1);
      if c.Some? {
        assert KeptFrom(read, n, i).value == [c.value] + rest;
        assert KeptIndices(read, n, i) == [i] + idx';
        KeptPrepend(read, i, c.value, rest, idx');
      } else {
        assert KeptFrom(read, n, i).value == [] + rest == rest;
        assert KeptIndices(read, n, i) == [] + idx' == idx';
      }
    }
  }

  lemma KeptPrepend<T>(read: nat -> Result<Option<T>>, i: nat, c: T, rest: seq<T>, idx': seq<nat>)
    requires read(i) == Ok(Some(c))
    requires |rest| == |idx'| && forall k | 0 <= k < |idx'| :: read(idx'[k]) == Ok(Some(rest[k]))
    ensures var r, idx := [c] + rest, [i] + idx';
            |r| == |idx| && forall k | 0 <= k < |idx| :: read(idx[k]) == Ok(Some(r[k]))
  {
    var r, idx := [c] + rest, [i] + idx';
    forall k | 0 <= k < |idx|
      ensures read(idx[k]) == Ok(Some(r[k]))
    {
      if k > 0 {
        assert idx[k] == idx'[k - 1] && r[k] == rest[k - 1];
      }
    }
  }

  /** On failure the error is that of the first index that fails. */
  lemma {:induction false} KeptFirstError<T>(read: nat -> Result<Option<T>>, n: nat, i: nat)
    requires i <= n && KeptFrom(read, n, i).Err?
    ensures exists j | i <= j < n :: read(j) == Err(KeptFrom(read, n, i).error) && forall l | i <= l < j :: read(l).Ok?
    decreases n - i
  {
    var e := KeptFrom(read, n, i).error;
    if read(i).Err? {
      assert read(i) == Err(e);
    } else {
      assert KeptFrom(read, n, i + 1) == Err(e);
      KeptFirstError(read, n, i + 1);
      var j :| i + 1 <= j < n && read(j) == Err(e) && forall l | i + 1 <= l < j :: read(l).Ok?;
      assert forall l | i <= l < j :: read(l).Ok?;
    }
  }

  /** The outcome of each element of a row group's columns array, as a reader over indices. */
  function ColumnReader(names: seq<string>, types: seq<Option<PrimitiveTypeName>>, items: seq<Json>)
    : nat -> Result<Option<Holders.ColumnMetadata>>
    requires |names| == |types|
  {
    (j: nat) => if j < |items| then ColumnAt(names, types, items, j) else Err(NullValue)
  }

  /** The walk over the columns array is the keep-or-drop walk of its reader. */
  lemma {:induction false} RowGroupColumnsRead(names: seq<string>, types: seq<Option<PrimitiveTypeName>>,
                                               items: seq<Json>, i: nat)
    requires |names| == |types| && i <= |items|
    ensures RowGroupColumnsFrom(names, types, items, i) == KeptFrom(ColumnReader(names, types, items), |items|, i)
    decreases |items| - i
  {
    if i < |items| {
      RowGroupColumnsRead(names, types, items, i + 1);
    }
  }

  /**
   * The columns loop of parseRowGroup keeps the records of the kept elements
   * in array order, a dropped element adding nothing; it fails exactly when
   * some element fails, with the error of the first one.
   */
  lemma RowGroupColumnsKept(names: seq<string>, types: seq<Option<PrimitiveTypeName>>, items: seq<Json>)
    requires |names| == |types|
    ensures var r, read := RowGroupColumnsFrom(names, types, items, 0), ColumnReader(names, types, items);
            && (r.Ok? <==> forall j | 0 <= j < |items| :: ColumnAt(names, types, items, j).Ok?)
            && (r.Ok? ==> var idx := KeptIndices(read, |items|, 0);
                          && |r.value| == |idx|
                          && forall k | 0 <= k < |idx| :: idx[k] < |items| && ColumnAt(names, types, items, idx[k]) == Ok(Some(r.value[k])))
            && (r.Err? ==> exists j | 0 <= j < |items| ::
                             ColumnAt(names, types, items, j) == Err(r.error)
                             && forall l | 0 <= l < j :: ColumnAt(names, types, items, l).Ok?)
  {
    var read := ColumnReader(names, types, items);
    RowGroupColumnsRead(names, types, items, 0);
    KeptSucceeds(read, |items|, 0);
    if KeptFrom(read, |items|, 0).Ok? {
      KeptValues(read, |items|, 0);
    } else {
      KeptFirstError(read, |items|, 0);
    }
    assert forall j | 0 <= j < |items| :: read(j) == ColumnAt(names, types, items, j);
  }

  // ---------------------------------------------------------------------
  // parseRowGroup

  /** The value get(name) finds for the name of the k-th member. */
  function LastValue(obj: seq<Member>, k: nat): Json
    requires k < |obj|
  {
    Get(obj, obj[k].name).value
  }

  /** The map after putting the names of the first i members, each with get(name) read as a float. */
  function AffinitiesUpTo(obj: seq<Member>, i: nat): map<string, Float32>
    requires i <= |obj|
    requires forall k | 0 <= k < i :: LastValue(obj, k).JNumber?
  {
    if i == 0 then map[]
    else AffinitiesUpTo(obj, i - 1)[obj[i - 1].name := Float32(LastValue(obj, i - 1).text)]
  }

  /**
   * The host affinities, put member by member: each must be a number (the
   * default is never used, since every name is present).
   */
  function AffinitiesOf(obj: seq<Member>): Result<map<string, Float32>> {
    if forall k | 0 <= k < |obj| :: LastValue(obj, k).JNumber? then Ok(AffinitiesUpTo(obj, |obj|))
    else Err(WrongJsonType("number"))
  }

  /** After i puts: one entry per name among the first i members. */
  lemma {:induction false} AffinitiesUpToDomain(obj: seq<Member>, i: nat)
    requires i <= |obj|
    requires forall k | 0 <= k < i :: LastValue(obj, k).JNumber?
    ensures forall k | 0 <= k < i :: obj[k].name in AffinitiesUpTo(obj, i)
    ensures forall n | n in AffinitiesUpTo(obj, i) :: exists k | 0 <= k < i :: obj[k].name == n
  {
    if i > 0 {
      AffinitiesUpToDomain(obj, i - 1);
      var m, m' := AffinitiesUpTo(obj, i), AffinitiesUpTo(obj, i - 1);
      assert m == m'[obj[i - 1].name := Float32(LastValue(obj, i - 1).text)];
      forall n | n in m
        ensures exists k | 0 <= k < i :: obj[k].name == n
      {
        if n != obj[i - 1].name {
          assert n in m';
          var k :| 0 <= k < i - 1 && obj[k].name == n;
          assert obj[k].name == n;
        }
      }
    }
  }

  /** After i puts: each entry holds get(name) read as a float. */
  lemma {:induction false} AffinitiesUpToValues(obj: seq<Member>, i: nat)
    requires i <= |obj|
    requires forall k | 0 <= k < i :: LastValue(obj, k).JNumber?
    ensures forall n | n in AffinitiesUpTo(obj, i) :: Get(obj, n).Some? && AsFloat(Get(obj, n).value) == Ok(AffinitiesUpTo(obj, i)[n])
  {
    if i > 0 {
      AffinitiesUpToValues(obj, i - 1);
      var m, m' := AffinitiesUpTo(obj, i), AffinitiesUpTo(obj, i - 1);
      var x := obj[i - 1].name;
      assert m == m'[x := Float32(LastValue(obj, i - 1).text)];
      forall n | n in m
        ensures Get(obj, n).Some? && AsFloat(Get(obj, n).value) == Ok(m[n])
      {
        if n == x {
          assert m[n] == Float32(Get(obj, n).value.text);
        } else {
          assert n in m' && m[n] == m'[n];
        }
      }
    }
  }

  /** One entry per member name, holding the value of the last member with that name. */
  lemma AffinitiesOneEntryPerName(obj: seq<Member>)
    ensures AffinitiesOf(obj).Err? ==> AffinitiesOf(obj).error == WrongJsonType("number")
    ensures AffinitiesOf(obj).Err? ==> exists k | 0 <= k < |obj| :: !Get(obj, obj[k].name).value.JNumber?
    ensures AffinitiesOf(obj).Ok? ==>
              var m := AffinitiesOf(obj).value;
              && (forall k | 0 <= k < |obj| :: obj[k].name in m)
              && (forall n | n in m :: n in Names(obj) && Get(obj, n).Some? && AsFloat(Get(obj, n).value) == Ok(m[n]))
  {
    if AffinitiesOf(obj).Ok? {
      AffinitiesUpToDomain(obj, |obj|);
      AffinitiesUpToValues(obj, |obj|);
      var m := AffinitiesOf(obj).value;
      forall n | n in m
        ensures n in Names(obj)
      {
        var k :| 0 <= k < |obj| && obj[k].name == n;
        assert Names(obj)[k] == n;
      }
    } else {
      var k :| 0 <= k < |obj| && !LastValue(obj, k).JNumber?;
    }
  }

  function RowGroupOf(names: seq<string>, types: seq<Option<PrimitiveTypeName>>, obj: seq<Member>)
    : (r: Result<RowGroupMetadata>)
    requires |names| == |types|
  {
    var affinityValue :- Field(obj, "hostAffinity");
    var hostAffinity :- AsObject(affinityValue);
    var affinities :- AffinitiesOf(hostAffinity);
    var columnsValue :- Field(obj, "columns");
    var items :- AsArray(columnsValue);
    var columns :- RowGroupColumnsFrom(names, types, items, 0);
    var start :- GetLong(obj, "start", -1);
    var length :- GetLong(obj, "length", -1);
    var rowCount :- GetLong(obj, "rowCount", -1);
    Ok(RowGroupMetadata(start, length, rowCount, affinities, columns))
  }

  /** A missing start, length or rowCount reads as -1; a present one must be a long. */
  lemma RowGroupDefaults(names: seq<string>, types: seq<Option<PrimitiveTypeName>>, obj: seq<Member>)
    requires |names| == |types|
    requires RowGroupOf(names, types, obj).Ok?
    ensures var g := RowGroupOf(names, types, obj).value;
            && (Get(obj, "start").None? ==> g.start == -1)
            && (Get(obj, "length").None? ==> g.length == -1)
            && (Get(obj, "rowCount").None? ==> g.rowCount == -1)
            && (Get(obj, "start").Some? ==> AsLong(Get(obj, "start").value) == Ok(g.start))
            && (Get(obj, "length").Some? ==> AsLong(Get(obj, "length").value) == Ok(g.length))
            && (Get(obj, "rowCount").Some? ==> AsLong(Get(obj, "rowCount").value) == Ok(g.rowCount))
  {
  }

  // ---------------------------------------------------------------------
  // parseFile and extractFiles

  /** The row groups of the array elements from index i on: one per element, in array order. */
  function RowGroupsFrom(names: seq<string>, types: seq<Option<PrimitiveTypeName>>, items: seq<Json>, i: nat)
    : (r: Result<seq<RowGroupMetadata>>)
    requires |names| == |types| && i <= |items|
    ensures r.Ok? ==> |r.value| == |items| - i
                      && forall k | i <= k < |items| ::
                           items[k].JObject? && RowGroupOf(names, types, items[k].members) == Ok(r.value[k - i])
  {
    ObjectsFrom(items, i, o => RowGroupOf(names, types, o))
  }

  function FileOf(names: seq<string>, types: seq<Option<PrimitiveTypeName>>, obj: seq<Member>)
    : (r: Result<Holders.ParquetFileMetadata>)
    requires |names| == |types|
  {
    var groupsValue :- Field(obj, "rowGroups");
    var items :- AsArray(groupsValue);
    var rowGroups :- RowGroupsFrom(names, types, items, 0);
    var path :- GetString(obj, "path", "");
    var length :- GetLong(obj, "length", -1);
    Ok(Holders.ParquetFileMetadata(path, length, rowGroups))
  }

  /** A missing path reads as "" and a missing length as -1. */
  lemma FileDefaults(names: seq<string>, types: seq<Option<PrimitiveTypeName>>, obj: seq<Member>)
    requires |names| == |types|
    requires FileOf(names, types, obj).Ok?
    ensures var f := FileOf(names, types, obj).value;
            && (Get(obj, "path").None? ==> f.path == "")
            && (Get(obj, "length").None? ==> f.length == -1)
            && (Get(obj, "path").Some? ==> Get(obj, "path").value == JString(f.path))
            && (Get(obj, "length").Some? ==> AsLong(Get(obj, "length").value) == Ok(f.length))
  {
  }

  /** The files of the array elements from index i on: one per element, in array order. */
  function FilesFrom(names: seq<string>, types: seq<Option<PrimitiveTypeName>>, items: seq<Json>, i: nat)
    : (r: Result<seq<Holders.ParquetFileMetadata>>)
    requires |names| == |types| && i <= |items|
    ensures r.Ok? ==> |r.value| == |items| - i
                      && forall k | i <= k < |items| ::
                           items[k].JObject? && FileOf(names, types, items[k].members) == Ok(r.value[k - i])
  {
    ObjectsFrom(items, i, o => FileOf(names, types, o))
  }

  function FilesOf(names: seq<string>, types: seq<Option<PrimitiveTypeName>>, obj: seq<Member>)
    : Result<seq<Holders.ParquetFileMetadata>>
    requires |names| == |types|
  {
    var v :- Field(obj, "files");
    var items :- AsArray(v);
    FilesFrom(names, types, items, 0)
  }

  // ---------------------------------------------------------------------
  // load

  function VersionOf(obj: seq<Member>): Result<string> {
    var v :- Field(obj, "metadata_version");
    AsString(v)
  }

  function DirectoriesOf(obj: seq<Member>): Result<seq<string>> {
    var v :- Field(obj, "directories");
    var items :- AsArray(v);
    Utils.StringsOf(items)
  }

  /** Everything a successful load leaves behind: the loader's lists and the table's fields. */
  datatype Loaded = Loaded(
    names: seq<string>,
    types: seq<Option<PrimitiveTypeName>>,
    columnTypeInfo: map<KeyRef, ColumnTypeMetadata>,
    files: seq<Holders.ParquetFileMetadata>,
    directories: seq<string>)

  /**
   * load, from the loader's lists before the call: the version is checked
   * before anything is read; the columns are appended to the lists; the
   * files are read against the lists as they are after that.
   */
  function LoadOf(names: seq<string>, types: seq<Option<PrimitiveTypeName>>, obj: seq<Member>): (r: Result<Loaded>)
    requires |names| == |types|
  {
    var version :- VersionOf(obj);
    if version != "v2" then Err(InvalidVersion(version))
    else
      var records :- RootColumnsOf(obj);
      var names' := names + DottedNames(records);
      var types' := types + TypesOf(records);
      var files :- FilesOf(names', types', obj);
      var directories :- DirectoriesOf(obj);
      Ok(Loaded(names', types', KeyedBy(records), files, directories))
  }

  /** What a successful load is made of, step by step. */
  lemma LoadOfParts(names: seq<string>, types: seq<Option<PrimitiveTypeName>>, obj: seq<Member>)
    requires |names| == |types|
    requires LoadOf(names, types, obj).Ok?
    ensures VersionOf(obj) == Ok("v2") && RootColumnsOf(obj).Ok?
    ensures var records := RootColumnsOf(obj).value;
            var names', types' := names + DottedNames(records), types + TypesOf(records);
            && FilesOf(names', types', obj).Ok? && DirectoriesOf(obj).Ok?
            && LoadOf(names, types, obj).value
               == Loaded(names', types', KeyedBy(records), FilesOf(names', types', obj).value, DirectoriesOf(obj).value)
  {
  }

  /** A load succeeds only for version "v2"; any other version is refused by name. */
  lemma LoadVersion(names: seq<string>, types: seq<Option<PrimitiveTypeName>>, obj: seq<Member>)
    requires |names| == |types|
    ensures LoadOf(names, types, obj).Ok? ==> VersionOf(obj) == Ok("v2")
    ensures VersionOf(obj).Ok? && VersionOf(obj).value != "v2" ==>
              LoadOf(names, types, obj) == Err(InvalidVersion(VersionOf(obj).value))
  {
  }

  /**
   * After a load the lists keep their old entries and stay parallel, the
   * directories are the JSON string array, and every key is a name key.
   */
  lemma LoadFacts(names: seq<string>, types: seq<Option<PrimitiveTypeName>>, obj: seq<Member>)
    requires |names| == |types|
    requires LoadOf(names, types, obj).Ok?
    ensures var l := LoadOf(names, types, obj).value;
            && |l.names| == |l.types|
            && l.names[..|names|] == names && l.types[..|types|] == types
            && DirectoriesOf(obj) == Ok(l.directories)
            && NullKey !in l.columnTypeInfo
  {
    LoadOfParts(names, types, obj);
    var records := RootColumnsOf(obj).value;
    RootRecordsKeyed(Get(obj, "columnTypeInfo").value.members, 0);
    KeyedByNoNullKey(records);
    assert (names + DottedNames(records))[..|names|] == names;
    assert (types + TypesOf(records))[..|types|] == types;
  }

  // ---------------------------------------------------------------------
  // The loader object

  class JsonLoader {
    const tableMetadata: ParquetTableMetadata
    var columnNames: seq<string>
    var columnTypes: seq<Option<PrimitiveTypeName>>

    /** The two lists grow together. */
    ghost predicate Valid()
      reads this
    {
      |columnNames| == |columnTypes|
    }

    constructor ()
      ensures Valid() && columnNames == [] && columnTypes == []
      ensures fresh(tableMetadata)
      ensures tableMetadata.columnTypeInfo == map[] && tableMetadata.files == [] && tableMetadata.directories == []
    {
      tableMetadata := new ParquetTableMetadata();
      columnNames := [];
      columnTypes := [];
    }

    /**
     * load: the table after the version check, the columns, the files and
     * the directories; a failure at any step is the failure of the whole.
     */
    method Load(obj: seq<Member>) returns (r: Result<ParquetTableMetadata>)
      requires Valid()
      modifies this, tableMetadata
      ensures Valid()
      ensures r.Err? ==> LoadOf(old(columnNames), old(columnTypes), obj) == Err(r.error)
      ensures r.Ok? ==> r.value == tableMetadata
                        && LoadOf(old(columnNames), old(columnTypes), obj)
                           == Ok(Loaded(columnNames, columnTypes, tableMetadata.columnTypeInfo,
                                        tableMetadata.files, tableMetadata.directories))
      ensures VersionOf(obj) != Ok("v2") ==> unchanged(this, tableMetadata)
    {
      ghost var spec := LoadOf(columnNames, columnTypes, obj);
      var version :- VersionOf(obj);
      if version != "v2" {
        return Err(InvalidVersion(version));
      }
      ghost var names0, types0 := columnNames, columnTypes;
      var roots := ExtractRootColumns(obj);
      if roots.Err? {
        assert spec == Err(roots.error);
        return Err(roots.error);
      }
      ghost var records := RootColumnsOf(obj).value;
      assert columnNames == names0 + DottedNames(records) && columnTypes == types0 + TypesOf(records);
      var files := ExtractFiles(obj);
      if files.Err? {
        assert spec == Err(files.error);
        return Err(files.error);
      }
      var directories := ParseDirectories(obj);
      if directories.Err? {
        assert spec == Err(directories.error);
        return Err(directories.error);
      }
      tableMetadata.directories := directories.value;
      assert spec == Ok(Loaded(columnNames, columnTypes, KeyedBy(records), tableMetadata.files, directories.value));
      return Ok(tableMetadata);
    }

    /** The directories member: a JSON string array copied into a list. */
    static method ParseDirectories(obj: seq<Member>) returns (r: Result<seq<string>>)
      ensures r == DirectoriesOf(obj)
    {
      var dirValue :- Field(obj, "directories");
      var dirItems :- AsArray(dirValue);
      var directories :- Utils.ParseStringArray(dirItems);
      return Ok(directories[..]);
    }

    /** extractRootColumns: the records of the columnTypeInfo members, in member order. */
    method ExtractRootColumns(obj: seq<Member>) returns (r: Result<()>)
      requires Valid()
      modifies this, tableMetadata`columnTypeInfo
      ensures Valid()
      ensures r.Ok? <==> RootColumnsOf(obj).Ok?
      ensures r.Err? ==> r.error == RootColumnsOf(obj).error
      ensures r.Ok? ==> var records := RootColumnsOf(obj).value;
                        && columnNames == old(columnNames) + DottedNames(records)
                        && columnTypes == old(columnTypes) + TypesOf(records)
                        && tableMetadata.columnTypeInfo == KeyedBy(records)
    {
      tableMetadata.columnTypeInfo := map[];
      var v :- Field(obj, "columnTypeInfo");
      var columns :- AsObject(v);
      r := PutRootColumns(columns);
    }

    /** The loop of extractRootColumns: each record is appended to both lists and put in the map. */
    method PutRootColumns(columns: seq<Member>) returns (r: Result<()>)
      requires Valid() && tableMetadata.columnTypeInfo == map[]
      modifies this, tableMetadata`columnTypeInfo
      ensures Valid()
      ensures r.Ok? <==> RootRecordsFrom(columns, 0).Ok?
      ensures r.Err? ==> r.error == RootRecordsFrom(columns, 0).error
      ensures r.Ok? ==> var records := RootRecordsFrom(columns, 0).value;
                        && columnNames == old(columnNames) + DottedNames(records)
                        && columnTypes == old(columnTypes) + TypesOf(records)
                        && tableMetadata.columnTypeInfo == KeyedBy(records)
    {
      RootRecordsRead(columns, 0);
      r := PutRecords(RootReader(columns), |columns|);
    }

    /** The records read at indices 0 to n - 1, appended one by one until the first failure. */
    method PutRecords(read: nat -> Result<ColumnTypeMetadata>, n: nat) returns (r: Result<()>)
      requires Valid() && tableMetadata.columnTypeInfo == map[]
      modifies this, tableMetadata`columnTypeInfo
      ensures Valid()
      ensures r.Ok? <==> RecordsFrom(read, n, 0).Ok?
      ensures r.Err? ==> r.error == RecordsFrom(read, n, 0).error
      ensures r.Ok? ==> var records := RecordsFrom(read, n, 0).value;
                        && columnNames == old(columnNames) + DottedNames(records)
                        && columnTypes == old(columnTypes) + TypesOf(records)
                        && tableMetadata.columnTypeInfo == KeyedBy(records)
    {
      ghost var spec := RecordsFrom(read, n, 0);
      PrependedNothing(spec);
      ghost var records: seq<ColumnTypeMetadata> := [];
      var i := 0;
      while i < n
        invariant 0 <= i <= n
        invariant spec == Prepended(records, RecordsFrom(read, n, i))
        invariant columnNames == old(columnNames) + DottedNames(records)
        invariant columnTypes == old(columnTypes) + TypesOf(records)
        invariant tableMetadata.columnTypeInfo == KeyedBy(records)
      {
        var c := read(i);
        if c.Err? {
          return Err(c.error);
        }
        var record := c.value;
        PrependedTwice(records, [record], RecordsFrom(read, n, i + 1));
        PutRoot(old(columnNames), old(columnTypes), records, record);
        records := records + [record];
        i := i + 1;
      }
      PrependedToEmpty(records);
      return Ok(());
    }

    /** One step of extractRootColumns' loop: the record joins both lists and the map. */
    method PutRoot(ghost names0: seq<string>, ghost types0: seq<Option<PrimitiveTypeName>>,
                   ghost records: seq<ColumnTypeMetadata>, record: ColumnTypeMetadata)
      requires Valid()
      requires columnNames == names0 + DottedNames(records) && columnTypes == types0 + TypesOf(records)
      requires tableMetadata.columnTypeInfo == KeyedBy(records)
      modifies this`columnNames, this`columnTypes, tableMetadata`columnTypeInfo
      ensures Valid()
      ensures columnNames == names0 + DottedNames(records + [record])
      ensures columnTypes == types0 + TypesOf(records + [record])
      ensures tableMetadata.columnTypeInfo == KeyedBy(records + [record])
    {
      AppendRecord(records, record);
      columnNames := columnNames + [Utils.Join(record.name)];
      columnTypes := columnTypes + [record.primitiveType];
      tableMetadata.columnTypeInfo := tableMetadata.columnTypeInfo[record.key := record];
    }

    /** extractFiles: the files, in array order, read against the current lists. */
    method ExtractFiles(obj: seq<Member>) returns (r: Result<()>)
      requires Valid()
      modifies tableMetadata`files
      ensures r.Ok? <==> FilesOf(columnNames, columnTypes, obj).Ok?
      ensures r.Err? ==> r.error == FilesOf(columnNames, columnTypes, obj).error
      ensures r.Ok? ==> tableMetadata.files == FilesOf(columnNames, columnTypes, obj).value
    {
      tableMetadata.files := [];
      var v :- Field(obj, "files");
      var items :- AsArray(v);
      ghost var spec := FilesFrom(columnNames, columnTypes, items, 0);
      PrependedNothing(spec);
      var i := 0;
      while i < |items|
        invariant 0 <= i <= |items|
        invariant spec == Prepended(tableMetadata.files, FilesFrom(columnNames, columnTypes, items, i))
      {
        var o := AsObject(items[i]);
        if o.Err? {
          return Err(o.error);
        }
        var f := ParseFile(o.value);
        if f.Err? {
          return Err(f.error);
        }
        ghost var rest := FilesFrom(columnNames, columnTypes, items, i + 1);
        assert FilesFrom(columnNames, columnTypes, items, i) == Prepended([f.value], rest);
        PrependedTwice(tableMetadata.files, [f.value], rest);
        tableMetadata.files := tableMetadata.files + [f.value];
        i := i + 1;
      }
      assert FilesFrom(columnNames, columnTypes, items, i) == Ok([]);
      PrependedToEmpty(tableMetadata.files);
      return Ok(());
    }

    /** parseFile: the row groups in array order, then path and length with their defaults. */
    method ParseFile(obj: seq<Member>) returns (r: Result<Holders.ParquetFileMetadata>)
      requires Valid()
      ensures r == FileOf(columnNames, columnTypes, obj)
    {
      var groupsValue :- Field(obj, "rowGroups");
      var items :- AsArray(groupsValue);
      var rowGroups :- ParseRowGroups(items);
      var path :- GetString(obj, "path", "");
      var length :- GetLong(obj, "length", -1);
      return Ok(Holders.ParquetFileMetadata(path, length, rowGroups));
    }

    /** The loop of parseFile over the rowGroups array. */
    method ParseRowGroups(items: seq<Json>) returns (r: Result<seq<RowGroupMetadata>>)
      requires Valid()
      ensures r == RowGroupsFrom(columnNames, columnTypes, items, 0)
    {
      ghost var spec := RowGroupsFrom(columnNames, columnTypes, items, 0);
      PrependedNothing(spec);
      var rowGroups: seq<RowGroupMetadata> := [];
      var i := 0;
      while i < |items|
        invariant 0 <= i <= |items|
        invariant spec == Prepended(rowGroups, RowGroupsFrom(columnNames, columnTypes, items, i))
      {
        var o := AsObject(items[i]);
        if o.Err? {
          return Err(o.error);
        }
        var g := ParseRowGroup(o.value);
        if g.Err? {
          return Err(g.error);
        }
        ghost var rest := RowGroupsFrom(columnNames, columnTypes, items, i + 1);
        assert RowGroupsFrom(columnNames, columnTypes, items, i) == Prepended([g.value], rest);
        PrependedTwice(rowGroups, [g.value], rest);
        rowGroups := rowGroups + [g.value];
        i := i + 1;
      }
      assert RowGroupsFrom(columnNames, columnTypes, items, i) == Ok([]);
      PrependedToEmpty(rowGroups);
      return Ok(rowGroups);
    }

    /** parseRowGroup: the affinity map, the kept columns in order, then the three counters. */
    method ParseRowGroup(obj: seq<Member>) returns (r: Result<RowGroupMetadata>)
      requires Valid()
      ensures r == RowGroupOf(columnNames, columnTypes, obj)
    {
      var affinityValue :- Field(obj, "hostAffinity");
      var hostAffinity :- AsObject(affinityValue);
      var affinities :- ParseAffinities(hostAffinity);
      var columnsValue :- Field(obj, "columns");
      var items :- AsArray(columnsValue);
      var columns :- ParseRowGroupColumns(items);
      var start :- GetLong(obj, "start", -1);
      var length :- GetLong(obj, "length", -1);
      var rowCount :- GetLong(obj, "rowCount", -1);
      return Ok(RowGroupMetadata(start, length, rowCount, affinities, columns));
    }

    /** The loop of parseRowGroup over the columns array, skipping dropped records. */
    method ParseRowGroupColumns(items: seq<Json>) returns (r: Result<seq<Holders.ColumnMetadata>>)
      requires Valid()
      ensures r == RowGroupColumnsFrom(columnNames, columnTypes, items, 0)
    {
      ghost var spec := RowGroupColumnsFrom(columnNames, columnTypes, items, 0);
      PrependedNothing(spec);
      var columns: seq<Holders.ColumnMetadata> := [];
      var j := 0;
      while j < |items|
        invariant 0 <= j <= |items|
        invariant spec == Prepended(columns, RowGroupColumnsFrom(columnNames, columnTypes, items, j))
      {
        var o := AsObject(items[j]);
        if o.Err? {
          return Err(o.error);
        }
        var c := ParseRowGroupColumn(columnNames, columnTypes, o.value);
        if c.Err? {
          return Err(c.error);
        }
        ghost var kept := if c.value.Some? then [c.value.value] else [];
        ghost var rest := RowGroupColumnsFrom(columnNames, columnTypes, items, j + 1);
        assert RowGroupColumnsFrom(columnNames, columnTypes, items, j) == Prepended(kept, rest);
        PrependedTwice(columns, kept, rest);
        if c.value.Some? {
          columns := columns + [c.value.value];
        } else {
          assert columns + kept == columns;
        }
        j := j + 1;
      }
      assert RowGroupColumnsFrom(columnNames, columnTypes, items, j) == Ok([]);
      PrependedToEmpty(columns);
      return Ok(columns);
    }
  }

  /** The loop of parseRowGroup over the hostAffinity member names. */
  method ParseAffinities(hostAffinity: seq<Member>) returns (r: Result<map<string, Float32>>)
    ensures r == AffinitiesOf(hostAffinity)
  {
    var affinities: map<string, Float32> := map[];
    var i := 0;
    while i < |hostAffinity|
      invariant 0 <= i <= |hostAffinity|
      invariant forall k | 0 <= k < i :: LastValue(hostAffinity, k).JNumber?
      invariant affinities == AffinitiesUpTo(hostAffinity, i)
    {
      var name := hostAffinity[i].name;
      var value := GetFloat(hostAffinity, name, Float32("-1"));
      if value.Err? {
        assert !LastValue(hostAffinity, i).JNumber?;
        return Err(value.error);
      }
      affinities := affinities[name := value.value];
      i := i + 1;
    }
    return Ok(affinities);
  }
}
