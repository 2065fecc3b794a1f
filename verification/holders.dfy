/**
 * The in-memory table metadata: the table itself (whose fields the JSON
 * loader assigns one after another), the column type records and their
 * name key, and the file / row-group / column records.
 */
module Holders {
  import opened Wrappers
  import opened Primitives
  import opened Proto
  import Utils

  // ---------------------------------------------------------------------
  // Java hash codes

  /** String.hashCode: s[0]*31^(n-1) + ... + s[n-1] over UTF-16 units, wrapped to int. */
  function UnitsHash(units: seq<int>): (r: int)
    ensures IsInt32(r)
  {
    if |units| == 0 then 0 else ToInt32(31 * UnitsHash(units[..|units| - 1]) + units[|units| - 1])
  }

  function StringHash(s: string): int { UnitsHash(Utf16(s)) }

  /** Arrays.hashCode(Object[]): 31-based fold starting at 1, wrapped to int. */
  function ArraysHashCode(name: seq<string>): (r: int)
    ensures IsInt32(r)
  {
    if |name| == 0 then 1 else ToInt32(31 * ArraysHashCode(name[..|name| - 1]) + StringHash(name[|name| - 1]))
  }

  // ---------------------------------------------------------------------
  // ColumnTypeMetadata.Key

  /**
   * The name key of a column. Its hash code is computed on first use and
   * cached in a field; 0 means "not computed yet".
   */
  class Key {
    const name: seq<string>
    var hashCode: int

    ghost predicate Valid()
      reads this
    {
      hashCode == 0 || hashCode == ArraysHashCode(name)
    }

    constructor (name: seq<string>)
      ensures this.name == name && hashCode == 0 && Valid()
    {
      this.name := name;
      hashCode := 0;
    }

    /** hashCode(): equal names give equal hashes, whether or not one was cached. */
    method HashCode() returns (h: int)
      requires Valid()
      modifies this`hashCode
      ensures Valid()
      ensures h == ArraysHashCode(name) && hashCode == h
    {
      if hashCode == 0 {
        hashCode := ArraysHashCode(name);
      }
      h := hashCode;
    }

    /**
     * equals(obj): false for null and for another class, then Arrays.equals
     * on the segments: the same length and equal strings position by position.
     */
    method Equals(obj: object?) returns (r: bool)
      ensures r <==> obj != null && obj is Key && (obj as Key).name == name
    {
      if obj == null {
        return false;
      }
      if !(obj is Key) {
        return false;
      }
      var other := obj as Key;
      if |name| != |other.name| {
        return false;
      }
      var i := 0;
      while i < |name|
        invariant 0 <= i <= |name|
        invariant name[..i] == other.name[..i]
      {
        if name[i] != other.name[i] {
          return false;
        }
        assert name[..i + 1] == name[..i] + [name[i]];
        assert other.name[..i + 1] == other.name[..i] + [other.name[i]];
        i := i + 1;
      }
      assert name == name[..i] && other.name == other.name[..i];
      return true;
    }

    /** toString(): the segments joined by "."; null for an empty name. */
    method ToString() returns (s: Option<string>)
      ensures s.None? <==> |name| == 0
      ensures s.Some? ==> s.value == Utils.Join(name)
    {
      s := None;
      var i := 0;
      while i < |name|
        invariant 0 <= i <= |name|
        invariant s.None? <==> i == 0
        invariant s.Some? ==> s.value == Utils.Join(name[..i])
      {
        assert name[..i + 1][..i] == name[..i];
        if s.Some? {
          s := Some(s.value + "." + name[i]);
        } else {
          s := Some(name[i]);
        }
        i := i + 1;
      }
      assert name[..|name|] == name;
    }
  }

  /**
   * What a map entry is keyed by. Keys compare by name alone, so a key is
   * its name; NullKey stands for the null key a record built with the
   * no-argument constructor carries.
   */
  datatype KeyRef = NullKey | NameKey(name: seq<string>)

  /**
   * The contract HashMap relies on, for the keys built from names: keys that
   * equals() calls equal have the same hashCode() whenever either has cached
   * one, and they are equal exactly when the map keys modelling them are.
   */
  lemma EqualKeysAgree(a: Key, b: Key)
    requires a.Valid() && b.Valid()
    ensures a.name == b.name <==> NameKey(a.name) == NameKey(b.name)
    ensures a.name == b.name && a.hashCode != 0 && b.hashCode != 0 ==> a.hashCode == b.hashCode
    ensures a.name == b.name && a.hashCode != 0 ==> a.hashCode == ArraysHashCode(b.name)
  {
  }

  // ---------------------------------------------------------------------
  // ColumnTypeMetadata

  datatype ColumnTypeMetadata = ColumnTypeMetadata(
    name: seq<string>,
    primitiveType: Option<PrimitiveTypeName>,
    originalType: Option<OriginalType>,
    key: KeyRef)

  /** The three-argument constructor: the key is built from the same name. */
  function NewColumnTypeMetadata(name: seq<string>, primitiveType: Option<PrimitiveTypeName>,
                                 originalType: Option<OriginalType>): (r: ColumnTypeMetadata)
    ensures r.name == name && r.primitiveType == primitiveType && r.originalType == originalType
    ensures r.key == NameKey(r.name)
  {
    ColumnTypeMetadata(name, primitiveType, originalType, NameKey(name))
  }

  /** The no-argument constructor followed by assignments to the public fields: no key. */
  function BareColumnTypeMetadata(name: seq<string>, primitiveType: Option<PrimitiveTypeName>,
                                  originalType: Option<OriginalType>): (r: ColumnTypeMetadata)
    ensures r.name == name && r.primitiveType == primitiveType && r.originalType == originalType
    ensures r.key == NullKey
  {
    ColumnTypeMetadata(name, primitiveType, originalType, NullKey)
  }

  // ---------------------------------------------------------------------
  // ColumnMetadata and its statistic value

  /** The runtime class of the statistic object a column record holds. */
  datatype MxValue =
    | MxLong(l: int)
    | MxInt(i: int)
    | MxBool(b: bool)
    | MxBytes(bytes: seq<byte>)
    | MxFloat(f: Float32)
    | MxDouble(d: Float64)
    | MxOther(className: string)   // any other class: only a caller outside the codec can put one here

  datatype ColumnMetadata = ColumnMetadata(
    name: seq<string>,
    nulls: Option<int>,
    mxValue: Option<MxValue>,
    primitiveType: Option<PrimitiveTypeName>)   // stored but never returned
  {
    predicate HasSingleValue() { mxValue.Some? }

    function GetMaxValue(): Option<MxValue> { mxValue }

    /** setMax: replaces the statistic and nothing else. */
    function SetMax(v: Option<MxValue>): (r: ColumnMetadata)
      ensures r.GetMaxValue() == v
      ensures r.HasSingleValue() <==> v.Some?
      ensures r.name == name && r.nulls == nulls && r.primitiveType == primitiveType
    {
      this.(mxValue := v)
    }

    /** getPrimitiveType(): null, whatever the constructor was given. */
    function GetPrimitiveType(): (r: Option<PrimitiveTypeName>)
      ensures r.None?
    {
      None
    }

    /** getOriginalType(): null as well. */
    function GetOriginalType(): (r: Option<OriginalType>)
      ensures r.None?
    {
      None
    }
  }

  datatype RowGroupMetadata = RowGroupMetadata(
    start: int,
    length: int,
    rowCount: int,
    hostAffinity: map<string, Float32>,
    columns: seq<ColumnMetadata>)

  datatype ParquetFileMetadata = ParquetFileMetadata(
    path: string,
    length: int,
    rowGroups: seq<RowGroupMetadata>)

  // ---------------------------------------------------------------------
  // ParquetTableMetadata

  /** The whole table: column types by key, the files, and the directories. */
  class ParquetTableMetadata {
    var columnTypeInfo: map<KeyRef, ColumnTypeMetadata>
    var files: seq<ParquetFileMetadata>
    var directories: seq<string>

    constructor ()
      ensures columnTypeInfo == map[] && files == [] && directories == []
    {
      columnTypeInfo := map[];
      files := [];
      directories := [];
    }

    /** getColumnTypeInfo(name): the entry whose key equals Key(name), or null. */
    function GetColumnTypeInfo(name: seq<string>): (r: Option<ColumnTypeMetadata>)
      reads this
      ensures r.Some? <==> NameKey(name) in columnTypeInfo
      ensures r.Some? ==> r.value == columnTypeInfo[NameKey(name)]
    {
      if NameKey(name) in columnTypeInfo then Some(columnTypeInfo[NameKey(name)]) else None
    }

    /** getPrimitiveType(name): that entry's primitive type; no entry is a null dereference. */
    function GetPrimitiveType(name: seq<string>): (r: Result<Option<PrimitiveTypeName>>)
      reads this
      ensures r.Ok? <==> NameKey(name) in columnTypeInfo
      ensures r.Ok? ==> r.value == columnTypeInfo[NameKey(name)].primitiveType
      ensures r.Err? ==> r.error == NullValue
    {
      match GetColumnTypeInfo(name)
      case Some(c) => Ok(c.primitiveType)
      case None => Err(NullValue)
    }

    /** getOriginalType(name): that entry's original type, likewise. */
    function GetOriginalType(name: seq<string>): (r: Result<Option<OriginalType>>)
      reads this
      ensures r.Ok? <==> NameKey(name) in columnTypeInfo
      ensures r.Ok? ==> r.value == columnTypeInfo[NameKey(name)].originalType
      ensures r.Err? ==> r.error == NullValue
    {
      match GetColumnTypeInfo(name)
      case Some(c) => Ok(c.originalType)
      case None => Err(NullValue)
    }
  }
}
