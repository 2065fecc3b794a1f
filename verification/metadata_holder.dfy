/**
 * The binary metadata cache: a holder of the three top-level messages
 * (header, column dictionary, files), the framing that writes and reads
 * them as varint-prefixed blocks, and the conversion back to the in-memory
 * table.
 *
 * Each message's own serialisation belongs to the generated protobuf
 * classes; here it is a Codec given as a parameter, and the round trip is
 * proved for every codec that round-trips its own messages.
 */
module MetadataHolder {
  import opened Wrappers
  import opened Primitives
  import opened Proto
  import opened Varint
  import Holders
  import Utils
  import ProtoBuilder
  import TableDecode

  // ---------------------------------------------------------------------
  // Message serialisation, taken as given

  /** A message type's writeTo and parseFrom. */
  datatype Codec<!M> = Codec(write: M -> seq<byte>, parse: seq<byte> -> Option<M>)

  /** parseFrom reads back what writeTo wrote. */
  ghost predicate RoundTrips<M(!new)>(c: Codec<M>) { forall m: M :: c.parse(c.write(m)) == Some(m) }

  /** getSerializedSize is a Java int. */
  ghost predicate SizesFit<M(!new)>(c: Codec<M>) { forall m: M :: |c.write(m)| < TWO_31 }

  datatype Codecs = Codecs(
    header: Codec<MetadataHeader>,
    columns: Codec<MetadataColumns>,
    file: Codec<Proto.ParquetFileMetadata>)

  ghost predicate Fit(codecs: Codecs) {
    SizesFit(codecs.header) && SizesFit(codecs.columns) && SizesFit(codecs.file)
  }

  ghost predicate AllRoundTrip(codecs: Codecs) {
    RoundTrips(codecs.header) && RoundTrips(codecs.columns) && RoundTrips(codecs.file)
  }

  // ---------------------------------------------------------------------
  // The layout writeTo produces

  /** A message preceded by its size as a varint. */
  function Block(message: seq<byte>): seq<byte>
    requires |message| < TWO_31
  {
    EncodeVarint32(|message|) + message
  }

  function FileBlocks(codec: Codec<Proto.ParquetFileMetadata>, files: seq<Proto.ParquetFileMetadata>): seq<byte>
    requires SizesFit(codec)
  {
    if |files| == 0 then [] else Block(codec.write(files[0])) + FileBlocks(codec, files[1..])
  }

  /** header block, columns block, the number of files, then one block per file. */
  function Layout(codecs: Codecs, header: MetadataHeader, columns: MetadataColumns,
                  files: seq<Proto.ParquetFileMetadata>): seq<byte>
    requires Fit(codecs) && |files| < TWO_31
  {
    Block(codecs.header.write(header)) + Block(codecs.columns.write(columns))
    + EncodeVarint32(|files|) + FileBlocks(codecs.file, files)
  }

  lemma Regroup(w: seq<byte>, a: seq<byte>, b: seq<byte>, c: seq<byte>, d: seq<byte>)
    ensures w + a + b + c + d == w + (a + b + c + d)
  {
  }

  lemma FileBlocksNext(codec: Codec<Proto.ParquetFileMetadata>, files: seq<Proto.ParquetFileMetadata>, i: nat)
    requires SizesFit(codec) && i < |files|
    ensures FileBlocks(codec, files[i..]) == Block(codec.write(files[i])) + FileBlocks(codec, files[i + 1..])
  {
    assert files[i..][1..] == files[i + 1..];
  }

  // ---------------------------------------------------------------------
  // What parseFrom reads

  /** A value read, and the bytes of the stream that follow it. */
  datatype Parsed<T> = Parsed(value: T, rest: seq<byte>)

  /**
   * One block from the front of the stream t: a varint length, then that
   * many bytes handed to the message parser. `counted` bytes have been read
   * since the size counter was last reset; they and the whole block count
   * against sizeLimit.
   */
  function ReadBlock<M>(parse: seq<byte> -> Option<M>, t: seq<byte>, counted: nat, sizeLimit: int)
    : (r: Result<Parsed<M>>)
    ensures ReadVarint32(t, 0).Err? ==> r == Err(ReadVarint32(t, 0).error)
    ensures ReadVarint32(t, 0).Ok? ==>
      var size, at := ReadVarint32(t, 0).value.value, ReadVarint32(t, 0).value.next;
      && (size < 0 ==> r == Err(NegativeSize))
      && (0 <= size && counted + at + size > sizeLimit ==> r == Err(SizeLimitExceeded))
      && (0 <= size && counted + at + size <= sizeLimit && at + size > |t| ==> r == Err(Truncated))
      && (0 <= size && counted + at + size <= sizeLimit && at + size <= |t| ==>
            match parse(t[at..at + size])
            case None => r == Err(MessageParseError)
            case Some(m) => r == Ok(Parsed(m, t[at + size..])))
    ensures r.Ok? ==> |r.value.rest| < |t|
  {
    var length :- ReadVarint32(t, 0);
    var size, at := length.value, length.next;
    if size < 0 then Err(NegativeSize)
    else if counted + at + size > sizeLimit then Err(SizeLimitExceeded)
    else if at + size > |t| then Err(Truncated)
    else match parse(t[at..at + size])
      case None => Err(MessageParseError)
      case Some(m) => Ok(Parsed(m, t[at + size..]))
  }

  /** The files read so far, and how the reading ended. */
  datatype FilesRead = FilesRead(files: seq<Proto.ParquetFileMetadata>, result: Result<()>)

  /** The block reader of one stream: its message parser and its size limit fixed. */
  function BlockReader<M>(parse: seq<byte> -> Option<M>, sizeLimit: int): (seq<byte>, nat) -> Result<Parsed<M>>
  {
    (t: seq<byte>, counted: nat) => ReadBlock(parse, t, counted, sizeLimit)
  }

  /**
   * count file blocks from the front of t, each read by `read` with the
   * size counter reset after the first; a count of zero or less reads nothing.
   */
  function ReadFiles(read: (seq<byte>, nat) -> Result<Parsed<Proto.ParquetFileMetadata>>, t: seq<byte>, counted: nat,
                     count: int): (r: FilesRead)
    ensures r.result.Ok? ==> |r.files| == if count < 0 then 0 else count
    ensures |r.files| <= if count < 0 then 0 else count
    decreases count
  {
    if count <= 0 then FilesRead([], Ok(()))
    else match read(t, counted)
      case Err(e) => FilesRead([], Err(e))
      case Ok(b) =>
        var more := ReadFiles(read, b.rest, 0, count - 1);
        FilesRead([b.value] + more.files, more.result)
  }

  /** The three fields after parseFrom, and how it ended; a field not reached keeps its old value. */
  datatype Outcome = Outcome(
    header: Option<MetadataHeader>,
    columns: Option<MetadataColumns>,
    files: Option<seq<Proto.ParquetFileMetadata>>,
    result: Result<()>)

  function ParseOutcome(codecs: Codecs, s: seq<byte>, sizeLimit: int, header0: Option<MetadataHeader>,
                        columns0: Option<MetadataColumns>, files0: Option<seq<Proto.ParquetFileMetadata>>): (o: Outcome)
    ensures o.result.Ok? ==> o.header.Some? && o.columns.Some? && o.files.Some?
  {
    match ReadBlock(codecs.header.parse, s, 0, sizeLimit)
    case Err(e) => Outcome(header0, columns0, files0, Err(e))
    case Ok(h) =>
      match ReadBlock(codecs.columns.parse, h.rest, 0, sizeLimit)
      case Err(e) => Outcome(Some(h.value), columns0, files0, Err(e))
      case Ok(c) =>
        match ReadVarint32(c.rest, 0)
        case Err(e) => Outcome(Some(h.value), Some(c.value), files0, Err(e))
        case Ok(n) =>
          var read := ReadFiles(BlockReader(codecs.file.parse, sizeLimit), c.rest[n.next..], n.next, n.value);
          Outcome(Some(h.value), Some(c.value), Some(read.files), read.result)
  }

  /** The size limit parseFrom(path) sets on its stream. */
  const PATH_SIZE_LIMIT: int := 200_000_000

  // ---------------------------------------------------------------------
  // The round trip

  lemma {:induction false} ReadBlockWritten<M(!new)>(c: Codec<M>, m: M, t: seq<byte>, counted: nat, sizeLimit: int)
    requires RoundTrips(c) && SizesFit(c)
    requires counted + |Block(c.write(m))| <= sizeLimit
    ensures ReadBlock(c.parse, Block(c.write(m)) + t, counted, sizeLimit) == Ok(Parsed(m, t))
  {
    var bytes := c.write(m);
    var prefix := EncodeVarint32(|bytes|);
    var s := Block(bytes) + t;
    assert s == prefix + (bytes + t);
    assert s[0..|prefix|] == prefix;
    ReadEncoded(|bytes|, s, 0);
    assert s[|prefix|..|prefix| + |bytes|] == bytes;
    assert s[|prefix| + |bytes|..] == t;
  }

  /** Every file block, with the bytes counted before the first one, fits the limit. */
  predicate FileBlocksWithin(codec: Codec<Proto.ParquetFileMetadata>, files: seq<Proto.ParquetFileMetadata>,
                             counted: nat, sizeLimit: int)
    requires SizesFit(codec)
  {
    forall i | 0 <= i < |files| :: (if i == 0 then counted else 0) + |Block(codec.write(files[i]))| <= sizeLimit
  }

  lemma {:induction false} ReadFilesWritten(c: Codec<Proto.ParquetFileMetadata>, files: seq<Proto.ParquetFileMetadata>,
                                            t: seq<byte>, counted: nat, sizeLimit: int)
    requires RoundTrips(c) && SizesFit(c)
    requires FileBlocksWithin(c, files, counted, sizeLimit)
    ensures ReadFiles(BlockReader(c.parse, sizeLimit), FileBlocks(c, files) + t, counted, |files|) == FilesRead(files, Ok(()))
  {
    if |files| > 0 {
      var more := FileBlocks(c, files[1..]) + t;
      assert FileBlocks(c, files) + t == Block(c.write(files[0])) + more;
      assert 0 <= 0 < |files|;
      ReadBlockWritten(c, files[0], more, counted, sizeLimit);
      FileBlocksWithinTail(c, files, counted, sizeLimit);
      ReadFilesWritten(c, files[1..], t, 0, sizeLimit);
      assert [files[0]] + files[1..] == files;
    }
  }

  lemma FileBlocksWithinTail(c: Codec<Proto.ParquetFileMetadata>, files: seq<Proto.ParquetFileMetadata>,
                             counted: nat, sizeLimit: int)
    requires SizesFit(c) && |files| > 0
    requires FileBlocksWithin(c, files, counted, sizeLimit)
    ensures FileBlocksWithin(c, files[1..], 0, sizeLimit)
  {
    forall i | 0 <= i < |files[1..]|
      ensures (if i == 0 then 0 else 0) + |Block(c.write(files[1..][i]))| <= sizeLimit
    {
      assert files[1..][i] == files[i + 1];
    }
  }

  /** Each block, with the bytes counted since the last reset of the size counter, fits the limit. */
  predicate WithinLimit(codecs: Codecs, header: MetadataHeader, columns: MetadataColumns,
                        files: seq<Proto.ParquetFileMetadata>, sizeLimit: int)
    requires Fit(codecs) && |files| < TWO_31
  {
    && |Block(codecs.header.write(header))| <= sizeLimit
    && |Block(codecs.columns.write(columns))| <= sizeLimit
    && FileBlocksWithin(codecs.file, files, |EncodeVarint32(|files|)|, sizeLimit)
  }

  /**
   * Parsing what writeTo wrote, followed by anything at all, sets the three
   * fields to the messages written and succeeds.
   */
  lemma ParseWritten(codecs: Codecs, header: MetadataHeader, columns: MetadataColumns,
                     files: seq<Proto.ParquetFileMetadata>, rest: seq<byte>, sizeLimit: int,
                     header0: Option<MetadataHeader>, columns0: Option<MetadataColumns>,
                     files0: Option<seq<Proto.ParquetFileMetadata>>)
    requires Fit(codecs) && AllRoundTrip(codecs) && |files| < TWO_31
    requires WithinLimit(codecs, header, columns, files, sizeLimit)
    ensures ParseOutcome(codecs, Layout(codecs, header, columns, files) + rest, sizeLimit, header0, columns0, files0)
            == Outcome(Some(header), Some(columns), Some(files), Ok(()))
  {
    var nb, fb := EncodeVarint32(|files|), FileBlocks(codecs.file, files);
    var afterColumns := nb + (fb + rest);
    var afterHeader := Block(codecs.columns.write(columns)) + afterColumns;
    assert Layout(codecs, header, columns, files) + rest == Block(codecs.header.write(header)) + afterHeader;
    ReadBlockWritten(codecs.header, header, afterHeader, 0, sizeLimit);
    ReadBlockWritten(codecs.columns, columns, afterColumns, 0, sizeLimit);
    assert afterColumns[0..|nb|] == nb;
    ReadEncoded(|files|, afterColumns, 0);
    assert afterColumns[|nb|..] == fb + rest;
    ReadFilesWritten(codecs.file, files, rest, |nb|, sizeLimit);
  }

  /** A block longer than what the size limit leaves is refused, whatever follows it. */
  lemma OversizedBlockRejected<M>(parse: seq<byte> -> Option<M>, message: seq<byte>, t: seq<byte>,
                                  counted: nat, sizeLimit: int)
    requires |message| < TWO_31 && counted + |Block(message)| > sizeLimit
    ensures ReadBlock(parse, Block(message) + t, counted, sizeLimit) == Err(SizeLimitExceeded)
  {
    var prefix := EncodeVarint32(|message|);
    var s := Block(message) + t;
    assert s == prefix + (message + t);
    assert s[0..|prefix|] == prefix;
    ReadEncoded(|message|, s, 0);
  }

  /**
   * A header whose block is longer than the size limit does not read back:
   * parseFrom fails with the size-limit error and leaves every field as it was.
   */
  lemma OversizedHeaderRejected(codecs: Codecs, header: MetadataHeader, columns: MetadataColumns,
                                files: seq<Proto.ParquetFileMetadata>, rest: seq<byte>, sizeLimit: int,
                                header0: Option<MetadataHeader>, columns0: Option<MetadataColumns>,
                                files0: Option<seq<Proto.ParquetFileMetadata>>)
    requires Fit(codecs) && |files| < TWO_31
    requires |Block(codecs.header.write(header))| > sizeLimit
    ensures ParseOutcome(codecs, Layout(codecs, header, columns, files) + rest, sizeLimit, header0, columns0, files0)
            == Outcome(header0, columns0, files0, Err(SizeLimitExceeded))
  {
    var afterColumns := EncodeVarint32(|files|) + (FileBlocks(codecs.file, files) + rest);
    var afterHeader := Block(codecs.columns.write(columns)) + afterColumns;
    assert Layout(codecs, header, columns, files) + rest == Block(codecs.header.write(header)) + afterHeader;
    OversizedBlockRejected(codecs.header.parse, codecs.header.write(header), afterHeader, 0, sizeLimit);
  }

  /** The same for a stream opened from a path: a header block over 200,000,000 bytes is refused. */
  lemma OversizedHeaderRejectedFromPath(codecs: Codecs, header: MetadataHeader, columns: MetadataColumns,
                                        files: seq<Proto.ParquetFileMetadata>)
    requires Fit(codecs) && |files| < TWO_31
    requires |Block(codecs.header.write(header))| > PATH_SIZE_LIMIT
    ensures ParseOutcome(codecs, Layout(codecs, header, columns, files), PATH_SIZE_LIMIT, None, None, None).result
            == Err(SizeLimitExceeded)
  {
    var s := Layout(codecs, header, columns, files);
    assert s + [] == s;
    OversizedHeaderRejected(codecs, header, columns, files, [], PATH_SIZE_LIMIT, None, None, None);
  }

  // ---------------------------------------------------------------------
  // The holder

  /**
   * equals keeps Object.equals' contract between holders: a holder equals
   * itself, and two holders agree on whether they are equal.
   */
  lemma EqualsReflexiveSymmetric(a: MetadataHolder, b: MetadataHolder)
    ensures a.Equals(a) == Ok(true)
    ensures a.Equals(b).Ok? && a.Equals(b) == b.Equals(a)
  {
  }

  /** The output stream writeTo appends to. */
  class ByteSink {
    var written: seq<byte>

    constructor ()
      ensures written == []
    {
      written := [];
    }
  }

  class MetadataHolder {
    var header: Option<MetadataHeader>
    var columns: Option<MetadataColumns>
    var files: Option<seq<Proto.ParquetFileMetadata>>

    constructor ()
      ensures header.None? && columns.None? && files.None?
    {
      header, columns, files := None, None, None;
    }

    /**
     * equals: false for null and true for this holder itself; any other
     * object is cast to a holder (a ClassCastException when it is not one)
     * and compared field by field.
     */
    function Equals(obj: object?): (r: Result<bool>)
      reads this, obj
      ensures obj == null ==> r == Ok(false)
      ensures obj != null && !(obj is MetadataHolder) ==> r == Err(ClassCast)
      ensures obj != null && obj is MetadataHolder ==>
                var holder := obj as MetadataHolder;
                r == Ok(header == holder.header && columns == holder.columns && files == holder.files)
    {
      if obj == null then Ok(false)
      else if obj == this then Ok(true)
      else if !(obj is MetadataHolder) then Err(ClassCast)
      else
        var holder := obj as MetadataHolder;
        Ok(header == holder.header && columns == holder.columns && files == holder.files)
    }

    /**
     * writeTo: the header block, the columns block, the file count and a
     * block per file. A missing field stops the writing where it is used.
     */
    method WriteTo(codecs: Codecs, out: ByteSink) returns (r: Result<()>)
      requires Fit(codecs)
      requires files.Some? ==> |files.value| < TWO_31
      modifies out
      ensures r.Ok? <==> header.Some? && columns.Some? && files.Some?
      ensures r.Err? ==> r.error == NullValue
      ensures r.Ok? ==> out.written == old(out.written) + Layout(codecs, header.value, columns.value, files.value)
      ensures header.None? ==> out.written == old(out.written)
      ensures header.Some? && columns.None? ==> out.written == old(out.written) + Block(codecs.header.write(header.value))
      ensures header.Some? && columns.Some? && files.None? ==>
                out.written == old(out.written) + Block(codecs.header.write(header.value))
                               + Block(codecs.columns.write(columns.value))
    {
      if header.None? {
        return Err(NullValue);
      }
      ghost var w0 := out.written;
      var h := Block(codecs.header.write(header.value));
      out.written := out.written + h;
      if columns.None? {
        return Err(NullValue);
      }
      var c := Block(codecs.columns.write(columns.value));
      out.written := out.written + c;
      if files.None? {
        return Err(NullValue);
      }
      var n := EncodeVarint32(|files.value|);
      out.written := out.written + n;
      WriteFiles(codecs, files.value, out);
      ghost var fb := FileBlocks(codecs.file, files.value);
      assert out.written == ((w0 + h) + c) + n + fb;
      assert Layout(codecs, header.value, columns.value, files.value) == h + c + n + fb;
      Regroup(w0, h, c, n, fb);
      return Ok(());
    }

    /** The loop of writeTo over the files: one block each, in list order. */
    static method WriteFiles(codecs: Codecs, fs: seq<Proto.ParquetFileMetadata>, out: ByteSink)
      requires SizesFit(codecs.file)
      modifies out
      ensures out.written == old(out.written) + FileBlocks(codecs.file, fs)
    {
      ghost var prefix := out.written;
      var i := 0;
      assert fs[0..] == fs;
      while i < |fs|
        invariant 0 <= i <= |fs|
        invariant out.written + FileBlocks(codecs.file, fs[i..]) == prefix + FileBlocks(codecs.file, fs)
      {
        FileBlocksNext(codecs.file, fs, i);
        out.written := out.written + Block(codecs.file.write(fs[i]));
        i := i + 1;
      }
      assert fs[i..] == [];
    }

    /**
     * parseFrom(stream): the header block, the columns block, the file count,
     * then that many file blocks, each field assigned as soon as it is read;
     * bytes after the last block are not looked at.
     */
    method ParseFrom(codecs: Codecs, s: seq<byte>, sizeLimit: int) returns (r: Result<()>)
      modifies this
      ensures var o := ParseOutcome(codecs, s, sizeLimit, old(header), old(columns), old(files));
              header == o.header && columns == o.columns && files == o.files && r == o.result
    {
      var h := ReadBlock(codecs.header.parse, s, 0, sizeLimit);
      if h.Err? {
        return Err(h.error);
      }
      header := Some(h.value.value);
      var c := ReadBlock(codecs.columns.parse, h.value.rest, 0, sizeLimit);
      if c.Err? {
        return Err(c.error);
      }
      columns := Some(c.value.value);
      var n := ReadVarint32(c.value.rest, 0);
      if n.Err? {
        return Err(n.error);
      }
      r := ReadFilesInto(BlockReader(codecs.file.parse, sizeLimit), c.value.rest[n.value.next..], n.value.next, n.value.value);
    }

    /** The file loop of parseFrom: the list is created, then each file appended as it is read. */
    method ReadFilesInto(read: (seq<byte>, nat) -> Result<Parsed<Proto.ParquetFileMetadata>>, t0: seq<byte>,
                         counted0: nat, numFiles: int) returns (r: Result<()>)
      modifies this`files
      ensures var spec := ReadFiles(read, t0, counted0, numFiles);
              files == Some(spec.files) && r == spec.result
    {
      ghost var spec := ReadFiles(read, t0, counted0, numFiles);
      var t, counted := t0, counted0;
      var built: seq<Proto.ParquetFileMetadata> := [];
      files := Some([]);
      var i := 0;
      while i < numFiles
        invariant 0 <= i && (numFiles >= 0 ==> i <= numFiles)
        invariant files == Some(built)
        invariant var more := ReadFiles(read, t, counted, numFiles - i);
                  spec == FilesRead(built + more.files, more.result)
      {
        var f := read(t, counted);
        if f.Err? {
          assert built + [] == built;
          return Err(f.error);
        }
        ghost var more := ReadFiles(read, f.value.rest, 0, numFiles - i - 1);
        assert built + ([f.value.value] + more.files) == (built + [f.value.value]) + more.files;
        built := built + [f.value.value];
        files := Some(built);
        t, counted := f.value.rest, 0;
        i := i + 1;
      }
      assert built + [] == built;
      return Ok(());
    }

    /** parseFrom(path): the file's bytes, read with the 200,000,000-byte limit. */
    method ParseFromPath(codecs: Codecs, contents: seq<byte>) returns (r: Result<()>)
      modifies this
      ensures var o := ParseOutcome(codecs, contents, PATH_SIZE_LIMIT, old(header), old(columns), old(files));
              header == o.header && columns == o.columns && files == o.files && r == o.result
    {
      r := ParseFrom(codecs, contents, PATH_SIZE_LIMIT);
    }

    /**
     * parseFrom(tableMetadata): the header with version "v2", then the
     * dictionary and the files from buildFiles, through a builder that
     * shares the given name list. buildColumns is not defined in the
     * repository; the dictionary here is the one buildFiles sorts, and it
     * is stored only when buildFiles succeeds.
     */
    method FillFromTable(tableMetadata: Holders.ParquetTableMetadata, columnNames: ProtoBuilder.ColumnNames)
      returns (r: Result<()>, ghost order: seq<Holders.KeyRef>)
      modifies this, columnNames
      ensures header == Some(MetadataHeader("v2", tableMetadata.directories))
      ensures ProtoBuilder.KeyOrder(order, tableMetadata.columnTypeInfo)
      ensures var cols := ProtoBuilder.SortByName(ProtoBuilder.InfosOf(tableMetadata.columnTypeInfo, order));
              && columnNames.names == old(columnNames.names) + ProtoBuilder.NamesOf(cols)
              && (r.Ok? ==> columns == Some(MetadataColumns(cols)))
      ensures r.Err? ==> && columns == old(columns) && files == old(files)
                         && ProtoBuilder.FilesShapeFrom(columnNames.names, tableMetadata.files, 0) == Err(r.error)
      ensures r.Ok? ==> && files.Some?
                        && ProtoBuilder.FilesShapeFrom(columnNames.names, tableMetadata.files, 0)
                           == Ok(ProtoBuilder.ShapesOfFiles(files.value))
                        && ProtoBuilder.FilesAffinitiesListed(files.value, tableMetadata.files)
    {
      var builder := new ProtoBuilder.ProtoBuilder(tableMetadata, columnNames);
      header := Some(builder.BuildHeader("v2"));
      var built;
      built, order := builder.BuildFiles();
      if built.Err? {
        return Err(built.error), order;
      }
      columns := Some(MetadataColumns(built.value.columns));
      files := Some(built.value.files);
      return Ok(()), order;
    }

    /**
     * toParquetTableMetadata, as written: the dictionary is put entry by
     * entry under the null key, every file is decoded (so an id outside the
     * dictionary still throws) and then dropped, and the directories are
     * copied from the header.
     */
    method ToParquetTableMetadata() returns (r: Result<Holders.ParquetTableMetadata>)
      ensures r.Err? ==> TableDecode.TableAsWritten(header, columns, files) == Err(r.error)
      ensures r.Ok? ==> && fresh(r.value)
                        && TableDecode.TableAsWritten(header, columns, files)
                           == Ok(TableDecode.TableContents(r.value.columnTypeInfo, r.value.files, r.value.directories))
    {
      var table := new Holders.ParquetTableMetadata();
      table.columnTypeInfo := map[];
      if columns.None? {
        return Err(NullValue);
      }
      var cols := columns.value.columns;
      table.columnTypeInfo := PutColumnTypes(cols);
      table.files := [];
      if files.None? {
        return Err(NullValue);
      }
      var decoded := DecodeFileHolders(cols, files.value);
      if decoded.Err? {
        return Err(decoded.error);
      }
      if header.None? {
        return Err(NullValue);
      }
      TableDecode.PutAllEntries(cols, TableDecode.EntryAsWritten);
      table.directories := header.value.directories;
      return Ok(table);
    }
  }

  // ---------------------------------------------------------------------
  // The loops of toParquetTableMetadata, each against its specification

  /** The dictionary loop: each column's record put under the key the record carries. */
  method PutColumnTypes(cols: seq<ColumnTypeInfo>) returns (m: map<Holders.KeyRef, Holders.ColumnTypeMetadata>)
    ensures m == TableDecode.PutAll(cols, TableDecode.EntryAsWritten)
  {
    m := map[];
    for i := 0 to |cols|
      invariant m == TableDecode.PutAll(cols[..i], TableDecode.EntryAsWritten)
    {
      var entry := TableDecode.EntryAsWritten(cols[i]);
      assert cols[..i + 1][..i] == cols[..i];
      m := m[entry.key := entry];
    }
    assert cols[..|cols|] == cols;
  }

  /** The file loop: every file decoded, in order; the first id out of range stops it. */
  method DecodeFileHolders(cols: seq<ColumnTypeInfo>, fs: seq<Proto.ParquetFileMetadata>)
    returns (r: Result<seq<Holders.ParquetFileMetadata>>)
    ensures r == TableDecode.DecodeFilesFrom(cols, fs, 0, TableDecode.RegexSplitDot)
  {
    ghost var spec := TableDecode.DecodeFilesFrom(cols, fs, 0, TableDecode.RegexSplitDot);
    PrependedNothing(spec);
    var built: seq<Holders.ParquetFileMetadata> := [];
    for i := 0 to |fs|
      invariant spec == Prepended(built, TableDecode.DecodeFilesFrom(cols, fs, i, TableDecode.RegexSplitDot))
    {
      var f := DecodeFileHolder(cols, fs[i]);
      if f.Err? {
        return Err(f.error);
      }
      PrependedTwice(built, [f.value], TableDecode.DecodeFilesFrom(cols, fs, i + 1, TableDecode.RegexSplitDot));
      built := built + [f.value];
    }
    PrependedToEmpty(built);
    return Ok(built);
  }

  /** One file: its row groups decoded in order. */
  method DecodeFileHolder(cols: seq<ColumnTypeInfo>, f: Proto.ParquetFileMetadata)
    returns (r: Result<Holders.ParquetFileMetadata>)
    ensures r == TableDecode.DecodeFile(cols, f, TableDecode.RegexSplitDot)
  {
    var groups := DecodeRowGroupHolders(cols, f.rowGroups);
    if groups.Err? {
      return Err(groups.error);
    }
    return Ok(Holders.ParquetFileMetadata(f.path, f.length, groups.value));
  }

  /** The row-group loop of one file. */
  method DecodeRowGroupHolders(cols: seq<ColumnTypeInfo>, gs: seq<RowGroup>)
    returns (r: Result<seq<Holders.RowGroupMetadata>>)
    ensures r == TableDecode.DecodeRowGroupsFrom(cols, gs, 0, TableDecode.RegexSplitDot)
  {
    ghost var spec := TableDecode.DecodeRowGroupsFrom(cols, gs, 0, TableDecode.RegexSplitDot);
    PrependedNothing(spec);
    var built: seq<Holders.RowGroupMetadata> := [];
    for i := 0 to |gs|
      invariant spec == Prepended(built, TableDecode.DecodeRowGroupsFrom(cols, gs, i, TableDecode.RegexSplitDot))
    {
      var g := DecodeRowGroupHolder(cols, gs[i]);
      if g.Err? {
        return Err(g.error);
      }
      PrependedTwice(built, [g.value], TableDecode.DecodeRowGroupsFrom(cols, gs, i + 1, TableDecode.RegexSplitDot));
      built := built + [g.value];
    }
    PrependedToEmpty(built);
    return Ok(built);
  }

  /** One row group: the counters, the affinities put into a map, then the columns. */
  method DecodeRowGroupHolder(cols: seq<ColumnTypeInfo>, g: RowGroup) returns (r: Result<Holders.RowGroupMetadata>)
    ensures r == TableDecode.DecodeRowGroup(cols, g, TableDecode.RegexSplitDot)
  {
    var hostAffinity: map<string, Float32> := map[];
    for i := 0 to |g.affinities|
      invariant hostAffinity == TableDecode.AffinityMap(g.affinities[..i])
    {
      assert g.affinities[..i + 1][..i] == g.affinities[..i];
      hostAffinity := hostAffinity[g.affinities[i].key := g.affinities[i].value];
    }
    assert g.affinities[..|g.affinities|] == g.affinities;
    ghost var spec := TableDecode.DecodeColumnsFrom(cols, g.columns, 0, TableDecode.RegexSplitDot);
    PrependedNothing(spec);
    var columns: seq<Holders.ColumnMetadata> := [];
    for i := 0 to |g.columns|
      invariant spec == Prepended(columns, TableDecode.DecodeColumnsFrom(cols, g.columns, i, TableDecode.RegexSplitDot))
    {
      var c := TableDecode.DecodeColumn(cols, g.columns[i], TableDecode.RegexSplitDot);
      if c.Err? {
        return Err(c.error);
      }
      PrependedTwice(columns, [c.value], TableDecode.DecodeColumnsFrom(cols, g.columns, i + 1, TableDecode.RegexSplitDot));
      columns := columns + [c.value];
    }
    PrependedToEmpty(columns);
    return Ok(Holders.RowGroupMetadata(g.start, g.length, g.rowCount, hostAffinity, columns));
  }
}
