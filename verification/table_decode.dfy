/**
 * Reading the in-memory table back from the three messages: what
 * toParquetTableMetadata builds from the dictionary and the files, and
 * getMxValue. The functions with the decoder's own split(".") and null key
 * describe the code as it stands; DecodeTable is the conversion the code
 * evidently means, and the round trip through buildFiles is proved for it.
 */
module TableDecode {
  import opened Wrappers
  import opened Primitives
  import opened Proto
  import Holders
  import Utils
  import ProtoBuilder

  // ---------------------------------------------------------------------
  // Names

  /** The characters the regular expression "." does not match: Java's line terminators. */
  predicate LineTerminator(c: char) {
    c == '\n' || c == '\r' || c as int == 0x85 || c as int == 0x2028 || c as int == 0x2029
  }

  predicate AllLineTerminators(s: string) {
    forall i | 0 <= i < |s| :: LineTerminator(s[i])
  }

  predicate NoLineTerminators(s: string) {
    forall i | 0 <= i < |s| :: !LineTerminator(s[i])
  }

  /** The line terminators of s, in order. */
  function Terminators(s: string): string {
    if |s| == 0 then "" else Terminators(s[..|s| - 1]) + (if LineTerminator(s[|s| - 1]) then [s[|s| - 1]] else [])
  }

  /** The pieces joined back together. */
  function Concat(r: seq<string>): string {
    if |r| == 0 then "" else Concat(r[..|r| - 1]) + r[|r| - 1]
  }

  /**
   * The pieces of s around the characters "." matches: one more piece than
   * matches, each the run of line terminators between two matches.
   */
  function Pieces(s: string): (r: seq<string>)
    ensures |r| >= 1
    ensures forall i | 0 <= i < |r| :: AllLineTerminators(r[i])
    decreases |s|
  {
    if |s| == 0 then [""]
    else
      var rest, c := Pieces(s[..|s| - 1]), s[|s| - 1];
      if LineTerminator(c) then rest[..|rest| - 1] + [rest[|rest| - 1] + [c]] else rest + [""]
  }

  /** One more character: a line terminator extends the last piece, any other character starts a new one. */
  lemma PiecesStep(s: string, c: char)
    ensures var rest := Pieces(s);
            Pieces(s + [c]) == if LineTerminator(c) then rest[..|rest| - 1] + [rest[|rest| - 1] + [c]] else rest + [""]
  {
    assert (s + [c])[..|s|] == s;
  }

  /** Empty pieces dropped from the end, as split does when no limit is given. */
  function DropTrailingEmpty(r: seq<string>): (d: seq<string>)
    ensures |d| <= |r| && d == r[..|d|]
    ensures |d| == 0 || d[|d| - 1] != ""
    ensures forall i | |d| <= i < |r| :: r[i] == ""
  {
    if |r| > 0 && r[|r| - 1] == "" then DropTrailingEmpty(r[..|r| - 1]) else r
  }

  /**
   * String.split(".") as the decoder calls it: the argument is a regular
   * expression matching any one character but a line terminator. With no
   * match the string comes back whole; otherwise the pieces between the
   * matches are runs of line terminators, and trailing empty pieces are
   * dropped. Every piece is made of line terminators only, and together
   * they hold exactly the line terminators of s, in order.
   */
  function RegexSplitDot(s: string): (r: seq<string>)
    ensures AllLineTerminators(s) ==> r == [s]
    ensures !AllLineTerminators(s) ==> |r| == 0 || r[|r| - 1] != ""
    ensures forall i | 0 <= i < |r| :: AllLineTerminators(r[i])
    ensures Concat(r) == Terminators(s)
  {
    if AllLineTerminators(s) then
      AllTerminatorsKept(s);
      [s]
    else
      PiecesConcat(s);
      DropTrailingConcat(Pieces(s));
      DropTrailingEmpty(Pieces(s))
  }

  lemma {:induction false} AllTerminatorsKept(s: string)
    requires AllLineTerminators(s)
    ensures Terminators(s) == s && Concat([s]) == s
  {
    assert Concat([s]) == Concat([]) + s;
    if |s| > 0 {
      AllTerminatorsKept(s[..|s| - 1]);
      assert s == s[..|s| - 1] + [s[|s| - 1]];
    }
  }

  lemma {:induction false} NoTerminatorsDropped(s: string)
    requires NoLineTerminators(s)
    ensures Terminators(s) == ""
  {
    if |s| > 0 {
      NoTerminatorsDropped(s[..|s| - 1]);
    }
  }

  lemma ConcatSnoc(r: seq<string>, x: string)
    ensures Concat(r + [x]) == Concat(r) + x
  {
    assert (r + [x])[..|r|] == r;
  }

  lemma {:induction false} PiecesConcat(s: string)
    ensures Concat(Pieces(s)) == Terminators(s)
    decreases |s|
  {
    if |s| > 0 {
      var s', c := s[..|s| - 1], s[|s| - 1];
      assert s == s' + [c];
      PiecesConcat(s');
      PiecesStep(s', c);
      ConcatStep(Pieces(s'), c);
    }
  }

  /** What one more character adds to the joined pieces: itself if it is a line terminator, nothing otherwise. */
  lemma ConcatStep(rest: seq<string>, c: char)
    requires |rest| >= 1
    ensures var next := if LineTerminator(c) then rest[..|rest| - 1] + [rest[|rest| - 1] + [c]] else rest + [""];
            Concat(next) == Concat(rest) + (if LineTerminator(c) then [c] else [])
  {
    var front, last := rest[..|rest| - 1], rest[|rest| - 1];
    assert rest == front + [last];
    ConcatSnoc(front, last);
    ConcatSnoc(front, last + [c]);
    ConcatSnoc(rest, "");
  }

  lemma {:induction false} DropTrailingConcat(r: seq<string>)
    ensures Concat(DropTrailingEmpty(r)) == Concat(r)
    decreases |r|
  {
    if |r| > 0 && r[|r| - 1] == "" {
      DropTrailingConcat(r[..|r| - 1]);
      assert r == r[..|r| - 1] + [""];
      ConcatSnoc(r[..|r| - 1], "");
    }
  }

  /** Pieces that join to nothing are all empty. */
  lemma {:induction false} ConcatEmpty(r: seq<string>)
    requires Concat(r) == ""
    ensures forall i | 0 <= i < |r| :: r[i] == ""
    decreases |r|
  {
    if |r| > 0 {
      ConcatEmpty(r[..|r| - 1]);
      assert forall i | 0 <= i < |r| - 1 :: r[i] == r[..|r| - 1][i];
    }
  }

  /** A string made of a line terminator alone comes back whole. */
  lemma RegexSplitKeepsLoneTerminator()
    ensures RegexSplitDot("\n") == ["\n"]
  {
    assert AllLineTerminators("\n");
  }

  /** A line terminator between two other characters survives the split as a piece of its own. */
  lemma RegexSplitKeepsTerminators()
    ensures RegexSplitDot("a\nb") == ["", "\n"]
  {
    var s := "a\nb";
    assert !LineTerminator(s[0]) && !AllLineTerminators(s);
    assert !LineTerminator('a') && LineTerminator('\n') && !LineTerminator('b');
    assert Pieces("") == [""];
    PiecesStep("", 'a');
    assert "" + ['a'] == "a";
    var rest := Pieces("a");
    assert rest == ["", ""];
    PiecesStep("a", '\n');
    assert "a" + ['\n'] == "a\n";
    assert rest[..1] == [""] && rest[1] + ['\n'] == "\n";
    var rest' := Pieces("a\n");
    assert rest' == ["", "\n"];
    PiecesStep("a\n", 'b');
    assert "a\n" + ['b'] == s;
    var pieces := rest' + [""];
    assert Pieces(s) == pieces;
    assert pieces[..2] == rest' && pieces[2] == "";
    assert rest'[1] != "";
    assert DropTrailingEmpty(pieces) == DropTrailingEmpty(rest') == rest';
  }

  /** A column name buildColumnTypeInfo can join and a literal split restores. */
  predicate WellNamed(name: seq<string>) {
    |name| >= 1 && forall i | 0 <= i < |name| :: Utils.DotFree(name[i])
  }

  /**
   * The decoder's split loses every non-empty dotted name without a line
   * terminator; a literal split restores it.
   */
  lemma RegexSplitLosesNames(name: seq<string>)
    requires WellNamed(name) && Utils.Join(name) != "" && NoLineTerminators(Utils.Join(name))
    ensures RegexSplitDot(Utils.Join(name)) == []
    ensures Utils.SplitOnDot(Utils.Join(name)) == name
  {
    var s := Utils.Join(name);
    assert !LineTerminator(s[0]);
    NoTerminatorsDropped(s);
    var r := RegexSplitDot(s);
    ConcatEmpty(r);
    Utils.SplitJoin(name);
  }

  // ---------------------------------------------------------------------
  // getMxValue

  /**
   * getMxValue: the first variant that is set, tried in the order binary,
   * bool, double, float, int32, int64; nothing set is null.
   */
  function GetMxValue(c: Proto.ColumnMetadata): (r: Option<Holders.MxValue>)
    ensures r.None? <==> c.vbinary.None? && c.vbool.None? && c.vdouble.None?
                         && c.vfloat.None? && c.vint32.None? && c.vint64.None?
    ensures forall v | ProtoBuilder.CarriesValue(c, v) :: r == v
    ensures r.Some? ==> !r.value.MxOther?
  {
    if c.vbinary.Some? then Some(Holders.MxBytes(c.vbinary.value))
    else if c.vbool.Some? then Some(Holders.MxBool(c.vbool.value))
    else if c.vdouble.Some? then Some(Holders.MxDouble(c.vdouble.value))
    else if c.vfloat.Some? then Some(Holders.MxFloat(c.vfloat.value))
    else if c.vint32.Some? then Some(Holders.MxInt(c.vint32.value))
    else if c.vint64.Some? then Some(Holders.MxLong(c.vint64.value))
    else None
  }

  /** The value fields a column has set, as statistic values, in the order vbinary, vbool, vdouble, vfloat, vint32, vint64. */
  function SetValueFields(c: Proto.ColumnMetadata): seq<Holders.MxValue> {
    (if c.vbinary.Some? then [Holders.MxBytes(c.vbinary.value)] else [])
    + (if c.vbool.Some? then [Holders.MxBool(c.vbool.value)] else [])
    + (if c.vdouble.Some? then [Holders.MxDouble(c.vdouble.value)] else [])
    + (if c.vfloat.Some? then [Holders.MxFloat(c.vfloat.value)] else [])
    + (if c.vint32.Some? then [Holders.MxInt(c.vint32.value)] else [])
    + (if c.vint64.Some? then [Holders.MxLong(c.vint64.value)] else [])
  }

  /** getMxValue reads the first set field in that order, and null when none is set. */
  lemma FirstSetFieldWins(c: Proto.ColumnMetadata)
    ensures GetMxValue(c) == if |SetValueFields(c)| == 0 then None else Some(SetValueFields(c)[0])
  {
  }

  /** With two variants set, the earlier one in getMxValue's order is the one read. */
  lemma BinaryReadBeforeInt64(c: Proto.ColumnMetadata)
    requires c.vbinary.Some? && c.vint64.Some?
    ensures GetMxValue(c) == Some(Holders.MxBytes(c.vbinary.value))
  {
  }

  // ---------------------------------------------------------------------
  // The column dictionary

  /**
   * The dictionary loop: each entry put under its own key, in order, so an
   * entry replaces any earlier one with the same key.
   */
  function PutAll(cols: seq<ColumnTypeInfo>, entry: ColumnTypeInfo -> Holders.ColumnTypeMetadata)
    : (r: map<Holders.KeyRef, Holders.ColumnTypeMetadata>)
    ensures |cols| > 0 ==> entry(cols[|cols| - 1]).key in r && r[entry(cols[|cols| - 1]).key] == entry(cols[|cols| - 1])
  {
    if |cols| == 0 then map[]
    else
      var last := entry(cols[|cols| - 1]);
      PutAll(cols[..|cols| - 1], entry)[last.key := last]
  }

  /** Every entry's key is in the map, and every value in the map is one of the entries put under its key. */
  lemma {:induction false} PutAllEntries(cols: seq<ColumnTypeInfo>, entry: ColumnTypeInfo -> Holders.ColumnTypeMetadata)
    ensures var r := PutAll(cols, entry);
            && (forall i | 0 <= i < |cols| :: entry(cols[i]).key in r)
            && (forall k | k in r :: exists i | 0 <= i < |cols| :: entry(cols[i]).key == k && entry(cols[i]) == r[k])
  {
    if |cols| > 0 {
      var init := cols[..|cols| - 1];
      PutAllEntries(init, entry);
      assert forall i | 0 <= i < |init| :: init[i] == cols[i];
    }
  }

  /**
   * The entry toParquetTableMetadata puts: a record made with the
   * no-argument constructor (so its key is null), the name split with the
   * regular expression, and the types as the getters read them, where an
   * unset type reads as the enum's default.
   */
  function EntryAsWritten(c: ColumnTypeInfo): (r: Holders.ColumnTypeMetadata)
    ensures r.key == Holders.NullKey
    ensures r.primitiveType.Some? && r.originalType.Some?
  {
    Holders.BareColumnTypeMetadata(RegexSplitDot(c.name), Some(c.GetPrimitiveType()), Some(c.GetOriginalType()))
  }

  /** The entry evidently meant: keyed by its name, the segments restored, an unset type left unset. */
  function Entry(c: ColumnTypeInfo): (r: Holders.ColumnTypeMetadata)
    ensures r.key == Holders.NameKey(r.name)
    ensures r.primitiveType == c.primitiveType && r.originalType == c.originalType
  {
    Holders.NewColumnTypeMetadata(Utils.SplitOnDot(c.name), c.primitiveType, c.originalType)
  }

  /**
   * As written, every entry goes under the null key, so the rebuilt map
   * holds at most one entry: the last column of the dictionary.
   */
  lemma {:induction false} NullKeyKeepsLastColumn(cols: seq<ColumnTypeInfo>)
    requires |cols| > 0
    ensures PutAll(cols, EntryAsWritten) == map[Holders.NullKey := EntryAsWritten(cols[|cols| - 1])]
  {
    var init := cols[..|cols| - 1];
    var m := PutAll(init, EntryAsWritten);
    PutAllEntries(init, EntryAsWritten);
    assert m.Keys <= {Holders.NullKey};
  }

  /** As written, a column whose types were never set comes back with the enums' first values. */
  lemma UnsetTypesReadAsDefaults(name: string)
    ensures var e := EntryAsWritten(ColumnTypeInfo(name, None, None));
            e.primitiveType == Some(PRIMITIVE_TYPE_DEFAULT) && e.originalType == Some(ORIGINAL_TYPE_DEFAULT)
    ensures Entry(ColumnTypeInfo(name, None, None)).primitiveType.None?
  {
  }

  /** Every entry of the map is keyed by its own name, and the name is well formed. */
  predicate WellKeyed(m: map<Holders.KeyRef, Holders.ColumnTypeMetadata>) {
    forall k | k in m :: m[k].key == k == Holders.NameKey(m[k].name) && WellNamed(m[k].name)
  }

  /** The corrected entry of a dictionary record built from a well-keyed map entry is that entry. */
  lemma EntryRestores(m: map<Holders.KeyRef, Holders.ColumnTypeMetadata>, k: Holders.KeyRef)
    requires WellKeyed(m) && k in m
    ensures Entry(ProtoBuilder.BuildColumnTypeInfo(m[k])) == m[k]
  {
    Utils.SplitJoin(m[k].name);
  }

  /** Each corrected entry of a permutation of the dictionary records is the map's entry under its key. */
  lemma SortedEntriesInMap(m: map<Holders.KeyRef, Holders.ColumnTypeMetadata>, order: seq<Holders.KeyRef>,
                           cols: seq<ColumnTypeInfo>)
    requires ProtoBuilder.KeyOrder(order, m) && WellKeyed(m)
    requires multiset(cols) == multiset(ProtoBuilder.InfosOf(m, order))
    ensures forall i | 0 <= i < |cols| :: Entry(cols[i]).key in m && m[Entry(cols[i]).key] == Entry(cols[i])
  {
    var infos := ProtoBuilder.InfosOf(m, order);
    forall i | 0 <= i < |cols|
      ensures Entry(cols[i]).key in m && m[Entry(cols[i]).key] == Entry(cols[i])
    {
      assert cols[i] in multiset(infos);
      var j :| 0 <= j < |infos| && infos[j] == cols[i];
      EntryRestores(m, order[j]);
    }
  }

  /** Every key of the map is the key of the corrected entry of some record of a permutation of the dictionary. */
  lemma MapKeysInSorted(m: map<Holders.KeyRef, Holders.ColumnTypeMetadata>, order: seq<Holders.KeyRef>,
                        cols: seq<ColumnTypeInfo>)
    requires ProtoBuilder.KeyOrder(order, m) && WellKeyed(m)
    requires multiset(cols) == multiset(ProtoBuilder.InfosOf(m, order))
    ensures forall k | k in m :: exists i | 0 <= i < |cols| :: Entry(cols[i]).key == k
  {
    var infos := ProtoBuilder.InfosOf(m, order);
    forall k | k in m
      ensures exists i | 0 <= i < |cols| :: Entry(cols[i]).key == k
    {
      var j :| 0 <= j < |order| && order[j] == k;
      assert infos[j] in multiset(cols);
      var i :| 0 <= i < |cols| && cols[i] == infos[j];
      EntryRestores(m, k);
    }
  }

  /**
   * The dictionary round trip: putting the corrected entries of the sorted
   * dictionary buildFiles writes gives back the table's map, whatever order
   * the map's keys were visited in.
   */
  lemma DictionaryRoundTrip(m: map<Holders.KeyRef, Holders.ColumnTypeMetadata>, order: seq<Holders.KeyRef>)
    requires ProtoBuilder.KeyOrder(order, m)
    requires WellKeyed(m)
    ensures PutAll(ProtoBuilder.SortByName(ProtoBuilder.InfosOf(m, order)), Entry) == m
  {
    var cols := ProtoBuilder.SortByName(ProtoBuilder.InfosOf(m, order));
    ProtoBuilder.SortByNameSortsAndPermutes(ProtoBuilder.InfosOf(m, order));
    SortedEntriesInMap(m, order, cols);
    MapKeysInSorted(m, order, cols);
    PutAllRestores(m, cols, Entry);
  }

  /** Putting entries that all agree with a map, and cover its keys, gives that map. */
  lemma PutAllRestores(m: map<Holders.KeyRef, Holders.ColumnTypeMetadata>, cols: seq<ColumnTypeInfo>,
                       entry: ColumnTypeInfo -> Holders.ColumnTypeMetadata)
    requires forall i | 0 <= i < |cols| :: entry(cols[i]).key in m && m[entry(cols[i]).key] == entry(cols[i])
    requires forall k | k in m :: exists i | 0 <= i < |cols| :: entry(cols[i]).key == k
    ensures PutAll(cols, entry) == m
  {
    PutAllEntries(cols, entry);
    var r := PutAll(cols, entry);
    forall k | k in r
      ensures k in m && r[k] == m[k]
    {
      var i :| 0 <= i < |cols| && entry(cols[i]).key == k && entry(cols[i]) == r[k];
    }
    forall k | k in m
      ensures k in r
    {
      var i :| 0 <= i < |cols| && entry(cols[i]).key == k;
    }
    assert r.Keys == m.Keys;
  }

  // ---------------------------------------------------------------------
  // Row groups and files

  /** The host-affinity loop: each pair put in order, a later key replacing an earlier one. */
  function AffinityMap(affinities: seq<HostAffinity>): (m: map<string, Float32>)
    ensures |affinities| > 0 ==> affinities[|affinities| - 1].key in m
                                 && m[affinities[|affinities| - 1].key] == affinities[|affinities| - 1].value
  {
    if |affinities| == 0 then map[]
    else
      var last := affinities[|affinities| - 1];
      AffinityMap(affinities[..|affinities| - 1])[last.key := last.value]
  }

  /** Every listed key is in the map, and every value in the map was listed with its key. */
  lemma {:induction false} AffinityMapEntries(affinities: seq<HostAffinity>)
    ensures var m := AffinityMap(affinities);
            && (forall i | 0 <= i < |affinities| :: affinities[i].key in m)
            && (forall k | k in m :: exists i | 0 <= i < |affinities| :: affinities[i].key == k && affinities[i].value == m[k])
  {
    if |affinities| > 0 {
      var init := affinities[..|affinities| - 1];
      AffinityMapEntries(init);
      assert forall i | 0 <= i < |init| :: init[i] == affinities[i];
    }
  }

  /** Putting back the pairs buildRowGroup listed restores the host-affinity map. */
  lemma AffinityMapRestores(affinities: seq<HostAffinity>, m: map<string, Float32>)
    requires ProtoBuilder.ListsAffinities(affinities, m)
    ensures AffinityMap(affinities) == m
  {
    var r := AffinityMap(affinities);
    AffinityMapEntries(affinities);
    var keys := ProtoBuilder.AffinityKeys(affinities);
    forall k | k in m
      ensures k in r
    {
      assert k in keys;
      var i :| 0 <= i < |keys| && keys[i] == k;
      assert affinities[i].key == k;
    }
    forall k | k in r
      ensures k in m && r[k] == m[k]
    {
      var i :| 0 <= i < |affinities| && affinities[i].key == k && affinities[i].value == r[k];
    }
    assert r.Keys == m.Keys;
  }

  /**
   * One row-group column: its id must index the dictionary (otherwise the
   * list lookup throws); the name is split with `split`, the null count
   * read with 0 for unset, the statistic by getMxValue, and the primitive
   * type from the dictionary entry.
   */
  function DecodeColumn(cols: seq<ColumnTypeInfo>, c: Proto.ColumnMetadata, split: string -> seq<string>)
    : (r: Result<Holders.ColumnMetadata>)
    ensures r.Ok? <==> 0 <= c.name < |cols|
    ensures r.Err? ==> r.error == ColumnIdOutOfRange(c.name)
  {
    if 0 <= c.name < |cols| then
      var colMeta := cols[c.name];
      Ok(Holders.ColumnMetadata(split(colMeta.name), Some(c.GetNulls()), GetMxValue(c), Some(colMeta.GetPrimitiveType())))
    else
      Err(ColumnIdOutOfRange(c.name))
  }

  /** The columns from index i on, in order; the first id out of range stops the decoding. */
  function DecodeColumnsFrom(cols: seq<ColumnTypeInfo>, cs: seq<Proto.ColumnMetadata>, i: nat, split: string -> seq<string>)
    : (r: Result<seq<Holders.ColumnMetadata>>)
    requires i <= |cs|
    ensures r.Ok? <==> forall j | i <= j < |cs| :: 0 <= cs[j].name < |cols|
    ensures r.Ok? ==> |r.value| == |cs| - i
                      && forall j | 0 <= j < |r.value| :: DecodeColumn(cols, cs[i + j], split) == Ok(r.value[j])
    ensures r.Err? ==> r.error.ColumnIdOutOfRange?
    decreases |cs| - i
  {
    if i == |cs| then Ok([])
    else
      match DecodeColumn(cols, cs[i], split)
      case Err(e) => Err(e)
      case Ok(c) =>
        match DecodeColumnsFrom(cols, cs, i + 1, split)
        case Err(e) => Err(e)
        case Ok(rest) =>
          assert forall j | 0 < j < |rest| + 1 :: ([c] + rest)[j] == rest[j - 1];
          Ok([c] + rest)
  }

  /** Every column id of the row group indexes a dictionary of n entries. */
  predicate IdsWithin(g: RowGroup, n: int) {
    forall k | 0 <= k < |g.columns| :: 0 <= g.columns[k].name < n
  }

  /** One row group: the counters copied, the affinities put into a map, the columns decoded. */
  function DecodeRowGroup(cols: seq<ColumnTypeInfo>, g: RowGroup, split: string -> seq<string>)
    : (r: Result<Holders.RowGroupMetadata>)
    ensures r.Ok? <==> IdsWithin(g, |cols|)
    ensures r.Err? ==> r.error.ColumnIdOutOfRange?
  {
    var columns :- DecodeColumnsFrom(cols, g.columns, 0, split);
    Ok(Holders.RowGroupMetadata(g.start, g.length, g.rowCount, AffinityMap(g.affinities), columns))
  }

  function DecodeRowGroupsFrom(cols: seq<ColumnTypeInfo>, gs: seq<RowGroup>, i: nat, split: string -> seq<string>)
    : (r: Result<seq<Holders.RowGroupMetadata>>)
    requires i <= |gs|
    ensures r.Ok? <==> forall j | i <= j < |gs| :: IdsWithin(gs[j], |cols|)
    ensures r.Ok? ==> |r.value| == |gs| - i
                      && forall j | 0 <= j < |r.value| :: DecodeRowGroup(cols, gs[i + j], split) == Ok(r.value[j])
    ensures r.Err? ==> r.error.ColumnIdOutOfRange?
    decreases |gs| - i
  {
    if i == |gs| then Ok([])
    else
      match DecodeRowGroup(cols, gs[i], split)
      case Err(e) => Err(e)
      case Ok(g) =>
        match DecodeRowGroupsFrom(cols, gs, i + 1, split)
        case Err(e) => Err(e)
        case Ok(rest) =>
          assert forall j | 0 < j < |rest| + 1 :: ([g] + rest)[j] == rest[j - 1];
          Ok([g] + rest)
  }

  /** Every column id in every row group of the file indexes a dictionary of n entries. */
  predicate FileIdsWithin(f: Proto.ParquetFileMetadata, n: int) {
    forall j | 0 <= j < |f.rowGroups| :: IdsWithin(f.rowGroups[j], n)
  }

  function DecodeFile(cols: seq<ColumnTypeInfo>, f: Proto.ParquetFileMetadata, split: string -> seq<string>)
    : (r: Result<Holders.ParquetFileMetadata>)
    ensures r.Ok? <==> FileIdsWithin(f, |cols|)
    ensures r.Err? ==> r.error.ColumnIdOutOfRange?
  {
    var groups :- DecodeRowGroupsFrom(cols, f.rowGroups, 0, split);
    Ok(Holders.ParquetFileMetadata(f.path, f.length, groups))
  }

  function DecodeFilesFrom(cols: seq<ColumnTypeInfo>, fs: seq<Proto.ParquetFileMetadata>, i: nat, split: string -> seq<string>)
    : (r: Result<seq<Holders.ParquetFileMetadata>>)
    requires i <= |fs|
    ensures r.Ok? <==> forall j | i <= j < |fs| :: FileIdsWithin(fs[j], |cols|)
    ensures r.Ok? ==> |r.value| == |fs| - i
                      && forall j | 0 <= j < |r.value| :: DecodeFile(cols, fs[i + j], split) == Ok(r.value[j])
    ensures r.Err? ==> r.error.ColumnIdOutOfRange?
    decreases |fs| - i
  {
    if i == |fs| then Ok([])
    else
      match DecodeFile(cols, fs[i], split)
      case Err(e) => Err(e)
      case Ok(f) =>
        match DecodeFilesFrom(cols, fs, i + 1, split)
        case Err(e) => Err(e)
        case Ok(rest) =>
          assert forall j | 0 < j < |rest| + 1 :: ([f] + rest)[j] == rest[j - 1];
          Ok([f] + rest)
  }

  // ---------------------------------------------------------------------
  // The whole table

  /** The state of a ParquetTableMetadata, as a value. */
  datatype TableContents = TableContents(
    columnTypeInfo: map<Holders.KeyRef, Holders.ColumnTypeMetadata>,
    files: seq<Holders.ParquetFileMetadata>,
    directories: seq<string>)

  /** No file of the list has a column id outside a dictionary of n entries. */
  predicate AllIdsWithin(fs: seq<Proto.ParquetFileMetadata>, n: int) {
    forall j | 0 <= j < |fs| :: FileIdsWithin(fs[j], n)
  }

  /**
   * toParquetTableMetadata as written. The null checks fall where the
   * fields are first dereferenced: the dictionary, then the files, then
   * (after every file has been decoded) the header. The decoded files are
   * never added to the table, and every dictionary entry goes under the
   * null key.
   */
  function TableAsWritten(header: Option<MetadataHeader>, columns: Option<MetadataColumns>,
                          files: Option<seq<Proto.ParquetFileMetadata>>): (r: Result<TableContents>)
    ensures r.Ok? <==> header.Some? && columns.Some? && files.Some?
                       && AllIdsWithin(files.value, |columns.value.columns|)
    ensures r.Err? ==>
              if columns.Some? && files.Some? && !AllIdsWithin(files.value, |columns.value.columns|)
              then r.error.ColumnIdOutOfRange?
              else r.error == NullValue
    ensures r.Ok? ==> r.value.files == [] && r.value.columnTypeInfo.Keys <= {Holders.NullKey}
                      && r.value.directories == header.value.directories
  {
    if columns.None? || files.None? then Err(NullValue)
    else
      var cols := columns.value.columns;
      var decoded :- DecodeFilesFrom(cols, files.value, 0, RegexSplitDot);
      if header.None? then Err(NullValue)
      else
        PutAllEntries(cols, EntryAsWritten);
        Ok(TableContents(PutAll(cols, EntryAsWritten), [], header.value.directories))
  }

  /**
   * The conversion evidently meant: entries keyed by their names with the
   * segments restored and unset types left unset, and the decoded files
   * added to the table.
   */
  function DecodeTable(header: MetadataHeader, columns: MetadataColumns, files: seq<Proto.ParquetFileMetadata>)
    : (r: Result<TableContents>)
    ensures r.Ok? <==> AllIdsWithin(files, |columns.columns|)
    ensures r.Err? ==> r.error.ColumnIdOutOfRange?
    ensures r.Ok? ==> |r.value.files| == |files| && r.value.directories == header.directories
  {
    var decoded :- DecodeFilesFrom(columns.columns, files, 0, Utils.SplitOnDot);
    Ok(TableContents(PutAll(columns.columns, Entry), decoded, header.directories))
  }

  /**
   * As written, a table read back from messages that describe at least one
   * file and one column has no files and a single entry under the null key,
   * where the corrected conversion has every file.
   */
  lemma FilesAndKeysLostAsWritten(header: MetadataHeader, columns: MetadataColumns, files: seq<Proto.ParquetFileMetadata>)
    requires AllIdsWithin(files, |columns.columns|)
    requires |files| > 0 && |columns.columns| > 0
    ensures var w := TableAsWritten(Some(header), Some(columns), Some(files));
            && w.Ok? && w.value.files == [] && w.value.columnTypeInfo.Keys == {Holders.NullKey}
    ensures var d := DecodeTable(header, columns, files);
            && d.Ok? && |d.value.files| == |files|
  {
    NullKeyKeepsLastColumn(columns.columns);
  }

  // ---------------------------------------------------------------------
  // The round trip through buildFiles

  /** A row-group column read back: the segments and the statistic restored, an unset null count read as 0. */
  predicate ColumnRestored(original: Holders.ColumnMetadata, decoded: Holders.ColumnMetadata) {
    && decoded.name == original.name
    && decoded.nulls == Some(original.nulls.GetOr(0))
    && decoded.mxValue == original.mxValue
  }

  /** A row group read back: the counters and the affinity map restored, and the kept columns in order. */
  predicate RowGroupRestored(original: Holders.RowGroupMetadata, decoded: Holders.RowGroupMetadata) {
    && decoded.start == original.start
    && decoded.length == original.length
    && decoded.rowCount == original.rowCount
    && decoded.hostAffinity == original.hostAffinity
    && var kept := ProtoBuilder.Kept(original.columns, 0);
       && |decoded.columns| == |kept|
       && forall j | 0 <= j < |kept| :: ColumnRestored(kept[j], decoded.columns[j])
  }

  predicate FileRestored(original: Holders.ParquetFileMetadata, decoded: Holders.ParquetFileMetadata) {
    && decoded.path == original.path
    && decoded.length == original.length
    && |decoded.rowGroups| == |original.rowGroups|
    && forall j | 0 <= j < |original.rowGroups| :: RowGroupRestored(original.rowGroups[j], decoded.rowGroups[j])
  }

  predicate FilesRestored(original: seq<Holders.ParquetFileMetadata>, decoded: seq<Holders.ParquetFileMetadata>) {
    && |decoded| == |original|
    && forall j | 0 <= j < |original| :: FileRestored(original[j], decoded[j])
  }

  predicate ColumnsWellNamed(columns: seq<Holders.ColumnMetadata>) {
    forall k | 0 <= k < |columns| :: WellNamed(columns[k].name)
  }

  predicate FileWellNamed(f: Holders.ParquetFileMetadata) {
    forall j | 0 <= j < |f.rowGroups| :: ColumnsWellNamed(f.rowGroups[j].columns)
  }

  /** Decoding a row-group column record built against the dictionary's own names restores it. */
  lemma ColumnRoundTrip(dictionary: seq<ColumnTypeInfo>, column: Holders.ColumnMetadata, c: Proto.ColumnMetadata)
    requires ProtoBuilder.BuildRowGroupColumn(ProtoBuilder.NamesOf(dictionary), column) == Ok(Some(c))
    requires WellNamed(column.name)
    ensures var d := DecodeColumn(dictionary, c, Utils.SplitOnDot);
            d.Ok? && ColumnRestored(column, d.value)
  {
    Utils.SplitJoin(column.name);
  }

  /** The kept columns are among the row group's columns. */
  lemma {:induction false} KeptAreColumns(columns: seq<Holders.ColumnMetadata>, i: nat)
    requires i <= |columns|
    ensures forall j | 0 <= j < |ProtoBuilder.Kept(columns, i)| :: ProtoBuilder.Kept(columns, i)[j] in columns
    decreases |columns| - i
  {
    if i < |columns| {
      KeptAreColumns(columns, i + 1);
    }
  }

  lemma RowGroupRoundTrip(dictionary: seq<ColumnTypeInfo>, original: Holders.RowGroupMetadata, built: RowGroup)
    requires ProtoBuilder.RowGroupShape(ProtoBuilder.NamesOf(dictionary), original) == Ok(ProtoBuilder.Shape(built))
    requires ProtoBuilder.ListsAffinities(built.affinities, original.hostAffinity)
    requires ColumnsWellNamed(original.columns)
    ensures var d := DecodeRowGroup(dictionary, built, Utils.SplitOnDot);
            d.Ok? && RowGroupRestored(original, d.value)
  {
    var names := ProtoBuilder.NamesOf(dictionary);
    var kept := ProtoBuilder.Kept(original.columns, 0);
    var cs := built.columns;
    assert ProtoBuilder.ColumnsFrom(names, original.columns, 0) == Ok(cs);
    assert built.start == original.start && built.length == original.length && built.rowCount == original.rowCount;
    ProtoBuilder.ColumnsFromKept(names, original.columns, 0);
    KeptAreColumns(original.columns, 0);
    forall j | 0 <= j < |kept|
      ensures DecodeColumn(dictionary, cs[j], Utils.SplitOnDot).Ok?
      ensures ColumnRestored(kept[j], DecodeColumn(dictionary, cs[j], Utils.SplitOnDot).value)
    {
      ColumnRoundTrip(dictionary, kept[j], cs[j]);
    }
    assert IdsWithin(built, |dictionary|);
    var decoded := DecodeColumnsFrom(dictionary, cs, 0, Utils.SplitOnDot).value;
    AffinityMapRestores(built.affinities, original.hostAffinity);
    assert DecodeRowGroup(dictionary, built, Utils.SplitOnDot)
           == Ok(Holders.RowGroupMetadata(built.start, built.length, built.rowCount, original.hostAffinity, decoded));
  }

  lemma FileRoundTrip(dictionary: seq<ColumnTypeInfo>, original: Holders.ParquetFileMetadata, built: Proto.ParquetFileMetadata)
    requires ProtoBuilder.FileShape(ProtoBuilder.NamesOf(dictionary), original) == Ok(ProtoBuilder.ShapeOfFile(built))
    requires ProtoBuilder.AffinitiesListed(built.rowGroups, original.rowGroups)
    requires FileWellNamed(original)
    ensures var d := DecodeFile(dictionary, built, Utils.SplitOnDot);
            d.Ok? && FileRestored(original, d.value)
  {
    var names := ProtoBuilder.NamesOf(dictionary);
    forall j | 0 <= j < |built.rowGroups|
      ensures DecodeRowGroup(dictionary, built.rowGroups[j], Utils.SplitOnDot).Ok?
      ensures RowGroupRestored(original.rowGroups[j], DecodeRowGroup(dictionary, built.rowGroups[j], Utils.SplitOnDot).value)
    {
      RowGroupRoundTrip(dictionary, original.rowGroups[j], built.rowGroups[j]);
    }
  }

  /**
   * The files round trip: decoding what buildFiles wrote, with a name list
   * that held only this dictionary's names, gives back every file, row
   * group, host-affinity map and kept column.
   */
  lemma FilesRoundTrip(dictionary: seq<ColumnTypeInfo>, original: seq<Holders.ParquetFileMetadata>,
                       built: seq<Proto.ParquetFileMetadata>)
    requires ProtoBuilder.FilesShapeFrom(ProtoBuilder.NamesOf(dictionary), original, 0) == Ok(ProtoBuilder.ShapesOfFiles(built))
    requires ProtoBuilder.FilesAffinitiesListed(built, original)
    requires forall j | 0 <= j < |original| :: FileWellNamed(original[j])
    ensures var d := DecodeFilesFrom(dictionary, built, 0, Utils.SplitOnDot);
            d.Ok? && FilesRestored(original, d.value)
  {
    forall j | 0 <= j < |built|
      ensures DecodeFile(dictionary, built[j], Utils.SplitOnDot).Ok?
      ensures FileRestored(original[j], DecodeFile(dictionary, built[j], Utils.SplitOnDot).value)
    {
      FileRoundTrip(dictionary, original[j], built[j]);
    }
  }

  /**
   * The table round trip: what buildHeader and buildFiles write for a table
   * whose map is keyed by well-formed names, with a name list that held
   * nothing before, decodes back to the same map, the same directories and
   * every file restored.
   */
  lemma TableRoundTrip(m: map<Holders.KeyRef, Holders.ColumnTypeMetadata>, order: seq<Holders.KeyRef>,
                       original: seq<Holders.ParquetFileMetadata>, built: seq<Proto.ParquetFileMetadata>,
                       version: string, directories: seq<string>)
    requires ProtoBuilder.KeyOrder(order, m) && WellKeyed(m)
    requires forall j | 0 <= j < |original| :: FileWellNamed(original[j])
    requires var cols := ProtoBuilder.SortByName(ProtoBuilder.InfosOf(m, order));
             && ProtoBuilder.FilesShapeFrom(ProtoBuilder.NamesOf(cols), original, 0) == Ok(ProtoBuilder.ShapesOfFiles(built))
             && ProtoBuilder.FilesAffinitiesListed(built, original)
    ensures var cols := ProtoBuilder.SortByName(ProtoBuilder.InfosOf(m, order));
            var d := DecodeTable(MetadataHeader(version, directories), MetadataColumns(cols), built);
            && d.Ok? && d.value.columnTypeInfo == m && d.value.directories == directories
            && FilesRestored(original, d.value.files)
  {
    var cols := ProtoBuilder.SortByName(ProtoBuilder.InfosOf(m, order));
    DictionaryRoundTrip(m, order);
    FilesRoundTrip(cols, original, built);
  }
}
