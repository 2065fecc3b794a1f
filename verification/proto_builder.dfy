/**
 * The builder from the in-memory table to the protobuf messages: the header,
 * the column dictionary sorted by dotted name, and the files, whose
 * row-group columns refer to their column by an integer id — the position
 * of the dotted name in a process-wide list of names.
 *
 * Map iteration order is not modelled: the dictionary's keys and the host
 * affinities are taken in an order the method picks, and nothing is
 * claimed about it beyond what the sort removes.
 */
module ProtoBuilder {
  import opened Wrappers
  import opened Primitives
  import opened Proto
  import opened Holders
  import Utils

  // ---------------------------------------------------------------------
  // buildColumnTypeInfo and the sort of the dictionary

  /** buildColumnTypeInfo: the dotted name; a null type leaves the field unset. */
  function BuildColumnTypeInfo(c: ColumnTypeMetadata): (r: ColumnTypeInfo)
    ensures r.name == Utils.Join(c.name)
    ensures r.primitiveType.Some? <==> c.primitiveType.Some?
    ensures r.originalType.Some? <==> c.originalType.Some?
  {
    ColumnTypeInfo(Utils.Join(c.name), c.primitiveType, c.originalType)
  }

  /** A comparator seen as "compare(x, y) <= 0". */
  ghost predicate Total<T(!new)>(le: (T, T) -> bool) { forall x, y :: le(x, y) || le(y, x) }

  ghost predicate Reflexive<T(!new)>(le: (T, T) -> bool) { forall x :: le(x, x) }

  ghost predicate Transitive<T(!new)>(le: (T, T) -> bool) { forall x, y, z :: le(x, y) && le(y, z) ==> le(x, z) }

  predicate SortedBy<T>(s: seq<T>, le: (T, T) -> bool) {
    forall i, j | 0 <= i < j < |s| :: le(s[i], s[j])
  }

  /** One step of the stable sort: c goes after every entry that is not greater. */
  function Insert<T>(sorted: seq<T>, c: T, le: (T, T) -> bool): (r: seq<T>)
    ensures |r| == |sorted| + 1
  {
    if |sorted| == 0 then [c]
    else
      var last := sorted[|sorted| - 1];
      if le(last, c) then sorted + [c]
      else Insert(sorted[..|sorted| - 1], c, le) + [last]
  }

  /** Collections.sort(list, comparator): a stable sort. */
  function Sort<T>(s: seq<T>, le: (T, T) -> bool): (r: seq<T>)
    ensures |r| == |s|
  {
    if |s| == 0 then [] else Insert(Sort(s[..|s| - 1], le), s[|s| - 1], le)
  }

  lemma {:induction false} InsertPermutes<T>(sorted: seq<T>, c: T, le: (T, T) -> bool)
    ensures multiset(Insert(sorted, c, le)) == multiset(sorted) + multiset{c}
  {
    if |sorted| > 0 {
      var init, last := sorted[..|sorted| - 1], sorted[|sorted| - 1];
      assert sorted == init + [last];
      if !le(last, c) {
        InsertPermutes(init, c, le);
      }
    }
  }

  lemma {:induction false} InsertSorted<T(!new)>(sorted: seq<T>, c: T, le: (T, T) -> bool)
    requires Total(le) && Transitive(le)
    requires SortedBy(sorted, le)
    ensures SortedBy(Insert(sorted, c, le), le)
  {
    if |sorted| > 0 {
      var init, last := sorted[..|sorted| - 1], sorted[|sorted| - 1];
      if !le(last, c) {
        assert le(c, last);
        assert SortedBy(init, le);
        InsertSorted(init, c, le);
        InsertPermutes(init, c, le);
        var r := Insert(init, c, le);
        forall i | 0 <= i < |r|
          ensures le(r[i], last)
        {
          assert r[i] in multiset(init) + multiset{c};
          if r[i] != c {
            var k :| 0 <= k < |init| && init[k] == r[i];
            assert sorted[k] == r[i];
          }
        }
        assert Insert(sorted, c, le) == r + [last];
        SortedSnoc(r, last, le);
      } else {
        forall i | 0 <= i < |sorted|
          ensures le(sorted[i], c)
        {
          if i < |sorted| - 1 {
            assert le(sorted[i], last);
          }
        }
        SortedSnoc(sorted, c, le);
      }
    }
  }

  /** An entry not below any entry of a sorted list can go at its end. */
  lemma SortedSnoc<T>(s: seq<T>, x: T, le: (T, T) -> bool)
    requires SortedBy(s, le)
    requires forall i | 0 <= i < |s| :: le(s[i], x)
    ensures SortedBy(s + [x], le)
  {
    var t := s + [x];
    forall i, j | 0 <= i < j < |t|
      ensures le(t[i], t[j])
    {
      assert t[i] == s[i];
    }
  }

  /** The sorted list holds exactly the same entries, whatever the comparator. */
  lemma {:induction false} SortPermutes<T>(s: seq<T>, le: (T, T) -> bool)
    ensures multiset(Sort(s, le)) == multiset(s)
  {
    if |s| > 0 {
      var init, last := s[..|s| - 1], s[|s| - 1];
      SortPermutes(init, le);
      InsertPermutes(Sort(init, le), last, le);
      assert Sort(s, le) == Insert(Sort(init, le), last, le);
      assert s == init + [last];
      assert multiset(s) == multiset(init) + multiset{last};
    }
  }

  /** Under a total preorder the sorted list is ordered by the comparator. */
  lemma {:induction false} SortSorts<T(!new)>(s: seq<T>, le: (T, T) -> bool)
    requires Total(le) && Transitive(le)
    ensures SortedBy(Sort(s, le), le)
  {
    if |s| > 0 {
      var init := s[..|s| - 1];
      SortSorts(init, le);
      InsertSorted(Sort(init, le), s[|s| - 1], le);
    }
  }

  /** The sorted list is ordered by the comparator and holds exactly the same entries. */
  lemma SortSortsAndPermutes<T(!new)>(s: seq<T>, le: (T, T) -> bool)
    requires Total(le) && Transitive(le)
    ensures SortedBy(Sort(s, le), le)
    ensures multiset(Sort(s, le)) == multiset(s)
  {
    SortSorts(s, le);
    SortPermutes(s, le);
  }

  /** Entries the comparator cannot tell apart are the same entry. */
  ghost predicate TiesIdentify<T>(s: seq<T>, le: (T, T) -> bool) {
    forall i, j | 0 <= i < |s| && 0 <= j < |s| :: le(s[i], s[j]) && le(s[j], s[i]) ==> s[i] == s[j]
  }

  lemma RemoveAt<T>(s: seq<T>, j: nat)
    requires j < |s|
    ensures multiset(s[..j] + s[j + 1..]) == multiset(s) - multiset{s[j]}
  {
    assert s == s[..j] + [s[j]] + s[j + 1..];
    assert multiset(s) == multiset(s[..j]) + multiset{s[j]} + multiset(s[j + 1..]);
  }

  lemma TailsPermute<T>(a: seq<T>, b: seq<T>)
    requires |a| > 0 && |b| > 0 && a[0] == b[0]
    requires multiset(a) == multiset(b)
    ensures multiset(a[1..]) == multiset(b[1..])
  {
    TailMultiset(a);
    TailMultiset(b);
  }

  lemma TailMultiset<T>(s: seq<T>)
    requires |s| > 0
    ensures multiset(s[1..]) == multiset(s) - multiset{s[0]}
  {
    assert s == [s[0]] + s[1..];
  }

  /** The first entry of a sorted list is one that is not greater than any other. */
  lemma SortedHead<T(!new)>(a: seq<T>, x: T, le: (T, T) -> bool)
    requires Reflexive(le) && SortedBy(a, le)
    requires x in multiset(a)
    ensures |a| > 0 && le(a[0], x)
  {
    var j :| 0 <= j < |a| && a[j] == x;
    if j == 0 {
      assert le(x, x);
    }
  }

  lemma SortedTail<T>(a: seq<T>, le: (T, T) -> bool)
    requires |a| > 0 && SortedBy(a, le)
    ensures SortedBy(a[1..], le)
  {
    var t := a[1..];
    forall i, j | 0 <= i < j < |t|
      ensures le(t[i], t[j])
    {
      assert t[i] == a[i + 1] && t[j] == a[j + 1];
    }
  }

  lemma TiesIdentifyTail<T>(a: seq<T>, le: (T, T) -> bool)
    requires |a| > 0 && TiesIdentify(a, le)
    ensures TiesIdentify(a[1..], le)
  {
    var t := a[1..];
    forall i, j | 0 <= i < |t| && 0 <= j < |t| && le(t[i], t[j]) && le(t[j], t[i])
      ensures t[i] == t[j]
    {
      assert t[i] == a[i + 1] && t[j] == a[j + 1];
    }
  }

  /**
   * Two sorted lists of the same entries are equal when the comparator
   * ties no two different entries: then the order is decided by it alone.
   */
  lemma {:induction false} SortedUnique<T(!new)>(a: seq<T>, b: seq<T>, le: (T, T) -> bool)
    requires Reflexive(le)
    requires SortedBy(a, le) && SortedBy(b, le)
    requires multiset(a) == multiset(b)
    requires TiesIdentify(a, le)
    ensures a == b
  {
    if |a| == 0 {
      assert |multiset(b)| == 0;
    } else {
      assert a[0] in multiset(b);
      SortedHead(b, a[0], le);
      SortedHead(a, b[0], le);
      var i :| 0 <= i < |a| && a[i] == b[0];
      assert a[0] == b[0] by {
        assert le(a[0], a[i]) && le(a[i], a[0]);
      }
      TailsPermute(a, b);
      SortedTail(a, le);
      SortedTail(b, le);
      TiesIdentifyTail(a, le);
      SortedUnique(a[1..], b[1..], le);
      assert |a| == |b|;
      assert forall k | 0 < k < |a| :: a[k] == a[1..][k - 1] == b[1..][k - 1] == b[k];
    }
  }

  /** The comparator of buildFiles: by dotted name, as String.compareTo orders them. */
  predicate ByName(x: ColumnTypeInfo, y: ColumnTypeInfo) {
    Precedes(x.name, y.name)
  }

  lemma ByNameIsTotalPreorder()
    ensures Total(ByName) && Transitive(ByName)
  {
    forall x, y
      ensures ByName(x, y) || ByName(y, x)
    {
      PrecedesTotal(x.name, y.name);
    }
    forall x, y, z | ByName(x, y) && ByName(y, z)
      ensures ByName(x, z)
    {
      PrecedesTransitive(x.name, y.name, z.name);
    }
  }

  /** The dictionary sorted ascending by dotted name. */
  function SortByName(cols: seq<ColumnTypeInfo>): (r: seq<ColumnTypeInfo>)
    ensures |r| == |cols|
  {
    Sort(cols, ByName)
  }

  /** The sorted dictionary is ascending by name and holds exactly the same entries. */
  lemma SortByNameSortsAndPermutes(cols: seq<ColumnTypeInfo>)
    ensures forall i, j | 0 <= i < j < |cols| :: Precedes(SortByName(cols)[i].name, SortByName(cols)[j].name)
    ensures multiset(SortByName(cols)) == multiset(cols)
  {
    ByNameIsTotalPreorder();
    SortSortsAndPermutes(cols, ByName);
  }

  /** A listing of the keys of m, each exactly once, in the order a map iteration yields them. */
  predicate KeyOrder<K, V>(order: seq<K>, m: map<K, V>) {
    && (forall i | 0 <= i < |order| :: order[i] in m)
    && (forall k | k in m :: k in order)
    && (forall i, j | 0 <= i < j < |order| :: order[i] != order[j])
  }

  predicate AllIn<K, V>(order: seq<K>, m: map<K, V>) { forall i | 0 <= i < |order| :: order[i] in m }

  /** The dictionary entries of the map's values, taken in the given key order. */
  function InfosOf(m: map<KeyRef, ColumnTypeMetadata>, order: seq<KeyRef>): (r: seq<ColumnTypeInfo>)
    requires forall i | 0 <= i < |order| :: order[i] in m
    ensures |r| == |order| && forall i | 0 <= i < |order| :: r[i] == BuildColumnTypeInfo(m[order[i]])
  {
    seq(|order|, i requires 0 <= i < |order| => BuildColumnTypeInfo(m[order[i]]))
  }

  lemma {:induction false} DistinctMultiset<K>(s: seq<K>)
    requires forall i, j | 0 <= i < j < |s| :: s[i] != s[j]
    ensures forall x :: multiset(s)[x] == if x in s then 1 else 0
  {
    if |s| > 0 {
      var init, last := s[..|s| - 1], s[|s| - 1];
      DistinctMultiset(init);
      assert s == init + [last];
      assert last !in init by {
        forall k | 0 <= k < |init|
          ensures init[k] != last
        {
          assert init[k] == s[k];
        }
      }
    }
  }

  /** Any two listings of the same keys are permutations of each other. */
  lemma KeyOrdersPermute<V>(o1: seq<KeyRef>, o2: seq<KeyRef>, m: map<KeyRef, V>)
    requires KeyOrder(o1, m) && KeyOrder(o2, m)
    ensures multiset(o1) == multiset(o2)
  {
    DistinctMultiset(o1);
    DistinctMultiset(o2);
    forall x
      ensures multiset(o1)[x] == multiset(o2)[x]
    {
      assert x in o1 <==> x in m;
      assert x in o2 <==> x in m;
    }
  }

  /** While iterating over the keys: the keys taken so far are distinct, and with the rest they are all. */
  ghost predicate Collecting<K, V>(m: map<K, V>, order: seq<K>, remaining: set<K>) {
    && remaining <= m.Keys
    && (forall i | 0 <= i < |order| :: order[i] in m && order[i] !in remaining)
    && (forall k | k in m && k !in remaining :: k in order)
    && (forall i, j | 0 <= i < j < |order| :: order[i] != order[j])
  }

  /** Taking one more key keeps the iteration's invariant. */
  lemma CollectStep<K, V>(m: map<K, V>, order: seq<K>, remaining: set<K>, key: K)
    requires Collecting(m, order, remaining) && key in remaining
    ensures Collecting(m, order + [key], remaining - {key})
  {
    var o := order + [key];
    forall k | k in m && k !in remaining - {key}
      ensures k in o
    {
      if k != key {
        assert k in order;
        var i :| 0 <= i < |order| && order[i] == k;
        assert o[i] == k;
      } else {
        assert o[|order|] == k;
      }
    }
  }

  lemma InfosOfConcat(m: map<KeyRef, ColumnTypeMetadata>, a: seq<KeyRef>, b: seq<KeyRef>)
    requires forall i | 0 <= i < |a| :: a[i] in m
    requires forall i | 0 <= i < |b| :: b[i] in m
    ensures InfosOf(m, a + b) == InfosOf(m, a) + InfosOf(m, b)
  {
  }

  lemma InfosOfRemoveAt(m: map<KeyRef, ColumnTypeMetadata>, o: seq<KeyRef>, j: nat)
    requires forall i | 0 <= i < |o| :: o[i] in m
    requires j < |o|
    ensures AllIn(o[..j] + o[j + 1..], m)
    ensures InfosOf(m, o[..j] + o[j + 1..]) == InfosOf(m, o)[..j] + InfosOf(m, o)[j + 1..]
  {
    var f := InfosOf(m, o);
    assert InfosOf(m, o[..j]) == f[..j];
    assert InfosOf(m, o[j + 1..]) == f[j + 1..];
    InfosOfConcat(m, o[..j], o[j + 1..]);
  }

  lemma PutBack<T>(s: seq<T>, j: nat)
    requires j < |s|
    ensures multiset(s) == multiset(s[..j] + s[j + 1..]) + multiset{s[j]}
  {
    RemoveAt(s, j);
    assert s[j] in multiset(s);
  }

  /** Permuting the keys permutes the entries. */
  lemma {:induction false} InfosOfPermutes(m: map<KeyRef, ColumnTypeMetadata>, o1: seq<KeyRef>, o2: seq<KeyRef>)
    requires forall i | 0 <= i < |o1| :: o1[i] in m
    requires forall i | 0 <= i < |o2| :: o2[i] in m
    requires multiset(o1) == multiset(o2)
    ensures multiset(InfosOf(m, o1)) == multiset(InfosOf(m, o2))
  {
    if |o1| == 0 {
      assert |multiset(o2)| == 0;
    } else {
      var n := |o1| - 1;
      var x := o1[n];
      assert x in multiset(o2);
      var j :| 0 <= j < |o2| && o2[j] == x;
      var init, rest := o1[..n] + o1[n + 1..], o2[..j] + o2[j + 1..];
      RemoveAt(o1, n);
      RemoveAt(o2, j);
      InfosOfRemoveAt(m, o1, n);
      InfosOfRemoveAt(m, o2, j);
      InfosOfPermutes(m, init, rest);
      var f1, f2 := InfosOf(m, o1), InfosOf(m, o2);
      PutBack(f1, n);
      PutBack(f2, j);
    }
  }

  /** No two keys of the map carry entries with the same dotted name but different types. */
  predicate DottedNamesIdentify(m: map<KeyRef, ColumnTypeMetadata>) {
    forall k1, k2 | k1 in m && k2 in m ::
      Utils.Join(m[k1].name) == Utils.Join(m[k2].name) ==> BuildColumnTypeInfo(m[k1]) == BuildColumnTypeInfo(m[k2])
  }

  /** Entries with the same name are the same entry. */
  predicate NamesIdentify(s: seq<ColumnTypeInfo>) {
    forall i, j | 0 <= i < |s| && 0 <= j < |s| :: s[i].name == s[j].name ==> s[i] == s[j]
  }

  lemma InfosNamesIdentify(m: map<KeyRef, ColumnTypeMetadata>, o: seq<KeyRef>)
    requires AllIn(o, m) && DottedNamesIdentify(m)
    ensures NamesIdentify(InfosOf(m, o))
  {
  }

  lemma NamesIdentifyPermutation(a: seq<ColumnTypeInfo>, b: seq<ColumnTypeInfo>)
    requires multiset(a) == multiset(b) && NamesIdentify(a)
    ensures NamesIdentify(b)
  {
    forall i, j | 0 <= i < |b| && 0 <= j < |b| && b[i].name == b[j].name
      ensures b[i] == b[j]
    {
      assert b[i] in multiset(a) && b[j] in multiset(a);
      var p :| 0 <= p < |a| && a[p] == b[i];
      var q :| 0 <= q < |a| && a[q] == b[j];
    }
  }

  lemma NamesIdentifyTies(s: seq<ColumnTypeInfo>)
    requires NamesIdentify(s)
    ensures TiesIdentify(s, ByName)
  {
    forall i, j | 0 <= i < |s| && 0 <= j < |s| && ByName(s[i], s[j]) && ByName(s[j], s[i])
      ensures s[i] == s[j]
    {
      PrecedesAntisymmetric(s[i].name, s[j].name);
    }
  }

  lemma ByNameReflexive()
    ensures Reflexive(ByName)
  {
    forall x
      ensures ByName(x, x)
    {
      PrecedesTotal(x.name, x.name);
    }
  }

  /**
   * The sorted dictionary does not depend on the map's iteration order,
   * provided that entries sharing a dotted name agree on their types.
   */
  lemma DictionaryIndependentOfKeyOrder(m: map<KeyRef, ColumnTypeMetadata>, o1: seq<KeyRef>, o2: seq<KeyRef>)
    requires KeyOrder(o1, m) && KeyOrder(o2, m)
    requires DottedNamesIdentify(m)
    ensures SortByName(InfosOf(m, o1)) == SortByName(InfosOf(m, o2))
  {
    var a, b := InfosOf(m, o1), InfosOf(m, o2);
    KeyOrdersPermute(o1, o2, m);
    InfosOfPermutes(m, o1, o2);
    ByNameIsTotalPreorder();
    ByNameReflexive();
    SortSortsAndPermutes(a, ByName);
    SortSortsAndPermutes(b, ByName);
    var sa := Sort(a, ByName);
    InfosNamesIdentify(m, o1);
    NamesIdentifyPermutation(a, sa);
    NamesIdentifyTies(sa);
    SortedUnique(sa, Sort(b, ByName), ByName);
  }

  /**
   * The promise fails when two entries join to the same dotted name with
   * different types: then the stable sort keeps them in iteration order.
   */
  lemma CollidingNamesFollowKeyOrder()
    ensures var k1, k2 := NameKey(["a.b"]), NameKey(["a", "b"]);
            var m := map[k1 := NewColumnTypeMetadata(["a.b"], Some(INT32), None),
                         k2 := NewColumnTypeMetadata(["a", "b"], Some(INT64), None)];
            && KeyOrder([k1, k2], m) && KeyOrder([k2, k1], m)
            && SortByName(InfosOf(m, [k1, k2])) != SortByName(InfosOf(m, [k2, k1]))
  {
    var k1, k2 := NameKey(["a.b"]), NameKey(["a", "b"]);
    var m := map[k1 := NewColumnTypeMetadata(["a.b"], Some(INT32), None),
                 k2 := NewColumnTypeMetadata(["a", "b"], Some(INT64), None)];
    assert Utils.Join(["a", "b"]) == "a.b";
    var i1, i2 := BuildColumnTypeInfo(m[k1]), BuildColumnTypeInfo(m[k2]);
    assert i1.name == i2.name == "a.b";
    PrecedesTotal("a.b", "a.b");
    assert ByName(i1, i2) && ByName(i2, i1);
    assert InfosOf(m, [k1, k2]) == [i1, i2];
    assert InfosOf(m, [k2, k1]) == [i2, i1];
    SortPairInOrder(i1, i2, ByName);
    SortPairInOrder(i2, i1, ByName);
  }

  /** Two entries already in order stay where they are. */
  lemma SortPairInOrder<T>(x: T, y: T, le: (T, T) -> bool)
    requires le(x, y)
    ensures Sort([x, y], le) == [x, y]
  {
    assert [x, y][..1] == [x];
  }

  // ---------------------------------------------------------------------
  // getColumnId and buildRowGroupColumn

  /**
   * getColumnId: the first position of the dotted name in the name list,
   * or an error naming the column.
   */
  function GetColumnId(registry: seq<string>, columnName: seq<string>): (r: Result<int>)
    ensures r.Err? <==> Utils.Join(columnName) !in registry
    ensures r.Err? ==> r.error == ColumnNotFound(Utils.Join(columnName))
    ensures r.Ok? ==> && 0 <= r.value < |registry| && registry[r.value] == Utils.Join(columnName)
                      && forall j | 0 <= j < r.value :: registry[j] != Utils.Join(columnName)
  {
    var name := Utils.Join(columnName);
    var nameId := Utils.IndexOf(registry, name);
    if nameId == -1 then Err(ColumnNotFound(name)) else Ok(nameId)
  }

  /** The wire record holds exactly the variant for the statistic's class, or none. */
  predicate CarriesValue(c: Proto.ColumnMetadata, v: Option<MxValue>) {
    match v
    case None => c.vbinary.None? && c.vbool.None? && c.vdouble.None? && c.vfloat.None? && c.vint32.None? && c.vint64.None?
    case Some(MxBytes(b)) => c.vbinary == Some(b) && c.vbool.None? && c.vdouble.None? && c.vfloat.None? && c.vint32.None? && c.vint64.None?
    case Some(MxBool(b)) => c.vbinary.None? && c.vbool == Some(b) && c.vdouble.None? && c.vfloat.None? && c.vint32.None? && c.vint64.None?
    case Some(MxDouble(d)) => c.vbinary.None? && c.vbool.None? && c.vdouble == Some(d) && c.vfloat.None? && c.vint32.None? && c.vint64.None?
    case Some(MxFloat(f)) => c.vbinary.None? && c.vbool.None? && c.vdouble.None? && c.vfloat == Some(f) && c.vint32.None? && c.vint64.None?
    case Some(MxInt(i)) => c.vbinary.None? && c.vbool.None? && c.vdouble.None? && c.vfloat.None? && c.vint32 == Some(i) && c.vint64.None?
    case Some(MxLong(l)) => c.vbinary.None? && c.vbool.None? && c.vdouble.None? && c.vfloat.None? && c.vint32.None? && c.vint64 == Some(l)
    case Some(MxOther(_)) => false
  }

  /** The null count as written: a count of 0 is not written at all. */
  function WrittenNulls(nulls: Option<int>): (r: Option<int>)
    ensures r.None? <==> nulls.None? || nulls == Some(0)
    ensures r.Some? ==> r == nulls
  {
    if nulls == Some(0) then None else nulls
  }

  /**
   * buildRowGroupColumn: None means "no record". The id is looked up
   * before the statistic's class is examined, so a missing name is
   * reported first.
   */
  function BuildRowGroupColumn(registry: seq<string>, column: Holders.ColumnMetadata)
    : (r: Result<Option<Proto.ColumnMetadata>>)
    ensures r == Ok(None) <==> WrittenNulls(column.nulls).None? && column.mxValue.None?
    ensures r.Ok? && r.value.Some? ==>
              var c := r.value.value;
              && GetColumnId(registry, column.name) == Ok(c.name)
              && c.nulls == WrittenNulls(column.nulls)
              && CarriesValue(c, column.mxValue)
    ensures r.Err? <==> (WrittenNulls(column.nulls).Some? || column.mxValue.Some?)
                        && (GetColumnId(registry, column.name).Err? || (column.mxValue.Some? && column.mxValue.value.MxOther?))
    ensures r.Err? && GetColumnId(registry, column.name).Err? ==> r.error == GetColumnId(registry, column.name).error
    ensures r.Err? && GetColumnId(registry, column.name).Ok? ==> r.error == UnrecognizedValueType(column.mxValue.value.className)
  {
    var nulls := WrittenNulls(column.nulls);
    if nulls.None? && column.mxValue.None? then Ok(None)
    else
      var nameId :- GetColumnId(registry, column.name);
      var c := Proto.ColumnMetadata(nameId, nulls, None, None, None, None, None, None);
      match column.mxValue
      case None => Ok(Some(c))
      case Some(MxLong(l)) => Ok(Some(c.(vint64 := Some(l))))
      case Some(MxInt(i)) => Ok(Some(c.(vint32 := Some(i))))
      case Some(MxBool(b)) => Ok(Some(c.(vbool := Some(b))))
      case Some(MxBytes(b)) => Ok(Some(c.(vbinary := Some(b))))
      case Some(MxFloat(f)) => Ok(Some(c.(vfloat := Some(f))))
      case Some(MxDouble(d)) => Ok(Some(c.(vdouble := Some(d))))
      case Some(MxOther(className)) => Err(UnrecognizedValueType(className))
  }

  // ---------------------------------------------------------------------
  // The specifications of the builder's loops

  /** The kept wire records of the row-group columns from index i on, in order. */
  function ColumnsFrom(registry: seq<string>, columns: seq<Holders.ColumnMetadata>, i: nat)
    : (r: Result<seq<Proto.ColumnMetadata>>)
    requires i <= |columns|
    ensures r.Ok? ==> |r.value| <= |columns| - i
    decreases |columns| - i
  {
    if i == |columns| then Ok([])
    else
      var c :- BuildRowGroupColumn(registry, columns[i]);
      var rest :- ColumnsFrom(registry, columns, i + 1);
      Ok((if c.Some? then [c.value] else []) + rest)
  }

  function AffinityKeys(affinities: seq<HostAffinity>): (r: seq<string>)
    ensures |r| == |affinities| && forall i | 0 <= i < |affinities| :: r[i] == affinities[i].key
  {
    seq(|affinities|, i requires 0 <= i < |affinities| => affinities[i].key)
  }

  /** A listing of the map, each key once with its value: what iterating over keySet emits. */
  predicate ListsAffinities(affinities: seq<HostAffinity>, m: map<string, Float32>) {
    && (forall i | 0 <= i < |affinities| :: affinities[i].key in m && m[affinities[i].key] == affinities[i].value)
    && (forall k | k in m :: k in AffinityKeys(affinities))
    && (forall i, j | 0 <= i < j < |affinities| :: affinities[i].key != affinities[j].key)
  }

  /** A row group with its affinities left out: everything the builder determines. */
  function Shape(g: RowGroup): RowGroup { g.(affinities := []) }

  function Shapes(gs: seq<RowGroup>): (r: seq<RowGroup>)
    ensures |r| == |gs| && forall i | 0 <= i < |gs| :: r[i] == Shape(gs[i])
  {
    seq(|gs|, i requires 0 <= i < |gs| => Shape(gs[i]))
  }

  /** buildRowGroup, affinities aside: the counters copied and the kept columns in order. */
  function RowGroupShape(registry: seq<string>, g: RowGroupMetadata): Result<RowGroup> {
    var columns :- ColumnsFrom(registry, g.columns, 0);
    Ok(RowGroup(g.start, g.length, g.rowCount, [], columns))
  }

  function RowGroupShapesFrom(registry: seq<string>, groups: seq<RowGroupMetadata>, i: nat)
    : (r: Result<seq<RowGroup>>)
    requires i <= |groups|
    ensures r.Ok? ==> |r.value| == |groups| - i
                      && forall j | 0 <= j < |r.value| :: RowGroupShape(registry, groups[i + j]) == Ok(r.value[j])
    decreases |groups| - i
  {
    if i == |groups| then Ok([])
    else
      var g :- RowGroupShape(registry, groups[i]);
      var rest :- RowGroupShapesFrom(registry, groups, i + 1);
      Ok([g] + rest)
  }

  /** The affinities of each built row group list that row group's map. */
  predicate AffinitiesListed(built: seq<RowGroup>, groups: seq<RowGroupMetadata>) {
    && |built| == |groups|
    && forall k | 0 <= k < |built| :: ListsAffinities(built[k].affinities, groups[k].hostAffinity)
  }

  function FileShape(registry: seq<string>, f: Holders.ParquetFileMetadata): Result<Proto.ParquetFileMetadata> {
    var groups :- RowGroupShapesFrom(registry, f.rowGroups, 0);
    Ok(Proto.ParquetFileMetadata(f.path, f.length, groups))
  }

  function ShapeOfFile(p: Proto.ParquetFileMetadata): Proto.ParquetFileMetadata {
    p.(rowGroups := Shapes(p.rowGroups))
  }

  function ShapesOfFiles(ps: seq<Proto.ParquetFileMetadata>): (r: seq<Proto.ParquetFileMetadata>)
    ensures |r| == |ps| && forall i | 0 <= i < |ps| :: r[i] == ShapeOfFile(ps[i])
  {
    seq(|ps|, i requires 0 <= i < |ps| => ShapeOfFile(ps[i]))
  }

  function FilesShapeFrom(registry: seq<string>, files: seq<Holders.ParquetFileMetadata>, i: nat)
    : (r: Result<seq<Proto.ParquetFileMetadata>>)
    requires i <= |files|
    ensures r.Ok? ==> |r.value| == |files| - i
                      && forall j | 0 <= j < |r.value| :: FileShape(registry, files[i + j]) == Ok(r.value[j])
    decreases |files| - i
  {
    if i == |files| then Ok([])
    else
      var f :- FileShape(registry, files[i]);
      var rest :- FilesShapeFrom(registry, files, i + 1);
      Ok([f] + rest)
  }

  /** The affinities of every built file's row groups list the source maps. */
  predicate FilesAffinitiesListed(built: seq<Proto.ParquetFileMetadata>, files: seq<Holders.ParquetFileMetadata>) {
    && |built| == |files|
    && forall k | 0 <= k < |built| :: AffinitiesListed(built[k].rowGroups, files[k].rowGroups)
  }

  /** One more row group built: its shape follows the others and its affinities list the i-th map. */
  lemma RowGroupListed(built: seq<RowGroup>, groups: seq<RowGroupMetadata>, i: nat, g: RowGroup)
    requires i < |groups| && AffinitiesListed(built, groups[..i])
    requires ListsAffinities(g.affinities, groups[i].hostAffinity)
    ensures Shapes(built + [g]) == Shapes(built) + [Shape(g)]
    ensures AffinitiesListed(built + [g], groups[..i + 1])
  {
    assert groups[..i + 1] == groups[..i] + [groups[i]];
  }

  /** One more file built: its shape follows the others and its row groups list the i-th file's maps. */
  lemma FileListed(built: seq<Proto.ParquetFileMetadata>, files: seq<Holders.ParquetFileMetadata>, i: nat,
                   f: Proto.ParquetFileMetadata)
    requires i < |files| && FilesAffinitiesListed(built, files[..i])
    requires AffinitiesListed(f.rowGroups, files[i].rowGroups)
    ensures ShapesOfFiles(built + [f]) == ShapesOfFiles(built) + [ShapeOfFile(f)]
    ensures FilesAffinitiesListed(built + [f], files[..i + 1])
  {
    assert files[..i + 1] == files[..i] + [files[i]];
  }

  /** The dotted names of the dictionary, in order: what buildFiles appends to the name list. */
  function NamesOf(cols: seq<ColumnTypeInfo>): (r: seq<string>)
    ensures |r| == |cols| && forall i | 0 <= i < |cols| :: r[i] == cols[i].name
  {
    seq(|cols|, i requires 0 <= i < |cols| => cols[i].name)
  }

  // ---------------------------------------------------------------------
  // The loops of the builder

  /** A column record that buildRowGroupColumn does not skip. */
  predicate HasData(c: Holders.ColumnMetadata) { WrittenNulls(c.nulls).Some? || c.mxValue.Some? }

  /** The columns from index i on that have something to record, in order. */
  function Kept(columns: seq<Holders.ColumnMetadata>, i: nat): (r: seq<Holders.ColumnMetadata>)
    requires i <= |columns|
    ensures forall j | 0 <= j < |r| :: HasData(r[j])
    decreases |columns| - i
  {
    if i == |columns| then []
    else (if HasData(columns[i]) then [columns[i]] else []) + Kept(columns, i + 1)
  }

  /** The row-group columns are built exactly when every column builds; otherwise the first failure. */
  lemma {:induction false} ColumnsFromFails(registry: seq<string>, columns: seq<Holders.ColumnMetadata>, i: nat)
    requires i <= |columns|
    ensures ColumnsFrom(registry, columns, i).Ok?
            <==> forall k | i <= k < |columns| :: BuildRowGroupColumn(registry, columns[k]).Ok?
    ensures ColumnsFrom(registry, columns, i).Err? ==>
              exists k | i <= k < |columns| ::
                && BuildRowGroupColumn(registry, columns[k]) == Err(ColumnsFrom(registry, columns, i).error)
                && forall j | i <= j < k :: BuildRowGroupColumn(registry, columns[j]).Ok?
    decreases |columns| - i
  {
    if i < |columns| {
      ColumnsFromFails(registry, columns, i + 1);
      var c := BuildRowGroupColumn(registry, columns[i]);
      var here, rest := ColumnsFrom(registry, columns, i), ColumnsFrom(registry, columns, i + 1);
      if c.Err? {
        assert here == Err(c.error);
      } else {
        assert here.Ok? <==> rest.Ok?;
        if rest.Err? {
          assert here.error == rest.error;
          var k :| i + 1 <= k < |columns| && BuildRowGroupColumn(registry, columns[k]) == Err(rest.error)
                   && forall j | i + 1 <= j < k :: BuildRowGroupColumn(registry, columns[j]).Ok?;
          assert forall j | i <= j < k :: BuildRowGroupColumn(registry, columns[j]).Ok?;
        }
      }
    }
  }

  /** Built row-group columns: one record per column with data, in order. */
  lemma {:induction false} ColumnsFromKept(registry: seq<string>, columns: seq<Holders.ColumnMetadata>, i: nat)
    requires i <= |columns|
    requires ColumnsFrom(registry, columns, i).Ok?
    ensures var built, kept := ColumnsFrom(registry, columns, i).value, Kept(columns, i);
            && |built| == |kept|
            && forall j | 0 <= j < |built| :: BuildRowGroupColumn(registry, kept[j]) == Ok(Some(built[j]))
    decreases |columns| - i
  {
    if i < |columns| {
      ColumnsFromKept(registry, columns, i + 1);
      var c := BuildRowGroupColumn(registry, columns[i]);
      var built := ColumnsFrom(registry, columns, i).value;
      var rest := ColumnsFrom(registry, columns, i + 1).value;
      var kept := Kept(columns, i + 1);
      if c.value.Some? {
        assert built == [c.value.value] + rest;
        assert Kept(columns, i) == [columns[i]] + kept;
      } else {
        assert built == rest;
        assert Kept(columns, i) == kept;
      }
    }
  }

  /**
   * With a name list that held nothing before this buildFiles call, every
   * id written into a row group is the position in this call's dictionary
   * of that column's dotted name.
   */
  lemma FreshListIdsIndexDictionary(dictionary: seq<ColumnTypeInfo>, columns: seq<Holders.ColumnMetadata>)
    requires ColumnsFrom(NamesOf(dictionary), columns, 0).Ok?
    ensures var built, kept := ColumnsFrom(NamesOf(dictionary), columns, 0).value, Kept(columns, 0);
            && |built| == |kept|
            && forall j | 0 <= j < |built| ::
                 0 <= built[j].name < |dictionary| && dictionary[built[j].name].name == Utils.Join(kept[j].name)
  {
    ColumnsFromKept(NamesOf(dictionary), columns, 0);
  }

  /**
   * The name list is never cleared: after a build for a table with column
   * "b" and one for a table with columns "a" and "b", column "b" gets id 0,
   * which is "a" in the second dictionary.
   */
  lemma SharedListKeepsStaleIds()
    ensures var second := [ColumnTypeInfo("a", None, None), ColumnTypeInfo("b", None, None)];
            var names := ["b"] + NamesOf(second);
            && GetColumnId(names, ["b"]) == Ok(0)
            && second[0].name == "a"
  {
    var second := [ColumnTypeInfo("a", None, None), ColumnTypeInfo("b", None, None)];
    assert ["b"] + NamesOf(second) == ["b", "a", "b"];
    assert Utils.Join(["b"]) == "b";
  }

  /** The host-affinity loop: one entry per key of the map, in the order the iteration picks. */
  method ListAffinities(hostAffinity: map<string, Float32>) returns (affinities: seq<HostAffinity>)
    ensures ListsAffinities(affinities, hostAffinity)
  {
    affinities := [];
    var remaining := hostAffinity.Keys;
    while remaining != {}
      invariant remaining <= hostAffinity.Keys
      invariant forall i | 0 <= i < |affinities| ::
                  && affinities[i].key in hostAffinity && affinities[i].key !in remaining
                  && hostAffinity[affinities[i].key] == affinities[i].value
      invariant forall k | k in hostAffinity && k !in remaining :: k in AffinityKeys(affinities)
      invariant forall i, j | 0 <= i < j < |affinities| :: affinities[i].key != affinities[j].key
      decreases |remaining|
    {
      var name :| name in remaining;
      assert AffinityKeys(affinities + [HostAffinity(name, hostAffinity[name])])
          == AffinityKeys(affinities) + [name];
      affinities := affinities + [HostAffinity(name, hostAffinity[name])];
      remaining := remaining - {name};
    }
  }

  /** The column loop of buildRowGroup: a column with nothing to record is skipped. */
  method BuildRowGroupColumns(registry: seq<string>, columns: seq<Holders.ColumnMetadata>)
    returns (r: Result<seq<Proto.ColumnMetadata>>)
    ensures r == ColumnsFrom(registry, columns, 0)
  {
    ghost var spec := ColumnsFrom(registry, columns, 0);
    PrependedNothing(spec);
    var built: seq<Proto.ColumnMetadata> := [];
    var i := 0;
    while i < |columns|
      invariant 0 <= i <= |columns|
      invariant spec == Prepended(built, ColumnsFrom(registry, columns, i))
    {
      var c := BuildRowGroupColumn(registry, columns[i]);
      if c.Err? {
        return Err(c.error);
      }
      var kept := if c.value.Some? then [c.value.value] else [];
      PrependedTwice(built, kept, ColumnsFrom(registry, columns, i + 1));
      built := built + kept;
      i := i + 1;
    }
    PrependedToEmpty(built);
    return Ok(built);
  }

  /** The process-wide list of dotted names; it is only ever appended to. */
  class ColumnNames {
    var names: seq<string>

    constructor ()
      ensures names == []
    {
      names := [];
    }
  }

  class ProtoBuilder {
    const tableMetadata: ParquetTableMetadata
    const columnNames: ColumnNames

    /** Every builder shares the one name list it is given. */
    constructor (tableMetadata: ParquetTableMetadata, columnNames: ColumnNames)
      ensures this.tableMetadata == tableMetadata && this.columnNames == columnNames
    {
      this.tableMetadata := tableMetadata;
      this.columnNames := columnNames;
    }

    /** buildHeader: the given version and the table's directories, in order. */
    function BuildHeader(version: string): (r: MetadataHeader)
      reads tableMetadata
      ensures r.metadataVersion == version
      ensures r.directories == tableMetadata.directories
    {
      MetadataHeader(version, tableMetadata.directories)
    }

    /** buildRowGroup: counters copied, every affinity listed once, the recorded columns in order. */
    method BuildRowGroup(g: RowGroupMetadata) returns (r: Result<RowGroup>)
      ensures r.Err? ==> RowGroupShape(columnNames.names, g) == Err(r.error)
      ensures r.Ok? ==> RowGroupShape(columnNames.names, g) == Ok(Shape(r.value))
      ensures r.Ok? ==> ListsAffinities(r.value.affinities, g.hostAffinity)
    {
      var affinities := ListAffinities(g.hostAffinity);
      var columns := BuildRowGroupColumns(columnNames.names, g.columns);
      if columns.Err? {
        return Err(columns.error);
      }
      return Ok(RowGroup(g.start, g.length, g.rowCount, affinities, columns.value));
    }

    /** buildFile: path and length copied, then every row group in order. */
    method BuildFile(f: Holders.ParquetFileMetadata) returns (r: Result<Proto.ParquetFileMetadata>)
      ensures r.Err? ==> FileShape(columnNames.names, f) == Err(r.error)
      ensures r.Ok? ==> FileShape(columnNames.names, f) == Ok(ShapeOfFile(r.value))
      ensures r.Ok? ==> AffinitiesListed(r.value.rowGroups, f.rowGroups)
    {
      ghost var spec := RowGroupShapesFrom(columnNames.names, f.rowGroups, 0);
      PrependedNothing(spec);
      var built: seq<RowGroup> := [];
      var i := 0;
      while i < |f.rowGroups|
        invariant 0 <= i <= |f.rowGroups|
        invariant spec == Prepended(Shapes(built), RowGroupShapesFrom(columnNames.names, f.rowGroups, i))
        invariant AffinitiesListed(built, f.rowGroups[..i])
      {
        var g := BuildRowGroup(f.rowGroups[i]);
        if g.Err? {
          return Err(g.error);
        }
        PrependedTwice(Shapes(built), [Shape(g.value)], RowGroupShapesFrom(columnNames.names, f.rowGroups, i + 1));
        RowGroupListed(built, f.rowGroups, i, g.value);
        built := built + [g.value];
        i := i + 1;
      }
      PrependedToEmpty(Shapes(built));
      assert f.rowGroups[..i] == f.rowGroups;
      return Ok(Proto.ParquetFileMetadata(f.path, f.length, built));
    }

    /** The dictionary loop: one entry per key of the map, in the order the iteration picks. */
    method CollectColumnTypeInfos() returns (cols: seq<ColumnTypeInfo>, ghost order: seq<KeyRef>)
      ensures KeyOrder(order, tableMetadata.columnTypeInfo)
      ensures cols == InfosOf(tableMetadata.columnTypeInfo, order)
    {
      var m := tableMetadata.columnTypeInfo;
      cols, order := [], [];
      var remaining := m.Keys;
      while remaining != {}
        invariant Collecting(m, order, remaining)
        invariant cols == InfosOf(m, order)
        decreases |remaining|
      {
        var key :| key in remaining;
        InfosOfConcat(m, order, [key]);
        assert InfosOf(m, [key]) == [BuildColumnTypeInfo(m[key])];
        CollectStep(m, order, remaining, key);
        cols := cols + [BuildColumnTypeInfo(m[key])];
        order := order + [key];
        remaining := remaining - {key};
      }
    }

    /** The file loop of buildFiles, against a fixed name list. */
    method BuildFileList(files: seq<Holders.ParquetFileMetadata>) returns (r: Result<seq<Proto.ParquetFileMetadata>>)
      ensures r.Err? ==> FilesShapeFrom(columnNames.names, files, 0) == Err(r.error)
      ensures r.Ok? ==> FilesShapeFrom(columnNames.names, files, 0) == Ok(ShapesOfFiles(r.value))
      ensures r.Ok? ==> FilesAffinitiesListed(r.value, files)
    {
      ghost var spec := FilesShapeFrom(columnNames.names, files, 0);
      PrependedNothing(spec);
      var built: seq<Proto.ParquetFileMetadata> := [];
      var i := 0;
      while i < |files|
        invariant 0 <= i <= |files|
        invariant spec == Prepended(ShapesOfFiles(built), FilesShapeFrom(columnNames.names, files, i))
        invariant FilesAffinitiesListed(built, files[..i])
      {
        var f := BuildFile(files[i]);
        if f.Err? {
          return Err(f.error);
        }
        PrependedTwice(ShapesOfFiles(built), [ShapeOfFile(f.value)], FilesShapeFrom(columnNames.names, files, i + 1));
        FileListed(built, files, i, f.value);
        built := built + [f.value];
        i := i + 1;
      }
      PrependedToEmpty(ShapesOfFiles(built));
      assert files[..i] == files;
      return Ok(built);
    }

    /**
     * buildFiles: the dictionary sorted by dotted name; its names appended
     * to the shared list (before any file is built, so also when a file
     * fails); then every file, its column ids looked up in the grown list.
     */
    method BuildFiles() returns (r: Result<MetadataFiles>, ghost order: seq<KeyRef>)
      modifies columnNames
      ensures KeyOrder(order, tableMetadata.columnTypeInfo)
      ensures var cols := SortByName(InfosOf(tableMetadata.columnTypeInfo, order));
              && columnNames.names == old(columnNames.names) + NamesOf(cols)
              && (r.Ok? ==> r.value.columns == cols)
      ensures r.Err? ==> FilesShapeFrom(columnNames.names, tableMetadata.files, 0) == Err(r.error)
      ensures r.Ok? ==> FilesShapeFrom(columnNames.names, tableMetadata.files, 0) == Ok(ShapesOfFiles(r.value.files))
      ensures r.Ok? ==> FilesAffinitiesListed(r.value.files, tableMetadata.files)
    {
      var cols;
      cols, order := CollectColumnTypeInfos();
      cols := SortByName(cols);
      columnNames.names := columnNames.names + NamesOf(cols);
      var files := BuildFileList(tableMetadata.files);
      if files.Err? {
        return Err(files.error), order;
      }
      return Ok(MetadataFiles(cols, files.value)), order;
    }
  }
}
