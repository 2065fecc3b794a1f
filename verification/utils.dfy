/**
 * Shared helpers: the "." name joiner, reading a JSON array of strings, and
 * the section-by-section comparison of two binary caches (as the list of
 * lines it would print).
 */
module Utils {
  import opened Wrappers
  import opened Primitives
  import opened JsonTree
  import Proto

  // ---------------------------------------------------------------------
  // COLUMN_NAME_JOINER

  predicate DotFree(s: string) { forall i | 0 <= i < |s| :: s[i] != '.' }

  /** COLUMN_NAME_JOINER.join: the segments in order, separated by ".". */
  function Join(parts: seq<string>): (r: string)
    ensures |parts| == 1 ==> r == parts[0]
  {
    if |parts| == 0 then ""
    else if |parts| == 1 then parts[0]
    else Join(parts[..|parts| - 1]) + "." + parts[|parts| - 1]
  }

  /** Splitting on a literal ".", keeping empty segments: the inverse of Join. */
  function SplitOnDot(s: string): (r: seq<string>)
    ensures |r| >= 1
  {
    if |s| == 0 then [""]
    else
      var init := SplitOnDot(s[..|s| - 1]);
      if s[|s| - 1] == '.' then init + [""]
      else init[..|init| - 1] + [init[|init| - 1] + [s[|s| - 1]]]
  }

  /** Appending dot-free text only extends the last segment. */
  lemma {:induction false} SplitOnDotExtend(x: string, y: string)
    requires DotFree(y)
    ensures var sx := SplitOnDot(x);
            SplitOnDot(x + y) == sx[..|sx| - 1] + [sx[|sx| - 1] + y]
  {
    var sx := SplitOnDot(x);
    if |y| == 0 {
      assert x + y == x;
      assert sx[|sx| - 1] + y == sx[|sx| - 1];
      assert sx[..|sx| - 1] + [sx[|sx| - 1]] == sx;
    } else {
      var y', c := y[..|y| - 1], y[|y| - 1];
      assert (x + y)[..|x + y| - 1] == x + y';
      assert (x + y)[|x + y| - 1] == c != '.';
      SplitOnDotExtend(x, y');
      var init := SplitOnDot(x + y');
      assert init[..|init| - 1] == sx[..|sx| - 1];
      assert init[|init| - 1] == sx[|sx| - 1] + y';
      assert SplitOnDot(x + y) == init[..|init| - 1] + [init[|init| - 1] + [c]];
      LastSplit(y);
      AppendAssoc(sx[|sx| - 1], y', [c]);
    }
  }

  lemma LastSplit<T>(s: seq<T>)
    requires |s| > 0
    ensures s[..|s| - 1] + [s[|s| - 1]] == s
  {
  }

  lemma AppendAssoc<T>(a: seq<T>, b: seq<T>, c: seq<T>)
    ensures a + b + c == a + (b + c)
  {
  }

  lemma SplitOnDotSeparator(x: string, y: string)
    requires DotFree(y)
    ensures SplitOnDot(x + "." + y) == SplitOnDot(x) + [y]
  {
    var xd := x + ".";
    assert xd[..|xd| - 1] == x;
    assert SplitOnDot(xd) == SplitOnDot(x) + [""];
    SplitOnDotExtend(xd, y);
    assert "" + y == y;
  }

  /** Splitting a joined name on "." gives back its segments. */
  lemma {:induction false} SplitJoin(parts: seq<string>)
    requires |parts| >= 1
    requires forall i | 0 <= i < |parts| :: DotFree(parts[i])
    ensures SplitOnDot(Join(parts)) == parts
  {
    if |parts| == 1 {
      SplitOnDotExtend("", parts[0]);
      assert "" + parts[0] == parts[0] == Join(parts);
      assert SplitOnDot("") == [""];
      assert SplitOnDot(Join(parts)) == [parts[0]];
    } else {
      var init, last := parts[..|parts| - 1], parts[|parts| - 1];
      assert Join(parts) == Join(init) + "." + last;
      SplitJoin(init);
      SplitOnDotSeparator(Join(init), last);
      assert SplitOnDot(Join(parts)) == init + [last];
      LastSplit(parts);
    }
  }

  /** List.indexOf: the first position holding x, or -1 when there is none. */
  function IndexOf(xs: seq<string>, x: string): (r: int)
    ensures -1 <= r < |xs|
    ensures r == -1 <==> x !in xs
    ensures r >= 0 ==> xs[r] == x && forall j | 0 <= j < r :: xs[j] != x
  {
    if |xs| == 0 then -1
    else if xs[0] == x then 0
    else
      var k := IndexOf(xs[1..], x);
      assert xs == [xs[0]] + xs[1..];
      if k == -1 then -1 else k + 1
  }

  // ---------------------------------------------------------------------
  // parseStringArray

  /** The strings of a JSON array, or an error if an element is not a string. */
  function StringsOf(items: seq<Json>): (r: Result<seq<string>>)
    ensures r.Ok? <==> forall i | 0 <= i < |items| :: items[i].JString?
    ensures r.Ok? ==> |r.value| == |items| && forall i | 0 <= i < |items| :: items[i] == JString(r.value[i])
    ensures r.Err? ==> r.error == WrongJsonType("string")
  {
    if |items| == 0 then Ok([])
    else
      var init :- StringsOf(items[..|items| - 1]);
      var last :- AsString(items[|items| - 1]);
      Ok(init + [last])
  }

  /** parseStringArray: a fresh array filled element by element. */
  method ParseStringArray(items: seq<Json>) returns (r: Result<array<string>>)
    ensures r.Ok? <==> StringsOf(items).Ok?
    ensures r.Ok? ==> fresh(r.value) && r.value[..] == StringsOf(items).value
    ensures r.Err? ==> r.error == StringsOf(items).error
  {
    var strings := new string[|items|];
    var i := 0;
    while i < |items|
      invariant 0 <= i <= |items|
      invariant forall k | 0 <= k < i :: items[k] == JString(strings[k])
    {
      var s := AsString(items[i]);
      if s.Err? {
        return Err(s.error);
      }
      strings[i] := s.value;
      i := i + 1;
    }
    return Ok(strings);
  }

  // ---------------------------------------------------------------------
  // findDifference, returning the lines it prints

  const HEADER_VERSION_DIFFERS: string := "header.metadata_version"
  const HEADER_DIRECTORIES_DIFFER: string := "header.directories"

  function ColumnsCountLine(a: int, b: int): string {
    "files.columnsCount: " + DecimalText(a) + " vs " + DecimalText(b)
  }

  function FilesCountLine(a: int, b: int): string {
    "files.filesCount: " + DecimalText(a) + " vs " + DecimalText(b)
  }

  function FindHeaderDifference(h1: Proto.MetadataHeader, h2: Proto.MetadataHeader): (r: seq<string>)
    ensures h1 == h2 <==> r == []
    ensures HEADER_VERSION_DIFFERS in r <==> h1.metadataVersion != h2.metadataVersion
    ensures HEADER_DIRECTORIES_DIFFER in r <==> h1.directories != h2.directories
    ensures forall i | 0 <= i < |r| :: r[i] == HEADER_VERSION_DIFFERS || r[i] == HEADER_DIRECTORIES_DIFFER
  {
    if h1 == h2 then []
    else
      (if h1.metadataVersion != h2.metadataVersion then [HEADER_VERSION_DIFFERS] else [])
      + (if h1.directories != h2.directories then [HEADER_DIRECTORIES_DIFFER] else [])
  }

  function FindFilesDifference(f1: Proto.MetadataFiles, f2: Proto.MetadataFiles): (r: seq<string>)
    ensures f1 == f2 ==> r == []
    ensures ColumnsCountLine(|f1.columns|, |f2.columns|) in r <==> |f1.columns| != |f2.columns|
    ensures FilesCountLine(|f1.files|, |f2.files|) in r <==> |f1.files| != |f2.files|
    ensures |f1.columns| == |f2.columns| && |f1.files| == |f2.files| ==> r == []
    ensures |r| <= 2
  {
    if f1 == f2 then []
    else
      var c1, c2, n1, n2 := |f1.columns|, |f2.columns|, |f1.files|, |f2.files|;
      assert ColumnsCountLine(c1, c2)[6] == 'c' && FilesCountLine(n1, n2)[6] == 'f';
      (if c1 != c2 then [ColumnsCountLine(c1, c2)] else [])
      + (if n1 != n2 then [FilesCountLine(n1, n2)] else [])
  }
}
