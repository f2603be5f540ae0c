/**
 * The rows `loadFileExplorer` shows for a directory: the `..` row unless the
 * location is a root, then the entries sorted directories first and by name
 * within each kind. Name order is the host's `localeCompare`, which the
 * model takes as a parameter `compare` (negative, zero or positive).
 */
module Listing {
  import opened Paths
  import opened FileSystem
  import opened Lookups

  /** One row of the file list: the `..` row, or an entry shown with its icon (see RowIcon). */
  datatype Row = ParentRow | EntryRow(entry: Entry)

  /** The comparator handed to `entries.sort`. */
  function CompareEntries(compare: (string, string) -> int, a: Entry, b: Entry): int {
    if a.kind == b.kind then compare(a.name, b.name)
    else if a.kind == Directory then -1 else 1
  }

  /** What `sort` needs of a comparator: consistent signs and a transitive order. */
  ghost predicate Consistent(compare: (string, string) -> int) {
    && (forall x, y :: compare(x, y) > 0 <==> compare(y, x) < 0)
    && (forall x, y, z :: compare(x, y) <= 0 && compare(y, z) <= 0 ==> compare(x, z) <= 0)
  }

  ghost predicate Sorted(compare: (string, string) -> int, s: seq<Entry>) {
    forall i, j :: 0 <= i < j < |s| ==> CompareEntries(compare, s[i], s[j]) <= 0
  }

  /** Places `e` before the first entry it does not come after. */
  function Insert(compare: (string, string) -> int, e: Entry, s: seq<Entry>): seq<Entry> {
    if s == [] then [e]
    else if CompareEntries(compare, e, s[0]) <= 0 then [e] + s
    else [s[0]] + Insert(compare, e, s[1..])
  }

  /** `entries.sort(comparator)`. */
  function Sort(compare: (string, string) -> int, s: seq<Entry>): seq<Entry> {
    if s == [] then [] else Insert(compare, s[0], Sort(compare, s[1..]))
  }

  /** The entry comparator inherits totality and transitivity from the name comparator. */
  lemma EntryOrder(compare: (string, string) -> int)
    requires Consistent(compare)
    ensures forall a, b :: CompareEntries(compare, a, b) > 0 ==> CompareEntries(compare, b, a) < 0
    ensures forall a, b, c :: CompareEntries(compare, a, b) <= 0 && CompareEntries(compare, b, c) <= 0 ==>
      CompareEntries(compare, a, c) <= 0
  {
  }

  lemma {:induction false} InsertPermutes(compare: (string, string) -> int, e: Entry, s: seq<Entry>)
    ensures multiset(Insert(compare, e, s)) == multiset(s) + multiset{e}
  {
    if s != [] && CompareEntries(compare, e, s[0]) > 0 {
      InsertPermutes(compare, e, s[1..]);
      assert s == [s[0]] + s[1..];
    }
  }

  lemma {:induction false} InsertElements(compare: (string, string) -> int, e: Entry, s: seq<Entry>)
    ensures forall x :: x in Insert(compare, e, s) <==> x == e || x in s
  {
    if s != [] && CompareEntries(compare, e, s[0]) > 0 {
      InsertElements(compare, e, s[1..]);
      assert s == [s[0]] + s[1..];
    }
  }

  lemma {:induction false} InsertSorted(compare: (string, string) -> int, e: Entry, s: seq<Entry>)
    requires Consistent(compare) && Sorted(compare, s)
    ensures Sorted(compare, Insert(compare, e, s))
  {
    if s != [] && CompareEntries(compare, e, s[0]) > 0 {
      var t := Insert(compare, e, s[1..]);
      InsertSorted(compare, e, s[1..]);
      InsertElements(compare, e, s[1..]);
      forall j | 0 <= j < |t|
        ensures CompareEntries(compare, s[0], t[j]) <= 0
      {
        if t[j] == e {
          EntryOrder(compare);
        } else {
          assert t[j] in t;
          assert t[j] in s[1..];
          var k :| 0 <= k < |s[1..]| && s[1..][k] == t[j];
          assert s[k + 1] == t[j];
        }
      }
      assert Insert(compare, e, s) == [s[0]] + t;
    }
  }

  /** The sorted listing is an ordering of exactly the entries read. */
  lemma {:induction false} SortCorrect(compare: (string, string) -> int, s: seq<Entry>)
    requires Consistent(compare)
    ensures Sorted(compare, Sort(compare, s))
    ensures multiset(Sort(compare, s)) == multiset(s)
  {
    if s != [] {
      SortCorrect(compare, s[1..]);
      InsertSorted(compare, s[0], Sort(compare, s[1..]));
      InsertPermutes(compare, s[0], Sort(compare, s[1..]));
      assert s == [s[0]] + s[1..];
    }
  }

  /**
   * In a sorted listing no file comes before a directory, and two entries of
   * the same kind appear in name order.
   */
  lemma SortedListingOrder(compare: (string, string) -> int, s: seq<Entry>, i: int, j: int)
    requires Sorted(compare, s) && 0 <= i < j < |s|
    ensures s[i].kind == File ==> s[j].kind == File
    ensures s[i].kind == s[j].kind ==> compare(s[i].name, s[j].name) <= 0
  {
  }

  /**
   * The name order the explorer is given here in place of `localeCompare`:
   * lexicographic order of Unicode code points. It agrees with JavaScript's
   * `<` (UTF-16 code-unit order) on names within the Basic Multilingual Plane.
   */
  function CodePointCompare(a: string, b: string): int
    decreases |a|
  {
    if a == [] && b == [] then 0
    else if a == [] then -1
    else if b == [] then 1
    else if a[0] < b[0] then -1
    else if a[0] > b[0] then 1
    else CodePointCompare(a[1..], b[1..])
  }

  lemma {:induction false} CodePointAntisymmetric(a: string, b: string)
    ensures CodePointCompare(a, b) == -CodePointCompare(b, a)
    ensures -1 <= CodePointCompare(a, b) <= 1
    decreases |a|
  {
    if a != [] && b != [] && a[0] == b[0] {
      CodePointAntisymmetric(a[1..], b[1..]);
    }
  }

  lemma {:induction false} CodePointTransitive(a: string, b: string, c: string)
    requires CodePointCompare(a, b) <= 0 && CodePointCompare(b, c) <= 0
    ensures CodePointCompare(a, c) <= 0
    decreases |a|
  {
    if a != [] && b != [] && c != [] && a[0] == b[0] && b[0] == c[0] {
      CodePointTransitive(a[1..], b[1..], c[1..]);
    }
  }

  /** Code-unit order is a comparator `sort` can rely on. */
  lemma CodePointConsistent()
    ensures Consistent(CodePointCompare)
  {
    forall x, y
      ensures CodePointCompare(x, y) > 0 <==> CodePointCompare(y, x) < 0
    {
      CodePointAntisymmetric(x, y);
    }
    forall x, y, z | CodePointCompare(x, y) <= 0 && CodePointCompare(y, z) <= 0
      ensures CodePointCompare(x, z) <= 0
    {
      CodePointTransitive(x, y, z);
    }
  }

  /** The icon of a row: files by their lower-cased extension, directories by kind. */
  function IconFor(e: Entry): string {
    FileIcon(if e.kind == File then Extension(e.name) else "", e.kind)
  }

  /** The icon an entry row is drawn with. */
  function RowIcon(row: Row): string
    requires row.EntryRow?
  {
    IconFor(row.entry)
  }

  function Rows(s: seq<Entry>): (rows: seq<Row>)
    ensures |rows| == |s|
    ensures forall i :: 0 <= i < |s| ==> rows[i] == EntryRow(s[i])
  {
    if s == [] then [] else [EntryRow(s[0])] + Rows(s[1..])
  }

  /** The entries shown by a list of rows, in order. */
  function EntriesOf(rows: seq<Row>): seq<Entry> {
    if rows == [] then []
    else (if rows[0].EntryRow? then [rows[0].entry] else []) + EntriesOf(rows[1..])
  }

  lemma {:induction false} EntriesOfRows(s: seq<Entry>)
    ensures EntriesOf(Rows(s)) == s
  {
    if s != [] {
      EntriesOfRows(s[1..]);
    }
  }

  /** The rows `loadFileExplorer` builds for the entries read at `path`. */
  function ListingView(platform: Platform, path: string, entries: seq<Entry>, compare: (string, string) -> int): seq<Row> {
    (if IsRoot(platform, path) then [] else [ParentRow]) + Rows(Sort(compare, entries))
  }

  /**
   * The listing has one row per entry read plus the `..` row, which appears
   * (first) exactly when the location is not a root; the entries shown are a
   * sorted permutation of those read.
   */
  lemma ListingViewCorrect(platform: Platform, path: string, entries: seq<Entry>, compare: (string, string) -> int)
    requires Consistent(compare)
    ensures var v := ListingView(platform, path, entries, compare);
      && |v| == |entries| + (if IsRoot(platform, path) then 0 else 1)
      && (ParentRow in v <==> !IsRoot(platform, path))
      && (!IsRoot(platform, path) ==> v[0] == ParentRow)
      && multiset(EntriesOf(v)) == multiset(entries)
      && Sorted(compare, EntriesOf(v))
  {
    var sorted := Sort(compare, entries);
    SortCorrect(compare, entries);
    assert |sorted| == |entries| by {
      assert |multiset(sorted)| == |multiset(entries)|;
    }
    var rows := Rows(sorted);
    EntriesOfRows(sorted);
    var v := ListingView(platform, path, entries, compare);
    assert ParentRow !in rows;
    if !IsRoot(platform, path) {
      assert v == [ParentRow] + rows;
      assert v[1..] == rows;
      assert EntriesOf(v) == sorted;
    } else {
      assert v == rows;
    }
  }
}
