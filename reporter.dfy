/**
 * The report. toUnitSlice (main.go:461-479) ranks a frequency map: count
 * descending, then key ascending. print (main.go:403-459) cuts the four
 * rankings of a stats record to the top N and lays out one row per rank.
 * Rendering is not modelled: a cell keeps the key, its count and the total
 * the percentage is taken of.
 */
module Reporter {
  import opened Base
  import opened Text
  import opened Aggregator

  /** One ranked entry: a key and its number of occurrences. */
  datatype Unit = Unit(v: String, n: int)

  /** strings.Compare: -1, 0 or +1 as `a` sorts before, equal to or after `b`. */
  function Compare(a: String, b: String): (r: int)
    ensures -1 <= r <= 1
    ensures r == 0 <==> a == b
  {
    if a == [] then (if b == [] then 0 else -1)
    else if b == [] then 1
    else if a[0] < b[0] then -1
    else if a[0] > b[0] then 1
    else
      assert a == [a[0]] + a[1..] && b == [b[0]] + b[1..];
      Compare(a[1..], b[1..])
  }

  /** Swapping the arguments flips the sign. */
  lemma {:induction false} CompareFlip(a: String, b: String)
    ensures Compare(b, a) == -Compare(a, b)
  {
    if a != [] && b != [] && a[0] == b[0] {
      CompareFlip(a[1..], b[1..]);
    }
  }

  /** The order strings.Compare defines is transitive. */
  lemma {:induction false} CompareTrans(a: String, b: String, c: String)
    requires Compare(a, b) <= 0 && Compare(b, c) <= 0
    ensures Compare(a, c) <= 0
  {
    if a != [] && b != [] && c != [] && a[0] == b[0] && b[0] == c[0] {
      CompareTrans(a[1..], b[1..], c[1..]);
    }
  }

  /** The comparator handed to slices.SortFunc: count descending, then key ascending. */
  function CompareUnits(a: Unit, b: Unit): (r: int)
    ensures r == 0 <==> a == b
    ensures a.n > b.n ==> r < 0
    ensures a.n < b.n ==> r > 0
    ensures a.n == b.n ==> r == Compare(a.v, b.v)
  {
    var diff := b.n - a.n;
    if diff != 0 then diff else Compare(a.v, b.v)
  }

  /** `a` may stand before `b` in a ranking. */
  predicate Ranked(a: Unit, b: Unit) {
    CompareUnits(a, b) <= 0
  }

  /** Any two entries can be put in order. */
  lemma RankedTotal(a: Unit, b: Unit)
    ensures Ranked(a, b) || Ranked(b, a)
  {
    CompareFlip(a.v, b.v);
  }

  lemma RankedTrans(a: Unit, b: Unit, c: Unit)
    requires Ranked(a, b) && Ranked(b, c)
    ensures Ranked(a, c)
  {
    if a.n == b.n == c.n {
      CompareTrans(a.v, b.v, c.v);
    }
  }

  /** Only equal entries can stand before each other: the comparator leaves no ties. */
  lemma RankedAntisym(a: Unit, b: Unit)
    requires Ranked(a, b) && Ranked(b, a)
    ensures a == b
  {
    CompareFlip(a.v, b.v);
  }

  /** Count descending, then key ascending. */
  predicate Sorted(s: seq<Unit>) {
    forall i, j :: 0 <= i < j < |s| ==> Ranked(s[i], s[j])
  }

  predicate Distinct(s: seq<Unit>) {
    forall i, j :: 0 <= i < j < |s| ==> s[i] != s[j]
  }

  /** `s` lists every (key, count) entry of `m`, each once. */
  ghost predicate Enumerates(m: Freq, s: seq<Unit>) {
    Distinct(s) && forall u :: u in s <==> u.v in m && m[u.v] == u.n
  }

  /** What toUnitSlice promises: the entries of `m`, each once, in ranking order. */
  ghost predicate IsRanking(m: Freq, s: seq<Unit>) {
    Enumerates(m, s) && Sorted(s)
  }

  /**
   * A ranking lists the counts in descending order, and entries with equal
   * counts by key, strictly ascending.
   */
  lemma RankingOrder(m: Freq, s: seq<Unit>)
    requires IsRanking(m, s)
    ensures forall i, j :: 0 <= i < j < |s| ==>
      s[i].n >= s[j].n && (s[i].n == s[j].n ==> Compare(s[i].v, s[j].v) < 0)
  {
    forall i, j | 0 <= i < j < |s|
      ensures s[i].n >= s[j].n && (s[i].n == s[j].n ==> Compare(s[i].v, s[j].v) < 0)
    {
      assert Ranked(s[i], s[j]) && s[i] != s[j];
    }
  }

  /** Inserting into a ranking: before the first entry `u` may stand before. */
  function Insert(u: Unit, s: seq<Unit>): (r: seq<Unit>)
    ensures multiset(r) == multiset(s) + multiset{u}
  {
    if s == [] || Ranked(u, s[0]) then [u] + s
    else
      assert s == [s[0]] + s[1..];
      [s[0]] + Insert(u, s[1..])
  }

  lemma {:induction false} InsertSorted(u: Unit, s: seq<Unit>)
    requires Sorted(s)
    ensures Sorted(Insert(u, s))
  {
    if s != [] && !Ranked(u, s[0]) {
      InsertSorted(u, s[1..]);
      RankedTotal(u, s[0]);
      var t := Insert(u, s[1..]);
      var r := Insert(u, s);
      assert r == [s[0]] + t;
      forall i, j | 0 <= i < j < |r| ensures Ranked(r[i], r[j]) {
        assert r[j] == t[j - 1];
        if i == 0 {
          assert r[j] in multiset(t);
          if r[j] != u {
            assert r[j] in s[1..];
            var k :| 0 <= k < |s[1..]| && s[1..][k] == r[j];
            assert s[k + 1] == r[j];
          }
        } else {
          assert r[i] == t[i - 1];
        }
      }
    } else if s != [] {
      var r := Insert(u, s);
      assert r == [u] + s;
      forall j | 0 < j < |s| ensures Ranked(u, s[j]) {
        RankedTrans(u, s[0], s[j]);
      }
    }
  }

  /** Insertion sort, the sort the model uses for slices.SortFunc. */
  function SortSeq(s: seq<Unit>): seq<Unit> {
    if s == [] then [] else Insert(s[|s| - 1], SortSeq(s[..|s| - 1]))
  }

  /** The sort returns a sorted permutation of its input. */
  lemma {:induction false} SortSeqSpec(s: seq<Unit>)
    ensures Sorted(SortSeq(s)) && multiset(SortSeq(s)) == multiset(s)
  {
    if s != [] {
      SortSeqSpec(s[..|s| - 1]);
      InsertSorted(s[|s| - 1], SortSeq(s[..|s| - 1]));
      assert s == s[..|s| - 1] + [s[|s| - 1]];
    }
  }

  /** A value at two positions of a sequence occurs there at least twice. */
  lemma TwiceCounted(s: seq<Unit>, i: nat, j: nat)
    requires i < j < |s| && s[i] == s[j]
    ensures multiset(s)[s[i]] >= 2
  {
    assert s == s[..i] + [s[i]] + s[i + 1..j] + [s[j]] + s[j + 1..];
  }

  /** A value occurs at most once in a sequence without repeats. */
  lemma {:induction false} DistinctOnce(s: seq<Unit>, x: Unit)
    requires Distinct(s)
    ensures multiset(s)[x] <= 1
  {
    if s != [] {
      DistinctOnce(s[1..], x);
      assert s == [s[0]] + s[1..];
      if s[0] == x {
        assert x !in s[1..] by {
          forall k | 0 <= k < |s[1..]| ensures s[1..][k] != x {
            assert s[1..][k] == s[k + 1];
          }
        }
      }
    }
  }

  /** A permutation of a sequence without repeats has none. */
  lemma DistinctPerm(s: seq<Unit>, r: seq<Unit>)
    requires Distinct(s) && multiset(r) == multiset(s)
    ensures Distinct(r)
  {
    forall i, j | 0 <= i < j < |r| ensures r[i] != r[j] {
      if r[i] == r[j] {
        TwiceCounted(r, i, j);
        DistinctOnce(s, r[i]);
      }
    }
  }

  /** An entry list names as many entries as the map has keys. */
  lemma {:induction false} EnumeratesSize(m: Freq, s: seq<Unit>)
    requires Enumerates(m, s)
    ensures |s| == |m|
    decreases |s|
  {
    assert forall k :: k in m ==> Unit(k, m[k]) in s;
    if s == [] {
      assert m.Keys == {};
    } else {
      var u := s[|s| - 1];
      var init := s[..|s| - 1];
      assert s == init + [u];
      var m' := m - {u.v};
      forall x ensures x in init <==> x.v in m' && m'[x.v] == x.n {
        if x in init {
          var k :| 0 <= k < |init| && init[k] == x;
          assert s[k] == x && s[|s| - 1] == u;
        }
      }
      EnumeratesSize(m', init);
    }
  }

  /** The entries of a map, in some order. */
  ghost function Entries(m: Freq): seq<Unit>
    decreases |m|
  {
    if m == map[] then []
    else
      var k := Pick(m);
      assert |m - {k}| == |m| - 1;
      Entries(m - {k}) + [Unit(k, m[k])]
  }

  lemma {:induction false} EntriesSpec(m: Freq)
    ensures Enumerates(m, Entries(m))
    decreases |m|
  {
    if m != map[] {
      var k := Pick(m);
      var m' := m - {k};
      assert |m'| == |m| - 1;
      EntriesSpec(m');
      var e := Entries(m');
      assert Entries(m) == e + [Unit(k, m[k])];
      assert Unit(k, m[k]) !in e;
    }
  }

  /** Sorting a list of the entries of a map ranks the map. */
  lemma SortRanks(m: Freq, e: seq<Unit>)
    requires Enumerates(m, e)
    ensures IsRanking(m, SortSeq(e))
  {
    var r := SortSeq(e);
    SortSeqSpec(e);
    DistinctPerm(e, r);
    forall x ensures x in r <==> x in e {
      assert x in r <==> x in multiset(r);
      assert x in e <==> x in multiset(e);
    }
  }

  /** The ranking of a map: its entries, each once, count descending and then key ascending. */
  ghost function Ranking(m: Freq): seq<Unit> {
    EntriesSpec(m);
    SortRanks(m, Entries(m));
    var s :| IsRanking(m, s); s
  }

  lemma RankingSpec(m: Freq)
    ensures IsRanking(m, Ranking(m))
  {
  }

  /** Two sorted lists of the same entries, each without repeats, are equal. */
  lemma {:induction false} SortedUnique(s: seq<Unit>, r: seq<Unit>)
    requires Sorted(s) && Sorted(r) && Distinct(s) && Distinct(r)
    requires |s| == |r| && forall x :: x in s <==> x in r
    ensures s == r
    decreases |s|
  {
    if s != [] {
      assert r[0] in r && s[0] in s;
      var j :| 0 <= j < |s| && s[j] == r[0];
      var k :| 0 <= k < |r| && r[k] == s[0];
      assert s[0] == r[0] by {
        if j > 0 && k > 0 {
          RankedAntisym(s[0], r[0]);
        }
      }
      forall x ensures x in s[1..] <==> x in r[1..] {
        ElementsAfterHead(s, x);
        ElementsAfterHead(r, x);
      }
      SortedUnique(s[1..], r[1..]);
      assert s == [s[0]] + s[1..] && r == [r[0]] + r[1..];
    }
  }

  lemma ElementsAfterHead(s: seq<Unit>, x: Unit)
    requires s != [] && Distinct(s)
    ensures x in s[1..] <==> x in s && x != s[0]
  {
    if x in s && x != s[0] {
      var k :| 0 <= k < |s| && s[k] == x;
      assert s[1..][k - 1] == x;
    }
    if x in s[1..] {
      var k :| 0 <= k < |s[1..]| && s[1..][k] == x;
      assert s[k + 1] == x;
    }
  }

  /**
   * The ranking does not depend on the order in which the map is walked nor on
   * the sort algorithm: any ranking of `m` is Ranking(m).
   */
  lemma RankingUnique(m: Freq, s: seq<Unit>)
    requires IsRanking(m, s)
    ensures s == Ranking(m)
  {
    RankingSpec(m);
    EnumeratesSize(m, s);
    EnumeratesSize(m, Ranking(m));
    SortedUnique(s, Ranking(m));
  }

  /** slices.SortFunc with the comparator of toUnitSlice. */
  method SortUnits(s: seq<Unit>) returns (r: seq<Unit>)
    ensures r == SortSeq(s)
  {
    r := [];
    for i := 0 to |s|
      invariant r == SortSeq(s[..i])
    {
      assert s[..i + 1][..i] == s[..i];
      r := Insert(s[i], r);
    }
    assert s[..|s|] == s;
  }

  /**
   * toUnitSlice: one entry per key, appended while walking the map in whatever
   * order the walk takes, then sorted. The result is the ranking of the map.
   */
  method ToUnitSlice(m: Freq) returns (result: seq<Unit>)
    ensures IsRanking(m, result)
    ensures result == Ranking(m)
  {
    var entries: seq<Unit> := [];
    var rest := m.Keys;
    while rest != {}
      invariant rest <= m.Keys
      invariant Distinct(entries)
      invariant forall u :: u in entries <==> u.v in m && u.v !in rest && m[u.v] == u.n
      decreases |rest|
    {
      var k :| k in rest;
      var u := Unit(k, m[k]);
      assert u !in entries;
      entries := entries + [u];
      rest := rest - {k};
    }
    result := SortUnits(entries);
    SortedEntries(m, entries);
  }

  /** Sorting any list of the entries of a map gives its ranking. */
  lemma SortedEntries(m: Freq, e: seq<Unit>)
    requires Enumerates(m, e)
    ensures SortSeq(e) == Ranking(m)
  {
    SortRanks(m, e);
    RankingUnique(m, SortSeq(e));
  }

  /** The top-N cut of print: with top > 0 a list longer than top keeps its first top entries. */
  function Top(s: seq<Unit>, top: int): (r: seq<Unit>)
    ensures |r| == if top > 0 then Min(|s|, top) else |s|
    ensures r == s[..|r|]
  {
    if top > 0 && |s| > top then s[..top] else s
  }

  /**
   * One of the four cuts of print, written as the reslicing print does; Top is
   * the same cut as a function, for the ghost Report and the lemmas.
   */
  method Cut(units: seq<Unit>, top: int) returns (r: seq<Unit>)
    ensures r == Top(units, top)
  {
    r := units;
    if top > 0 {
      if |r| > top {
        r := r[..top];
      }
    }
  }

  /** Cutting a ranking keeps the best entries: every kept entry ranks ahead of every dropped one. */
  lemma TopKeepsBest(s: seq<Unit>, top: int)
    requires Sorted(s)
    ensures var r := Top(s, top);
      forall i, j :: 0 <= i < |r| <= j < |s| ==> Ranked(r[i], s[j])
  {
  }

  /** One column of the table: its entries and the total its percentages divide by. */
  datatype Column = Column(units: seq<Unit>, total: int)

  /** A cell: blank past the end of its column, otherwise an entry and its column total. */
  datatype Cell = Blank | Entry(key: String, n: int, total: int)

  /** A header cell: the column's name and total. */
  datatype Header = Header(name: String, total: int)

  /** What print writes: the title, the header row and one row per rank (the rank is the row's index). */
  datatype Table = Table(title: String, headers: seq<Header>, rows: seq<seq<Cell>>)

  /** addCellUnit(i, units, total) */
  function CellAt(i: nat, col: Column): (r: Cell)
    ensures r.Entry? <==> i < |col.units|
    ensures r.Entry? ==> col.units[i] == Unit(r.key, r.n) && r.total == col.total
  {
    if |col.units| <= i then Blank
    else Entry(col.units[i].v, col.units[i].n, col.total)
  }

  /** Row `i` of the table: one cell per column. */
  function Row(i: nat, cols: seq<Column>): seq<Cell> {
    seq(|cols|, c requires 0 <= c < |cols| => CellAt(i, cols[c]))
  }

  /** The first `n` rows of the table. */
  function Layout(cols: seq<Column>, n: nat): seq<seq<Cell>> {
    seq(n, i requires 0 <= i < n => Row(i, cols))
  }

  lemma LayoutStep(cols: seq<Column>, n: nat)
    ensures Layout(cols, n + 1) == Layout(cols, n) + [Row(n, cols)]
  {
    assert forall i :: 0 <= i < n ==> Layout(cols, n + 1)[i] == Layout(cols, n)[i];
  }

  /** The length of the longest column. */
  function Longest(cols: seq<Column>): nat {
    if cols == [] then 0
    else
      var rest := Longest(cols[1..]);
      if |cols[0].units| < rest then rest else |cols[0].units|
  }

  /** The column names of print, in order. */
  const Names: seq<String> := ["raw", "removed", "swapped", "both"]

  /** The map column `c` ranks. */
  function Source(t: Tally, c: nat): Freq
    requires c < 4
  {
    if c == 0 then t.universal else if c == 1 then t.removed
    else if c == 2 then t.swapped else t.both
  }

  /** The total column `c` divides by: removed words leave the raw total. */
  function Total(t: Tally, c: nat): int
    requires c < 4
  {
    if c == 0 then t.count else if c == 1 then t.count - t.countRemoved
    else if c == 2 then t.countSwapped else t.countBoth
  }

  /** addCellHeader for the four columns. */
  function Headers(t: Tally): (r: seq<Header>)
    ensures |r| == 4 && forall c :: 0 <= c < 4 ==> r[c].name == Names[c]
    ensures r[0].total == t.count && r[1].total == t.count - t.countRemoved
    ensures r[2].total == t.countSwapped && r[3].total == t.countBoth
  {
    seq(4, c requires 0 <= c < 4 => Header(Names[c], Total(t, c)))
  }

  /** The four columns of print: each map ranked and cut to the top N. */
  ghost function Columns(t: Tally, top: int): seq<Column> {
    Cuts(t, top, Ranking(t.universal), Ranking(t.removed), Ranking(t.swapped), Ranking(t.both))
  }

  /** The four columns for the given rankings of the raw, removed, swapped and both maps. */
  function Cuts(t: Tally, top: int, u: seq<Unit>, r: seq<Unit>, s: seq<Unit>, b: seq<Unit>): seq<Column> {
    [Column(Top(u, top), t.count), Column(Top(r, top), t.count - t.countRemoved),
     Column(Top(s, top), t.countSwapped), Column(Top(b, top), t.countBoth)]
  }

  /** Column `c` of the Columns literal, unfolded: it ranks Source(t, c) and divides by Total(t, c). */
  lemma ColumnAt(t: Tally, top: int, c: nat)
    requires c < 4
    ensures Columns(t, top)[c] == Column(Top(Ranking(Source(t, c)), top), Total(t, c))
  {
  }

  /** The table print writes for a stats record. */
  ghost function Report(t: Tally, title: String, top: int): Table {
    var cols := Columns(t, top);
    Table(title, Headers(t), Layout(cols, Longest(cols)))
  }

  /** How many entries of a map its column shows. */
  function Size(m: Freq, top: int): nat {
    if top > 0 then Min(|m|, top) else |m|
  }

  /** A ranked map has one entry per key, so its column shows Size entries. */
  lemma RankingSize(m: Freq, top: int)
    ensures |Ranking(m)| == |m|
    ensures |Top(Ranking(m), top)| == Size(m, top)
  {
    RankingSpec(m);
    EnumeratesSize(m, Ranking(m));
  }

  /** The longest of four columns, as the max of print computes it. */
  lemma LongestOfFour(cols: seq<Column>)
    requires |cols| == 4
    ensures Longest(cols) == Max(Max(|cols[0].units|, |cols[2].units|), Max(|cols[1].units|, |cols[3].units|))
  {
    assert Longest(cols[3..]) == |cols[3].units| by {
      assert cols[3..][1..] == [];
    }
    assert cols[2..][1..] == cols[3..];
    assert Longest(cols[2..]) == Max(|cols[2].units|, |cols[3].units|);
    assert cols[1..][1..] == cols[2..];
    assert Longest(cols[1..]) == Max(|cols[1].units|, Longest(cols[2..]));
  }

  /**
   * The shape of the table: one row per rank down to the longest column, a
   * column showing min(entries, top) entries (all of them when top <= 0), and
   * one cell per column in every row.
   */
  lemma ReportShape(t: Tally, title: String, top: int)
    ensures var table := Report(t, title, top);
      && |table.rows| == Max(Max(Size(t.universal, top), Size(t.swapped, top)),
                             Max(Size(t.removed, top), Size(t.both, top)))
      && forall i :: 0 <= i < |table.rows| ==> |table.rows[i]| == 4
  {
    RankingSize(t.universal, top);
    RankingSize(t.removed, top);
    RankingSize(t.swapped, top);
    RankingSize(t.both, top);
    LongestOfFour(Columns(t, top));
  }

  /**
   * Cell (i, c) shows the i-th entry of the ranking of column c's map with
   * that column's total, or is blank when the column shows fewer than i + 1
   * entries.
   */
  lemma ReportCell(t: Tally, title: String, top: int, i: nat, c: nat)
    requires c < 4 && i < |Report(t, title, top).rows|
    ensures |Report(t, title, top).rows[i]| == 4
    ensures var m := Source(t, c);
      var cell := Report(t, title, top).rows[i][c];
      && |Ranking(m)| == |m|
      && (cell.Entry? <==> i < Size(m, top))
      && (cell.Entry? ==> && Unit(cell.key, cell.n) == Ranking(m)[i]
                          && cell.key in m && m[cell.key] == cell.n
                          && cell.total == Total(t, c))
  {
    var m := Source(t, c);
    var cols := Columns(t, top);
    assert Report(t, title, top).rows[i] == Row(i, cols);
    assert Row(i, cols)[c] == CellAt(i, cols[c]);
    ColumnAt(t, top, c);
    RankingSize(m, top);
    RankingSpec(m);
    if i < Size(m, top) {
      assert Ranking(m)[i] in Ranking(m);
    }
  }

  /**
   * With the invariant inc keeps, every entry cell shows a count between 1 and
   * its column total, so each percentage lies in (0, 100].
   */
  lemma ReportBounded(t: Tally, title: String, top: int, i: nat, c: nat)
    requires TallyInv(t)
    requires c < 4 && i < |Report(t, title, top).rows|
    ensures |Report(t, title, top).rows[i]| == 4
    ensures var cell := Report(t, title, top).rows[i][c];
      cell.Entry? ==> 1 <= cell.n <= cell.total
  {
    ReportCell(t, title, top, i, c);
    TallyBounds(t);
  }

  /** print(stats, title, top, w): the four rankings, cut to the top N, laid out row by row. */
  method Print(stats: Stats, title: String, top: int) returns (table: Table)
    ensures table == Report(stats.Value(), title, top)
  {
    var u := ToUnitSlice(stats.universal);
    var r := ToUnitSlice(stats.removed);
    var s := ToUnitSlice(stats.swapped);
    var b := ToUnitSlice(stats.both);
    ghost var t := stats.Value();
    ghost var cuts := Cuts(t, top, u, r, s, b);
    assert cuts == Columns(t, top);
    u := Cut(u, top);
    r := Cut(r, top);
    s := Cut(s, top);
    b := Cut(b, top);
    var longest := Max(Max(|u|, |s|), Max(|r|, |b|));
    var cols := [Column(u, stats.count), Column(r, stats.count - stats.countRemoved),
                 Column(s, stats.countSwapped), Column(b, stats.countBoth)];
    assert cols == cuts;
    LongestOfFour(cols);
    var rows: seq<seq<Cell>> := [];
    for i := 0 to longest
      invariant rows == Layout(cols, i)
    {
      LayoutStep(cols, i);
      rows := rows + [Row(i, cols)];
    }
    table := Table(title, Headers(stats.Value()), rows);
  }
}
