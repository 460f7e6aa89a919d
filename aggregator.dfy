/**
 * The statistics of one dimension (words or letters), main.go:98-127 and
 * inc/incX at main.go:346-396: four frequency maps and four counters.
 *
 *   universal / count           every raw key
 *   removed   / countRemoved    the map keeps the raw keys that are NOT removed;
 *                               the counter counts the ones that are
 *   swapped   / countSwapped    every swapped key
 *   both      / countBoth       the swapped keys that are not removed
 */
module Aggregator {
  import opened Text

  /** A frequency map: key to number of occurrences. */
  type Freq = map<String, nat>

  /** The value of a stats record at one moment. */
  datatype Tally = Tally(
    count: nat, universal: Freq,
    countSwapped: nat, swapped: Freq,
    countRemoved: nat, removed: Freq,
    countBoth: nat, both: Freq)

  /** makeStats(): every counter zero and every map empty. */
  function EmptyTally(): Tally {
    Tally(0, map[], 0, map[], 0, map[], 0, map[])
  }

  /**
   * incX: an empty key is ignored; any other key gets one more occurrence
   * (starting from zero when absent) and no other key changes.
   */
  function IncX(m: Freq, k: String): (r: Freq)
    ensures k == [] ==> r == m
    ensures k != [] ==> r.Keys == m.Keys + {k}
    ensures k != [] ==> r[k] == (if k in m then m[k] else 0) + 1
    ensures forall j :: j in m && j != k ==> r[j] == m[j]
  {
    if |k| == 0 then m else m[k := (if k in m then m[k] else 0) + 1]
  }

  /** How often `k` has been counted in `m`: zero when it is absent. */
  function Get(m: Freq, k: String): nat {
    if k in m then m[k] else 0
  }

  /** incX counts `k` once more and leaves every other key's count alone. */
  lemma IncXGet(m: Freq, k: String)
    ensures forall j :: Get(IncX(m, k), j) == Get(m, j) + (if k != [] && j == k then 1 else 0)
  {
  }

  /** The first half of inc: a non-empty raw key is counted in universal, and in removed or countRemoved. */
  function IncRaw(t: Tally, raw: String, isRemoved: bool): (r: Tally)
    ensures r.swapped == t.swapped && r.both == t.both
    ensures r.countSwapped == t.countSwapped && r.countBoth == t.countBoth
    ensures r.count == t.count + (if raw != [] then 1 else 0)
    ensures isRemoved ==> r.removed == t.removed
    ensures !isRemoved ==> r.countRemoved == t.countRemoved
    ensures r.universal == IncX(t.universal, raw)
    ensures r.removed == if isRemoved then t.removed else IncX(t.removed, raw)
  {
    if |raw| > 0 then
      var t0 := t.(count := t.count + 1, universal := IncX(t.universal, raw));
      if !isRemoved then t0.(removed := IncX(t0.removed, raw))
      else t0.(countRemoved := t0.countRemoved + 1)
    else t
  }

  /** The second half of inc: a non-empty swapped key is counted in swapped, and in both unless removed. */
  function IncSwapped(t: Tally, swapped: String, isRemoved: bool): (r: Tally)
    ensures r.universal == t.universal && r.removed == t.removed
    ensures r.count == t.count && r.countRemoved == t.countRemoved
    ensures r.countSwapped == t.countSwapped + (if swapped != [] then 1 else 0)
    ensures isRemoved ==> r.both == t.both && r.countBoth == t.countBoth
    ensures r.swapped == IncX(t.swapped, swapped)
    ensures r.both == if isRemoved then t.both else IncX(t.both, swapped)
  {
    if |swapped| > 0 then
      var t0 := t.(countSwapped := t.countSwapped + 1, swapped := IncX(t.swapped, swapped));
      if !isRemoved then t0.(countBoth := t0.countBoth + 1, both := IncX(t0.both, swapped))
      else t0
    else t
  }

  /** inc: what one call does to a tally. */
  function IncT(t: Tally, raw: String, swapped: String, isRemoved: bool): (r: Tally)
    ensures raw == [] && swapped == [] ==> r == t
    ensures isRemoved ==> r.removed == t.removed && r.both == t.both
    ensures !isRemoved ==> r.countRemoved == t.countRemoved
    // which key each map counts: universal and swapped always, removed and
    // both only for a word that is not removed
    ensures r.universal == IncX(t.universal, raw) && r.swapped == IncX(t.swapped, swapped)
    ensures r.removed == if isRemoved then t.removed else IncX(t.removed, raw)
    ensures r.both == if isRemoved then t.both else IncX(t.both, swapped)
  {
    IncSwapped(IncRaw(t, raw, isRemoved), swapped, isRemoved)
  }

  /** Some key of a non-empty map. */
  ghost function Pick(m: Freq): (k: String)
    requires m != map[]
    ensures k in m
  {
    var k :| k in m; k
  }

  /** The total of all occurrence counts of a map. */
  ghost function Sum(m: Freq): nat
    decreases |m|
  {
    if m == map[] then 0
    else
      var k := Pick(m);
      assert |m - {k}| == |m| - 1;
      m[k] + Sum(m - {k})
  }

  /** Any key can be taken out of the sum first. */
  lemma {:induction false} SumRemove(m: Freq, k: String)
    requires k in m
    ensures Sum(m) == m[k] + Sum(m - {k})
    decreases |m|
  {
    var p := Pick(m);
    if p != k {
      assert |m - {p}| == |m| - 1;
      SumRemove(m - {p}, k);
      SumRemove(m - {k}, p);
      assert (m - {p}) - {k} == (m - {k}) - {p};
    }
  }

  /** A single count never exceeds the total. */
  lemma SumBound(m: Freq, k: String)
    requires k in m
    ensures m[k] <= Sum(m)
  {
    SumRemove(m, k);
  }

  /** incX adds exactly one to the total, unless the key is empty. */
  lemma SumIncX(m: Freq, k: String)
    ensures Sum(IncX(m, k)) == Sum(m) + (if k == [] then 0 else 1)
  {
    if k != [] {
      var r := IncX(m, k);
      SumRemove(r, k);
      assert r - {k} == m - {k};
      if k in m {
        SumRemove(m, k);
      } else {
        assert m - {k} == m;
      }
    }
  }

  /** Every key of `a` is a key of `b`, with no more occurrences. */
  predicate Dominated(a: Freq, b: Freq) {
    forall k :: k in a ==> k in b && a[k] <= b[k]
  }

  /** A map dominated by another has no larger total. */
  lemma {:induction false} SumMono(a: Freq, b: Freq)
    requires Dominated(a, b)
    ensures Sum(a) <= Sum(b)
    decreases |a|
  {
    if a != map[] {
      var k := Pick(a);
      SumRemove(a, k);
      SumRemove(b, k);
      assert |a - {k}| == |a| - 1;
      SumMono(a - {k}, b - {k});
    }
  }

  /** Only non-empty keys are stored, each seen at least once. */
  predicate Stored(m: Freq) {
    forall k :: k in m ==> k != [] && m[k] >= 1
  }

  /**
   * What every sequence of inc calls keeps, starting from makeStats(): each
   * counter is the total of its map (count - countRemoved that of `removed`),
   * and `removed` and `both` never count a key more often than `universal` and
   * `swapped`.
   */
  ghost predicate TallyInv(t: Tally) {
    Stored(t.universal) && Stored(t.removed) && Stored(t.swapped) && Stored(t.both)
    && t.count == Sum(t.universal)
    && t.count == t.countRemoved + Sum(t.removed)
    && t.countSwapped == Sum(t.swapped)
    && t.countBoth == Sum(t.both)
    && Dominated(t.removed, t.universal)
    && Dominated(t.both, t.swapped)
  }

  lemma EmptyTallyInv()
    ensures TallyInv(EmptyTally())
  {
  }

  /** incX keeps every stored key non-empty and counted at least once. */
  lemma IncXStored(m: Freq, k: String)
    requires Stored(m)
    ensures Stored(IncX(m, k))
  {
  }

  /** incX keeps a map stored and keeps it dominated as long as the larger map gets the same key. */
  lemma IncXDominated(a: Freq, b: Freq, k: String)
    requires Dominated(a, b)
    ensures Dominated(a, IncX(b, k)) && Dominated(IncX(a, k), IncX(b, k))
  {
  }

  /**
   * inc keeps the invariant, and moves the counters as main.go:352-376 says:
   * count by one for a non-empty raw key, countRemoved by one when that key is
   * removed, countSwapped by one for a non-empty swapped key, and countBoth by
   * one when that key is not removed.
   */
  lemma IncTKeepsInv(t: Tally, raw: String, swapped: String, isRemoved: bool)
    requires TallyInv(t)
    ensures var r := IncT(t, raw, swapped, isRemoved);
      && TallyInv(r)
      && r.count == t.count + (if raw != [] then 1 else 0)
      && r.countRemoved == t.countRemoved + (if raw != [] && isRemoved then 1 else 0)
      && r.countSwapped == t.countSwapped + (if swapped != [] then 1 else 0)
      && r.countBoth == t.countBoth + (if swapped != [] && !isRemoved then 1 else 0)
  {
    IncRawKeepsInv(t, raw, isRemoved);
    IncSwappedKeepsInv(IncRaw(t, raw, isRemoved), swapped, isRemoved);
  }

  lemma IncRawKeepsInv(t: Tally, raw: String, isRemoved: bool)
    requires TallyInv(t)
    ensures var r := IncRaw(t, raw, isRemoved);
      && TallyInv(r)
      && r.count == t.count + (if raw != [] then 1 else 0)
      && r.countRemoved == t.countRemoved + (if raw != [] && isRemoved then 1 else 0)
      && r.countSwapped == t.countSwapped && r.countBoth == t.countBoth
  {
    if raw != [] {
      if isRemoved {
        RemovedRawKeepsInv(t, raw);
      } else {
        KeptRawKeepsInv(t, raw);
      }
    }
  }

  /** A removed raw key: counted in universal and in countRemoved only. */
  lemma RemovedRawKeepsInv(t: Tally, raw: String)
    requires TallyInv(t) && raw != []
    ensures TallyInv(t.(count := t.count + 1, universal := IncX(t.universal, raw), countRemoved := t.countRemoved + 1))
  {
    SumIncX(t.universal, raw);
    IncXStored(t.universal, raw);
    IncXDominated(t.removed, t.universal, raw);
  }

  /** A kept raw key: counted in universal and in removed. */
  lemma KeptRawKeepsInv(t: Tally, raw: String)
    requires TallyInv(t) && raw != []
    ensures TallyInv(t.(count := t.count + 1, universal := IncX(t.universal, raw), removed := IncX(t.removed, raw)))
  {
    SumIncX(t.universal, raw);
    IncXStored(t.universal, raw);
    SumIncX(t.removed, raw);
    IncXStored(t.removed, raw);
    IncXDominated(t.removed, t.universal, raw);
  }

  lemma IncSwappedKeepsInv(t: Tally, swapped: String, isRemoved: bool)
    requires TallyInv(t)
    ensures var r := IncSwapped(t, swapped, isRemoved);
      && TallyInv(r)
      && r.count == t.count && r.countRemoved == t.countRemoved
      && r.countSwapped == t.countSwapped + (if swapped != [] then 1 else 0)
      && r.countBoth == t.countBoth + (if swapped != [] && !isRemoved then 1 else 0)
  {
    if swapped != [] {
      if isRemoved {
        RemovedSwappedKeepsInv(t, swapped);
      } else {
        KeptSwappedKeepsInv(t, swapped);
      }
    }
  }

  /** A swapped key of a removed word: counted in swapped only. */
  lemma RemovedSwappedKeepsInv(t: Tally, swapped: String)
    requires TallyInv(t) && swapped != []
    ensures TallyInv(t.(countSwapped := t.countSwapped + 1, swapped := IncX(t.swapped, swapped)))
  {
    SumIncX(t.swapped, swapped);
    IncXStored(t.swapped, swapped);
    IncXDominated(t.both, t.swapped, swapped);
  }

  /** A swapped key of a kept word: counted in swapped and in both. */
  lemma KeptSwappedKeepsInv(t: Tally, swapped: String)
    requires TallyInv(t) && swapped != []
    ensures TallyInv(t.(countSwapped := t.countSwapped + 1, swapped := IncX(t.swapped, swapped),
                        countBoth := t.countBoth + 1, both := IncX(t.both, swapped)))
  {
    SumIncX(t.swapped, swapped);
    IncXStored(t.swapped, swapped);
    SumIncX(t.both, swapped);
    IncXStored(t.both, swapped);
    IncXDominated(t.both, t.swapped, swapped);
  }

  /**
   * The bounds the report relies on: countBoth <= countSwapped, countRemoved <=
   * count, and every entry of a map lies between 1 and the total its column
   * divides by.
   */
  lemma TallyBounds(t: Tally)
    requires TallyInv(t)
    ensures t.countBoth <= t.countSwapped && t.countRemoved <= t.count
    ensures forall k :: k in t.universal ==> 1 <= t.universal[k] <= t.count
    ensures forall k :: k in t.removed ==> 1 <= t.removed[k] <= t.count - t.countRemoved
    ensures forall k :: k in t.swapped ==> 1 <= t.swapped[k] <= t.countSwapped
    ensures forall k :: k in t.both ==> 1 <= t.both[k] <= t.countBoth
  {
    SumMono(t.both, t.swapped);
    forall k | k in t.universal ensures t.universal[k] <= t.count { SumBound(t.universal, k); }
    forall k | k in t.removed ensures t.removed[k] <= t.count - t.countRemoved { SumBound(t.removed, k); }
    forall k | k in t.swapped ensures t.swapped[k] <= t.countSwapped { SumBound(t.swapped, k); }
    forall k | k in t.both ensures t.both[k] <= t.countBoth { SumBound(t.both, k); }
  }

  /** One stats record, updated in place by inc (the counters and maps of main.go:98-114). */
  class Stats {
    var count: nat
    var universal: Freq
    var countSwapped: nat
    var swapped: Freq
    var countRemoved: nat
    var removed: Freq
    var countBoth: nat
    var both: Freq

    function Value(): Tally
      reads this
    {
      Tally(count, universal, countSwapped, swapped, countRemoved, removed, countBoth, both)
    }

    /** makeStats; EmptyTallyInv states that it satisfies TallyInv. */
    constructor()
      ensures Value() == EmptyTally()
    {
      count, universal := 0, map[];
      countSwapped, swapped := 0, map[];
      countRemoved, removed := 0, map[];
      countBoth, both := 0, map[];
    }

    /** inc(stats, raw, swapped, removed); IncTKeepsInv states what it keeps. */
    method Inc(raw: String, swappedKey: String, isRemoved: bool)
      modifies this
      ensures Value() == IncT(old(Value()), raw, swappedKey, isRemoved)
    {
      CountRaw(raw, isRemoved);
      CountSwapped(swappedKey, isRemoved);
    }

    /** The first block of inc (main.go:352-366). */
    method CountRaw(raw: String, isRemoved: bool)
      modifies this
      ensures Value() == IncRaw(old(Value()), raw, isRemoved)
    {
      if |raw| > 0 {
        count := count + 1;
        universal := IncX(universal, raw);
        if !isRemoved {
          removed := IncX(removed, raw);
        } else {
          countRemoved := countRemoved + 1;
        }
      }
    }

    /** The second block of inc (main.go:368-376). */
    method CountSwapped(swappedKey: String, isRemoved: bool)
      modifies this
      ensures Value() == IncSwapped(old(Value()), swappedKey, isRemoved)
    {
      if |swappedKey| > 0 {
        countSwapped := countSwapped + 1;
        swapped := IncX(swapped, swappedKey);
        if !isRemoved {
          countBoth := countBoth + 1;
          both := IncX(both, swappedKey);
        }
      }
    }
  }
}
