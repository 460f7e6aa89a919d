/**
 * The parts of Go's `strings` and `unicode` packages that main.go relies on.
 * A Go string is modelled as its sequence of runes.
 */
module Text {

  /** A Go string, seen as its sequence of runes. */
  type String = seq<char>

  /** unicode.IsSpace: Latin-1 white space and the other White_Space code points. */
  predicate IsSpace(c: char) {
    ('\U{9}' <= c <= '\U{D}') || c == ' ' || c == '\U{85}' || c == '\U{A0}'
    || c == '\U{1680}' || ('\U{2000}' <= c <= '\U{200A}') || c == '\U{2028}'
    || c == '\U{2029}' || c == '\U{202F}' || c == '\U{205F}' || c == '\U{3000}'
  }

  predicate AllSpace(s: String) {
    forall i :: 0 <= i < |s| ==> IsSpace(s[i])
  }

  /** Drops the leading white space. */
  function TrimLeft(s: String): (r: String)
    ensures |r| <= |s|
  {
    if s != [] && IsSpace(s[0]) then TrimLeft(s[1..]) else s
  }

  /** TrimLeft leaves a suffix of `s` that does not start with white space, and cuts only white space. */
  lemma {:induction false} TrimLeftSpec(s: String)
    ensures var r := TrimLeft(s);
      && r == s[|s| - |r|..] && AllSpace(s[..|s| - |r|])
      && (r == [] || !IsSpace(r[0]))
    decreases |s|
  {
    if s != [] && IsSpace(s[0]) {
      TrimLeftSpec(s[1..]);
      var r := TrimLeft(s[1..]);
      assert s[..|s| - |r|] == [s[0]] + s[1..][..|s| - 1 - |r|];
    }
  }

  /** Drops the trailing white space. */
  function TrimRight(s: String): (r: String)
    ensures |r| <= |s|
  {
    if s != [] && IsSpace(s[|s| - 1]) then TrimRight(s[..|s| - 1]) else s
  }

  /** TrimRight leaves a prefix of `s` that does not end in white space, and cuts only white space. */
  lemma {:induction false} TrimRightSpec(s: String)
    ensures var r := TrimRight(s);
      && r == s[..|r|] && AllSpace(s[|r|..])
      && (r == [] || !IsSpace(r[|r| - 1]))
    decreases |s|
  {
    if s != [] && IsSpace(s[|s| - 1]) {
      TrimRightSpec(s[..|s| - 1]);
      var r := TrimRight(s[..|s| - 1]);
      assert s[|r|..] == s[..|s| - 1][|r|..] + [s[|s| - 1]];
    }
  }

  /** How many runes of leading white space TrimSpace cuts from `s`. */
  function TrimOffset(s: String): nat {
    |s| - |TrimLeft(s)|
  }

  /** strings.TrimSpace: white space cut from both ends. */
  function TrimSpace(s: String): (r: String)
    ensures |r| <= |s|
  {
    TrimRight(TrimLeft(s))
  }

  /**
   * The result of TrimSpace is the slice of `s` left after cutting white space
   * from both ends, and it neither starts nor ends in white space.
   */
  lemma TrimSpaceSpec(s: String)
    ensures var r := TrimSpace(s);
      && (r == [] || (!IsSpace(r[0]) && !IsSpace(r[|r| - 1])))
      && TrimOffset(s) + |r| <= |s| && r == s[TrimOffset(s)..TrimOffset(s) + |r|]
      && AllSpace(s[..TrimOffset(s)]) && AllSpace(s[TrimOffset(s) + |r|..])
  {
    var t := TrimLeft(s);
    var r := TrimRight(t);
    TrimLeftSpec(s);
    TrimRightSpec(t);
    var o := TrimOffset(s);
    assert o == |s| - |t| && t == s[o..];
    assert r == t[..|r|] == s[o..o + |r|];
    assert s[o + |r|..] == t[|r|..];
  }

  /** The trimmed text is a slice of `s`. */
  lemma TrimSpaceSlice(s: String)
    ensures TrimOffset(s) + |TrimSpace(s)| <= |s|
    ensures TrimSpace(s) == s[TrimOffset(s)..TrimOffset(s) + |TrimSpace(s)|]
  {
    TrimSpaceSpec(s);
  }

  /** Rune `k` of the trimmed text is rune TrimOffset(s) + k of `s`. */
  lemma TrimSpaceAt(s: String, k: nat)
    requires k < |TrimSpace(s)|
    ensures TrimOffset(s) + k < |s| && TrimSpace(s)[k] == s[TrimOffset(s) + k]
  {
    TrimSpaceSpec(s);
  }

  /** Text that neither starts nor ends in white space is left as it is. */
  lemma TrimSpaceNoop(s: String)
    requires s != [] && !IsSpace(s[0]) && !IsSpace(s[|s| - 1])
    ensures TrimSpace(s) == s
  {
    assert TrimLeft(s) == s;
  }

  /** A line of white space only trims to nothing, and only such a line does. */
  lemma TrimSpaceEmpty(s: String)
    ensures TrimSpace(s) == [] <==> AllSpace(s)
  {
    var t := TrimLeft(s);
    TrimLeftSpec(s);
    TrimRightSpec(t);
    if TrimSpace(s) == [] {
      assert AllSpace(t[0..]);
      assert s == s[..|s| - |t|] + t;
    }
  }

  predicate IsUpper(c: char) { 'A' <= c <= 'Z' }

  /**
   * unicode.ToLower for the runes whose lower case is ASCII: A-Z become a-z,
   * the Kelvin sign U+212A becomes 'k' and U+0130 (capital I with dot above)
   * becomes 'i'; every other rune is kept.
   */
  function LowerChar(c: char): char {
    if IsUpper(c) then (c as int + 32) as char
    else if c == '\U{212A}' then 'k'
    else if c == '\U{0130}' then 'i'
    else c
  }

  /** strings.ToLower, for every rune whose lower case is ASCII. */
  function ToLower(s: String): (r: String)
    ensures |r| == |s|
    ensures forall i :: 0 <= i < |s| ==> r[i] == LowerChar(s[i])
    ensures forall i :: 0 <= i < |r| ==> !IsUpper(r[i])
  {
    seq(|s|, i requires 0 <= i < |s| => LowerChar(s[i]))
  }

  /** strings.HasPrefix */
  predicate HasPrefix(s: String, p: String) {
    |p| <= |s| && s[..|p|] == p
  }

  /** Concatenation regroups freely; stated once so that proofs need not unfold it. */
  lemma AppendAssoc<T>(a: seq<T>, b: seq<T>, c: seq<T>)
    ensures a + (b + c) == (a + b) + c
  {
  }

  /** A sequence is the concatenation of its three slices around `i` and `j`. */
  lemma SliceSplit<T>(s: seq<T>, i: nat, j: nat)
    requires i <= j <= |s|
    ensures s == (s[..i] + s[i..j]) + s[j..]
  {
    assert s[..j] == s[..i] + s[i..j];
  }

  /** strings.HasSuffix */
  predicate HasSuffix(s: String, p: String) {
    |p| <= |s| && s[|s| - |p|..] == p
  }

  /** Number of occurrences of the rune `c` in `s`. */
  function CountChar(s: String, c: char): nat {
    if s == [] then 0 else (if s[0] == c then 1 else 0) + CountChar(s[1..], c)
  }

  /** strings.Join */
  function Join(parts: seq<String>, sep: char): String {
    if parts == [] then []
    else if |parts| == 1 then parts[0]
    else parts[0] + [sep] + Join(parts[1..], sep)
  }

  /**
   * strings.Split with a one-rune separator: one part more than there are
   * separators, no part holds a separator, and joining the parts back with the
   * separator gives `s` again.
   */
  function Split(s: String, sep: char): (parts: seq<String>)
    ensures |parts| == CountChar(s, sep) + 1
    ensures forall i :: 0 <= i < |parts| ==> sep !in parts[i]
    ensures Join(parts, sep) == s
  {
    if s == [] then [[]]
    else
      var rest := Split(s[1..], sep);
      if s[0] == sep then
        assert ([[]] + rest)[1..] == rest;
        [[]] + rest
      else
        var parts := [[s[0]] + rest[0]] + rest[1..];
        assert parts[1..] == rest[1..];
        assert Join(parts, sep) == [s[0]] + Join(rest, sep);
        assert s == [s[0]] + s[1..];
        parts
  }

  /** Lowering never adds, drops or creates a separator such as ',': a rune that lowers to itself and no other rune lowers to. */
  lemma {:induction false} CountCharLower(s: String, c: char)
    requires LowerChar(c) == c
    requires c as int < 'a' as int || 'z' as int < c as int
    ensures CountChar(ToLower(s), c) == CountChar(s, c)
  {
    if s != [] {
      CountCharLower(s[1..], c);
      assert ToLower(s)[1..] == ToLower(s[1..]);
    }
  }

  /** `pat` occurs somewhere in `s`. */
  ghost predicate Occurs(s: String, pat: String) {
    exists i: nat :: MatchAt(s, pat, i)
  }

  /** `pat` occurs in `s` starting at index `i`. */
  predicate MatchAt(s: String, pat: String, i: nat) {
    i + |pat| <= |s| && s[i..i + |pat|] == pat
  }

  /**
   * strings.ReplaceAll: the non-overlapping occurrences of `pat`, taken from the
   * left, are replaced by `rep`; an empty `pat` matches before every rune and at
   * the end.
   */
  function ReplaceAll(s: String, pat: String, rep: String): (r: String)
    // a swap whose replacement is no longer than its pattern never lengthens
    // a word (the assumption the tool's help text states for its letter columns)
    ensures pat != [] && |rep| <= |pat| ==> |r| <= |s|
    decreases |s|
  {
    if pat == [] then Interleave(s, rep)
    else if HasPrefix(s, pat) then rep + ReplaceAll(s[|pat|..], pat, rep)
    else if s == [] then []
    else [s[0]] + ReplaceAll(s[1..], pat, rep)
  }

  /** `rep` before every rune of `s` and once more at the end. */
  function Interleave(s: String, rep: String): String {
    if s == [] then rep else rep + [s[0]] + Interleave(s[1..], rep)
  }

  /** Replacing a pattern by itself changes nothing (Go returns `s` at once). */
  lemma {:induction false} ReplaceAllSame(s: String, pat: String)
    ensures ReplaceAll(s, pat, pat) == s
    decreases |s|
  {
    if pat == [] {
      if s != [] {
        ReplaceAllSame(s[1..], pat);
        assert s == [s[0]] + s[1..];
      }
    } else if HasPrefix(s, pat) {
      ReplaceAllSame(s[|pat|..], pat);
      assert s == s[..|pat|] + s[|pat|..];
    } else if s != [] {
      ReplaceAllSame(s[1..], pat);
      assert s == [s[0]] + s[1..];
    }
  }

  /** A non-empty pattern that does not occur leaves the string as it is. */
  lemma {:induction false} ReplaceAllAbsent(s: String, pat: String, rep: String)
    requires pat != [] && !Occurs(s, pat)
    ensures ReplaceAll(s, pat, rep) == s
    decreases |s|
  {
    if s != [] {
      assert !HasPrefix(s, pat) by {
        if HasPrefix(s, pat) { assert MatchAt(s, pat, 0); }
      }
      assert !Occurs(s[1..], pat) by {
        if Occurs(s[1..], pat) {
          var i: nat :| MatchAt(s[1..], pat, i);
          assert s[i + 1..i + 1 + |pat|] == s[1..][i..i + |pat|];
          assert MatchAt(s, pat, i + 1);
        }
      }
      ReplaceAllAbsent(s[1..], pat, rep);
      assert s == [s[0]] + s[1..];
    }
  }

  /**
   * An empty pattern matches before every rune and at the end: the result
   * starts and ends with `rep`, and rune i of `s` stands after i + 1 copies
   * of `rep` and the i runes before it.
   */
  lemma ReplaceAllEmptyPatternSpec(s: String, rep: String)
    ensures var r := ReplaceAll(s, [], rep);
      && |r| == |s| + (|s| + 1) * |rep|
      && r[..|rep|] == rep && r[|r| - |rep|..] == rep
      && forall i :: 0 <= i < |s| ==> r[(i + 1) * |rep| + i] == s[i]
  {
    InterleaveLength(s, rep);
    InterleaveEnds(s, rep);
    InterleaveRunes(s, rep);
  }

  lemma {:induction false} InterleaveLength(s: String, rep: String)
    ensures |Interleave(s, rep)| == |s| + (|s| + 1) * |rep|
    decreases |s|
  {
    if s != [] {
      InterleaveLength(s[1..], rep);
      Distrib(|s| - 1, |rep|);
      Distrib(|s|, |rep|);
    }
  }

  lemma {:induction false} InterleaveEnds(s: String, rep: String)
    ensures |Interleave(s, rep)| >= |rep|
    ensures Interleave(s, rep)[..|rep|] == rep
    ensures Interleave(s, rep)[|Interleave(s, rep)| - |rep|..] == rep
    decreases |s|
  {
    if s != [] {
      InterleaveEnds(s[1..], rep);
      var t := Interleave(s[1..], rep);
      var r := Interleave(s, rep);
      assert r == rep + ([s[0]] + t);
      assert r[|r| - |rep|..] == t[|t| - |rep|..];
    }
  }

  lemma {:induction false} InterleaveRunes(s: String, rep: String)
    ensures |Interleave(s, rep)| == |s| + (|s| + 1) * |rep|
    ensures forall i :: 0 <= i < |s| ==> Interleave(s, rep)[(i + 1) * |rep| + i] == s[i]
    decreases |s|
  {
    InterleaveLength(s, rep);
    if s != [] {
      InterleaveRunes(s[1..], rep);
      var t := Interleave(s[1..], rep);
      var r := Interleave(s, rep);
      var n := |rep|;
      assert r == rep + [s[0]] + t;
      forall i | 0 <= i < |s|
        ensures r[(i + 1) * n + i] == s[i]
      {
        Distrib(i, n);
        if i == 0 {
          assert r[n] == s[0];
        } else {
          Distrib(i - 1, n);
          assert (i + 1) * n + i == n + 1 + ((i - 1 + 1) * n + (i - 1));
          assert r[(i + 1) * n + i] == t[(i - 1 + 1) * n + (i - 1)];
          assert s[i] == s[1..][i - 1];
        }
      }
    }
  }

  lemma Distrib(a: int, n: int)
    ensures (a + 1) * n == a * n + n
  {
  }

  /** Worked case: an empty pattern inserts "x" around both runes of "ab". */
  lemma ReplaceAllEmptyPattern()
    ensures ReplaceAll("ab", "", "x") == "xaxbx"
  {
  }
}
