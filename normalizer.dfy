/**
 * normalize (main.go:285-315): one raw line becomes lowercase ASCII
 * alphanumeric tokens plus a flag saying whether the line ended in a hyphen.
 */
module Normalizer {
  import opened Base
  import opened Text

  /** One scanned line after normalization. */
  datatype Line = Line(tokens: seq<String>, broken: bool)

  /** The class [a-zA-Z0-9] of the three regular expressions. */
  predicate IsAlnum(c: char) {
    'a' <= c <= 'z' || 'A' <= c <= 'Z' || '0' <= c <= '9'
  }

  /** The runes a token may hold: [a-z0-9]. */
  predicate IsTokenChar(c: char) {
    'a' <= c <= 'z' || '0' <= c <= '9'
  }

  /** The runes keepCharsRE `[^a-zA-Z0-9 ]+` leaves in place. */
  predicate Kept(c: char) {
    IsAlnum(c) || c == ' '
  }

  /** The runes keepCharsAndAnglesRE `[^a-zA-Z0-9 <>]+` leaves in place. */
  predicate KeptWithAngles(c: char) {
    Kept(c) || c == '<' || c == '>'
  }

  /** The character classes the normalizer filters by. */
  datatype CharClass =
    | KeepClass        // [a-zA-Z0-9 ]   (keepCharsRE deletes everything else)
    | KeepAnglesClass  // [a-zA-Z0-9 <>] (keepCharsAndAnglesRE deletes everything else)
    | AlnumClass       // [a-zA-Z0-9]
    | NonSpaceClass    // every rune that is not white space

  predicate InClass(c: char, k: CharClass) {
    match k
    case KeepClass => Kept(c)
    case KeepAnglesClass => KeptWithAngles(c)
    case AlnumClass => IsAlnum(c)
    case NonSpaceClass => !IsSpace(c)
  }

  /** No rune in A-Z. */
  predicate NoUpper(s: String) {
    forall i :: 0 <= i < |s| ==> !IsUpper(s[i])
  }

  /** Only a-z, 0-9 and spaces. */
  predicate TokenText(s: String) {
    forall i :: 0 <= i < |s| ==> IsTokenChar(s[i]) || s[i] == ' '
  }

  /**
   * ReplaceAllString(s, "") with a negated character class: every rune the
   * class does not keep is deleted, the others stay in order.
   */
  function Filter(s: String, keep: CharClass): (r: String)
  {
    if s == [] then [] else (if InClass(s[0], keep) then [s[0]] else []) + Filter(s[1..], keep)
  }

  /** Filter keeps only runes of the class, never adds one, and so never brings back an upper-case letter. */
  lemma {:induction false} FilterSpec(s: String, keep: CharClass)
    ensures var r := Filter(s, keep);
      && |r| <= |s|
      && (forall i :: 0 <= i < |r| ==> InClass(r[i], keep))
      && (NoUpper(s) ==> NoUpper(r))
  {
    if s != [] {
      FilterSpec(s[1..], keep);
      var head := if InClass(s[0], keep) then [s[0]] else [];
      var rest := Filter(s[1..], keep);
      assert forall i :: |head| <= i < |head| + |rest| ==> (head + rest)[i] == rest[i - |head|];
    }
  }

  lemma {:induction false} FilterAppend(a: String, b: String, keep: CharClass)
    ensures Filter(a + b, keep) == Filter(a, keep) + Filter(b, keep)
  {
    if a != [] {
      FilterAppend(a[1..], b, keep);
      var head := if InClass(a[0], keep) then [a[0]] else [];
      calc {
        Filter(a + b, keep);
        { assert (a + b)[0] == a[0]; assert (a + b)[1..] == a[1..] + b; }
        head + Filter(a[1..] + b, keep);
        head + (Filter(a[1..], keep) + Filter(b, keep));
        (head + Filter(a[1..], keep)) + Filter(b, keep);
        Filter(a, keep) + Filter(b, keep);
      }
    } else {
      assert a + b == b;
    }
  }

  lemma {:induction false} FilterNone(s: String, keep: CharClass)
    requires forall i :: 0 <= i < |s| ==> !InClass(s[i], keep)
    ensures Filter(s, keep) == []
  {
    if s != [] { FilterNone(s[1..], keep); }
  }

  lemma {:induction false} FilterAll(s: String, keep: CharClass)
    requires forall i :: 0 <= i < |s| ==> InClass(s[i], keep)
    ensures Filter(s, keep) == s
  {
    if s != [] {
      FilterAll(s[1..], keep);
      assert s == [s[0]] + s[1..];
    }
  }

  /** Length of the run of [a-zA-Z0-9] that starts at index `i`. */
  function AlnumRun(s: String, i: nat): (n: nat)
    requires i <= |s|
    ensures i + n <= |s|
    ensures forall k :: i <= k < i + n ==> IsAlnum(s[k])
    ensures i + n < |s| ==> !IsAlnum(s[i + n])
    decreases |s| - i
  {
    if i < |s| && IsAlnum(s[i]) then 1 + AlnumRun(s, i + 1) else 0
  }

  /** Length of a match of `</?[a-zA-Z0-9]+>` that starts exactly at index `i`. */
  function TagAt(s: String, i: nat): (r: Option<nat>)
    requires i <= |s|
    ensures r.Some? ==> 3 <= r.value && i + r.value <= |s| && s[i] == '<'
  {
    if i < |s| && s[i] == '<' then
      var j := if i + 1 < |s| && s[i + 1] == '/' then i + 2 else i + 1;
      var n := AlnumRun(s, j);
      if n > 0 && j + n < |s| && s[j + n] == '>' then Some(j + n + 1 - i) else None
    else None
  }

  /**
   * Length of the match of removeHTMLRE ` ?</?[a-zA-Z0-9]+> ?` that Go's
   * leftmost-first engine reports at index `i`: both optional spaces are
   * greedy, and a space at `i` that is not followed by a tag means no match at `i`.
   */
  function HtmlMatchAt(s: String, i: nat): (r: Option<nat>)
    requires i <= |s|
    ensures r.Some? ==> 3 <= r.value && i + r.value <= |s|
    ensures r.Some? ==> '<' in s[i..i + r.value]
  {
    var lead := if i < |s| && s[i] == ' ' then 1 else 0;
    match TagAt(s, i + lead)
    case None => None
    case Some(n) =>
      var end := i + lead + n;
      var len := lead + n + (if end < |s| && s[end] == ' ' then 1 else 0);
      assert s[i..i + len][lead] == '<';
      Some(len)
  }

  /**
   * removeHTMLRE.ReplaceAllString(s, ""): scanning from the left, every match
   * is deleted and the scan resumes right after it.
   */
  function RemoveTags(s: String): (r: String)
    ensures |r| <= |s|
    ensures NoUpper(s) ==> NoUpper(r)
    decreases |s|
  {
    if s == [] then []
    else match HtmlMatchAt(s, 0)
      case Some(n) => RemoveTags(s[n..])
      case None => [s[0]] + RemoveTags(s[1..])
  }

  /** A line with no '<' holds no tag, so RemoveTags leaves it as it is. */
  lemma {:induction false} RemoveTagsNoAngle(s: String)
    requires '<' !in s
    ensures RemoveTags(s) == s
    decreases |s|
  {
    if s != [] {
      assert HtmlMatchAt(s, 0).None?;
      RemoveTagsNoAngle(s[1..]);
      assert s == [s[0]] + s[1..];
    }
  }

  /** Length of the leading run of non-space runes. */
  function WordLen(s: String): (n: nat)
    ensures n <= |s|
    ensures forall k :: 0 <= k < n ==> !IsSpace(s[k])
    ensures n < |s| ==> IsSpace(s[n])
  {
    if s == [] || IsSpace(s[0]) then 0 else 1 + WordLen(s[1..])
  }

  /** strings.Fields: the maximal runs of non-space runes, in order. */
  function Fields(s: String): (r: seq<String>)
    ensures forall i :: 0 <= i < |r| ==> r[i] != []
    ensures forall i, k :: 0 <= i < |r| && 0 <= k < |r[i]| ==> !IsSpace(r[i][k])
    ensures TokenText(s) ==> forall i, k :: 0 <= i < |r| && 0 <= k < |r[i]| ==> IsTokenChar(r[i][k])
    decreases |s|
  {
    if s == [] then []
    else if IsSpace(s[0]) then Fields(s[1..])
    else
      var n := WordLen(s);
      [s[..n]] + Fields(s[n..])
  }

  /** The concatenation of a list of tokens. */
  function Concat(ts: seq<String>): String {
    if ts == [] then [] else ts[0] + Concat(ts[1..])
  }

  lemma {:induction false} ConcatAppend(a: seq<String>, b: seq<String>)
    ensures Concat(a + b) == Concat(a) + Concat(b)
  {
    if a != [] {
      ConcatAppend(a[1..], b);
      calc {
        Concat(a + b);
        { assert (a + b)[0] == a[0]; assert (a + b)[1..] == a[1..] + b; }
        a[0] + Concat(a[1..] + b);
        a[0] + (Concat(a[1..]) + Concat(b));
        (a[0] + Concat(a[1..])) + Concat(b);
        Concat(a) + Concat(b);
      }
    } else {
      assert a + b == b;
    }
  }

  /** The fields, put back together, are exactly the non-space runes of `s`, in order. */
  lemma {:induction false} FieldsConcat(s: String)
    ensures Concat(Fields(s)) == Filter(s, NonSpaceClass)
    decreases |s|
  {
    if s != [] {
      if IsSpace(s[0]) {
        FieldsConcat(s[1..]);
      } else {
        var n := WordLen(s);
        FieldsConcat(s[n..]);
        assert s == s[..n] + s[n..];
        FilterAppend(s[..n], s[n..], NonSpaceClass);
        FilterAll(s[..n], NonSpaceClass);
        assert Fields(s)[1..] == Fields(s[n..]);
      }
    }
  }

  lemma {:induction false} WordLenSplit(a: String, c: char, b: String)
    requires IsSpace(c)
    ensures WordLen(a + [c] + b) == WordLen(a)
  {
    if a != [] {
      WordLenSplit(a[1..], c, b);
      assert (a + [c] + b)[1..] == a[1..] + [c] + b;
    }
  }

  /** A space splits: the fields of `a c b` are those of `a` followed by those of `b`. */
  lemma {:induction false} FieldsSplit(a: String, c: char, b: String)
    requires IsSpace(c)
    ensures Fields(a + [c] + b) == Fields(a) + Fields(b)
    decreases |a|
  {
    var s := a + [c] + b;
    if a == [] {
      assert s[1..] == b;
    } else if IsSpace(a[0]) {
      FieldsSplit(a[1..], c, b);
      assert s[1..] == a[1..] + [c] + b;
    } else {
      FieldsSplit(a[WordLen(a)..], c, b);
      FieldsSplitWord(a, c, b);
    }
  }

  lemma SplitAround(a: String, c: char, b: String, n: nat)
    requires n <= |a|
    ensures (a + [c] + b)[..n] == a[..n] && (a + [c] + b)[n..] == a[n..] + [c] + b
  {
  }

  /** The step of FieldsSplit when `a` starts with a word. */
  lemma FieldsSplitWord(a: String, c: char, b: String)
    requires IsSpace(c) && a != [] && !IsSpace(a[0])
    requires Fields(a[WordLen(a)..] + [c] + b) == Fields(a[WordLen(a)..]) + Fields(b)
    ensures Fields(a + [c] + b) == Fields(a) + Fields(b)
  {
    var s := a + [c] + b;
    var n := WordLen(a);
    WordLenSplit(a, c, b);
    SplitAround(a, c, b, n);
    AppendAssoc([a[..n]], Fields(a[n..]), Fields(b));
  }

  /** A non-empty run without white space is one field. */
  lemma FieldsOfWord(w: String)
    requires w != [] && forall k :: 0 <= k < |w| ==> !IsSpace(w[k])
    ensures Fields(w) == [w]
  {
    var n := WordLen(w);
    assert n == |w|;
    assert w[n..] == [];
    assert w[..n] == w;
  }

  /**
   * The text normalize hands to strings.Fields, for a line already trimmed:
   * lowered and trimmed again, stripped of tags in HTML mode, then reduced to
   * [a-zA-Z0-9 ].
   */
  function Clean(t: String, removeHTML: bool): String {
    var lower := TrimSpace(ToLower(t));
    var reduced := if removeHTML then RemoveTags(Filter(lower, KeepAnglesClass)) else lower;
    Filter(reduced, KeepClass)
  }

  /** normalize(ln, removeHTML) */
  function Normalize(ln: String, removeHTML: bool): (r: Line)
    ensures forall i :: 0 <= i < |r.tokens| ==> r.tokens[i] != []
    ensures r.broken ==> |TrimSpace(ln)| > 1 && TrimSpace(ln)[|TrimSpace(ln)| - 1] == '-'
  {
    var t := TrimSpace(ln);
    if |t| == 0 then Line([], false)
    else
      // The third conjunct turns a byte into a one-rune string: never empty.
      var broken := |t| > 1 && HasSuffix(t, "-") && [t[|t| - 2]] != [];
      Line(Fields(Clean(t, removeHTML)), broken)
  }

  /** A blank or white-space-only line gives no tokens and is not broken. */
  lemma NormalizeBlank(ln: String, removeHTML: bool)
    requires AllSpace(ln)
    ensures Normalize(ln, removeHTML) == Line([], false)
  {
    TrimSpaceEmpty(ln);
  }

  /**
   * The broken flag holds exactly when the trimmed line is longer than one rune
   * and ends in '-': a lone "-" is not broken.
   */
  lemma NormalizeBroken(ln: String, removeHTML: bool)
    ensures var t := TrimSpace(ln);
            Normalize(ln, removeHTML).broken <==> |t| > 1 && t[|t| - 1] == '-'
  {
  }

  /**
   * Every token is non-empty and made of a-z and 0-9 only, with or without
   * HTML removal; in particular no token keeps the hyphen of a broken line.
   */
  lemma NormalizeTokens(ln: String, removeHTML: bool)
    ensures forall i :: 0 <= i < |Normalize(ln, removeHTML).tokens| ==>
              var tok := Normalize(ln, removeHTML).tokens[i];
              tok != [] && forall k :: 0 <= k < |tok| ==> IsTokenChar(tok[k])
  {
    var t := TrimSpace(ln);
    if |t| != 0 {
      CleanText(t, removeHTML);
    }
  }

  /** The cleaned text holds only a-z, 0-9 and spaces. */
  lemma CleanText(t: String, removeHTML: bool)
    ensures TokenText(Clean(t, removeHTML))
  {
    var lower := TrimSpace(ToLower(t));
    assert NoUpper(lower) by {
      forall k | 0 <= k < |lower| ensures !IsUpper(lower[k]) {
        TrimSpaceAt(ToLower(t), k);
      }
    }
    var reduced := if removeHTML then RemoveTags(Filter(lower, KeepAnglesClass)) else lower;
    FilterSpec(lower, KeepAnglesClass);
    assert NoUpper(reduced);
    FilterSpec(reduced, KeepClass);
  }

  /** Lowering commutes with slicing. */
  lemma LowerSlice(s: String, i: nat, j: nat)
    requires i <= j <= |s|
    ensures ToLower(s[i..j]) == ToLower(s)[i..j]
  {
    forall k | 0 <= k < j - i ensures ToLower(s[i..j])[k] == ToLower(s)[i..j][k] {
      assert s[i..j][k] == s[i + k];
    }
  }

  /** Alphanumerics survive trimming: the cut runes are white space. */
  lemma FilterTrim(s: String)
    ensures Filter(TrimSpace(s), AlnumClass) == Filter(s, AlnumClass)
  {
    var o, r := TrimOffset(s), TrimSpace(s);
    assert o + |r| <= |s| && r == s[o..o + |r|] && AllSpace(s[..o]) && AllSpace(s[o + |r|..]) by {
      TrimSpaceSpec(s);
    }
    FilterAroundSpace(s, o, o + |r|);
  }

  /** White space holds no alphanumeric rune. */
  lemma FilterSpaces(a: String)
    requires AllSpace(a)
    ensures Filter(a, AlnumClass) == []
  {
    forall k | 0 <= k < |a| ensures !InClass(a[k], AlnumClass) {
      assert IsSpace(a[k]);
    }
    FilterNone(a, AlnumClass);
  }

  /** Cutting white space off both ends keeps every alphanumeric rune. */
  lemma FilterAroundSpace(s: String, i: nat, j: nat)
    requires i <= j <= |s| && AllSpace(s[..i]) && AllSpace(s[j..])
    ensures Filter(s[i..j], AlnumClass) == Filter(s, AlnumClass)
  {
    var a, m, b := s[..i], s[i..j], s[j..];
    SliceSplit(s, i, j);
    FilterSpaces(a);
    FilterSpaces(b);
    FilterAppend(a, m, AlnumClass);
    assert Filter(a + m, AlnumClass) == Filter(m, AlnumClass);
    FilterAppend(a + m, b, AlnumClass);
    assert Filter(s, AlnumClass) == Filter(m, AlnumClass) + [];
  }

  lemma {:induction false} FilterKeptNotSpace(s: String)
    ensures Filter(Filter(s, KeepClass), NonSpaceClass) == Filter(s, AlnumClass)
  {
    if s != [] {
      FilterKeptNotSpace(s[1..]);
      var head := if Kept(s[0]) then [s[0]] else [];
      FilterAppend(head, Filter(s[1..], KeepClass), NonSpaceClass);
    }
  }

  lemma {:induction false} FilterAnglesKept(s: String)
    ensures Filter(Filter(s, KeepAnglesClass), KeepClass) == Filter(s, KeepClass)
  {
    if s != [] {
      FilterAnglesKept(s[1..]);
      var head := if KeptWithAngles(s[0]) then [s[0]] else [];
      FilterAppend(head, Filter(s[1..], KeepAnglesClass), KeepClass);
    }
  }

  /**
   * Without HTML removal the tokens, put back together, spell exactly the
   * letters and digits of the line, lowercased and in order: punctuation and
   * tabs inside a word are deleted rather than splitting it.
   */
  lemma NormalizeSpells(ln: String)
    ensures Concat(Normalize(ln, false).tokens) == Filter(ToLower(ln), AlnumClass)
  {
    var t := TrimSpace(ln);
    LowerTrim(ln);
    if |t| == 0 {
      FilterNone(ToLower(t), AlnumClass);
    } else {
      var lower := TrimSpace(ToLower(t));
      FieldsConcat(Clean(t, false));
      FilterKeptNotSpace(lower);
      FilterTrim(ToLower(t));
    }
  }

  /** The alphanumerics of the lowered line are those of the lowered, trimmed line. */
  lemma LowerTrim(ln: String)
    ensures Filter(ToLower(TrimSpace(ln)), AlnumClass) == Filter(ToLower(ln), AlnumClass)
  {
    var t := TrimSpace(ln);
    var o := TrimOffset(ln);
    var low := ToLower(ln);
    TrimSpaceSlice(ln);
    assert ToLower(t) == low[o..o + |t|] by {
      LowerSlice(ln, o, o + |t|);
    }
    LowerEnds(ln);
    FilterAroundSpace(low, o, o + |t|);
  }

  /** The runes TrimSpace cuts from a line are still white space once lowered. */
  lemma LowerEnds(ln: String)
    ensures TrimOffset(ln) + |TrimSpace(ln)| <= |ln|
    ensures AllSpace(ToLower(ln)[..TrimOffset(ln)])
    ensures AllSpace(ToLower(ln)[TrimOffset(ln) + |TrimSpace(ln)|..])
  {
    TrimSpaceSpec(ln);
    LowerHead(ln, TrimOffset(ln));
    LowerTail(ln, TrimOffset(ln) + |TrimSpace(ln)|);
  }

  lemma LowerHead(ln: String, o: nat)
    requires o <= |ln| && AllSpace(ln[..o])
    ensures AllSpace(ToLower(ln)[..o])
  {
    forall k | 0 <= k < o ensures IsSpace(ToLower(ln)[k]) {
      assert ln[..o][k] == ln[k];
      assert IsSpace(ln[k]) && !IsUpper(ln[k]);
    }
  }

  lemma LowerTail(ln: String, e: nat)
    requires e <= |ln| && AllSpace(ln[e..])
    ensures AllSpace(ToLower(ln)[e..])
  {
    forall k | e <= k < |ln| ensures IsSpace(ToLower(ln)[k]) {
      assert ln[e..][k - e] == ln[k];
      assert IsSpace(ln[k]) && !IsUpper(ln[k]);
    }
  }

  /** No '<' anywhere in `s`. */
  predicate NoAngle(s: String) {
    forall i :: 0 <= i < |s| ==> s[i] != '<'
  }

  lemma {:induction false} FilterNoAngle(s: String, keep: CharClass)
    requires NoAngle(s)
    ensures NoAngle(Filter(s, keep))
  {
    if s != [] { FilterNoAngle(s[1..], keep); }
  }

  /** On a line without '<' the HTML mode changes nothing. */
  lemma NormalizeHtmlNoAngle(ln: String)
    requires '<' !in ln
    ensures Normalize(ln, true) == Normalize(ln, false)
  {
    var t := TrimSpace(ln);
    if |t| != 0 {
      assert NoAngle(t) by {
        forall k | 0 <= k < |t| ensures t[k] != '<' { TrimSpaceAt(ln, k); }
      }
      var lower := TrimSpace(ToLower(t));
      assert NoAngle(lower) by {
        forall k | 0 <= k < |lower| ensures lower[k] != '<' { TrimSpaceAt(ToLower(t), k); }
      }
      FilterNoAngle(lower, KeepAnglesClass);
      var pre := Filter(lower, KeepAnglesClass);
      assert '<' !in pre;
      RemoveTagsNoAngle(pre);
      FilterAnglesKept(lower);
    }
  }

  /** Worked line: a trailing hyphen marks the line broken and is dropped from the token. */
  lemma NormalizeHyphen()
    ensures Normalize("co-", false) == Line(["co"], true)
  {
    TrimSpaceNoop("co-");
    assert ToLower("co-") == "co-";
    assert Filter("co-", KeepClass) == "co";
    FieldsOfWord("co");
  }

  /** Worked line: a lone hyphen is too short to be a broken word. */
  lemma NormalizeLoneHyphen()
    ensures Normalize("-", false) == Line([], false)
  {
    TrimSpaceNoop("-");
    assert ToLower("-") == "-";
    assert Filter("-", KeepClass) == "";
  }

  /** Worked line: punctuation is deleted and the space splits the words. */
  lemma NormalizePunctuation()
    ensures Normalize("Ab, C!", false) == Line(["ab", "c"], false)
  {
    var ln := "Ab, C!";
    TrimSpaceNoop(ln);
    assert Clean(ln, false) == "ab c" by { CleanPunctuation(); }
    assert Fields("ab c") == ["ab", "c"] by { FieldsTwoWords(); }
  }

  lemma CleanPunctuation()
    ensures Clean("Ab, C!", false) == "ab c"
  {
    var lower := "ab, c!";
    LowerPunctuation();
    TrimSpaceNoop(lower);
    FilterPunctuation();
  }

  lemma LowerPunctuation()
    ensures ToLower("Ab, C!") == "ab, c!"
  {
  }

  lemma FilterPunctuation()
    ensures Filter("ab, c!", KeepClass) == "ab c"
  {
    assert Filter("!", KeepClass) == [];
    assert "c!"[1..] == "!";
    assert " c!"[1..] == "c!";
    assert ", c!"[1..] == " c!";
    assert "b, c!"[1..] == ", c!";
    assert "ab, c!"[1..] == "b, c!";
  }

  lemma FieldsTwoWords()
    ensures Fields("ab c") == ["ab", "c"]
  {
    assert "ab c" == "ab" + [' '] + "c";
    FieldsSplit("ab", ' ', "c");
    FieldsOfWord("ab");
    FieldsOfWord("c");
  }

  /** Worked line: a tab inside a word is deleted, not a separator. */
  lemma NormalizeTab()
    ensures Normalize("a\tb", false) == Line(["ab"], false)
  {
    var ln := "a\tb";
    TrimSpaceNoop(ln);
    assert Clean(ln, false) == "ab" by { CleanTab(); }
    assert Fields("ab") == ["ab"] by { FieldsOfWord("ab"); }
  }

  lemma CleanTab()
    ensures Clean("a\tb", false) == "ab"
  {
    var ln := "a\tb";
    assert ToLower(ln) == ln;
    TrimSpaceNoop(ln);
    assert "\tb"[1..] == "b";
    assert ln[1..] == "\tb";
  }

  /** Worked line: the Kelvin sign lowers to 'k', so it is kept in the token. */
  lemma NormalizeKelvin()
    ensures Normalize("\U{212A}ing", false) == Line(["king"], false)
  {
    var ln := "\U{212A}ing";
    TrimSpaceNoop(ln);
    assert Clean(ln, false) == "king" by { CleanKelvin(); }
    assert Fields("king") == ["king"] by { FieldsOfWord("king"); }
  }

  lemma CleanKelvin()
    ensures Clean("\U{212A}ing", false) == "king"
  {
    var ln := "\U{212A}ing";
    assert ToLower(ln) == "king";
    TrimSpaceNoop("king");
    FilterAll("king", KeepClass);
  }

  /** A run of alphanumerics ended by another rune is exactly as long as AlnumRun says. */
  lemma {:induction false} AlnumRunWord(s: String, j: nat, n: nat)
    requires j + n < |s| && !IsAlnum(s[j + n])
    requires forall k :: j <= k < j + n ==> IsAlnum(s[k])
    ensures AlnumRun(s, j) == n
    decreases n
  {
    if n > 0 {
      AlnumRunWord(s, j + 1, n - 1);
    }
  }

  /**
   * In HTML mode a tag between two spaces goes with both spaces: the text on
   * either side, when it holds no '<', is glued together.
   */
  lemma RemoveTagsGlue(a: String, w: String, b: String)
    requires '<' !in a && '<' !in b
    requires w != [] && forall k :: 0 <= k < |w| ==> IsAlnum(w[k])
    ensures RemoveTags(a + " <" + w + "> " + b) == a + b
  {
    var t := " <" + w + "> " + b;
    SpacedTagFirst(w, b);
    RemoveTagsBefore(a, t);
    AppendAssoc(a, " <", w);
    AppendAssoc(a, " <" + w, "> ");
    AppendAssoc(a, " <" + w + "> ", b);
  }

  /** A line that starts with a spaced tag loses the tag and both spaces. */
  lemma SpacedTagFirst(w: String, b: String)
    requires '<' !in b
    requires w != [] && forall k :: 0 <= k < |w| ==> IsAlnum(w[k])
    ensures RemoveTags(" <" + w + "> " + b) == b
  {
    var s := " <" + w + "> " + b;
    assert s[2 + |w|] == '>' && s[1] == '<' && s[0] == ' ';
    assert forall k :: 2 <= k < 2 + |w| ==> s[k] == w[k - 2];
    AlnumRunWord(s, 2, |w|);
    assert TagAt(s, 1) == Some(|w| + 2);
    assert HtmlMatchAt(s, 0) == Some(|w| + 4);
    assert s[|w| + 4..] == b;
    RemoveTagsNoAngle(b);
  }

  /** Text without '<' in front of a line that starts with " <" is kept as it is. */
  lemma {:induction false} RemoveTagsBefore(a: String, t: String)
    requires '<' !in a && |t| >= 2 && t[0] == ' ' && t[1] == '<'
    ensures RemoveTags(a + t) == a + RemoveTags(t)
    decreases |a|
  {
    if a == [] {
      assert a + t == t;
    } else {
      var s := a + t;
      assert s[0] == a[0] && s[0] != '<';
      assert s[1] != '<' by {
        if |a| > 1 { assert s[1] == a[1]; } else { assert s[1] == t[0]; }
      }
      assert s[1..] == a[1..] + t;
      calc {
        RemoveTags(s);
        { RemoveTagsSkip(s); }
        [a[0]] + RemoveTags(a[1..] + t);
        { RemoveTagsBefore(a[1..], t); }
        [a[0]] + (a[1..] + RemoveTags(t));
        { AppendAssoc([a[0]], a[1..], RemoveTags(t)); }
        ([a[0]] + a[1..]) + RemoveTags(t);
        { assert a == [a[0]] + a[1..]; }
        a + RemoveTags(t);
      }
    }
  }

  /** No match starts at a rune that is not '<' and is not a space followed by '<'. */
  lemma RemoveTagsSkip(s: String)
    requires |s| >= 2 && s[0] != '<' && s[1] != '<'
    ensures RemoveTags(s) == [s[0]] + RemoveTags(s[1..])
  {
    assert TagAt(s, 0).None? && TagAt(s, 1).None?;
    assert HtmlMatchAt(s, 0).None?;
  }

  /** Worked line: the tag of "o <b> x" goes with both spaces. */
  lemma RemoveTagsGlues()
    ensures RemoveTags("o <b> x") == "ox"
  {
    var s := "o <b> x";
    RemoveTagsSpacedTag();
    assert s[1..] == " <b> x";
    assert HtmlMatchAt(s, 0).None?;
  }

  lemma RemoveTagsSpacedTag()
    ensures RemoveTags(" <b> x") == "x"
  {
    var t := " <b> x";
    assert HtmlMatchAt(t, 0) == Some(5) by {
      assert AlnumRun(t, 2) == 1;
      assert TagAt(t, 1) == Some(3);
    }
    assert t[5..] == "x";
    RemoveTagsNoAngle("x");
  }
}
