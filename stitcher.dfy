/**
 * What the two-line window of processFile (main.go:250-273) hands to
 * processLine, stated per line index. With N(i) the normalized line i:
 *
 *   Cur(i)     line i once it may have lost its first token to line i-1;
 *   Joined(i)  Cur(i) with its last token glued to N(i+1)'s first token when
 *              line i is broken;
 *   Emitted    Joined(0), ..., Joined(n-3) (skipping the empty ones), then
 *              N(n-1) as it is. Line n-2 is never handed over.
 */
module Stitcher {
  import opened Text
  import opened Normalizer

  /** The normalized input, line by line. */
  function NormalizeAll(lines: seq<String>, removeHTML: bool): seq<Line> {
    seq(|lines|, i requires 0 <= i < |lines| => Normalize(lines[i], removeHTML))
  }

  /** Line `prev` is broken and both it and `next` have tokens: the stitch happens. */
  predicate Stitches(prev: seq<String>, prevBroken: bool, next: seq<String>) {
    |prev| > 0 && prevBroken && |next| > 0
  }

  /** The last token of `prev` with `first` appended to it. */
  function Glue(prev: seq<String>, first: String): (r: seq<String>)
    requires |prev| > 0
    ensures |r| == |prev| && r[..|r| - 1] == prev[..|prev| - 1]
    ensures r[|r| - 1] == prev[|prev| - 1] + first
  {
    prev[..|prev| - 1] + [prev[|prev| - 1] + first]
  }

  /** Line i as the window holds it once line i+1 has been scanned. */
  function Cur(ns: seq<Line>, i: nat): seq<String>
    requires i < |ns|
  {
    if i == 0 then ns[0].tokens
    else if Stitches(Cur(ns, i - 1), ns[i - 1].broken, ns[i].tokens) then ns[i].tokens[1..]
    else ns[i].tokens
  }

  /** Line i as processLine receives it. */
  function Joined(ns: seq<Line>, i: nat): seq<String>
    requires i + 1 < |ns|
  {
    if Stitches(Cur(ns, i), ns[i].broken, ns[i + 1].tokens)
    then Glue(Cur(ns, i), ns[i + 1].tokens[0])
    else Cur(ns, i)
  }

  /** The lines processed inside the scanner loop for lines 0..k-1 (the empty ones are skipped). */
  function EmittedPrefix(ns: seq<Line>, k: nat): seq<seq<String>>
    requires k + 1 < |ns| || k == 0
  {
    if k == 0 then []
    else EmittedPrefix(ns, k - 1) + (if |Cur(ns, k - 1)| > 0 then [Joined(ns, k - 1)] else [])
  }

  /** The scanner loop's variables prev, prevBroken, curr and currBroken. */
  datatype Window = Window(prev: seq<String>, prevBroken: bool, curr: seq<String>, currBroken: bool)

  /** How many lines the loop has handed over (stitched or skipped) once it has scanned n lines. */
  function Handed(n: nat): nat {
    if n >= 2 then n - 2 else 0
  }

  /** The window once the loop has scanned n lines. */
  function WindowAt(ns: seq<Line>, n: nat): Window
    requires n <= |ns|
  {
    if n == 0 then Window([], false, [], false)
    else if n == 1 then Window([], false, ns[0].tokens, ns[0].broken)
    else Window(Cur(ns, n - 2), ns[n - 2].broken, ns[n - 1].tokens, ns[n - 1].broken)
  }

  /**
   * What one pass of the loop hands to processLine: nothing when prev has no
   * tokens, otherwise prev, its last token glued to the first token of curr
   * when prev is broken and curr has tokens.
   */
  function HandedOver(w: Window): seq<seq<String>> {
    if |w.prev| == 0 then []
    else if Stitches(w.prev, w.prevBroken, w.curr) then [Glue(w.prev, w.curr[0])]
    else [w.prev]
  }

  /** What is left of curr after a pass: its first token goes when it was glued onto prev. */
  function Remaining(w: Window): seq<String> {
    if Stitches(w.prev, w.prevBroken, w.curr) then w.curr[1..] else w.curr
  }

  /** The window after a pass of the loop that scans `next`: curr, less a glued token, becomes prev. */
  function Shift(w: Window, next: Line): Window {
    Window(Remaining(w), w.currBroken, next.tokens, next.broken)
  }

  /** The window, and what has been handed to processLine, once the loop has scanned `lines`. */
  function ScanLines(lines: seq<String>, removeHTML: bool): (Window, seq<seq<String>>) {
    if lines == [] then (Window([], false, [], false), [])
    else
      var prior := ScanLines(lines[..|lines| - 1], removeHTML);
      (Shift(prior.0, Normalize(lines[|lines| - 1], removeHTML)), prior.1 + HandedOver(prior.0))
  }

  /** A pass of the loop moves the window from line n to line n+1. */
  lemma ShiftWindow(ns: seq<Line>, n: nat)
    requires n < |ns|
    ensures Shift(WindowAt(ns, n), ns[n]) == WindowAt(ns, n + 1)
  {
    if n >= 2 {
      assert Cur(ns, n - 1) == Shift(WindowAt(ns, n), ns[n]).prev;
    }
  }

  /** What a pass hands to processLine is the next line of EmittedPrefix: Joined(n-2), unless line n-2 is empty. */
  lemma HandOverWindow(ns: seq<Line>, n: nat)
    requires n < |ns|
    ensures EmittedPrefix(ns, Handed(n)) + HandedOver(WindowAt(ns, n)) == EmittedPrefix(ns, Handed(n + 1))
  {
    if n < 2 {
      assert WindowAt(ns, n).prev == [];
      assert HandedOver(WindowAt(ns, n)) == [];
      assert Handed(n) == Handed(n + 1) == 0;
    } else {
      var w := WindowAt(ns, n);
      assert Handed(n) == n - 2 && Handed(n + 1) == n - 1;
      assert w.prev == Cur(ns, n - 2) && w.prevBroken == ns[n - 2].broken && w.curr == ns[n - 1].tokens;
      if |w.prev| == 0 {
        assert HandedOver(w) == [];
      } else {
        assert HandedOver(w) == [Joined(ns, n - 2)];
      }
    }
  }

  /** Scanning one more line is one more pass of the loop. */
  lemma ScanLinesStep(lines: seq<String>, removeHTML: bool, n: nat)
    requires n < |lines|
    ensures var prior := ScanLines(lines[..n], removeHTML);
      ScanLines(lines[..n + 1], removeHTML)
      == (Shift(prior.0, Normalize(lines[n], removeHTML)), prior.1 + HandedOver(prior.0))
  {
    assert lines[..n + 1][..n] == lines[..n];
  }

  /** The pass-by-pass account of the loop agrees with the closed form WindowAt / EmittedPrefix. */
  lemma {:induction false} ScanLinesClosed(lines: seq<String>, removeHTML: bool, n: nat)
    requires n <= |lines|
    ensures var ns := NormalizeAll(lines, removeHTML);
      ScanLines(lines[..n], removeHTML) == (WindowAt(ns, n), EmittedPrefix(ns, Handed(n)))
  {
    var ns := NormalizeAll(lines, removeHTML);
    if n > 0 {
      ScanLinesClosed(lines, removeHTML, n - 1);
      assert lines[..n][..n - 1] == lines[..n - 1];
      assert lines[..n][n - 1] == lines[n - 1];
      assert ns[n - 1] == Normalize(lines[n - 1], removeHTML);
      ShiftWindow(ns, n - 1);
      HandOverWindow(ns, n - 1);
    }
  }

  /** The whole of processFile: the loop, then processLine(curr) on the last line. */
  lemma ScanLinesEmitted(lines: seq<String>, removeHTML: bool)
    ensures var scan := ScanLines(lines, removeHTML);
      scan.1 + [scan.0.curr] == Emitted(NormalizeAll(lines, removeHTML))
  {
    var ns := NormalizeAll(lines, removeHTML);
    ScanLinesClosed(lines, removeHTML, |lines|);
    assert lines[..|lines|] == lines;
  }

  /**
   * Everything processFile hands to processLine, in order: the final line is
   * handed over last, exactly as normalize returned it.
   */
  function Emitted(ns: seq<Line>): (r: seq<seq<String>>)
    ensures |r| >= 1 && (|ns| >= 1 ==> r[|r| - 1] == ns[|ns| - 1].tokens)
  {
    if |ns| == 0 then [[]]
    else if |ns| == 1 then [ns[0].tokens]
    else EmittedPrefix(ns, |ns| - 2) + [ns[|ns| - 1].tokens]
  }

  /** All characters of a list of lines, in order. */
  function Flat(lines: seq<seq<String>>): String {
    if lines == [] then [] else Flat(lines[..|lines| - 1]) + Concat(lines[|lines| - 1])
  }

  /** All characters of the tokens of the normalized lines, in order. */
  function AllText(ns: seq<Line>): String {
    if ns == [] then [] else AllText(ns[..|ns| - 1]) + Concat(ns[|ns| - 1].tokens)
  }

  lemma FlatAppend(a: seq<seq<String>>, l: seq<String>)
    ensures Flat(a + [l]) == Flat(a) + Concat(l)
  {
    assert (a + [l])[..|a|] == a;
  }

  lemma ConcatOne(x: String)
    ensures Concat([x]) == x
  {
    assert [x][1..] == [];
    assert Concat([x]) == x + Concat([]);
  }

  /** The concatenation of a non-empty token list ends with its last token. */
  lemma ConcatLast(ts: seq<String>)
    requires |ts| > 0
    ensures Concat(ts) == Concat(ts[..|ts| - 1]) + ts[|ts| - 1]
  {
    assert ts == ts[..|ts| - 1] + [ts[|ts| - 1]];
    ConcatAppend(ts[..|ts| - 1], [ts[|ts| - 1]]);
    ConcatOne(ts[|ts| - 1]);
  }

  lemma ConcatGlue(prev: seq<String>, first: String)
    requires |prev| > 0
    ensures Concat(Glue(prev, first)) == Concat(prev) + first
  {
    ConcatLast(Glue(prev, first));
    ConcatLast(prev);
    AppendAssoc(Concat(prev[..|prev| - 1]), prev[|prev| - 1], first);
  }

  /**
   * Stitching moves characters, never loses or adds them: what the loop has
   * handed over for lines 0..k-1, followed by what it still holds of line k,
   * spells lines 0..k in order.
   */
  lemma {:induction false} StitchKeepsText(ns: seq<Line>, k: nat)
    requires k + 1 < |ns|
    ensures Flat(EmittedPrefix(ns, k)) + Concat(Cur(ns, k)) == AllText(ns[..k + 1])
  {
    if k == 0 {
      assert ns[..1][..0] == [];
    } else {
      StitchKeepsText(ns, k - 1);
      assert AllText(ns[..k + 1]) == AllText(ns[..k]) + Concat(ns[k].tokens) by {
        assert ns[..k + 1][..k] == ns[..k];
      }
      if |Cur(ns, k - 1)| == 0 {
        StepSkipped(ns, k);
      } else if Stitches(Cur(ns, k - 1), ns[k - 1].broken, ns[k].tokens) {
        StepStitched(ns, k);
      } else {
        StepPlain(ns, k);
      }
    }
  }

  /** An empty line k-1 is skipped and line k is kept whole. */
  lemma StepSkipped(ns: seq<Line>, k: nat)
    requires 0 < k && k + 1 < |ns| && |Cur(ns, k - 1)| == 0
    ensures Flat(EmittedPrefix(ns, k)) + Concat(Cur(ns, k))
            == Flat(EmittedPrefix(ns, k - 1)) + Concat(Cur(ns, k - 1)) + Concat(ns[k].tokens)
  {
    var prefix := EmittedPrefix(ns, k - 1);
    assert EmittedPrefix(ns, k) == prefix + [] == prefix;
    assert Cur(ns, k - 1) == [];
    assert Cur(ns, k) == ns[k].tokens;
  }

  /** Line k-1 is handed over as it is and line k is kept whole. */
  lemma StepPlain(ns: seq<Line>, k: nat)
    requires 0 < k && k + 1 < |ns| && |Cur(ns, k - 1)| > 0
    requires !Stitches(Cur(ns, k - 1), ns[k - 1].broken, ns[k].tokens)
    ensures Flat(EmittedPrefix(ns, k)) + Concat(Cur(ns, k))
            == Flat(EmittedPrefix(ns, k - 1)) + Concat(Cur(ns, k - 1)) + Concat(ns[k].tokens)
  {
    var prefix := EmittedPrefix(ns, k - 1);
    assert Joined(ns, k - 1) == Cur(ns, k - 1);
    assert EmittedPrefix(ns, k) == prefix + [Cur(ns, k - 1)];
    FlatAppend(prefix, Cur(ns, k - 1));
    assert Cur(ns, k) == ns[k].tokens;
  }

  /** Line k-1 takes line k's first token, which line k loses. */
  lemma StepStitched(ns: seq<Line>, k: nat)
    requires 0 < k && k + 1 < |ns|
    requires Stitches(Cur(ns, k - 1), ns[k - 1].broken, ns[k].tokens)
    ensures Flat(EmittedPrefix(ns, k)) + Concat(Cur(ns, k))
            == Flat(EmittedPrefix(ns, k - 1)) + Concat(Cur(ns, k - 1)) + Concat(ns[k].tokens)
  {
    var prefix := EmittedPrefix(ns, k - 1);
    var c := Cur(ns, k - 1);
    var next := ns[k].tokens;
    var j := Glue(c, next[0]);
    assert Joined(ns, k - 1) == j;
    assert EmittedPrefix(ns, k) == prefix + [j];
    FlatAppend(prefix, j);
    ConcatGlue(c, next[0]);
    assert Concat(next) == next[0] + Concat(next[1..]);
    assert Cur(ns, k) == next[1..];
  }

  /** With two lines only the second is processed: the first is lost. */
  lemma TwoLines(a: Line, b: Line)
    ensures Emitted([a, b]) == [b.tokens]
  {
  }

  /**
   * With three lines the first is processed, glued to the second line's first
   * token when it is broken, the second is lost, and the third is processed as is.
   */
  lemma ThreeLines(a: Line, b: Line, c: Line)
    ensures Emitted([a, b, c]) ==
      (if a.tokens == [] then []
       else if a.broken && b.tokens != [] then [Glue(a.tokens, b.tokens[0])]
       else [a.tokens])
      + [c.tokens]
  {
    var ns := [a, b, c];
    assert Cur(ns, 0) == a.tokens;
    assert EmittedPrefix(ns, 1) == (if |a.tokens| > 0 then [Joined(ns, 0)] else []);
  }

  /** "Won-" / "der land" / "end": "wonder" is stitched, "land" (line n-2's remainder) is lost. */
  lemma StitchExample()
    ensures Emitted([Line(["won"], true), Line(["der", "land"], false), Line(["end"], false)])
            == [["wonder"], ["end"]]
  {
    ThreeLines(Line(["won"], true), Line(["der", "land"], false), Line(["end"], false));
    assert ["won"][..0] == [];
    assert "won" + "der" == "wonder";
    assert Glue(["won"], "der") == [] + ["wonder"];
  }
}
