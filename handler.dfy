/**
 * The handler (main.go:133-149) and what it does with the input: parseFlags
 * (main.go:153-178), processFile's scanner loop (main.go:235-276) and
 * processLine (main.go:317-344). The file system is a parameter: a map from
 * path to the lines the scanner would return.
 */
module Handler {
  import opened Base
  import opened Text
  import opened Normalizer
  import opened Transformer
  import opened Flags
  import opened Aggregator
  import opened Stitcher
  import Reporter

  /** What processLine reads from the handler. */
  datatype Config = Config(removeWords: set<String>, swaps: seq<NGramSwap>, removeHTML: bool)

  /** The words and letters tallies together. */
  type Tallies = (Tally, Tally)

  /** How many times key `k` occurs among the one-rune strings of the runes of `s`. */
  function RuneCount(s: String, k: String): nat {
    if |k| == 1 then multiset(s)[k[0]] else 0
  }

  lemma RuneCountSnoc(s: String, c: char)
    ensures forall k :: RuneCount(s + [c], k) == RuneCount(s, k) + (if k == [c] then 1 else 0)
  {
    forall k
      ensures RuneCount(s + [c], k) == RuneCount(s, k) + (if k == [c] then 1 else 0)
    {
      if |k| == 1 {
        assert k == [c] <==> k[0] == c;
      }
    }
  }

  /** The raw-letter loop of processLine: one inc(letters, rune, "", removed) per rune of `s`. */
  function RawLetters(t: Tally, s: String, isRemoved: bool): (r: Tally)
    ensures r.swapped == t.swapped && r.both == t.both
    ensures r.countSwapped == t.countSwapped && r.countBoth == t.countBoth
    ensures isRemoved ==> r.removed == t.removed
    // universal, and removed for a kept word, count each rune of `s` once
    // more under its one-rune key; no other key changes
    ensures forall k :: Get(r.universal, k) == Get(t.universal, k) + RuneCount(s, k)
    ensures !isRemoved ==> forall k :: Get(r.removed, k) == Get(t.removed, k) + RuneCount(s, k)
    decreases |s|
  {
    if s == [] then t
    else
      var init, c := s[..|s| - 1], s[|s| - 1];
      var mid := RawLetters(t, init, isRemoved);
      assert s == init + [c];
      RuneCountSnoc(init, c);
      IncXGet(mid.universal, [c]);
      IncXGet(mid.removed, [c]);
      IncT(mid, [c], [], isRemoved)
  }

  /** The swapped-letter loop of processLine: one inc(letters, "", rune, removed) per rune of `s`. */
  function SwappedLetters(t: Tally, s: String, isRemoved: bool): (r: Tally)
    ensures r.universal == t.universal && r.removed == t.removed
    ensures r.count == t.count && r.countRemoved == t.countRemoved
    ensures isRemoved ==> r.both == t.both && r.countBoth == t.countBoth
    // swapped, and both for a kept word, count each rune of `s` once more
    // under its one-rune key; no other key changes
    ensures forall k :: Get(r.swapped, k) == Get(t.swapped, k) + RuneCount(s, k)
    ensures !isRemoved ==> forall k :: Get(r.both, k) == Get(t.both, k) + RuneCount(s, k)
    decreases |s|
  {
    if s == [] then t
    else
      var init, c := s[..|s| - 1], s[|s| - 1];
      var mid := SwappedLetters(t, init, isRemoved);
      assert s == init + [c];
      RuneCountSnoc(init, c);
      IncXGet(mid.swapped, [c]);
      IncXGet(mid.both, [c]);
      IncT(mid, [], [c], isRemoved)
  }

  /** What processLine does for one token. */
  function FeedWord(ts: Tallies, cfg: Config, word: String): (r: Tallies)
    ensures r.0.count == ts.0.count + (if word != [] then 1 else 0)
    ensures word in cfg.removeWords ==>
      r.0.removed == ts.0.removed && r.0.both == ts.0.both && r.1.removed == ts.1.removed && r.1.both == ts.1.both
    ensures word !in cfg.removeWords ==> r.0.countRemoved == ts.0.countRemoved
    // the words record counts the token under its raw and its swapped form,
    // in removed and both only when the token is kept
    ensures r.0.universal == IncX(ts.0.universal, word)
    ensures r.0.swapped == IncX(ts.0.swapped, SwappedForm(word, cfg.swaps))
    ensures word !in cfg.removeWords ==>
      r.0.removed == IncX(ts.0.removed, word) && r.0.both == IncX(ts.0.both, SwappedForm(word, cfg.swaps))
    // the letters record counts every rune of the token, and of its swapped form
    ensures forall k :: Get(r.1.universal, k) == Get(ts.1.universal, k) + RuneCount(word, k)
    ensures forall k :: Get(r.1.swapped, k) == Get(ts.1.swapped, k) + RuneCount(SwappedForm(word, cfg.swaps), k)
  {
    var swapped := SwappedForm(word, cfg.swaps);
    var isRemoved := word in cfg.removeWords;
    (IncT(ts.0, word, swapped, isRemoved),
     SwappedLetters(RawLetters(ts.1, word, isRemoved), swapped, isRemoved))
  }

  /**
   * Tokens are lower-case and the -removeWord values are not lowered, so a
   * remove word holding an upper-case letter changes nothing processLine does
   * with any token normalize returns.
   */
  lemma UpperRemoveWordUnused(ts: Tallies, cfg: Config, w: String, ln: String, i: nat)
    requires exists k :: 0 <= k < |w| && IsUpper(w[k])
    requires i < |Normalize(ln, cfg.removeHTML).tokens|
    ensures var tok := Normalize(ln, cfg.removeHTML).tokens[i];
      FeedWord(ts, cfg.(removeWords := cfg.removeWords + {w}), tok) == FeedWord(ts, cfg, tok)
  {
    var tok := Normalize(ln, cfg.removeHTML).tokens[i];
    NormalizeTokens(ln, cfg.removeHTML);
    var k :| 0 <= k < |w| && IsUpper(w[k]);
    assert forall j :: 0 <= j < |tok| ==> !IsUpper(tok[j]);
    assert tok != w;
    assert (tok in cfg.removeWords + {w}) == (tok in cfg.removeWords);
  }

  /**
   * Worked token: with the swap "th,x" and "the" removed, "the" is still
   * counted in universal, its swapped form "xe" is counted in swapped, and
   * neither reaches removed or both.
   */
  lemma FeedWordRemovedSwapped()
    ensures var cfg := Config({"the"}, [NGramSwap("th", "x")], false);
      var r := FeedWord((EmptyTally(), EmptyTally()), cfg, "the").0;
      && Get(r.universal, "the") == 1 && Get(r.swapped, "xe") == 1
      && r.removed == map[] && r.both == map[]
  {
    var cfg := Config({"the"}, [NGramSwap("th", "x")], false);
    assert SwappedForm("the", cfg.swaps) == "xe" by {
      assert HasPrefix("the", "th") && "the"[2..] == "e";
      assert !HasPrefix("e", "th") && "e"[1..] == [];
    }
  }

  /** processLine: every token of the line, in order. */
  function FeedLine(ts: Tallies, cfg: Config, ln: seq<String>): (r: Tallies)
    ensures (forall i :: 0 <= i < |ln| ==> ln[i] != []) ==> r.0.count == ts.0.count + |ln|
  {
    if ln == [] then ts else FeedWord(FeedLine(ts, cfg, ln[..|ln| - 1]), cfg, ln[|ln| - 1])
  }

  lemma FeedLineStep(ts: Tallies, cfg: Config, ln: seq<String>, i: nat)
    requires i < |ln|
    ensures FeedLine(ts, cfg, ln[..i + 1]) == FeedWord(FeedLine(ts, cfg, ln[..i]), cfg, ln[i])
  {
    assert ln[..i + 1][..i] == ln[..i];
  }

  /** processLine applied to each line in turn. */
  function FeedLines(ts: Tallies, cfg: Config, lines: seq<seq<String>>): Tallies {
    if lines == [] then ts else FeedLine(FeedLines(ts, cfg, lines[..|lines| - 1]), cfg, lines[|lines| - 1])
  }

  lemma FeedLinesAppend(ts: Tallies, cfg: Config, lines: seq<seq<String>>, ln: seq<String>)
    ensures FeedLines(ts, cfg, lines + [ln]) == FeedLine(FeedLines(ts, cfg, lines), cfg, ln)
  {
    assert (lines + [ln])[..|lines|] == lines;
  }

  /**
   * The raw-letter loop counts one raw key per rune: `count` grows by the rune
   * count, `countRemoved` too when the word is removed, the swapped counters
   * stay, and the invariant holds throughout.
   */
  lemma {:induction false} RawLettersCounts(t: Tally, s: String, isRemoved: bool)
    requires TallyInv(t)
    ensures var r := RawLetters(t, s, isRemoved);
      && TallyInv(r)
      && r.count == t.count + |s|
      && r.countRemoved == t.countRemoved + (if isRemoved then |s| else 0)
      && r.countSwapped == t.countSwapped && r.countBoth == t.countBoth
  {
    if s != [] {
      RawLettersCounts(t, s[..|s| - 1], isRemoved);
      IncTKeepsInv(RawLetters(t, s[..|s| - 1], isRemoved), [s[|s| - 1]], [], isRemoved);
    }
  }

  /**
   * The swapped-letter loop counts one swapped key per rune: `countSwapped`
   * grows by the rune count, `countBoth` too unless the word is removed, and
   * the raw counters stay.
   */
  lemma {:induction false} SwappedLettersCounts(t: Tally, s: String, isRemoved: bool)
    requires TallyInv(t)
    ensures var r := SwappedLetters(t, s, isRemoved);
      && TallyInv(r)
      && r.countSwapped == t.countSwapped + |s|
      && r.countBoth == t.countBoth + (if isRemoved then 0 else |s|)
      && r.count == t.count && r.countRemoved == t.countRemoved
  {
    if s != [] {
      SwappedLettersCounts(t, s[..|s| - 1], isRemoved);
      IncTKeepsInv(SwappedLetters(t, s[..|s| - 1], isRemoved), [], [s[|s| - 1]], isRemoved);
    }
  }

  /**
   * Letters per word: for a token, words.count grows by exactly one,
   * letters.count by its rune count and letters.countSwapped by the rune count
   * of its swapped form; both invariants are kept.
   */
  lemma FeedWordCounts(ts: Tallies, cfg: Config, word: String)
    requires word != [] && TallyInv(ts.0) && TallyInv(ts.1)
    ensures var r := FeedWord(ts, cfg, word);
      && TallyInv(r.0) && TallyInv(r.1)
      && r.0.count == ts.0.count + 1
      && r.1.count == ts.1.count + |word|
      && r.1.countSwapped == ts.1.countSwapped + |SwappedForm(word, cfg.swaps)|
  {
    var swapped := SwappedForm(word, cfg.swaps);
    var isRemoved := word in cfg.removeWords;
    IncTKeepsInv(ts.0, word, swapped, isRemoved);
    RawLettersCounts(ts.1, word, isRemoved);
    SwappedLettersCounts(RawLetters(ts.1, word, isRemoved), swapped, isRemoved);
  }

  lemma {:induction false} FeedLinesConcat(ts: Tallies, cfg: Config, a: seq<seq<String>>, b: seq<seq<String>>)
    ensures FeedLines(ts, cfg, a + b) == FeedLines(FeedLines(ts, cfg, a), cfg, b)
  {
    if b == [] {
      assert a + b == a;
    } else {
      var init, last := b[..|b| - 1], b[|b| - 1];
      assert b == init + [last];
      assert a + b == (a + init) + [last];
      calc {
        FeedLines(ts, cfg, a + b);
        { FeedLinesAppend(ts, cfg, a + init, last); }
        FeedLine(FeedLines(ts, cfg, a + init), cfg, last);
        { FeedLinesConcat(ts, cfg, a, init); }
        FeedLine(FeedLines(FeedLines(ts, cfg, a), cfg, init), cfg, last);
        { FeedLinesAppend(FeedLines(ts, cfg, a), cfg, init, last); }
        FeedLines(FeedLines(ts, cfg, a), cfg, b);
      }
    }
  }

  /** Every sequence of processed lines keeps both invariants. */
  lemma {:induction false} FeedLineInv(ts: Tallies, cfg: Config, ln: seq<String>)
    requires TallyInv(ts.0) && TallyInv(ts.1)
    ensures TallyInv(FeedLine(ts, cfg, ln).0) && TallyInv(FeedLine(ts, cfg, ln).1)
  {
    if ln != [] {
      FeedLineInv(ts, cfg, ln[..|ln| - 1]);
      var mid := FeedLine(ts, cfg, ln[..|ln| - 1]);
      var word := ln[|ln| - 1];
      var swapped := SwappedForm(word, cfg.swaps);
      var isRemoved := word in cfg.removeWords;
      IncTKeepsInv(mid.0, word, swapped, isRemoved);
      RawLettersCounts(mid.1, word, isRemoved);
      SwappedLettersCounts(RawLetters(mid.1, word, isRemoved), swapped, isRemoved);
    }
  }

  lemma {:induction false} FeedLinesInv(ts: Tallies, cfg: Config, lines: seq<seq<String>>)
    requires TallyInv(ts.0) && TallyInv(ts.1)
    ensures TallyInv(FeedLines(ts, cfg, lines).0) && TallyInv(FeedLines(ts, cfg, lines).1)
  {
    if lines != [] {
      FeedLinesInv(ts, cfg, lines[..|lines| - 1]);
      FeedLineInv(FeedLines(ts, cfg, lines[..|lines| - 1]), cfg, lines[|lines| - 1]);
    }
  }

  /** Every file of `paths`, in order, through processFile from the tallies `ts`. */
  function FeedFiles(ts: Tallies, cfg: Config, paths: seq<String>, files: map<String, seq<String>>): Tallies
    requires forall i :: 0 <= i < |paths| ==> paths[i] in files
  {
    if paths == [] then ts
    else FeedLines(FeedFiles(ts, cfg, paths[..|paths| - 1], files), cfg,
                   Emitted(NormalizeAll(files[paths[|paths| - 1]], cfg.removeHTML)))
  }

  /** A whole run keeps both invariants, so every report cell lies within its column total. */
  lemma {:induction false} FeedFilesInv(ts: Tallies, cfg: Config, paths: seq<String>, files: map<String, seq<String>>)
    requires forall i :: 0 <= i < |paths| ==> paths[i] in files
    requires TallyInv(ts.0) && TallyInv(ts.1)
    ensures TallyInv(FeedFiles(ts, cfg, paths, files).0) && TallyInv(FeedFiles(ts, cfg, paths, files).1)
  {
    if paths != [] {
      var init := paths[..|paths| - 1];
      FeedFilesInv(ts, cfg, init, files);
      FeedLinesInv(FeedFiles(ts, cfg, init, files), cfg,
                   Emitted(NormalizeAll(files[paths[|paths| - 1]], cfg.removeHTML)));
    }
  }

  /** What run ends with: the error that stopped it, or the words and letters tables it printed. */
  datatype Outcome = Failed(error: Error) | Printed(words: Reporter.Table, letters: Reporter.Table)

  /**
   * The precheck loop of run: every argument must end in ".txt" and name a
   * file that exists; the first that does not stops the command.
   */
  method CheckArgs(args: seq<String>, files: map<String, seq<String>>) returns (err: Option<Error>)
    ensures err == Precheck(args, files.Keys)
  {
    for i := 0 to |args|
      invariant forall j :: 0 <= j < i ==> IsTxtPath(args[j]) && args[j] in files
    {
      if !HasSuffix(args[i], ".txt") {
        PrecheckFirst(args, files.Keys, i, NotTxt(args[i]));
        return Some(NotTxt(args[i]));
      }
      if args[i] !in files {
        PrecheckFirst(args, files.Keys, i, Missing(args[i]));
        return Some(Missing(args[i]));
      }
    }
    return None;
  }

  /** The four totals agree and nothing is removed. */
  predicate Balanced(t: Tally) {
    t.count == t.countSwapped == t.countBoth && t.countRemoved == 0
  }

  /**
   * Without swaps and without remove words every column of the report has the
   * same total, for words and for letters alike.
   */
  lemma {:induction false} PlainRunBalanced(ts: Tallies, cfg: Config, ln: seq<String>)
    requires cfg.swaps == [] && cfg.removeWords == {}
    requires TallyInv(ts.0) && TallyInv(ts.1) && Balanced(ts.0) && Balanced(ts.1)
    ensures Balanced(FeedLine(ts, cfg, ln).0) && Balanced(FeedLine(ts, cfg, ln).1)
  {
    if ln != [] {
      PlainRunBalanced(ts, cfg, ln[..|ln| - 1]);
      FeedLineInv(ts, cfg, ln[..|ln| - 1]);
      PlainWordBalanced(FeedLine(ts, cfg, ln[..|ln| - 1]), cfg, ln[|ln| - 1]);
    }
  }

  /** The step of PlainRunBalanced: one token without swaps or remove words. */
  lemma PlainWordBalanced(ts: Tallies, cfg: Config, word: String)
    requires cfg.swaps == [] && cfg.removeWords == {}
    requires TallyInv(ts.0) && TallyInv(ts.1) && Balanced(ts.0) && Balanced(ts.1)
    ensures Balanced(FeedWord(ts, cfg, word).0) && Balanced(FeedWord(ts, cfg, word).1)
  {
    assert SwappedForm(word, cfg.swaps) == word;
    IncTKeepsInv(ts.0, word, word, false);
    RawLettersCounts(ts.1, word, false);
    SwappedLettersCounts(RawLetters(ts.1, word, false), word, false);
  }

  /** The handler: the parsed flags and the two stats records. */
  class Handler {
    var removeWords: set<String>
    var swapNGrams: seq<NGramSwap>
    var removeHTML: bool
    const words: Stats
    const letters: Stats

    /** The two stats records are distinct objects. */
    ghost predicate Valid()
      reads this
    {
      words != letters
    }

    function Cfg(): Config
      reads this
    {
      Config(removeWords, swapNGrams, removeHTML)
    }

    function Snap(): Tallies
      reads words, letters
    {
      (words.Value(), letters.Value())
    }

    /** newHandler */
    constructor()
      ensures Valid() && fresh(words) && fresh(letters)
      ensures Cfg() == Config({}, [], false)
      ensures Snap() == (EmptyTally(), EmptyTally())
    {
      removeWords := {};
      swapNGrams := [];
      removeHTML := false;
      words := new Stats();
      letters := new Stats();
    }

    /**
     * parseFlags: each -swapNgram value in order is lowered and split on ',';
     * the first value that does not give two parts stops the parse (the swaps
     * before it stay appended); otherwise the remove words are added as given
     * and the HTML flag is copied.
     */
    method ParseFlags(swapSpecs: seq<String>, removeList: seq<String>, removeHTMLFlag: bool)
      returns (err: Option<Error>)
      modifies this
      ensures err.None? <==> ParseSwaps(swapSpecs).Ok?
      ensures err.None? ==>
        && swapNGrams == old(swapNGrams) + ParseSwaps(swapSpecs).value
        && removeWords == old(removeWords) + RemoveSet(removeList)
        && removeHTML == removeHTMLFlag
      ensures err.Some? ==> exists i: nat ::
        && FirstBad(swapSpecs, i)
        && err == Some(BadSwapSpec(swapSpecs[i]))
        && ParseSwaps(swapSpecs[..i]).Ok?
        && swapNGrams == old(swapNGrams) + ParseSwaps(swapSpecs[..i]).value
        && removeWords == old(removeWords) && removeHTML == old(removeHTML)
    {
      err := AddSwaps(swapSpecs);
      if err.Some? {
        return;
      }
      AddRemoveWords(removeList);
      removeHTML := removeHTMLFlag;
    }

    /** The -swapNgram loop of parseFlags (main.go:153-168). */
    method AddSwaps(swapSpecs: seq<String>) returns (err: Option<Error>)
      modifies this
      ensures err.None? <==> ParseSwaps(swapSpecs).Ok?
      ensures err.None? ==> swapNGrams == old(swapNGrams) + ParseSwaps(swapSpecs).value
      ensures err.Some? ==> exists i: nat ::
        && FirstBad(swapSpecs, i)
        && err == Some(BadSwapSpec(swapSpecs[i]))
        && ParseSwaps(swapSpecs[..i]).Ok?
        && swapNGrams == old(swapNGrams) + ParseSwaps(swapSpecs[..i]).value
      ensures removeWords == old(removeWords) && removeHTML == old(removeHTML)
    {
      ParseSwapsOk(swapSpecs);
      for i := 0 to |swapSpecs|
        invariant ParseSwaps(swapSpecs[..i]).Ok?
        invariant swapNGrams == old(swapNGrams) + ParseSwaps(swapSpecs[..i]).value
        invariant removeWords == old(removeWords) && removeHTML == old(removeHTML)
      {
        var swap := swapSpecs[i];
        var parts := Split(ToLower(swap), ',');
        ParseSwapParts(swap);
        ParseSwapsStep(swapSpecs, i);
        if |parts| != 2 {
          assert FirstBad(swapSpecs, i);
          return Some(BadSwapSpec(swap));
        }
        swapNGrams := swapNGrams + [NGramSwap(parts[0], parts[1])];
      }
      assert swapSpecs[..|swapSpecs|] == swapSpecs;
      return None;
    }

    /** The -removeWord loop of parseFlags (main.go:170-172). */
    method AddRemoveWords(removeList: seq<String>)
      modifies this
      ensures removeWords == old(removeWords) + RemoveSet(removeList)
      ensures swapNGrams == old(swapNGrams) && removeHTML == old(removeHTML)
    {
      for j := 0 to |removeList|
        invariant swapNGrams == old(swapNGrams) && removeHTML == old(removeHTML)
        invariant removeWords == old(removeWords) + RemoveSet(removeList[..j])
      {
        assert removeList[..j + 1] == removeList[..j] + [removeList[j]];
        removeWords := removeWords + {removeList[j]};
      }
      assert removeList[..|removeList|] == removeList;
    }

    /** The raw-letter loop of processLine: inc(letters, rune, "", removed) for every rune of the token. */
    method CountLetters(word: String, isRemoved: bool)
      modifies letters
      ensures letters.Value() == RawLetters(old(letters.Value()), word, isRemoved)
    {
      for k := 0 to |word|
        invariant letters.Value() == RawLetters(old(letters.Value()), word[..k], isRemoved)
      {
        assert word[..k + 1][..k] == word[..k];
        letters.Inc([word[k]], [], isRemoved);
      }
      assert word[..|word|] == word;
    }

    /** The swapped-letter loop of processLine: inc(letters, "", rune, removed) for every rune of the swapped form. */
    method CountSwappedLetters(swapped: String, isRemoved: bool)
      modifies letters
      ensures letters.Value() == SwappedLetters(old(letters.Value()), swapped, isRemoved)
    {
      for k := 0 to |swapped|
        invariant letters.Value() == SwappedLetters(old(letters.Value()), swapped[..k], isRemoved)
      {
        assert swapped[..k + 1][..k] == swapped[..k];
        letters.Inc([], [swapped[k]], isRemoved);
      }
      assert swapped[..|swapped|] == swapped;
    }

    /** processLine: every token of the line is fed, in order. */
    method ProcessLine(ln: seq<String>)
      requires Valid()
      modifies words, letters
      ensures Snap() == FeedLine(old(Snap()), Cfg(), ln)
    {
      for i := 0 to |ln|
        invariant Snap() == FeedLine(old(Snap()), Cfg(), ln[..i])
      {
        ghost var before := Snap();
        var word := ln[i];
        var swapped := SwapWord(word, swapNGrams);
        var remove := word in removeWords;
        words.Inc(word, swapped, remove);
        CountLetters(word, remove);
        CountSwappedLetters(swapped, remove);
        assert Snap() == FeedWord(before, Cfg(), word);
        FeedLineStep(old(Snap()), Cfg(), ln, i);
      }
      assert ln[..|ln|] == ln;
    }

    /**
     * The body of the scanner loop before the next line is read: when prev has
     * tokens it goes to processLine, its last token first glued to the first
     * token of curr when prev is broken and curr is not empty; `rest` is what
     * is left of curr.
     */
    method HandOver(w: Window) returns (rest: seq<String>)
      requires Valid()
      modifies words, letters
      ensures Snap() == FeedLines(old(Snap()), Cfg(), HandedOver(w))
      ensures rest == Remaining(w)
    {
      var prev, curr := w.prev, w.curr;
      if |prev| > 0 {
        if w.prevBroken && |curr| > 0 {
          prev := Glue(prev, curr[0]);
          curr := curr[1..];
        }
        ProcessLine(prev);
        FeedLinesAppend(old(Snap()), Cfg(), [], prev);
        assert HandedOver(w) == [] + [prev];
      }
      return curr;
    }

    /**
     * processFile: the scanner loop with its two-line window, then the final
     * line. What it hands to processLine is Emitted of the normalized lines.
     */
    method ProcessFile(lines: seq<String>)
      requires Valid()
      modifies words, letters
      ensures Snap() == FeedLines(old(Snap()), Cfg(), Emitted(NormalizeAll(lines, removeHTML)))
    {
      ghost var start := Snap();
      ghost var fed: seq<seq<String>> := [];
      var prev: seq<String>, curr: seq<String> := [], [];
      var prevBroken, currBroken := false, false;
      var n := 0;
      while n < |lines|
        invariant 0 <= n <= |lines|
        invariant (Window(prev, prevBroken, curr, currBroken), fed) == ScanLines(lines[..n], removeHTML)
        invariant Snap() == FeedLines(start, Cfg(), fed)
      {
        var w := Window(prev, prevBroken, curr, currBroken);
        prev := HandOver(w);
        FeedLinesConcat(start, Cfg(), fed, HandedOver(w));
        fed := fed + HandedOver(w);
        prevBroken := currBroken;
        var ln := Normalize(lines[n], removeHTML);
        curr, currBroken := ln.tokens, ln.broken;
        ScanLinesStep(lines, removeHTML, n);
        n := n + 1;
      }
      ProcessLine(curr);
      FeedLinesAppend(start, Cfg(), fed, curr);
      assert lines[..n] == lines;
      ScanLinesEmitted(lines, removeHTML);
    }

    /** The aggregation loop of run: runFile, and so processFile, on every argument in order. */
    method RunFiles(args: seq<String>, files: map<String, seq<String>>)
      requires Valid()
      requires forall i :: 0 <= i < |args| ==> args[i] in files
      modifies words, letters
      ensures Snap() == FeedFiles(old(Snap()), Cfg(), args, files)
    {
      for i := 0 to |args|
        invariant Snap() == FeedFiles(old(Snap()), Cfg(), args[..i], files)
      {
        assert args[..i + 1][..i] == args[..i];
        ProcessFile(files[args[i]]);
      }
      assert args[..|args|] == args;
    }

    /**
     * run: parse the flags, precheck every argument, feed the files through
     * processFile in argument order, then print the words table (top 10) and
     * the letters table (every entry).
     */
    method Run(swapSpecs: seq<String>, removeList: seq<String>, removeHTMLFlag: bool,
               args: seq<String>, files: map<String, seq<String>>) returns (out: Outcome)
      requires Valid()
      modifies this, words, letters
      ensures out.Failed? ==> Snap() == old(Snap())
      ensures ParseSwaps(swapSpecs).Err? ==>
        exists i: nat :: FirstBad(swapSpecs, i) && out == Failed(BadSwapSpec(swapSpecs[i]))
      ensures ParseSwaps(swapSpecs).Ok? && Precheck(args, files.Keys).Some? ==>
        out == Failed(Precheck(args, files.Keys).value)
      ensures ParseSwaps(swapSpecs).Ok? && Precheck(args, files.Keys).None? ==>
        && Cfg() == Config(old(removeWords) + RemoveSet(removeList),
                           old(swapNGrams) + ParseSwaps(swapSpecs).value, removeHTMLFlag)
        && Snap() == FeedFiles(old(Snap()), Cfg(), args, files)
        && out == Printed(Reporter.Report(Snap().0, "words", 10), Reporter.Report(Snap().1, "letters", 0))
    {
      var err := ParseFlags(swapSpecs, removeList, removeHTMLFlag);
      if err.Some? {
        return Failed(err.value);
      }
      err := CheckArgs(args, files);
      if err.Some? {
        return Failed(err.value);
      }
      RunFiles(args, files);
      var w := Reporter.Print(words, "words", 10);
      var l := Reporter.Print(letters, "letters", 0);
      out := Printed(w, l);
    }
  }
}
